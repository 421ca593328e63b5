/** AUTHENTICATE chunking (internal/registration/sasl.go): a base64 payload goes out in pieces of
    at most 400 bytes, and a bare "+" closes a payload that would otherwise end on a full piece.
    The receiver is the one of the IRCv3 SASL specification, version 3.1. */
module Authenticate {
  import opened Common

  const CHUNK_SIZE := 400

  function Pieces(p: string): seq<string>
    decreases |p|
  {
    if |p| > CHUNK_SIZE then [p[..CHUNK_SIZE]] + Pieces(p[CHUNK_SIZE..])
    else if |p| == CHUNK_SIZE then [p, "+"]
    else [p]
  }

  function Chunks(p: string): seq<string> {
    if p == "" || p == "+" then ["+"] else Pieces(p)
  }

  /** sendAuthenticate's loop. */
  method SendAuthenticate(payload: string) returns (lines: seq<string>)
    ensures lines == Chunks(payload)
  {
    var b64 := payload;
    if b64 == "" || b64 == "+" {
      return ["+"];
    }
    lines := [];
    while |b64| > CHUNK_SIZE
      invariant Chunks(payload) == lines + Pieces(b64)
      decreases |b64|
    {
      lines := lines + [b64[..CHUNK_SIZE]];
      b64 := b64[CHUNK_SIZE..];
    }
    lines := lines + [b64];
    if |b64| == CHUNK_SIZE {
      lines := lines + ["+"];
    }
  }

  /** Concatenate until a bare "+" or a piece shorter than 400 bytes; None: the payload is not
      finished yet. The result is the payload and the lines left over. */
  function Receive(lines: seq<string>): Option<(string, seq<string>)> {
    if lines == [] then None
    else if lines[0] == "+" then Some(("", lines[1..]))
    else if |lines[0]| < CHUNK_SIZE then Some((lines[0], lines[1..]))
    else
      match Receive(lines[1..])
      case None => None
      case Some((rest, left)) => Some((lines[0] + rest, left))
  }

  lemma ChunksFirst(p: string)
    requires |p| > CHUNK_SIZE
    ensures Chunks(p) == [p[..CHUNK_SIZE]] + Chunks(p[CHUNK_SIZE..])
  {
    assert Pieces("+") == ["+"];
  }

  lemma ReceiveFirst(a: string, lines: seq<string>)
    requires |a| == CHUNK_SIZE && Receive(lines).Some?
    ensures Receive([a] + lines) == Some((a + Receive(lines).value.0, Receive(lines).value.1))
  {
    assert ([a] + lines)[1..] == lines;
  }

  /** Every full piece in place, then the remainder, or "+" exactly when there is none. No line is longer
      than 400 bytes. */
  ghost predicate ClosedForm(p: string, lines: seq<string>) {
    var q := |p| / CHUNK_SIZE;
    && |lines| == q + 1
    && (forall i :: 0 <= i < q ==> lines[i] == p[CHUNK_SIZE * i..CHUNK_SIZE * (i + 1)])
    && lines[q] == (if |p| % CHUNK_SIZE == 0 then "+" else p[CHUNK_SIZE * q..])
    && (forall i :: 0 <= i < |lines| ==> |lines[i]| <= CHUNK_SIZE)
  }

  lemma {:induction false} ChunksExact(p: string)
    ensures ClosedForm(p, Chunks(p))
    decreases |p|
  {
    if |p| > CHUNK_SIZE {
      ChunksExact(p[CHUNK_SIZE..]);
      ChunksFirst(p);
      ChunksLong(p, Chunks(p[CHUNK_SIZE..]));
    } else {
      ChunksShort(p);
    }
  }

  lemma ChunksShort(p: string)
    requires |p| <= CHUNK_SIZE
    ensures ClosedForm(p, Chunks(p))
  {
    if |p| == CHUNK_SIZE {
      assert Chunks(p) == [p, "+"] && p[0..CHUNK_SIZE] == p;
    } else {
      assert |p| / CHUNK_SIZE == 0 && p[0..] == p;
    }
  }

  lemma ChunksLong(p: string, tail: seq<string>)
    requires |p| > CHUNK_SIZE && ClosedForm(p[CHUNK_SIZE..], tail)
    ensures ClosedForm(p, [p[..CHUNK_SIZE]] + tail)
  {
    OneChunkLess(|p|);
    ShiftChunks(p, tail);
    ShiftLast(p);
  }

  lemma OneChunkLess(n: nat)
    requires n > CHUNK_SIZE
    ensures n / CHUNK_SIZE == (n - CHUNK_SIZE) / CHUNK_SIZE + 1 && n % CHUNK_SIZE == (n - CHUNK_SIZE) % CHUNK_SIZE
  {
  }

  lemma ShiftLast(p: string)
    requires |p| > CHUNK_SIZE
    ensures var q := |p| / CHUNK_SIZE; p[CHUNK_SIZE..][CHUNK_SIZE * (q - 1)..] == p[CHUNK_SIZE * q..]
  {
  }

  lemma ShiftChunks(p: string, tail: seq<string>)
    requires |p| > CHUNK_SIZE && |tail| == |p| / CHUNK_SIZE
    requires forall i :: 0 <= i < |tail| - 1 ==> tail[i] == p[CHUNK_SIZE..][CHUNK_SIZE * i..CHUNK_SIZE * (i + 1)]
    ensures var lines := [p[..CHUNK_SIZE]] + tail;
            forall i :: 0 <= i < |tail| ==> lines[i] == p[CHUNK_SIZE * i..CHUNK_SIZE * (i + 1)]
  {
    var lines := [p[..CHUNK_SIZE]] + tail;
    forall i | 0 <= i < |tail| ensures lines[i] == p[CHUNK_SIZE * i..CHUNK_SIZE * (i + 1)] {
      if i > 0 {
        assert lines[i] == tail[i - 1];
        ShiftOne(p, i);
      }
    }
  }

  lemma ShiftOne(p: string, i: nat)
    requires 0 < i && CHUNK_SIZE * (i + 1) <= |p|
    ensures p[CHUNK_SIZE..][CHUNK_SIZE * (i - 1)..CHUNK_SIZE * i] == p[CHUNK_SIZE * i..CHUNK_SIZE * (i + 1)]
  {
  }

  /** The payload ends in a one-byte piece that reads as the end mark. */
  predicate EndsInMark(p: string) {
    |p| % CHUNK_SIZE == 1 && p[|p| - 1] == '+'
  }

  function Delivered(p: string): string {
    if EndsInMark(p) then p[..|p| - 1] else p
  }

  lemma DeliveredFirst(p: string)
    requires |p| > CHUNK_SIZE
    ensures Delivered(p) == p[..CHUNK_SIZE] + Delivered(p[CHUNK_SIZE..])
  {
    var rest := p[CHUNK_SIZE..];
    assert EndsInMark(p) <==> EndsInMark(rest);
    assert p == p[..CHUNK_SIZE] + rest;
  }

  lemma ReceiveShort(p: string, more: seq<string>)
    requires |p| <= CHUNK_SIZE
    ensures Receive(Chunks(p) + more) == Some((Delivered(p), more))
  {
    var lines := Chunks(p) + more;
    if |p| == CHUNK_SIZE {
      assert lines == [p] + (["+"] + more) && (["+"] + more)[1..] == more;
      ReceiveFirst(p, ["+"] + more);
      assert p + "" == p;
    } else {
      assert lines[1..] == more;
      if p == "+" {
        assert p[..0] == "";
      }
    }
  }

  /** The receiver consumes exactly the lines of one payload, whatever follows. */
  lemma {:induction false} ReceiveChunks(p: string, more: seq<string>)
    ensures Receive(Chunks(p) + more) == Some((Delivered(p), more))
    decreases |p|
  {
    if |p| > CHUNK_SIZE {
      var rest := p[CHUNK_SIZE..];
      ReceiveChunks(rest, more);
      ReceiveFirst(p[..CHUNK_SIZE], Chunks(rest) + more);
      ChunksFirst(p);
      DeliveredFirst(p);
      assert Chunks(p) + more == [p[..CHUNK_SIZE]] + (Chunks(rest) + more);
    } else {
      ReceiveShort(p, more);
    }
  }

  /** It gets the payload back if and only if the last piece is not a "+" of the payload's own. */
  lemma ReceiveExact(p: string, more: seq<string>)
    ensures Receive(Chunks(p) + more) == Some((p, more)) <==> !EndsInMark(p)
  {
    ReceiveChunks(p, more);
  }

  /** Base64 text has a length divisible by 4, so it always survives. */
  lemma Base64RoundTrip(p: string, more: seq<string>)
    requires |p| % 4 == 0
    ensures Receive(Chunks(p) + more) == Some((p, more))
  {
    ReceiveChunks(p, more);
  }
}

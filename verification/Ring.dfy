/** The keeper's bounded line buffer (internal/keeper/ring.go): a circular array of
    sequence-numbered lines, refined to "the last `cap` lines ever pushed". */
module Ring {

  datatype Entry = Entry(seqNo: nat, epoch: nat, line: string, time: int)

  const DEFAULT_CAPACITY: nat := 4096

  /** How many of `n` pushed lines a ring of capacity `cap` has evicted. */
  function Evicted(n: nat, cap: nat): (e: nat)
    ensures e <= n && n - e <= cap
    ensures e == 0 <==> n <= cap
  {
    if n <= cap then 0 else n - cap
  }

  /** The lines a ring of capacity `cap` still holds after the pushes in `log`. */
  function Retained(log: seq<Entry>, cap: nat): seq<Entry> {
    log[Evicted(|log|, cap)..]
  }

  /** The entries of `es` whose number is above `after`, in order. */
  function Above(es: seq<Entry>, after: nat): seq<Entry> {
    if es == [] then [] else
      (if es[0].seqNo > after then [es[0]] else []) + Above(es[1..], after)
  }

  /** The watermark `after` is older than everything `retained` can replay. */
  predicate Gap(retained: seq<Entry>, after: nat) {
    retained != [] && after != 0 && after + 1 < retained[0].seqNo
  }

  /** Line numbers are handed out 1, 2, 3, ... with no hole (Keeper.nextSeq). */
  ghost predicate Numbered(log: seq<Entry>) {
    forall i :: 0 <= i < |log| ==> log[i].seqNo == i + 1
  }

  lemma {:induction false} AboveAppend(a: seq<Entry>, b: seq<Entry>, after: nat)
    ensures Above(a + b, after) == Above(a, after) + Above(b, after)
  {
    if a == [] {
      assert a + b == b;
    } else {
      assert (a + b)[1..] == a[1..] + b;
      AboveAppend(a[1..], b, after);
    }
  }

  /** On consecutively numbered lines, `Above` cuts at one position. */
  lemma {:induction false} AboveIsSuffix(es: seq<Entry>, first: nat, after: nat)
    requires forall i :: 0 <= i < |es| ==> es[i].seqNo == first + i
    ensures after < first ==> Above(es, after) == es
    ensures first <= after < first + |es| ==> Above(es, after) == es[after + 1 - first..]
    ensures after >= first + |es| ==> Above(es, after) == []
  {
    if es != [] {
      AboveIsSuffix(es[1..], first + 1, after);
    }
  }

  /** What `since` answers on a numbered log: the gap report is exact, and without a gap
      the backlog is the contiguous tail of everything ever pushed. */
  lemma SinceExact(log: seq<Entry>, cap: nat, after: nat)
    requires Numbered(log) && cap > 0
    ensures Gap(Retained(log, cap), after) <==> after != 0 && after < Evicted(|log|, cap)
    ensures !Gap(Retained(log, cap), after) ==>
              Above(Retained(log, cap), after)
              == (if after == 0 then Retained(log, cap)
                  else if after <= |log| then log[after..] else [])
  {
    var e := Evicted(|log|, cap);
    var es := Retained(log, cap);
    RetainedNumbered(log, cap);
    AboveIsSuffix(es, e + 1, after);
    if after != 0 && e <= after < |log| {
      assert es[after - e..] == log[after..];
    }
  }

  lemma RetainedNumbered(log: seq<Entry>, cap: nat)
    requires Numbered(log) && cap > 0
    ensures var e, es := Evicted(|log|, cap), Retained(log, cap);
            && (forall i :: 0 <= i < |es| ==> es[i].seqNo == e + 1 + i)
            && (es == [] <==> log == []) && e + |es| == |log|
  {
  }

  lemma WrapIndex(x: nat, cap: nat)
    requires 0 < cap && x < 2 * cap
    ensures x % cap == if x < cap then x else x - cap
  {
    if x >= cap {
      assert x == cap + (x - cap);
    }
  }

  /** The array index of the `i`-th oldest entry. */
  function Slot(start: nat, i: nat, cap: nat): (k: nat)
    requires start < cap && i <= cap
    ensures k < cap
  {
    if start + i < cap then start + i else start + i - cap
  }

  class LineRing {
    const buf: array<Entry>
    const cap: nat
    var start: nat
    var len: nat
    var dropped: nat
    ghost var log: seq<Entry>

    ghost predicate Valid()
      reads this, buf
    {
      && 0 < cap == buf.Length
      && start < cap && len <= cap
      && dropped == Evicted(|log|, cap)
      && dropped + len == |log|
      && (forall i :: 0 <= i < len ==> buf[Slot(start, i, cap)] == log[dropped + i])
    }

    constructor (capacity: int)
      ensures Valid() && log == [] && fresh(buf)
      ensures cap == if capacity <= 0 then DEFAULT_CAPACITY else capacity
    {
      var c: nat := if capacity <= 0 then DEFAULT_CAPACITY else capacity;
      var zero := Entry(0, 0, "", 0);
      buf := new Entry[c](_ => zero);
      cap := c;
      start, len, dropped, log := 0, 0, 0, [];
    }

    method Push(e: Entry) returns (evicted: bool)
      requires Valid()
      modifies this, buf
      ensures Valid()
      ensures log == old(log) + [e]
      ensures evicted <==> Evicted(|log|, cap) == Evicted(|old(log)|, cap) + 1
    {
      evicted := len == cap;
      if evicted {
        EvictOldest();
      }
      var idx := (start + len) % cap;
      assert idx == Slot(start, len, cap) by {
        WrapIndex(start + len, cap);
      }
      buf[idx] := e;
      len := len + 1;
      log := log + [e];
    }

    /** The eviction half of `push`: a full ring forgets its oldest entry. */
    method EvictOldest()
      requires Valid() && len == cap
      modifies this`start, this`len, this`dropped
      ensures start < cap && len == cap - 1
      ensures dropped == old(dropped) + 1 && dropped + len == |log|
      ensures forall i :: 0 <= i < len ==> buf[Slot(start, i, cap)] == log[dropped + i]
    {
      ghost var start0 := start;
      start := (start + 1) % cap;
      assert start == Slot(start0, 1, cap) by {
        WrapIndex(start0 + 1, cap);
      }
      len := len - 1;
      dropped := dropped + 1;
      forall i | 0 <= i < len
        ensures buf[Slot(start, i, cap)] == log[dropped + i]
      {
        assert Slot(start, i, cap) == Slot(start0, i + 1, cap);
      }
    }

    method Since(afterSeq: nat) returns (entries: seq<Entry>, ok: bool)
      requires Valid()
      ensures ok <==> !Gap(Retained(log, cap), afterSeq)
      ensures entries == if ok then Above(Retained(log, cap), afterSeq) else []
    {
      ghost var kept := Retained(log, cap);
      if len == 0 {
        return [], true;
      }
      var oldest := buf[start].seqNo;
      assert Slot(start, 0, cap) == start && kept[0] == buf[start];
      if afterSeq + 1 < oldest && afterSeq != 0 {
        return [], false;
      }
      entries := [];
      for i := 0 to len
        invariant entries == Above(kept[..i], afterSeq)
      {
        WrapIndex(start + i, cap);
        var e := buf[(start + i) % cap];
        assert e == buf[Slot(start, i, cap)] == log[dropped + i] == kept[i];
        AboveAppend(kept[..i], [e], afterSeq);
        assert kept[..i + 1] == kept[..i] + [e];
        if e.seqNo > afterSeq {
          entries := entries + [e];
        }
      }
      assert kept[..len] == kept;
      ok := true;
    }

    method LastSeq() returns (s: nat)
      requires Valid()
      ensures s == if log == [] then 0 else log[|log| - 1].seqNo
    {
      if len == 0 {
        return 0;
      }
      WrapIndex(start + len - 1, cap);
      assert Slot(start, len - 1, cap) == (start + len - 1) % cap;
      s := buf[(start + len - 1) % cap].seqNo;
    }
  }
}

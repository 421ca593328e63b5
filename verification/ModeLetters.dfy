/** normalizeModeListLetters (internal/session/tracker.go): the canonical form of the list letters of
    a MODE enquiry, which is what decides whether two of them are the same exchange. */
module ModeLetters {

  predicate IsByte(c: char) { c as int < 256 }

  ghost predicate Bytes(s: string) {
    forall c :: c in s ==> IsByte(c)
  }

  /** Text as it comes off the wire. */
  type ByteString = s: string | Bytes(s)

  /** The letters that count: signs do not. */
  function Letters(modes: string): set<char> {
    set c | c in modes && c != '+' && c != '-'
  }

  const LISTS := "beIq"

  function Chars(s: string): set<char> {
    set c | c in s
  }

  /** The letters of `order` that are in `s`. */
  function Pick(order: string, s: set<char>): string {
    if order == "" then "" else (if order[0] in s then [order[0]] else "") + Pick(order[1..], s)
  }

  /** All bytes from n on, ascending. */
  function From(n: nat): string
    requires n <= 256
    decreases 256 - n
  {
    if n == 256 then "" else [n as char] + From(n + 1)
  }

  function Canonical(s: set<char>): string {
    Pick(LISTS, s) + Pick(From(0), s - Chars(LISTS))
  }

  lemma {:induction false} PickMembers(order: string, s: set<char>, c: char)
    ensures c in Pick(order, s) <==> c in order && c in s
  {
    if order != "" {
      PickMembers(order[1..], s, c);
    }
  }

  lemma {:induction false} FromMembers(n: nat, c: char)
    requires n <= 256
    ensures c in From(n) <==> n <= c as int < 256
    decreases 256 - n
  {
    if n < 256 {
      FromMembers(n + 1, c);
    }
  }

  /** The canonical form has exactly the letters. */
  lemma CanonicalMembers(s: set<char>, c: char)
    requires forall d :: d in s ==> IsByte(d)
    ensures c in Canonical(s) <==> c in s
  {
    PickMembers(LISTS, s, c);
    PickMembers(From(0), s - Chars(LISTS), c);
    FromMembers(0, c);
  }

  /** What an enquiry's letters are filed under. */
  function KeyOf(modes: ByteString): string {
    Canonical(Letters(modes))
  }

  /** Two enquiries get the same key exactly when they name the same letters, whatever the signs,
      the order and the repetitions. */
  lemma SameKeyExact(a: ByteString, b: ByteString)
    ensures KeyOf(a) == KeyOf(b) <==> Letters(a) == Letters(b)
  {
    if KeyOf(a) == KeyOf(b) {
      forall c ensures c in Letters(a) <==> c in Letters(b) {
        CanonicalMembers(Letters(a), c);
        CanonicalMembers(Letters(b), c);
      }
    }
  }

  /** Marks in a table of 256 flags. */
  ghost predicate Marks(seen: seq<bool>, s: set<char>) {
    |seen| == 256 && forall i :: 0 <= i < 256 ==> (seen[i] <==> i as char in s)
  }

  method Normalize(modes: ByteString) returns (b: string)
    ensures b == KeyOf(modes)
  {
    var seen := new bool[256](_ => false);
    for i := 0 to |modes|
      invariant Marks(seen[..], Letters(modes[..i]))
    {
      var c := modes[i];
      assert IsByte(c) by { assert c in modes; }
      assert modes[..i + 1] == modes[..i] + [c];
      if c == '+' || c == '-' {
        assert Letters(modes[..i + 1]) == Letters(modes[..i]);
        continue;
      }
      assert Letters(modes[..i + 1]) == Letters(modes[..i]) + {c};
      seen[c as int] := true;
    }
    assert modes[..|modes|] == modes;
    ghost var all := Letters(modes);
    b := TakeLists(seen, LISTS, all);
    var rest := TakeRest(seen, all - Chars(LISTS));
    b := b + rest;
  }

  lemma PickNext(b: string, order: string, i: nat, s: set<char>)
    requires i < |order|
    ensures b + Pick(order[i..], s) == (if order[i] in s then b + [order[i]] else b) + Pick(order[i + 1..], s)
  {
    assert order[i..][1..] == order[i + 1..];
  }

  lemma CharsNext(order: string, i: nat)
    requires i < |order|
    ensures Chars(order[..i + 1]) == Chars(order[..i]) + {order[i]}
  {
    assert order[..i + 1] == order[..i] + [order[i]];
  }

  ghost predicate Distinct(order: string) {
    forall i, j :: 0 <= i < j < |order| ==> order[i] != order[j]
  }

  /** The loop over "beIq", which clears what it takes. */
  method TakeLists(seen: array<bool>, order: string, ghost s: set<char>) returns (b: string)
    requires seen.Length == 256 && Marks(seen[..], s)
    requires Distinct(order) && forall i :: 0 <= i < |order| ==> IsByte(order[i])
    modifies seen
    ensures b == Pick(order, s) && Marks(seen[..], s - Chars(order))
  {
    b := "";
    for i := 0 to |order|
      invariant Marks(seen[..], s - Chars(order[..i]))
      invariant Pick(order, s) == b + Pick(order[i..], s)
    {
      var c := order[i];
      PickNext(b, order, i, s);
      CharsNext(order, i);
      assert c !in order[..i];
      assert seen[..][c as int] == seen[c as int];
      if seen[c as int] {
        b := b + [c];
        seen[c as int] := false;
      }
    }
    assert order[..|order|] == order;
  }

  lemma PickFrom(b: string, n: nat, s: set<char>)
    requires n < 256
    ensures b + Pick(From(n), s) == (if n as char in s then b + [n as char] else b) + Pick(From(n + 1), s)
  {
    assert From(n)[0] == n as char && From(n)[1..] == From(n + 1);
  }

  /** The loop over all bytes. */
  method TakeRest(seen: array<bool>, ghost s: set<char>) returns (b: string)
    requires seen.Length == 256 && Marks(seen[..], s)
    ensures b == Pick(From(0), s)
  {
    b := "";
    for c := 0 to 256
      invariant Pick(From(0), s) == b + Pick(From(c), s)
    {
      PickFrom(b, c, s);
      assert seen[..][c] == seen[c];
      if seen[c] {
        b := b + [c as char];
      }
    }
  }
}

/** Byte-string helpers the wire codec is written with: strings.IndexByte, strings.TrimLeft and
    the string order that sortStrings in internal/irc/message.go sorts by. */
module Text {

  /** The first position of `c`, or -1. */
  function IndexOf(s: string, c: char): (i: int)
    ensures -1 <= i < |s|
    ensures i >= 0 ==> s[i] == c && c !in s[..i]
    ensures i < 0 ==> c !in s
  {
    if s == "" then -1
    else if s[0] == c then 0
    else
      var j := IndexOf(s[1..], c);
      assert j >= 0 ==> s[..j + 1] == [s[0]] + s[1..][..j];
      if j < 0 then -1 else j + 1
  }

  /** The first occurrence is found behind any text without one. */
  lemma IndexAfter(a: string, c: char, b: string)
    requires c !in a
    ensures IndexOf(a + [c] + b, c) == |a|
  {
    var s := a + [c] + b;
    var i := IndexOf(s, c);
    assert s[|a|] == c && s[..|a|] == a;
    assert c in s;
  }

  lemma IndexAbsent(s: string, c: char)
    requires c !in s
    ensures IndexOf(s, c) == -1
  {
    var i := IndexOf(s, c);
  }

  function TrimLeft(s: string): (t: string)
    ensures |t| <= |s|
    ensures t == "" || t[0] != ' '
  {
    if s == "" || s[0] != ' ' then s else TrimLeft(s[1..])
  }

  // ---------------------------------------------------------------- order and insertion sort

  predicate Less(a: string, b: string) {
    b != "" && (a == "" || a[0] < b[0] || (a[0] == b[0] && Less(a[1..], b[1..])))
  }

  lemma {:induction false} LessTotal(a: string, b: string)
    ensures Less(a, b) || Less(b, a) || a == b
    ensures !(Less(a, b) && Less(b, a)) && !Less(a, a)
    decreases |a|
  {
    if a != "" {
      LessTotal(a[1..], a[1..]);
      if b != "" {
        LessTotal(a[1..], b[1..]);
        if a[1..] == b[1..] && a[0] == b[0] {
          assert a == [a[0]] + a[1..] && b == [b[0]] + b[1..];
        }
      }
    }
  }

  lemma {:induction false} LessTransitive(a: string, b: string, c: string)
    requires Less(a, b) && Less(b, c)
    ensures Less(a, c)
    decreases |a|
  {
    if a != "" && a[0] == b[0] == c[0] {
      LessTransitive(a[1..], b[1..], c[1..]);
    }
  }

  /** Insert from the right, past every greater string, as sortStrings' inner loop does. */
  function Insert(p: seq<string>, x: string): (r: seq<string>)
    ensures |r| == |p| + 1
  {
    if p == [] || !Less(x, p[|p| - 1]) then p + [x]
    else Insert(p[..|p| - 1], x) + [p[|p| - 1]]
  }

  function Sort(s: seq<string>): (r: seq<string>)
    ensures |r| == |s|
  {
    if s == [] then [] else Insert(Sort(s[..|s| - 1]), s[|s| - 1])
  }

  ghost predicate Ascending(s: seq<string>) {
    forall i, j :: 0 <= i < j < |s| ==> Less(s[i], s[j])
  }

  ghost predicate NoRepeats(s: seq<string>) {
    forall i, j :: 0 <= i < j < |s| ==> s[i] != s[j]
  }

  lemma {:induction false} InsertMembers(p: seq<string>, x: string, y: string)
    ensures y in Insert(p, x) <==> y in p || y == x
  {
    if p != [] && Less(x, p[|p| - 1]) {
      InsertMembers(p[..|p| - 1], x, y);
      assert p == p[..|p| - 1] + [p[|p| - 1]];
    }
  }

  lemma {:induction false} InsertAscending(p: seq<string>, x: string)
    requires Ascending(p) && x !in p
    ensures Ascending(Insert(p, x))
  {
    if p != [] {
      var front, last := p[..|p| - 1], p[|p| - 1];
      LessTotal(x, last);
      if Less(x, last) {
        InsertAscending(front, x);
        forall y | y in Insert(front, x) ensures Less(y, last) {
          InsertMembers(front, x, y);
          if y != x {
            var i :| 0 <= i < |front| && front[i] == y;
            assert p[i] == y;
          }
        }
      } else {
        assert x != last by { assert last in p; }
        forall i | 0 <= i < |p| ensures Less(p[i], x) {
          if i < |p| - 1 {
            LessTransitive(p[i], last, x);
          }
        }
      }
    }
  }

  lemma {:induction false} SortMembers(s: seq<string>, y: string)
    ensures y in Sort(s) <==> y in s
  {
    if s != [] {
      SortMembers(s[..|s| - 1], y);
      InsertMembers(Sort(s[..|s| - 1]), s[|s| - 1], y);
      assert s == s[..|s| - 1] + [s[|s| - 1]];
    }
  }

  lemma {:induction false} SortAscending(s: seq<string>)
    requires NoRepeats(s)
    ensures Ascending(Sort(s))
  {
    if s != [] {
      var front, last := s[..|s| - 1], s[|s| - 1];
      SortAscending(front);
      SortMembers(front, last);
      InsertAscending(Sort(front), last);
    }
  }

  /** There is one ascending list of a given set of strings. */
  lemma {:induction false} AscendingUnique(a: seq<string>, b: seq<string>)
    requires Ascending(a) && Ascending(b) && forall y :: y in a <==> y in b
    ensures a == b
    decreases |a|
  {
    assert b != [] ==> b[0] in b;
    if a != [] {
      assert a[0] in a;
      var j :| 0 <= j < |b| && b[j] == a[0];
      var i :| 0 <= i < |a| && a[i] == b[0] by {
        assert b[0] in b && b[0] in a;
      }
      LessTotal(a[0], b[0]);
      assert a[0] == b[0];
      forall y ensures y in a[1..] <==> y in b[1..] {
        TailMembers(a, y);
        TailMembers(b, y);
      }
      AscendingUnique(a[1..], b[1..]);
      assert a == [a[0]] + a[1..] && b == [b[0]] + b[1..];
    }
  }

  lemma TailMembers(a: seq<string>, y: string)
    requires a != [] && Ascending(a)
    ensures y in a[1..] <==> y in a && y != a[0]
  {
    LessTotal(a[0], a[0]);
    if y in a[1..] {
      var i :| 0 <= i < |a[1..]| && a[1..][i] == y;
      assert a[i + 1] == y;
    }
    if y in a && y != a[0] {
      var i :| 0 <= i < |a| && a[i] == y;
      assert a[1..][i - 1] == y;
    }
  }

  /** The keys of a map in ascending order. The choice of `k` does not matter: SortForgetsOrder. */
  ghost function SortedKeys(keys: set<string>): (r: seq<string>)
    decreases |keys|
  {
    if keys == {} then []
    else
      var k :| k in keys;
      Insert(SortedKeys(keys - {k}), k)
  }

  lemma {:induction false} SortedKeysMembers(keys: set<string>)
    ensures Ascending(SortedKeys(keys))
    ensures forall y :: y in SortedKeys(keys) <==> y in keys
    decreases |keys|
  {
    if keys != {} {
      var k :| k in keys && SortedKeys(keys) == Insert(SortedKeys(keys - {k}), k);
      SortedKeysMembers(keys - {k});
      InsertAscending(SortedKeys(keys - {k}), k);
      forall y ensures y in SortedKeys(keys) <==> y in keys {
        InsertMembers(SortedKeys(keys - {k}), k, y);
      }
    }
  }

  /** Whatever order a map's keys were listed in, sorting the list gives the same result. */
  lemma SortForgetsOrder(order: seq<string>, keys: set<string>)
    requires NoRepeats(order) && forall y :: y in order <==> y in keys
    ensures Sort(order) == SortedKeys(keys)
  {
    SortAscending(order);
    SortedKeysMembers(keys);
    forall y ensures y in Sort(order) <==> y in SortedKeys(keys) {
      SortMembers(order, y);
    }
    AscendingUnique(Sort(order), SortedKeys(keys));
  }

  /** Range over a map in any order, then sort: `keys` is picked from arbitrarily, as Go's range
      over a map is. */
  method ListAndSort(keys: set<string>) returns (a: array<string>)
    ensures fresh(a) && a[..] == SortedKeys(keys)
  {
    var left, order := keys, [];
    while left != {}
      invariant left <= keys && NoRepeats(order)
      invariant forall y :: y in order <==> y in keys && y !in left
      decreases |left|
    {
      var k :| k in left;
      order, left := order + [k], left - {k};
    }
    a := new string[|order|](i requires 0 <= i < |order| => order[i]);
    assert a[..] == order;
    SortStrings(a);
    SortForgetsOrder(order, keys);
  }

  /** sortStrings, in place. */
  method SortStrings(a: array<string>)
    modifies a
    ensures a[..] == Sort(old(a[..]))
  {
    ghost var orig := a[..];
    var i := if a.Length == 0 then 0 else 1;
    SortFirst(orig);
    while i < a.Length
      invariant 0 <= i <= a.Length == |orig|
      invariant a[..i] == Sort(orig[..i])
      invariant forall k :: i <= k < a.Length ==> a[k] == orig[k]
    {
      SortNext(orig, i);
      InsertAt(a, i, Sort(orig[..i]), orig);
      i := i + 1;
    }
    assert a[..] == a[..i] && orig == orig[..i];
  }

  lemma SortFirst(s: seq<string>)
    ensures s != [] ==> Sort(s[..1]) == s[..1]
  {
    if s != [] {
      assert s[..1][..0] == [];
    }
  }

  lemma SortNext(s: seq<string>, i: nat)
    requires i < |s|
    ensures Sort(s[..i + 1]) == Insert(Sort(s[..i]), s[i])
  {
    assert s[..i + 1][..i] == s[..i];
  }

  /** One step of the inner loop on values: a greater last element stays last. */
  lemma InsertPast(p: seq<string>, x: string, j: nat)
    requires 0 < j <= |p| && Less(x, p[j - 1])
    ensures Insert(p[..j], x) + p[j..] == Insert(p[..j - 1], x) + p[j - 1..]
  {
    assert p[..j][..j - 1] == p[..j - 1];
    assert p[j - 1..] == [p[j - 1]] + p[j..];
  }

  lemma InsertHere(p: seq<string>, x: string, j: nat)
    requires j <= |p| && (j > 0 ==> !Less(x, p[j - 1]))
    ensures Insert(p[..j], x) == p[..j] + [x]
  {
  }

  /** The inner loop: sink a[i] into the sorted prefix by swaps. */
  method InsertAt(a: array<string>, i: nat, ghost p: seq<string>, ghost orig: seq<string>)
    requires i == |p| < a.Length == |orig|
    requires forall k :: 0 <= k < i ==> a[k] == p[k]
    requires forall k :: i <= k < a.Length ==> a[k] == orig[k]
    modifies a
    ensures a[..i + 1] == Insert(p, orig[i])
    ensures forall k :: i < k < a.Length ==> a[k] == orig[k]
  {
    ghost var x := orig[i];
    var j := i;
    assert p[..i] == p && p[i..] == [];
    while j > 0 && Less(a[j], a[j - 1])
      invariant 0 <= j <= i
      invariant a[j] == x
      invariant forall k :: 0 <= k < j ==> a[k] == p[k]
      invariant forall k :: j < k <= i ==> a[k] == p[k - 1]
      invariant forall k :: i < k < a.Length ==> a[k] == orig[k]
      invariant Insert(p, x) == Insert(p[..j], x) + p[j..]
    {
      InsertPast(p, x, j);
      a[j], a[j - 1] := a[j - 1], a[j];
      j := j - 1;
    }
    InsertHere(p, x, j);
    assert a[..i + 1] == p[..j] + [x] + p[j..];
  }
}

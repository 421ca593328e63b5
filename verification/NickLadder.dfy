/** The nick ladder (internal/registration/nick.go): the nicks tried in turn when the server refuses
    one during registration. `lower` is strings.ToLower and `fold` the network's casemapping; the
    results hold for any two functions. */
module NickLadder {

  const DEFAULT_NICK_LEN := 30
  const MAX_UNDERSCORE_TRIES := 20

  type Fold = string -> string

  function Length(maxLen: int): (n: nat)
    ensures n > 0
  {
    if maxLen <= 0 then DEFAULT_NICK_LEN else maxLen
  }

  function Cut(nick: string, n: nat): (r: string)
    ensures |r| <= n && (nick != "" && n > 0 ==> r != "")
  {
    if |nick| > n then nick[..n] else nick
  }

  function Tries(n: nat): nat {
    if n == 0 then 0 else if n - 1 < MAX_UNDERSCORE_TRIES then n - 1 else MAX_UNDERSCORE_TRIES
  }

  function Underscored(primary: string, i: nat, n: nat): string
    requires i < n
  {
    Cut(primary, n - i) + Underscores(i)
  }

  function Underscores(i: nat): string {
    seq(i, _ => '_')
  }

  /** The nicks offered to the ladder, in order. */
  function Wanted(primary: string, alt: string, n: nat): (r: seq<string>)
    ensures |r| == 2 + Tries(n) && r[0] == primary
  {
    [primary, alt] + seq(Tries(n), i requires 0 <= i < Tries(n) => Underscored(primary, i + 1, n))
  }

  predicate Has(out: seq<string>, key: string, lower: Fold) {
    exists i :: 0 <= i < |out| && lower(out[i]) == key
  }

  function Add(out: seq<string>, nick: string, n: nat, lower: Fold): seq<string> {
    if nick == "" || Has(out, lower(Cut(nick, n)), lower) then out else out + [Cut(nick, n)]
  }

  function AddAll(nicks: seq<string>, n: nat, lower: Fold): seq<string> {
    if nicks == [] then [] else Add(AddAll(nicks[..|nicks| - 1], n, lower), nicks[|nicks| - 1], n, lower)
  }

  function Ladder(primary: string, alt: string, maxLen: int, lower: Fold): seq<string> {
    AddAll(Wanted(primary, alt, Length(maxLen)), Length(maxLen), lower)
  }

  ghost predicate Keys(seen: set<string>, out: seq<string>, lower: Fold) {
    forall k :: k in seen <==> Has(out, k, lower)
  }

  /** The closure `add`, with its map of lower-cased nicks. */
  method AddNick(out: seq<string>, seen: set<string>, nick: string, n: nat, lower: Fold)
      returns (out': seq<string>, seen': set<string>)
    requires Keys(seen, out, lower)
    ensures out' == Add(out, nick, n, lower) && Keys(seen', out', lower)
  {
    if nick == "" {
      return out, seen;
    }
    var cut := if |nick| > n then nick[..n] else nick;
    var key := lower(cut);
    if key in seen {
      return out, seen;
    }
    out', seen' := out + [cut], seen + {key};
    forall k ensures k in seen' <==> Has(out', k, lower) {
      HasSnoc(out, cut, k, lower);
    }
  }

  lemma HasSnoc(out: seq<string>, e: string, k: string, lower: Fold)
    ensures Has(out + [e], k, lower) <==> Has(out, k, lower) || lower(e) == k
  {
    if Has(out, k, lower) {
      var i :| 0 <= i < |out| && lower(out[i]) == k;
      assert (out + [e])[i] == out[i];
    }
    assert (out + [e])[|out|] == e;
  }

  lemma AddNext(nicks: seq<string>, i: nat, n: nat, lower: Fold)
    requires i < |nicks|
    ensures AddAll(nicks[..i + 1], n, lower) == Add(AddAll(nicks[..i], n, lower), nicks[i], n, lower)
  {
    assert nicks[..i + 1][..i] == nicks[..i];
  }

  method BuildNickLadder(primary: string, alt: string, maxLen: int, lower: Fold) returns (out: seq<string>)
    ensures out == Ladder(primary, alt, maxLen, lower)
  {
    var n := Length(maxLen);
    ghost var nicks := Wanted(primary, alt, n);
    var seen: set<string> := {};
    out := [];
    AddNext(nicks, 0, n, lower);
    out, seen := AddNick(out, seen, primary, n, lower);
    AddNext(nicks, 1, n, lower);
    out, seen := AddNick(out, seen, alt, n, lower);
    out := AddUnderscored(out, seen, primary, n, lower, nicks);
  }

  /** The loop of buildNickLadder. */
  method AddUnderscored(start: seq<string>, keys: set<string>, primary: string, n: nat, lower: Fold,
      ghost nicks: seq<string>) returns (out: seq<string>)
    requires |nicks| == 2 + Tries(n) && forall i :: 0 < i <= Tries(n) ==> nicks[i + 1] == Underscored(primary, i, n)
    requires Keys(keys, start, lower) && start == AddAll(nicks[..2], n, lower)
    ensures out == AddAll(nicks, n, lower)
  {
    var seen := keys;
    out := start;
    var i := 1;
    while i <= MAX_UNDERSCORE_TRIES
      invariant 1 <= i <= Tries(n) + 1 && Keys(seen, out, lower)
      invariant out == AddAll(nicks[..i + 1], n, lower)
    {
      if i >= n {
        break;
      }
      assert nicks[i + 1] == Underscored(primary, i, n);
      var room := n - i;
      var base := Cut(primary, room);
      AddNext(nicks, i + 1, n, lower);
      out, seen := AddNick(out, seen, base + Underscores(i), n, lower);
      i := i + 1;
    }
    assert nicks[..i + 1] == nicks;
  }

  // ---------------------------------------------------------------- the shape of the ladder

  predicate RungOk(e: string, n: nat) {
    e != "" && |e| <= n
  }

  ghost predicate Distinct(out: seq<string>, lower: Fold) {
    forall i, j :: 0 <= i < j < |out| ==> lower(out[i]) != lower(out[j])
  }

  ghost predicate Complete(out: seq<string>, nicks: seq<string>, n: nat, lower: Fold) {
    forall i :: 0 <= i < |nicks| && nicks[i] != "" ==> Has(out, lower(Cut(nicks[i], n)), lower)
  }

  /** Rungs are non-empty, fit, differ after lower-casing and are at most as many as the offers;
      every offer is on the ladder up to case. */
  lemma {:induction false} LadderOf(nicks: seq<string>, n: nat, lower: Fold)
    requires n > 0
    ensures var out := AddAll(nicks, n, lower);
            && |out| <= |nicks|
            && (forall e :: e in out ==> RungOk(e, n))
            && Distinct(out, lower)
            && Complete(out, nicks, n, lower)
  {
    if nicks != [] {
      var front, last := nicks[..|nicks| - 1], nicks[|nicks| - 1];
      LadderOf(front, n, lower);
      var before, after := AddAll(front, n, lower), AddAll(nicks, n, lower);
      forall i | 0 <= i < |nicks| && nicks[i] != "" ensures Has(after, lower(Cut(nicks[i], n)), lower) {
        HasSnoc(before, Cut(last, n), lower(Cut(nicks[i], n)), lower);
        if i < |front| {
          assert Has(before, lower(Cut(front[i], n)), lower);
        }
      }
    }
  }

  lemma {:induction false} LadderFirst(nicks: seq<string>, n: nat, lower: Fold)
    requires nicks != [] && nicks[0] != ""
    ensures var out := AddAll(nicks, n, lower); out != [] && out[0] == Cut(nicks[0], n)
  {
    if |nicks| > 1 {
      LadderFirst(nicks[..|nicks| - 1], n, lower);
    } else {
      assert AddAll(nicks[..0], n, lower) == [];
    }
  }

  /** The nick with `i` underscores, cut to make room for them. */
  predicate Tail(e: string, primary: string, i: nat, n: nat) {
    && |e| == (if |primary| + i <= n then |primary| + i else n) && i <= |e|
    && e[..|e| - i] <= primary
    && forall j :: |e| - i <= j < |e| ==> e[j] == '_'
  }

  /** The offers: the nick, the alternative, then the nick with one to twenty underscores; nothing where not
      even one letter would be left. */
  lemma WantedExact(primary: string, alt: string, n: nat)
    requires n > 0
    ensures var w := Wanted(primary, alt, n);
            && |w| == (if n <= 20 then 1 + n else 22) && w[0] == primary && w[1] == alt
            && forall i :: 2 <= i < |w| ==> Tail(w[i], primary, i - 1, n)
  {
    var w := Wanted(primary, alt, n);
    forall i | 2 <= i < |w| ensures Tail(w[i], primary, i - 1, n) {
      UnderscoredExact(primary, i - 1, n);
    }
  }

  lemma UnderscoredExact(primary: string, i: nat, n: nat)
    requires i < n
    ensures Tail(Underscored(primary, i, n), primary, i, n)
  {
    var base, e := Cut(primary, n - i), Underscored(primary, i, n);
    assert e[..|e| - i] == base <= primary;
  }

  lemma DefaultLength(maxLen: int)
    ensures Length(maxLen) == if maxLen > 0 then maxLen else 30
  {
  }

  function CutAll(nicks: seq<string>, n: nat): (r: seq<string>)
    ensures |r| == |nicks| && forall i :: 0 <= i < |r| ==> r[i] == if |nicks[i]| <= n then nicks[i] else nicks[i][..n]
  {
    seq(|nicks|, i requires 0 <= i < |nicks| => Cut(nicks[i], n))
  }

  /** Offers that are not blank and all differ after cutting and lower-casing are all taken, in order. */
  lemma {:induction false} LadderKeeps(nicks: seq<string>, n: nat, lower: Fold)
    requires n > 0 && forall i :: 0 <= i < |nicks| ==> nicks[i] != ""
    requires Distinct(CutAll(nicks, n), lower)
    ensures AddAll(nicks, n, lower) == CutAll(nicks, n)
  {
    if nicks != [] {
      var front, last := nicks[..|nicks| - 1], nicks[|nicks| - 1];
      assert CutAll(nicks, n) == CutAll(front, n) + [Cut(last, n)];
      DistinctFront(CutAll(front, n), Cut(last, n), lower);
      LadderKeeps(front, n, lower);
    }
  }

  lemma DistinctFront(out: seq<string>, e: string, lower: Fold)
    requires Distinct(out + [e], lower)
    ensures Distinct(out, lower) && !Has(out, lower(e), lower)
  {
    var all := out + [e];
    assert forall i :: 0 <= i < |out| ==> all[i] == out[i];
    forall i | 0 <= i < |out| ensures lower(out[i]) != lower(e) {
      assert lower(all[i]) != lower(all[|out|]);
    }
  }

  /** A blank offer, or one that another one before it equals but for case, is passed over. */
  lemma LadderSkips(nicks: seq<string>, x: string, n: nat, lower: Fold, i: nat)
    requires n > 0 && i < |nicks|
    requires x == "" || (nicks[i] != "" && lower(CutAll(nicks, n)[i]) == lower(CutAll([x], n)[0]))
    ensures AddAll(nicks + [x], n, lower) == AddAll(nicks, n, lower)
  {
    LadderOf(nicks, n, lower);
    assert (nicks + [x])[..|nicks|] == nicks;
    assert nicks[i] != "" ==> Has(AddAll(nicks, n, lower), lower(Cut(nicks[i], n)), lower);
  }

  // ---------------------------------------------------------------- climbing

  /** The last rung equal to either nick under the casemapping, or -1. */
  function LastMatch(ladder: seq<string>, last: string, bad: string, fold: Fold): (r: int)
    ensures -1 <= r < |ladder|
    ensures r >= 0 ==> fold(ladder[r]) == fold(last) || fold(ladder[r]) == fold(bad)
    ensures forall i :: r < i < |ladder| ==> fold(ladder[i]) != fold(last) && fold(ladder[i]) != fold(bad)
  {
    if ladder == [] then -1
    else
      var n := |ladder| - 1;
      if fold(ladder[n]) == fold(last) || fold(ladder[n]) == fold(bad) then n
      else LastMatch(ladder[..n], last, bad, fold)
  }

  function NextRung(ladder: seq<string>, last: string, bad: string, fold: Fold): nat {
    var idx := LastMatch(ladder, last, bad, fold);
    if idx < 0 then 1 else idx + 1
  }

  /** nextNickInLadder; "" when the ladder is exhausted. */
  function NextNick(ladder: seq<string>, last: string, bad: string, fold: Fold): string {
    var r := NextRung(ladder, last, bad, fold);
    if r < |ladder| then ladder[r] else ""
  }

  /** What is tried next: the rung behind the last one that is the nick in use or the refused one; the second
      rung if neither is on the ladder; nothing behind the end. */
  lemma NextExact(ladder: seq<string>, last: string, bad: string, fold: Fold, i: nat)
    requires i < |ladder| ==> fold(ladder[i]) == fold(last) || fold(ladder[i]) == fold(bad)
    requires forall j :: 0 <= j < |ladder| && (j > i || i >= |ladder|) ==>
               fold(ladder[j]) != fold(last) && fold(ladder[j]) != fold(bad)
    ensures NextNick(ladder, last, bad, fold)
         == if i >= |ladder| then (if |ladder| > 1 then ladder[1] else "")
            else if i + 1 < |ladder| then ladder[i + 1] else ""
  {
  }

  method NextNickInLadder(ladder: seq<string>, last: string, bad: string, fold: Fold) returns (next: string)
    ensures next == NextNick(ladder, last, bad, fold)
  {
    var idx := -1;
    for i := 0 to |ladder|
      invariant -1 <= idx < i
      invariant idx >= 0 ==> fold(ladder[idx]) == fold(last) || fold(ladder[idx]) == fold(bad)
      invariant forall j :: idx < j < i ==> fold(ladder[j]) != fold(last) && fold(ladder[j]) != fold(bad)
    {
      if fold(ladder[i]) == fold(last) || fold(ladder[i]) == fold(bad) {
        idx := i;
      }
    }
    assert idx == LastMatch(ladder, last, bad, fold);
    if idx < 0 {
      return if |ladder| > 1 then ladder[1] else "";
    }
    return if idx + 1 < |ladder| then ladder[idx + 1] else "";
  }

  /** The rungs sent in answer to a run of nick errors, until the ladder gives out. */
  function Climb(ladder: seq<string>, nick: string, bads: seq<string>, fold: Fold): (r: seq<nat>)
    ensures |r| <= |bads| && forall i :: 0 <= i < |r| ==> r[i] < |ladder|
    decreases |bads|
  {
    if bads == [] then []
    else
      var r := NextRung(ladder, nick, bads[0], fold);
      if r >= |ladder| then [] else [r] + Climb(ladder, ladder[r], bads[1..], fold)
  }

  ghost predicate Rising(r: seq<nat>, floor: nat) {
    && (forall i :: 0 <= i < |r| ==> floor < r[i])
    && (forall i, j :: 0 <= i < j < |r| ==> r[i] < r[j])
  }

  /** Every error moves to a strictly later rung, whatever nick the server names. */
  lemma {:induction false} ClimbRises(ladder: seq<string>, nick: string, bads: seq<string>, fold: Fold, floor: nat)
    requires floor == 0 || (floor < |ladder| && nick == ladder[floor])
    ensures Rising(Climb(ladder, nick, bads, fold), floor)
    decreases |bads|
  {
    if bads != [] {
      var r := NextRung(ladder, nick, bads[0], fold);
      if r < |ladder| {
        ClimbRises(ladder, ladder[r], bads[1..], fold, r);
        RisingCons(r, Climb(ladder, ladder[r], bads[1..], fold), floor);
      }
    }
  }

  lemma RisingCons(x: nat, r: seq<nat>, floor: nat)
    requires floor < x && Rising(r, x)
    ensures Rising([x] + r, floor)
  {
    var all := [x] + r;
    forall i | 0 <= i < |all| ensures floor < all[i] {
      assert i > 0 ==> all[i] == r[i - 1];
    }
    forall i, j | 0 <= i < j < |all| ensures all[i] < all[j] {
      assert all[j] == r[j - 1] && (i > 0 ==> all[i] == r[i - 1]);
    }
  }

  lemma {:induction false} RisingHigh(r: seq<nat>, floor: nat, i: nat)
    requires Rising(r, floor) && i < |r|
    ensures floor + i < r[i]
  {
    if i > 0 {
      RisingHigh(r, floor, i - 1);
      assert r[i - 1] < r[i];
    }
  }

  function Sent(ladder: seq<string>, nick: string, bads: seq<string>, fold: Fold): seq<string> {
    var c := Climb(ladder, nick, bads, fold);
    seq(|c|, i requires 0 <= i < |c| => ladder[c[i]])
  }

  /** The nick in use after a climb. */
  function Reached(ladder: seq<string>, nick: string, c: seq<nat>): string
    requires forall i :: 0 <= i < |c| ==> c[i] < |ladder|
  {
    if c == [] then nick else ladder[c[|c| - 1]]
  }

  /** A climb shorter than the run of errors ends where the next error finds no rung. */
  lemma {:induction false} ClimbStops(ladder: seq<string>, nick: string, bads: seq<string>, fold: Fold)
    requires |Climb(ladder, nick, bads, fold)| < |bads|
    ensures var c := Climb(ladder, nick, bads, fold);
            NextRung(ladder, Reached(ladder, nick, c), bads[|c|], fold) >= |ladder|
    decreases |bads|
  {
    var r := NextRung(ladder, nick, bads[0], fold);
    if r < |ladder| {
      ClimbStops(ladder, ladder[r], bads[1..], fold);
    }
  }

  /** From the primary nick on, no nick is sent twice and at most 21 retries are made; the first error
      that is not answered by a nick is one for which the ladder has none, so of 22 errors one is. */
  lemma LadderTerminates(primary: string, alt: string, maxLen: int, lower: Fold, fold: Fold, bads: seq<string>)
    ensures var ladder := Ladder(primary, alt, maxLen, lower);
            var sent := Sent(ladder, primary, bads, fold);
            && |sent| <= MAX_UNDERSCORE_TRIES + 1
            && (forall i, j :: 0 <= i < j < |sent| ==> sent[i] != sent[j])
            && primary !in sent
            && (forall e :: e in sent ==> RungOk(e, Length(maxLen)))
            && (|sent| < |bads| ==>
                  NextNick(ladder, if sent == [] then primary else sent[|sent| - 1], bads[|sent|], fold) == "")
  {
    SentBounded(primary, alt, maxLen, lower, fold, bads);
    var ladder := Ladder(primary, alt, maxLen, lower);
    if |Climb(ladder, primary, bads, fold)| < |bads| {
      ClimbStops(ladder, primary, bads, fold);
    }
  }

  lemma SentBounded(primary: string, alt: string, maxLen: int, lower: Fold, fold: Fold, bads: seq<string>)
    ensures var sent := Sent(Ladder(primary, alt, maxLen, lower), primary, bads, fold);
            && |sent| <= MAX_UNDERSCORE_TRIES + 1
            && (forall i, j :: 0 <= i < j < |sent| ==> sent[i] != sent[j])
            && primary !in sent
            && (forall e :: e in sent ==> RungOk(e, Length(maxLen)))
  {
    var n := Length(maxLen);
    var nicks := Wanted(primary, alt, n);
    var ladder := Ladder(primary, alt, maxLen, lower);
    LadderOf(nicks, n, lower);
    ClimbRises(ladder, primary, bads, fold, 0);
    var c := Climb(ladder, primary, bads, fold);
    var sent := Sent(ladder, primary, bads, fold);
    if c != [] {
      RisingHigh(c, 0, |c| - 1);
    }
    forall i, j | 0 <= i < j < |sent| ensures sent[i] != sent[j] {
      assert c[i] < c[j];
    }
    forall i | 0 <= i < |sent| ensures sent[i] != primary && RungOk(sent[i], n) {
      assert 0 < c[i];
      assert ladder[c[i]] in ladder;
      if primary != "" {
        LadderFirst(nicks, n, lower);
      }
    }
  }
}

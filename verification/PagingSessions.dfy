/** A client paging through CHATHISTORY, page after page (internal/history/history.go,
    internal/store/store.go): what it holds after any number of pages, and when it is done. */
module PagingSessions {
  import opened Common
  import opened Paging

  lemma {:induction false} NamedRows(db: seq<Row>, msgid: string)
    requires Keyed(db)
    ensures Keyed(Named(db, msgid)) && forall r :: r in Named(db, msgid) <==> r in db && r.msgid == msgid
  {
    if db != [] {
      var front, last := db[..|db| - 1], db[|db| - 1];
      NamedRows(front, msgid);
      assert db == front + [last];
      forall r | r in Named(front, msgid) ensures r.id != last.id {
        var i :| 0 <= i < |front| && front[i] == r;
      }
    }
  }

  /** Every row of `l` can be named by a client: its msgid is set and no other row has it. */
  ghost predicate Addressable(db: seq<Row>, l: seq<Row>) {
    forall r :: r in l ==> r.msgid != "" && forall s :: s in db && s.msgid == r.msgid ==> s == r
  }

  lemma ResolveUnique(db: seq<Row>, r: Row)
    requires Keyed(db) && Addressable(db, [r]) && r in db
    ensures Resolve(db, r.msgid) == Some(At(r))
  {
    NamedRows(db, r.msgid);
    var hits := OrderBy(Named(db, r.msgid));
    OrderByRows(Named(db, r.msgid));
    assert r in [r];
    assert r in hits;
    assert hits[0] in hits;
  }

  predicate Continues(r: Reply) {
    r.Batch? && r.msgs != [] && !r.end
  }

  /** A client's session: a first page, then the page that follows the last one read, as long as
      the end flag is not set. */
  ghost predicate Session(first: Reply, next: Reply -> Reply, pages: seq<Reply>) {
    && pages != [] && pages[0] == first
    && forall i :: 0 <= i < |pages| - 1 ==> Follows(pages[i], pages[i + 1], next)
  }

  ghost predicate Follows(r: Reply, s: Reply, next: Reply -> Reply) {
    Continues(r) && s == next(r)
  }

  /** Reading backwards asks BEFORE the oldest row of the last page, reading forwards AFTER the newest. */
  function NextBack(db: seq<Row>, commands: seq<string>, limit: int, maxLimit: int): Reply -> Reply {
    (r: Reply) =>
      if RowsIn(r) == [] then InvalidParams
      else ReplyTo(db, Before(RowsIn(r)[0].msgid, limit), commands, maxLimit)
  }

  function NextForward(db: seq<Row>, commands: seq<string>, limit: int, maxLimit: int): Reply -> Reply {
    (r: Reply) =>
      if RowsIn(r) == [] then InvalidParams
      else ReplyTo(db, After(RowsIn(r)[|RowsIn(r)| - 1].msgid, limit), commands, maxLimit)
  }

  function RowsIn(r: Reply): seq<Row> {
    if r.Batch? then r.msgs else []
  }

  /** All rows received in the first k pages, oldest first. */
  function GatherBack(pages: seq<Reply>, k: nat): seq<Row>
    requires k <= |pages|
  {
    if k == 0 then [] else RowsIn(pages[k - 1]) + GatherBack(pages, k - 1)
  }

  function GatherForward(pages: seq<Reply>, k: nat): seq<Row>
    requires k <= |pages|
  {
    if k == 0 then [] else GatherForward(pages, k - 1) + RowsIn(pages[k - 1])
  }

  /** k full pages of n rows. */
  function Times(k: nat, n: nat): nat {
    if k == 0 then 0 else Times(k - 1, n) + n
  }

  lemma {:induction false} TimesGrows(k: nat, n: nat)
    requires n >= 1
    ensures Times(k, n) == k * n >= k
  {
    if k > 0 {
      TimesGrows(k - 1, n);
    }
  }

  /** Where a session stands after its k-th page: `got` rows in, `last` the page just read. Every
      page before it was full, and it is flagged exactly when nothing of the selection is left. */
  predicate Tally(size: nat, n: nat, k: nat, got: nat, last: Reply) {
    && last.Batch? && k >= 1
    && |last.msgs| <= n && got == Times(k - 1, n) + |last.msgs| && got <= size
    && (last.end <==> got == size)
    && (!last.end ==> |last.msgs| == n)
  }

  predicate NewestRows(l: seq<Row>, got: seq<Row>) {
    |got| <= |l| && got == l[|l| - |got|..]
  }

  predicate OldestRows(l: seq<Row>, got: seq<Row>) {
    |got| <= |l| && got == l[..|got|]
  }

  lemma TallyNext(size: nat, n: nat, k: nat, got: nat, prev: Reply, rest: seq<Row>, backward: bool)
    requires n >= 1 && Tally(size, n, k, got, prev) && !prev.end && |rest| == size - got
    ensures var last := Page(rest, n, backward); Tally(size, n, k + 1, got + |last.msgs|, last)
  {
  }

  lemma BackPage(db: seq<Row>, commands: seq<string>, hi: Option<Bound>, limit: int, maxLimit: int, p: nat)
    requires Keyed(db) && p < |Listing(db, commands, None, hi)|
    requires Addressable(db, Listing(db, commands, None, hi))
    ensures var l := Listing(db, commands, None, hi);
            ReplyTo(db, Before(l[p].msgid, limit), commands, maxLimit) == Page(l[..p], Clamp(limit, maxLimit), true)
  {
    var l := Listing(db, commands, None, hi);
    ListingRows(db, commands, None, hi);
    assert l[p] in l;
    ResolveUnique(db, l[p]);
    ListingCut(db, commands, None, hi, p);
  }

  lemma ForwardPage(db: seq<Row>, commands: seq<string>, lo: Option<Bound>, limit: int, maxLimit: int, p: nat)
    requires Keyed(db) && p < |Listing(db, commands, lo, None)|
    requires Addressable(db, Listing(db, commands, lo, None))
    ensures var l := Listing(db, commands, lo, None);
            ReplyTo(db, After(l[p].msgid, limit), commands, maxLimit) == Page(l[p + 1..], Clamp(limit, maxLimit), false)
  {
    var l := Listing(db, commands, lo, None);
    ListingRows(db, commands, lo, None);
    assert l[p] in l;
    ResolveUnique(db, l[p]);
    ListingCut(db, commands, lo, None, p);
  }

  lemma BackStep(l: seq<Row>, n: nat, k: nat, got: seq<Row>, prev: Reply)
    requires n >= 1 && NewestRows(l, got) && Tally(|l|, n, k, |got|, prev) && !prev.end
    ensures var last := Page(l[..|l| - |got|], n, true);
            NewestRows(l, last.msgs + got) && Tally(|l|, n, k + 1, |last.msgs + got|, last)
  {
    TallyNext(|l|, n, k, |got|, prev, l[..|l| - |got|], true);
  }

  lemma ForwardStep(l: seq<Row>, n: nat, k: nat, got: seq<Row>, prev: Reply)
    requires n >= 1 && OldestRows(l, got) && Tally(|l|, n, k, |got|, prev) && !prev.end
    ensures var last := Page(l[|got|..], n, false);
            OldestRows(l, got + last.msgs) && Tally(|l|, n, k + 1, |got + last.msgs|, last)
  {
    TallyNext(|l|, n, k, |got|, prev, l[|got|..], false);
  }

  /** Any server that answers with the rows before the oldest one seen. */
  ghost predicate ServesBack(l: seq<Row>, n: nat, next: Reply -> Reply) {
    forall r, p :: Continues(r) && 0 <= p < |l| && r.msgs[0] == l[p] ==> next(r) == Page(l[..p], n, true)
  }

  ghost predicate ServesForward(l: seq<Row>, n: nat, next: Reply -> Reply) {
    forall r, p :: Continues(r) && 0 <= p < |l| && r.msgs[|r.msgs| - 1] == l[p]
      ==> next(r) == Page(l[p + 1..], n, false)
  }

  lemma FirstTally(l: seq<Row>, n: nat, backward: bool)
    requires n >= 1
    ensures var first := Page(l, n, backward);
            Tally(|l|, n, 1, |first.msgs|, first)
            && (if backward then NewestRows(l, first.msgs) else OldestRows(l, first.msgs))
  {
  }

  lemma AskBack(l: seq<Row>, n: nat, next: Reply -> Reply, r: Reply, p: nat)
    requires ServesBack(l, n, next) && Continues(r) && p < |l| && r.msgs[0] == l[p]
    ensures next(r) == Page(l[..p], n, true)
  {
  }

  lemma AskForward(l: seq<Row>, n: nat, next: Reply -> Reply, r: Reply, p: nat)
    requires ServesForward(l, n, next) && Continues(r) && p < |l| && r.msgs[|r.msgs| - 1] == l[p]
    ensures next(r) == Page(l[p + 1..], n, false)
  {
  }

  /** What is known after k pages of a session. */
  predicate BackKnown(l: seq<Row>, n: nat, pages: seq<Reply>, k: nat)
    requires 1 <= k <= |pages|
  {
    NewestRows(l, GatherBack(pages, k)) && Tally(|l|, n, k, |GatherBack(pages, k)|, pages[k - 1])
  }

  predicate ForwardKnown(l: seq<Row>, n: nat, pages: seq<Reply>, k: nat)
    requires 1 <= k <= |pages|
  {
    OldestRows(l, GatherForward(pages, k)) && Tally(|l|, n, k, |GatherForward(pages, k)|, pages[k - 1])
  }

  lemma BackNext(l: seq<Row>, n: nat, next: Reply -> Reply, pages: seq<Reply>, k: nat)
    requires n >= 1 && ServesBack(l, n, next) && 1 <= k < |pages| && Follows(pages[k - 1], pages[k], next)
    requires BackKnown(l, n, pages, k)
    ensures BackKnown(l, n, pages, k + 1)
  {
    var got, prev := GatherBack(pages, k), pages[k - 1];
    assert got[0] == prev.msgs[0];
    AskBack(l, n, next, prev, |l| - |got|);
    BackStep(l, n, k, got, prev);
  }

  lemma ForwardNext(l: seq<Row>, n: nat, next: Reply -> Reply, pages: seq<Reply>, k: nat)
    requires n >= 1 && ServesForward(l, n, next) && 1 <= k < |pages| && Follows(pages[k - 1], pages[k], next)
    requires ForwardKnown(l, n, pages, k)
    ensures ForwardKnown(l, n, pages, k + 1)
  {
    var got, prev := GatherForward(pages, k), pages[k - 1];
    LastGathered(pages, k);
    AskForward(l, n, next, prev, |got| - 1);
    ForwardStep(l, n, k, got, prev);
  }

  lemma LastGathered(pages: seq<Reply>, k: nat)
    requires 1 <= k <= |pages| && Continues(pages[k - 1])
    ensures var got, msgs := GatherForward(pages, k), pages[k - 1].msgs; got != [] && got[|got| - 1] == msgs[|msgs| - 1]
  {
  }

  lemma {:induction false} BackTally(l: seq<Row>, n: nat, next: Reply -> Reply, pages: seq<Reply>, k: nat)
    requires n >= 1 && ServesBack(l, n, next) && Session(Page(l, n, true), next, pages) && 1 <= k <= |pages|
    ensures BackKnown(l, n, pages, k)
  {
    if k == 1 {
      FirstTally(l, n, true);
      assert GatherBack(pages, 1) == RowsIn(pages[0]) + GatherBack(pages, 0) == RowsIn(pages[0]);
    } else {
      BackTally(l, n, next, pages, k - 1);
      assert Follows(pages[k - 2], pages[k - 1], next);
      BackNext(l, n, next, pages, k - 1);
    }
  }

  lemma {:induction false} ForwardTally(l: seq<Row>, n: nat, next: Reply -> Reply, pages: seq<Reply>, k: nat)
    requires n >= 1 && ServesForward(l, n, next) && Session(Page(l, n, false), next, pages) && 1 <= k <= |pages|
    ensures ForwardKnown(l, n, pages, k)
  {
    if k == 1 {
      FirstTally(l, n, false);
      assert GatherForward(pages, 1) == GatherForward(pages, 0) + RowsIn(pages[0]) == RowsIn(pages[0]);
    } else {
      ForwardTally(l, n, next, pages, k - 1);
      assert Follows(pages[k - 2], pages[k - 1], next);
      ForwardNext(l, n, next, pages, k - 1);
    }
  }

  lemma HandlerServesBack(db: seq<Row>, commands: seq<string>, hi: Option<Bound>, limit: int, maxLimit: int)
    requires Keyed(db) && Addressable(db, Listing(db, commands, None, hi))
    ensures ServesBack(Listing(db, commands, None, hi), Clamp(limit, maxLimit), NextBack(db, commands, limit, maxLimit))
  {
    var l, n, next := Listing(db, commands, None, hi), Clamp(limit, maxLimit), NextBack(db, commands, limit, maxLimit);
    forall r, p | Continues(r) && 0 <= p < |l| && r.msgs[0] == l[p] ensures next(r) == Page(l[..p], n, true) {
      BackPage(db, commands, hi, limit, maxLimit, p);
    }
  }

  lemma HandlerServesForward(db: seq<Row>, commands: seq<string>, lo: Option<Bound>, limit: int, maxLimit: int)
    requires Keyed(db) && Addressable(db, Listing(db, commands, lo, None))
    ensures ServesForward(Listing(db, commands, lo, None), Clamp(limit, maxLimit),
              NextForward(db, commands, limit, maxLimit))
  {
    var l, n, next := Listing(db, commands, lo, None), Clamp(limit, maxLimit),
      NextForward(db, commands, limit, maxLimit);
    forall r, p | Continues(r) && 0 <= p < |l| && r.msgs[|r.msgs| - 1] == l[p]
      ensures next(r) == Page(l[p + 1..], n, false) {
      ForwardPage(db, commands, lo, limit, maxLimit, p);
      NextForwardAt(db, commands, limit, maxLimit, r);
    }
  }

  lemma NextForwardAt(db: seq<Row>, commands: seq<string>, limit: int, maxLimit: int, r: Reply)
    requires Continues(r)
    ensures NextForward(db, commands, limit, maxLimit)(r)
         == ReplyTo(db, After(r.msgs[|r.msgs| - 1].msgid, limit), commands, maxLimit)
  {
    assert RowsIn(r) == r.msgs;
  }

  /** After any number of pages the client holds exactly the newest rows of the selection, in order
      and once each; every page but the last is full; the end flag is set exactly when nothing is
      left. The selection is everything that passes the filter (LATEST *), or that before a bound. */
  lemma BackSessionExact(db: seq<Row>, commands: seq<string>, hi: Option<Bound>,
      limit: int, maxLimit: int, pages: seq<Reply>)
    requires Keyed(db) && Addressable(db, Listing(db, commands, None, hi))
    requires Session(Page(Listing(db, commands, None, hi), Clamp(limit, maxLimit), true),
               NextBack(db, commands, limit, maxLimit), pages)
    ensures var l, got := Listing(db, commands, None, hi), GatherBack(pages, |pages|);
            NewestRows(l, got) && Tally(|l|, Clamp(limit, maxLimit), |pages|, |got|, pages[|pages| - 1])
  {
    var l, n, next := Listing(db, commands, None, hi), Clamp(limit, maxLimit), NextBack(db, commands, limit, maxLimit);
    HandlerServesBack(db, commands, hi, limit, maxLimit);
    BackTally(l, n, next, pages, |pages|);
  }

  /** The same forwards, with AFTER the newest row seen. */
  lemma ForwardSessionExact(db: seq<Row>, commands: seq<string>, lo: Option<Bound>,
      limit: int, maxLimit: int, pages: seq<Reply>)
    requires Keyed(db) && Addressable(db, Listing(db, commands, lo, None))
    requires Session(Page(Listing(db, commands, lo, None), Clamp(limit, maxLimit), false),
               NextForward(db, commands, limit, maxLimit), pages)
    ensures var l, got := Listing(db, commands, lo, None), GatherForward(pages, |pages|);
            OldestRows(l, got) && Tally(|l|, Clamp(limit, maxLimit), |pages|, |got|, pages[|pages| - 1])
  {
    var l, n, next := Listing(db, commands, lo, None), Clamp(limit, maxLimit),
      NextForward(db, commands, limit, maxLimit);
    HandlerServesForward(db, commands, lo, limit, maxLimit);
    ForwardTally(l, n, next, pages, |pages|);
  }

  /** A session that starts with LATEST *. */
  ghost predicate FromLatest(db: seq<Row>, commands: seq<string>, limit: int, maxLimit: int, pages: seq<Reply>) {
    && Keyed(db) && Addressable(db, Listing(db, commands, None, None))
    && Session(ReplyTo(db, Latest(None, limit), commands, maxLimit), NextBack(db, commands, limit, maxLimit), pages)
  }

  lemma LatestTally(db: seq<Row>, commands: seq<string>, limit: int, maxLimit: int, pages: seq<Reply>)
    requires FromLatest(db, commands, limit, maxLimit, pages)
    ensures var l, got := Listing(db, commands, None, None), GatherBack(pages, |pages|);
            NewestRows(l, got) && Tally(|l|, Clamp(limit, maxLimit), |pages|, |got|, pages[|pages| - 1])
  {
    BackSessionExact(db, commands, None, limit, maxLimit, pages);
  }

  /** Paging backwards from LATEST * ends: all pages but the last are full, so they cannot be more than
      the rows divided by the clamped limit, and one. */
  lemma PagingEnds(db: seq<Row>, commands: seq<string>, limit: int, maxLimit: int, pages: seq<Reply>)
    requires FromLatest(db, commands, limit, maxLimit, pages)
    ensures (|pages| - 1) * Clamp(limit, maxLimit) <= |Listing(db, commands, None, None)|
  {
    LatestTally(db, commands, limit, maxLimit, pages);
    PageCount(|Listing(db, commands, None, None)|, Clamp(limit, maxLimit), |pages|,
              |GatherBack(pages, |pages|)|, pages[|pages| - 1]);
  }

  lemma PageCount(size: nat, n: nat, k: nat, got: nat, last: Reply)
    requires n >= 1 && Tally(size, n, k, got, last)
    ensures (k - 1) * n <= size
  {
    TimesGrows(k - 1, n);
  }

  /** The end flag says exactly that everything has been received. */
  lemma EndFlagExact(db: seq<Row>, commands: seq<string>, limit: int, maxLimit: int, pages: seq<Reply>)
    requires FromLatest(db, commands, limit, maxLimit, pages)
    ensures var last := pages[|pages| - 1];
            && last.Batch? && |last.msgs| <= Clamp(limit, maxLimit)
            && (last.end <==> GatherBack(pages, |pages|) == Listing(db, commands, None, None))
  {
    LatestTally(db, commands, limit, maxLimit, pages);
    AllOrFewer(Listing(db, commands, None, None), GatherBack(pages, |pages|));
  }

  lemma AllOrFewer(l: seq<Row>, got: seq<Row>)
    requires NewestRows(l, got)
    ensures got == l <==> |got| == |l|
  {
  }

  /** By then every row that passes the filter has been received, in order and exactly once. */
  lemma PagingComplete(db: seq<Row>, commands: seq<string>, limit: int, maxLimit: int, pages: seq<Reply>)
    requires FromLatest(db, commands, limit, maxLimit, pages) && pages[|pages| - 1].Batch? && pages[|pages| - 1].end
    ensures var got := GatherBack(pages, |pages|);
            Ascending(got) && forall r :: r in got <==> r in db && (commands == [] || r.command in commands)
  {
    EndFlagExact(db, commands, limit, maxLimit, pages);
    ListingRows(db, commands, None, None);
  }
}

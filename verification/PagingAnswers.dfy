/** What each CHATHISTORY request is answered with, in terms of the stored rows alone
    (internal/history/history.go, internal/store/store.go): which rows are selected, which of them are on
    the page, in what order, and when the end is announced. */
module PagingAnswers {
  import opened Common
  import opened Paging
  import PagingSessions

  /** Before in time, or stored before at the same time. */
  predicate Sooner(a: Row, b: Row) {
    a.time < b.time || (a.time == b.time && a.id < b.id)
  }

  predicate SoonerThan(a: Row, b: Bound) {
    a.time < b.time || (a.time == b.time && a.id < b.id)
  }

  predicate LaterThan(a: Row, b: Bound) {
    b.time < a.time || (b.time == a.time && b.id < a.id)
  }

  /** A stored row of a wanted command, strictly inside the bounds there are. */
  predicate Selected(db: seq<Row>, x: Row, commands: seq<string>, lo: Option<Bound>, hi: Option<Bound>) {
    && x in db && (commands == [] || x.command in commands)
    && (lo == None || LaterThan(x, lo.value)) && (hi == None || SoonerThan(x, hi.value))
  }

  ghost predicate Chronological(msgs: seq<Row>) {
    forall i, j :: 0 <= i < j < |msgs| ==> Sooner(msgs[i], msgs[j])
  }

  /** A selected row is left out only of a full page, whose rows are all nearer the side it counts from. */
  ghost predicate LeftOut(x: Row, msgs: seq<Row>, n: nat, newest: bool) {
    |msgs| == n && forall m :: m in msgs ==> if newest then Sooner(x, m) else Sooner(m, x)
  }

  /** The reply: selected rows, oldest first, at most n, the nearest ones; and the end exactly when that is
      all of them. */
  ghost predicate Answers(db: seq<Row>, commands: seq<string>, lo: Option<Bound>, hi: Option<Bound>,
      n: nat, newest: bool, r: Reply)
  {
    && r.Batch? && Chronological(r.msgs) && |r.msgs| <= n
    && (forall m :: m in r.msgs ==> Selected(db, m, commands, lo, hi))
    && (forall x :: Selected(db, x, commands, lo, hi) && x !in r.msgs ==> LeftOut(x, r.msgs, n, newest))
    && (r.end <==> forall x :: Selected(db, x, commands, lo, hi) ==> x in r.msgs)
  }

  lemma ListingExact(db: seq<Row>, commands: seq<string>, lo: Option<Bound>, hi: Option<Bound>)
    requires Keyed(db)
    ensures var l := Listing(db, commands, lo, hi);
            Chronological(l) && forall x :: x in l <==> Selected(db, x, commands, lo, hi)
  {
    ListingRows(db, commands, lo, hi);
    var l := Listing(db, commands, lo, hi);
    forall i, j | 0 <= i < j < |l| ensures Sooner(l[i], l[j]) {
      assert Earlier(At(l[i]), At(l[j]));
    }
  }

  lemma TakenExact(l: seq<Row>, n: nat, newest: bool)
    requires Chronological(l)
    ensures var p := Taken(l, n, newest);
            && Chronological(p) && |p| <= n && (forall m :: m in p ==> m in l)
            && (forall x :: x in l && x !in p ==> LeftOut(x, p, n, newest))
            && (|l| <= n <==> forall x :: x in l ==> x in p)
  {
    if |l| > n {
      if newest {
        LastExact(l, n);
      } else {
        FirstExact(l, n);
      }
    }
  }

  lemma FirstExact(l: seq<Row>, n: nat)
    requires Chronological(l) && n < |l|
    ensures l[n] in l && l[n] !in l[..n]
    ensures forall x :: x in l && x !in l[..n] ==> LeftOut(x, l[..n], n, false)
  {
    forall j | 0 <= j < n ensures l[j] in l[..n] {
      assert l[..n][j] == l[j];
    }
    forall x | x in l && x !in l[..n] ensures LeftOut(x, l[..n], n, false) {
      var i :| 0 <= i < |l| && l[i] == x;
      forall m | m in l[..n] ensures Sooner(m, x) {
        var j :| 0 <= j < n && l[..n][j] == m;
        assert l[j] == m;
      }
    }
  }

  lemma LastExact(l: seq<Row>, n: nat)
    requires Chronological(l) && n < |l|
    ensures var p := l[|l| - n..];
            && Chronological(p) && l[0] in l && l[0] !in p
            && forall x :: x in l && x !in p ==> LeftOut(x, p, n, true)
  {
    var p := l[|l| - n..];
    assert forall j :: 0 <= j < n ==> p[j] == l[|l| - n + j];
    forall j | |l| - n <= j < |l| ensures l[j] in p {
      assert p[j - (|l| - n)] == l[j];
    }
    forall x | x in l && x !in p ensures LeftOut(x, p, n, true) {
      var i :| 0 <= i < |l| && l[i] == x;
    }
  }

  lemma PageExact(db: seq<Row>, commands: seq<string>, lo: Option<Bound>, hi: Option<Bound>, n: nat, newest: bool)
    requires Keyed(db)
    ensures Answers(db, commands, lo, hi, n, newest, Page(Listing(db, commands, lo, hi), n, newest))
  {
    ListingExact(db, commands, lo, hi);
    TakenExact(Listing(db, commands, lo, hi), n, newest);
  }

  // ---------------------------------------------------------------- selectors

  /** The earliest of the rows with this msgid. */
  ghost predicate Names(db: seq<Row>, r: Row, msgid: string) {
    r in db && r.msgid == msgid && forall x :: x in db && x.msgid == msgid && x != r ==> Sooner(r, x)
  }

  /** A selector stands for the earliest row of its msgid, and for nothing if there is none or it is empty. */
  lemma ResolveExact(db: seq<Row>, msgid: string)
    requires Keyed(db)
    ensures Resolve(db, msgid) == None <==> msgid == "" || forall r :: r in db ==> r.msgid != msgid
    ensures Resolve(db, msgid).Some? ==>
            exists r :: Names(db, r, msgid) && Resolve(db, msgid) == Some(Bound(r.time, r.id))
  {
    var hits := OrderBy(Named(db, msgid));
    PagingSessions.NamedRows(db, msgid);
    OrderByRows(Named(db, msgid));
    assert hits != [] ==> hits[0] in hits;
    assert hits == [] ==> forall r :: r in db ==> r.msgid != msgid;
    if Resolve(db, msgid).Some? {
      var r := hits[0];
      forall x | x in db && x.msgid == msgid && x != r ensures Sooner(r, x) {
        assert x in hits;
        var i :| 0 <= i < |hits| && hits[i] == x;
        assert Earlier(At(hits[0]), At(hits[i]));
      }
      assert Names(db, r, msgid);
    }
  }

  // ---------------------------------------------------------------- requests

  /** The limit asked for, no more than the most allowed and no less than one. */
  lemma ClampExact(limit: int, most: int)
    ensures var n := Clamp(limit, most);
            && (1 <= limit <= most ==> n == limit) && (limit > most >= 1 ==> n == most)
            && (limit < 1 || most < 1 ==> n == 1)
  {
  }

  /** The selectors a request names. */
  function Selectors(req: Request): set<string> {
    match req
    case Latest(after, _) => if after.Some? then {after.value} else {}
    case Before(m, _) => {m}
    case After(m, _) => {m}
    case Between(a, b, _) => {a, b}
  }

  /** An empty selector is refused, and one that names no row yields an empty batch that is the end. */
  lemma SelectorsExact(db: seq<Row>, req: Request, commands: seq<string>, most: int)
    ensures "" in Selectors(req) <==> ReplyTo(db, req, commands, most) == InvalidParams
    ensures "" !in Selectors(req) && (exists m :: m in Selectors(req) && Resolve(db, m).None?) ==>
            ReplyTo(db, req, commands, most) == Batch([], true)
  {
  }

  /** LATEST: the newest rows, or the newest ones since a message. */
  lemma LatestExact(db: seq<Row>, after: Option<string>, limit: int, commands: seq<string>, most: int)
    requires Keyed(db) && (after.Some? ==> Resolve(db, after.value).Some?)
    ensures var lo := if after.None? then None else Resolve(db, after.value);
            Answers(db, commands, lo, None, Clamp(limit, most), true,
                    ReplyTo(db, Latest(after, limit), commands, most))
  {
    var lo := if after.None? then None else Resolve(db, after.value);
    PageExact(db, commands, lo, None, Clamp(limit, most), true);
  }

  /** BEFORE and AFTER: the rows next to a message, on one side of it or the other. */
  lemma BesideExact(db: seq<Row>, msgid: string, limit: int, commands: seq<string>, most: int)
    requires Keyed(db) && Resolve(db, msgid).Some?
    ensures Answers(db, commands, None, Resolve(db, msgid), Clamp(limit, most), true,
                    ReplyTo(db, Before(msgid, limit), commands, most))
    ensures Answers(db, commands, Resolve(db, msgid), None, Clamp(limit, most), false,
                    ReplyTo(db, After(msgid, limit), commands, most))
  {
    PageExact(db, commands, None, Resolve(db, msgid), Clamp(limit, most), true);
    PageExact(db, commands, Resolve(db, msgid), None, Clamp(limit, most), false);
  }

  /** BETWEEN: the rows strictly between two messages, those nearest the first one named, oldest first
      whichever of the two is older. */
  lemma BetweenExact(db: seq<Row>, a: Row, b: Row, limit: int, commands: seq<string>, most: int)
    requires Keyed(db) && Names(db, a, a.msgid) && Names(db, b, b.msgid) && a.msgid != "" && b.msgid != ""
    ensures var r := ReplyTo(db, Between(a.msgid, b.msgid, limit), commands, most);
            if Sooner(b, a) then Answers(db, commands, Some(At(b)), Some(At(a)), Clamp(limit, most), true, r)
            else Answers(db, commands, Some(At(a)), Some(At(b)), Clamp(limit, most), false, r)
  {
    ResolveNames(db, a);
    ResolveNames(db, b);
    PageExact(db, commands, Some(At(b)), Some(At(a)), Clamp(limit, most), true);
    PageExact(db, commands, Some(At(a)), Some(At(b)), Clamp(limit, most), false);
  }

  lemma ResolveNames(db: seq<Row>, r: Row)
    requires Keyed(db) && Names(db, r, r.msgid) && r.msgid != ""
    ensures Resolve(db, r.msgid) == Some(At(r))
  {
    ResolveExact(db, r.msgid);
    var x :| Names(db, x, r.msgid) && Resolve(db, r.msgid) == Some(Bound(x.time, x.id));
    assert x == r;
  }

  /** The two selectors of a BETWEEN can be swapped as long as the page is not full: only the side it is
      counted from changes. */
  lemma BetweenSwaps(db: seq<Row>, a: Row, b: Row, limit: int, commands: seq<string>, most: int)
    requires Keyed(db) && Names(db, a, a.msgid) && Names(db, b, b.msgid) && a.msgid != "" && b.msgid != ""
    ensures var r := ReplyTo(db, Between(a.msgid, b.msgid, limit), commands, most);
            r.Batch? && (r.end ==> ReplyTo(db, Between(b.msgid, a.msgid, limit), commands, most) == r)
  {
    ResolveNames(db, a);
    ResolveNames(db, b);
  }
}

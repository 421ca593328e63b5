/** CHATHISTORY paging (internal/history/history.go, internal/store/store.go): the limit clamp, the
    one-row lookahead and the end flag over queries in (time, id) order. A table is the rows of one
    network and target in whatever order they are stored; a query is filter, sort, take. Selectors
    are msgids. Times compare as their fixed-width text does. */
module Paging {
  import opened Common

  datatype Row = Row(id: int, time: int, msgid: string, command: string)

  datatype Bound = Bound(time: int, id: int)

  predicate Earlier(a: Bound, b: Bound) {
    a.time < b.time || (a.time == b.time && a.id < b.id)
  }

  function At(r: Row): Bound { Bound(r.time, r.id) }

  // ---------------------------------------------------------------- filter and sort

  /** Bounds are exclusive; an empty command list lets every command through. */
  predicate Passes(r: Row, commands: seq<string>, lo: Option<Bound>, hi: Option<Bound>) {
    && (commands == [] || r.command in commands)
    && (lo.Some? ==> Earlier(lo.value, At(r)))
    && (hi.Some? ==> Earlier(At(r), hi.value))
  }

  function Where(rows: seq<Row>, commands: seq<string>, lo: Option<Bound>, hi: Option<Bound>): seq<Row> {
    if rows == [] then []
    else
      var front, last := rows[..|rows| - 1], rows[|rows| - 1];
      Where(front, commands, lo, hi) + if Passes(last, commands, lo, hi) then [last] else []
  }

  function InsertRow(p: seq<Row>, x: Row): seq<Row> {
    if p == [] || Earlier(At(p[|p| - 1]), At(x)) then p + [x]
    else InsertRow(p[..|p| - 1], x) + [p[|p| - 1]]
  }

  function OrderBy(rows: seq<Row>): seq<Row> {
    if rows == [] then [] else InsertRow(OrderBy(rows[..|rows| - 1]), rows[|rows| - 1])
  }

  function Listing(db: seq<Row>, commands: seq<string>, lo: Option<Bound>, hi: Option<Bound>): seq<Row> {
    OrderBy(Where(db, commands, lo, hi))
  }

  /** The primary key. */
  ghost predicate Keyed(rows: seq<Row>) {
    forall i, j :: 0 <= i < j < |rows| ==> rows[i].id != rows[j].id
  }

  ghost predicate Ascending(s: seq<Row>) {
    forall i, j :: 0 <= i < j < |s| ==> Earlier(At(s[i]), At(s[j]))
  }

  lemma {:induction false} WhereMembers(rows: seq<Row>, commands: seq<string>,
      lo: Option<Bound>, hi: Option<Bound>, r: Row)
    ensures r in Where(rows, commands, lo, hi) <==> r in rows && Passes(r, commands, lo, hi)
  {
    if rows != [] {
      WhereMembers(rows[..|rows| - 1], commands, lo, hi, r);
      assert rows == rows[..|rows| - 1] + [rows[|rows| - 1]];
    }
  }

  lemma {:induction false} WhereKeyed(rows: seq<Row>, commands: seq<string>, lo: Option<Bound>, hi: Option<Bound>)
    requires Keyed(rows)
    ensures Keyed(Where(rows, commands, lo, hi))
  {
    if rows != [] {
      var front, last := rows[..|rows| - 1], rows[|rows| - 1];
      WhereKeyed(front, commands, lo, hi);
      forall r | r in Where(front, commands, lo, hi) ensures r.id != last.id {
        WhereMembers(front, commands, lo, hi, r);
        var i :| 0 <= i < |front| && front[i] == r;
      }
    }
  }

  lemma WhereRows(rows: seq<Row>, commands: seq<string>, lo: Option<Bound>, hi: Option<Bound>)
    requires Keyed(rows)
    ensures Keyed(Where(rows, commands, lo, hi))
    ensures forall r :: r in Where(rows, commands, lo, hi) <==> r in rows && Passes(r, commands, lo, hi)
  {
    WhereKeyed(rows, commands, lo, hi);
    forall r ensures r in Where(rows, commands, lo, hi) <==> r in rows && Passes(r, commands, lo, hi) {
      WhereMembers(rows, commands, lo, hi, r);
    }
  }

  lemma {:induction false} InsertRowMembers(p: seq<Row>, x: Row, y: Row)
    ensures y in InsertRow(p, x) <==> y in p || y == x
  {
    if p != [] && !Earlier(At(p[|p| - 1]), At(x)) {
      InsertRowMembers(p[..|p| - 1], x, y);
      assert p == p[..|p| - 1] + [p[|p| - 1]];
    }
  }

  lemma AscendingSnoc(p: seq<Row>, x: Row)
    requires Ascending(p) && forall y :: y in p ==> Earlier(At(y), At(x))
    ensures Ascending(p + [x])
  {
    forall i, j | 0 <= i < j < |p + [x]| ensures Earlier(At((p + [x])[i]), At((p + [x])[j])) {
      assert (p + [x])[i] == p[i];
    }
  }

  lemma {:induction false} InsertRowAscending(p: seq<Row>, x: Row)
    requires Ascending(p) && forall y :: y in p ==> y.id != x.id
    ensures Ascending(InsertRow(p, x))
  {
    if p == [] {
    } else {
      var front, last := p[..|p| - 1], p[|p| - 1];
      assert last in p && p == front + [last];
      if Earlier(At(last), At(x)) {
        forall y | y in p ensures Earlier(At(y), At(x)) {
          var i :| 0 <= i < |p| && p[i] == y;
        }
        AscendingSnoc(p, x);
      } else {
        InsertRowAscending(front, x);
        forall y | y in InsertRow(front, x) ensures Earlier(At(y), At(last)) {
          InsertRowMembers(front, x, y);
          if y in front {
            var i :| 0 <= i < |front| && front[i] == y;
            assert p[i] == y;
          }
        }
        AscendingSnoc(InsertRow(front, x), last);
      }
    }
  }

  lemma {:induction false} OrderByRows(rows: seq<Row>)
    requires Keyed(rows)
    ensures Ascending(OrderBy(rows)) && forall r :: r in OrderBy(rows) <==> r in rows
  {
    if rows != [] {
      var front, last := rows[..|rows| - 1], rows[|rows| - 1];
      OrderByRows(front);
      assert rows == front + [last];
      forall y | y in OrderBy(front) ensures y.id != last.id {
        var i :| 0 <= i < |front| && front[i] == y;
      }
      InsertRowAscending(OrderBy(front), last);
      forall r ensures r in OrderBy(rows) <==> r in rows {
        InsertRowMembers(OrderBy(front), last, r);
      }
    }
  }

  lemma ListingRows(db: seq<Row>, commands: seq<string>, lo: Option<Bound>, hi: Option<Bound>)
    requires Keyed(db)
    ensures var l := Listing(db, commands, lo, hi);
            Ascending(l) && forall r :: r in l <==> r in db && Passes(r, commands, lo, hi)
  {
    WhereRows(db, commands, lo, hi);
    OrderByRows(Where(db, commands, lo, hi));
  }

  /** There is one ascending list of a given set of rows. */
  lemma {:induction false} AscendingUnique(a: seq<Row>, b: seq<Row>)
    requires Ascending(a) && Ascending(b) && forall r :: r in a <==> r in b
    ensures a == b
    decreases |a|
  {
    assert b != [] ==> b[0] in b;
    if a != [] {
      assert a[0] in a;
      var j :| 0 <= j < |b| && b[j] == a[0];
      var i :| 0 <= i < |a| && a[i] == b[0] by {
        assert b[0] in b && b[0] in a;
      }
      assert a[0] == b[0];
      forall r ensures r in a[1..] <==> r in b[1..] {
        TailRows(a, r);
        TailRows(b, r);
      }
      AscendingUnique(a[1..], b[1..]);
      assert a == [a[0]] + a[1..] && b == [b[0]] + b[1..];
    }
  }

  lemma TailRows(a: seq<Row>, r: Row)
    requires a != [] && Ascending(a)
    ensures r in a[1..] <==> r in a && r != a[0]
  {
    if r in a[1..] {
      var i :| 0 <= i < |a[1..]| && a[1..][i] == r;
      assert a[i + 1] == r;
    }
    if r in a && r != a[0] {
      var i :| 0 <= i < |a| && a[i] == r;
      assert a[1..][i - 1] == r;
    }
  }

  /** Where a row of the list cuts it: before it, and after it. */
  lemma ListingCut(db: seq<Row>, commands: seq<string>, lo: Option<Bound>, hi: Option<Bound>, k: nat)
    requires Keyed(db) && k < |Listing(db, commands, lo, hi)|
    ensures var l := Listing(db, commands, lo, hi);
            && Listing(db, commands, lo, Some(At(l[k]))) == l[..k]
            && Listing(db, commands, Some(At(l[k])), hi) == l[k + 1..]
  {
    var l := Listing(db, commands, lo, hi);
    ListingRows(db, commands, lo, hi);
    var cut := At(l[k]);
    CutBefore(l, k);
    CutAfter(l, k);
    assert l[k] in l;
    ListingRows(db, commands, lo, Some(cut));
    AscendingUnique(Listing(db, commands, lo, Some(cut)), l[..k]);
    ListingRows(db, commands, Some(cut), hi);
    AscendingUnique(Listing(db, commands, Some(cut), hi), l[k + 1..]);
  }

  lemma CutBefore(l: seq<Row>, k: nat)
    requires Ascending(l) && k < |l|
    ensures Ascending(l[..k]) && forall r :: r in l[..k] <==> r in l && Earlier(At(r), At(l[k]))
  {
    forall r | r in l && Earlier(At(r), At(l[k])) ensures r in l[..k] {
      var i :| 0 <= i < |l| && l[i] == r;
      assert l[..k][i] == r;
    }
  }

  lemma CutAfter(l: seq<Row>, k: nat)
    requires Ascending(l) && k < |l|
    ensures Ascending(l[k + 1..]) && forall r :: r in l[k + 1..] <==> r in l && Earlier(At(l[k]), At(r))
  {
    forall r | r in l[k + 1..] ensures Earlier(At(l[k]), At(r)) {
      var i :| 0 <= i < |l[k + 1..]| && l[k + 1..][i] == r;
      assert l[k + 1 + i] == r;
    }
    forall r | r in l && Earlier(At(l[k]), At(r)) ensures r in l[k + 1..] {
      var i :| 0 <= i < |l| && l[i] == r;
      assert l[k + 1..][i - k - 1] == r;
    }
  }

  // ---------------------------------------------------------------- one query

  function First(l: seq<Row>, n: nat): seq<Row> {
    if n < |l| then l[..n] else l
  }

  function Last(l: seq<Row>, n: nat): seq<Row> {
    if n < |l| then l[|l| - n..] else l
  }

  datatype Query = Query(
    lo: Option<Bound>, hi: Option<Bound>, between: bool, desc: bool, latest: bool, limit: int, commands: seq<string>)

  /** The switch of QueryMessages: which bounds a query applies, and from which side it counts. */
  function Scope(q: Query): (Option<Bound>, Option<Bound>, bool) {
    if q.between && q.lo.Some? && q.hi.Some? then (q.lo, q.hi, q.desc)
    else if q.latest then (q.lo, None, true)
    else if q.hi.Some? && q.lo.None? then (None, q.hi, true)
    else if q.lo.Some? then (q.lo, None, false)
    else (None, None, true)
  }

  /** QueryMessages on msgid bounds; rows come back oldest first, all of them for a negative limit. */
  function QueryMessages(db: seq<Row>, q: Query): seq<Row> {
    var limit := if q.limit == 0 then 100 else q.limit;
    var (lo, hi, backward) := Scope(q);
    var l := Listing(db, q.commands, lo, hi);
    if limit < 0 then l else Taken(l, limit, backward)
  }

  function Taken(l: seq<Row>, n: nat, backward: bool): seq<Row> {
    if backward then Last(l, n) else First(l, n)
  }

  function Named(rows: seq<Row>, msgid: string): seq<Row> {
    if rows == [] then []
    else Named(rows[..|rows| - 1], msgid) + if rows[|rows| - 1].msgid == msgid then [rows[|rows| - 1]] else []
  }

  /** MessageByMsgID: the earliest row with this msgid. */
  function Resolve(db: seq<Row>, msgid: string): Option<Bound> {
    var hits := OrderBy(Named(db, msgid));
    if msgid == "" || hits == [] then None else Some(At(hits[0]))
  }

  /** `limit` is the number the client gave, or 50. */
  datatype Request =
    | Latest(after: Option<string>, limit: int)
    | Before(msgid: string, limit: int)
    | After(msgid: string, limit: int)
    | Between(first: string, second: string, limit: int)

  datatype Reply = InvalidParams | Batch(msgs: seq<Row>, end: bool)

  function Clamp(limit: int, maxLimit: int): (n: nat)
    ensures n >= 1 && (maxLimit >= 1 ==> n <= maxLimit)
  {
    var capped := if limit > maxLimit then maxLimit else limit;
    if capped < 1 then 1 else capped
  }

  /** What a reply owes: the `n` rows nearest the selector, and the end flag exactly when no row of
      the selection is left out. */
  function Page(l: seq<Row>, n: nat, backward: bool): Reply {
    Batch(Taken(l, n, backward), |l| <= n)
  }

  function ReplyTo(db: seq<Row>, req: Request, commands: seq<string>, maxLimit: int): Reply {
    Answer(db, req, commands, Clamp(req.limit, maxLimit))
  }

  function Answer(db: seq<Row>, req: Request, commands: seq<string>, n: nat): Reply {
    match req
    case Latest(None, _) => Page(Listing(db, commands, None, None), n, true)
    case Latest(Some(m), _) =>
      if m == "" then InvalidParams
      else if Resolve(db, m).None? then Batch([], true)
      else Page(Listing(db, commands, Resolve(db, m), None), n, true)
    case Before(m, _) =>
      if m == "" then InvalidParams
      else if Resolve(db, m).None? then Batch([], true)
      else Page(Listing(db, commands, None, Resolve(db, m)), n, true)
    case After(m, _) =>
      if m == "" then InvalidParams
      else if Resolve(db, m).None? then Batch([], true)
      else Page(Listing(db, commands, Resolve(db, m), None), n, false)
    case Between(a, b, _) =>
      var ba, bb := Resolve(db, a), Resolve(db, b);
      if a == "" || b == "" then InvalidParams
      else if ba.None? || bb.None? then Batch([], true)
      else if Earlier(bb.value, ba.value) then Page(Listing(db, commands, bb, ba), n, true)
      else Page(Listing(db, commands, ba, bb), n, false)
  }

  /** A query ready to run, or the reply sent without one. */
  datatype Plan = Done(reply: Reply) | Run(query: Query, oldest: bool)

  /** The reply a plan leads to. */
  function Outcome(db: seq<Row>, plan: Plan, n: nat): Reply {
    match plan
    case Done(reply) => reply
    case Run(q, oldest) => var (lo, hi, _) := Scope(q); Page(Listing(db, q.commands, lo, hi), n, oldest)
  }

  /** HandleCHATHISTORY: fill the query, ask for one row more than the page holds, cut it off. */
  method HandleChathistory(db: seq<Row>, req: Request, commands: seq<string>, maxLimit: int) returns (r: Reply)
    ensures r == ReplyTo(db, req, commands, maxLimit)
  {
    var limit := if req.limit > maxLimit then maxLimit else req.limit;
    if limit < 1 {
      limit := 1;
    }
    var plan := FillQuery(db, req, commands, limit);
    r := RunPlan(db, plan, limit);
  }

  method RunPlan(db: seq<Row>, plan: Plan, limit: nat) returns (r: Reply)
    requires limit >= 1 && (plan.Run? ==> Scope(plan.query).2 == plan.oldest)
    ensures r == Outcome(db, plan, limit)
  {
    match plan {
      case Done(reply) => return reply;
      case Run(query, oldest) =>
        var msgs := QueryMessages(db, query.(limit := limit + 1));
        LookaheadQuery(db, query, limit);
        r := CutPage(msgs, limit, oldest);
    }
  }

  lemma LookaheadQuery(db: seq<Row>, q: Query, n: nat)
    ensures Page(QueryMessages(db, q.(limit := n + 1)), n, Scope(q).2) == Outcome(db, Run(q, Scope(q).2), n)
  {
    var (lo, hi, backward) := Scope(q);
    assert Scope(q.(limit := n + 1)) == Scope(q);
    Lookahead(Listing(db, q.commands, lo, hi), n, backward);
  }

  /** The switch on the subcommand. */
  method FillQuery(db: seq<Row>, req: Request, commands: seq<string>, ghost n: nat) returns (plan: Plan)
    ensures Outcome(db, plan, n) == Answer(db, req, commands, n)
    ensures plan.Run? ==> Scope(plan.query).2 == plan.oldest
  {
    var q := Query(None, None, false, false, false, 0, commands);
    match req {
      case Latest(after, _) =>
        q := q.(latest := true);
        if after.Some? {
          if after.value == "" { return Done(InvalidParams); }
          var bound := Resolve(db, after.value);
          if bound.None? { return Done(Batch([], true)); }
          q := q.(lo := bound);
        }
        return Run(q, true);
      case Before(m, _) =>
        if m == "" { return Done(InvalidParams); }
        var bound := Resolve(db, m);
        if bound.None? { return Done(Batch([], true)); }
        return Run(q.(hi := bound), true);
      case After(m, _) =>
        if m == "" { return Done(InvalidParams); }
        var bound := Resolve(db, m);
        if bound.None? { return Done(Batch([], true)); }
        return Run(q.(lo := bound), false);
      case Between(a, b, _) =>
        if a == "" || b == "" { return Done(InvalidParams); }
        var boundA, boundB := Resolve(db, a), Resolve(db, b);
        if boundA.None? || boundB.None? { return Done(Batch([], true)); }
        if Earlier(boundB.value, boundA.value) {
          boundA, boundB := boundB, boundA;
          q := q.(desc := true);
        }
        return Run(q.(lo := boundA, hi := boundB, between := true), q.desc);
    }
  }

  /** The lookahead: `msgs` was asked for with one row to spare. */
  method CutPage(msgs: seq<Row>, limit: nat, oldest: bool) returns (r: Reply)
    requires limit >= 1
    ensures r == Page(msgs, limit, oldest)
  {
    var end, page := false, msgs;
    if |msgs| <= limit {
      end := true;
    } else if oldest {
      page := msgs[|msgs| - limit..];
    } else {
      page := msgs[..limit];
    }
    return Batch(page, end);
  }

  /** Taking one row more and cutting the page out of that is taking the page. */
  lemma Lookahead(l: seq<Row>, n: nat, oldest: bool)
    ensures Page(Taken(l, n + 1, oldest), n, oldest) == Page(l, n, oldest)
  {
  }
}

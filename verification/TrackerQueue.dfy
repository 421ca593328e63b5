/** One queue of pending solicitous requests (internal/session/tracker.go: pendingRequest,
    coalesce, dropClient, destsOf, popWaiters/popSerial, dropQueueClient, expireQueue). */
module TrackerQueue {
  import opened Common

  type ClientId = string

  /** An uplink line; `enqueueHeldWrite` skips one that is blank. */
  datatype Line = Line(command: string, params: seq<string>, raw: string)

  predicate Blank(m: Line) {
    m.command == "" && m.raw == ""
  }

  /** One downlink sharing an exchange, with its label and WHOX rewrite (RouteDest). */
  datatype Waiter = Waiter(client: ClientId, echoLabel: string, strip: bool, restore: string)

  /** `id` stands for the identity of the Go pointer. */
  datatype Request = Request(id: nat, owner: Waiter, extra: seq<Waiter>, cmd: string, target: string,
                             remote: string, outbound: Line, hold: bool, created: int,
                             ends: set<string>, replies: set<string>, flags: string, fields: string)

  /** A line handed to the uplink on behalf of request `id`. */
  datatype Out = Out(id: nat, line: Line)

  const REQUEST_TTL: int := 600_000_000_000  // 10 minutes in nanoseconds

  function DestsOf(r: Request): (ds: seq<Waiter>)
    ensures |ds| == 1 + |r.extra|
  {
    [r.owner] + r.extra
  }

  /** The waiters of one request are pairwise distinct clients. */
  ghost predicate Distinct(ds: seq<Waiter>) {
    forall i, j :: 0 <= i < j < |ds| ==> ds[i].client != ds[j].client
  }

  predicate Waits(ds: seq<Waiter>, c: ClientId) {
    exists i :: 0 <= i < |ds| && ds[i].client == c
  }

  /** fixWHOXRewrite: keep the waiter's own token, else strip what the head injected. */
  function FixRewrite(w: Waiter, headInjectedT: bool): Waiter {
    w.(strip := w.restore == "" && headInjectedT)
  }

  function Coalesce(r: Request, w: Waiter): Request {
    if Waits(DestsOf(r), w.client) then r
    else r.(extra := r.extra + [FixRewrite(w, r.owner.strip)])
  }

  function Without(ds: seq<Waiter>, c: ClientId): seq<Waiter> {
    if ds == [] then [] else
      (if ds[0].client == c then [] else [ds[0]]) + Without(ds[1..], c)
  }

  /** dropClient: None when the request is left with nobody waiting. */
  function DropClient(r: Request, c: ClientId): Option<Request> {
    if r.owner.client == c then
      if r.extra == [] then None else Some(r.(owner := r.extra[0], extra := r.extra[1..]))
    else Some(r.(extra := Without(r.extra, c)))
  }

  /** Why a queue is swept, and what that does to one request. */
  datatype Cut = ByClient(client: ClientId) | ByOwner(client: ClientId) | ByAge(now: int)

  function Trim(cut: Cut, r: Request): Option<Request> {
    match cut
    case ByClient(c) => DropClient(r, c)
    case ByOwner(c) => if r.owner.client == c then None else Some(r)
    case ByAge(now) => if now - r.created > REQUEST_TTL then None else Some(r)
  }

  function Sweep(q: seq<Request>, cut: Cut): seq<Request> {
    if q == [] then [] else
      (match Trim(cut, q[0]) case None => [] case Some(r) => [r]) + Sweep(q[1..], cut)
  }

  /** enqueueHeldWrite on the head of `q`. */
  function ReleaseHead(q: seq<Request>): (p: seq<Request>)
    requires q != []
    ensures |p| == |q|
  {
    [q[0].(hold := false)] + q[1..]
  }

  function Freed(r: Request): seq<Out> {
    if r.hold && !Blank(r.outbound) then [Out(r.id, r.outbound)] else []
  }

  predicate DropsHead(q: seq<Request>, cut: Cut) {
    q != [] && Trim(cut, q[0]).None? && Sweep(q, cut) != []
  }

  /** dropQueueClient / expireQueue on one queue: a lost head frees the request behind it. */
  function SweepQueue(q: seq<Request>, cut: Cut): seq<Request> {
    if DropsHead(q, cut) then ReleaseHead(Sweep(q, cut)) else Sweep(q, cut)
  }

  function SweepFreed(q: seq<Request>, cut: Cut): seq<Out> {
    if DropsHead(q, cut) then Freed(Sweep(q, cut)[0]) else []
  }

  /** popWaiters / popSerial on one queue. */
  function Pop(q: seq<Request>): seq<Request> {
    if |q| <= 1 then [] else ReleaseHead(q[1..])
  }

  function PopFreed(q: seq<Request>): seq<Out> {
    if |q| <= 1 then [] else Freed(q[1])
  }

  // ---------------------------------------------------------------- dropping one client

  lemma {:induction false} WithoutMembers(ds: seq<Waiter>, c: ClientId, d: Waiter)
    ensures d in Without(ds, c) <==> d in ds && d.client != c
  {
    if ds != [] {
      WithoutMembers(ds[1..], c, d);
    }
  }

  lemma WithoutGone(ds: seq<Waiter>, c: ClientId)
    ensures !Waits(Without(ds, c), c)
  {
    var left := Without(ds, c);
    forall i | 0 <= i < |left| ensures left[i].client != c {
      WithoutMembers(ds, c, left[i]);
    }
  }

  lemma {:induction false} WithoutDistinct(ds: seq<Waiter>, c: ClientId)
    requires Distinct(ds)
    ensures Distinct(Without(ds, c))
  {
    if ds != [] {
      WithoutDistinct(ds[1..], c);
      var rest := Without(ds[1..], c);
      forall j | 0 <= j < |rest| ensures rest[j].client != ds[0].client {
        WithoutMembers(ds[1..], c, rest[j]);
        var i :| 0 <= i < |ds[1..]| && ds[1..][i] == rest[j];
        assert ds[i + 1] == rest[j];
      }
    }
  }

  lemma {:induction false} WithoutAbsent(ds: seq<Waiter>, c: ClientId)
    requires !Waits(ds, c)
    ensures Without(ds, c) == ds
  {
    if ds != [] {
      assert ds[0].client != c;
      assert !Waits(ds[1..], c) by {
        forall i | 0 <= i < |ds[1..]| ensures ds[1..][i].client != c {
          assert ds[1..][i] == ds[i + 1];
        }
      }
      WithoutAbsent(ds[1..], c);
    }
  }

  /** DropClient exactness on one request: it survives iff somebody else waits, and then its
      destinations are the old ones, in order and with their rewrites, minus that client. */
  lemma DropClientExact(r: Request, c: ClientId)
    requires Distinct(DestsOf(r))
    ensures var left := Without(DestsOf(r), c);
            && (DropClient(r, c).None? <==> left == [])
            && (DropClient(r, c).Some? ==>
                  && DestsOf(DropClient(r, c).value) == left
                  && DropClient(r, c).value == r.(owner := left[0], extra := left[1..]))
  {
    var ds := DestsOf(r);
    assert ds[1..] == r.extra;
    if r.owner.client == c {
      assert !Waits(r.extra, c) by {
        forall i | 0 <= i < |r.extra| ensures r.extra[i].client != c {
          assert ds[i + 1] == r.extra[i];
        }
      }
      WithoutAbsent(r.extra, c);
    }
  }

  /** A request outlives ten minutes by not one nanosecond; a younger one is left as it is. */
  lemma AgeExact(r: Request, now: int)
    ensures Trim(ByAge(now), r) == if now - r.created <= 600_000_000_000 then Some(r) else None
  {
  }

  predicate Young(r: Request, now: int) { now - r.created <= 600_000_000_000 }

  // ---------------------------------------------------------------- what sweeping keeps

  /** Everything but who is waiting. */
  predicate SameLine(r: Request, p: Request) {
    r.id == p.id && r.hold == p.hold && r.remote == p.remote && r.outbound == p.outbound && r.created == p.created
  }

  lemma TrimKeepsLine(cut: Cut, r: Request)
    ensures Trim(cut, r).Some? ==> SameLine(r, Trim(cut, r).value)
  {
  }

  lemma TrimKeepsDistinct(cut: Cut, r: Request)
    requires Distinct(DestsOf(r)) && Trim(cut, r).Some?
    ensures Distinct(DestsOf(Trim(cut, r).value))
  {
    if cut.ByClient? {
      DropClientExact(r, cut.client);
      WithoutDistinct(DestsOf(r), cut.client);
    }
  }

  /** Each request of a swept queue is the trimmed form of a request of the queue. */
  lemma {:induction false} SweepOrigin(q: seq<Request>, cut: Cut, p: Request)
    ensures p in Sweep(q, cut) <==> exists r :: r in q && Trim(cut, r) == Some(p)
  {
    if q != [] {
      SweepOrigin(q[1..], cut, p);
      assert q == [q[0]] + q[1..];
      if p in Sweep(q[1..], cut) {
        var r :| r in q[1..] && Trim(cut, r) == Some(p);
        assert r in q;
      }
    }
  }

  /** Ids stay pairwise distinct. */
  ghost predicate UniqueIds(q: seq<Request>) {
    forall i, j :: 0 <= i < j < |q| ==> q[i].id != q[j].id
  }

  lemma {:induction false} SweepUnique(q: seq<Request>, cut: Cut)
    requires UniqueIds(q)
    ensures UniqueIds(Sweep(q, cut))
  {
    if q != [] {
      var rest := Sweep(q[1..], cut);
      SweepUnique(q[1..], cut);
      if Trim(cut, q[0]).Some? {
        TrimKeepsLine(cut, q[0]);
        forall j | 0 <= j < |rest| ensures rest[j].id != q[0].id {
          SweepOrigin(q[1..], cut, rest[j]);
          var r :| r in q[1..] && Trim(cut, r) == Some(rest[j]);
          TrimKeepsLine(cut, r);
          var i :| 0 <= i < |q[1..]| && q[1..][i] == r;
          assert q[i + 1] == r;
        }
      }
    }
  }

  /** A request behind the first is written only on the same server as all before it. */
  ghost predicate SameRemote(q: seq<Request>) {
    forall i, j :: 0 <= j < i < |q| && !q[i].hold ==> q[j].remote == q[i].remote
  }

  ghost predicate AllHeld(q: seq<Request>) {
    forall i :: 0 <= i < |q| ==> q[i].hold
  }

  lemma {:induction false} SweepHeld(q: seq<Request>, cut: Cut)
    requires AllHeld(q)
    ensures AllHeld(Sweep(q, cut))
  {
    if q != [] {
      SweepHeld(q[1..], cut);
      TrimKeepsLine(cut, q[0]);
    }
  }

  lemma {:induction false} SweepRemote(q: seq<Request>, cut: Cut)
    requires SameRemote(q)
    ensures SameRemote(Sweep(q, cut))
  {
    if q != [] {
      assert SameRemote(q[1..]) by {
        forall i, j | 0 <= j < i < |q[1..]| && !q[1..][i].hold ensures q[1..][j].remote == q[1..][i].remote {
          assert q[1..][i] == q[i + 1] && q[1..][j] == q[j + 1];
        }
      }
      SweepRemote(q[1..], cut);
      var rest := Sweep(q[1..], cut);
      if Trim(cut, q[0]).Some? {
        TrimKeepsLine(cut, q[0]);
        forall j | 0 <= j < |rest| && !rest[j].hold ensures rest[j].remote == q[0].remote {
          SweepOrigin(q[1..], cut, rest[j]);
          var r :| r in q[1..] && Trim(cut, r) == Some(rest[j]);
          TrimKeepsLine(cut, r);
          var i :| 0 <= i < |q[1..]| && q[1..][i] == r;
          assert q[i + 1] == r;
        }
      }
    }
  }

  // ---------------------------------------------------------------- DropClient on a whole queue

  function DestLists(q: seq<Request>): (ls: seq<seq<Waiter>>)
    ensures |ls| == |q|
    ensures forall i :: 0 <= i < |q| ==> ls[i] == DestsOf(q[i])
  {
    if q == [] then [] else [DestsOf(q[0])] + DestLists(q[1..])
  }

  /** Remove one client from every list, and lists that become empty. */
  function Prune(ls: seq<seq<Waiter>>, c: ClientId): seq<seq<Waiter>> {
    if ls == [] then [] else
      (if Without(ls[0], c) == [] then [] else [Without(ls[0], c)]) + Prune(ls[1..], c)
  }

  /** DropClient exactness on one queue: the surviving exchanges, in order, are the old ones with
      this client's entry removed; nobody else's wait is lost. */
  lemma {:induction false} SweepClientExact(q: seq<Request>, c: ClientId)
    requires forall r :: r in q ==> Distinct(DestsOf(r))
    ensures DestLists(Sweep(q, ByClient(c))) == Prune(DestLists(q), c)
  {
    if q != [] {
      DropClientExact(q[0], c);
      SweepClientExact(q[1..], c);
      assert DestLists(q)[1..] == DestLists(q[1..]);
    }
  }

  /** The serial queues' own loop only looks at the owner; nothing is coalesced there. */
  lemma {:induction false} SweepOwnerExact(q: seq<Request>, c: ClientId)
    requires forall r :: r in q ==> r.extra == []
    ensures DestLists(Sweep(q, ByOwner(c))) == Prune(DestLists(q), c)
  {
    if q != [] {
      assert Without(DestsOf(q[0]), c) == (if q[0].owner.client == c then [] else [q[0].owner]);
      SweepOwnerExact(q[1..], c);
      assert DestLists(q)[1..] == DestLists(q[1..]);
    }
  }

  lemma ReleaseKeepsDests(q: seq<Request>)
    requires q != []
    ensures DestLists(ReleaseHead(q)) == DestLists(q)
  {
    assert ReleaseHead(q)[1..] == q[1..];
  }
}

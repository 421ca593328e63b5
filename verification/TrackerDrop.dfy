/** DropClient exactness (internal/session/tracker.go DropClient, dropClient, destsOf): exactly
    the leaving client disappears, and stays unreachable until it asks again. */
module TrackerDrop {
  import opened Common
  import opened TrackerQueue
  import opened Tracker
  import ModeLetters
  import opened TrackerInvariant
  import opened TrackerLedger
  import opened TrackerRuns

  lemma SweepQueueDests(k: Key, q: seq<Request>, c: ClientId)
    requires WaitersOk(k, q)
    ensures DestLists(SweepQueue(q, CutOf(Leaving(c), k))) == Prune(DestLists(q), c)
  {
    var cut := CutOf(Leaving(c), k);
    if k.Serial? {
      SweepOwnerExact(q, c);
    } else {
      SweepClientExact(q, c);
    }
    if DropsHead(q, cut) {
      ReleaseKeepsDests(Sweep(q, cut));
    }
  }

  /** `u` is `t` with `c` gone: each queue's exchanges, in order, are the old ones with this
      client's entry removed; labelled and WHOX exchanges survive iff somebody else waits, with
      the remaining destinations unchanged; likewise the follow-ups. */
  ghost predicate Pruned(t: State, u: State, c: ClientId) {
    && (forall k :: DestLists(QueueAt(u.queues, k)) == Prune(DestLists(QueueAt(t.queues, k)), c))
    && MapPruned(t.labeled, u.labeled, c) && MapPruned(t.whox, u.whox, c)
    && (forall s :: s in u.sticky <==> s in t.sticky && Without(t.sticky[s].dests, c) != [])
    && (forall s :: s in u.sticky ==> u.sticky[s].dests == Without(t.sticky[s].dests, c))
  }

  lemma DropPrunes(t: State, c: ClientId, order: seq<Key>)
    requires FlightInv(t)
    ensures Pruned(t, SweepState(t, Leaving(c), order), c)
  {
    var u := SweepState(t, Leaving(c), order);
    forall k ensures DestLists(QueueAt(u.queues, k)) == Prune(DestLists(QueueAt(t.queues, k)), c) {
      if k in t.queues {
        SweepQueueDests(k, t.queues[k], c);
      }
    }
    TrimMapPruned(t.labeled, c);
    TrimMapPruned(t.whox, c);
  }

  /** DropClient exactness in every reachable state. */
  lemma DropExact(t: State, c: ClientId, order: seq<Key>)
    requires Reachable(t) && Valid(t, Drop(c, order))
    ensures Pruned(t, Step(t, Drop(c, order)), c)
  {
    ReachableInv(t);
    DropPrunes(t, c, order);
  }

  ghost predicate MapPruned(m: map<string, Request>, m': map<string, Request>, c: ClientId) {
    && (forall s :: s in m' <==> s in m && Without(DestsOf(m[s]), c) != [])
    && (forall s :: s in m' ==> DestsOf(m'[s]) == Without(DestsOf(m[s]), c))
  }

  lemma TrimMapPruned(m: map<string, Request>, c: ClientId)
    requires MapOk(m)
    ensures MapPruned(m, TrimMap(m, ByClient(c)), c)
  {
    forall s | s in m
      ensures s in TrimMap(m, ByClient(c)) <==> Without(DestsOf(m[s]), c) != []
      ensures s in TrimMap(m, ByClient(c)) ==> DestsOf(TrimMap(m, ByClient(c))[s]) == Without(DestsOf(m[s]), c)
    {
      DropClientExact(m[s], c);
    }
  }

  /** Nobody else's wait is lost: pruning a list of exchanges keeps every other waiter. */
  lemma {:induction false} PruneKeepsOthers(ls: seq<seq<Waiter>>, c: ClientId, w: Waiter)
    requires w.client != c && exists i :: 0 <= i < |ls| && w in ls[i]
    ensures exists j :: 0 <= j < |Prune(ls, c)| && w in Prune(ls, c)[j]
  {
    var i :| 0 <= i < |ls| && w in ls[i];
    WithoutMembers(ls[0], c, w);
    if i == 0 {
      assert w in Prune(ls, c)[0];
    } else {
      assert w in ls[1..][i - 1];
      PruneKeepsOthers(ls[1..], c, w);
      var j :| 0 <= j < |Prune(ls[1..], c)| && w in Prune(ls[1..], c)[j];
      assert Prune(ls, c)[j + |Prune(ls, c)| - |Prune(ls[1..], c)|] == Prune(ls[1..], c)[j];
    }
  }

  // ---------------------------------------------------------------- gone until it asks again

  ghost predicate NoneWait(q: seq<Request>, c: ClientId) {
    forall r :: r in q ==> !Waits(DestsOf(r), c)
  }

  /** No exchange in the tracker has `c` among its destinations. */
  ghost predicate Absent(t: State, c: ClientId) {
    && (forall k :: k in t.queues ==> NoneWait(t.queues[k], c))
    && (forall l :: l in t.labeled ==> !Waits(DestsOf(t.labeled[l]), c))
    && (forall tok :: tok in t.whox ==> !Waits(DestsOf(t.whox[tok]), c))
    && (forall s :: s in t.sticky ==> !Waits(t.sticky[s].dests, c))
  }

  lemma SubsetAbsent(ds: seq<Waiter>, es: seq<Waiter>, c: ClientId)
    requires !Waits(ds, c) && forall w :: w in es ==> w in ds
    ensures !Waits(es, c)
  {
    forall i | 0 <= i < |es| ensures es[i].client != c {
      assert es[i] in ds;
      var j :| 0 <= j < |ds| && ds[j] == es[i];
    }
  }

  lemma TrimSubset(cut: Cut, r: Request)
    requires Trim(cut, r).Some?
    ensures forall w :: w in DestsOf(Trim(cut, r).value) ==> w in DestsOf(r)
  {
    if cut.ByClient? {
      forall w | w in DestsOf(Trim(cut, r).value) ensures w in DestsOf(r) {
        WithoutMembers(r.extra, cut.client, w);
      }
    }
  }

  lemma TrimAbsent(cut: Cut, r: Request, c: ClientId)
    requires !Waits(DestsOf(r), c) && Trim(cut, r).Some?
    ensures !Waits(DestsOf(Trim(cut, r).value), c)
  {
    TrimSubset(cut, r);
    SubsetAbsent(DestsOf(r), DestsOf(Trim(cut, r).value), c);
  }

  lemma ReleaseAbsent(q: seq<Request>, c: ClientId)
    requires q != [] && NoneWait(q, c)
    ensures NoneWait(ReleaseHead(q), c)
  {
    forall r | r in ReleaseHead(q) ensures !Waits(DestsOf(r), c) {
      var i :| 0 <= i < |q| && ReleaseHead(q)[i] == r;
      assert q[i] in q && DestsOf(r) == DestsOf(q[i]);
    }
  }

  lemma SweepQueueAbsent(q: seq<Request>, cut: Cut, c: ClientId)
    requires NoneWait(q, c)
    ensures NoneWait(SweepQueue(q, cut), c)
  {
    forall p | p in Sweep(q, cut) ensures !Waits(DestsOf(p), c) {
      SweepOrigin(q, cut, p);
      var r :| r in q && Trim(cut, r) == Some(p);
      TrimAbsent(cut, r, c);
    }
    if DropsHead(q, cut) {
      ReleaseAbsent(Sweep(q, cut), c);
    }
  }

  lemma SweepStickyAbsent(m: map<string, Sticky>, sw: Sweeping, c: ClientId)
    requires forall s :: s in m ==> !Waits(m[s].dests, c)
    ensures forall s :: s in SweepSticky(m, sw) ==> !Waits(SweepSticky(m, sw)[s].dests, c)
  {
    forall s | s in SweepSticky(m, sw) ensures !Waits(SweepSticky(m, sw)[s].dests, c) {
      if sw.Leaving? {
        forall w | w in Without(m[s].dests, sw.client) ensures w in m[s].dests {
          WithoutMembers(m[s].dests, sw.client, w);
        }
        SubsetAbsent(m[s].dests, Without(m[s].dests, sw.client), c);
      }
    }
  }

  lemma TrimMapAbsent(m: map<string, Request>, cut: Cut, c: ClientId)
    requires forall l :: l in m ==> !Waits(DestsOf(m[l]), c)
    ensures forall l :: l in TrimMap(m, cut) ==> !Waits(DestsOf(TrimMap(m, cut)[l]), c)
  {
    forall l | l in TrimMap(m, cut) ensures !Waits(DestsOf(TrimMap(m, cut)[l]), c) {
      TrimAbsent(cut, m[l], c);
    }
  }

  lemma SweepAbsent(t: State, sw: Sweeping, order: seq<Key>, c: ClientId)
    requires Absent(t, c)
    ensures Absent(SweepState(t, sw, order), c)
  {
    forall k | k in SweepAll(t.queues, sw) ensures NoneWait(SweepAll(t.queues, sw)[k], c) {
      SweepQueueAbsent(t.queues[k], CutOf(sw, k), c);
    }
    TrimMapAbsent(t.labeled, MapCut(sw), c);
    TrimMapAbsent(t.whox, MapCut(sw), c);
    SweepStickyAbsent(t.sticky, sw, c);
  }

  lemma CoalesceAbsent(r: Request, w: Waiter, c: ClientId)
    requires !Waits(DestsOf(r), c) && w.client != c
    ensures !Waits(DestsOf(Coalesce(r, w)), c)
  {
    var ds, es := DestsOf(r), DestsOf(Coalesce(r, w));
    forall i | 0 <= i < |es| ensures es[i].client != c {
      assert i < |ds| ==> es[i] == ds[i];
    }
  }

  lemma EnqueueAbsent(t: State, k: Key, r: Request, c: ClientId)
    requires Absent(t, c) && r.owner.client != c && r.extra == []
    ensures Absent(Enqueue(t, k, r), c)
  {
    var q := QueueAt(t.queues, k);
    forall p | p in q + [r] ensures !Waits(DestsOf(p), c) {
      assert p in q || p == r;
    }
  }

  lemma CoalesceAtAbsent(t: State, k: Key, i: nat, w: Waiter, c: ClientId)
    requires Absent(t, c) && k in t.queues && i < |t.queues[k]| && w.client != c
    ensures Absent(t.(queues := CoalesceAt(t.queues, k, i, w)), c)
  {
    var q := t.queues[k];
    var q' := q[i := Coalesce(q[i], w)];
    CoalesceAbsent(q[i], w, c);
    forall p | p in q' ensures !Waits(DestsOf(p), c) {
      var j :| 0 <= j < |q'| && q'[j] == p;
      assert j == i || (p == q[j] && q[j] in q);
    }
  }

  lemma BeginByRemoteAbsent(t: State, k: Key, r: Request, c: ClientId)
    requires Absent(t, c) && r.owner.client != c && r.extra == []
    ensures Absent(BeginByRemote(t, k, r), c)
  {
    if !Busy(t, k) {
      EnqueueAbsent(t, k, r.(hold := false), c);
    } else {
      FirstRemoteIn(t.queues[k], r.remote);
      match FirstRemote(t.queues[k], r.remote)
      case Some(i) => CoalesceAtAbsent(t, k, i, r.owner, c);
      case None => EnqueueAbsent(t, k, r.(hold := true), c);
    }
  }

  lemma {:induction false} BeginWhoisAbsent(t: State, o: Opts, targets: seq<WhoisTarget>, now: int, c: ClientId)
    requires Absent(t, c) && o.client != c
    ensures Absent(BeginWhois(t, o, targets, now), c)
    decreases |targets|
  {
    if targets != [] {
      if targets[0].wire != "" {
        BeginByRemoteAbsent(t, Whois(targets[0].nick), WhoisRequest(o, t.ledger.nextId, targets[0], now), c);
      }
      BeginWhoisAbsent(BeginNick(t, o, targets[0], now), o, targets[1..], now, c);
    }
  }

  lemma BeginQueuedAbsent(t: State, o: Opts, now: int, c: ClientId)
    requires Absent(t, c) && o.client != c
    ensures Absent(BeginQueued(t, o, now), c)
  {
    var id := t.ledger.nextId;
    if o.cmd == "STATS" && o.statsLetter != "" {
      BeginByRemoteAbsent(t, Stats(o.statsLetter), RequestOf(o, id, o.statsLetter, false, now), c);
    } else if o.cmd == "TOPIC" && o.enquiryTarget != "" {
      EnqueueAbsent(t, Topic(o.enquiryTarget), RequestOf(o, id, o.enquiryTarget, false, now), c);
    } else if o.cmd == "MODE" && o.enquiryTarget != "" {
      var k := Mode(o.enquiryTarget, ModeLetters.KeyOf(o.modeLetters));
      if Busy(t, k) {
        CoalesceAtAbsent(t, k, 0, WaiterOf(o), c);
      } else {
        EnqueueAbsent(t, k, RequestOf(o, id, o.enquiryTarget, false, now), c);
      }
    } else if o.cmd == "NAMES" && o.enquiryTarget != "" {
      BeginByRemoteAbsent(t, Names(o.enquiryTarget), RequestOf(o, id, o.enquiryTarget, false, now), c);
    } else {
      var hold := MustHold(QueueAt(t.queues, Serial(o.cmd)), o.cmd, o.remote);
      EnqueueAbsent(t, Serial(o.cmd), RequestOf(o, id, o.enquiryTarget, hold, now), c);
    }
  }

  lemma BeginWhoxAbsent(t: State, o: Opts, now: int, pick: Option<string>, c: ClientId)
    requires Absent(t, c) && o.client != c
    ensures Absent(BeginWhox(t, o, now, pick), c)
  {
    if pick.Some? && pick.value in t.whox {
      CoalesceAbsent(t.whox[pick.value], WaiterOf(o), c);
    }
  }

  lemma BeginLabeledAbsent(t: State, o: Opts, now: int, c: ClientId)
    requires Absent(t, c) && o.client != c
    ensures Absent(BeginLabeled(t, o, now), c)
  {
  }

  lemma BeginBodyAbsent(t: State, o: Opts, now: int, pick: Option<string>, c: ClientId)
    requires Absent(t, c) && o.client != c
    ensures Absent(BeginBody(t, o, now, pick), c)
  {
    if o.preferLabel {
      BeginLabeledAbsent(t, o, now, c);
    } else if o.preferWhox && (o.cmd == "WHO" || o.cmd == "WHOX") {
      BeginWhoxAbsent(t, o, now, pick, c);
    } else if o.cmd == "WHOIS" && o.whoisTargets != [] {
      BeginWhoisAbsent(t, o, o.whoisTargets, now, c);
    } else {
      BeginQueuedAbsent(t, o, now, c);
    }
  }

  lemma PopAbsent(q: seq<Request>, c: ClientId)
    requires NoneWait(q, c)
    ensures NoneWait(Pop(q), c)
  {
    if |q| > 1 {
      forall r | r in q[1..] ensures r in q {
      }
      ReleaseAbsent(q[1..], c);
    }
  }

  lemma DeliverAbsent(t: State, n: Numeric, e: Effect, now: int, c: ClientId)
    requires Absent(t, c) && EffectOk(t, e)
    ensures Absent(Deliver(t, n, e, now), c)
  {
    if e.ToQueue? && e.ends {
      PopAbsent(t.queues[e.k], c);
      assert t.queues[e.k][0] in t.queues[e.k];
    }
  }

  lemma FixWhoxAbsent(r: Request, injectT: bool, ct: string, c: ClientId)
    requires !Waits(DestsOf(r), c)
    ensures !Waits(DestsOf(FixWhox(r, injectT, ct)), c)
  {
    var ds, es := DestsOf(r), DestsOf(FixWhox(r, injectT, ct));
    forall i | 0 <= i < |es| ensures es[i].client != c {
      assert es[i].client == ds[i].client;
    }
  }

  lemma AbsentStep(t: State, a: Action, c: ClientId)
    requires Absent(t, c) && Valid(t, a) && (a.Begin? ==> a.opts.client != c)
    ensures Absent(Step(t, a), c)
  {
    match a
    case Begin(o, now, order, pick) =>
      SweepAbsent(t, Aging(now), order, c);
      BeginBodyAbsent(SweepState(t, Aging(now), order), o, now, pick, c);
    case Route(n, now, order, e) =>
      SweepAbsent(t, Aging(now), order, c);
      SelectsIsOk(SweepState(t, Aging(now), order), n, e);
      DeliverAbsent(SweepState(t, Aging(now), order), n, e, now, c);
    case Drop(d, order) =>
      SweepAbsent(t, Leaving(d), order, c);
    case SetWhoxFix(tok, injectT, ct) =>
      if tok in t.whox {
        FixWhoxAbsent(t.whox[tok], injectT, ct, c);
      }
    case _ =>
  }

  /** The destinations a routing step hands out. */
  ghost function Routed(t: State, a: Action): seq<Waiter>
    requires Valid(t, a)
  {
    match a
    case Route(_, now, order, e) => Dests(SweepState(t, Aging(now), order), e)
    case _ => []
  }

  lemma {:induction false} HeadDestsAbsent(qs: Queues, keys: seq<Key>, c: ClientId)
    requires forall k :: k in qs ==> NoneWait(qs[k], c)
    ensures !Waits(HeadDests(qs, keys), c)
  {
    if keys != [] {
      HeadDestsAbsent(qs, keys[1..], c);
      var head: seq<Waiter> := if keys[0] in qs && qs[keys[0]] != [] then DestsOf(qs[keys[0]][0]) else [];
      var rest: seq<Waiter> := HeadDests(qs, keys[1..]);
      if keys[0] in qs && qs[keys[0]] != [] {
        assert qs[keys[0]][0] in qs[keys[0]];
      }
      forall i | 0 <= i < |head + rest| ensures (head + rest)[i].client != c {
        assert (head + rest)[i] == if i < |head| then head[i] else rest[i - |head|];
      }
    }
  }

  lemma DestsAbsent(t: State, e: Effect, c: ClientId)
    requires Absent(t, c)
    ensures !Waits(Dests(t, e), c)
  {
    if e.ToModes? {
      HeadDestsAbsent(t.queues, e.keys, c);
    } else if e.ToQueue? && Busy(t, e.k) {
      assert t.queues[e.k][0] in t.queues[e.k];
    }
  }

  lemma RoutedAbsent(t: State, a: Action, c: ClientId)
    requires Absent(t, c) && Valid(t, a)
    ensures !Waits(Routed(t, a), c)
  {
    if a.Route? {
      SweepAbsent(t, Aging(a.now), a.order, c);
      DestsAbsent(SweepState(t, Aging(a.now), a.order), a.effect, c);
    }
  }

  // ---------------------------------------------------------------- the drop itself

  lemma SweepQueueGone(k: Key, q: seq<Request>, c: ClientId)
    requires WaitersOk(k, q)
    ensures NoneWait(SweepQueue(q, CutOf(Leaving(c), k)), c)
  {
    var cut := CutOf(Leaving(c), k);
    forall p | p in Sweep(q, cut) ensures !Waits(DestsOf(p), c) {
      SweepOrigin(q, cut, p);
      var r :| r in q && Trim(cut, r) == Some(p);
      if k.Serial? {
        assert DestsOf(p) == [p.owner];
      } else {
        DropClientExact(r, c);
        WithoutGone(DestsOf(r), c);
      }
    }
    if DropsHead(q, cut) {
      ReleaseAbsent(Sweep(q, cut), c);
    }
  }

  lemma DropMakesAbsent(t: State, c: ClientId, order: seq<Key>)
    requires FlightInv(t) && Valid(t, Drop(c, order))
    ensures Absent(Step(t, Drop(c, order)), c)
  {
    var u := Step(t, Drop(c, order));
    forall k | k in u.queues ensures NoneWait(u.queues[k], c) {
      SweepQueueGone(k, t.queues[k], c);
    }
    forall l | l in u.labeled ensures !Waits(DestsOf(u.labeled[l]), c) {
      DropClientExact(t.labeled[l], c);
      WithoutGone(DestsOf(t.labeled[l]), c);
    }
    forall l | l in u.whox ensures !Waits(DestsOf(u.whox[l]), c) {
      DropClientExact(t.whox[l], c);
      WithoutGone(DestsOf(t.whox[l]), c);
    }
    forall s | s in u.sticky ensures !Waits(u.sticky[s].dests, c) {
      WithoutGone(t.sticky[s].dests, c);
    }
  }

  predicate Silent(actions: seq<Action>, c: ClientId) {
    forall i :: 0 <= i < |actions| ==> actions[i].Begin? ==> actions[i].opts.client != c
  }

  lemma {:induction false} StaysAbsent(t: State, actions: seq<Action>, c: ClientId)
    requires Absent(t, c) && ValidRun(t, actions) && Silent(actions, c)
    ensures Absent(Run(t, actions), c)
    decreases |actions|
  {
    if actions != [] {
      assert actions[0] == actions[0];
      AbsentStep(t, actions[0], c);
      StaysAbsent(Step(t, actions[0]), actions[1..], c);
    }
  }

  lemma AbsentNeverRouted(t: State, actions: seq<Action>, a: Action, c: ClientId)
    requires Absent(t, c) && ValidRun(t, actions) && Silent(actions, c) && Valid(Run(t, actions), a)
    ensures !Waits(Routed(Run(t, actions), a), c)
  {
    StaysAbsent(t, actions, c);
    RoutedAbsent(Run(t, actions), a, c);
  }

  /** After DropClient(c), in any reachable state and whatever happens next, no message is
      routed to `c` until `c` itself begins a new request. */
  lemma GoneUntilItAsks(t: State, c: ClientId, order: seq<Key>, after: seq<Action>, a: Action)
    requires Reachable(t) && Valid(t, Drop(c, order))
    requires ValidRun(Step(t, Drop(c, order)), after) && Silent(after, c)
    requires Valid(Run(Step(t, Drop(c, order)), after), a)
    ensures !Waits(Routed(Run(Step(t, Drop(c, order)), after), a), c)
  {
    ReachableInv(t);
    DropMakesAbsent(t, c, order);
    AbsentNeverRouted(Step(t, Drop(c, order)), after, a, c);
  }

  // ---------------------------------------------------------------- expiry

  /** The requests of the last ten minutes. */
  function Recent(q: seq<Request>, now: int): seq<Request> {
    if q == [] then [] else (if Young(q[0], now) then [q[0]] else []) + Recent(q[1..], now)
  }

  lemma {:induction false} SweepRecent(q: seq<Request>, now: int)
    ensures Sweep(q, ByAge(now)) == Recent(q, now)
  {
    if q != [] {
      AgeExact(q[0], now);
      SweepRecent(q[1..], now);
    }
  }

  /** An expiry sweep keeps what is younger than ten minutes: in a queue that loses its head the next
      request is in flight. */
  lemma ExpireQueueExact(t: State, now: int, order: seq<Key>, k: Key)
    ensures var u := SweepState(t, Aging(now), order);
            var q := QueueAt(t.queues, k);
            var left := Recent(q, now);
            QueueAt(u.queues, k)
            == if left != [] && !Young(q[0], now) then [left[0].(hold := false)] + left[1..] else left
  {
    var q := QueueAt(t.queues, k);
    SweepRecent(q, now);
    if q != [] {
      AgeExact(q[0], now);
    }
  }

  lemma ExpireMapsExact(t: State, now: int, order: seq<Key>, x: string)
    ensures var u := SweepState(t, Aging(now), order);
            && (x in u.labeled <==> x in t.labeled && Young(t.labeled[x], now))
            && (x in u.labeled ==> u.labeled[x] == t.labeled[x])
            && (x in u.whox <==> x in t.whox && Young(t.whox[x], now))
            && (x in u.whox ==> u.whox[x] == t.whox[x])
            && (x in u.sticky <==> x in t.sticky && now - t.sticky[x].created <= 600_000_000_000)
            && (x in u.sticky ==> u.sticky[x] == t.sticky[x])
  {
    if x in t.labeled {
      AgeExact(t.labeled[x], now);
    }
    if x in t.whox {
      AgeExact(t.whox[x], now);
    }
  }
}

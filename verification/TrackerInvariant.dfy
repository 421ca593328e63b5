/** What every step of the request tracker keeps: the in-flight discipline of each queue and
    the accounting of uplink lines (internal/session/tracker.go). */
module TrackerInvariant {
  import opened Common
  import opened TrackerQueue
  import opened Tracker
  import ModeLetters

  /** Queues in which at most one request is on the wire. */
  predicate OneInFlight(k: Key) {
    k.Whois? || k.Stats? || k.Names? || (k.Serial? && HoldWrite(k.kind))
  }

  predicate ServerArg(k: Key) {
    k.Serial? && TakesServerTarget(k.kind)
  }

  predicate Coalesces(k: Key) {
    !k.Topic? && !k.Serial?
  }

  /** The head is always written; behind it, one-in-flight queues hold everything, and a queue
      with a server argument only writes what goes to the same server as all before it. */
  ghost predicate FlightOk(k: Key, q: seq<Request>) {
    && q != [] && !q[0].hold
    && (OneInFlight(k) ==> AllHeld(q[1..]))
    && (ServerArg(k) ==> SameRemote(q))
    && (k.Mode? ==> |q| == 1)
  }

  ghost predicate WaitersOk(k: Key, q: seq<Request>) {
    forall r :: r in q ==> Distinct(DestsOf(r)) && (!Coalesces(k) ==> r.extra == [])
  }

  ghost predicate QueuesOk(qs: Queues) {
    forall k :: k in qs ==> FlightOk(k, qs[k]) && WaitersOk(k, qs[k])
  }

  ghost predicate MapOk(m: map<string, Request>) {
    forall k :: k in m ==> Distinct(DestsOf(m[k]))
  }

  // ---------------------------------------------------------------- one queue

  lemma TailRemote(q: seq<Request>)
    requires q != [] && SameRemote(q)
    ensures SameRemote(q[1..])
  {
    forall i, j | 0 <= j < i < |q[1..]| && !q[1..][i].hold ensures q[1..][j].remote == q[1..][i].remote {
      assert q[1..][i] == q[i + 1] && q[1..][j] == q[j + 1];
    }
  }

  lemma ReleaseRemote(q: seq<Request>)
    requires q != [] && SameRemote(q)
    ensures SameRemote(ReleaseHead(q))
  {
    var p := ReleaseHead(q);
    forall i, j | 0 <= j < i < |p| && !p[i].hold ensures p[j].remote == p[i].remote {
      assert p[i] == q[i] && p[j].remote == q[j].remote;
    }
  }

  lemma {:induction false} SweepShorter(q: seq<Request>, cut: Cut)
    ensures |Sweep(q, cut)| <= |q|
  {
    if q != [] {
      SweepShorter(q[1..], cut);
    }
  }

  lemma SweepFlight(k: Key, q: seq<Request>, cut: Cut)
    requires FlightOk(k, q) && SweepQueue(q, cut) != []
    ensures FlightOk(k, SweepQueue(q, cut))
  {
    var kept := Sweep(q, cut);
    SweepShorter(q, cut);
    TrimKeepsLine(cut, q[0]);
    if OneInFlight(k) {
      SweepHeld(q[1..], cut);
      if Trim(cut, q[0]).Some? {
        assert kept[1..] == Sweep(q[1..], cut);
      }
    }
    if ServerArg(k) {
      SweepRemote(q, cut);
      if DropsHead(q, cut) {
        ReleaseRemote(kept);
      }
    }
  }

  lemma PopFlight(k: Key, q: seq<Request>)
    requires FlightOk(k, q) && Pop(q) != []
    ensures FlightOk(k, Pop(q))
  {
    assert Pop(q)[1..] == q[1..][1..] == q[2..];
    if ServerArg(k) {
      TailRemote(q);
      ReleaseRemote(q[1..]);
    }
  }

  /** A trimmed request still has distinct waiters, and none are coalesced where none were. */
  lemma TrimWaiters(k: Key, r: Request, cut: Cut)
    requires Distinct(DestsOf(r)) && (!Coalesces(k) ==> r.extra == []) && Trim(cut, r).Some?
    ensures var p := Trim(cut, r).value; Distinct(DestsOf(p)) && (!Coalesces(k) ==> p.extra == [])
  {
    TrimKeepsDistinct(cut, r);
  }

  lemma SweepWaiters(k: Key, q: seq<Request>, cut: Cut)
    requires WaitersOk(k, q)
    ensures WaitersOk(k, Sweep(q, cut))
  {
    forall p | p in Sweep(q, cut) ensures Distinct(DestsOf(p)) && (!Coalesces(k) ==> p.extra == []) {
      SweepOrigin(q, cut, p);
      var r :| r in q && Trim(cut, r) == Some(p);
      TrimWaiters(k, r, cut);
    }
  }

  lemma ReleaseWaiters(k: Key, q: seq<Request>)
    requires q != [] && WaitersOk(k, q)
    ensures WaitersOk(k, ReleaseHead(q))
  {
    var p := ReleaseHead(q);
    forall r | r in p ensures Distinct(DestsOf(r)) && (!Coalesces(k) ==> r.extra == []) {
      var i :| 0 <= i < |p| && p[i] == r;
      assert q[i] in q && DestsOf(r) == DestsOf(q[i]);
    }
  }

  lemma SweepQueueWaiters(k: Key, q: seq<Request>, cut: Cut)
    requires WaitersOk(k, q)
    ensures WaitersOk(k, SweepQueue(q, cut))
  {
    SweepWaiters(k, q, cut);
    if DropsHead(q, cut) {
      ReleaseWaiters(k, Sweep(q, cut));
    }
  }

  lemma PopWaiters(k: Key, q: seq<Request>)
    requires WaitersOk(k, q)
    ensures WaitersOk(k, Pop(q))
  {
    if |q| > 1 {
      assert WaitersOk(k, q[1..]) by {
        forall r | r in q[1..] ensures r in q { }
      }
      ReleaseWaiters(k, q[1..]);
    }
  }

  lemma CoalesceDistinct(r: Request, w: Waiter)
    requires Distinct(DestsOf(r))
    ensures Distinct(DestsOf(Coalesce(r, w)))
  {
    if !Waits(DestsOf(r), w.client) {
      var ds, es := DestsOf(r), DestsOf(Coalesce(r, w));
      assert es == ds + [FixRewrite(w, r.owner.strip)];
    }
  }

  lemma CoalesceQueue(k: Key, q: seq<Request>, i: nat, w: Waiter)
    requires FlightOk(k, q) && WaitersOk(k, q) && i < |q| && Coalesces(k)
    ensures FlightOk(k, q[i := Coalesce(q[i], w)]) && WaitersOk(k, q[i := Coalesce(q[i], w)])
  {
    var p := q[i := Coalesce(q[i], w)];
    assert forall j :: 0 <= j < |q| ==> p[j].hold == q[j].hold;
    assert OneInFlight(k) ==> forall j :: 0 <= j < |p[1..]| ==> p[1..][j].hold == q[1..][j].hold;
    CoalesceDistinct(q[i], w);
    forall r | r in p ensures Distinct(DestsOf(r)) {
      var j :| 0 <= j < |p| && p[j] == r;
      assert j == i || (p[j] == q[j] && q[j] in q);
    }
  }

  /** A new request behind a queue: held, or allowed on the wire. */
  lemma AppendFlight(k: Key, q: seq<Request>, r: Request)
    requires FlightOk(k, q) && !k.Mode?
    requires OneInFlight(k) ==> r.hold
    requires ServerArg(k) && !r.hold ==> !HasOtherRemote(q, r.remote)
    ensures FlightOk(k, q + [r])
  {
    var p := q + [r];
    assert p[1..] == q[1..] + [r];
    if ServerArg(k) {
      forall i, j | 0 <= j < i < |p| && !p[i].hold ensures p[j].remote == p[i].remote {
        assert p[j] == q[j];
      }
    }
  }

  // ---------------------------------------------------------------- all queues

  lemma SweepAllOk(qs: Queues, sw: Sweeping)
    requires QueuesOk(qs)
    ensures QueuesOk(SweepAll(qs, sw))
  {
    forall k | k in SweepAll(qs, sw)
      ensures FlightOk(k, SweepAll(qs, sw)[k]) && WaitersOk(k, SweepAll(qs, sw)[k])
    {
      SweepFlight(k, qs[k], CutOf(sw, k));
      SweepQueueWaiters(k, qs[k], CutOf(sw, k));
    }
  }

  lemma PopAtOk(qs: Queues, k: Key)
    requires QueuesOk(qs) && k in qs
    ensures QueuesOk(PopAt(qs, k))
  {
    if Pop(qs[k]) != [] {
      PopFlight(k, qs[k]);
      PopWaiters(k, qs[k]);
    }
  }

  lemma TrimMapOk(m: map<string, Request>, cut: Cut)
    requires MapOk(m)
    ensures MapOk(TrimMap(m, cut))
  {
    forall k | k in TrimMap(m, cut) ensures Distinct(DestsOf(TrimMap(m, cut)[k])) {
      TrimKeepsDistinct(cut, m[k]);
    }
  }

  lemma CoalesceAtOk(qs: Queues, k: Key, i: nat, w: Waiter)
    requires QueuesOk(qs) && k in qs && i < |qs[k]| && Coalesces(k)
    ensures QueuesOk(CoalesceAt(qs, k, i, w))
  {
    CoalesceQueue(k, qs[k], i, w);
  }

  lemma EnqueueOk(t: State, k: Key, r: Request)
    requires QueuesOk(t.queues) && r.extra == []
    requires k in t.queues ==> !k.Mode? && (OneInFlight(k) ==> r.hold) &&
                               (ServerArg(k) && !r.hold ==> !HasOtherRemote(t.queues[k], r.remote))
    requires k !in t.queues ==> !r.hold
    ensures QueuesOk(Enqueue(t, k, r).queues)
  {
    var q := QueueAt(t.queues, k);
    if k in t.queues {
      AppendFlight(k, q, r);
    } else {
      assert q + [r] == [r];
    }
    assert WaitersOk(k, q + [r]);
  }

  lemma {:induction false} FirstRemoteIn(q: seq<Request>, remote: string)
    ensures FirstRemote(q, remote).Some? ==>
              FirstRemote(q, remote).value < |q| && q[FirstRemote(q, remote).value].remote == remote
  {
    if q != [] {
      FirstRemoteIn(q[1..], remote);
    }
  }

  lemma BeginByRemoteOk(t: State, k: Key, r: Request)
    requires QueuesOk(t.queues) && r.extra == [] && (k.Whois? || k.Stats? || k.Names?)
    ensures QueuesOk(BeginByRemote(t, k, r).queues)
  {
    if k !in t.queues {
      EnqueueOk(t, k, r.(hold := false));
    } else {
      FirstRemoteIn(t.queues[k], r.remote);
      match FirstRemote(t.queues[k], r.remote)
      case Some(i) => CoalesceAtOk(t.queues, k, i, r.owner);
      case None => EnqueueOk(t, k, r.(hold := true));
    }
  }

  lemma BeginNickOk(t: State, o: Opts, target: WhoisTarget, now: int)
    requires QueuesOk(t.queues)
    ensures QueuesOk(BeginNick(t, o, target, now).queues)
  {
    BeginByRemoteOk(t, Whois(target.nick), WhoisRequest(o, t.ledger.nextId, target, now));
  }

  lemma {:induction false} BeginWhoisOk(t: State, o: Opts, targets: seq<WhoisTarget>, now: int)
    requires QueuesOk(t.queues)
    ensures QueuesOk(BeginWhois(t, o, targets, now).queues)
    decreases |targets|
  {
    if targets != [] {
      BeginNickOk(t, o, targets[0], now);
      BeginWhoisOk(BeginNick(t, o, targets[0], now), o, targets[1..], now);
    }
  }

  ghost predicate FlightInv(t: State) {
    QueuesOk(t.queues) && MapOk(t.labeled) && MapOk(t.whox)
  }

  lemma BeginModeOk(t: State, o: Opts, now: int)
    requires QueuesOk(t.queues)
    ensures QueuesOk(BeginMode(t, o, now).queues)
  {
    var k := Mode(o.enquiryTarget, ModeLetters.KeyOf(o.modeLetters));
    if Busy(t, k) {
      CoalesceAtOk(t.queues, k, 0, WaiterOf(o));
    } else {
      EnqueueOk(t, k, RequestOf(o, t.ledger.nextId, o.enquiryTarget, false, now));
    }
  }

  lemma BeginQueuedOk(t: State, o: Opts, now: int)
    requires QueuesOk(t.queues)
    ensures QueuesOk(BeginQueued(t, o, now).queues)
  {
    var id := t.ledger.nextId;
    BeginModeOk(t, o, now);
    if o.cmd == "STATS" && o.statsLetter != "" {
      BeginByRemoteOk(t, Stats(o.statsLetter), RequestOf(o, id, o.statsLetter, false, now));
    } else if o.cmd == "TOPIC" && o.enquiryTarget != "" {
      EnqueueOk(t, Topic(o.enquiryTarget), RequestOf(o, id, o.enquiryTarget, false, now));
    } else if o.cmd == "NAMES" && o.enquiryTarget != "" {
      BeginByRemoteOk(t, Names(o.enquiryTarget), RequestOf(o, id, o.enquiryTarget, false, now));
    } else {
      var hold := MustHold(QueueAt(t.queues, Serial(o.cmd)), o.cmd, o.remote);
      EnqueueOk(t, Serial(o.cmd), RequestOf(o, id, o.enquiryTarget, hold, now));
    }
  }

  lemma BeginWhoxOk(t: State, o: Opts, now: int, pick: Option<string>)
    requires MapOk(t.whox)
    ensures MapOk(BeginWhox(t, o, now, pick).whox)
  {
    if pick.Some? && pick.value in t.whox {
      CoalesceDistinct(t.whox[pick.value], WaiterOf(o));
    }
  }

  lemma BeginBodyOk(t: State, o: Opts, now: int, pick: Option<string>)
    requires FlightInv(t)
    ensures FlightInv(BeginBody(t, o, now, pick))
  {
    if o.preferLabel {
    } else if o.preferWhox && (o.cmd == "WHO" || o.cmd == "WHOX") {
      BeginWhoxOk(t, o, now, pick);
    } else if o.cmd == "WHOIS" && o.whoisTargets != [] {
      BeginWhoisOk(t, o, o.whoisTargets, now);
    } else {
      BeginQueuedOk(t, o, now);
    }
  }

  lemma SweepStateOk(t: State, sw: Sweeping, order: seq<Key>)
    requires FlightInv(t)
    ensures FlightInv(SweepState(t, sw, order))
  {
    SweepAllOk(t.queues, sw);
    TrimMapOk(t.labeled, MapCut(sw));
    TrimMapOk(t.whox, MapCut(sw));
  }

  lemma DeliverOk(t: State, n: Numeric, e: Effect, now: int)
    requires FlightInv(t) && EffectOk(t, e)
    ensures FlightInv(Deliver(t, n, e, now))
  {
    if e.ToQueue? && e.ends {
      PopAtOk(t.queues, e.k);
    }
  }

  lemma FixWhoxDistinct(r: Request, injectT: bool, ct: string)
    requires Distinct(DestsOf(r))
    ensures Distinct(DestsOf(FixWhox(r, injectT, ct)))
  {
    var ds, es := DestsOf(r), DestsOf(FixWhox(r, injectT, ct));
    assert forall i :: 0 <= i < |ds| ==> es[i].client == ds[i].client;
  }

  /** The in-flight invariant is kept by every step. */
  lemma FlightStep(t: State, a: Action)
    requires FlightInv(t) && Valid(t, a)
    ensures FlightInv(Step(t, a))
  {
    match a
    case Begin(o, now, order, pick) =>
      SweepStateOk(t, Aging(now), order);
      BeginBodyOk(SweepState(t, Aging(now), order), o, now, pick);
    case Route(n, now, order, e) =>
      SweepStateOk(t, Aging(now), order);
      SelectsIsOk(SweepState(t, Aging(now), order), n, e);
      DeliverOk(SweepState(t, Aging(now), order), n, e, now);
    case Drop(c, order) =>
      SweepStateOk(t, Leaving(c), order);
    case SetWhoxFix(tok, injectT, ct) =>
      if tok in t.whox {
        FixWhoxDistinct(t.whox[tok], injectT, ct);
      }
    case _ =>
  }
}

/** Whole-run theorems about the request tracker (internal/session/tracker.go): in-flight
    discipline, conservation of uplink lines, and which enquiries share an exchange. */
module TrackerRuns {
  import opened Common
  import opened TrackerQueue
  import opened Tracker
  import ModeLetters
  import opened TrackerInvariant
  import opened TrackerLedger

  // ---------------------------------------------------------------- every step keeps the books

  lemma SweepLedger(t: State, sw: Sweeping, order: seq<Key>)
    requires LedgerOk(t) && Visits(order, t.queues)
    ensures LedgerOk(SweepState(t, sw, order))
  {
    SweepAllMoves(t.queues, sw, order);
    RequeueLedger(t, SweepAll(t.queues, sw), FreedAll(t.queues, sw, order));
  }

  lemma BeginByRemoteLedger(t: State, k: Key, r: Request)
    requires LedgerOk(t) && r.id == t.ledger.nextId
    ensures LedgerOk(BeginByRemote(t, k, r))
  {
    if !Busy(t, k) {
      EnqueueLedger(t, k, r.(hold := false));
    } else {
      FirstRemoteIn(t.queues[k], r.remote);
      match FirstRemote(t.queues[k], r.remote)
      case Some(i) => CoalesceLedger(t, k, i, r.owner);
      case None => EnqueueLedger(t, k, r.(hold := true));
    }
  }

  lemma {:induction false} BeginWhoisLedger(t: State, o: Opts, targets: seq<WhoisTarget>, now: int)
    requires LedgerOk(t)
    ensures LedgerOk(BeginWhois(t, o, targets, now))
    decreases |targets|
  {
    if targets != [] {
      if targets[0].wire != "" {
        BeginByRemoteLedger(t, Whois(targets[0].nick), WhoisRequest(o, t.ledger.nextId, targets[0], now));
      }
      BeginWhoisLedger(BeginNick(t, o, targets[0], now), o, targets[1..], now);
    }
  }

  lemma BeginModeLedger(t: State, o: Opts, now: int)
    requires LedgerOk(t)
    ensures LedgerOk(BeginMode(t, o, now))
  {
    var k := Mode(o.enquiryTarget, ModeLetters.KeyOf(o.modeLetters));
    if Busy(t, k) {
      CoalesceLedger(t, k, 0, WaiterOf(o));
    } else {
      EnqueueLedger(t, k, RequestOf(o, t.ledger.nextId, o.enquiryTarget, false, now));
    }
  }

  lemma BeginQueuedLedger(t: State, o: Opts, now: int)
    requires LedgerOk(t)
    ensures LedgerOk(BeginQueued(t, o, now))
  {
    var id := t.ledger.nextId;
    if o.cmd == "STATS" && o.statsLetter != "" {
      BeginByRemoteLedger(t, Stats(o.statsLetter), RequestOf(o, id, o.statsLetter, false, now));
    } else if o.cmd == "TOPIC" && o.enquiryTarget != "" {
      EnqueueLedger(t, Topic(o.enquiryTarget), RequestOf(o, id, o.enquiryTarget, false, now));
    } else if o.cmd == "MODE" && o.enquiryTarget != "" {
      BeginModeLedger(t, o, now);
    } else if o.cmd == "NAMES" && o.enquiryTarget != "" {
      BeginByRemoteLedger(t, Names(o.enquiryTarget), RequestOf(o, id, o.enquiryTarget, false, now));
    } else {
      var hold := MustHold(QueueAt(t.queues, Serial(o.cmd)), o.cmd, o.remote);
      EnqueueLedger(t, Serial(o.cmd), RequestOf(o, id, o.enquiryTarget, hold, now));
    }
  }

  lemma BeginBodyLedger(t: State, o: Opts, now: int, pick: Option<string>)
    requires LedgerOk(t)
    ensures LedgerOk(BeginBody(t, o, now, pick))
  {
    var id := t.ledger.nextId;
    if o.preferLabel {
      RegisterLedger(t, RequestOf(o, id, o.enquiryTarget, false, now), BeginLabeled(t, o, now));
    } else if o.preferWhox && (o.cmd == "WHO" || o.cmd == "WHOX") {
      if pick.None? {
        RegisterLedger(t, RequestOf(o, id, o.whoMask, false, now), BeginWhox(t, o, now, pick));
      }
    } else if o.cmd == "WHOIS" && o.whoisTargets != [] {
      BeginWhoisLedger(t, o, o.whoisTargets, now);
    } else {
      BeginQueuedLedger(t, o, now);
    }
  }

  lemma DeliverLedger(t: State, n: Numeric, e: Effect, now: int)
    requires LedgerOk(t) && EffectOk(t, e)
    ensures LedgerOk(Deliver(t, n, e, now))
  {
    match e
    case ToModes(keys) =>
      var qs' := map k | k in t.queues && k !in keys :: t.queues[k];
      DropQueuesMoves(t.queues, qs');
      RequeueLedger(t, qs', []);
    case ToQueue(k, ends) =>
      if ends {
        PopMoves(t.queues[k]);
        OneMoves(t.queues, k, Pop(t.queues[k]), PopFreed(t.queues[k]));
        RequeueLedger(t, PopAt(t.queues, k), PopFreed(t.queues[k]));
      }
    case _ =>
  }

  lemma LedgerStep(t: State, a: Action)
    requires LedgerOk(t) && Valid(t, a)
    ensures LedgerOk(Step(t, a))
  {
    match a
    case Begin(o, now, order, pick) =>
      SweepLedger(t, Aging(now), order);
      BeginBodyLedger(SweepState(t, Aging(now), order), o, now, pick);
    case Route(n, now, order, e) =>
      SweepLedger(t, Aging(now), order);
      SelectsIsOk(SweepState(t, Aging(now), order), n, e);
      DeliverLedger(SweepState(t, Aging(now), order), n, e, now);
    case Drop(c, order) =>
      SweepLedger(t, Leaving(c), order);
    case TakeReady =>
      assert Written(Step(t, a)) == Written(t);
    case _ =>
  }

  // ---------------------------------------------------------------- runs

  ghost predicate ValidRun(t: State, actions: seq<Action>)
    decreases |actions|
  {
    actions == [] || (Valid(t, actions[0]) && ValidRun(Step(t, actions[0]), actions[1..]))
  }

  ghost function Run(t: State, actions: seq<Action>): State
    requires ValidRun(t, actions)
    decreases |actions|
  {
    if actions == [] then t else Run(Step(t, actions[0]), actions[1..])
  }

  lemma {:induction false} RunInv(t: State, actions: seq<Action>)
    requires ValidRun(t, actions) && FlightInv(t) && LedgerOk(t)
    ensures FlightInv(Run(t, actions)) && LedgerOk(Run(t, actions))
    decreases |actions|
  {
    if actions != [] {
      FlightStep(t, actions[0]);
      LedgerStep(t, actions[0]);
      RunInv(Step(t, actions[0]), actions[1..]);
    }
  }

  /** States some run of the tracker reaches. */
  ghost predicate Reachable(t: State) {
    exists actions :: ValidRun(EMPTY, actions) && Run(EMPTY, actions) == t
  }

  lemma ReachableInv(t: State)
    requires Reachable(t)
    ensures FlightInv(t) && LedgerOk(t)
  {
    var actions :| ValidRun(EMPTY, actions) && Run(EMPTY, actions) == t;
    assert Held(map[]) == {} && Present(map[]) == {};
    RunInv(EMPTY, actions);
  }

  /** In-flight invariant of every run: each queue's head is written, so nothing is stuck; in
      WHOIS, STATS, NAMES and hold-write queues exactly the head is; in a queue whose command
      takes a server argument, two written requests never name different servers; and the
      waiters of one request are distinct clients. */
  lemma InFlight(t: State, k: Key)
    requires Reachable(t) && k in t.queues
    ensures var q := t.queues[k];
            && q != [] && !q[0].hold
            && (OneInFlight(k) ==> forall i :: 0 < i < |q| ==> q[i].hold)
            && (ServerArg(k) ==> forall i, j :: 0 <= j < i < |q| && !q[i].hold ==> q[j].remote == q[i].remote)
            && (forall r :: r in q ==> Distinct(DestsOf(r)))
  {
    ReachableInv(t);
    var q := t.queues[k];
    if OneInFlight(k) {
      forall i | 0 < i < |q| ensures q[i].hold {
        assert q[1..][i - 1] == q[i];
      }
    }
  }

  lemma {:induction false} CountOuts(os: seq<Out>)
    requires UniqueOuts(os)
    ensures |OutIds(os)| == |os|
  {
    if os != [] {
      var front, last := os[..|os| - 1], os[|os| - 1];
      CountOuts(front);
      assert os == front + [last];
      OutIdsAppend(front, [last]);
      assert OutIds([last]) == {last.id};
      assert last.id !in OutIds(front);
    }
  }

  lemma CountDisjoint(a: set<nat>, b: set<nat>, c: set<nat>)
    requires a !! b && a !! c && b !! c
    ensures |a + b + c| == |a| + |b| + |c|
  {
  }

  /** Write conservation of every run: each request that has a line is in exactly one of three
      places. It was written, once and with its own line; or it is held; or it was removed
      while held. So registered = written + held + discarded. */
  lemma WritesConserved(t: State)
    requires Reachable(t)
    ensures var ids := t.ledger.registered.Keys;
            && ids == OutIds(Written(t)) + Held(t.queues) + t.ledger.discarded
            && OutIds(Written(t)) !! Held(t.queues) && OutIds(Written(t)) !! t.ledger.discarded
            && Held(t.queues) !! t.ledger.discarded
            && |ids| == |Written(t)| + |Held(t.queues)| + |t.ledger.discarded|
            && (forall o :: o in Written(t) ==> t.ledger.registered[o.id] == o.line)
  {
    ReachableInv(t);
    CountOuts(Written(t));
    HeldPresent(t.queues);
    CountDisjoint(OutIds(Written(t)), Held(t.queues), t.ledger.discarded);
  }

  lemma {:induction false} FirstRemoteExact(q: seq<Request>, remote: string)
    ensures FirstRemote(q, remote).Some? <==> exists i :: 0 <= i < |q| && q[i].remote == remote
  {
    if q != [] {
      FirstRemoteExact(q[1..], remote);
      if exists i :: 0 <= i < |q| && q[i].remote == remote {
        var i :| 0 <= i < |q| && q[i].remote == remote;
        assert i > 0 ==> q[1..][i - 1] == q[i];
      }
      if FirstRemote(q[1..], remote).Some? {
        var i :| 0 <= i < |q[1..]| && q[1..][i].remote == remote;
        assert q[i + 1] == q[1..][i];
      }
    }
  }

  /** A WHOIS, STATS or NAMES enquiry shares an exchange, and then neither registers nor writes
      anything, iff its target is already being asked about in the same local/remote form. */
  lemma SharesIffSameForm(t: State, k: Key, r: Request)
    requires r.id == t.ledger.nextId
    ensures BeginByRemote(t, k, r).ledger == t.ledger <==>
            Busy(t, k) && exists i :: 0 <= i < |t.queues[k]| && t.queues[k][i].remote == r.remote
  {
    if Busy(t, k) {
      FirstRemoteExact(t.queues[k], r.remote);
      FirstRemoteIn(t.queues[k], r.remote);
    }
  }
}

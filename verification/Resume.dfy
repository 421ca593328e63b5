/** The acked resume watermark (internal/keeper/keeper.go AckSeq, DeliveredSeq and readLoop's
    no-subscriber self-close): when Since(DeliveredSeq) can still replay from the ring. */
module Resume {
  import opened Ring
  import opened Delivery
  import opened DeliveryInvariant
  import opened DeliveryRuns
  import opened DeliveryRecovery

  /** Since(DeliveredSeq) would succeed right now. */
  predicate Recoverable(s: State) {
    s.delivered == 0 || Evicted(|s.log|, s.cap) <= s.delivered
  }

  /** An eviction nobody could consume is on its way to the self-close that resets the watermark. */
  predicate SelfClosing(s: State) {
    && s.current
    && (s.loop.Overflowing? || (((s.loop.Pushed? || s.loop.Published?) && s.loop.evicted) && Subscribers(s) == 0))
  }

  ghost predicate ResumeInv(s: State) {
    Recoverable(s) || SelfClosing(s)
  }

  lemma RecoverableIsSince(s: State)
    requires LogInv(s)
    ensures Recoverable(s) <==> !Gap(Retained(s.log, s.cap), s.delivered)
  {
    SinceExact(s.log, s.cap, s.delivered);
  }

  /** What the environment has to respect. Lines are acked before they are evicted unless
      nobody is subscribed on a current connection; acks name lines the ring can still follow;
      nobody subscribes, and nobody closes, while an unacked eviction awaits its self-close. */
  predicate Timely(s: State, a: Action) {
    match a
    case Push(_, _) => s.loop.Reading? ==>
      s.delivered == 0 || Evicted(|s.log| + 1, s.cap) <= s.delivered || (Subscribers(s) == 0 && s.current)
    case Ack(n) => n <= s.delivered || Evicted(|s.log|, s.cap) <= n || SelfClosing(s)
    case Subscribe => s.fan.phase.Chosen? ==> Recoverable(s) || s.loop.Overflowing?
    case OtherJoins => Recoverable(s) || s.loop.Overflowing?
    case Close => s.current ==> Recoverable(s)
    case _ => true
  }

  predicate TimelyRun(s: State, actions: seq<Action>)
    decreases |actions|
  {
    actions == [] || (Timely(s, actions[0]) && TimelyRun(Step(s, actions[0]), actions[1..]))
  }

  /** The condition is exact, step by step: an action keeps resumption possible iff it is timely. */
  lemma TimelyExact(s: State, a: Action)
    requires LogInv(s) && ResumeInv(s)
    ensures ResumeInv(Step(s, a)) <==> Timely(s, a)
  {
  }

  /** The read loop left to itself until it is between lines or down; what it cannot do is no step. */
  function Settle(s: State): State {
    Step(Step(Step(s, Publish), CheckSubscribers), Cleanup)
  }

  /** And the invariant is exactly what matters: it holds iff Since(DeliveredSeq) succeeds once the read
      loop has finished the line it is at. */
  lemma ResumeInvExact(s: State)
    requires LogInv(s)
    ensures var t := Settle(s);
            && (t.loop.Reading? || t.loop.Down?) && t.log == s.log && t.cap == s.cap
            && (ResumeInv(s) <==> !Gap(Retained(t.log, t.cap), t.delivered))
  {
    LogStep(s, Publish);
    LogStep(Step(s, Publish), CheckSubscribers);
    LogStep(Step(Step(s, Publish), CheckSubscribers), Cleanup);
    SettleExact(s);
    RecoverableIsSince(Settle(s));
  }

  lemma SettleExact(s: State)
    ensures var t := Settle(s);
            && (t.loop.Reading? || t.loop.Down?) && t.log == s.log && t.cap == s.cap
            && (ResumeInv(s) <==> Recoverable(t))
  {
    var p := Step(s, Publish);
    PublishSettles(s);
    CheckSettles(p);
    CleanupSettles(Step(p, CheckSubscribers));
  }

  /** Each of the loop's own actions leaves the question open or answers it. */
  lemma PublishSettles(s: State)
    ensures var t := Step(s, Publish);
            !t.loop.Pushed? && t.log == s.log && t.cap == s.cap && (ResumeInv(s) <==> ResumeInv(t))
  {
  }

  lemma CheckSettles(s: State)
    requires !s.loop.Pushed?
    ensures var t := Step(s, CheckSubscribers);
            !t.loop.Pushed? && !t.loop.Published? && t.log == s.log && t.cap == s.cap
            && (ResumeInv(s) <==> ResumeInv(t))
  {
  }

  lemma CleanupSettles(s: State)
    requires !s.loop.Pushed? && !s.loop.Published?
    ensures var t := Step(s, Cleanup);
            (t.loop.Reading? || t.loop.Down?) && t.log == s.log && t.cap == s.cap && (ResumeInv(s) <==> Recoverable(t))
  {
  }

  lemma {:induction false} TimelyRunInv(s: State, actions: seq<Action>)
    requires LogInv(s) && ResumeInv(s) && TimelyRun(s, actions)
    ensures LogInv(Run(s, actions)) && ResumeInv(Run(s, actions))
    decreases |actions|
  {
    if actions != [] {
      LogStep(s, actions[0]);
      TimelyExact(s, actions[0]);
      TimelyRunInv(Step(s, actions[0]), actions[1..]);
    }
  }

  // ---------------------------------------------------------------- attaching

  /** An attach from the watermark is killed iff that is not 0 and, by the time it reads the ring, more
      lines than the ring holds came after it: whoever pushed, acked, subscribed or closed between the
      choice of the resume point, the subscription and the catch-up. */
  lemma AttachKilledExact(s: State, between: seq<Action>)
    requires LogInv(s) && Enabled(s, Attach(s.delivered)) && Waits(between)
    requires Run(Step(s, Attach(s.delivered)), between).fan.phase.Starting?
    ensures var t := Run(Step(s, Attach(s.delivered)), between);
            && t.fan.from == s.delivered
            && (Step(t, CatchUp).fan.phase.Killed? <==> s.delivered != 0 && s.delivered < Evicted(|t.log|, s.cap))
  {
    var u := Step(s, Attach(s.delivered));
    LogStep(s, Attach(s.delivered));
    WaitRun(u, between);
    WaitKilledExact(u, between);
  }

  /** A line read while an attach waits: the watermark is still the attach's resume point, and somebody
      is subscribed or the connection is being closed, so that no self-close begins with it. */
  predicate QuietPush(s: State, from: nat) {
    s.delivered == from && (Subscribers(s) > 0 || !s.current)
  }

  /** While the attach waits, the watermark stays at its resume point and no self-close begins. */
  predicate QuietRun(s: State, actions: seq<Action>, from: nat)
    decreases |actions|
  {
    actions == [] || ((actions[0].Push? ==> QuietPush(s, from)) && QuietRun(Step(s, actions[0]), actions[1..], from))
  }

  lemma QuietStep(s: State, a: Action, from: nat)
    requires Timely(s, a) && (a.Push? ==> QuietPush(s, from)) && (from != 0 ==> Evicted(|s.log|, s.cap) <= from)
    ensures from != 0 ==> Evicted(|Step(s, a).log|, Step(s, a).cap) <= from
  {
    if Enabled(s, a) && !OfFan(a) {
      LoopFrame(s, a);
    }
  }

  lemma {:induction false} QuietKeeps(s: State, actions: seq<Action>, from: nat)
    requires TimelyRun(s, actions) && QuietRun(s, actions, from) && (from != 0 ==> Evicted(|s.log|, s.cap) <= from)
    ensures from != 0 ==> Evicted(|Run(s, actions).log|, Run(s, actions).cap) <= from
    decreases |actions|
  {
    if actions != [] {
      QuietStep(s, actions[0], from);
      QuietKeeps(Step(s, actions[0]), actions[1..], from);
    }
  }

  /** Resume never meets a gap: in every timely run, whenever the read loop is between lines or down,
      Since(DeliveredSeq) succeeds. */
  lemma ResumeNeverGaps(cap: nat, depth: nat, actions: seq<Action>)
    requires cap > 0 && TimelyRun(Init(cap, depth), actions)
    ensures var s := Run(Init(cap, depth), actions);
            (s.loop.Reading? || s.loop.Down?) ==> !Gap(Retained(s.log, s.cap), s.delivered)
  {
    TimelyRunInv(Init(cap, depth), actions);
    RecoverableIsSince(Run(Init(cap, depth), actions));
  }

  /** An attach from the watermark then reaches the ring in time, whatever runs between its own steps,
      as long as those actions are timely too and quiet: no ack moves the watermark on and no
      self-close begins before a line is read. */
  lemma AttachSurvives(cap: nat, depth: nat, actions: seq<Action>, between: seq<Action>)
    requires cap > 0 && TimelyRun(Init(cap, depth), actions) && Waits(between)
    requires var s := Run(Init(cap, depth), actions);
             && (s.loop.Reading? || s.loop.Down?) && Enabled(s, Attach(s.delivered))
             && TimelyRun(Step(s, Attach(s.delivered)), between)
             && QuietRun(Step(s, Attach(s.delivered)), between, s.delivered)
    ensures var s := Run(Init(cap, depth), actions);
            var t := Run(Step(s, Attach(s.delivered)), between);
            t.fan.phase.Starting? ==> !Step(t, CatchUp).fan.phase.Killed?
  {
    TimelyRunInv(Init(cap, depth), actions);
    var s := Run(Init(cap, depth), actions);
    var u := Step(s, Attach(s.delivered));
    LogStep(s, Attach(s.delivered));
    WaitRun(u, between);
    QuietKeeps(u, between, s.delivered);
    if Run(u, between).fan.phase.Starting? {
      AttachKilledExact(s, between);
    }
  }

  lemma TimelyThen(s: State, actions: seq<Action>, a: Action)
    requires TimelyRun(s, actions) && Timely(Run(s, actions), a)
    ensures TimelyRun(s, actions + [a])
    decreases |actions|
  {
    if actions == [] {
      assert (actions + [a])[1..] == [];
    } else {
      assert (actions + [a])[1..] == actions[1..] + [a];
      TimelyThen(Step(s, actions[0]), actions[1..], a);
    }
  }

  /** One more timely action. */
  lemma Next(s: State, actions: seq<Action>, a: Action) returns (longer: seq<Action>)
    requires TimelyRun(s, actions) && Timely(Run(s, actions), a)
    ensures longer == actions + [a] && Run(s, longer) == Step(Run(s, actions), a) && TimelyRun(s, longer)
  {
    TimelyThen(s, actions, a);
    longer := Then(s, actions, a);
  }

  /** The watermark only grows, except that the self-close of a current connection resets it. */
  lemma WatermarkOnlyGrows(s: State, a: Action)
    ensures s.delivered <= Step(s, a).delivered ||
            (a.Cleanup? && s.loop.Overflowing? && s.current && Step(s, a).delivered == 0)
  {
  }

  /** Line 1 acked, line 2 delivered but unacked, the brain gone, and line 3 read into a ring
      of one: line 2 is evicted with nobody subscribed. */
  lemma UnackedEviction(depth: nat) returns (run: seq<Action>)
    requires depth > 0
    ensures var t := Run(Init(1, depth), run);
            && t.loop.Pushed? && t.loop.evicted && t.current && t.delivered == 1 && t.cap == 1
            && t.fan == Idle() && t.others == 0
            && |t.log| == 3 && t.log[2].seqNo == 3
  {
    var s := Init(1, depth);
    run := AttachRun(1, depth);
    run := Arrives(s, run, "a");
    run := Then(s, run, Ack(1));
    run := Arrives(s, run, "b");
    run := Then(s, run, Detach);
    run := Then(s, run, Push("c", 0));
  }

  /** Subscribing between that eviction and the subscriber check defeats the self-close: the
      attach resumes from the watermark and is killed. */
  lemma LateSubscriberIsKilled(depth: nat) returns (run: seq<Action>)
    requires depth > 0
    ensures var t := Run(Init(1, depth), run);
            t.fan.phase.Killed? && t.fan.from == t.delivered == 1 && t.loop.Reading?
  {
    var s := Init(1, depth);
    run := UnackedEviction(depth);
    var log, e := Run(s, run).log, Run(s, run).loop.entry;
    run := Then(s, run, Attach(1));
    run := Then(s, run, Subscribe);
    var f := Run(s, run).fan;
    assert f == AttachedAt(1).(phase := Starting, feed := NO_FEED.(seen := 2));
    run := Then(s, run, Publish);
    run := Then(s, run, CheckSubscribers);
    var t := Run(s, run);
    assert t.loop.Reading? && t.log == log && t.fan == f.(feed := t.fan.feed);
    assert Retained(log, 1)[0] == log[2];
    run := Then(s, run, CatchUp);
  }

  /** Closing between that eviction and the cleanup leaves the watermark pointing into the gap. */
  lemma CloseKeepsStaleWatermark(depth: nat) returns (run: seq<Action>)
    requires depth > 0
    ensures var t := Run(Init(1, depth), run);
            t.loop.Down? && Gap(Retained(t.log, t.cap), t.delivered)
  {
    var s := Init(1, depth);
    run := UnackedEviction(depth);
    run := Then(s, run, Publish);
    run := Then(s, run, CheckSubscribers);
    run := Then(s, run, Close);
    run := Then(s, run, Cleanup);
    var t := Run(s, run);
    assert Retained(t.log, 1)[0] == t.log[2];
  }

  // ---------------------------------------------------------------- an attach that waits too long

  /** A line arrives while the fan-in is live, in time. */
  lemma TimelyLine(s: State, run: seq<Action>, line: string) returns (longer: seq<Action>)
    requires TimelyRun(s, run) && Run(s, run).loop.Reading? && Run(s, run).fan.phase.Live?
    requires Timely(Run(s, run), Push(line, 0))
    ensures var t := Run(s, run);
            var e := Entry(|t.log| + 1, t.epoch, line, 0);
            TimelyRun(s, longer)
            && Run(s, longer) == t.(log := t.log + [e], fan := t.fan.(feed := Offer(t.fan.feed, e, t.depth)))
  {
    longer := Next(s, run, Push(line, 0));
    longer := Next(s, longer, Publish);
    longer := Next(s, longer, CheckSubscribers);
  }

  /** Line 1 read and acked over a live attach. */
  lemma OneAcked(depth: nat) returns (run: seq<Action>)
    requires depth > 0
    ensures TimelyRun(Init(1, depth), run)
    ensures var t := Run(Init(1, depth), run);
            t == State(1, depth, t.log, Reading, true, 1, 1, 0, t.fan) && |t.log| == 1 && t.fan.phase.Live?
  {
    var s := Init(1, depth);
    run := Next(s, [], Dial);
    run := Next(s, run, Attach(0));
    run := Next(s, run, Subscribe);
    run := Next(s, run, CatchUp);
    run := TimelyLine(s, run, "a");
    run := Next(s, run, Ack(1));
  }

  /** Then line 2 read, and the brain gone: a ring of one holds line 2, and the watermark is 1.
      Everything so far is timely. */
  predicate IsOneBehind(t: State, depth: nat) {
    t == State(1, depth, t.log, Reading, true, 1, 1, 0, Idle()) && |t.log| == 2
  }

  lemma OneBehind(depth: nat) returns (run: seq<Action>)
    requires depth > 0
    ensures TimelyRun(Init(1, depth), run) && IsOneBehind(Run(Init(1, depth), run), depth)
    ensures LogInv(Run(Init(1, depth), run))
  {
    var s := Init(1, depth);
    run := OneAcked(depth);
    run := TimelyLine(s, run, "b");
    run := Next(s, run, Detach);
    TimelyRunInv(s, run);
  }

  /** A line is read with nobody there while the attach has only chosen where to resume. */
  lemma LonelyLine(s: State, depth: nat) returns (between: seq<Action>)
    requires IsOneBehind(s, depth)
    ensures Waits(between) && TimelyRun(Step(s, Attach(1)), between)
    ensures Run(Step(s, Attach(1)), between)
         == State(1, depth, s.log + [Entry(3, 1, "c", 0)], Overflowing, true, 1, 1, 0, AttachedAt(1))
  {
    var u, f, e := Step(s, Attach(1)), AttachedAt(1), Entry(3, 1, "c", 0);
    assert u == State(1, depth, s.log, Reading, true, 1, 1, 0, f);
    between := Next(u, [], Push("c", 0));
    assert Run(u, between) == State(1, depth, s.log + [e], Pushed(e, true), true, 1, 1, 0, f);
    between := Next(u, between, Publish);
    assert Run(u, between) == State(1, depth, s.log + [e], Published(true), true, 1, 1, 0, f);
    between := Next(u, between, CheckSubscribers);
  }

  /** The self-close then runs its course before the attach subscribes. */
  lemma SelfCloseFirst(s: State, depth: nat) returns (between: seq<Action>)
    requires IsOneBehind(s, depth)
    ensures Waits(between) && TimelyRun(Step(s, Attach(1)), between)
    ensures var t := Run(Step(s, Attach(1)), between); t.fan.phase.Starting? && t.delivered == 0 && |t.log| == 3
  {
    var u := Step(s, Attach(1));
    between := LonelyLine(s, depth);
    between := Next(u, between, Cleanup);
    between := Next(u, between, Subscribe);
  }

  /** A fan-in that has only chosen where to resume. */
  function AttachedAt(from: nat): FanIn {
    Idle().(phase := Chosen, from := from, lastSent := from, base := from)
  }

  /** The attach chose the watermark before such a self-close: the watermark is reset, but not the
      attach's resume point. */
  lemma SelfCloseKillsAttach(depth: nat) returns (before: seq<Action>, between: seq<Action>)
    requires depth > 0
    ensures TimelyRun(Init(1, depth), before) && Waits(between)
    ensures var s := Run(Init(1, depth), before);
            && s.loop.Reading? && s.delivered == 1 && Enabled(s, Attach(1))
            && TimelyRun(Step(s, Attach(1)), between)
            && var t := Run(Step(s, Attach(1)), between);
               t.fan.phase.Starting? && t.delivered == 0 && Step(t, CatchUp).fan.phase.Killed?
  {
    before := OneBehind(depth);
    between := SelfCloseFirst(Run(Init(1, depth), before), depth);
    LateIsKilled(Run(Init(1, depth), before), between);
  }

  /** A late ack moves the watermark on, and the next line evicts the one behind the resume point. */
  lemma AckFirst(s: State, depth: nat) returns (between: seq<Action>)
    requires IsOneBehind(s, depth)
    ensures Waits(between) && TimelyRun(Step(s, Attach(1)), between)
    ensures var t := Run(Step(s, Attach(1)), between); t.fan.phase.Starting? && t.delivered == 2 && |t.log| == 3
  {
    var u, f, e := Step(s, Attach(1)), AttachedAt(1), Entry(3, 1, "c", 0);
    assert u == State(1, depth, s.log, Reading, true, 1, 1, 0, f);
    between := Next(u, [], OtherJoins);
    between := Next(u, between, Ack(2));
    assert Run(u, between) == State(1, depth, s.log, Reading, true, 1, 2, 1, f);
    between := Next(u, between, Push("c", 0));
    assert Run(u, between) == State(1, depth, s.log + [e], Pushed(e, true), true, 1, 2, 1, f);
    between := Next(u, between, Subscribe);
  }

  /** Or the brain's late ack moves the watermark on, and the next line evicts what the attach still
      needs, with another session keeping the connection up. */
  lemma AckKillsAttach(depth: nat) returns (before: seq<Action>, between: seq<Action>)
    requires depth > 0
    ensures TimelyRun(Init(1, depth), before) && Waits(between)
    ensures var s := Run(Init(1, depth), before);
            && s.loop.Reading? && s.delivered == 1 && Enabled(s, Attach(1))
            && TimelyRun(Step(s, Attach(1)), between)
            && var t := Run(Step(s, Attach(1)), between);
               t.fan.phase.Starting? && t.delivered == 2 && Step(t, CatchUp).fan.phase.Killed?
  {
    before := OneBehind(depth);
    between := AckFirst(Run(Init(1, depth), before), depth);
    LateIsKilled(Run(Init(1, depth), before), between);
  }

  lemma LateIsKilled(s: State, between: seq<Action>)
    requires s.cap == 1 && s.delivered == 1 && Enabled(s, Attach(1)) && Waits(between) && |s.log| == 2
    requires LogInv(s)
    requires var t := Run(Step(s, Attach(1)), between); t.fan.phase.Starting? && |t.log| == 3
    ensures Step(Run(Step(s, Attach(1)), between), CatchUp).fan.phase.Killed?
  {
    AttachKilledExact(s, between);
  }
}

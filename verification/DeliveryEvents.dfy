/** Connection events beside the line feed (internal/keeper/listener.go:800-839, internal/keeper/keeper.go
    readLoop's last section): before the fan-in forwards a disconnect it drains the lines already on its
    feed, so that the brain does not see the disconnect overtake them. When that works. */
module DeliveryEvents {
  import opened Common
  import opened Ring
  import D = Delivery
  import opened DeliveryInvariant
  import R = DeliveryRuns
  import V = DeliveryRecovery

  /** `notices` are the events waiting for the fan-in, each known by how many lines had been published
      before it; `draining` is the one taken up, while the feed is drained for it. */
  datatype State = State(d: D.State, notices: seq<nat>, draining: Option<nat>)

  datatype Action =
    | Do(a: D.Action)  // anything the delivery machine does
    | Notify           // the read loop, down, publishes EventDisconnected
    | TakeNotice       // the fan-in's select picks the event
    | Forward          // the feed was found empty: the event goes out

  function Init(cap: nat, depth: nat): State {
    State(D.Init(cap, depth), [], None)
  }

  predicate Replaces(a: D.Action) {
    a.Attach? || a.Detach?
  }

  predicate Enabled(s: State, a: Action) {
    match a
    case Do(x) => D.Enabled(s.d, x) && (s.draining.Some? && D.OfFan(x) ==> x.ReadLine? || x.DropOldFeed? || x.Detach?)
    case Notify => s.d.loop.Down?
    case TakeNotice => s.d.fan.phase.Live? && s.draining.None? && s.notices != []
    case Forward => s.d.fan.phase.Live? && s.draining.Some? && s.d.fan.feed.queue == []
  }

  function Step(s: State, a: Action): State {
    if !Enabled(s, a) then s else
    match a
    case Do(x) => if Replaces(x) then State(D.Step(s.d, x), [], None) else s.(d := D.Step(s.d, x))
    case Notify => s.(notices := s.notices + [D.PublishedCount(s.d)])
    case TakeNotice => s.(notices := s.notices[1..], draining := Some(s.notices[0]))
    case Forward => s.(draining := None)
  }

  function Run(s: State, actions: seq<Action>): State
    decreases |actions|
  {
    if actions == [] then s else Run(Step(s, actions[0]), actions[1..])
  }

  // ---------------------------------------------------------------- the run invariant

  ghost predicate MarksOk(s: State) {
    && (forall i :: 0 <= i < |s.notices| ==> s.notices[i] <= D.PublishedCount(s.d))
    && (s.draining.Some? ==> s.draining.value <= D.PublishedCount(s.d) && s.d.fan.phase.Live?)
  }

  lemma PublishedGrows(s: D.State, a: D.Action)
    requires LogInv(s)
    ensures D.PublishedCount(s) <= D.PublishedCount(D.Step(s, a))
  {
    if D.Enabled(s, a) && !D.OfFan(a) {
      PublishedLoop(s, a);
    }
  }

  lemma PublishedLoop(s: D.State, a: D.Action)
    requires LogInv(s) && D.Enabled(s, a) && !D.OfFan(a)
    ensures D.PublishedCount(s) <= D.PublishedCount(D.LoopStep(s, a))
  {
  }

  /** While draining the fan-in stays live. */
  lemma DrainStaysLive(s: D.State, a: D.Action)
    requires s.fan.phase.Live? && D.Enabled(s, a) && (D.OfFan(a) ==> a.ReadLine? || a.DropOldFeed?)
    ensures D.Step(s, a).fan.phase.Live?
  {
    if !D.OfFan(a) {
      LoopFrame(s, a);
    }
  }

  lemma MarksStep(s: State, a: Action)
    requires LogInv(s.d) && MarksOk(s)
    ensures MarksOk(Step(s, a))
  {
    if Enabled(s, a) && a.Do? {
      PublishedGrows(s.d, a.a);
      if s.draining.Some? && !Replaces(a.a) {
        DrainStaysLive(s.d, a.a);
      }
    }
  }

  /** Live reads are prompt, as DeliveryRuns.PromptRun asks. */
  predicate PromptRun(s: State, actions: seq<Action>)
    decreases |actions|
  {
    actions == [] ||
    ((actions[0] == Do(D.ReadLine) && s.d.fan.phase.Live? ==> R.PromptRead(s.d.fan))
     && PromptRun(Step(s, actions[0]), actions[1..]))
  }

  lemma CleanStep(s: State, a: Action)
    requires s.d.fan.clean && (a == Do(D.ReadLine) && s.d.fan.phase.Live? ==> R.PromptRead(s.d.fan))
    ensures Step(s, a).d.fan.clean
  {
    if Enabled(s, a) && a.Do? {
      R.PromptKeepsClean(s.d, [a.a]);
      assert D.Run(s.d, [a.a]) == D.Run(D.Step(s.d, a.a), []);
    }
  }

  lemma {:induction false} RunKeeps(s: State, actions: seq<Action>)
    requires Inv(s.d) && MarksOk(s) && s.d.fan.clean && PromptRun(s, actions)
    ensures var t := Run(s, actions); Inv(t.d) && MarksOk(t) && t.d.fan.clean
    decreases |actions|
  {
    if actions != [] {
      var a := actions[0];
      MarksStep(s, a);
      CleanStep(s, a);
      if a.Do? && Enabled(s, a) {
        StepInv(s.d, a.a);
      }
      RunKeeps(Step(s, a), actions[1..]);
    }
  }

  // ---------------------------------------------------------------- what a forwarded event follows

  /** Line n has been sent. */
  predicate WasSent(log: seq<Entry>, f: D.FanIn, n: nat) {
    1 <= n <= |log| && log[n - 1] in f.sent
  }

  /** Every line owed up to the mark has been sent. */
  ghost predicate AllSent(log: seq<Entry>, f: D.FanIn, mark: nat) {
    forall n :: f.base < n <= mark ==> WasSent(log, f, n)
  }

  /** A line published before the event was dropped by the feed and has not been recovered. */
  predicate Lacks(f: D.FanIn, mark: nat) {
    exists n :: f.lastSent < n <= mark && n in f.feed.missed
  }

  lemma SentUpTo(s: D.State)
    requires Inv(s) && s.fan.phase.Live? && s.fan.clean
    ensures var f := s.fan;
            && f.lastSent == f.base + |f.sent|
            && (forall n :: f.base < n <= f.lastSent ==> WasSent(s.log, f, n))
            && (forall n :: f.lastSent < n ==> !WasSent(s.log, f, n))
  {
    var f := s.fan;
    if f.sent != [] {
      LastOwed(f);
      R.SentIsSlice(s.log, f);
      forall n | f.base < n <= f.lastSent ensures WasSent(s.log, f, n) {
        assert f.sent[n - 1 - f.base] == s.log[n - 1];
      }
      forall n | f.lastSent < n ensures !WasSent(s.log, f, n) {
        assert n <= |s.log| ==> s.log[n - 1].seqNo == n;
      }
    }
  }

  /** A live feed that has been drained lacks exactly what it has dropped. */
  lemma DrainedExact(s: D.State, mark: nat)
    requires Inv(s) && s.fan.phase.Live? && s.fan.feed.queue == [] && mark <= D.PublishedCount(s)
    ensures mark <= s.fan.lastSent <==> !Lacks(s.fan, mark)
  {
    AllMissed(s.log, s.fan.feed.seen, D.PublishedCount(s), s.fan.feed.missed);
    assert s.fan.lastSent < mark ==> mark in s.fan.feed.missed;
  }

  lemma AllSentExact(s: D.State, mark: nat)
    requires Inv(s) && s.fan.phase.Live? && s.fan.clean && s.fan.feed.queue == [] && mark <= D.PublishedCount(s)
    ensures AllSent(s.log, s.fan, mark) <==> !Lacks(s.fan, mark)
  {
    SentUpTo(s);
    DrainedExact(s, mark);
    assert s.fan.lastSent < mark ==> !WasSent(s.log, s.fan, mark);
  }

  lemma NoOverflowLacksNothing(s: D.State, mark: nat)
    requires Inv(s) && s.fan.phase.Live? && !s.fan.feed.overflow
    ensures !Lacks(s.fan, mark)
  {
  }

  /** When an event is forwarded, every line published before it, from where the attach starts, has been
      sent, if and only if the feed has dropped none of them since the last catch-up; so always when it
      has not overflowed. Reads are taken to be prompt. */
  lemma EventFollowsLines(cap: nat, depth: nat, actions: seq<Action>)
    requires cap > 0 && PromptRun(Init(cap, depth), actions) && Enabled(Run(Init(cap, depth), actions), Forward)
    ensures var s := Run(Init(cap, depth), actions);
            && s.draining.value <= |s.d.log|
            && (AllSent(s.d.log, s.d.fan, s.draining.value) <==> !Lacks(s.d.fan, s.draining.value))
            && (!s.d.fan.feed.overflow ==> AllSent(s.d.log, s.d.fan, s.draining.value))
  {
    RunKeeps(Init(cap, depth), actions);
    var s := Run(Init(cap, depth), actions);
    AllSentExact(s.d, s.draining.value);
    if !s.d.fan.feed.overflow {
      NoOverflowLacksNothing(s.d, s.draining.value);
    }
  }

  // ---------------------------------------------------------------- an event that overtakes lines

  function Dos(actions: seq<D.Action>): (r: seq<Action>)
    ensures |r| == |actions|
  {
    if actions == [] then [] else [Do(actions[0])] + Dos(actions[1..])
  }

  /** A run of the delivery machine is one of this machine. */
  lemma {:induction false} LiftRun(d: D.State, actions: seq<D.Action>)
    ensures Run(State(d, [], None), Dos(actions)) == State(D.Run(d, actions), [], None)
    decreases |actions|
  {
    if actions != [] {
      LiftRun(D.Step(d, actions[0]), actions[1..]);
      assert Dos(actions)[1..] == Dos(actions[1..]);
    }
  }

  lemma {:induction false} RunAppend(s: State, a: seq<Action>, b: seq<Action>)
    ensures Run(s, a + b) == Run(Run(s, a), b)
    decreases |a|
  {
    if a == [] {
      assert a + b == b;
    } else {
      assert (a + b)[0] == a[0] && (a + b)[1..] == a[1..] + b;
      RunAppend(Step(s, a[0]), a[1..], b);
    }
  }

  /** n lines are drained. */
  lemma {:induction false} DrainRun(s: State, n: nat) returns (run: seq<Action>)
    requires s.draining.Some? && s.d.fan.phase.Live? && V.InOrder(s.d.fan, n)
    ensures var t := Run(s, run);
            && t.draining == s.draining && t.d.fan.phase.Live? && t.d.fan.lastSent == s.d.fan.lastSent + n
            && t.d.fan.feed.queue == s.d.fan.feed.queue[n..] && t.d.fan.feed.missed == s.d.fan.feed.missed
    decreases n
  {
    if n == 0 {
      run := [];
    } else {
      var a := Do(D.ReadLine);
      V.ReadStep(s.d.fan, n);
      var rest := DrainRun(Step(s, a), n - 1);
      run := [a] + rest;
      assert run[1..] == rest;
      assert s.d.fan.feed.queue[1..][n - 1..] == s.d.fan.feed.queue[n..];
    }
  }

  /** After an overflow it fails, for every depth of feed: the connection's last line finds the feed
      full, and the disconnect, drained for and forwarded, goes out before that line is recovered. */
  lemma EventOvertakesLine(cap: nat, depth: nat) returns (run: seq<Action>)
    requires cap > 0 && depth > 0
    ensures var s := Run(Init(cap, depth), run);
            && Enabled(s, Forward) && s.draining == Some(depth + 1) && s.d.fan.lastSent == depth
            && Lacks(s.d.fan, depth + 1)
  {
    var d := D.Init(cap, depth);
    var fill := R.Fill(cap, depth, depth);
    fill := R.Arrives(d, fill, "x");
    var full := D.Run(d, fill);
    assert full.fan.feed == D.Feed(R.Lines(depth), true, 0, {depth + 1});
    LiftRun(d, fill);
    var last := [Do(D.ReadFails), Notify, TakeNotice];
    var down := D.Step(full, D.ReadFails);
    Announced(full);
    assert V.InOrder(down.fan, depth);
    var drain := DrainRun(State(down, [], Some(depth + 1)), depth);
    RunAppend(Init(cap, depth), Dos(fill), last);
    RunAppend(Init(cap, depth), Dos(fill) + last, drain);
    run := Dos(fill) + last + drain;
  }

  /** The read loop ends, publishes the event, and the fan-in takes it up. */
  lemma Announced(d: D.State)
    requires d.loop.Reading? && d.fan.phase.Live?
    ensures Run(State(d, [], None), [Do(D.ReadFails), Notify, TakeNotice])
         == State(D.Step(d, D.ReadFails), [], Some(|d.log|))
  {
    var s := State(d, [], None);
    var last := [Do(D.ReadFails), Notify, TakeNotice];
    assert last[1..] == [Notify, TakeNotice] && last[1..][1..] == [TakeNotice] && last[1..][1..][1..] == [];
    var t := Step(s, last[0]);
    assert t == State(D.Step(d, D.ReadFails), [], None) && D.PublishedCount(t.d) == |d.log|;
    var u := Step(t, Notify);
    assert u == State(t.d, [|d.log|], None);
    assert Step(u, TakeNotice) == State(t.d, [], Some(|d.log|));
  }
}

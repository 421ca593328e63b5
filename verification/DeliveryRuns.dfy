/** Delivery over whole runs (internal/keeper/listener.go fanInNetwork and catchUpFromRing): order,
    contiguity, catching up, and when an attach is killed. */
module DeliveryRuns {
  import opened Ring
  import opened Delivery
  import opened DeliveryInvariant

  /** Whatever the interleaving, one fan-in's lines are unaltered, strictly increasing and
      above its resume point; they form the gap-free run after `base` iff no live read ever
      skipped a line its feed had dropped; and `base` is the resume point unless that is 0. */
  lemma FanInOrder(cap: nat, depth: nat, actions: seq<Action>)
    requires cap > 0
    ensures var s := Run(Init(cap, depth), actions);
            var f := s.fan;
            && Rising(f.sent) && Genuine(s.log, f.from, f.sent)
            && (f.clean <==> Contiguous(f.base, f.sent))
            && (f.from != 0 ==> f.base == f.from)
  {
    RunInv(Init(cap, depth), actions);
  }

  /** An overflow is serviced in time: a live read never takes a line published after a
      line its own feed dropped. Go's select does not enforce this. */
  predicate PromptRead(f: FanIn) {
    f.feed.queue != [] ==> forall n :: n in f.feed.missed ==> n > f.feed.queue[0].seqNo
  }

  predicate PromptRun(s: State, actions: seq<Action>)
    decreases |actions|
  {
    actions == [] ||
    ((actions[0].ReadLine? && s.fan.phase.Live? ==> PromptRead(s.fan)) && PromptRun(Step(s, actions[0]), actions[1..]))
  }

  lemma {:induction false} PromptKeepsClean(s: State, actions: seq<Action>)
    requires PromptRun(s, actions) && s.fan.clean
    ensures Run(s, actions).fan.clean
    decreases |actions|
  {
    if actions != [] {
      PromptKeepsClean(Step(s, actions[0]), actions[1..]);
    }
  }

  /** The k-th action is the catch-up of a fan-in that has sent nothing and resumes from 0, and `base`
      lines are gone by then: the line owed first is the oldest one retained. */
  ghost predicate StartsAt(cap: nat, depth: nat, actions: seq<Action>, k: nat, base: nat)
    requires cap > 0
  {
    && k < |actions| && actions[k].CatchUp?
    && var s := Run(Init(cap, depth), actions[..k]);
       s.fan.phase.Starting? && s.fan.lastSent == 0 && base == Evicted(|s.log|, cap)
  }

  /** A fan-in from 0 that has caught up, and so may have sent something. */
  predicate Begun(f: FanIn) {
    f.from == 0 && (f.sent != [] || f.phase.Replaying? || f.phase.Live?)
  }

  /** Only a catch-up with nothing sent fixes where such a fan-in starts. */
  lemma BegunStep(s: State, a: Action)
    requires SentInv(s.log, s.fan) && Begun(Step(s, a).fan)
    ensures (a.CatchUp? && s.fan.phase.Starting? && s.fan.lastSent == 0
             && Step(s, a).fan.base == Evicted(|s.log|, s.cap))
            || (Begun(s.fan) && Step(s, a).fan.base == s.fan.base)
  {
    if Enabled(s, a) && !OfFan(a) {
      LoopFrame(s, a);
    }
  }

  lemma CapStays(s: State, a: Action)
    ensures Step(s, a).cap == s.cap
  {
    if Enabled(s, a) && !OfFan(a) {
      LoopFrame(s, a);
    }
  }

  lemma {:induction false} BaseOrigin(cap: nat, depth: nat, actions: seq<Action>) returns (k: nat)
    requires cap > 0 && Begun(Run(Init(cap, depth), actions).fan)
    ensures StartsAt(cap, depth, actions, k, Run(Init(cap, depth), actions).fan.base)
    ensures Run(Init(cap, depth), actions).cap == cap
    decreases |actions|
  {
    var n := |actions| - 1;
    var front, a := actions[..n], actions[n];
    var s := Run(Init(cap, depth), front);
    assert actions == front + [a];
    RunAppend(Init(cap, depth), front, a);
    RunInv(Init(cap, depth), front);
    BegunStep(s, a);
    CapAlong(cap, depth, front);
    CapStays(s, a);
    if a.CatchUp? && s.fan.phase.Starting? && s.fan.lastSent == 0 {
      k := n;
    } else {
      k := BaseOrigin(cap, depth, front);
      assert front[..k] == actions[..k];
    }
  }

  lemma {:induction false} CapAlong(cap: nat, depth: nat, actions: seq<Action>)
    ensures Run(Init(cap, depth), actions).cap == cap
    decreases |actions|
  {
    if actions != [] {
      var n := |actions| - 1;
      assert actions == actions[..n] + [actions[n]];
      CapAlong(cap, depth, actions[..n]);
      RunAppend(Init(cap, depth), actions[..n], actions[n]);
      CapStays(Run(Init(cap, depth), actions[..n]), actions[n]);
    }
  }

  /** Fan-in contiguity: with overflows serviced in time, the brain gets exactly the lines base+1,
      base+2, ... of the uplink's log, where base is the resume point, or, when that is 0, the lines
      lost before the catch-up that started it. */
  lemma FanInContiguous(cap: nat, depth: nat, actions: seq<Action>)
    requires cap > 0 && PromptRun(Init(cap, depth), actions)
    ensures var s := Run(Init(cap, depth), actions);
            var f := s.fan;
            f.sent != [] ==>
              && f.base + |f.sent| <= |s.log| && f.sent == s.log[f.base..f.base + |f.sent|]
              && (if f.from != 0 then f.base == f.from else exists k :: StartsAt(cap, depth, actions, k, f.base))
  {
    RunInv(Init(cap, depth), actions);
    PromptKeepsClean(Init(cap, depth), actions);
    var s := Run(Init(cap, depth), actions);
    if s.fan.sent != [] {
      SentIsSlice(s.log, s.fan);
      if s.fan.from == 0 {
        var k := BaseOrigin(cap, depth, actions);
      }
    }
  }

  lemma SentIsSlice(log: seq<Entry>, f: FanIn)
    requires SentInv(log, f) && f.clean && f.sent != []
    ensures f.base + |f.sent| <= |log| && f.sent == log[f.base..f.base + |f.sent|]
  {
    LastOwed(f);
    assert f.sent[|f.sent| - 1].seqNo <= |log|;
    forall i | 0 <= i < |f.sent| ensures f.sent[i] == log[f.base + i] {
      assert f.sent[i].seqNo == f.base + 1 + i;
    }
  }

  /** Nothing is left behind: once a live feed is drained and did not overflow, the brain
      has been sent everything published. */
  lemma DrainedIsCaughtUp(s: State)
    requires Inv(s) && s.fan.phase.Live? && s.fan.feed.queue == [] && !s.fan.feed.overflow
    ensures s.fan.lastSent >= PublishedCount(s)
    ensures s.fan.clean && s.fan.sent != [] && !s.loop.Pushed? ==> s.fan.sent == s.log[s.fan.base..]
  {
    AllMissed(s.log, s.fan.feed.seen, PublishedCount(s), s.fan.feed.missed);
    assert s.fan.feed.missed == {};
    if s.fan.clean && s.fan.sent != [] {
      SentIsSlice(s.log, s.fan);
      LastOwed(s.fan);
    }
  }

  /** The attach is killed only by a catch-up whose next line has been evicted; a catch-up
      from 0 is never killed and owes the brain the oldest retained line first. */
  lemma KillExact(s: State, a: Action)
    requires LogInv(s) && !s.fan.phase.Killed?
    ensures Step(s, a).fan.phase.Killed? <==>
              a.CatchUp? && s.fan.phase.Starting? && s.fan.lastSent != 0
              && s.fan.lastSent + 1 <= Evicted(|s.log|, s.cap)
    ensures a.CatchUp? && s.fan.phase.Starting? && s.fan.lastSent == 0 && s.log != [] ==>
              Retained(s.log, s.cap)[0].seqNo == Step(s, a).fan.base + 1
  {
    SinceExact(s.log, s.cap, s.fan.lastSent);
    if Enabled(s, a) && !OfFan(a) {
      LoopFrame(s, a);
    }
  }

  lemma {:induction false} RunAppend(s: State, actions: seq<Action>, a: Action)
    ensures Run(s, actions + [a]) == Step(Run(s, actions), a)
    decreases |actions|
  {
    if actions == [] {
      assert Run(s, [a]) == Run(Step(s, a), []);
    } else {
      assert (actions + [a])[1..] == actions[1..] + [a];
      RunAppend(Step(s, actions[0]), actions[1..], a);
    }
  }

  /** One more action at the end of a run. */
  lemma Then(s: State, actions: seq<Action>, a: Action) returns (longer: seq<Action>)
    ensures longer == actions + [a] && Run(s, longer) == Step(Run(s, actions), a)
  {
    RunAppend(s, actions, a);
    longer := actions + [a];
  }

  /** A fresh attach to an empty network, caught up and live. */
  lemma AttachRun(cap: nat, depth: nat) returns (run: seq<Action>)
    requires cap > 0
    ensures Run(Init(cap, depth), run) ==
            State(cap, depth, [], Reading, true, 1, 0, 0, Idle().(phase := Live))
  {
    var s := Init(cap, depth);
    run := Then(s, [], Dial);
    run := Then(s, run, Attach(0));
    run := Then(s, run, Subscribe);
    run := Then(s, run, CatchUp);
  }

  /** One line read, published and checked while the fan-in is live. */
  lemma Arrives(s: State, run: seq<Action>, line: string) returns (longer: seq<Action>)
    requires Run(s, run).loop.Reading? && Run(s, run).fan.phase.Live?
    ensures var t := Run(s, run);
            var e := Entry(|t.log| + 1, t.epoch, line, 0);
            Run(s, longer) == t.(log := t.log + [e], fan := t.fan.(feed := Offer(t.fan.feed, e, t.depth)))
  {
    longer := Then(s, run, Push(line, 0));
    longer := Then(s, longer, Publish);
    longer := Then(s, longer, CheckSubscribers);
  }

  /** The first n lines of a connection, all alike. */
  function Lines(n: nat): (es: seq<Entry>)
    ensures |es| == n && forall i :: 0 <= i < n ==> es[i] == Entry(i + 1, 1, "x", 0)
  {
    seq(n, i requires 0 <= i < n => Entry(i + 1, 1, "x", 0))
  }

  /** A live fan-in with `log` read and this feed, having sent `sent`. */
  function LiveState(cap: nat, depth: nat, log: seq<Entry>, feed: Feed, sent: seq<Entry>, clean: bool): State {
    State(cap, depth, log, Reading, true, 1, 0, 0,
          FanIn(Live, 0, if sent == [] then 0 else sent[|sent| - 1].seqNo, feed, false, [], sent, 0, clean))
  }

  /** One more line arrives at such a fan-in. */
  lemma ArrivesLive(s: State, run: seq<Action>, cap: nat, depth: nat, log: seq<Entry>, feed: Feed, sent: seq<Entry>)
      returns (longer: seq<Action>)
    requires Run(s, run) == LiveState(cap, depth, log, feed, sent, true)
    ensures var e := Entry(|log| + 1, 1, "x", 0);
            Run(s, longer) == LiveState(cap, depth, log + [e], Offer(feed, e, depth), sent, true)
  {
    longer := Arrives(s, run, "x");
  }

  /** n lines arrive and wait on the feed. */
  lemma {:induction false} Fill(cap: nat, depth: nat, n: nat) returns (run: seq<Action>)
    requires cap > 0 && n <= depth
    ensures Run(Init(cap, depth), run) == LiveState(cap, depth, Lines(n), Feed(Lines(n), false, 0, {}), [], true)
  {
    if n == 0 {
      run := AttachRun(cap, depth);
      assert Lines(0) == [];
    } else {
      run := Fill(cap, depth, n - 1);
      run := ArrivesLive(Init(cap, depth), run, cap, depth, Lines(n - 1), Feed(Lines(n - 1), false, 0, {}), []);
      assert Lines(n) == Lines(n - 1) + [Entry(n, 1, "x", 0)];
    }
  }

  /** A feed, and what was sent, after n lines in order are read. */
  function FeedAfter(feed: Feed, sent: seq<Entry>, n: nat): Feed
    requires n <= |feed.queue|
  {
    if n == 0 then feed else feed.(queue := feed.queue[n..], seen := |sent| + n)
  }

  /** One line is read that follows on what was sent. */
  lemma ReadOne(cap: nat, depth: nat, log: seq<Entry>, feed: Feed, sent: seq<Entry>)
    requires feed.queue != [] && feed.queue[0].seqNo == |sent| + 1
    requires forall i :: 0 <= i < |sent| ==> sent[i].seqNo == i + 1
    ensures Step(LiveState(cap, depth, log, feed, sent, true), ReadLine)
         == LiveState(cap, depth, log, FeedAfter(feed, sent, 1), sent + [feed.queue[0]], true)
  {
  }

  lemma ReadMore(feed: Feed, sent: seq<Entry>, n: nat)
    requires 0 < n <= |feed.queue|
    ensures var feed', sent' := FeedAfter(feed, sent, 1), sent + [feed.queue[0]];
            && FeedAfter(feed', sent', n - 1) == FeedAfter(feed, sent, n)
            && sent' + feed'.queue[..n - 1] == sent + feed.queue[..n]
  {
    assert feed.queue[1..][n - 1..] == feed.queue[n..];
  }

  /** The next n lines on the feed are read, when they follow on what was sent. */
  lemma {:induction false} Drain(s: State, run: seq<Action>, cap: nat, depth: nat,
      log: seq<Entry>, feed: Feed, sent: seq<Entry>, n: nat)
      returns (longer: seq<Action>)
    requires Run(s, run) == LiveState(cap, depth, log, feed, sent, true) && n <= |feed.queue|
    requires forall i :: 0 <= i < |sent| ==> sent[i].seqNo == i + 1
    requires forall i :: 0 <= i < n ==> feed.queue[i].seqNo == |sent| + 1 + i
    ensures Run(s, longer)
         == LiveState(cap, depth, log, FeedAfter(feed, sent, n), sent + feed.queue[..n], true)
    decreases n
  {
    if n == 0 {
      longer := run;
      assert sent + feed.queue[..0] == sent;
    } else {
      longer := Then(s, run, ReadLine);
      ReadOne(cap, depth, log, feed, sent);
      ReadMore(feed, sent, n);
      longer := Drain(s, longer, cap, depth, log, FeedAfter(feed, sent, 1), sent + [feed.queue[0]], n - 1);
    }
  }

  /** Without prompt service the promise fails, for every depth of feed: it is full of lines 1..depth
      and drops the next; one line is read, which makes room for line depth + 2; and reading on before
      the overflow is looked at sends that line after line depth. */
  lemma LateServiceLeavesGap(cap: nat, depth: nat) returns (run: seq<Action>)
    requires cap > 0 && depth > 0
    ensures var f := Run(Init(cap, depth), run).fan;
            && |f.sent| == depth + 1 && f.sent[depth - 1].seqNo == depth && f.sent[depth].seqNo == depth + 2
            && !Contiguous(f.base, f.sent)
  {
    var s, full := Init(cap, depth), Lines(depth);
    var feed := Feed(full, false, 0, {});
    run := Fill(cap, depth, depth);
    run := ArrivesLive(s, run, cap, depth, full, feed, []);
    var log1, feed1 := full + [Entry(depth + 1, 1, "x", 0)], feed.(overflow := true, missed := {depth + 1});
    assert Offer(feed, log1[depth], depth) == feed1;
    run := Drain(s, run, cap, depth, log1, feed1, [], 1);
    assert [] + full[..1] == full[..1];
    run := GapTail(s, run, cap, depth, log1);
  }

  /** The second half of that run. */
  lemma GapTail(s: State, run: seq<Action>, cap: nat, depth: nat, log: seq<Entry>) returns (longer: seq<Action>)
    requires depth > 0 && |log| == depth + 1
    requires Run(s, run)
          == LiveState(cap, depth, log, Feed(Lines(depth)[1..], true, 1, {depth + 1}), Lines(depth)[..1], true)
    ensures var f := Run(s, longer).fan;
            && |f.sent| == depth + 1 && f.sent[depth - 1].seqNo == depth && f.sent[depth].seqNo == depth + 2
            && !Contiguous(f.base, f.sent)
  {
    var full, late, first := Lines(depth), Entry(depth + 2, 1, "x", 0), Lines(depth)[..1];
    longer := ArrivesLive(s, run, cap, depth, log, Feed(full[1..], true, 1, {depth + 1}), first);
    var feed := Feed(full[1..] + [late], true, 1, {depth + 1});
    longer := Drain(s, longer, cap, depth, log + [late], feed, first, depth - 1);
    assert feed.queue[..depth - 1] == full[1..] && first + full[1..] == full;
    var t := Run(s, longer);
    longer := Then(s, longer, ReadLine);
    ReadLate(t, full, late);
  }

  lemma ReadLate(t: State, sent: seq<Entry>, late: Entry)
    requires t.fan.phase.Live? && t.fan.feed.queue == [late] && t.fan.lastSent < late.seqNo
    requires t.fan.sent == sent && sent != [] && t.fan.base == 0 && late.seqNo == |sent| + 2
    ensures Step(t, ReadLine).fan.sent == sent + [late] && !Contiguous(Step(t, ReadLine).fan.base, sent + [late])
  {
    assert (sent + [late])[|sent|] == late;
  }
}

/** When a fan-in that waits for its catch-up can still make it (internal/keeper/listener.go
    fanInNetwork): an attach between choosing its resume point and reading the ring, and a live feed
    that overflowed. Other goroutines run in between. */
module DeliveryRecovery {
  import opened Ring
  import opened Delivery
  import opened DeliveryInvariant
  import opened DeliveryRuns

  /** Nothing here catches the fan-in up, replaces it or ends it. */
  predicate Waits(actions: seq<Action>) {
    forall i :: 0 <= i < |actions| ==> !actions[i].CatchUp? && !actions[i].Attach? && !actions[i].Detach?
  }

  predicate Waiting(f: FanIn) {
    f.phase.Chosen? || f.phase.Starting?
  }

  lemma WaitStep(s: State, a: Action)
    requires Waiting(s.fan) && !a.CatchUp? && !a.Attach? && !a.Detach?
    ensures var t := Step(s, a);
            && Waiting(t.fan) && t.fan.from == s.fan.from && t.fan.lastSent == s.fan.lastSent
            && (s.fan.phase.Starting? ==> t.fan.phase.Starting?) && t.cap == s.cap && |s.log| <= |t.log|
  {
    if Enabled(s, a) && !OfFan(a) {
      LoopFrame(s, a);
    }
  }

  lemma {:induction false} WaitRun(s: State, actions: seq<Action>)
    requires Waiting(s.fan) && Waits(actions) && LogInv(s)
    ensures var t := Run(s, actions);
            && Waiting(t.fan) && t.fan.from == s.fan.from && t.fan.lastSent == s.fan.lastSent
            && (s.fan.phase.Starting? ==> t.fan.phase.Starting?) && t.cap == s.cap && |s.log| <= |t.log| && LogInv(t)
    decreases |actions|
  {
    if actions != [] {
      WaitStep(s, actions[0]);
      LogStep(s, actions[0]);
      WaitRun(Step(s, actions[0]), actions[1..]);
    }
  }

  /** The catch-up of a waiting fan-in is killed iff it has sent or resumes from a line, and more lines
      than the ring holds were read after that line, whoever did what while it waited. */
  lemma WaitKilledExact(s: State, between: seq<Action>)
    requires LogInv(s) && Waiting(s.fan) && Waits(between) && Run(s, between).fan.phase.Starting?
    ensures var t := Run(s, between);
            Step(t, CatchUp).fan.phase.Killed? <==> s.fan.lastSent != 0 && |t.log| - s.fan.lastSent > s.cap
  {
    WaitRun(s, between);
    KillExact(Run(s, between), CatchUp);
  }

  /** An overflow is recovered from unless, by the time the ring is read, more lines than it holds
      came after the last one sent. */
  lemma OverflowKillExact(s: State, between: seq<Action>)
    requires LogInv(s) && Enabled(s, Resubscribe) && Waits(between)
    ensures var t := Run(Step(s, Resubscribe), between);
            && t.fan.phase.Starting?
            && (Step(t, CatchUp).fan.phase.Killed? <==> s.fan.lastSent != 0 && |t.log| - s.fan.lastSent > s.cap)
  {
    var r := Step(s, Resubscribe);
    LogStep(s, Resubscribe);
    WaitRun(r, between);
    WaitKilledExact(r, between);
  }

  /** Nothing was read off the feed since its first drop: it is full, and all it dropped came later. */
  ghost predicate Jammed(f: Feed, depth: nat) {
    && |f.queue| == depth > 0 && f.missed != {}
    && forall n :: n in f.missed ==> n > f.queue[depth - 1].seqNo
  }

  lemma {:induction false} UnmissedShort(log: seq<Entry>, lo: nat, hi: nat, missed: set<nat>)
    requires hi <= |log|
    ensures |Unmissed(log, lo, hi, missed)| <= if hi > lo then hi - lo else 0
    decreases hi
  {
    if hi > lo {
      UnmissedShort(log, lo, hi - 1, missed);
    }
  }

  /** The i-th line left of a window is numbered at least i + 1 above its start. */
  lemma {:induction false} UnmissedHigh(log: seq<Entry>, lo: nat, hi: nat, missed: set<nat>, i: nat)
    requires hi <= |log| && Numbered(log) && i < |Unmissed(log, lo, hi, missed)|
    ensures Unmissed(log, lo, hi, missed)[i].seqNo >= lo + 1 + i
    decreases hi
  {
    var p := Unmissed(log, lo, hi - 1, missed);
    if i < |p| {
      UnmissedHigh(log, lo, hi - 1, missed, i);
    } else {
      UnmissedShort(log, lo, hi - 1, missed);
    }
  }

  /** A jammed feed of unsent lines is at least its depth, and one line more, behind. */
  lemma JammedIsBehind(s: State)
    requires LogInv(s) && FeedInv(s) && Subscribed(s.fan) && Jammed(s.fan.feed, s.depth)
    requires s.fan.lastSent < s.fan.feed.queue[0].seqNo
    ensures |s.log| - s.fan.lastSent > s.depth
  {
    var f, pub := s.fan.feed, PublishedCount(s);
    UnmissedHead(s.log, f.seen, pub, f.missed);
    if s.depth > 1 {
      UnmissedHigh(s.log, f.queue[0].seqNo, pub, f.missed, s.depth - 2);
      assert f.queue[1..][s.depth - 2] == f.queue[s.depth - 1];
    }
    var n :| n in f.missed;
  }

  /** With a feed at least as deep as the ring, as shipped, an overflow serviced before any further
      read always kills: what the feed had room for fills the ring, and the line it dropped is the one
      too many. */
  lemma DeepFeedAlwaysKills(s: State, between: seq<Action>)
    requires Inv(s) && Enabled(s, Resubscribe) && Waits(between) && s.depth >= s.cap
    requires Jammed(s.fan.feed, s.depth) && 0 < s.fan.lastSent < s.fan.feed.queue[0].seqNo
    ensures Step(Run(Step(s, Resubscribe), between), CatchUp).fan.phase.Killed?
  {
    JammedIsBehind(s);
    var r := Step(s, Resubscribe);
    LogStep(s, Resubscribe);
    WaitRun(r, between);
    OverflowKillExact(s, between);
  }

  // ---------------------------------------------------------------- reading on before the overflow is serviced

  /** The live feed is read, and others go about their business; the overflow is left alone. */
  predicate Serves(actions: seq<Action>) {
    forall i :: 0 <= i < |actions| ==> actions[i].ReadLine? || !OfFan(actions[i])
  }

  function Reads(actions: seq<Action>): nat {
    if actions == [] then 0 else (if actions[0].ReadLine? then 1 else 0) + Reads(actions[1..])
  }

  /** The next n lines on the feed are the next n to send. */
  predicate InOrder(f: FanIn, n: nat) {
    n <= |f.feed.queue| && forall i :: 0 <= i < n ==> f.feed.queue[i].seqNo == f.lastSent + 1 + i
  }

  /** The last line sent is the last one taken off the feed: none on it has been sent yet. */
  predicate AtFeed(f: FanIn) {
    f.lastSent == f.feed.seen
  }

  lemma ServeStep(s: State, a: Action, n: nat)
    requires s.fan.phase.Live? && InOrder(s.fan, n) && (a.ReadLine? || !OfFan(a)) && (a.ReadLine? ==> n > 0)
    ensures var k := if a.ReadLine? then 1 else 0;
            var t := Step(s, a);
            && InOrder(t.fan, n - k) && t.fan.lastSent == s.fan.lastSent + k && t.fan.clean == s.fan.clean
            && t.fan.phase.Live? && (s.fan.feed.overflow ==> t.fan.feed.overflow) && t.fan.oldFeed == s.fan.oldFeed
            && t.cap == s.cap && s.fan.feed.missed <= t.fan.feed.missed && (AtFeed(s.fan) ==> AtFeed(t.fan))
  {
    if a.ReadLine? {
      ReadStep(s.fan, n);
    } else if Enabled(s, a) {
      LoopFrame(s, a);
      FeedGrows(s, a);
    }
  }

  lemma ReadStep(f: FanIn, n: nat)
    requires InOrder(f, n) && n > 0
    ensures var g := ReadLineStep(f);
            && InOrder(g, n - 1) && g.lastSent == f.lastSent + 1 && g.clean == f.clean
            && g == f.(feed := g.feed, sent := g.sent, lastSent := g.lastSent, clean := g.clean)
            && g.feed.overflow == f.feed.overflow && g.feed.missed == f.feed.missed && AtFeed(g)
  {
    var q := f.feed.queue;
    forall i | 0 <= i < n - 1 ensures q[1..][i].seqNo == f.lastSent + 2 + i {
      assert q[1..][i] == q[i + 1];
    }
  }

  /** Publishing adds to the end of the feed or to what it missed. */
  lemma FeedGrows(s: State, a: Action)
    requires Enabled(s, a) && !OfFan(a)
    ensures var f, g := s.fan.feed, Step(s, a).fan.feed;
            && |f.queue| <= |g.queue| && g.queue[..|f.queue|] == f.queue
            && (f.overflow ==> g.overflow) && f.missed <= g.missed && g.seen == f.seen
  {
  }

  lemma {:induction false} ServeRun(s: State, actions: seq<Action>, n: nat)
    requires LogInv(s) && s.fan.phase.Live? && Serves(actions) && InOrder(s.fan, n) && Reads(actions) <= n
    ensures var t := Run(s, actions);
            && LogInv(t) && InOrder(t.fan, n - Reads(actions)) && t.fan.lastSent == s.fan.lastSent + Reads(actions)
            && t.fan.clean == s.fan.clean && t.fan.phase.Live? && (s.fan.feed.overflow ==> t.fan.feed.overflow)
            && t.fan.oldFeed == s.fan.oldFeed && t.cap == s.cap && s.fan.feed.missed <= t.fan.feed.missed
            && (AtFeed(s.fan) ==> AtFeed(t.fan))
    decreases |actions|
  {
    if actions != [] {
      ServeStep(s, actions[0], n);
      LogStep(s, actions[0]);
      ServeRun(Step(s, actions[0]), actions[1..], if actions[0].ReadLine? then n - 1 else n);
    }
  }

  lemma {:induction false} UnmissedPrefix(log: seq<Entry>, lo: nat, hi: nat, missed: set<nat>, n: nat)
    requires Numbered(log) && lo + n <= hi <= |log| && forall k :: lo < k <= lo + n ==> k !in missed
    ensures var u := Unmissed(log, lo, hi, missed); |u| >= n && forall i :: 0 <= i < n ==> u[i].seqNo == lo + 1 + i
    decreases hi
  {
    if n > 0 {
      if hi == lo + n {
        UnmissedPrefix(log, lo, hi - 1, missed, n - 1);
        UnmissedShort(log, lo, hi - 1, missed);
      } else {
        UnmissedPrefix(log, lo, hi - 1, missed, n);
      }
    }
  }

  /** A jammed feed holds the lines that follow on the last one read, one by one, and dropped the next. */
  lemma JammedInOrder(s: State)
    requires LogInv(s) && FeedInv(s) && Subscribed(s.fan) && Jammed(s.fan.feed, s.depth)
    ensures var f := s.fan.feed;
            && (forall i :: 0 <= i < s.depth ==> f.queue[i].seqNo == f.seen + 1 + i)
            && f.seen + s.depth + 1 in f.missed
  {
    var f, pub := s.fan.feed, PublishedCount(s);
    var last := f.queue[s.depth - 1].seqNo;
    UnmissedHigh(s.log, f.seen, pub, f.missed, s.depth - 1);
    UnmissedPrefix(s.log, f.seen, pub, f.missed, s.depth);
    if f.seen + s.depth + 1 !in f.missed {
      var n :| n in f.missed;
      UnmissedPrefix(s.log, f.seen, pub, f.missed, s.depth + 1);
    }
  }

  /** Every line read in order before the overflow is serviced makes room for one line more: after k of
      them nothing is lost, and the catch-up is killed iff more lines than the ring holds came after the
      k-th. So with a feed as deep as the ring, reading on can save the attach. */
  lemma JammedServed(s: State, serving: seq<Action>, between: seq<Action>)
    requires Inv(s) && Enabled(s, Resubscribe) && Jammed(s.fan.feed, s.depth) && AtFeed(s.fan)
    requires Serves(serving) && Reads(serving) <= s.depth && Waits(between)
    ensures var t := Run(s, serving);
            var u := Run(Step(t, Resubscribe), between);
            && t.fan.clean == s.fan.clean && t.fan.lastSent == s.fan.lastSent + Reads(serving)
            && Enabled(t, Resubscribe)
            && (Step(u, CatchUp).fan.phase.Killed?
                <==> t.fan.lastSent != 0 && |u.log| - (s.fan.lastSent + Reads(serving)) > s.cap)
  {
    JammedInOrder(s);
    ServeRun(s, serving, s.depth);
    OverflowKillExact(Run(s, serving), between);
  }

  /** The first read past those is past a line the feed dropped, and that is where a gap appears. */
  lemma JammedGap(s: State, serving: seq<Action>)
    requires Inv(s) && Enabled(s, Resubscribe) && Jammed(s.fan.feed, s.depth) && AtFeed(s.fan)
    requires Serves(serving) && Reads(serving) == s.depth && Run(s, serving).fan.feed.queue != []
    ensures var t := Step(Run(s, serving), ReadLine); !Contiguous(t.fan.base, t.fan.sent)
  {
    JammedInOrder(s);
    ServeRun(s, serving, s.depth);
    RunInv(s, serving);
    ReadPastMissed(Run(s, serving));
  }

  lemma ReadPastMissed(t: State)
    requires Inv(t) && t.fan.phase.Live? && t.fan.feed.queue != []
    requires AtFeed(t.fan) && t.fan.lastSent + 1 in t.fan.feed.missed
    ensures !Contiguous(Step(t, ReadLine).fan.base, Step(t, ReadLine).fan.sent)
  {
    var f := t.fan;
    UnmissedHead(t.log, f.feed.seen, PublishedCount(t), f.feed.missed);
    var e := f.feed.queue[0];
    assert e.seqNo > f.lastSent + 1 && SkipsMissed(f, e.seqNo);
    ReadLineSent(t);
  }
}

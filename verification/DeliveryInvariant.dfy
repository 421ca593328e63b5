/** What every action of the delivery machine keeps: the numbering of the log, the contents of the
    live feed, the backlog being replayed, and what has been sent (internal/keeper/keeper.go,
    internal/keeper/listener.go). */
module DeliveryInvariant {
  import opened Ring
  import opened Delivery

  /** The lines numbered in (lo, hi] that `missed` does not contain, in order. */
  ghost function Unmissed(log: seq<Entry>, lo: nat, hi: nat, missed: set<nat>): seq<Entry>
    requires hi <= |log|
    decreases hi
  {
    if hi <= lo then []
    else Unmissed(log, lo, hi - 1, missed) + (if hi in missed then [] else [log[hi - 1]])
  }

  /** A longer log does not change an old window. */
  lemma {:induction false} UnmissedFrame(log: seq<Entry>, more: seq<Entry>, lo: nat, hi: nat, missed: set<nat>)
    requires hi <= |log|
    ensures Unmissed(log, lo, hi, missed) == Unmissed(log + more, lo, hi, missed)
    decreases hi
  {
    if hi > lo {
      UnmissedFrame(log, more, lo, hi - 1, missed);
    }
  }

  /** Taking the head off a feed: everything before it was missed, the rest is still in order. */
  lemma {:induction false} UnmissedHead(log: seq<Entry>, lo: nat, hi: nat, missed: set<nat>)
    requires hi <= |log| && Numbered(log)
    requires Unmissed(log, lo, hi, missed) != []
    ensures var u := Unmissed(log, lo, hi, missed);
            && lo < u[0].seqNo <= hi && u[0] == log[u[0].seqNo - 1]
            && u[0].seqNo !in missed
            && (forall n :: lo < n < u[0].seqNo ==> n in missed)
            && u[1..] == Unmissed(log, u[0].seqNo, hi, missed)
    decreases hi
  {
    var u := Unmissed(log, lo, hi, missed);
    var p := Unmissed(log, lo, hi - 1, missed);
    if p == [] {
      AllMissed(log, lo, hi - 1, missed);
    } else {
      UnmissedHead(log, lo, hi - 1, missed);
      assert u[0] == p[0];
      assert u[1..] == p[1..] + u[|p|..];
    }
  }

  lemma {:induction false} AllMissed(log: seq<Entry>, lo: nat, hi: nat, missed: set<nat>)
    requires hi <= |log| && Unmissed(log, lo, hi, missed) == []
    ensures forall n :: lo < n <= hi ==> n in missed
    decreases hi
  {
    if hi > lo {
      AllMissed(log, lo, hi - 1, missed);
    }
  }

  ghost predicate LogInv(s: State) {
    && Numbered(s.log) && s.cap > 0
    && (s.loop.Pushed? ==> s.log != [] && s.loop.entry == s.log[|s.log| - 1])
    && (s.loop.Pushed? ==> (s.loop.evicted <==> |s.log| > s.cap))
    && (s.loop.Published? ==> (s.loop.evicted <==> |s.log| > s.cap))
  }

  ghost predicate FeedInv(s: State) {
    Subscribed(s.fan) ==>
      var pub := PublishedCount(s);
      && s.fan.feed.seen <= pub
      && (s.fan.feed.missed != {} ==> s.fan.feed.overflow)
      && (forall n :: n in s.fan.feed.missed ==> n <= pub)
      && s.fan.feed.queue == Unmissed(s.log, s.fan.feed.seen, pub, s.fan.feed.missed)
  }

  /** The number of the last line the brain has been accounted for. */
  function Cursor(f: FanIn): nat {
    if f.lastSent == 0 then f.base else f.lastSent
  }

  /** Line numbers strictly increase: no duplicate, no reorder. */
  ghost predicate Rising(es: seq<Entry>) {
    forall i, j :: 0 <= i < j < |es| ==> es[i].seqNo < es[j].seqNo
  }

  /** Every line is one the keeper read, above `from`, delivered unaltered. */
  ghost predicate Genuine(log: seq<Entry>, from: nat, es: seq<Entry>) {
    forall i :: 0 <= i < |es| ==> from < es[i].seqNo <= |log| && es[i] == log[es[i].seqNo - 1]
  }

  ghost predicate SentInv(log: seq<Entry>, f: FanIn) {
    && f.lastSent == (if f.sent == [] then f.from else f.sent[|f.sent| - 1].seqNo)
    && Genuine(log, f.from, f.sent)
    && Rising(f.sent)
    && (f.from != 0 ==> f.base == f.from)
    && (f.clean <==> Contiguous(f.base, f.sent))
  }

  /** What was sent is the gap-free run of lines base+1, base+2, ... */
  ghost predicate Contiguous(base: nat, es: seq<Entry>) {
    forall i :: 0 <= i < |es| ==> es[i].seqNo == base + 1 + i
  }

  ghost predicate PhaseInv(s: State) {
    var f := s.fan;
    match f.phase
    case Replaying => BacklogInv(s.log, f)
    case Live => f.feed.seen <= f.lastSent && (f.lastSent == 0 ==> f.base == 0)
    case _ => true
  }

  ghost predicate Inv(s: State) {
    LogInv(s) && FeedInv(s) && SentInv(s.log, s.fan) && PhaseInv(s)
  }

  /** Sending one more line keeps the run gap-free iff it is the next one owed. */
  lemma ContiguousAppend(base: nat, es: seq<Entry>, e: Entry)
    ensures Contiguous(base, es + [e]) <==> Contiguous(base, es) && e.seqNo == base + 1 + |es|
  {
    var g := es + [e];
    if Contiguous(base, g) {
      assert g[|es|] == e;
      forall i | 0 <= i < |es| ensures es[i].seqNo == base + 1 + i {
        assert es[i] == g[i];
      }
    }
  }

  lemma RisingAppend(es: seq<Entry>, e: Entry)
    requires Rising(es) && (es != [] ==> es[|es| - 1].seqNo < e.seqNo)
    ensures Rising(es + [e])
  {
    forall i | 0 <= i < |es| ensures es[i].seqNo < e.seqNo {
      assert i == |es| - 1 || es[i].seqNo < es[|es| - 1].seqNo;
    }
  }

  /** What the read loop, the watermark and other sessions leave alone: the fan-in but for the feed
      publishLine offers to, and the lines already in the log. */
  lemma LoopFrame(s: State, a: Action)
    requires Enabled(s, a) && !OfFan(a)
    ensures var t := Step(s, a);
            && t.cap == s.cap && t.depth == s.depth
            && (if a.Push? then t == PushStep(s, a.line, a.time) else t.log == s.log)
            && t.fan == s.fan.(feed := t.fan.feed) && t.fan.feed.seen == s.fan.feed.seen
            && (!a.Publish? ==> t.fan == s.fan)
  {
  }

  /** Of the fan-in's own actions only two send, and only a catch-up with nothing sent moves base. */
  lemma FanFrame(s: State, a: Action)
    requires Enabled(s, a) && OfFan(a) && !a.SendBacklog? && !a.ReadLine? && !a.Attach? && !a.Detach?
    ensures var f, g := s.fan, FanStep(s, a);
            && g.sent == f.sent && g.from == f.from && g.lastSent == f.lastSent && g.clean == f.clean
            && (g.base == f.base || f.lastSent == 0)
  {
  }

  lemma LogStep(s: State, a: Action)
    requires LogInv(s)
    ensures LogInv(Step(s, a))
  {
    if Enabled(s, a) && !OfFan(a) {
      LogLoop(s, a);
    }
  }

  lemma LogLoop(s: State, a: Action)
    requires LogInv(s) && Enabled(s, a) && !OfFan(a)
    ensures LogInv(LoopStep(s, a))
  {
  }

  lemma {:induction false} FeedStep(s: State, a: Action)
    requires LogInv(s) && FeedInv(s)
    ensures FeedInv(Step(s, a))
  {
    if !Enabled(s, a) {
    } else if !Subscribed(s.fan) {
      FeedStarts(s, a);
    } else {
      match a
      case Push(line, time) => PushFeed(s, line, time);
      case Publish => PublishFeed(s);
      case ReadLine => ReadFeed(s);
      case _ => FeedFrame(s, a);
    }
  }

  lemma FeedStarts(s: State, a: Action)
    requires !Subscribed(s.fan) && Enabled(s, a)
    ensures FeedInv(Step(s, a))
  {
    if OfFan(a) {
      var t := s.(fan := FanStep(s, a));
      assert PublishedCount(t) == PublishedCount(s);
      assert t.fan.feed == NO_FEED.(seen := PublishedCount(s)) || !Subscribed(t.fan);
    } else {
      LoopFrame(s, a);
    }
  }

  lemma ReadFeed(s: State)
    requires LogInv(s) && FeedInv(s) && Enabled(s, ReadLine)
    ensures FeedInv(Step(s, ReadLine))
  {
    UnmissedHead(s.log, s.fan.feed.seen, PublishedCount(s), s.fan.feed.missed);
    var t := s.(fan := ReadLineStep(s.fan));
    assert PublishedCount(t) == PublishedCount(s);
  }

  lemma FeedFrame(s: State, a: Action)
    requires FeedInv(s) && Subscribed(s.fan) && Enabled(s, a) && !a.Push? && !a.Publish? && !a.ReadLine?
    ensures FeedInv(Step(s, a))
  {
    if OfFan(a) {
      FeedFan(s, a);
    } else {
      LoopFrame(s, a);
      CountFrame(s, a);
    }
  }

  lemma CountFrame(s: State, a: Action)
    requires Enabled(s, a) && !OfFan(a) && !a.Push? && !a.Publish?
    ensures PublishedCount(Step(s, a)) == PublishedCount(s)
  {
  }

  lemma FeedFan(s: State, a: Action)
    requires FeedInv(s) && Subscribed(s.fan) && Enabled(s, a) && OfFan(a) && !a.ReadLine?
    ensures FeedInv(s.(fan := FanStep(s, a)))
  {
    var t := s.(fan := FanStep(s, a));
    assert PublishedCount(t) == PublishedCount(s);
    assert t.fan.feed == s.fan.feed || t.fan.feed == NO_FEED.(seen := PublishedCount(s)) || !Subscribed(t.fan);
  }

  lemma PushFeed(s: State, line: string, time: int)
    requires FeedInv(s) && Subscribed(s.fan) && s.loop.Reading?
    ensures FeedInv(PushStep(s, line, time))
  {
    var f, t := s.fan.feed, PushStep(s, line, time);
    var e := t.log[|s.log|];
    UnmissedFrame(s.log, [e], f.seen, |s.log|, f.missed);
    assert t.log == s.log + [e];
    assert PublishedCount(t) == |s.log|;
  }

  /** publishLine either queues the newest line or drops it and signals overflow. */
  lemma OfferFeed(log: seq<Entry>, f: Feed, depth: nat)
    requires log != [] && f.seen < |log| && |log| !in f.missed
    requires log[|log| - 1].seqNo == |log|
    requires f.queue == Unmissed(log, f.seen, |log| - 1, f.missed)
    ensures var g := Offer(f, log[|log| - 1], depth);
            g.queue == Unmissed(log, g.seen, |log|, g.missed)
  {
    if |f.queue| < depth {
      UnmissedLast(log, f.seen, |log|, f.missed);
    } else {
      UnmissedDropped(log, f.seen, |log|, f.missed);
    }
  }

  /** A dropped line is missed, and the window ends before it. */
  lemma UnmissedDropped(log: seq<Entry>, lo: nat, hi: nat, missed: set<nat>)
    requires lo < hi <= |log|
    ensures Unmissed(log, lo, hi, missed + {hi}) == Unmissed(log, lo, hi - 1, missed)
  {
    UnmissedMore(log, lo, hi - 1, missed, hi);
    UnmissedLast(log, lo, hi, missed + {hi});
  }

  lemma UnmissedLast(log: seq<Entry>, lo: nat, hi: nat, missed: set<nat>)
    requires lo < hi <= |log|
    ensures var before := Unmissed(log, lo, hi - 1, missed);
            Unmissed(log, lo, hi, missed) == if hi in missed then before else before + [log[hi - 1]]
  {
    assert Unmissed(log, lo, hi - 1, missed) + [] == Unmissed(log, lo, hi - 1, missed);
  }

  /** A later drop does not change an old window. */
  lemma {:induction false} UnmissedMore(log: seq<Entry>, lo: nat, hi: nat, missed: set<nat>, later: nat)
    requires hi <= |log| && hi < later
    ensures Unmissed(log, lo, hi, missed + {later}) == Unmissed(log, lo, hi, missed)
    decreases hi
  {
    if hi > lo {
      UnmissedMore(log, lo, hi - 1, missed, later);
    }
  }

  lemma PublishFeed(s: State)
    requires LogInv(s) && FeedInv(s) && Subscribed(s.fan) && s.loop.Pushed?
    ensures FeedInv(Step(s, Publish))
  {
    OfferFeed(s.log, s.fan.feed, s.depth);
  }

  ghost predicate BacklogInv(log: seq<Entry>, f: FanIn) {
    && f.backlog != []
    && Cursor(f) + |f.backlog| <= |log| && f.feed.seen <= Cursor(f) + |f.backlog|
    && f.backlog == log[Cursor(f)..Cursor(f) + |f.backlog|]
  }

  lemma {:induction false} PhaseStep(s: State, a: Action)
    requires LogInv(s) && FeedInv(s) && PhaseInv(s)
    ensures PhaseInv(Step(s, a))
  {
    if Enabled(s, a) {
      match a
      case Push(line, time) => PushPhase(s, line, time);
      case CatchUp => CatchUpPhase(s);
      case SendBacklog => SendBacklogPhase(s);
      case ReadLine => UnmissedHead(s.log, s.fan.feed.seen, PublishedCount(s), s.fan.feed.missed);
      case _ => PhaseFrame(s, a);
    }
  }

  lemma PhaseFrame(s: State, a: Action)
    requires PhaseInv(s) && Enabled(s, a) && !a.Push? && !a.CatchUp? && !a.SendBacklog? && !a.ReadLine?
    ensures PhaseInv(Step(s, a))
  {
    if OfFan(a) {
      var g := FanStep(s, a);
      assert g == s.fan.(oldFeed := g.oldFeed) || g.phase.Starting? || g.phase.Chosen? || g.phase.Detached?;
    } else {
      LoopFrame(s, a);
      PhaseFeed(s, Step(s, a));
    }
  }

  /** Offering to a feed leaves what PhaseInv looks at. */
  lemma PhaseFeed(s: State, t: State)
    requires PhaseInv(s) && t.log == s.log && t.fan == s.fan.(feed := t.fan.feed) && t.fan.feed.seen == s.fan.feed.seen
    ensures PhaseInv(t)
  {
  }

  lemma PushPhase(s: State, line: string, time: int)
    requires PhaseInv(s)
    ensures PhaseInv(PushStep(s, line, time))
  {
    var f := s.fan;
    if f.phase.Replaying? {
      var t := PushStep(s, line, time);
      assert t.log[Cursor(f)..Cursor(f) + |f.backlog|] == s.log[Cursor(f)..Cursor(f) + |f.backlog|];
    }
  }

  /** The backlog Since hands out is the contiguous tail after the cursor. */
  lemma CatchUpBacklog(log: seq<Entry>, cap: nat, f: FanIn)
    requires Numbered(log) && cap > 0 && f.feed.seen <= |log|
    requires !Gap(Retained(log, cap), f.lastSent)
    ensures var g := CatchUpStep(f, Retained(log, cap), Evicted(|log|, cap));
            if g.phase.Replaying? then BacklogInv(log, g)
            else g.feed.seen <= g.lastSent && (g.lastSent == 0 ==> g.base == 0)
  {
    SinceExact(log, cap, f.lastSent);
    var g := CatchUpStep(f, Retained(log, cap), Evicted(|log|, cap));
    if g.backlog != [] {
      TailIsBacklog(log, g);
    }
  }

  lemma TailIsBacklog(log: seq<Entry>, g: FanIn)
    requires Cursor(g) <= |log| && g.backlog == log[Cursor(g)..] && g.backlog != [] && g.feed.seen <= |log|
    ensures BacklogInv(log, g)
  {
  }

  lemma CatchUpPhase(s: State)
    requires LogInv(s) && FeedInv(s) && s.fan.phase.Starting?
    ensures PhaseInv(Step(s, CatchUp))
  {
    if !Gap(Retained(s.log, s.cap), s.fan.lastSent) {
      CatchUpBacklog(s.log, s.cap, s.fan);
    }
  }

  lemma SendBacklogPhase(s: State)
    requires LogInv(s) && PhaseInv(s) && Enabled(s, SendBacklog)
    ensures PhaseInv(Step(s, SendBacklog))
  {
    var f, g := s.fan, Step(s, SendBacklog).fan;
    assert f.backlog[0] == s.log[Cursor(f)];
    assert g.lastSent == Cursor(f) + 1 == Cursor(g);
    assert g.backlog == s.log[Cursor(g)..Cursor(g) + |g.backlog|];
  }

  /** The line numbered next on the stream and above `lastSent` may be sent. */
  lemma DeliverSent(log: seq<Entry>, f: FanIn, e: Entry, clean: bool)
    requires SentInv(log, f)
    requires f.lastSent < e.seqNo <= |log| && e == log[e.seqNo - 1]
    requires clean <==> f.clean && e.seqNo == f.base + 1 + |f.sent|
    ensures SentInv(log, Deliver(f, e).(clean := clean))
  {
    ContiguousAppend(f.base, f.sent, e);
    RisingAppend(f.sent, e);
    assert Genuine(log, f.from, f.sent + [e]);
  }

  lemma LastOwed(f: FanIn)
    requires f.sent != [] && Contiguous(f.base, f.sent)
    ensures f.sent[|f.sent| - 1].seqNo == f.base + |f.sent|
  {
  }

  lemma {:induction false} SendBacklogSent(s: State)
    requires LogInv(s) && PhaseInv(s) && SentInv(s.log, s.fan) && Enabled(s, SendBacklog)
    ensures SentInv(s.log, Step(s, SendBacklog).fan)
  {
    var f := s.fan;
    var e := f.backlog[0];
    assert e == s.log[Cursor(f)];
    if f.clean && f.sent != [] { LastOwed(f); }
    DeliverSent(s.log, f, e, f.clean);
  }

  /** Everything between the last line taken off the feed and `upTo` was dropped. */
  ghost predicate MissedUpTo(f: Feed, upTo: nat) {
    forall n: nat :: f.seen < n < upTo ==> n in f.missed
  }

  lemma JumpIsSkip(f: FanIn, upTo: nat)
    requires f.feed.seen <= f.lastSent < upTo && MissedUpTo(f.feed, upTo)
    ensures SkipsMissed(f, upTo) <==> upTo != f.lastSent + 1
  {
    if upTo != f.lastSent + 1 {
      assert f.lastSent + 1 in f.feed.missed;
    }
  }

  lemma ReadLineSent(s: State)
    requires Inv(s) && Enabled(s, ReadLine)
    ensures SentInv(s.log, Step(s, ReadLine).fan)
  {
    ReadSent(s.log, s.fan, PublishedCount(s));
  }

  lemma ReadSent(log: seq<Entry>, f: FanIn, pub: nat)
    requires Numbered(log) && pub <= |log| && SentInv(log, f) && f.feed.seen <= f.lastSent
    requires f.lastSent == 0 ==> f.base == 0
    requires f.feed.queue == Unmissed(log, f.feed.seen, pub, f.feed.missed) != []
    ensures SentInv(log, ReadLineStep(f))
  {
    UnmissedHead(log, f.feed.seen, pub, f.feed.missed);
    var e := f.feed.queue[0];
    if e.seqNo > f.lastSent {
      ReadNewer(log, f, e);
    }
  }

  lemma ReadNewer(log: seq<Entry>, f: FanIn, e: Entry)
    requires SentInv(log, f) && f.feed.seen <= f.lastSent && (f.lastSent == 0 ==> f.base == 0)
    requires f.lastSent < e.seqNo <= |log| && e == log[e.seqNo - 1] && MissedUpTo(f.feed, e.seqNo)
    ensures SentInv(log, Deliver(f, e).(clean := f.clean && !SkipsMissed(f, e.seqNo)))
  {
    JumpIsSkip(f, e.seqNo);
    if f.clean && f.sent != [] { LastOwed(f); }
    DeliverSent(log, f, e, f.clean && !SkipsMissed(f, e.seqNo));
  }

  lemma {:induction false} SentStep(s: State, a: Action)
    requires Inv(s)
    ensures SentInv(Step(s, a).log, Step(s, a).fan)
  {
    if Enabled(s, a) {
      if a.SendBacklog? {
        SendBacklogSent(s);
      } else if a.ReadLine? {
        ReadLineSent(s);
      } else {
        SentFrame(s, a);
      }
    }
  }

  lemma SentFrame(s: State, a: Action)
    requires SentInv(s.log, s.fan) && Enabled(s, a) && !a.SendBacklog? && !a.ReadLine?
    ensures SentInv(Step(s, a).log, Step(s, a).fan)
  {
    if !OfFan(a) {
      LoopFrame(s, a);
      SentExtends(s.log, Step(s, a).log, s.fan, Step(s, a).fan);
    } else if !a.Attach? && !a.Detach? {
      FanFrame(s, a);
      assert s.log[..|s.log|] == s.log;
      SentExtends(s.log, s.log, s.fan, FanStep(s, a));
    }
  }

  /** A longer log, and a base moved before anything was sent, change nothing. */
  lemma SentExtends(log: seq<Entry>, log': seq<Entry>, f: FanIn, g: FanIn)
    requires SentInv(log, f) && |log| <= |log'| && log'[..|log|] == log
    requires g.sent == f.sent && g.from == f.from && g.lastSent == f.lastSent && g.clean == f.clean
    requires g.base == f.base || f.lastSent == 0
    ensures SentInv(log', g)
  {
    if f.sent != [] {
      assert f.lastSent != 0;
    }
    forall i | 0 <= i < |f.sent|
      ensures f.sent[i].seqNo <= |log'| && f.sent[i] == log'[f.sent[i].seqNo - 1]
    {
      var k := f.sent[i].seqNo - 1;
      assert log[k] == log'[..|log|][k];
    }
  }

  lemma StepInv(s: State, a: Action)
    requires Inv(s)
    ensures Inv(Step(s, a))
  {
    LogStep(s, a);
    FeedStep(s, a);
    PhaseStep(s, a);
    SentStep(s, a);
  }

  lemma {:induction false} RunInv(s: State, actions: seq<Action>)
    requires Inv(s)
    ensures Inv(Run(s, actions))
    decreases |actions|
  {
    if actions != [] {
      StepInv(s, actions[0]);
      RunInv(Step(s, actions[0]), actions[1..]);
    }
  }
}

/** Line delivery from the keeper to an attached brain, as a step machine
    (internal/keeper/keeper.go readLoop/SubscribeLines/publishLine/AckSeq/Close and
    internal/keeper/listener.go fanInNetwork/catchUpFromRing). Every mutex section of the
    original is one action, so a run is any interleaving of the read loop, the fan-in
    goroutine, acks, closes and other sessions' subscriptions. */
module Delivery {
  import opened Ring

  /** Where readLoop stands between two mutex sections. */
  datatype ReadLoop =
    | Down                                 // no read loop running
    | Reading                              // blocked in ReadLine
    | Pushed(entry: Entry, evicted: bool)  // ring.push done, publishLine not yet
    | Published(evicted: bool)             // publishLine done, hasLineSubscribers not yet
    | Overflowing                          // decided to self-close, cleanup not yet

  /** One SubscribeLines feed. `seen` and `missed` are history: the number of the last line
      taken off the feed (or published before it existed) and the lines it had no room for. */
  datatype Feed = Feed(queue: seq<Entry>, overflow: bool, seen: nat, missed: set<nat>)

  datatype Phase = Detached | Chosen | Starting | Replaying | Live | Killed

  /** One fanInNetwork goroutine. `sent`, `base` and `clean` are history: what was queued
      for the brain, the number just before the first line owed to it, and whether no live
      read has yet skipped a line its feed had dropped. */
  datatype FanIn = FanIn(phase: Phase, from: nat, lastSent: nat, feed: Feed, oldFeed: bool,
                         backlog: seq<Entry>, sent: seq<Entry>, base: nat, clean: bool)

  datatype State = State(cap: nat, depth: nat, log: seq<Entry>, loop: ReadLoop, current: bool,
                         epoch: nat, delivered: nat, others: nat, fan: FanIn)

  datatype Action =
    | Dial | Close | ReadFails | Push(line: string, time: int) | Publish | CheckSubscribers | Cleanup
    | Ack(n: nat) | OtherJoins | OtherLeaves
    | Attach(from: nat) | Subscribe | CatchUp | SendBacklog | ReadLine | Resubscribe | DropOldFeed | Detach

  const NO_FEED := Feed([], false, 0, {})

  function Idle(): FanIn {
    FanIn(Detached, 0, 0, NO_FEED, false, [], [], 0, true)
  }

  function Init(cap: nat, depth: nat): State {
    State(cap, depth, [], Down, false, 0, 0, 0, Idle())
  }

  predicate Subscribed(f: FanIn) {
    f.phase.Starting? || f.phase.Replaying? || f.phase.Live?
  }

  function Subscribers(s: State): nat {
    s.others + (if Subscribed(s.fan) then 1 else 0) + (if s.fan.oldFeed then 1 else 0)
  }

  /** Lines already offered to every feed. */
  function PublishedCount(s: State): nat {
    if s.loop.Pushed? && |s.log| > 0 then |s.log| - 1 else |s.log|
  }

  function Offer(f: Feed, e: Entry, depth: nat): Feed {
    if |f.queue| < depth then f.(queue := f.queue + [e])
    else f.(overflow := true, missed := f.missed + {e.seqNo})
  }

  /** A line the feed dropped lies strictly between the last line sent and `upTo`. */
  predicate SkipsMissed(f: FanIn, upTo: nat) {
    exists n :: f.lastSent < n < upTo && n in f.feed.missed
  }

  function Deliver(f: FanIn, e: Entry): FanIn {
    f.(sent := f.sent + [e], lastSent := e.seqNo)
  }

  /** Enabledness: which actions the code could take from `s`. */
  predicate Enabled(s: State, a: Action) {
    match a
    case Dial => s.loop.Down? && !s.current
    case Close => s.current
    case ReadFails => s.loop.Reading?
    case Push(_, _) => s.loop.Reading?
    case Publish => s.loop.Pushed?
    case CheckSubscribers => s.loop.Published?
    case Cleanup => s.loop.Overflowing?
    case Ack(_) => true
    case OtherJoins => true
    case OtherLeaves => s.others > 0
    case Attach(_) => s.fan.phase.Detached? || s.fan.phase.Killed?
    case Subscribe => s.fan.phase.Chosen?
    case CatchUp => s.fan.phase.Starting?
    case SendBacklog => s.fan.phase.Replaying? && s.fan.backlog != []
    case ReadLine => s.fan.phase.Live? && s.fan.feed.queue != []
    case Resubscribe => s.fan.phase.Live? && s.fan.feed.overflow && !s.fan.oldFeed
    case DropOldFeed => s.fan.oldFeed
    case Detach => true
  }

  /** The actions of the fan-in goroutine; the others are the read loop's, the watermark's and other
      sessions'. */
  predicate OfFan(a: Action) {
    a.Attach? || a.Subscribe? || a.CatchUp? || a.SendBacklog? || a.ReadLine?
    || a.Resubscribe? || a.DropOldFeed? || a.Detach?
  }

  function Step(s: State, a: Action): State {
    if !Enabled(s, a) then s
    else if OfFan(a) then s.(fan := FanStep(s, a))
    else LoopStep(s, a)
  }

  function LoopStep(s: State, a: Action): State
    requires Enabled(s, a) && !OfFan(a)
  {
    match a
    case Dial => s.(loop := Reading, current := true, epoch := s.epoch + 1)
    case Close => s.(current := false)
    case ReadFails => s.(loop := Down, current := false)
    case Push(line, time) => PushStep(s, line, time)
    case Publish => s.(loop := Published(s.loop.evicted),
                       fan := if Subscribed(s.fan) then s.fan.(feed := Offer(s.fan.feed, s.loop.entry, s.depth))
                              else s.fan)
    case CheckSubscribers => s.(loop := if s.loop.evicted && Subscribers(s) == 0 then Overflowing else Reading)
    case Cleanup => s.(loop := Down, current := false, delivered := if s.current then 0 else s.delivered)
    case Ack(n) => s.(delivered := if n > s.delivered then n else s.delivered)
    case OtherJoins => s.(others := s.others + 1)
    case OtherLeaves => s.(others := s.others - 1)
  }

  function FanStep(s: State, a: Action): FanIn
    requires Enabled(s, a) && OfFan(a)
  {
    var f := s.fan;
    match a
    case Attach(from) => Idle().(phase := Chosen, from := from, lastSent := from, base := from)
    case Subscribe => f.(phase := Starting, feed := NO_FEED.(seen := PublishedCount(s)))
    case CatchUp => CatchUpStep(f, Retained(s.log, s.cap), Evicted(|s.log|, s.cap))
    case SendBacklog => SendBacklogStep(f)
    case ReadLine => ReadLineStep(f)
    case Resubscribe => f.(phase := Starting, oldFeed := true, feed := NO_FEED.(seen := PublishedCount(s)))
    case DropOldFeed => f.(oldFeed := false)
    case Detach => Idle()
  }

  function PushStep(s: State, line: string, time: int): State {
    var e := Entry(|s.log| + 1, s.epoch, line, time);
    s.(log := s.log + [e],
       loop := Pushed(e, Evicted(|s.log| + 1, s.cap) > Evicted(|s.log|, s.cap)))
  }

  function CatchUpStep(f: FanIn, retained: seq<Entry>, evicted: nat): FanIn {
    if Gap(retained, f.lastSent) then f.(phase := Killed, oldFeed := false)
    else
      var backlog := Above(retained, f.lastSent);
      f.(backlog := backlog, phase := if backlog == [] then Live else Replaying,
         base := if f.lastSent == 0 then evicted else f.base)
  }

  function SendBacklogStep(f: FanIn): FanIn
    requires f.backlog != []
  {
    Deliver(f, f.backlog[0]).(backlog := f.backlog[1..], phase := if |f.backlog| == 1 then Live else Replaying)
  }

  function ReadLineStep(f: FanIn): FanIn
    requires f.feed.queue != []
  {
    var e := f.feed.queue[0];
    var g := f.(feed := f.feed.(queue := f.feed.queue[1..], seen := e.seqNo));
    if e.seqNo <= f.lastSent then g
    else Deliver(g, e).(clean := f.clean && !SkipsMissed(f, e.seqNo))
  }

  function Run(s: State, actions: seq<Action>): State
    decreases |actions|
  {
    if actions == [] then s else Run(Step(s, actions[0]), actions[1..])
  }
}

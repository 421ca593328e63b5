/** What the lines sent to a brain are (internal/keeper/keeper.go readLoop, AckSeq;
    internal/keeper/listener.go): the very lines the read loop took off the uplink, each numbered by how
    many came before it and stamped with the connection it came in on. */
module DeliveryLog {
  import opened Ring
  import opened Delivery
  import opened DeliveryInvariant
  import DeliveryRuns

  /** A line taken off the uplink, and on which dial. */
  datatype Taken = Taken(line: string, time: int, dial: nat)

  /** A connection is made when there is none and no read loop is left over from the last. */
  predicate Dials(s: State, a: Action) {
    a == Dial && s.loop == Down && !s.current
  }

  /** What the read loop takes off the uplink in a run: the lines of its Push actions, in order. Pushes
      while it is not waiting for a line do not happen. */
  function LinesTaken(s: State, actions: seq<Action>, dial: nat): seq<Taken>
    decreases |actions|
  {
    if actions == [] then []
    else
      var a := actions[0];
      (if a.Push? && s.loop == Reading then [Taken(a.line, a.time, dial)] else [])
      + LinesTaken(Step(s, a), actions[1..], if Dials(s, a) then dial + 1 else dial)
  }

  function Stamped(taken: seq<Taken>, first: nat): (es: seq<Entry>)
    ensures |es| == |taken|
  {
    seq(|taken|, i requires 0 <= i < |taken| => Entry(first + i, taken[i].dial, taken[i].line, taken[i].time))
  }

  lemma LogStep(s: State, a: Action)
    ensures Step(s, a).log == s.log +
            if a.Push? && s.loop == Reading then [Entry(|s.log| + 1, s.epoch, a.line, a.time)] else []
    ensures Step(s, a).epoch == if Dials(s, a) then s.epoch + 1 else s.epoch
  {
    if Enabled(s, a) && !OfFan(a) {
      LoopLog(s, a);
    }
  }

  lemma LoopLog(s: State, a: Action)
    requires Enabled(s, a) && !OfFan(a)
    ensures LoopStep(s, a).log == s.log + if a.Push? then [Entry(|s.log| + 1, s.epoch, a.line, a.time)] else []
    ensures LoopStep(s, a).epoch == if a == Dial then s.epoch + 1 else s.epoch
  {
    assert s.log + [] == s.log;
  }

  lemma StampedAppend(log: seq<Entry>, taken: seq<Taken>, rest: seq<Taken>)
    requires |taken| <= 1
    ensures log + Stamped(taken, |log| + 1) + Stamped(rest, |log| + |taken| + 1)
         == log + Stamped(taken + rest, |log| + 1)
  {
  }

  /** The log of a run is what has been taken off the uplink, nothing added, dropped or moved. */
  lemma {:induction false} LogExact(s: State, actions: seq<Action>)
    ensures Run(s, actions).log == s.log + Stamped(LinesTaken(s, actions, s.epoch), |s.log| + 1)
    decreases |actions|
  {
    if actions == [] {
      assert s.log + [] == s.log;
    } else {
      var a, t := actions[0], Step(s, actions[0]);
      LogStep(s, a);
      LogExact(t, actions[1..]);
      var taken := if a.Push? && s.loop == Reading then [Taken(a.line, a.time, s.epoch)] else [];
      StampedAppend(s.log, taken, LinesTaken(t, actions[1..], t.epoch));
      assert t.log == s.log + Stamped(taken, |s.log| + 1);
    }
  }

  /** Every line sent to the brain, whatever the interleaving, is the line its number says: the one taken
      off the uplink with that many before it, with its time and its connection. */
  lemma SentExact(cap: nat, depth: nat, actions: seq<Action>)
    requires cap > 0
    ensures var s := Run(Init(cap, depth), actions);
            var taken := LinesTaken(Init(cap, depth), actions, 0);
            && |s.log| == |taken|
            && forall e :: e in s.fan.sent ==>
                 && s.fan.from < e.seqNo <= |taken|
                 && e.line == taken[e.seqNo - 1].line && e.time == taken[e.seqNo - 1].time
                 && e.epoch == taken[e.seqNo - 1].dial
  {
    LogExact(Init(cap, depth), actions);
    DeliveryRuns.FanInOrder(cap, depth, actions);
  }

  /** So with overflows serviced in time the texts sent are a contiguous part of the texts taken. */
  lemma TextsSent(cap: nat, depth: nat, actions: seq<Action>, i: nat)
    requires cap > 0 && DeliveryRuns.PromptRun(Init(cap, depth), actions)
    requires i < |Run(Init(cap, depth), actions).fan.sent|
    ensures var f := Run(Init(cap, depth), actions).fan;
            var taken := LinesTaken(Init(cap, depth), actions, 0);
            f.base + i < |taken| && f.sent[i].line == taken[f.base + i].line
  {
    SentExact(cap, depth, actions);
    DeliveryRuns.FanInOrder(cap, depth, actions);
    DeliveryRuns.PromptKeepsClean(Init(cap, depth), actions);
    var f := Run(Init(cap, depth), actions).fan;
    assert f.sent[i] in f.sent;
  }

  /** An acknowledgement only ever raises the watermark, to the number acknowledged; the self-close of a
      current connection clears it, and nothing else touches it. */
  lemma WatermarkStep(s: State, a: Action)
    ensures Step(s, a).delivered
         == if a.Ack? then (if a.n > s.delivered then a.n else s.delivered)
            else if a == Cleanup && s.loop == Overflowing && s.current then 0 else s.delivered
  {
    if Enabled(s, a) && !OfFan(a) && !a.Ack? {
      LoopWatermark(s, a);
    }
  }

  lemma LoopWatermark(s: State, a: Action)
    requires Enabled(s, a) && !OfFan(a) && !a.Ack?
    ensures LoopStep(s, a).delivered == if a == Cleanup && s.current then 0 else s.delivered
  {
  }
}

/** The router of the request tracker (internal/session/tracker.go: routeLocked, routeModeLocked,
    findModeWaiters, popAllModeTarget, singleStatsPending, whoxByMask, serialHeadFor), as the loops
    it is made of. Every numeric finds a branch, so the Route step of module Tracker is never stuck.
    `t` is the state the tables belong to. */
module TrackerRoute {
  import opened Common
  import opened TrackerQueue
  import opened Tracker

  // ---------------------------------------------------------------- MODE

  predicate IsMode(qs: Queues, k: Key, target: string, letter: string) {
    k in qs && qs[k] != [] && k.Mode? && k.target == target
    && (letter == "" || (|letter| == 1 && letter[0] in k.letters))
  }

  /** The oldest MODE exchange of a target, or of a target and letter; a tie goes to whichever the
      range meets first. */
  method OldestModeKey(qs: Queues, target: string, letter: string, ghost t: State) returns (best: Option<Key>)
    requires t.queues == qs
    ensures best.Some? ==> OldestMode(t, best.value, target, letter)
    ensures best.None? ==> forall k :: !ModeOf(t, k, target, letter)
  {
    best := None;
    var todo := qs.Keys;
    while todo != {}
      invariant todo <= qs.Keys
      invariant best.Some? ==> ModeOf(t, best.value, target, letter)
      invariant best.Some? ==>
        forall k :: ModeOf(t, k, target, letter) && k !in todo ==> qs[best.value][0].created <= qs[k][0].created
      invariant best.None? ==> forall k :: ModeOf(t, k, target, letter) ==> k in todo
      decreases |todo|
    {
      var k :| k in todo;
      todo := todo - {k};
      if IsMode(qs, k, target, letter) && (best.None? || qs[k][0].created < qs[best.value][0].created) {
        best := Some(k);
      }
    }
  }

  method FindMode(qs: Queues, target: string, letter: string, ghost t: State) returns (found: Option<Key>)
    requires t.queues == qs
    ensures found.Some? ==> FoundMode(t, found.value, target, letter)
    ensures found.None? ==> forall k :: !ModeOf(t, k, target, "")
  {
    var exact := Mode(target, letter);
    if exact in qs && qs[exact] != [] {
      return Some(exact);
    }
    if letter != "" {
      found := OldestModeKey(qs, target, letter, t);
      if found.Some? {
        return;
      }
    }
    found := OldestModeKey(qs, target, "", t);
  }

  predicate Takes(qs: Queues, k: Key, command: string) {
    k in qs && qs[k] != [] && (qs[k][0].replies == {} || command in qs[k][0].replies)
  }

  /** popAllModeTarget's scan: every MODE exchange of the target that accepts the error. */
  method ErrorModes(qs: Queues, target: string, command: string, ghost t: State) returns (keys: seq<Key>)
    requires t.queues == qs
    ensures AllModes(t, keys, target, command)
  {
    keys := [];
    var todo := qs.Keys;
    while todo != {}
      invariant todo <= qs.Keys
      invariant forall k :: k in keys <==> ModeOf(t, k, target, "") && Accepts(t, k, command) && k !in todo
      invariant forall i, j :: 0 <= i < j < |keys| ==> keys[i] != keys[j]
      decreases |todo|
    {
      var k :| k in todo;
      todo := todo - {k};
      if IsMode(qs, k, target, "") && Takes(qs, k, command) {
        assert forall i :: 0 <= i < |keys| ==> keys[i] in keys;
        keys := keys + [k];
      }
    }
  }

  /** routeModeLocked; None lets the later branches look. */
  method ChooseMode(qs: Queues, n: Numeric, ghost t: State) returns (e: Option<Effect>)
    requires t.queues == qs
    ensures e.Some? ==> SelectsMode(t, n, e.value)
    ensures e.None? ==> ModePasses(t, n)
  {
    var target := ModeTarget(n);
    if target == "" {
      return None;
    }
    if IsModeError(n.command) {
      var keys := ErrorModes(qs, target, n.command, t);
      if keys != [] {
        return Some(ToModes(keys));
      }
      return None;
    }
    var letter := ModeLetter(n.command);
    if letter.None? {
      return None;
    }
    var k := FindMode(qs, target, letter.value, t);
    if k.Some? && Takes(qs, k.value, n.command) {
      return Some(ToQueue(k.value, n.command in qs[k.value][0].ends));
    }
    return None;
  }

  // ---------------------------------------------------------------- STATS, WHOX, serial

  /** The STATS exchange whose head was sent to this server. */
  method FindStatsVia(qs: Queues, server: string, ghost t: State) returns (found: Option<Key>)
    requires t.queues == qs
    ensures found.Some? ==> StatsVia(t, found.value, server)
    ensures found.None? ==> forall k :: !StatsVia(t, k, server)
  {
    var todo := qs.Keys;
    while todo != {}
      invariant todo <= qs.Keys && forall k :: StatsVia(t, k, server) ==> k in todo
      decreases |todo|
    {
      var k :| k in todo;
      if k.Stats? && qs[k] != [] && qs[k][0].remote != "" && qs[k][0].remote == server {
        return Some(k);
      }
      todo := todo - {k};
    }
    return None;
  }

  /** singleStatsPending: the STATS exchange, if it is the only one. */
  method FindOnlyStats(qs: Queues, ghost t: State) returns (found: Option<Key>)
    requires t.queues == qs
    ensures found.Some? ==> OnlyStats(t, found.value)
    ensures found.None? ==> forall k :: !OnlyStats(t, k)
  {
    found := None;
    var todo := qs.Keys;
    while todo != {}
      invariant todo <= qs.Keys
      invariant found.None? ==> forall k: Key :: k.Stats? && Busy(t, k) ==> k in todo
      invariant found.Some? ==> found.value.Stats? && Busy(t, found.value)
      invariant found.Some? ==> forall k: Key :: k.Stats? && Busy(t, k) && k !in todo ==> k == found.value
      decreases |todo|
    {
      var k :| k in todo;
      todo := todo - {k};
      if k.Stats? && qs[k] != [] {
        if found.Some? && found.value != k {
          assert Busy(t, k) && Busy(t, found.value);
          return None;
        }
        found := Some(k);
      }
    }
  }

  /** whoxByMask over a set of masks: the oldest exchange that asked for one of them. */
  method OldestWhoxToken(whox: map<string, Request>, masks: set<string>, ghost t: State) returns (best: Option<string>)
    requires t.whox == whox
    ensures best.Some? ==> OldestWhox(t, best.value, masks)
    ensures best.None? ==> forall tok :: tok in whox ==> whox[tok].target !in masks
  {
    best := None;
    var todo := whox.Keys;
    while todo != {}
      invariant todo <= whox.Keys
      invariant best.Some? ==> best.value in whox && whox[best.value].target in masks
      invariant best.Some? ==>
        forall k :: k in whox && whox[k].target in masks && k !in todo ==> whox[best.value].created <= whox[k].created
      invariant best.None? ==> forall k :: k in whox && whox[k].target in masks ==> k in todo
      decreases |todo|
    {
      var k :| k in todo;
      todo := todo - {k};
      if whox[k].target in masks && (best.None? || whox[k].created < whox[best.value].created) {
        best := Some(k);
      }
    }
  }

  predicate Answers(qs: Queues, kind: string, command: string) {
    Serial(kind) in qs && qs[Serial(kind)] != [] &&
    (command in qs[Serial(kind)][0].replies || (qs[Serial(kind)][0].replies == {} && IsLikelyReply(command)))
  }

  /** serialHeadFor: the first kind, in a fixed order, whose head knows the numeric. */
  method FindSerial(qs: Queues, command: string, ghost t: State) returns (kind: Option<string>)
    requires t.queues == qs
    ensures kind == SerialFor(t, SERIAL_ORDER, command)
  {
    var order := SERIAL_ORDER;
    for i := 0 to |order|
      invariant SerialFor(t, order, command) == SerialFor(t, order[i..], command)
    {
      assert order[i..][0] == order[i] && order[i..][1..] == order[i + 1..];
      if Answers(qs, order[i], command) {
        return Some(order[i]);
      }
    }
    return None;
  }

  method ChooseSerial(qs: Queues, n: Numeric, ghost t: State) returns (e: Effect)
    requires t.queues == qs
    ensures match SerialFor(t, SERIAL_ORDER, n.command)
            case Some(kind) => e == ToQueue(Serial(kind), Ends(t, Serial(kind), n.command))
            case None => e == ToNobody
  {
    var kind := FindSerial(qs, n.command, t);
    if kind.Some? {
      return ToQueue(Serial(kind.value), n.command in qs[Serial(kind.value)][0].ends);
    }
    return ToNobody;
  }

  method ChooseWhox(qs: Queues, whox: map<string, Request>, quirky: bool, n: Numeric, ghost t: State)
      returns (e: Effect)
    requires t.queues == qs && t.whox == whox && t.quirky == quirky
    ensures SelectsWhox(t, n, e)
  {
    var mask := ParamAt(n.folded, 1);
    var all := set tok | tok in whox :: whox[tok].target;
    if n.command == "354" && |n.params| > 1 && n.params[1] in whox {
      return ToWhox(n.params[1], false);
    }
    if n.command == "354" && |n.params| > 1 && n.params[1] != "0" {
      return ToNobody;
    }
    if n.command == "315" && mask != "" {
      var tok := OldestWhoxToken(whox, {mask}, t);
      if tok.Some? {
        return ToWhox(tok.value, true);
      }
    }
    if n.command == "315" && quirky {
      var tok := OldestWhoxToken(whox, all, t);
      if tok.Some? {
        return ToWhox(tok.value, true);
      }
    }
    if n.command == "354" && quirky && |whox| == 1 {
      var tok :| tok in whox by { SomeKey(whox); }
      return ToWhox(tok, false);
    }
    e := ChooseSerial(qs, n, t);
  }

  lemma SomeKey(m: map<string, Request>)
    requires |m| == 1
    ensures exists k :: k in m
  {
    assert |m.Keys| == 1;
    var k :| k in m.Keys;
  }

  method ChooseStats(qs: Queues, whox: map<string, Request>, quirky: bool, n: Numeric, ghost t: State)
      returns (e: Effect)
    requires t.queues == qs && t.whox == whox && t.quirky == quirky
    ensures SelectsStats(t, n, e)
  {
    if n.command == "402" && |n.lowered| > 1 {
      var k := FindStatsVia(qs, n.lowered[1], t);
      if k.Some? {
        return ToQueue(k.value, true);
      }
    }
    if n.command == "219" && |n.lowered| > 1 && Stats(n.lowered[1]) in qs && qs[Stats(n.lowered[1])] != [] {
      return ToQueue(Stats(n.lowered[1]), true);
    }
    if IsStatsNumeric(n.command) && n.command != "219" {
      var k := FindOnlyStats(qs, t);
      if k.Some? {
        return ToQueue(k.value, false);
      }
    }
    e := ChooseWhox(qs, whox, quirky, n, t);
  }

  // ---------------------------------------------------------------- the branches in order

  method ChooseKeyed(qs: Queues, whox: map<string, Request>, quirky: bool, n: Numeric, ghost t: State)
      returns (e: Effect)
    requires t.queues == qs && t.whox == whox && t.quirky == quirky
    ensures SelectsKeyed(t, n, e)
  {
    var topic, names := Topic(TopicTarget(n)), Names(NamesTarget(n));
    if TopicTarget(n) != "" && Takes(qs, topic, n.command) {
      return ToQueue(topic, n.command in qs[topic][0].ends);
    }
    if NamesTarget(n) != "" && Takes(qs, names, n.command) {
      return ToQueue(names, n.command in qs[names][0].ends);
    }
    if n.whoisReply && |n.folded| > 1 {
      var whois := Whois(n.folded[1]);
      if whois in qs && qs[whois] != [] {
        return ToQueue(whois, n.command in qs[whois][0].ends);
      }
    }
    e := ChooseStats(qs, whox, quirky, n, t);
  }

  /** routeLocked: which exchange a numeric belongs to. */
  method Choose(qs: Queues, labeled: map<string, Request>, whox: map<string, Request>, sticky: map<string, Sticky>,
      quirky: bool, n: Numeric, ghost t: State) returns (e: Effect)
    requires t.queues == qs && t.labeled == labeled && t.whox == whox && t.sticky == sticky && t.quirky == quirky
    ensures Selects(t, n, e)
  {
    if n.tagLabel != "" && n.tagLabel in labeled {
      return ToLabel(n.tagLabel);
    }
    if n.command == "329" && |n.folded| > 1 && n.folded[1] in sticky {
      return ToSticky(n.folded[1]);
    }
    var mode := ChooseMode(qs, n, t);
    if mode.Some? {
      return mode.value;
    }
    e := ChooseKeyed(qs, whox, quirky, n, t);
  }
}

/** Who gets what the server sends (internal/session/tracker.go:552-760): the lines of each reply, described
    by where their parameters name the enquiry, reach exactly the clients waiting for it; the last one
    ends its exchange and lets the next be written, and the others change nothing. `t` is the state
    after the expiry sweep a routed line begins with. */
module TrackerReplies {
  import opened Common
  import opened TrackerQueue
  import opened Tracker

  // ---------------------------------------------------------------- an answer

  /** The parameters a reply names its enquiry by: present, and as the casemapping folds it. */
  predicate Names2(n: Numeric, i: nat, what: string) {
    i < |n.folded| && n.folded[i] == what && what != ""
  }

  /** No labelled exchange takes it. */
  predicate Unlabeled(t: State, n: Numeric) {
    n.tagLabel == "" || n.tagLabel !in t.labeled
  }

  predicate Pending(t: State, k: Key) {
    k in t.queues && |t.queues[k]| > 0
  }

  function Head(t: State, k: Key): Request
    requires Pending(t, k)
  {
    t.queues[k][0]
  }

  /** The exchange in flight takes this numeric, or any where nothing is known of its replies. */
  predicate Takes(t: State, k: Key, command: string) {
    Pending(t, k) && (Head(t, k).replies == {} || command in Head(t, k).replies)
  }

  /** Everyone who waits for it, the first asker first. */
  function Askers(r: Request): seq<Waiter> {
    [r.owner] + r.extra
  }

  /** The exchange at the head of `k` is over; the one behind it, if any, is in flight, and its line goes
      out if it was held. Nothing else changes. */
  ghost predicate Answered(t: State, u: State, k: Key) {
    && Pending(t, k) && u.labeled == t.labeled && u.whox == t.whox
    && (var q := t.queues[k];
        && (|q| == 1 ==> k !in u.queues)
        && (|q| > 1 ==> k in u.queues && u.queues[k] == [q[1].(hold := false)] + q[2..])
        && u.ready == t.ready
             + (if |q| > 1 && q[1].hold && !Blank(q[1].outbound) then [Out(q[1].id, q[1].outbound)] else []))
    && forall o :: o != k ==> (o in t.queues <==> o in u.queues) && (o in t.queues ==> u.queues[o] == t.queues[o])
  }

  /** The line reaches the askers of the exchange in flight under `k`, and ends it or not. */
  ghost predicate Reaches(t: State, n: Numeric, e: Effect, now: int, k: Key, last: bool) {
    && Pending(t, k) && EffectOk(t, e)
    && Dests(t, e) == Askers(Head(t, k))
    && (if last then Answered(t, Deliver(t, n, e, now), k) else Deliver(t, n, e, now) == t)
  }

  lemma PopAnswers(t: State, n: Numeric, k: Key, now: int)
    requires Pending(t, k)
    ensures Reaches(t, n, ToQueue(k, true), now, k, true)
  {
    var q, u := t.queues[k], Deliver(t, n, ToQueue(k, true), now);
    if |q| > 1 {
      assert q[1..][0] == q[1] && q[1..][1..] == q[2..];
    }
    assert u.queues == PopAt(t.queues, k);
  }

  lemma StayAnswers(t: State, n: Numeric, k: Key, now: int)
    requires Pending(t, k)
    ensures Reaches(t, n, ToQueue(k, false), now, k, false)
  {
  }

  lemma QueueAnswers(t: State, n: Numeric, k: Key, now: int)
    requires Takes(t, k, n.command)
    ensures Reaches(t, n, ToQueue(k, Ends(t, k, n.command)), now, k, n.command in Head(t, k).ends)
  {
    PopAnswers(t, n, k, now);
    StayAnswers(t, n, k, now);
  }

  // ---------------------------------------------------------------- NAMES: 353 and 366

  /** `353 me = #chan :names` and `366 me #chan :end`. */
  predicate NamesReply(n: Numeric, channel: string) {
    (n.command == "353" && Names2(n, 2, channel)) || (n.command == "366" && Names2(n, 1, channel))
  }

  lemma NamesWords(n: Numeric, channel: string)
    requires NamesReply(n, channel)
    ensures ModeTarget(n) == "" && TopicTarget(n) == "" && NamesTarget(n) == channel && n.command != "329"
  {
  }

  lemma NamesRouted(t: State, n: Numeric, e: Effect, now: int, channel: string)
    requires Selects(t, n, e) && Unlabeled(t, n) && NamesReply(n, channel) && Takes(t, Names(channel), n.command)
    ensures Reaches(t, n, e, now, Names(channel), n.command in Head(t, Names(channel)).ends)
  {
    NamesWords(n, channel);
    QueueAnswers(t, n, Names(channel), now);
  }

  // ---------------------------------------------------------------- TOPIC: 331, 332 and 333

  /** `332 me #chan :topic`, `331 me #chan :none` and `333 me #chan who when`. */
  predicate TopicReply(n: Numeric, channel: string) {
    (n.command == "331" || n.command == "332" || n.command == "333") && Names2(n, 1, channel)
  }

  lemma TopicWords(n: Numeric, channel: string)
    requires TopicReply(n, channel)
    ensures ModeTarget(n) == "" && TopicTarget(n) == channel && n.command != "329"
  {
  }

  lemma TopicRouted(t: State, n: Numeric, e: Effect, now: int, channel: string)
    requires Selects(t, n, e) && Unlabeled(t, n) && TopicReply(n, channel) && Takes(t, Topic(channel), n.command)
    ensures Reaches(t, n, e, now, Topic(channel), n.command in Head(t, Topic(channel)).ends)
  {
    TopicWords(n, channel);
    QueueAnswers(t, n, Topic(channel), now);
  }

  // ---------------------------------------------------------------- MODE

  /** `324 me target modes`, `329 me target when` and `221 me modes`; the lists name their letter by the
      numeric. */
  predicate ModeReply(n: Numeric, target: string, letter: string) {
    var c := n.command;
    if letter == "" then (c == "221" && Names2(n, 0, target)) || ((c == "324" || c == "329") && Names2(n, 1, target))
    else Names2(n, 1, target) && (|| (letter == "b" && (c == "367" || c == "368"))
                                  || (letter == "e" && (c == "348" || c == "349"))
                                  || (letter == "I" && (c == "346" || c == "347"))
                                  || (letter == "q" && (c == "728" || c == "729")))
  }

  lemma ModeWords(n: Numeric, target: string, letter: string)
    requires ModeReply(n, target, letter)
    ensures ModeTarget(n) == target && ModeLetter(n.command) == Some(letter) && !IsModeError(n.command)
    ensures TopicTarget(n) == "" && NamesTarget(n) == ""
  {
  }

  /** A pending MODE enquiry on this target, for this letter if one is given. */
  predicate ModeAsked(t: State, k: Key, target: string, letter: string) {
    k.Mode? && k.target == target && Pending(t, k) && (letter == "" || (|letter| == 1 && letter[0] in k.letters))
  }

  ghost predicate Oldest(t: State, k: Key, target: string, letter: string) {
    && ModeAsked(t, k, target, letter)
    && forall o :: ModeAsked(t, o, target, letter) ==> Head(t, k).created <= Head(t, o).created
  }

  /** Whose reply it is: of the enquiry for just this letter; else of the oldest that has the letter among
      others; else of the oldest on the target. */
  ghost predicate ModeOwner(t: State, k: Key, target: string, letter: string) {
    if Pending(t, Mode(target, letter)) then k == Mode(target, letter)
    else if letter != "" && exists o :: ModeAsked(t, o, target, letter) then Oldest(t, k, target, letter)
    else Oldest(t, k, target, "")
  }

  lemma SameOldest(t: State, k: Key, target: string, letter: string)
    ensures Oldest(t, k, target, letter) <==> OldestMode(t, k, target, letter)
    ensures (exists o :: ModeAsked(t, o, target, letter)) <==> (exists o :: ModeOf(t, o, target, letter))
  {
    forall o: Key ensures ModeAsked(t, o, target, letter) <==> ModeOf(t, o, target, letter) {
    }
  }

  lemma OwnerFound(t: State, k: Key, target: string, letter: string)
    ensures ModeOwner(t, k, target, letter) <==> FoundMode(t, k, target, letter)
  {
    SameOldest(t, k, target, letter);
    SameOldest(t, k, target, "");
  }

  lemma OwnerIsMode(t: State, k: Key, target: string, letter: string)
    requires ModeOwner(t, k, target, letter)
    ensures ModeOf(t, k, target, "")
  {
  }

  /** The owner of a MODE reply, where its age singles it out, gets it. */
  lemma ModeRouted(t: State, n: Numeric, e: Effect, now: int, target: string, letter: string, k: Key)
    requires Selects(t, n, e) && Unlabeled(t, n) && ModeReply(n, target, letter)
    requires n.command == "329" ==> target !in t.sticky
    requires ModeOwner(t, k, target, letter) && forall o :: ModeOwner(t, o, target, letter) ==> o == k
    requires Takes(t, k, n.command)
    ensures Reaches(t, n, e, now, k, n.command in Head(t, k).ends)
  {
    ModeWords(n, target, letter);
    forall o ensures ModeOwner(t, o, target, letter) <==> FoundMode(t, o, target, letter) {
      OwnerFound(t, o, target, letter);
    }
    OwnerIsMode(t, k, target, letter);
    assert !ModePasses(t, n);
    QueueAnswers(t, n, k, now);
  }

  /** A 324 that ends its enquiry leaves its askers to get the 329 behind it, ... */
  lemma ModeLeavesFollowUp(t: State, n: Numeric, now: int, target: string, letters: string)
    requires n.command == "324" && Takes(t, Mode(target, letters), "324") && target != ""
    requires var r := Head(t, Mode(target, letters)); "324" in r.ends && "329" in r.replies && r.cmd == "MODE"
    ensures var u := Deliver(t, n, ToQueue(Mode(target, letters), true), now);
            u.sticky == t.sticky[target := Sticky(Askers(Head(t, Mode(target, letters))), now)]
  {
  }

  /** ... which goes to them, once. */
  lemma FollowUpRouted(t: State, n: Numeric, e: Effect, now: int, target: string)
    requires Selects(t, n, e) && Unlabeled(t, n) && n.command == "329" && Names2(n, 1, target) && target in t.sticky
    ensures EffectOk(t, e) && Dests(t, e) == t.sticky[target].dests
    ensures var u := Deliver(t, n, e, now); target !in u.sticky && u == t.(sticky := u.sticky)
    ensures forall o :: o != target ==> (o in t.sticky <==> o in Deliver(t, n, e, now).sticky)
  {
  }

  // ---------------------------------------------------------------- errors that name a target

  predicate TargetError(n: Numeric, target: string) {
    && Names2(n, 1, target)
    && (|| n.command == "401" || n.command == "403" || n.command == "442"
        || n.command == "461" || n.command == "472" || n.command == "482")
  }

  lemma ErrorWords(n: Numeric, target: string)
    requires TargetError(n, target)
    ensures ModeTarget(n) == target && IsModeError(n.command) && n.command != "329"
    ensures TopicTarget(n) == if n.command == "472" || n.command == "482" then "" else target
    ensures NamesTarget(n) == if n.command == "401" || n.command == "403" then target else ""
  {
  }

  /** The MODE enquiries on this target that know the error. */
  predicate Refused(t: State, k: Key, target: string, command: string) {
    k.Mode? && k.target == target && Takes(t, k, command)
  }

  lemma {:induction false} HeadDestsExact(qs: Queues, keys: seq<Key>, w: Waiter)
    ensures w in HeadDests(qs, keys) <==> exists k :: k in keys && k in qs && |qs[k]| > 0 && w in Askers(qs[k][0])
  {
    if keys != [] {
      HeadDestsExact(qs, keys[1..], w);
      assert keys == [keys[0]] + keys[1..];
    }
  }

  /** An error for a MODE target reaches the askers of all of them, and they are over; the rest stay. */
  lemma ModeErrorRouted(t: State, n: Numeric, e: Effect, now: int, target: string, k: Key)
    requires Selects(t, n, e) && Unlabeled(t, n) && TargetError(n, target) && Refused(t, k, target, n.command)
    ensures EffectOk(t, e)
    ensures forall w :: w in Dests(t, e) <==> exists o :: Refused(t, o, target, n.command) && w in Askers(Head(t, o))
    ensures var u := Deliver(t, n, e, now);
            && u.ready == t.ready && u.labeled == t.labeled && u.whox == t.whox && u.sticky == t.sticky
            && (forall o :: o in u.queues <==> o in t.queues && !Refused(t, o, target, n.command))
            && forall o :: o in u.queues ==> u.queues[o] == t.queues[o]
  {
    ErrorWords(n, target);
    assert ModeOf(t, k, target, "") && Accepts(t, k, n.command);
    assert !ModePasses(t, n);
    assert e.ToModes? && AllModes(t, e.keys, target, n.command);
    forall o: Key ensures o in e.keys <==> Refused(t, o, target, n.command) {
      assert o in e.keys <==> ModeOf(t, o, target, "") && Accepts(t, o, n.command);
    }
    SelectsIsOk(t, n, e);
    forall w ensures w in Dests(t, e) <==> exists o :: Refused(t, o, target, n.command) && w in Askers(Head(t, o)) {
      HeadDestsExact(t.queues, e.keys, w);
    }
  }

  /** No MODE enquiry on the target knows the error. */
  ghost predicate NoneRefused(t: State, target: string, command: string) {
    forall k: Key :: !Refused(t, k, target, command)
  }

  lemma ErrorPasses(t: State, n: Numeric, e: Effect, target: string)
    requires Selects(t, n, e) && Unlabeled(t, n) && TargetError(n, target)
    requires NoneRefused(t, target, n.command)
    ensures SelectsKeyed(t, n, e)
  {
    ErrorWords(n, target);
    if SelectsMode(t, n, e) {
      assert e.keys[0] in e.keys;
      assert Refused(t, e.keys[0], target, n.command);
    }
  }

  /** With no MODE enquiry in the way, a TOPIC enquiry on the target gets the error; then NAMES. */
  lemma TopicErrorRouted(t: State, n: Numeric, e: Effect, now: int, target: string)
    requires Selects(t, n, e) && Unlabeled(t, n) && TargetError(n, target) && n.command != "472" && n.command != "482"
    requires NoneRefused(t, target, n.command)
    requires Takes(t, Topic(target), n.command)
    ensures Reaches(t, n, e, now, Topic(target), n.command in Head(t, Topic(target)).ends)
  {
    ErrorWords(n, target);
    ErrorPasses(t, n, e, target);
    QueueAnswers(t, n, Topic(target), now);
  }

  lemma NamesErrorRouted(t: State, n: Numeric, e: Effect, now: int, target: string)
    requires Selects(t, n, e) && Unlabeled(t, n) && TargetError(n, target) && (n.command == "401" || n.command == "403")
    requires NoneRefused(t, target, n.command)
    requires !Takes(t, Topic(target), n.command) && Takes(t, Names(target), n.command)
    ensures Reaches(t, n, e, now, Names(target), n.command in Head(t, Names(target)).ends)
  {
    ErrorWords(n, target);
    ErrorPasses(t, n, e, target);
    QueueAnswers(t, n, Names(target), now);
  }

  // ---------------------------------------------------------------- WHOIS

  /** The numerics that name a MODE, TOPIC or NAMES enquiry. */
  predicate NamesTargetFirst(c: string) {
    || c == "221" || c == "324" || c == "329" || c == "367" || c == "368" || c == "348" || c == "349"
    || c == "346" || c == "347" || c == "728" || c == "729" || c == "331" || c == "332" || c == "333"
    || c == "353" || c == "366" || c == "401" || c == "403" || c == "442" || c == "461" || c == "472" || c == "482"
  }

  lemma OtherWords(n: Numeric)
    requires !NamesTargetFirst(n.command)
    ensures ModeTarget(n) == "" && TopicTarget(n) == "" && NamesTarget(n) == "" && n.command != "329"
  {
  }

  /** None of these branches takes the numeric: it is not one of theirs, or it is a 401 or the like for a
      target nobody enquires about. */
  ghost predicate Passes(t: State, n: Numeric) {
    && Unlabeled(t, n)
    && (NamesTargetFirst(n.command) ==> exists target :: PassesError(t, n, target))
  }

  ghost predicate PassesError(t: State, n: Numeric, target: string) {
    && TargetError(n, target) && NoneRefused(t, target, n.command)
    && !Takes(t, Topic(target), n.command) && !Takes(t, Names(target), n.command)
  }

  lemma PassesOn(t: State, n: Numeric, e: Effect)
    requires Selects(t, n, e) && Passes(t, n)
    ensures if n.whoisReply && |n.folded| > 1 && Pending(t, Whois(n.folded[1]))
            then e == ToQueue(Whois(n.folded[1]), Ends(t, Whois(n.folded[1]), n.command)) else SelectsStats(t, n, e)
  {
    if NamesTargetFirst(n.command) {
      var target :| PassesError(t, n, target);
      ErrorWords(n, target);
      ErrorPasses(t, n, e, target);
    } else {
      OtherWords(n);
    }
  }

  /** `311 me nick ...`, `318 me nick :end` and all the numerics of a WHOIS reply. */
  predicate WhoisReply(n: Numeric, nick: string) {
    n.whoisReply && 1 < |n.folded| && n.folded[1] == nick
  }

  lemma WhoisRouted(t: State, n: Numeric, e: Effect, now: int, nick: string)
    requires Selects(t, n, e) && Passes(t, n) && WhoisReply(n, nick) && Pending(t, Whois(nick))
    ensures Reaches(t, n, e, now, Whois(nick), n.command in Head(t, Whois(nick)).ends)
  {
    PassesOn(t, n, e);
    PopAnswers(t, n, Whois(nick), now);
    StayAnswers(t, n, Whois(nick), now);
  }

  /** No WHOIS exchange takes it either. */
  ghost predicate PassesWhois(t: State, n: Numeric) {
    Passes(t, n) && (n.whoisReply && 1 < |n.folded| ==> !Pending(t, Whois(n.folded[1])))
  }

  // ---------------------------------------------------------------- STATS

  predicate StatsPending(t: State, k: Key) { k.Stats? && Pending(t, k) }

  /** `219 me letter :end` ends the enquiry for the letter, whatever it is listed as ending on. */
  lemma StatsEndRouted(t: State, n: Numeric, e: Effect, now: int, letter: string)
    requires Selects(t, n, e) && PassesWhois(t, n)
    requires n.command == "219" && 1 < |n.lowered| && n.lowered[1] == letter && Pending(t, Stats(letter))
    ensures Reaches(t, n, e, now, Stats(letter), true)
  {
    PassesOn(t, n, e);
    PopAnswers(t, n, Stats(letter), now);
  }

  /** The lines in between. */
  predicate StatsLine(c: string) {
    || c == "211" || c == "212" || c == "213" || c == "214" || c == "215" || c == "216" || c == "217" || c == "218"
    || c == "241" || c == "242" || c == "243" || c == "244" || c == "245" || c == "246" || c == "247"
    || c == "248" || c == "249" || c == "250"
  }

  lemma StatsWords(c: string)
    ensures StatsLine(c) || c == "219" <==> IsStatsNumeric(c)
  {
  }

  /** They reach the only enquiry there is. */
  lemma StatsLineRouted(t: State, n: Numeric, e: Effect, now: int, letter: string)
    requires Selects(t, n, e) && PassesWhois(t, n) && StatsLine(n.command)
    requires Pending(t, Stats(letter)) && forall k: Key :: StatsPending(t, k) ==> k == Stats(letter)
    ensures Reaches(t, n, e, now, Stats(letter), false)
  {
    PassesOn(t, n, e);
    StatsWords(n.command);
    assert OnlyStats(t, Stats(letter)) by {
      forall o: Key | o.Stats? && Busy(t, o) ensures o == Stats(letter) {
        assert StatsPending(t, o);
      }
    }
    assert e.ToQueue? && OnlyStats(t, e.k) && StatsPending(t, e.k);
    StayAnswers(t, n, Stats(letter), now);
  }

  predicate SentTo(t: State, k: Key, server: string) {
    StatsPending(t, k) && Head(t, k).remote == server != ""
  }

  /** `402 me server :no such server` ends the enquiry in flight to that server. */
  lemma StatsLostRouted(t: State, n: Numeric, e: Effect, now: int, server: string, k: Key)
    requires Selects(t, n, e) && PassesWhois(t, n)
    requires n.command == "402" && 1 < |n.lowered| && n.lowered[1] == server
    requires SentTo(t, k, server) && forall o :: SentTo(t, o, server) ==> o == k
    ensures Reaches(t, n, e, now, k, true)
  {
    PassesOn(t, n, e);
    forall o ensures SentTo(t, o, server) <==> StatsVia(t, o, server) {
    }
    PopAnswers(t, n, k, now);
  }

  /** No STATS exchange takes it: there is none, or it is none of these numerics. */
  ghost predicate PassesStats(t: State, n: Numeric) {
    && PassesWhois(t, n)
    && (n.command == "402" || n.command == "219" || StatsLine(n.command) ==> forall k :: !StatsPending(t, k))
  }

  lemma PassesStatsOn(t: State, n: Numeric, e: Effect)
    requires Selects(t, n, e) && PassesStats(t, n)
    ensures SelectsWhox(t, n, e)
  {
    PassesOn(t, n, e);
    StatsWords(n.command);
    if n.command == "402" || n.command == "219" || StatsLine(n.command) {
      forall k: Key ensures !(k.Stats? && Busy(t, k)) {
        assert !StatsPending(t, k);
      }
    }
  }

  // ---------------------------------------------------------------- WHOX

  /** The line reaches the askers of the exchange with this token, and ends it or not. */
  ghost predicate ReachesWhox(t: State, n: Numeric, e: Effect, now: int, tok: string, last: bool) {
    && tok in t.whox && EffectOk(t, e)
    && Dests(t, e) == Askers(t.whox[tok])
    && Deliver(t, n, e, now) == if last then t.(whox := t.whox - {tok}) else t
  }

  lemma TokenAnswers(t: State, n: Numeric, now: int, tok: string, last: bool)
    requires tok in t.whox
    ensures ReachesWhox(t, n, ToWhox(tok, last), now, tok, last)
  {
    assert Remove(t.whox, tok) == t.whox - {tok};
  }

  lemma WhoxWords(t: State, n: Numeric)
    requires Unlabeled(t, n) && (n.command == "354" || n.command == "315") && !n.whoisReply
    ensures PassesStats(t, n)
  {
  }

  /** `354 me token fields`; a token that is neither pending nor the "0" of servers that ignore it belongs
      to somebody who has gone. */
  lemma WhoxRouted(t: State, n: Numeric, e: Effect, now: int)
    requires Selects(t, n, e) && Unlabeled(t, n) && !n.whoisReply && n.command == "354" && 1 < |n.params|
    ensures n.params[1] in t.whox ==> ReachesWhox(t, n, e, now, n.params[1], false)
    ensures n.params[1] !in t.whox && n.params[1] != "0" ==> Dests(t, e) == [] && e == ToNobody
  {
    WhoxWords(t, n);
    PassesStatsOn(t, n, e);
    if n.params[1] in t.whox {
      TokenAnswers(t, n, now, n.params[1], false);
    }
  }

  ghost predicate OldestOf(t: State, tok: string, mask: string) {
    && tok in t.whox && t.whox[tok].target == mask
    && forall o :: o in t.whox && t.whox[o].target == mask ==> t.whox[tok].created <= t.whox[o].created
  }

  /** `315 me mask :end` ends the oldest WHOX for the mask. */
  lemma WhoxEndRouted(t: State, n: Numeric, e: Effect, now: int, mask: string, tok: string)
    requires Selects(t, n, e) && Unlabeled(t, n) && !n.whoisReply && n.command == "315" && Names2(n, 1, mask)
    requires OldestOf(t, tok, mask) && forall o :: OldestOf(t, o, mask) ==> o == tok
    ensures ReachesWhox(t, n, e, now, tok, true)
  {
    WhoxWords(t, n);
    PassesStatsOn(t, n, e);
    assert mask in set x | x in t.whox :: t.whox[x].target;
    assert OldestWhox(t, e.token, {mask});
    assert OldestOf(t, e.token, mask) by {
      forall o | o in t.whox && t.whox[o].target == mask ensures t.whox[e.token].created <= t.whox[o].created {
        assert t.whox[o].target in {mask};
      }
    }
    TokenAnswers(t, n, now, tok, true);
  }

  /** On servers that change the mask or the token, the only WHOX pending gets both. */
  lemma QuirkyRouted(t: State, n: Numeric, e: Effect, now: int, tok: string)
    requires Selects(t, n, e) && Unlabeled(t, n) && !n.whoisReply && t.quirky && t.whox.Keys == {tok}
    requires n.command == "354" && (|n.params| <= 1 || n.params[1] == "0")
    ensures ReachesWhox(t, n, e, now, tok, false)
  {
    WhoxWords(t, n);
    PassesStatsOn(t, n, e);
    assert |t.whox| == |t.whox.Keys| == 1;
    assert e.ToWhox? && !e.ends && e.token in t.whox.Keys;
    TokenAnswers(t, n, now, tok, false);
  }

  lemma QuirkyEndRouted(t: State, n: Numeric, e: Effect, now: int, tok: string)
    requires Selects(t, n, e) && Unlabeled(t, n) && !n.whoisReply && t.quirky && t.whox.Keys == {tok}
    requires n.command == "315"
    ensures ReachesWhox(t, n, e, now, tok, true)
  {
    WhoxWords(t, n);
    PassesStatsOn(t, n, e);
    SomeEnds(t, n, e, tok);
    assert e.token in t.whox.Keys;
    TokenAnswers(t, n, now, tok, true);
  }

  lemma SomeEnds(t: State, n: Numeric, e: Effect, tok: string)
    requires SelectsWhox(t, n, e) && n.command == "315" && t.quirky && tok in t.whox
    ensures e.ToWhox? && e.ends && e.token in t.whox
  {
    var all := set x | x in t.whox :: t.whox[x].target;
    assert t.whox[tok].target in all;
    var mask := ParamAt(n.folded, 1);
    if mask != "" && mask in all {
      assert OldestWhox(t, e.token, {mask});
    } else {
      assert OldestWhox(t, e.token, all);
    }
  }

  // ---------------------------------------------------------------- everything else

  /** No WHOX exchange takes it: it is not a WHOX numeric, or none is pending. */
  ghost predicate PassesWhox(t: State, n: Numeric) {
    && PassesStats(t, n)
    && (n.command == "354" || n.command == "315" ==> t.whox == map[])
    && (n.command == "354" && 1 < |n.params| ==> n.params[1] == "0")
  }

  predicate IsNumeric(c: string) {
    |c| == 3 && '0' <= c[0] <= '9' && '0' <= c[1] <= '9' && '0' <= c[2] <= '9'
  }

  /** The exchange in flight lists the numeric among its replies, or nothing is known of them and it is one. */
  predicate Lists(t: State, kind: string, command: string) {
    && Pending(t, Serial(kind))
    && (command in Head(t, Serial(kind)).replies || (Head(t, Serial(kind)).replies == {} && IsNumeric(command)))
  }

  /** The commands whose replies name nothing, in the order they are asked. */
  predicate SerialKind(kind: string) {
    || kind == "LIST" || kind == "WHO" || kind == "WHOX" || kind == "NAMES" || kind == "ISON" || kind == "USERHOST"
    || kind == "LUSERS" || kind == "LINKS" || kind == "MAP" || kind == "WHOWAS" || kind == "TIME" || kind == "TRACE"
    || kind == "USERS" || kind == "HELP" || kind == "ADMIN" || kind == "SILENCE"
  }

  /** The only exchange in flight that lists a numeric gets it: 322 goes to LIST, 352 to WHO, 303 to ISON. */
  lemma SerialRouted(t: State, n: Numeric, e: Effect, now: int, kind: string)
    requires Selects(t, n, e) && PassesWhox(t, n) && SerialKind(kind) && Lists(t, kind, n.command)
    requires forall o :: SerialKind(o) && Lists(t, o, n.command) ==> o == kind
    ensures Reaches(t, n, e, now, Serial(kind), n.command in Head(t, Serial(kind)).ends)
  {
    PassesStatsOn(t, n, e);
    OnlySerial(t, kind, n.command);
    PopAnswers(t, n, Serial(kind), now);
    StayAnswers(t, n, Serial(kind), now);
  }

  lemma OrderHasKind(kind: string)
    ensures SerialKind(kind) <==> kind in SERIAL_ORDER
  {
  }

  lemma {:induction false} SerialForExact(t: State, kinds: seq<string>, command: string)
    ensures var r := SerialFor(t, kinds, command);
            && (r.Some? ==> r.value in kinds && Lists(t, r.value, command))
            && (r.None? ==> forall kind :: kind in kinds ==> !Lists(t, kind, command))
  {
    if kinds != [] {
      SerialForExact(t, kinds[1..], command);
      assert kinds == [kinds[0]] + kinds[1..];
    }
  }

  lemma OnlySerial(t: State, kind: string, command: string)
    requires SerialKind(kind) && Lists(t, kind, command)
    requires forall o :: SerialKind(o) && Lists(t, o, command) ==> o == kind
    ensures SerialFor(t, SERIAL_ORDER, command) == Some(kind)
  {
    SerialForExact(t, SERIAL_ORDER, command);
    OrderHasKind(kind);
    var r := SerialFor(t, SERIAL_ORDER, command);
    if r.Some? {
      OrderHasKind(r.value);
    }
  }

  /** What nobody in flight lists is broadcast. */
  lemma NobodyRouted(t: State, n: Numeric, e: Effect)
    requires Selects(t, n, e) && PassesWhox(t, n) && forall kind :: SerialKind(kind) ==> !Lists(t, kind, n.command)
    ensures e == ToNobody && Dests(t, e) == []
  {
    PassesStatsOn(t, n, e);
    SerialForExact(t, SERIAL_ORDER, n.command);
    var r := SerialFor(t, SERIAL_ORDER, n.command);
    if r.Some? {
      OrderHasKind(r.value);
    }
  }

  // ---------------------------------------------------------------- labels

  /** A line with the label of a pending exchange goes to its askers, whatever it is, and ends the exchange
      if it is listed as ending it. */
  lemma LabelRouted(t: State, n: Numeric, e: Effect, now: int)
    requires Selects(t, n, e) && n.tagLabel != "" && n.tagLabel in t.labeled
    ensures EffectOk(t, e) && Dests(t, e) == Askers(t.labeled[n.tagLabel])
    ensures var u := Deliver(t, n, e, now);
            && u.queues == t.queues && u.whox == t.whox && u.ready == t.ready
            && u.labeled == if n.command in t.labeled[n.tagLabel].ends then t.labeled - {n.tagLabel} else t.labeled
  {
    assert Remove(t.labeled, n.tagLabel) == t.labeled - {n.tagLabel};
  }

  // ---------------------------------------------------------------- from the question to the answer

  lemma FreshSurvives(qs: Queues, k: Key, r: Request, now: int)
    requires k in qs && qs[k] == [r] && now - r.created <= 600_000_000_000
    ensures k in SweepAll(qs, Aging(now)) && SweepAll(qs, Aging(now))[k] == [r]
  {
    AgeExact(r, now);
    assert Sweep([r], ByAge(now)) == [r] + Sweep([], ByAge(now)) by {
      assert [r][1..] == [];
    }
  }

  /** A client asks for the names of a channel nobody is asking about. For ten minutes, each line of
      the reply goes to that client, with its label, and to nobody else. */
  lemma NamesAnswered(t: State, o: Opts, now: int, order: seq<Key>, pick: Option<string>,
      n: Numeric, later: int, order2: seq<Key>, e: Effect)
    requires Valid(t, Begin(o, now, order, pick)) && !Pending(SweepState(t, Aging(now), order), Names(o.enquiryTarget))
    requires o.cmd == "NAMES" && !o.preferLabel && o.enquiryTarget != ""
    requires Valid(Step(t, Begin(o, now, order, pick)), Route(n, later, order2, e)) && later - now <= 600_000_000_000
    requires NamesReply(n, o.enquiryTarget) && n.tagLabel == "" && n.command in o.replies
    ensures var swept := SweepState(Step(t, Begin(o, now, order, pick)), Aging(later), order2);
            Dests(swept, e) == [Waiter(o.client, o.clientLabel, false, o.clientToken)]
  {
    var k := Names(o.enquiryTarget);
    var s, u := SweepState(t, Aging(now), order), Step(t, Begin(o, now, order, pick));
    var r := RequestOf(o, s.ledger.nextId, o.enquiryTarget, false, now);
    NamesEntered(s, o, now, pick);
    FreshSurvives(u.queues, k, r, later);
    FreshAnswered(SweepState(u, Aging(later), order2), r, n, e, later, o.enquiryTarget);
  }

  lemma NamesEntered(s: State, o: Opts, now: int, pick: Option<string>)
    requires o.cmd == "NAMES" && !o.preferLabel && o.enquiryTarget != "" && !Pending(s, Names(o.enquiryTarget))
    ensures var u, k := BeginBody(s, o, now, pick), Names(o.enquiryTarget);
            k in u.queues && u.queues[k] == [RequestOf(o, s.ledger.nextId, o.enquiryTarget, false, now)]
  {
    var r := RequestOf(o, s.ledger.nextId, o.enquiryTarget, false, now);
    assert BeginBody(s, o, now, pick) == BeginByRemote(s, Names(o.enquiryTarget), r);
  }

  lemma FreshAnswered(t: State, r: Request, n: Numeric, e: Effect, now: int, channel: string)
    requires Selects(t, n, e) && NamesReply(n, channel) && n.tagLabel == "" && n.command in r.replies
    requires Names(channel) in t.queues && t.queues[Names(channel)] == [r]
    ensures Dests(t, e) == Askers(r)
  {
    NamesRouted(t, n, e, now, channel);
  }
}

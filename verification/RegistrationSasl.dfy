/** What decides a registration, in the words on the wire: which lines end CAP negotiation, complete
    or fail the run, which mechanism is picked and what is sent for it (internal/registration). */
module RegistrationSasl {
  import opened Common
  import opened Text
  import opened Codec
  import opened Registration
  import Isupport
  import RegistrationRuns
  import NickLadder
  import SaslChunks = Authenticate

  // ---------------------------------------------------------------- words

  predicate IsSuccess(c: string) { c == "903" || c == "907" }

  predicate IsFailure(c: string) { c == "904" || c == "905" || c == "906" }

  predicate IsNickRefusal(msg: Message) {
    msg.command == "432" || msg.command == "433" || (msg.command == "437" && |msg.params| > 0 && msg.params[0] == "*")
  }

  /** A CAP line with this subcommand. */
  predicate CapLine(env: Env, msg: Message, sub: string) {
    msg.command == "CAP" && |msg.params| >= 2 && env.upper(msg.params[1]) == sub
  }

  predicate MoreFollows(msg: Message) {
    |msg.params| >= 3 && msg.params[2] == "*"
  }

  lemma OutcomeWords(env: Env, msg: Message)
    ensures KindOf(env, msg) == SaslOutcome(true) <==> IsSuccess(msg.command)
    ensures KindOf(env, msg) == SaslOutcome(false) <==> IsFailure(msg.command)
    ensures KindOf(env, msg) == Authenticate <==> msg.command == "AUTHENTICATE"
  {
  }

  lemma CapWords(env: Env, msg: Message)
    ensures KindOf(env, msg) == Cap(Ls(MoreFollows(msg))) <==> CapLine(env, msg, "LS")
    ensures KindOf(env, msg) == Cap(Ls(!MoreFollows(msg))) ==> false
    ensures KindOf(env, msg) == Cap(Ack) <==> CapLine(env, msg, "ACK")
    ensures KindOf(env, msg) == Cap(Nak) <==> CapLine(env, msg, "NAK")
  {
  }

  lemma OtherWords(env: Env, msg: Message)
    ensures KindOf(env, msg) == Welcome <==> msg.command == "001"
    ensures KindOf(env, msg) == MotdEnd <==> msg.command == "376" || msg.command == "422"
    ensures KindOf(env, msg) == NickError <==> IsNickRefusal(msg)
  {
  }

  lemma EndWords(env: Env, msg: Message)
    ensures KindOf(env, msg) == ErrorLine <==> msg.command == "ERROR"
    ensures KindOf(env, msg) == Reply005 <==> msg.command == "005"
  {
  }

  // ---------------------------------------------------------------- SASL outcomes

  /** Before the welcome a 904, 905 or 906 ends the run as failed where SASL is required, and a 903 or
      907 never does; all other outcomes end CAP negotiation. After it nothing is said. The exchange is
      over in every case, and nothing else changes. */
  lemma OutcomeLine(env: Env, s: State, in_: Input)
    requires !Terminal(s.phase) && (IsSuccess(in_.msg.command) || IsFailure(in_.msg.command))
    ensures var o, why := Step(env, s, in_), SaslFailed(in_.msg.command, in_.msg.params);
            var t := s.(mech := None, conv := None);
            o == if s.gotWelcome then Outcome(t, [])
                 else if s.sasl.required && IsFailure(in_.msg.command)
                 then Outcome(t.(phase := Failed, err := Some(why)), [Fail(why, in_.replay)])
                 else Outcome(t.(phase := AwaitingWelcome), [Send(CapEnd, in_.replay)])
  {
    OutcomeWords(env, in_.msg);
  }

  // ---------------------------------------------------------------- mechanisms

  predicate HasPassword(s: State) { s.sasl.user != "" && s.sasl.pass != "" }

  function Offer(s: State): string {
    if "sasl" in s.offered then s.offered["sasl"] else ""
  }

  /** The comma-separated list names this mechanism, ... */
  ghost predicate Offers(env: Env, s: State, name: string) {
    Offer(s) != "" && exists p :: p in Split(Offer(s), ',') && env.trim(p) != "" && env.equalFold(env.trim(p), name)
  }

  /** ... or nothing at all. */
  ghost predicate OffersAny(env: Env, s: State) {
    Offer(s) != "" && exists p :: p in Split(Offer(s), ',') && env.trim(p) != ""
  }

  lemma {:induction false} MechsExact(env: Env, parts: seq<string>, m: string)
    ensures m in Mechs(env, parts) <==> exists p :: p in parts && env.trim(p) != "" && env.trim(p) == m
  {
    if parts != [] {
      MechsExact(env, parts[1..], m);
      assert parts == [parts[0]] + parts[1..];
    }
  }

  function MechList(env: Env, s: State): seq<string> {
    if Offer(s) == "" then [] else Mechs(env, Split(Offer(s), ','))
  }

  lemma ListedExact(env: Env, s: State, m: Mech)
    ensures Listed(env, m, MechList(env, s)) <==> Offers(env, s, Name(m))
  {
    var mechs := MechList(env, s);
    if Offer(s) != "" {
      forall x ensures x in mechs <==> exists p :: p in Split(Offer(s), ',') && env.trim(p) != "" && env.trim(p) == x {
        MechsExact(env, Split(Offer(s), ','), x);
      }
      if Offers(env, s, Name(m)) {
        var p :| p in Split(Offer(s), ',') && env.trim(p) != "" && env.equalFold(env.trim(p), Name(m));
        assert env.trim(p) in mechs;
      }
      if Listed(env, m, mechs) {
        var i :| 0 <= i < |mechs| && env.equalFold(mechs[i], Name(m));
        assert mechs[i] in mechs;
      }
    }
  }

  lemma AnyExact(env: Env, s: State)
    ensures MechList(env, s) != [] <==> OffersAny(env, s)
  {
    var mechs := MechList(env, s);
    if Offer(s) != "" {
      if mechs != [] {
        assert mechs[0] in mechs;
        MechsExact(env, Split(Offer(s), ','), mechs[0]);
      }
      if OffersAny(env, s) {
        var p :| p in Split(Offer(s), ',') && env.trim(p) != "";
        MechsExact(env, Split(Offer(s), ','), env.trim(p));
      }
    }
  }

  ghost predicate PicksScram(env: Env, s: State) {
    s.sasl.wanted && HasPassword(s) && Offers(env, s, "SCRAM-SHA-256")
  }

  ghost predicate PicksPlain(env: Env, s: State) {
    s.sasl.wanted && HasPassword(s) && !Offers(env, s, "SCRAM-SHA-256")
    && (!OffersAny(env, s) || Offers(env, s, "PLAIN"))
  }

  ghost predicate PicksExternal(env: Env, s: State) {
    s.sasl.wanted && s.sasl.pass == "" && s.sasl.hasClientCert
    && (!OffersAny(env, s) || Offers(env, s, "EXTERNAL"))
  }

  ghost predicate PicksNone(env: Env, s: State) {
    !PicksScram(env, s) && !PicksPlain(env, s) && !PicksExternal(env, s)
  }

  /** SCRAM where it is offered, else PLAIN, given a password; EXTERNAL only without one. PLAIN and
      EXTERNAL also do where the server lists no mechanisms. */
  lemma PickMechExact(env: Env, s: State)
    ensures PickMech(env, s) == Some(ScramSha256) <==> PicksScram(env, s)
    ensures PickMech(env, s) == Some(Plain) <==> PicksPlain(env, s)
    ensures PickMech(env, s) == Some(External) <==> PicksExternal(env, s)
    ensures PickMech(env, s) == None <==> PicksNone(env, s)
  {
    ListedExact(env, s, ScramSha256);
    ListedExact(env, s, Plain);
    ListedExact(env, s, External);
    AnyExact(env, s);
    assert Listed(env, ScramSha256, MechList(env, s)) ==> MechList(env, s) != [];
  }

  // ---------------------------------------------------------------- what is sent for a mechanism

  /** On "AUTHENTICATE +" the PLAIN payload goes out, and a receiver that puts the chunks together has
      base64 text of NUL, user, NUL, password. */
  lemma PlainSent(env: Env, s: State, in_: Input)
    requires !Terminal(s.phase) && s.mech == Some(Plain) && HasPassword(s)
    requires in_.msg.command == "AUTHENTICATE" && |in_.msg.params| > 0 && in_.msg.params[0] == "+"
    ensures var o, text := Step(env, s, in_), env.base64("\0" + s.sasl.user + "\0" + s.sasl.pass);
            && o.state == s && o.acts == AuthLines(SaslChunks.Chunks(text), in_.replay)
            && (|text| % 4 == 0 ==> SaslChunks.Receive(SaslChunks.Chunks(text)) == Some((text, [])))
  {
    OutcomeWords(env, in_.msg);
    var text := env.base64("\0" + s.sasl.user + "\0" + s.sasl.pass);
    Received(text);
  }

  lemma Received(text: string)
    ensures |text| % 4 == 0 ==> SaslChunks.Receive(SaslChunks.Chunks(text)) == Some((text, []))
  {
    if |text| % 4 == 0 {
      SaslChunks.Base64RoundTrip(text, []);
      assert SaslChunks.Chunks(text) + [] == SaslChunks.Chunks(text);
    }
  }

  /** Cut at its NULs, the payload is an empty authorization identity, the user and the password, if
      and only if neither holds a NUL. */
  lemma PlainPayload(user: string, pass: string)
    ensures Split("\0" + user + "\0" + pass, '\0') == ["", user, pass] <==> '\0' !in user && '\0' !in pass
  {
    var text := "\0" + user + "\0" + pass;
    if '\0' !in user && '\0' !in pass {
      PlainJoin(user, pass);
      SplitJoin(["", user, pass], '\0');
    }
    SplitParts(text, '\0');
    assert ["", user, pass][1] == user && ["", user, pass][2] == pass;
  }

  lemma PlainJoin(user: string, pass: string)
    ensures Join(["", user, pass], '\0') == "\0" + user + "\0" + pass
  {
    assert ["", user, pass][1..] == [user, pass] && [user, pass][1..] == [pass];
    assert Join([user, pass], '\0') == user + ['\0'] + pass;
    assert Join(["", user, pass], '\0') == "" + ['\0'] + Join([user, pass], '\0');
  }

  lemma {:induction false} SplitParts(s: string, c: char)
    ensures forall i :: 0 <= i < |Split(s, c)| ==> c !in Split(s, c)[i]
    decreases |s|
  {
    if c in s {
      SplitParts(s[IndexOf(s, c) + 1..], c);
    }
  }

  /** EXTERNAL sends the user if there is one, and "+" if not. */
  lemma ExternalSent(env: Env, s: State, in_: Input)
    requires !Terminal(s.phase) && s.mech == Some(External)
    requires in_.msg.command == "AUTHENTICATE" && |in_.msg.params| > 0 && in_.msg.params[0] == "+"
    ensures var o := Step(env, s, in_);
            && o.state == s
            && (s.sasl.user == "" ==> o.acts == [Send(Auth("+"), in_.replay)])
            && (s.sasl.user != "" ==> o.acts == AuthLines(SaslChunks.Chunks(env.base64(s.sasl.user)), in_.replay))
  {
    OutcomeWords(env, in_.msg);
  }

  /** SCRAM answers each challenge out of one conversation, and "+" where it has nothing more to say. */
  lemma ScramSent(env: Env, s: State, in_: Input, challenge: string, response: string)
    requires !Terminal(s.phase) && s.mech == Some(ScramSha256) && HasPassword(s) && env.scramClient(s.sasl)
    requires in_.msg.command == "AUTHENTICATE" && |in_.msg.params| > 0 && in_.msg.params[0] !in {"", "*"}
    requires if in_.msg.params[0] == "+" then challenge == "" else env.unbase64(in_.msg.params[0]) == Some(challenge)
    requires env.scram(s.sasl, (if s.conv.Some? then s.conv.value else []) + [challenge]) == Some(response)
    ensures var o := Step(env, s, in_);
            && o.state == s.(conv := Some((if s.conv.Some? then s.conv.value else []) + [challenge]))
            && (response == "" ==> o.acts == [Send(Auth("+"), in_.replay)])
            && (response != "" ==> o.acts == AuthLines(SaslChunks.Chunks(env.base64(response)), in_.replay))
  {
    OutcomeWords(env, in_.msg);
    assert Step(env, s, in_) == StepScram(env, s, in_, in_.msg.params[0]);
  }

  /** An exchange that cannot go on is called off with "AUTHENTICATE *", and one the server calls off is
      forgotten. */
  lemma CalledOff(env: Env, s: State, in_: Input)
    requires !Terminal(s.phase) && in_.msg.command == "AUTHENTICATE"
    ensures var o, p := Step(env, s, in_), Param(in_.msg, 0);
            && (Aborts(env, s, p) ==> o.acts != [] && o.acts[0] == Send(Auth("*"), in_.replay))
            && (Aborts(env, s, p) || p == "*" ==> o.state.mech == None && o.state.conv == None)
            && (p == "*" ==> o == Outcome(s.(mech := None, conv := None), []))
            && (p == "" ==> o == Outcome(s, []))
  {
    OutcomeWords(env, in_.msg);
    ScramCalledOff(env, s, in_, Param(in_.msg, 0));
  }

  lemma ScramCalledOff(env: Env, s: State, in_: Input, p: string)
    ensures var o := StepScram(env, s, in_, p);
            ScramStuck(env, s, p) ==> StartsOff(o, in_)
  {
    var o := StepScram(env, s, in_, p);
    if ScramStuck(env, s, p) && HasPassword(s) && (p == "+" || env.unbase64(p).Some?)
      && (s.conv.Some? || env.scramClient(s.sasl))
    {
      var challenge := if p == "+" then "" else env.unbase64(p).value;
      var conv := (if s.conv.Some? then s.conv.value else []) + [challenge];
      AbortStarts(s.(conv := Some(conv)), in_, ScramFailed);
    } else if ScramStuck(env, s, p) {
      AbortStarts(s, in_, if !HasPassword(s) then MissingPassword
                          else if p != "+" && env.unbase64(p).None? then BadChallenge else ScramFailed);
    }
  }

  lemma AbortStarts(s: State, in_: Input, e: Failure)
    ensures StartsOff(Abort(s, in_, e), in_)
  {
  }

  predicate StartsOff(o: Outcome, in_: Input) {
    o.acts != [] && o.acts[0] == Send(Auth("*"), in_.replay) && o.state.mech == None && o.state.conv == None
  }

  /** After registration an outcome only ends the exchange. */
  lemma PostOutcome(env: Env, s: State, in_: Input)
    requires s.phase == Complete && s.gotWelcome && (IsSuccess(in_.msg.command) || IsFailure(in_.msg.command))
    ensures StepPost(env, s, in_) == Outcome(s.(mech := None, conv := None), [])
  {
    OutcomeWords(env, in_.msg);
  }

  // ---------------------------------------------------------------- what is requested

  /** The wanted capabilities that are offered, in the order wanted; sasl only where it is configured. */
  lemma RequestedExact(c: string, rest: seq<string>, s: State)
    ensures Requested([], s) == []
    ensures Requested([c] + rest, s)
         == (if c in s.offered && (c == "sasl" ==> s.sasl.wanted) then [c] else []) + Requested(rest, s)
  {
    assert ([c] + rest)[1..] == rest;
  }

  /** No capability in the list can be asked for. */
  ghost predicate NothingToRequest(want: seq<string>, s: State) {
    forall c :: c in want ==> c !in s.offered || (c == "sasl" && !s.sasl.wanted)
  }

  lemma {:induction false} RequestedNothing(want: seq<string>, s: State)
    ensures Requested(want, s) == [] <==> NothingToRequest(want, s)
  {
    if want != [] {
      RequestedNothing(want[1..], s);
      assert want == [want[0]] + want[1..];
    }
  }

  // ---------------------------------------------------------------- CAP END

  /** The exchange cannot go on. */
  predicate Aborts(env: Env, s: State, p: string) {
    match s.mech
    case Some(Plain) => p == "+" && !HasPassword(s)
    case Some(ScramSha256) => p != "" && p != "*" && ScramStuck(env, s, p)
    case _ => false
  }

  predicate ScramStuck(env: Env, s: State, p: string) {
    || !HasPassword(s)
    || (p != "+" && env.unbase64(p).None?)
    || (s.conv.None? && !env.scramClient(s.sasl))
    || env.scram(s.sasl, (if s.conv.Some? then s.conv.value else [])
         + [if p == "+" || env.unbase64(p).None? then "" else env.unbase64(p).value]).None?
  }

  ghost predicate SendsCapEnd(acts: seq<Action>) {
    exists i :: 0 <= i < |acts| && IsCapEnd(acts[i])
  }

  ghost predicate Fails(acts: seq<Action>) {
    exists i :: 0 <= i < |acts| && acts[i].Fail?
  }

  predicate IsCapEnd(a: Action) { a.Send? && a.line == CapEnd }

  lemma FewActs(acts: seq<Action>)
    ensures acts == [] ==> !SendsCapEnd(acts) && !Fails(acts)
    ensures |acts| == 1 ==> (SendsCapEnd(acts) <==> IsCapEnd(acts[0])) && (Fails(acts) <==> acts[0].Fail?)
    ensures |acts| == 2 ==> (SendsCapEnd(acts) <==> IsCapEnd(acts[0]) || IsCapEnd(acts[1]))
    ensures |acts| == 2 ==> (Fails(acts) <==> acts[0].Fail? || acts[1].Fail?)
  {
  }

  /** The offers after an LS line. */
  function WithOffers(env: Env, s: State, msg: Message): State {
    s.(offered := AddOffers(env.fields(Trailing(msg)), s.offered))
  }

  predicate AcksSasl(env: Env, s: State, msg: Message) {
    s.sasl.wanted && "sasl" in Names(AckTokens(env.fields(Trailing(msg))))
  }

  /** The CAP lines that end negotiation without a word about SASL: the last LS line with nothing to
      request, an ACK of something else, a NAK. */
  ghost predicate Bypasses(env: Env, s: State, msg: Message) {
    || (CapLine(env, msg, "LS") && !MoreFollows(msg) && NothingToRequest(env.desired, WithOffers(env, s, msg)))
    || (CapLine(env, msg, "ACK") && !AcksSasl(env, s, msg))
    || CapLine(env, msg, "NAK")
  }

  /** The lines by which SASL is over and cannot succeed. */
  ghost predicate SaslLost(env: Env, s: State, msg: Message) {
    || (CapLine(env, msg, "ACK") && AcksSasl(env, s, msg) && PicksNone(env, s))
    || (!s.gotWelcome && IsFailure(msg.command))
    || (!s.gotWelcome && msg.command == "AUTHENTICATE" && Aborts(env, s, Param(msg, 0)))
  }

  /** CAP END goes out for a success before the welcome, for the lines that bypass SASL, and, only
      where it is not required, for SASL lost. */
  ghost predicate EndsCap(env: Env, s: State, msg: Message) {
    || (IsSuccess(msg.command) && !s.gotWelcome)
    || Bypasses(env, s, msg)
    || (!s.sasl.required && SaslLost(env, s, msg))
  }

  /** SASL lost where it is required, a refused nickname with none left to try, or an ERROR. */
  ghost predicate FailsOn(env: Env, s: State, msg: Message) {
    || (s.sasl.required && SaslLost(env, s, msg))
    || (IsNickRefusal(msg) && !s.gotWelcome && NoNickLeft(env, s, msg))
    || msg.command == "ERROR"
  }

  predicate NoNickLeft(env: Env, s: State, msg: Message) {
    !s.nickRecovery || NickLadder.NextNick(LadderIn(env, s), s.nick, Param(msg, 1), env.fold(s.isupport)) == ""
  }

  lemma SameOffer(env: Env, s: State, names: set<string>)
    ensures var s1 := s.(acked := s.acked + names); PicksNone(env, s1) == PicksNone(env, s)
  {
  }

  lemma LsDecides(env: Env, s: State, in_: Input, more: bool)
    ensures var acts := StepCap(env, s, in_, Ls(more)).acts;
            && (SendsCapEnd(acts) <==> BypassesOn(env, s, in_.msg, Cap(Ls(more))))
            && !Fails(acts)
  {
    var t := WithOffers(env, s, in_.msg);
    RequestedNothing(env.desired, t);
    assert StepCap(env, s, in_, Ls(more)) == StepLs(env, t, in_, more);
    FewActs(StepLs(env, t, in_, more).acts);
  }

  lemma AckDecides(env: Env, s: State, in_: Input)
    ensures var acts, lost := StepCap(env, s, in_, Ack).acts, AcksSasl(env, s, in_.msg) && PicksNone(env, s);
            && (SendsCapEnd(acts) <==> !AcksSasl(env, s, in_.msg) || (lost && !s.sasl.required))
            && (Fails(acts) <==> lost && s.sasl.required)
  {
    var names := Names(AckTokens(env.fields(Trailing(in_.msg))));
    SameOffer(env, s, names);
    StartDecides(env, s.(acked := s.acked + names), in_);
    FewActs(EndCap(s.(acked := s.acked + names), in_, []).acts);
  }

  lemma StartDecides(env: Env, s: State, in_: Input)
    ensures var acts := StartSasl(env, s, in_).acts;
            && (SendsCapEnd(acts) <==> PicksNone(env, s) && !s.sasl.required)
            && (Fails(acts) <==> PicksNone(env, s) && s.sasl.required)
  {
    PickMechExact(env, s);
    FewActs(StartSasl(env, s, in_).acts);
  }

  lemma AuthLinesOnly(lines: seq<string>, replay: bool)
    ensures !SendsCapEnd(AuthLines(lines, replay)) && !Fails(AuthLines(lines, replay))
  {
  }

  lemma AbortDecides(s: State, in_: Input, e: Failure)
    ensures var o := Abort(s, in_, e);
            && (SendsCapEnd(o.acts) <==> !s.gotWelcome && !s.sasl.required)
            && (Fails(o.acts) <==> !s.gotWelcome && s.sasl.required)
  {
    var o := Abort(s, in_, e);
    FewActs(o.acts);
  }

  ghost predicate StuckSays(s: State, o: Outcome, stuck: bool) {
    && (SendsCapEnd(o.acts) <==> stuck && !s.gotWelcome && !s.sasl.required)
    && (Fails(o.acts) <==> stuck && !s.gotWelcome && s.sasl.required)
  }

  lemma ScramDecides(env: Env, s: State, in_: Input, p: string)
    ensures StuckSays(s, StepScram(env, s, in_, p), ScramStuck(env, s, p))
  {
    var challenge := if p == "+" then Some("") else env.unbase64(p);
    if !HasPassword(s) {
      AbortDecides(s, in_, MissingPassword);
    } else if challenge.None? {
      AbortDecides(s, in_, BadChallenge);
    } else if s.conv.None? && !env.scramClient(s.sasl) {
      AbortDecides(s, in_, ScramFailed);
    } else {
      ScramAnswers(env, s, in_, p, challenge.value);
    }
  }

  lemma ScramAnswers(env: Env, s: State, in_: Input, p: string, challenge: string)
    requires HasPassword(s) && (if p == "+" then Some("") else env.unbase64(p)) == Some(challenge)
    requires s.conv.None? ==> env.scramClient(s.sasl)
    ensures StuckSays(s, StepScram(env, s, in_, p), ScramStuck(env, s, p))
  {
    var conv := (if s.conv.Some? then s.conv.value else []) + [challenge];
    var s1 := s.(conv := Some(conv));
    var answer := env.scram(s.sasl, conv);
    AbortDecides(s1, in_, ScramFailed);
    if answer.Some? {
      AuthLinesOnly(SaslChunks.Chunks(if answer.value == "" then "+" else env.base64(answer.value)), in_.replay);
    }
  }

  lemma AuthenticateDecides(env: Env, s: State, in_: Input)
    ensures StuckSays(s, StepAuthenticate(env, s, in_), Aborts(env, s, Param(in_.msg, 0)))
  {
    ScramDecides(env, s, in_, Param(in_.msg, 0));
    AbortDecides(s, in_, MissingPassword);
    forall lines ensures !SendsCapEnd(AuthLines(lines, in_.replay)) && !Fails(AuthLines(lines, in_.replay)) {
      AuthLinesOnly(lines, in_.replay);
    }
    FewActs([]);
  }

  lemma NickDecides(env: Env, s: State, in_: Input)
    ensures var o := StepNickError(env, s, in_);
            && !SendsCapEnd(o.acts)
            && (Fails(o.acts) <==> !s.gotWelcome && NoNickLeft(env, s, in_.msg))
  {
    FewActs(StepNickError(env, s, in_).acts);
  }

  lemma AllWords(env: Env, s: State, msg: Message)
    ensures var k := KindOf(env, msg);
            && (EndsCap(env, s, msg) <==> EndsCapOn(env, s, msg, k))
            && (FailsOn(env, s, msg) <==> FailsOnKind(env, s, msg, k))
  {
    OutcomeWords(env, msg);
    CapWords(env, msg);
    OtherWords(env, msg);
    EndWords(env, msg);
  }

  ghost predicate BypassesOn(env: Env, s: State, msg: Message, k: Kind) {
    match k
    case Cap(Ls(more)) => !more && NothingToRequest(env.desired, WithOffers(env, s, msg))
    case Cap(Ack) => !AcksSasl(env, s, msg)
    case Cap(Nak) => true
    case _ => false
  }

  ghost predicate SaslLostOn(env: Env, s: State, msg: Message, k: Kind) {
    match k
    case Cap(Ack) => AcksSasl(env, s, msg) && PicksNone(env, s)
    case SaslOutcome(success) => !s.gotWelcome && !success
    case Authenticate => !s.gotWelcome && Aborts(env, s, Param(msg, 0))
    case _ => false
  }

  ghost predicate EndsCapOn(env: Env, s: State, msg: Message, k: Kind) {
    || (k == SaslOutcome(true) && !s.gotWelcome)
    || BypassesOn(env, s, msg, k)
    || (!s.sasl.required && SaslLostOn(env, s, msg, k))
  }

  ghost predicate FailsOnKind(env: Env, s: State, msg: Message, k: Kind) {
    || (s.sasl.required && SaslLostOn(env, s, msg, k))
    || (k == NickError && !s.gotWelcome && NoNickLeft(env, s, msg))
    || k == ErrorLine
  }

  /** Which lines end CAP negotiation, and which fail the run: exactly these. */
  lemma StepExact(env: Env, s: State, in_: Input)
    requires !Terminal(s.phase)
    ensures SendsCapEnd(Step(env, s, in_).acts) <==> EndsCap(env, s, in_.msg)
    ensures Fails(Step(env, s, in_).acts) <==> FailsOn(env, s, in_.msg)
  {
    AllWords(env, s, in_.msg);
    ReactExact(env, s, in_, KindOf(env, in_.msg));
  }

  lemma ReactExact(env: Env, s: State, in_: Input, k: Kind)
    requires !Terminal(s.phase)
    ensures var acts := React(env, s, in_, k).acts;
            && (SendsCapEnd(acts) <==> EndsCapOn(env, s, in_.msg, k))
            && (Fails(acts) <==> FailsOnKind(env, s, in_.msg, k))
  {
    match k
    case Cap(sub) => CapDecides(env, s, in_, sub);
    case Authenticate => AuthenticateDecides(env, s, in_);
    case NickError => NickDecides(env, s, in_);
    case _ => OthersDecide(env, s, in_, k);
  }

  lemma CapDecides(env: Env, s: State, in_: Input, sub: CapSub)
    ensures var acts := StepCap(env, s, in_, sub).acts;
            && (SendsCapEnd(acts) <==> EndsCapOn(env, s, in_.msg, Cap(sub)))
            && (Fails(acts) <==> FailsOnKind(env, s, in_.msg, Cap(sub)))
  {
    match sub
    case Ls(more) => LsDecides(env, s, in_, more);
    case Ack => AckDecides(env, s, in_);
    case _ => FewActs(StepCap(env, s, in_, sub).acts);
  }

  lemma OthersDecide(env: Env, s: State, in_: Input, k: Kind)
    requires !Terminal(s.phase) && !k.Cap? && !k.Authenticate? && !k.NickError?
    ensures var acts := React(env, s, in_, k).acts;
            && (SendsCapEnd(acts) <==> EndsCapOn(env, s, in_.msg, k))
            && (Fails(acts) <==> FailsOnKind(env, s, in_.msg, k))
  {
    if k.SaslOutcome? {
      OutcomeDecides(s, in_, k.success);
    } else {
      FewActs(React(env, s, in_, k).acts);
    }
  }

  lemma OutcomeDecides(s: State, in_: Input, success: bool)
    ensures var acts := StepOutcome(s, in_, success).acts;
            && (SendsCapEnd(acts) <==> !s.gotWelcome && (success || !s.sasl.required))
            && (Fails(acts) <==> !s.gotWelcome && !success && s.sasl.required)
  {
    FewActs(StepOutcome(s, in_, success).acts);
  }

  // ---------------------------------------------------------------- who is sent AUTHENTICATE

  ghost predicate Begins(acts: seq<Action>, m: Mech) {
    exists i :: 0 <= i < |acts| && acts[i].Send? && acts[i].line == Begin(m)
  }

  ghost predicate Picks(env: Env, s: State, m: Mech) {
    match m
    case ScramSha256 => PicksScram(env, s)
    case Plain => PicksPlain(env, s)
    case External => PicksExternal(env, s)
  }

  /** An exchange begins when sasl is acknowledged, wanted and can be done, and on no other line. */
  lemma BeginExact(env: Env, s: State, in_: Input, m: Mech)
    requires !Terminal(s.phase)
    ensures Begins(Step(env, s, in_).acts, m)
       <==> CapLine(env, in_.msg, "ACK") && AcksSasl(env, s, in_.msg) && Picks(env, s, m)
    ensures Begins(Step(env, s, in_).acts, m)
        ==> Step(env, s, in_).state.phase == Authenticating && Step(env, s, in_).state.mech == Some(m)
  {
    CapWords(env, in_.msg);
    var k := KindOf(env, in_.msg);
    match k
    case Cap(sub) => CapBegins(env, s, in_, sub, m);
    case Authenticate => AuthenticateBegins(env, s, in_, m);
    case _ =>
  }

  lemma CapBegins(env: Env, s: State, in_: Input, sub: CapSub, m: Mech)
    ensures var o := StepCap(env, s, in_, sub);
            && (Begins(o.acts, m) <==> sub == Ack && AcksSasl(env, s, in_.msg) && Picks(env, s, m))
            && (Begins(o.acts, m) ==> o.state.phase == Authenticating && o.state.mech == Some(m))
  {
    if sub == Ack {
      var s1 := s.(acked := s.acked + Names(AckTokens(env.fields(Trailing(in_.msg)))));
      SamePick(env, s, s1);
      StartBegins(env, s1, in_, m);
    }
  }

  lemma SamePick(env: Env, s: State, t: State)
    requires s.sasl == t.sasl && s.offered == t.offered
    ensures forall m :: Picks(env, t, m) == Picks(env, s, m)
  {
    assert Offer(s) == Offer(t);
  }

  lemma StartBegins(env: Env, s: State, in_: Input, m: Mech)
    ensures var o := StartSasl(env, s, in_);
            && (Begins(o.acts, m) <==> Picks(env, s, m))
            && (Begins(o.acts, m) ==> o.state.phase == Authenticating && o.state.mech == Some(m))
  {
    PickMechExact(env, s);
    var o := StartSasl(env, s, in_);
    assert o.acts != [] && (Begins(o.acts, m) <==> o.acts[0].Send? && o.acts[0].line == Begin(m));
  }

  lemma AuthenticateBegins(env: Env, s: State, in_: Input, m: Mech)
    ensures !Begins(StepAuthenticate(env, s, in_).acts, m)
  {
    ScramBegins(env, s, in_, Param(in_.msg, 0), m);
  }

  lemma LinesBegin(lines: seq<string>, replay: bool, m: Mech)
    ensures !Begins(AuthLines(lines, replay), m)
  {
  }

  lemma AbortBegins(s: State, in_: Input, e: Failure, m: Mech)
    ensures !Begins(Abort(s, in_, e).acts, m)
  {
  }

  lemma ScramBegins(env: Env, s: State, in_: Input, param: string, m: Mech)
    ensures !Begins(StepScram(env, s, in_, param).acts, m)
  {
    var o := StepScram(env, s, in_, param);
    RegistrationRuns.ScramMoves(env, s, in_, param);
    if exists e :: o == Abort(s, in_, e) {
      var e :| o == Abort(s, in_, e);
      AbortBegins(s, in_, e, m);
    } else {
      forall lines ensures !Begins(AuthLines(lines, in_.replay), m) {
        LinesBegin(lines, in_.replay, m);
      }
    }
  }

  /** The offers with the mechanism list that an ACK brings along. */
  function WithAckOffer(env: Env, s: State, msg: Message): State {
    s.(offered := AckOffer(AckTokens(env.fields(Trailing(msg))), s.offered))
  }

  /** After registration it is the same, unless an exchange is already under way. */
  lemma BeginPostExact(env: Env, s: State, in_: Input, m: Mech)
    requires s.phase == Complete
    ensures Begins(StepPost(env, s, in_).acts, m)
       <==> CapLine(env, in_.msg, "ACK") && AcksSasl(env, s, in_.msg) && s.mech.None?
            && Picks(env, WithAckOffer(env, s, in_.msg), m)
  {
    CapWords(env, in_.msg);
    var k := KindOf(env, in_.msg);
    if k == Cap(Ack) {
      PostAckBegins(env, s, in_, m);
    } else if k.Authenticate? {
      AuthenticateBegins(env, s, in_, m);
    }
  }

  lemma PostAckBegins(env: Env, s: State, in_: Input, m: Mech)
    ensures Begins(PostAck(env, s, in_, AckTokens(env.fields(Trailing(in_.msg)))).acts, m)
       <==> AcksSasl(env, s, in_.msg) && s.mech.None? && Picks(env, WithAckOffer(env, s, in_.msg), m)
  {
    var toks := AckTokens(env.fields(Trailing(in_.msg)));
    var s1 := s.(acked := s.acked + Names(toks), offered := AckOffer(toks, s.offered));
    SamePick(env, WithAckOffer(env, s, in_.msg), s1);
    PickMechExact(env, s1);
    var acts := PostStart(env, s1, in_).acts;
    assert acts != [] ==> (Begins(acts, m) <==> acts[0].line == Begin(m));
  }

  // ---------------------------------------------------------------- what CAP lines say

  lemma {:induction false} OfferNext(toks: seq<string>, tok: string, offered: map<string, string>)
    ensures AddOffers(toks + [tok], offered)
         == AddOffers(toks, offered)[Isupport.SplitKV(tok).0 := Isupport.SplitKV(tok).1]
    decreases |toks|
  {
    if toks == [] {
      OneOffer(tok, offered);
      assert toks + [tok] == [tok];
    } else {
      var (k, v) := Isupport.SplitKV(toks[0]);
      OfferNext(toks[1..], tok, offered[k := v]);
      assert (toks + [tok])[1..] == toks[1..] + [tok];
    }
  }

  /** Each token of an LS or NEW line is a name or name=value, and overwrites what was known. */
  lemma OffersRead(toks: seq<string>, name: string, val: string, offered: map<string, string>)
    requires '=' !in name
    ensures AddOffers([], offered) == offered
    ensures AddOffers(toks + [name], offered) == AddOffers(toks, offered)[name := ""]
    ensures AddOffers(toks + [name + "=" + val], offered) == AddOffers(toks, offered)[name := val]
  {
    Isupport.SplitWord(name, val);
    OfferNext(toks, name, offered);
    OfferNext(toks, name + "=" + val, offered);
  }

  lemma OneOffer(tok: string, offered: map<string, string>)
    ensures AddOffers([tok], offered) == offered[Isupport.SplitKV(tok).0 := Isupport.SplitKV(tok).1]
  {
    assert [tok][1..] == [];
  }

  lemma {:induction false} AckOfferNext(toks: seq<string>, tok: string, offered: map<string, string>)
    ensures var (k, v) := Isupport.SplitKV(tok);
            AckOffer(toks + [tok], offered)
            == if k == "sasl" && v != "" then AckOffer(toks, offered)["sasl" := v] else AckOffer(toks, offered)
    decreases |toks|
  {
    if toks == [] {
      OneAckOffer(tok, offered);
      assert toks + [tok] == [tok];
    } else {
      var (k, v) := Isupport.SplitKV(toks[0]);
      AckOfferNext(toks[1..], tok, if k == "sasl" && v != "" then offered[k := v] else offered);
      assert (toks + [tok])[1..] == toks[1..] + [tok];
    }
  }

  /** The last non-empty value of sasl on an ACK line replaces the offer; other tokens leave it alone. */
  lemma AckOfferRead(toks: seq<string>, tok: string, val: string, offered: map<string, string>)
    ensures val != "" ==> AckOffer(toks + ["sasl=" + val], offered) == AckOffer(toks, offered)["sasl" := val]
    ensures tok == "sasl=" || !("sasl=" <= tok) ==> AckOffer(toks + [tok], offered) == AckOffer(toks, offered)
  {
    SaslPrefix();
    Isupport.SplitWord("sasl", val);
    Isupport.SplitWord("sasl", "");
    assert "sasl=" + "" == "sasl=";
    NameIs(tok, "sasl");
    AckOfferNext(toks, "sasl=" + val, offered);
    AckOfferNext(toks, tok, offered);
  }

  lemma OneAckOffer(tok: string, offered: map<string, string>)
    ensures var (k, v) := Isupport.SplitKV(tok);
            AckOffer([tok], offered) == if k == "sasl" && v != "" then offered["sasl" := v] else offered
  {
    assert [tok][1..] == [];
  }

  /** A DEL line takes its names back, with or without a value. */
  lemma {:induction false} OffersDropped(toks: seq<string>, offered: map<string, string>, name: string)
    ensures name in DropOffers(toks, offered) <==> name in offered && name !in Names(toks)
    ensures name in DropOffers(toks, offered) ==> DropOffers(toks, offered)[name] == offered[name]
    decreases |toks|
  {
    if toks != [] {
      OffersDropped(toks[1..], offered - {Isupport.SplitKV(toks[0]).0}, name);
      assert toks == [toks[0]] + toks[1..];
    }
  }

  /** An ACK is one of sasl if a token reads sasl, -sasl, sasl=... or -sasl=... */
  lemma AckSaslExact(toks: seq<string>)
    ensures "sasl" in Names(AckTokens(toks)) <==> exists i :: 0 <= i < |toks| && IsSasl(toks[i])
  {
    var acks := AckTokens(toks);
    forall i | 0 <= i < |toks| ensures acks[i] in acks && (Isupport.SplitKV(acks[i]).0 == "sasl" <==> IsSasl(toks[i])) {
      SaslToken(toks[i]);
    }
    if "sasl" in Names(acks) {
      var t :| t in acks && Isupport.SplitKV(t).0 == "sasl";
      var i :| 0 <= i < |acks| && acks[i] == t;
      assert IsSasl(toks[i]);
    }
  }

  predicate IsSasl(tok: string) {
    tok == "sasl" || tok == "-sasl" || "sasl=" <= tok || "-sasl=" <= tok
  }

  lemma SaslToken(tok: string)
    ensures Isupport.SplitKV(TrimMinus(tok)).0 == "sasl" <==> IsSasl(tok)
  {
    var t := TrimMinus(tok);
    NameIs(t, "sasl");
    SaslPrefix();
    if tok != "" && tok[0] == '-' {
      assert tok == "-" + t;
      Minus(t);
    } else {
      NoMinus(tok);
    }
  }

  lemma SaslPrefix()
    ensures "sasl" + "=" == "sasl="
  {
  }

  lemma Minus(t: string)
    ensures "-" + t == "-sasl" <==> t == "sasl"
    ensures "-sasl=" <= "-" + t <==> "sasl=" <= t
    ensures "-" + t != "sasl" && !("sasl=" <= "-" + t)
  {
    assert ("-" + t)[1..] == t && ("-" + t)[0] == '-';
    assert "-sasl=" == "-" + "sasl=" && "-sasl" == "-" + "sasl";
    assert forall p: string :: "-" + p <= "-" + t <==> p <= t by {
      forall p: string ensures "-" + p <= "-" + t <==> p <= t {
        PrefixBehind('-', p, t);
      }
    }
  }

  lemma PrefixBehind(c: char, p: string, t: string)
    ensures [c] + p <= [c] + t <==> p <= t
  {
    assert ([c] + p)[1..] == p && ([c] + t)[1..] == t;
    if [c] + p <= [c] + t {
      assert forall i :: 0 <= i < |p| ==> p[i] == ([c] + p)[i + 1] == ([c] + t)[i + 1] == t[i];
    }
  }

  lemma NoMinus(t: string)
    requires t == "" || t[0] != '-'
    ensures t != "-sasl" && !("-sasl=" <= t)
  {
  }

  lemma NameIs(t: string, name: string)
    requires '=' !in name
    ensures Isupport.SplitKV(t).0 == name <==> t == name || name + "=" <= t
  {
    if name + "=" <= t {
      var val := t[|name| + 1..];
      assert t == name + "=" + val;
      Isupport.SplitWord(name, val);
    } else if t == name {
      Isupport.SplitWord(name, "");
    } else {
      var eq := IndexOf(t, '=');
      assert eq >= 0 ==> t == t[..eq] + "=" + t[eq + 1..];
    }
  }

  // ---------------------------------------------------------------- whole runs

  /** The state in which line k of a run is read. */
  function Before(env: Env, s: State, ins: seq<Input>, k: nat): State
    requires k <= |ins|
  {
    Run(env, s, ins[..k]).state
  }

  lemma BeforeNext(env: Env, s: State, ins: seq<Input>, k: nat)
    requires k < |ins|
    ensures Before(env, s, ins, k + 1) == Before(env, Step(env, s, ins[0]).state, ins[1..], k)
  {
    assert ins[..k + 1][1..] == ins[1..][..k];
  }

  lemma BeforeFirst(env: Env, s: State, ins: seq<Input>)
    ensures Before(env, s, ins, 0) == s
  {
    assert ins[..0] == [];
  }

  /** Line k is read while the run goes on, and ends CAP negotiation. */
  ghost predicate EndsCapAt(env: Env, s: State, ins: seq<Input>, k: nat) {
    k < |ins| && !Terminal(Before(env, s, ins, k).phase) && EndsCap(env, Before(env, s, ins, k), ins[k].msg)
  }

  lemma CapEndAppend(a: seq<Action>, b: seq<Action>)
    ensures SendsCapEnd(a + b) <==> SendsCapEnd(a) || SendsCapEnd(b)
  {
    var c := a + b;
    assert forall i :: 0 <= i < |a| ==> c[i] == a[i];
    assert forall i :: 0 <= i < |b| ==> c[|a| + i] == b[i];
    if SendsCapEnd(b) {
      var i :| 0 <= i < |b| && IsCapEnd(b[i]);
      assert IsCapEnd(c[|a| + i]);
    }
    if SendsCapEnd(c) {
      var i :| 0 <= i < |c| && IsCapEnd(c[i]);
      assert i >= |a| ==> IsCapEnd(b[i - |a|]);
    }
  }

  ghost predicate EndsCapSomewhere(env: Env, s: State, ins: seq<Input>) {
    exists k: nat :: EndsCapAt(env, s, ins, k)
  }

  lemma EndsCapNext(env: Env, s: State, ins: seq<Input>, k: nat)
    requires k + 1 < |ins|
    ensures EndsCapAt(env, s, ins, k + 1) <==> EndsCapAt(env, Step(env, s, ins[0]).state, ins[1..], k)
  {
    BeforeNext(env, s, ins, k);
  }

  lemma EndsCapShift(env: Env, s: State, ins: seq<Input>)
    requires ins != []
    ensures EndsCapSomewhere(env, s, ins)
       <==> EndsCapAt(env, s, ins, 0) || EndsCapSomewhere(env, Step(env, s, ins[0]).state, ins[1..])
  {
    var t := Step(env, s, ins[0]).state;
    if EndsCapSomewhere(env, t, ins[1..]) {
      var k: nat :| EndsCapAt(env, t, ins[1..], k);
      EndsCapNext(env, s, ins, k);
    }
    if EndsCapSomewhere(env, s, ins) {
      var k: nat :| EndsCapAt(env, s, ins, k);
      if k > 0 {
        EndsCapNext(env, s, ins, k - 1);
      }
    }
  }

  /** CAP END goes out in a run if and only if one of its lines ends CAP negotiation where it is read. */
  lemma {:induction false} CapEndRun(env: Env, s: State, ins: seq<Input>)
    ensures SendsCapEnd(Run(env, s, ins).acts) <==> EndsCapSomewhere(env, s, ins)
    decreases |ins|
  {
    if ins != [] {
      var o := Step(env, s, ins[0]);
      CapEndRun(env, o.state, ins[1..]);
      CapEndAppend(o.acts, Run(env, o.state, ins[1..]).acts);
      BeforeFirst(env, s, ins);
      EndsCapShift(env, s, ins);
      if !Terminal(s.phase) {
        StepExact(env, s, ins[0]);
      }
    }
  }

  /** Where SASL is required: a success before the welcome, or a line that bypasses SASL. */
  ghost predicate LetsGo(env: Env, s: State, msg: Message) {
    !Terminal(s.phase) && ((IsSuccess(msg.command) && !s.gotWelcome) || Bypasses(env, s, msg))
  }

  /** Once AUTHENTICATE has been sent with SASL required, CAP END goes out if and only if, since then, a
      903 or 907 has been read before the welcome, or one of the CAP lines that bypass SASL. */
  lemma NoCapEndUnauthenticated(env: Env, primary: string, alt: string, recovery: bool, sasl: SaslConfig,
      ins: seq<Input>, ack: Input, after: seq<Input>, m: Mech)
    requires sasl.required
    requires var s := Run(env, New(primary, alt, recovery, sasl), ins).state;
             !Terminal(s.phase) && Begins(Step(env, s, ack).acts, m)
    ensures var s := Run(env, New(primary, alt, recovery, sasl), ins).state;
            var t := Step(env, s, ack).state;
            && sasl.wanted && t.phase == Authenticating
            && (SendsCapEnd(Run(env, t, after).acts)
                <==> exists k :: 0 <= k < |after| && LetsGo(env, Before(env, t, after, k), after[k].msg))
  {
    var first := New(primary, alt, recovery, sasl);
    RegistrationRuns.RunEndsOnce(env, first, ins);
    var s := Run(env, first, ins).state;
    BeginExact(env, s, ack, m);
    var t := Step(env, s, ack).state;
    RegistrationRuns.ReactGood(env, s, ack, KindOf(env, ack.msg));
    CapEndRun(env, t, after);
    LetsGoAt(env, t, after);
  }

  lemma LetsGoAt(env: Env, t: State, after: seq<Input>)
    requires t.sasl.required && RegistrationRuns.Honest(t)
    ensures forall k: nat :: k < |after| ==>
            (LetsGo(env, Before(env, t, after, k), after[k].msg) <==> EndsCapAt(env, t, after, k))
  {
    forall k: nat | k < |after|
      ensures LetsGo(env, Before(env, t, after, k), after[k].msg) <==> EndsCapAt(env, t, after, k)
    {
      RegistrationRuns.RunEndsOnce(env, t, after[..k]);
    }
  }

  /** CAP lines that a server does not send between AUTHENTICATE and its outcome. */
  predicate Unexpected(env: Env, msg: Message) {
    CapLine(env, msg, "LS") || CapLine(env, msg, "ACK") || CapLine(env, msg, "NAK")
  }

  /** So without these the bouncer never registers before it is authenticated. */
  lemma OnlySuccessLetsGo(env: Env, t: State, after: seq<Input>)
    requires t.sasl.required && RegistrationRuns.Honest(t)
    requires forall k :: 0 <= k < |after| ==> !Unexpected(env, after[k].msg) && !IsSuccess(after[k].msg.command)
    ensures !SendsCapEnd(Run(env, t, after).acts)
  {
    CapEndRun(env, t, after);
    LetsGoAt(env, t, after);
  }

  function Cmd(command: string, params: seq<string>): Input {
    Input(Message(map[], "", command, params, ""), false)
  }

  /** With them it does: SASL is required and under way, a NAK arrives, and the bouncer goes on to
      register without having been authenticated. */
  lemma NakBypassesSasl(env: Env, primary: string, alt: string, recovery: bool, sasl: SaslConfig, other: string)
    requires sasl.required && sasl.wanted && sasl.user != "" && sasl.pass != ""
    requires env.desired == ["sasl"] && env.fields("sasl") == ["sasl"]
    requires env.upper("LS") == "LS" && env.upper("ACK") == "ACK" && env.upper("NAK") == "NAK"
    ensures var s := New(primary, alt, recovery, sasl);
            var asked := [Cmd("CAP", ["*", "LS", "sasl"]), Cmd("CAP", ["*", "ACK", "sasl"])];
            var let := [Cmd("CAP", ["*", "NAK", other])] + [Cmd("001", [primary]), Cmd("376", [primary])];
            Run(env, s, asked + let).acts
            == [Send(CapReq(["sasl"]), false), Send(Begin(Plain), false)] + [Send(CapEnd, false), Registered(false)]
  {
    var s := New(primary, alt, recovery, sasl);
    var s1 := s.(offered := map["sasl" := ""]);
    var s2 := s1.(acked := {"sasl"}, phase := Authenticating, mech := Some(Plain));
    var nak := Cmd("CAP", ["*", "NAK", other]);
    LsRequests(env, s);
    AckStarts(env, s1);
    NakLetsGo(env, s2, nak, primary);
    TwoSteps(env, s, s1, s2, Cmd("CAP", ["*", "LS", "sasl"]), Cmd("CAP", ["*", "ACK", "sasl"]),
      [nak] + [Cmd("001", [primary]), Cmd("376", [primary])]);
  }

  lemma NakLetsGo(env: Env, s: State, nak: Input, nick: string)
    requires s.phase == Authenticating && CapLine(env, nak.msg, "NAK") && !nak.replay
    ensures Run(env, s, [nak] + [Cmd("001", [nick]), Cmd("376", [nick])]).acts
         == [Send(CapEnd, false), Registered(false)]
  {
    NakEnds(env, s, nak);
    Welcomed(env, s.(phase := AwaitingWelcome), nick);
    RunCons(env, s, nak, [Cmd("001", [nick]), Cmd("376", [nick])]);
  }

  lemma NakEnds(env: Env, s: State, nak: Input)
    requires s.phase == Authenticating && CapLine(env, nak.msg, "NAK") && !nak.replay
    ensures Step(env, s, nak) == Outcome(s.(phase := AwaitingWelcome), [Send(CapEnd, false)])
  {
    CapWords(env, nak.msg);
  }

  lemma TwoSteps(env: Env, s: State, t: State, u: State, a: Input, b: Input, rest: seq<Input>)
    requires Step(env, s, a).state == t && |Step(env, s, a).acts| == 1
    requires Step(env, t, b).state == u && |Step(env, t, b).acts| == 1
    ensures Run(env, s, [a, b] + rest).acts
         == [Step(env, s, a).acts[0], Step(env, t, b).acts[0]] + Run(env, u, rest).acts
  {
    RunCons(env, s, a, [b] + rest);
    RunCons(env, t, b, rest);
    assert [a] + ([b] + rest) == [a, b] + rest;
    JoinActs(Step(env, s, a).acts, Step(env, t, b).acts, Run(env, u, rest).acts);
  }

  lemma JoinActs(a: seq<Action>, b: seq<Action>, c: seq<Action>)
    requires |a| == |b| == 1
    ensures a + (b + c) == [a[0], b[0]] + c
  {
  }

  lemma RunCons(env: Env, s: State, first: Input, rest: seq<Input>)
    ensures var o := Step(env, s, first);
            Run(env, s, [first] + rest) == Outcome(Run(env, o.state, rest).state, o.acts + Run(env, o.state, rest).acts)
  {
    assert ([first] + rest)[1..] == rest;
  }

  lemma SplitSasl()
    ensures Isupport.SplitKV("sasl") == ("sasl", "")
  {
    Isupport.SplitWord("sasl", "");
  }

  lemma LsRequests(env: Env, s: State)
    requires s.sasl.wanted && s.offered == map[] && env.desired == ["sasl"]
    requires env.fields("sasl") == ["sasl"] && env.upper("LS") == "LS" && !Terminal(s.phase)
    ensures Step(env, s, Cmd("CAP", ["*", "LS", "sasl"]))
         == Outcome(s.(offered := map["sasl" := ""]), [Send(CapReq(["sasl"]), false)])
  {
    var in_ := Cmd("CAP", ["*", "LS", "sasl"]);
    var t := s.(offered := map["sasl" := ""]);
    SplitSasl();
    OneOffer("sasl", map[]);
    assert AddOffers(["sasl"], map[]) == t.offered;
    RequestedExact("sasl", [], t);
    assert ["sasl"] + [] == ["sasl"];
    CapWords(env, in_.msg);
    assert KindOf(env, in_.msg) == Cap(Ls(false));
  }

  lemma AckStarts(env: Env, s: State)
    requires s.sasl.wanted && HasPassword(s) && s.offered == map["sasl" := ""] && s.acked == {}
    requires s.conv == None && !Terminal(s.phase)
    requires env.fields("sasl") == ["sasl"] && env.upper("ACK") == "ACK"
    ensures Step(env, s, Cmd("CAP", ["*", "ACK", "sasl"]))
         == Outcome(s.(acked := {"sasl"}, phase := Authenticating, mech := Some(Plain)), [Send(Begin(Plain), false)])
  {
    var in_ := Cmd("CAP", ["*", "ACK", "sasl"]);
    SplitSasl();
    assert AckTokens(["sasl"]) == ["sasl"];
    assert Names(["sasl"]) == {"sasl"};
    PickMechExact(env, s.(acked := {"sasl"}));
    CapWords(env, in_.msg);
    assert KindOf(env, in_.msg) == Cap(Ack);
    assert {} + {"sasl"} == {"sasl"};
  }

  lemma Welcomed(env: Env, s: State, nick: string)
    requires s.phase == AwaitingWelcome
    ensures Run(env, s, [Cmd("001", [nick]), Cmd("376", [nick])]).acts == [Registered(false)]
  {
    var welcome, motd := Cmd("001", [nick]), Cmd("376", [nick]);
    var t := s.(gotWelcome := true, nick := nick);
    Welcomes(env, s, nick);
    Completes(env, t, nick);
    RunCons(env, t, motd, []);
    RunCons(env, s, welcome, [motd]);
    assert [welcome] + [motd] == [welcome, motd] && [motd] + [] == [motd];
  }

  lemma Welcomes(env: Env, s: State, nick: string)
    requires s.phase == AwaitingWelcome
    ensures Step(env, s, Cmd("001", [nick])) == Outcome(s.(gotWelcome := true, nick := nick), [])
  {
    OtherWords(env, Cmd("001", [nick]).msg);
  }

  lemma Completes(env: Env, s: State, nick: string)
    requires s.phase == AwaitingWelcome && s.gotWelcome
    ensures Step(env, s, Cmd("376", [nick])) == Outcome(s.(phase := Complete), [Registered(false)])
  {
    OtherWords(env, Cmd("376", [nick]).msg);
  }

  // ---------------------------------------------------------------- the welcome burst

  /** The run is complete on the end of the MOTD, or on its absence, once welcomed; a 001 is what welcomes. */
  lemma WelcomeExact(env: Env, s: State, in_: Input)
    requires !Terminal(s.phase)
    ensures var c, o := in_.msg.command, Step(env, s, in_);
            && (o.state.phase == Complete <==> (c == "376" || c == "422") && s.gotWelcome)
            && (Registered(in_.replay) in o.acts <==> (c == "376" || c == "422") && s.gotWelcome)
            && (o.state.gotWelcome <==> s.gotWelcome || c == "001")
            && (c == "001" ==> o.state.nick == if in_.msg.params == [] then s.nick else in_.msg.params[0])
            && (c != "005" ==> o.state.isupport == s.isupport)
  {
    var k := KindOf(env, in_.msg);
    OtherWords(env, in_.msg);
    EndWords(env, in_.msg);
    RegistrationKeeps(env, s, in_, k);
  }

  /** An ERROR ends the run with the server's last word. */
  lemma ErrorExact(env: Env, s: State, in_: Input)
    requires !Terminal(s.phase) && in_.msg.command == "ERROR"
    ensures var n := |in_.msg.params|;
            var why := ServerError(if n == 0 then "" else in_.msg.params[n - 1]);
            Step(env, s, in_) == Outcome(s.(phase := Failed, err := Some(why)), [Fail(why, in_.replay)])
  {
    EndWords(env, in_.msg);
  }

  /** A refused nickname is answered with the next one, which is then the nickname; or the run ends with
      the refusal. After the welcome it is not this machine's concern. */
  lemma NickExact(env: Env, s: State, in_: Input)
    requires !Terminal(s.phase) && IsNickRefusal(in_.msg)
    ensures var next := NickLadder.NextNick(LadderIn(env, s), s.nick, Param(in_.msg, 1), env.fold(s.isupport));
            var why := NickRefused(in_.msg.command, in_.msg.params);
            Step(env, s, in_)
            == if s.gotWelcome then Outcome(s, [])
               else if s.nickRecovery && next != "" then Outcome(s.(nick := next), [Send(Nick(next), in_.replay)])
               else Outcome(s.(phase := Failed, err := Some(why)), [Fail(why, in_.replay)])
  {
    OtherWords(env, in_.msg);
  }

  /** The ladder is built for the nickname length the server announced, if it is a positive number. */
  lemma MaxLenExact(env: Env, s: State)
    ensures "NICKLEN" !in s.isupport || s.isupport["NICKLEN"] == "" ==> MaxLen(env, s) == 30
    ensures "NICKLEN" in s.isupport && s.isupport["NICKLEN"] != "" ==>
            var n := env.atoi(s.isupport["NICKLEN"]);
            MaxLen(env, s) == if n.Some? && n.value > 0 then n.value else 30
  {
  }

  /** The burst in between is kept as it came, without the nick in front; the tokens of a 005 are merged. */
  lemma BurstExact(env: Env, s: State, in_: Input)
    requires !Terminal(s.phase)
    ensures var c, params := in_.msg.command, in_.msg.params;
            var rest, o := if |params| <= 1 then [] else params[1..], Step(env, s, in_);
            && (c == "002" ==> o == Outcome(s.(rpl002 := rest), []))
            && (c == "003" ==> o == Outcome(s.(rpl003 := rest), []))
            && (c == "004" ==> o == Outcome(s.(rpl004 := rest), []))
            && (c == "005" ==>
                  o == Outcome(s.(isupport := Isupport.Merge(s.isupport, Isupport.TokenParams(params))), []))
  {
    BurstWords(env, in_.msg);
  }

  lemma BurstWords(env: Env, msg: Message)
    ensures msg.command == "002" ==> KindOf(env, msg) == Reply002
    ensures msg.command == "003" ==> KindOf(env, msg) == Reply003
    ensures msg.command == "004" ==> KindOf(env, msg) == Reply004
    ensures msg.command == "005" ==> KindOf(env, msg) == Reply005
  {
  }

  lemma RegistrationKeeps(env: Env, s: State, in_: Input, k: Kind)
    requires !Terminal(s.phase)
    ensures var o := React(env, s, in_, k);
            && (o.state.phase == Complete <==> k == MotdEnd && s.gotWelcome)
            && (Registered(in_.replay) in o.acts <==> k == MotdEnd && s.gotWelcome)
            && (o.state.gotWelcome <==> s.gotWelcome || k == Welcome)
            && (k != Reply005 ==> o.state.isupport == s.isupport)
  {
    match k
    case Cap(sub) => CapKeeps(env, s, in_, sub);
    case Authenticate => AuthenticateKeeps(env, s, in_);
    case _ => OtherKeeps(env, s, in_, k);
  }

  lemma OtherKeeps(env: Env, s: State, in_: Input, k: Kind)
    requires !Terminal(s.phase) && !k.Cap? && !k.Authenticate?
    ensures var o := React(env, s, in_, k);
            && (o.state.phase == Complete <==> k == MotdEnd && s.gotWelcome)
            && (Registered(in_.replay) in o.acts <==> k == MotdEnd && s.gotWelcome)
            && (o.state.gotWelcome <==> s.gotWelcome || k == Welcome)
            && (k != Reply005 ==> o.state.isupport == s.isupport)
  {
    match k
    case SaslOutcome(success) =>
      VerdictQuiet(Forget(s), in_, SaslFailed(in_.msg.command, in_.msg.params));
    case NickError =>
      VerdictQuiet(s, in_, NickRefused(in_.msg.command, in_.msg.params));
    case ErrorLine =>
      VerdictQuiet(s, in_, ServerError(Trailing(in_.msg)));
    case MotdEnd =>
    case Welcome =>
    case _ =>
  }

  /** SASL and CAP traffic neither welcomes nor completes. */
  ghost predicate Quiet(s: State, o: Outcome) {
    && (o.state.phase == Complete ==> s.phase == Complete) && o.state.gotWelcome == s.gotWelcome
    && o.state.isupport == s.isupport && forall a :: a in o.acts ==> !a.Registered?
  }

  lemma SendsQuiet(s: State, o: Outcome)
    requires o.state.phase == s.phase && o.state.gotWelcome == s.gotWelcome && o.state.isupport == s.isupport
    requires RegistrationRuns.OnlySends(o.acts)
    ensures Quiet(s, o)
  {
  }

  lemma VerdictQuiet(s: State, in_: Input, e: Failure)
    ensures Quiet(s, EndCap(s, in_, [])) && Quiet(s, FailWith(s, in_, e, []))
  {
  }

  lemma AbortQuiet(s: State, in_: Input, e: Failure)
    ensures Quiet(s, Abort(s, in_, e))
  {
  }

  lemma CapKeeps(env: Env, s: State, in_: Input, sub: CapSub)
    ensures Quiet(s, StepCap(env, s, in_, sub))
  {
    var toks := env.fields(Trailing(in_.msg));
    match sub
    case Ls(more) => LsKeeps(env, s.(offered := AddOffers(toks, s.offered)), in_, more);
    case Ack => StartKeeps(env, s.(acked := s.acked + Names(AckTokens(toks))), in_);
    case _ => VerdictQuiet(s, in_, BadChallenge);
  }

  lemma LsKeeps(env: Env, s: State, in_: Input, more: bool)
    ensures Quiet(s, StepLs(env, s, in_, more))
  {
    VerdictQuiet(s, in_, BadChallenge);
  }

  lemma StartKeeps(env: Env, s: State, in_: Input)
    ensures Quiet(s, StartSasl(env, s, in_)) && Quiet(s, EndCap(s, in_, []))
  {
    VerdictQuiet(s, in_, NoMechanism(Offer(s)));
  }

  lemma AuthenticateKeeps(env: Env, s: State, in_: Input)
    ensures Quiet(s, StepAuthenticate(env, s, in_))
  {
    var o := StepAuthenticate(env, s, in_);
    RegistrationRuns.AuthenticateMoves(env, s, in_);
    if RegistrationRuns.Tweaked(s, o.state) && RegistrationRuns.OnlySends(o.acts) {
      SendsQuiet(s, o);
    } else {
      var e :| o == Abort(s, in_, e);
      AbortQuiet(s, in_, e);
    }
  }
}

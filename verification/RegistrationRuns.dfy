/** What every run of the registration machine keeps: it ends at most once and says so exactly then,
    re-authentication never touches the registration, and replayed lines act like live ones
    (internal/registration). */
module RegistrationRuns {
  import opened Common
  import opened Codec
  import opened Registration

  // ---------------------------------------------------------------- a run ends once

  ghost predicate OnlySends(acts: seq<Action>) {
    forall i :: 0 <= i < |acts| ==> acts[i].Send?
  }

  /** The verdict an ended run owes its caller. */
  predicate Announces(a: Action, p: Phase) {
    (a.Registered? && p == Complete) || (a.Fail? && p == Failed)
  }

  /** No verdict while the run goes on; exactly one, as the last action, when it ends; nothing at
      all once it has ended. */
  ghost predicate EndsOnce(before: Phase, after: Phase, acts: seq<Action>) {
    if Terminal(before) then after == before && acts == []
    else if !Terminal(after) then OnlySends(acts)
    else acts != [] && OnlySends(acts[..|acts| - 1]) && Announces(acts[|acts| - 1], after)
  }

  /** Complete needs a welcome, and an error is recorded exactly on failure. */
  predicate Honest(s: State) {
    (s.phase == Complete ==> s.gotWelcome) && (s.phase == Failed <==> s.err.Some?)
  }

  /** What no step changes. */
  predicate SameConfig(s: State, t: State) {
    s.primaryNick == t.primaryNick && s.altNick == t.altNick && s.nickRecovery == t.nickRecovery && s.sasl == t.sasl
  }

  /** What SASL and CAP traffic leaves alone. */
  predicate SameNick(s: State, t: State) {
    SameConfig(s, t) && t.gotWelcome == s.gotWelcome && t.nick == s.nick && t.isupport == s.isupport
  }

  /** A step that keeps the promise so far. */
  ghost predicate Good(s: State, o: Outcome) {
    Honest(o.state) && SameConfig(s, o.state) && EndsOnce(s.phase, o.state.phase, o.acts)
  }

  /** Once welcomed, SASL traffic neither moves the phase nor ends anything. */
  ghost predicate Harmless(s: State, o: Outcome) {
    o.state.phase == s.phase && o.state.err == s.err && OnlySends(o.acts)
  }

  lemma FailGood(s: State, in_: Input, e: Failure, before: seq<Action>)
    requires !Terminal(s.phase) && OnlySends(before)
    ensures var o := FailWith(s, in_, e, before); SameNick(s, o.state) && Good(s, o)
  {
    var acts := before + [Fail(e, in_.replay)];
    assert acts[..|acts| - 1] == before;
  }

  lemma EndCapGood(s: State, in_: Input, before: seq<Action>)
    requires !Terminal(s.phase) && s.err.None? && OnlySends(before)
    ensures var o := EndCap(s, in_, before); SameNick(s, o.state) && Good(s, o)
  {
  }

  /** Apart from the exchange in progress. */
  predicate Tweaked(s: State, t: State) {
    t == s.(mech := t.mech, conv := t.conv)
  }

  /** All that SASL traffic can do: move the exchange on and send, or abort it. */
  ghost predicate SaslMove(s: State, in_: Input, o: Outcome) {
    (Tweaked(s, o.state) && OnlySends(o.acts)) || exists e :: o == Abort(s, in_, e)
  }

  lemma ScramMoves(env: Env, s: State, in_: Input, param: string)
    ensures SaslMove(s, in_, StepScram(env, s, in_, param))
  {
    var o := StepScram(env, s, in_, param);
    var challenge := if param == "+" then Some("") else env.unbase64(param);
    if s.sasl.user == "" || s.sasl.pass == "" {
      assert o == Abort(s, in_, MissingPassword);
    } else if challenge.None? {
      assert o == Abort(s, in_, BadChallenge);
    } else if s.conv.None? && !env.scramClient(s.sasl) {
      assert o == Abort(s, in_, ScramFailed);
    } else if env.scram(s.sasl, (if s.conv.Some? then s.conv.value else []) + [challenge.value]).None? {
      assert o == Abort(s, in_, ScramFailed);
    }
  }

  lemma AuthenticateMoves(env: Env, s: State, in_: Input)
    ensures SaslMove(s, in_, StepAuthenticate(env, s, in_))
  {
    var param := Param(in_.msg, 0);
    ScramMoves(env, s, in_, param);
  }

  lemma AbortKeeps(s: State, in_: Input, e: Failure)
    requires s.phase != Failed && Honest(s)
    ensures var o := Abort(s, in_, e);
            SameNick(s, o.state) && (if s.gotWelcome then Harmless(s, o) else Good(s, o))
  {
    var acts := [Send(Auth("*"), in_.replay)];
    if !s.gotWelcome {
      FailGood(Forget(s), in_, e, acts);
      EndCapGood(Forget(s), in_, acts);
    }
  }

  lemma MoveKeeps(s: State, in_: Input, o: Outcome)
    requires s.phase != Failed && Honest(s) && SaslMove(s, in_, o)
    ensures SameNick(s, o.state) && (if s.gotWelcome then Harmless(s, o) else Good(s, o))
  {
    if !(Tweaked(s, o.state) && OnlySends(o.acts)) {
      var e :| o == Abort(s, in_, e);
      AbortKeeps(s, in_, e);
    }
  }

  lemma HarmlessGood(s: State, o: Outcome)
    requires Honest(s) && !Terminal(s.phase) && Harmless(s, o) && SameConfig(s, o.state)
    ensures Good(s, o)
  {
  }

  lemma AuthenticateGood(env: Env, s: State, in_: Input)
    requires !Terminal(s.phase) && Honest(s)
    ensures var o := StepAuthenticate(env, s, in_); SameNick(s, o.state) && Good(s, o)
  {
    var o := StepAuthenticate(env, s, in_);
    AuthenticateMoves(env, s, in_);
    MoveKeeps(s, in_, o);
    if s.gotWelcome {
      HarmlessGood(s, o);
    }
  }

  lemma OutcomeGood(s: State, in_: Input, success: bool)
    requires !Terminal(s.phase) && Honest(s)
    ensures var o := StepOutcome(s, in_, success); SameNick(s, o.state) && Good(s, o)
  {
    var s1 := Forget(s);
    FailGood(s1, in_, SaslFailed(in_.msg.command, in_.msg.params), []);
    EndCapGood(s1, in_, []);
  }

  lemma StartGood(env: Env, s: State, in_: Input)
    requires !Terminal(s.phase) && Honest(s)
    ensures var o := StartSasl(env, s, in_); SameNick(s, o.state) && Good(s, o)
  {
    var offer := if "sasl" in s.offered then s.offered["sasl"] else "";
    FailGood(s, in_, NoMechanism(offer), []);
    EndCapGood(s, in_, []);
  }

  lemma CapGood(env: Env, s: State, in_: Input, sub: CapSub)
    requires !Terminal(s.phase) && Honest(s)
    ensures var o := StepCap(env, s, in_, sub); SameNick(s, o.state) && Good(s, o)
  {
    var toks := env.fields(Trailing(in_.msg));
    match sub
    case Ls(more) => LsGood(env, s.(offered := AddOffers(toks, s.offered)), in_, more);
    case Ack => AckGood(env, s, in_, Names(AckTokens(toks)));
    case _ => EndCapGood(s, in_, []);
  }

  lemma LsGood(env: Env, s: State, in_: Input, more: bool)
    requires !Terminal(s.phase) && Honest(s)
    ensures var o := StepLs(env, s, in_, more); SameNick(s, o.state) && Good(s, o)
  {
    EndCapGood(s, in_, []);
  }

  lemma AckGood(env: Env, s: State, in_: Input, names: set<string>)
    requires !Terminal(s.phase) && Honest(s)
    ensures var o := StepAck(env, s, in_, names); SameNick(s, o.state) && Good(s, o)
  {
    var s1 := s.(acked := s.acked + names);
    EndCapGood(s1, in_, []);
    StartGood(env, s1, in_);
  }

  lemma NickGood(env: Env, s: State, in_: Input)
    requires !Terminal(s.phase) && Honest(s)
    ensures Good(s, StepNickError(env, s, in_))
  {
    FailGood(s, in_, NickRefused(in_.msg.command, in_.msg.params), []);
  }

  lemma ReactGood(env: Env, s: State, in_: Input, k: Kind)
    requires Honest(s)
    ensures Good(s, React(env, s, in_, k))
  {
    if !Terminal(s.phase) {
      match k
      case Cap(sub) => CapGood(env, s, in_, sub);
      case Authenticate => AuthenticateGood(env, s, in_);
      case SaslOutcome(success) => OutcomeGood(s, in_, success);
      case NickError => NickGood(env, s, in_);
      case ErrorLine => FailGood(s, in_, ServerError(Trailing(in_.msg)), []);
      case _ =>
    }
  }

  lemma EndsOnceThen(p: Phase, q: Phase, r: Phase, a: seq<Action>, b: seq<Action>)
    requires EndsOnce(p, q, a) && EndsOnce(q, r, b)
    ensures EndsOnce(p, r, a + b)
  {
    if Terminal(q) {
      assert a + b == a;
    } else if Terminal(r) {
      assert (a + b)[..|a + b| - 1] == a + b[..|b| - 1];
    }
  }

  /** Over any sequence of lines at most one Registered or Failed is emitted: exactly when the run
      has ended, as its last action, and matching the phase it ended in. */
  lemma {:induction false} RunEndsOnce(env: Env, s: State, ins: seq<Input>)
    requires Honest(s)
    ensures var o := Run(env, s, ins);
            Honest(o.state) && SameConfig(s, o.state) && EndsOnce(s.phase, o.state.phase, o.acts)
    decreases |ins|
  {
    if ins != [] {
      var o := Step(env, s, ins[0]);
      ReactGood(env, s, ins[0], KindOf(env, ins[0].msg));
      RunEndsOnce(env, o.state, ins[1..]);
      var rest := Run(env, o.state, ins[1..]);
      EndsOnceThen(s.phase, o.state.phase, rest.state.phase, o.acts, rest.acts);
    }
  }

  // ---------------------------------------------------------------- after registration

  predicate Settled(s: State) {
    s.phase == Complete && s.gotWelcome && s.err.None?
  }

  lemma PostCapSends(env: Env, s: State, in_: Input, sub: CapSub)
    ensures var o := PostCap(env, s, in_, sub);
            SameNick(s, o.state) && o.state.phase == s.phase && o.state.err == s.err && OnlySends(o.acts)
  {
    if sub.Ack? {
      PostAckSends(env, s, in_, AckTokens(env.fields(Trailing(in_.msg))));
    }
  }

  lemma PostAckSends(env: Env, s: State, in_: Input, toks: seq<string>)
    ensures var o := PostAck(env, s, in_, toks);
            SameNick(s, o.state) && o.state.phase == s.phase && o.state.err == s.err && OnlySends(o.acts)
  {
    var s1 := s.(acked := s.acked + Names(toks), offered := AckOffer(toks, s.offered));
    var o := PostStart(env, s1, in_);
    assert Tweaked(s1, o.state) && OnlySends(o.acts);
  }

  lemma PostSends(env: Env, s: State, in_: Input, k: Kind)
    requires Settled(s)
    ensures var o := ReactPost(env, s, in_, k); Settled(o.state) && SameNick(s, o.state) && OnlySends(o.acts)
  {
    match k
    case Cap(sub) => PostCapSends(env, s, in_, sub);
    case Authenticate =>
      AuthenticateMoves(env, s, in_);
      MoveKeeps(s, in_, StepAuthenticate(env, s, in_));
    case _ =>
  }

  /** From a registered state, re-authentication only ever sends: the registration stands. */
  lemma {:induction false} PostRunSends(env: Env, s: State, ins: seq<Input>)
    requires Settled(s)
    ensures var o := RunPost(env, s, ins); Settled(o.state) && SameNick(s, o.state) && OnlySends(o.acts)
    decreases |ins|
  {
    if ins != [] {
      PostSends(env, s, ins[0], KindOf(env, ins[0].msg));
      PostRunSends(env, StepPost(env, s, ins[0]).state, ins[1..]);
    }
  }

  /** A whole connection: lines up to any point, then re-authentication on whatever state that
      left. At most one verdict, and none after it. */
  lemma ConnectionEndsOnce(env: Env, primary: string, alt: string, recovery: bool, sasl: SaslConfig,
      ins: seq<Input>, post: seq<Input>)
    ensures var reg := Run(env, New(primary, alt, recovery, sasl), ins);
            var after := RunPost(env, reg.state, post);
            && EndsOnce(CapNegotiation, reg.state.phase, reg.acts)
            && after.state.phase == reg.state.phase && OnlySends(after.acts)
            && (reg.state.phase != Complete ==> after == Outcome(reg.state, []))
  {
    var s := New(primary, alt, recovery, sasl);
    RunEndsOnce(env, s, ins);
    var reg := Run(env, s, ins);
    if reg.state.phase == Complete {
      PostRunSends(env, reg.state, post);
    } else {
      PostIdle(env, reg.state, post);
    }
  }

  lemma {:induction false} PostIdle(env: Env, s: State, ins: seq<Input>)
    requires s.phase != Complete
    ensures RunPost(env, s, ins) == Outcome(s, [])
    decreases |ins|
  {
    if ins != [] {
      PostIdle(env, s, ins[1..]);
    }
  }

  // ---------------------------------------------------------------- replay is live

  function Marked(a: Action, replay: bool): Action {
    match a
    case Send(line, _) => Send(line, replay)
    case Registered(_) => Registered(replay)
    case Fail(e, _) => Fail(e, replay)
  }

  function MarkAll(acts: seq<Action>, replay: bool): (r: seq<Action>)
    ensures |r| == |acts|
  {
    seq(|acts|, i requires 0 <= i < |acts| => Marked(acts[i], replay))
  }

  /** `b` is what `a` does with the other flag. */
  ghost predicate SameBut(a: Outcome, b: Outcome, replay: bool) {
    a.state == b.state && b.acts == MarkAll(a.acts, replay)
  }

  lemma MarkSend(s: State, in_: Input, b64: string, replay: bool)
    ensures SameBut(SendAuthenticate(s, in_, b64), SendAuthenticate(s, in_.(replay := replay), b64), replay)
  {
  }

  lemma MarkAbort(s: State, in_: Input, e: Failure, replay: bool)
    ensures SameBut(Abort(s, in_, e), Abort(s, in_.(replay := replay), e), replay)
  {
  }

  lemma ReplayScram(env: Env, s: State, in_: Input, param: string, replay: bool)
    ensures SameBut(StepScram(env, s, in_, param), StepScram(env, s, in_.(replay := replay), param), replay)
  {
    forall t, e ensures SameBut(Abort(t, in_, e), Abort(t, in_.(replay := replay), e), replay) {
      MarkAbort(t, in_, e, replay);
    }
    forall t, b ensures SameBut(SendAuthenticate(t, in_, b), SendAuthenticate(t, in_.(replay := replay), b), replay) {
      MarkSend(t, in_, b, replay);
    }
  }

  lemma ReplayAuthenticate(env: Env, s: State, in_: Input, replay: bool)
    ensures SameBut(StepAuthenticate(env, s, in_), StepAuthenticate(env, s, in_.(replay := replay)), replay)
  {
    match s.mech
    case Some(Plain) =>
      MarkAbort(s, in_, MissingPassword, replay);
      MarkSend(s, in_, env.base64("\0" + s.sasl.user + "\0" + s.sasl.pass), replay);
    case Some(External) =>
      MarkSend(s, in_, if s.sasl.user == "" then "+" else env.base64(s.sasl.user), replay);
    case Some(ScramSha256) => ReplayScram(env, s, in_, Param(in_.msg, 0), replay);
    case None =>
  }

  lemma ReplayStart(env: Env, s: State, in_: Input, replay: bool)
    ensures SameBut(StartSasl(env, s, in_), StartSasl(env, s, in_.(replay := replay)), replay)
    ensures SameBut(PostStart(env, s, in_), PostStart(env, s, in_.(replay := replay)), replay)
  {
  }

  lemma ReplayCap(env: Env, s: State, in_: Input, sub: CapSub, replay: bool)
    ensures SameBut(StepCap(env, s, in_, sub), StepCap(env, s, in_.(replay := replay), sub), replay)
  {
    var names := Names(AckTokens(env.fields(Trailing(in_.msg))));
    ReplayStart(env, s.(acked := s.acked + names), in_, replay);
  }

  lemma ReplayPostCap(env: Env, s: State, in_: Input, sub: CapSub, replay: bool)
    ensures SameBut(PostCap(env, s, in_, sub), PostCap(env, s, in_.(replay := replay), sub), replay)
  {
    var toks := AckTokens(env.fields(Trailing(in_.msg)));
    ReplayStart(env, s.(acked := s.acked + Names(toks), offered := AckOffer(toks, s.offered)), in_, replay);
  }

  lemma ReplayNick(env: Env, s: State, in_: Input, replay: bool)
    ensures SameBut(StepNickError(env, s, in_), StepNickError(env, s, in_.(replay := replay)), replay)
  {
  }

  lemma ReplayOutcome(s: State, in_: Input, success: bool, replay: bool)
    ensures SameBut(StepOutcome(s, in_, success), StepOutcome(s, in_.(replay := replay), success), replay)
  {
  }

  lemma ReplayReact(env: Env, s: State, in_: Input, k: Kind, replay: bool)
    ensures SameBut(React(env, s, in_, k), React(env, s, in_.(replay := replay), k), replay)
  {
    match k
    case Cap(sub) => ReplayCap(env, s, in_, sub, replay);
    case Authenticate => ReplayAuthenticate(env, s, in_, replay);
    case SaslOutcome(success) => ReplayOutcome(s, in_, success, replay);
    case NickError => ReplayNick(env, s, in_, replay);
    case _ =>
  }

  lemma ReplayReactPost(env: Env, s: State, in_: Input, k: Kind, replay: bool)
    ensures SameBut(ReactPost(env, s, in_, k), ReactPost(env, s, in_.(replay := replay), k), replay)
  {
    match k
    case Cap(sub) => ReplayPostCap(env, s, in_, sub, replay);
    case Authenticate => ReplayAuthenticate(env, s, in_, replay);
    case SaslOutcome(success) => ReplayOutcome(s, in_, success, replay);
    case _ =>
  }

  function Replayed(ins: seq<Input>, replay: bool): (r: seq<Input>)
    ensures |r| == |ins|
  {
    seq(|ins|, i requires 0 <= i < |ins| => ins[i].(replay := replay))
  }

  /** A transcript replayed gives the state and the actions of the live run, up to the flag. */
  lemma {:induction false} ReplayRun(env: Env, s: State, ins: seq<Input>, replay: bool)
    ensures SameBut(Run(env, s, ins), Run(env, s, Replayed(ins, replay)), replay)
    decreases |ins|
  {
    if ins != [] {
      var i0, again := ins[0], Replayed(ins, replay);
      ReplayReact(env, s, i0, KindOf(env, i0.msg), replay);
      assert again[0] == i0.(replay := replay) && again[1..] == Replayed(ins[1..], replay);
      assert Step(env, s, again[0]) == React(env, s, again[0], KindOf(env, i0.msg));
      var o := Step(env, s, i0);
      ReplayRun(env, o.state, ins[1..], replay);
      MarkAppend(o.acts, Run(env, o.state, ins[1..]).acts, replay);
    }
  }

  lemma {:induction false} ReplayRunPost(env: Env, s: State, ins: seq<Input>, replay: bool)
    ensures SameBut(RunPost(env, s, ins), RunPost(env, s, Replayed(ins, replay)), replay)
    decreases |ins|
  {
    if ins != [] {
      var i0, again := ins[0], Replayed(ins, replay);
      ReplayReactPost(env, s, i0, KindOf(env, i0.msg), replay);
      assert again[0] == i0.(replay := replay) && again[1..] == Replayed(ins[1..], replay);
      assert StepPost(env, s, again[0]) == ReactPost(env, s, again[0], KindOf(env, i0.msg));
      var o := StepPost(env, s, i0);
      ReplayRunPost(env, o.state, ins[1..], replay);
      MarkAppend(o.acts, RunPost(env, o.state, ins[1..]).acts, replay);
    }
  }

  lemma MarkAppend(a: seq<Action>, b: seq<Action>, replay: bool)
    ensures MarkAll(a + b, replay) == MarkAll(a, replay) + MarkAll(b, replay)
  {
  }
}

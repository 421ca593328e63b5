/** Nick errors over whole registration runs: the NICK lines of a run are a climb of the ladder, so
    they are bounded and never repeat (internal/registration/nick.go). */
module RegistrationNicks {
  import opened Common
  import opened Codec
  import opened Registration
  import opened RegistrationRuns
  import NickLadder

  /** The nicks a list of actions asks for. */
  function NicksIn(acts: seq<Action>): seq<string> {
    if acts == [] then []
    else
      var rest := NicksIn(acts[1..]);
      if acts[0].Send? && acts[0].line.Nick? then [acts[0].line.nick] + rest else rest
  }

  ghost predicate NoNick(acts: seq<Action>) {
    forall i :: 0 <= i < |acts| ==> !(acts[i].Send? && acts[i].line.Nick?)
  }

  lemma {:induction false} NicksAppend(a: seq<Action>, b: seq<Action>)
    ensures NicksIn(a + b) == NicksIn(a) + NicksIn(b)
  {
    if a == [] {
      assert a + b == b;
    } else {
      NicksAppend(a[1..], b);
      assert (a + b)[1..] == a[1..] + b && (a + b)[0] == a[0];
      var first := if a[0].Send? && a[0].line.Nick? then [a[0].line.nick] else [];
      assert NicksIn(a + b) == first + (NicksIn(a[1..]) + NicksIn(b));
      assert NicksIn(a) == first + NicksIn(a[1..]);
    }
  }

  lemma {:induction false} NoNickNone(acts: seq<Action>)
    requires NoNick(acts)
    ensures NicksIn(acts) == []
  {
    if acts != [] {
      NoNickNone(acts[1..]);
    }
  }

  /** Still trying for a nick. */
  predicate Trying(s: State) {
    !Terminal(s.phase) && !s.gotWelcome
  }

  /** The nicks the server refuses on the way. */
  function Refused(env: Env, s: State, ins: seq<Input>): seq<string>
    decreases |ins|
  {
    if ins == [] then []
    else
      (if Trying(s) && KindOf(env, ins[0].msg).NickError? then [Param(ins[0].msg, 1)] else [])
      + Refused(env, Step(env, s, ins[0]).state, ins[1..])
  }

  /** No ISUPPORT line changes the token map before the welcome. */
  predicate Steady(env: Env, s: State, ins: seq<Input>)
    decreases |ins|
  {
    ins == [] ||
    (var t := Step(env, s, ins[0]).state;
     (Trying(s) ==> t.isupport == s.isupport) && Steady(env, t, ins[1..]))
  }

  lemma SaslNoNick(env: Env, s: State, in_: Input)
    ensures NoNick(StepAuthenticate(env, s, in_).acts)
  {
    var param := Param(in_.msg, 0);
    if s.mech == Some(ScramSha256) && param != "" && param != "*" {
      ScramNoNick(env, s, in_, param);
    }
  }

  lemma ScramNoNick(env: Env, s: State, in_: Input, param: string)
    ensures NoNick(StepScram(env, s, in_, param).acts)
  {
    forall t, e ensures NoNick(Abort(t, in_, e).acts) {
    }
  }

  lemma CapNoNick(env: Env, s: State, in_: Input, sub: CapSub)
    ensures NoNick(StepCap(env, s, in_, sub).acts)
  {
  }

  /** Lines that are not effective nick errors ask for no nick and leave it alone until the welcome. */
  lemma OtherKinds(env: Env, s: State, in_: Input, k: Kind)
    requires Honest(s) && !(Trying(s) && k.NickError?)
    ensures var o := React(env, s, in_, k);
            NoNick(o.acts) && (Trying(o.state) ==> Trying(s) && o.state.nick == s.nick)
  {
    if !Terminal(s.phase) {
      match k
      case Cap(sub) =>
        CapNoNick(env, s, in_, sub);
        CapGood(env, s, in_, sub);
      case Authenticate =>
        SaslNoNick(env, s, in_);
        AuthenticateGood(env, s, in_);
      case SaslOutcome(success) => OutcomeGood(s, in_, success);
      case _ =>
    }
  }

  lemma SentCons(ladder: seq<string>, nick: string, bads: seq<string>, fold: NickLadder.Fold)
    requires bads != []
    ensures var r := NickLadder.NextRung(ladder, nick, bads[0], fold);
            NickLadder.Sent(ladder, nick, bads, fold)
            == if r < |ladder| then [ladder[r]] + NickLadder.Sent(ladder, ladder[r], bads[1..], fold) else []
  {
  }

  lemma LadderRungs(env: Env, s: State)
    ensures forall i :: 0 <= i < |LadderIn(env, s)| ==> LadderIn(env, s)[i] != ""
  {
    var maxLen := MaxLen(env, s);
    var n := NickLadder.Length(maxLen);
    NickLadder.LadderOf(NickLadder.Wanted(s.primaryNick, s.altNick, n), n, env.lower);
    forall i | 0 <= i < |LadderIn(env, s)| ensures LadderIn(env, s)[i] != "" {
      assert LadderIn(env, s)[i] in LadderIn(env, s);
    }
  }

  /** The nicks still to be asked for, if the server refuses `bads`. */
  function Climbed(env: Env, s: State, bads: seq<string>): seq<string> {
    if Trying(s) then NickLadder.Sent(LadderIn(env, s), s.nick, bads, env.fold(s.isupport)) else []
  }

  lemma ErrorOutcome(env: Env, s: State, in_: Input, r: nat)
    requires Honest(s) && Trying(s) && s.nickRecovery
    requires r == NickLadder.NextRung(LadderIn(env, s), s.nick, Param(in_.msg, 1), env.fold(s.isupport))
    ensures var o, ladder := StepNickError(env, s, in_), LadderIn(env, s);
            if r < |ladder| then o.state == s.(nick := ladder[r]) && NicksIn(o.acts) == [ladder[r]]
            else o.state.phase == Failed && NicksIn(o.acts) == []
  {
    LadderRungs(env, s);
    var ladder := LadderIn(env, s);
    if r < |ladder| {
      OneAction(Send(Nick(ladder[r]), in_.replay));
    } else {
      OneAction(Fail(NickRefused(in_.msg.command, in_.msg.params), in_.replay));
    }
  }

  lemma OneAction(a: Action)
    ensures NicksIn([a]) == if a.Send? && a.line.Nick? then [a.line.nick] else []
    ensures [] + [a] == [a]
  {
    assert [a][1..] == [];
  }

  lemma ErrorClimbs(env: Env, s: State, in_: Input, bads: seq<string>)
    requires Honest(s) && Trying(s) && s.nickRecovery
    ensures var o := StepNickError(env, s, in_);
            Climbed(env, s, [Param(in_.msg, 1)] + bads) == NicksIn(o.acts) + Climbed(env, o.state, bads)
  {
    var ladder, bad, fold := LadderIn(env, s), Param(in_.msg, 1), env.fold(s.isupport);
    var r := NickLadder.NextRung(ladder, s.nick, bad, fold);
    ErrorOutcome(env, s, in_, r);
    SentCons(ladder, s.nick, [bad] + bads, fold);
    assert ([bad] + bads)[1..] == bads && ([bad] + bads)[0] == bad;
    if r < |ladder| {
      LadderSame(env, s, s.(nick := ladder[r]));
    }
  }

  lemma LadderSame(env: Env, s: State, t: State)
    requires SameConfig(s, t) && t.isupport == s.isupport
    ensures LadderIn(env, s) == LadderIn(env, t)
  {
  }

  lemma {:induction false} SettledRefuses(env: Env, s: State, ins: seq<Input>)
    requires Honest(s) && !Trying(s)
    ensures Refused(env, s, ins) == []
    decreases |ins|
  {
    if ins != [] {
      var k := KindOf(env, ins[0].msg);
      ReactGood(env, s, ins[0], k);
      OtherKinds(env, s, ins[0], k);
      SettledRefuses(env, Step(env, s, ins[0]).state, ins[1..]);
    }
  }

  lemma OtherClimbs(env: Env, s: State, in_: Input, k: Kind, bads: seq<string>)
    requires Honest(s) && !(Trying(s) && k.NickError?)
    requires var t := React(env, s, in_, k).state;
             (Trying(s) ==> t.isupport == s.isupport) && (!Trying(t) ==> bads == [])
    ensures var o := React(env, s, in_, k);
            NicksIn(o.acts) == [] && Climbed(env, s, bads) == Climbed(env, o.state, bads)
  {
    var o := React(env, s, in_, k);
    OtherKinds(env, s, in_, k);
    ReactGood(env, s, in_, k);
    NoNickNone(o.acts);
    if Trying(o.state) {
      LadderSame(env, s, o.state);
    }
  }

  lemma StepClimbs(env: Env, s: State, in_: Input, k: Kind, bads: seq<string>)
    requires Honest(s) && s.nickRecovery
    requires var t := React(env, s, in_, k).state;
             (Trying(s) ==> t.isupport == s.isupport) && (!Trying(t) ==> bads == [])
    ensures var o := React(env, s, in_, k);
            Climbed(env, s, (if Trying(s) && k.NickError? then [Param(in_.msg, 1)] else []) + bads)
            == NicksIn(o.acts) + Climbed(env, o.state, bads)
  {
    if Trying(s) && k.NickError? {
      ErrorClimbs(env, s, in_, bads);
    } else {
      OtherClimbs(env, s, in_, k, bads);
      assert [] + bads == bads;
    }
  }

  /** The nicks a run asks for are a climb of the ladder. */
  lemma {:induction false} RunClimbs(env: Env, s: State, ins: seq<Input>)
    requires Honest(s) && s.nickRecovery && Steady(env, s, ins)
    ensures NicksIn(Run(env, s, ins).acts) == Climbed(env, s, Refused(env, s, ins))
    decreases |ins|
  {
    if ins != [] {
      var k := KindOf(env, ins[0].msg);
      var o := Step(env, s, ins[0]);
      ReactGood(env, s, ins[0], k);
      RunClimbs(env, o.state, ins[1..]);
      NicksAppend(o.acts, Run(env, o.state, ins[1..]).acts);
      if !Trying(o.state) {
        SettledRefuses(env, o.state, ins[1..]);
      }
      StepClimbs(env, s, ins[0], k, Refused(env, o.state, ins[1..]));
    }
  }

  // ---------------------------------------------------------------- the ladder gives out

  lemma {:induction false} TerminalStays(env: Env, s: State, ins: seq<Input>)
    requires Terminal(s.phase)
    ensures Run(env, s, ins).state == s
    decreases |ins|
  {
    if ins != [] {
      TerminalStays(env, s, ins[1..]);
    }
  }

  /** How many refusals are answered by a nick. */
  function Answered(env: Env, s: State, bads: seq<string>): nat {
    if s.nickRecovery then |NickLadder.Climb(LadderIn(env, s), s.nick, bads, env.fold(s.isupport))| else 0
  }

  /** One refusal: answered, and the rest as from the new nick; or the end. */
  lemma ErrorAnswered(env: Env, s: State, in_: Input, bads: seq<string>)
    requires Honest(s) && Trying(s)
    ensures var t := StepNickError(env, s, in_).state;
            t.phase == Failed
            || (Trying(t) && Answered(env, s, [Param(in_.msg, 1)] + bads) == 1 + Answered(env, t, bads))
  {
    if s.nickRecovery {
      var ladder, bad, fold := LadderIn(env, s), Param(in_.msg, 1), env.fold(s.isupport);
      var r := NickLadder.NextRung(ladder, s.nick, bad, fold);
      ErrorOutcome(env, s, in_, r);
      assert ([bad] + bads)[1..] == bads && ([bad] + bads)[0] == bad;
      if r < |ladder| {
        LadderSame(env, s, s.(nick := ladder[r]));
      }
    }
  }

  /** Other lines leave the count alone while the registration goes on. */
  lemma OtherAnswered(env: Env, s: State, in_: Input, k: Kind, bads: seq<string>)
    requires Honest(s) && Trying(s) && !k.NickError?
    requires var t := React(env, s, in_, k).state; Trying(t) && t.isupport == s.isupport
    ensures Answered(env, React(env, s, in_, k).state, bads) == Answered(env, s, bads)
  {
    OtherKinds(env, s, in_, k);
    ReactGood(env, s, in_, k);
    LadderSame(env, s, React(env, s, in_, k).state);
  }

  /** The bookkeeping of one line: either the count carries over, or the run failed on it, or there is
      nothing more to refuse. */
  lemma UnansweredStep(env: Env, s: State, in_: Input, k: Kind, bads: seq<string>)
    requires Honest(s) && Trying(s)
    requires var t := React(env, s, in_, k).state; t.isupport == s.isupport && (!Trying(t) ==> bads == [])
    ensures var t := React(env, s, in_, k).state;
            if k.NickError? then
              t.phase == Failed
              || (Trying(t) && Answered(env, s, [Param(in_.msg, 1)] + bads) == 1 + Answered(env, t, bads))
            else Trying(t) ==> Answered(env, s, bads) == Answered(env, t, bads)
  {
    if k.NickError? {
      ErrorAnswered(env, s, in_, bads);
    } else if Trying(React(env, s, in_, k).state) {
      OtherAnswered(env, s, in_, k, bads);
    }
  }

  /** If the rest of a run fails for want of answers, so does the run with this line in front. */
  lemma Carry(env: Env, s: State, in_: Input, bads: seq<string>, end: Phase)
    requires Honest(s) && Trying(s)
    requires var t := Step(env, s, in_).state;
             && t.isupport == s.isupport && (!Trying(t) ==> bads == []) && (Terminal(t.phase) ==> end == t.phase)
             && (Trying(t) && |bads| > Answered(env, t, bads) ==> end == Failed)
    ensures var all := (if KindOf(env, in_.msg).NickError? then [Param(in_.msg, 1)] else []) + bads;
            |all| > Answered(env, s, all) ==> end == Failed
  {
    var k := KindOf(env, in_.msg);
    UnansweredStep(env, s, in_, k, bads);
    if !k.NickError? {
      assert [] + bads == bads;
    }
  }

  /** A run with more refusals than the ladder answers has failed. */
  lemma {:induction false} UnansweredFails(env: Env, s: State, ins: seq<Input>)
    requires Honest(s) && Trying(s) && Steady(env, s, ins)
    ensures |Refused(env, s, ins)| > Answered(env, s, Refused(env, s, ins)) ==> Run(env, s, ins).state.phase == Failed
    decreases |ins|
  {
    if ins != [] {
      var t := Step(env, s, ins[0]).state;
      ReactGood(env, s, ins[0], KindOf(env, ins[0].msg));
      if Trying(t) {
        UnansweredFails(env, t, ins[1..]);
      } else {
        SettledRefuses(env, t, ins[1..]);
        if Terminal(t.phase) {
          TerminalStays(env, t, ins[1..]);
        }
      }
      Carry(env, s, ins[0], Refused(env, t, ins[1..]), Run(env, t, ins[1..]).state.phase);
    }
  }

  /** While ISUPPORT stays as it is, a registration asks for at most 21 further nicks, never the same
      twice and never the primary one again; and once more than 21 nicks have been refused, or one
      without nick recovery, it has failed. */
  lemma RetriesBounded(env: Env, primary: string, alt: string, recovery: bool, sasl: SaslConfig, ins: seq<Input>)
    requires Steady(env, New(primary, alt, recovery, sasl), ins)
    ensures var s := New(primary, alt, recovery, sasl);
            var sent := NicksIn(Run(env, s, ins).acts);
            && (recovery ==> |sent| <= 21 && primary !in sent)
            && (recovery ==> forall i, j :: 0 <= i < j < |sent| ==> sent[i] != sent[j])
            && (|Refused(env, s, ins)| > (if recovery then 21 else 0) ==> Run(env, s, ins).state.phase == Failed)
  {
    var s := New(primary, alt, recovery, sasl);
    var bads := Refused(env, s, ins);
    if recovery {
      RunClimbs(env, s, ins);
      NickLadder.LadderTerminates(primary, alt, MaxLen(env, s), env.lower, env.fold(s.isupport), bads);
    }
    UnansweredFails(env, s, ins);
  }
}

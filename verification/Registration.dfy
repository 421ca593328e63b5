/** The registration state machine (internal/registration): CAP negotiation, SASL, the welcome
    burst, the nick ladder, and the re-authentication step after registration. Library routines
    (case conversion, field splitting, base64, SCRAM, number parsing, the casemapping) are inputs
    gathered in `Env`; every result holds for all of them. */
module Registration {
  import opened Common
  import opened Codec
  import Isupport
  import NickLadder
  import SaslChunks = Authenticate

  datatype Phase = CapNegotiation | Authenticating | AwaitingWelcome | Complete | Failed

  datatype SaslConfig = SaslConfig(wanted: bool, required: bool, user: string, pass: string, hasClientCert: bool)

  datatype Mech = ScramSha256 | Plain | External

  datatype Failure =
    | SaslFailed(command: string, params: seq<string>)
    | NoMechanism(offer: string)
    | MissingPassword
    | BadChallenge
    | ScramFailed
    | NickRefused(command: string, params: seq<string>)
    | ServerError(text: string)

  /** `conv` is a SCRAM conversation, known by the challenges it has been given. */
  datatype State = State(
    phase: Phase, nick: string, primaryNick: string, altNick: string, nickRecovery: bool, sasl: SaslConfig,
    mech: Option<Mech>, conv: Option<seq<string>>, offered: map<string, string>, acked: set<string>,
    rpl002: seq<string>, rpl003: seq<string>, rpl004: seq<string>, isupport: map<string, string>,
    gotWelcome: bool, err: Option<Failure>)

  /** A line for the uplink. */
  datatype Line = CapEnd | CapReq(caps: seq<string>) | Begin(mech: Mech) | Auth(text: string) | Nick(nick: string)

  datatype Action =
    | Send(line: Line, replay: bool)
    | Registered(replay: bool)
    | Fail(err: Failure, replay: bool)

  datatype Input = Input(msg: Message, replay: bool)

  datatype CapSub = Ls(more: bool) | Ack | Nak | NewCaps | DelCaps | OtherCap

  /** What a line is to this machine. */
  datatype Kind =
    | Cap(sub: CapSub) | Authenticate | SaslOutcome(success: bool) | Welcome | Reply002 | Reply003 | Reply004
    | Reply005 | MotdEnd | NickError | ErrorLine | Other

  /** `desired` is the list of capabilities to request. */
  datatype Env = Env(
    desired: seq<string>, upper: string -> string, lower: string -> string, equalFold: (string, string) -> bool,
    trim: string -> string, fields: string -> seq<string>, atoi: string -> Option<int>,
    base64: string -> string, unbase64: string -> Option<string>,
    scramClient: SaslConfig -> bool, scram: (SaslConfig, seq<string>) -> Option<string>,
    fold: map<string, string> -> NickLadder.Fold)

  datatype Outcome = Outcome(state: State, acts: seq<Action>)

  function New(primary: string, alt: string, recovery: bool, sasl: SaslConfig): State {
    State(CapNegotiation, primary, primary, alt, recovery, sasl, None, None, map[], {}, [], [], [], map[], false, None)
  }

  function Param(m: Message, i: nat): string {
    if i < |m.params| then m.params[i] else ""
  }

  function Trailing(m: Message): string {
    if m.params == [] then "" else m.params[|m.params| - 1]
  }

  function Idle(s: State): Outcome { Outcome(s, []) }

  function FailWith(s: State, in_: Input, e: Failure, before: seq<Action>): Outcome {
    Outcome(s.(phase := Failed, err := Some(e)), before + [Fail(e, in_.replay)])
  }

  function EndCap(s: State, in_: Input, before: seq<Action>): Outcome {
    Outcome(s.(phase := AwaitingWelcome), before + [Send(CapEnd, in_.replay)])
  }

  // ---------------------------------------------------------------- CAP

  function AddOffers(toks: seq<string>, offered: map<string, string>): map<string, string> {
    if toks == [] then offered
    else
      var (name, val) := Isupport.SplitKV(toks[0]);
      AddOffers(toks[1..], offered[name := val])
  }

  function DropOffers(toks: seq<string>, offered: map<string, string>): map<string, string> {
    if toks == [] then offered else DropOffers(toks[1..], offered - {Isupport.SplitKV(toks[0]).0})
  }

  function Names(toks: seq<string>): set<string> {
    set t | t in toks :: Isupport.SplitKV(t).0
  }

  function TrimMinus(tok: string): string {
    if tok != "" && tok[0] == '-' then tok[1..] else tok
  }

  function AckTokens(toks: seq<string>): (r: seq<string>)
    ensures |r| == |toks|
  {
    seq(|toks|, i requires 0 <= i < |toks| => TrimMinus(toks[i]))
  }

  function Requested(want: seq<string>, s: State): seq<string> {
    if want == [] then []
    else
      (if (want[0] == "sasl" && !s.sasl.wanted) || want[0] !in s.offered then [] else [want[0]])
      + Requested(want[1..], s)
  }

  function StepCap(env: Env, s: State, in_: Input, sub: CapSub): Outcome {
    var toks := env.fields(Trailing(in_.msg));
    match sub
    case Ls(more) => StepLs(env, s.(offered := AddOffers(toks, s.offered)), in_, more)
    case Ack => StepAck(env, s, in_, Names(AckTokens(toks)))
    case Nak => EndCap(s, in_, [])
    case _ => Idle(s)
  }

  /** The list of offers so far; on its last line, what to request. */
  function StepLs(env: Env, s: State, in_: Input, more: bool): Outcome {
    var req := Requested(env.desired, s);
    if more then Idle(s)
    else if req == [] then EndCap(s, in_, [])
    else Outcome(s, [Send(CapReq(req), in_.replay)])
  }

  function StepAck(env: Env, s: State, in_: Input, names: set<string>): Outcome {
    var s1 := s.(acked := s.acked + names);
    if s.sasl.wanted && "sasl" in names then StartSasl(env, s1, in_) else EndCap(s1, in_, [])
  }

  // ---------------------------------------------------------------- SASL

  function Mechs(env: Env, parts: seq<string>): seq<string> {
    if parts == [] then []
    else (if env.trim(parts[0]) == "" then [] else [env.trim(parts[0])]) + Mechs(env, parts[1..])
  }

  function Name(m: Mech): string {
    match m
    case ScramSha256 => "SCRAM-SHA-256"
    case Plain => "PLAIN"
    case External => "EXTERNAL"
  }

  predicate Listed(env: Env, m: Mech, mechs: seq<string>) {
    exists i :: 0 <= i < |mechs| && env.equalFold(mechs[i], Name(m))
  }

  function PickMech(env: Env, s: State): Option<Mech> {
    var passwordOk := s.sasl.user != "" && s.sasl.pass != "";
    var externalOk := s.sasl.pass == "" && s.sasl.hasClientCert;
    var raw := if "sasl" in s.offered then s.offered["sasl"] else "";
    var mechs := if raw == "" then [] else Mechs(env, Split(raw, ','));
    if !s.sasl.wanted then None
    else if passwordOk then
      if mechs != [] && Listed(env, ScramSha256, mechs) then Some(ScramSha256)
      else if mechs == [] || Listed(env, Plain, mechs) then Some(Plain)
      else None
    else if externalOk && (mechs == [] || Listed(env, External, mechs)) then Some(External)
    else None
  }

  function StartSasl(env: Env, s: State, in_: Input): Outcome {
    match PickMech(env, s)
    case None =>
      if s.sasl.required then FailWith(s, in_, NoMechanism(if "sasl" in s.offered then s.offered["sasl"] else ""), [])
      else EndCap(s, in_, [])
    case Some(mech) =>
      Outcome(s.(phase := Authenticating, mech := Some(mech), conv := None), [Send(Begin(mech), in_.replay)])
  }

  function Forget(s: State): State {
    s.(mech := None, conv := None)
  }

  function StepOutcome(s: State, in_: Input, success: bool): Outcome {
    var s1 := Forget(s);
    if s1.gotWelcome then Idle(s1)
    else if !success && s1.sasl.required then
      FailWith(s1, in_, SaslFailed(in_.msg.command, in_.msg.params), [])
    else EndCap(s1, in_, [])
  }

  function Abort(s: State, in_: Input, e: Failure): Outcome {
    var s1, acts := Forget(s), [Send(Auth("*"), in_.replay)];
    if s1.gotWelcome then Outcome(s1, acts)
    else if s1.sasl.required then FailWith(s1, in_, e, acts)
    else EndCap(s1, in_, acts)
  }

  function SendAuthenticate(s: State, in_: Input, b64: string): Outcome {
    Outcome(s, AuthLines(SaslChunks.Chunks(b64), in_.replay))
  }

  function AuthLines(lines: seq<string>, replay: bool): (r: seq<Action>)
    ensures |r| == |lines|
  {
    seq(|lines|, i requires 0 <= i < |lines| => Send(Auth(lines[i]), replay))
  }

  function StepAuthenticate(env: Env, s: State, in_: Input): Outcome {
    var param := Param(in_.msg, 0);
    if param == "" then Idle(s)
    else if param == "*" then Idle(Forget(s))
    else
      match s.mech
      case None => Idle(s)
      case Some(Plain) =>
        if param != "+" then Idle(s)
        else if s.sasl.user == "" || s.sasl.pass == "" then Abort(s, in_, MissingPassword)
        else SendAuthenticate(s, in_, env.base64("\0" + s.sasl.user + "\0" + s.sasl.pass))
      case Some(External) =>
        if param != "+" then Idle(s)
        else SendAuthenticate(s, in_, if s.sasl.user == "" then "+" else env.base64(s.sasl.user))
      case Some(ScramSha256) => StepScram(env, s, in_, param)
  }

  function StepScram(env: Env, s: State, in_: Input, param: string): Outcome {
    if s.sasl.user == "" || s.sasl.pass == "" then Abort(s, in_, MissingPassword)
    else
      match (if param == "+" then Some("") else env.unbase64(param))
      case None => Abort(s, in_, BadChallenge)
      case Some(challenge) =>
        if s.conv.None? && !env.scramClient(s.sasl) then Abort(s, in_, ScramFailed)
        else
          var conv := (if s.conv.Some? then s.conv.value else []) + [challenge];
          var s1 := s.(conv := Some(conv));
          match env.scram(s.sasl, conv)
          case None => Abort(s1, in_, ScramFailed)
          case Some(resp) => SendAuthenticate(s1, in_, if resp == "" then "+" else env.base64(resp))
  }

  // ---------------------------------------------------------------- nick errors

  function MaxLen(env: Env, s: State): int {
    var v := if "NICKLEN" in s.isupport then s.isupport["NICKLEN"] else "";
    var n := env.atoi(v);
    if v != "" && n.Some? && n.value > 0 then n.value else NickLadder.DEFAULT_NICK_LEN
  }

  function LadderIn(env: Env, s: State): seq<string> {
    NickLadder.Ladder(s.primaryNick, s.altNick, MaxLen(env, s), env.lower)
  }

  function StepNickError(env: Env, s: State, in_: Input): Outcome {
    if s.gotWelcome then Idle(s)
    else
      var next :=
        if !s.nickRecovery then ""
        else NickLadder.NextNick(LadderIn(env, s), s.nick, Param(in_.msg, 1), env.fold(s.isupport));
      if next == "" then FailWith(s, in_, NickRefused(in_.msg.command, in_.msg.params), [])
      else Outcome(s.(nick := next), [Send(Nick(next), in_.replay)])
  }

  // ---------------------------------------------------------------- Step and StepPost

  /** The switch on the command word; 437 is a nick error only when its target is "*". */
  function KindOf(env: Env, msg: Message): Kind {
    var c := msg.command;
    if c == "CAP" then Cap(if |msg.params| < 2 then OtherCap else SubOf(env.upper(msg.params[1]), msg))
    else if c == "AUTHENTICATE" then Authenticate
    else if c == "903" || c == "907" then SaslOutcome(true)
    else if c == "904" || c == "905" || c == "906" then SaslOutcome(false)
    else if c == "001" then Welcome
    else if c == "002" then Reply002
    else if c == "003" then Reply003
    else if c == "004" then Reply004
    else if c == "005" then Reply005
    else if c == "376" || c == "422" then MotdEnd
    else if c == "432" || c == "433" || (c == "437" && Param(msg, 0) == "*") then NickError
    else if c == "ERROR" then ErrorLine
    else Other
  }

  function SubOf(sub: string, msg: Message): CapSub {
    if sub == "LS" then Ls(|msg.params| >= 3 && msg.params[2] == "*")
    else if sub == "ACK" then Ack
    else if sub == "NAK" then Nak
    else if sub == "NEW" then NewCaps
    else if sub == "DEL" then DelCaps
    else OtherCap
  }

  function WelcomeTail(params: seq<string>): seq<string> {
    if |params| <= 1 then [] else params[1..]
  }

  predicate Terminal(p: Phase) { p == Complete || p == Failed }

  function React(env: Env, s: State, in_: Input, k: Kind): Outcome {
    var msg := in_.msg;
    if Terminal(s.phase) then Idle(s)
    else
      match k
      case Cap(sub) => StepCap(env, s, in_, sub)
      case Authenticate => StepAuthenticate(env, s, in_)
      case SaslOutcome(success) => StepOutcome(s, in_, success)
      case Welcome =>
        Idle(s.(gotWelcome := true, nick := if msg.params != [] then msg.params[0] else s.nick,
          phase := if s.phase == CapNegotiation then AwaitingWelcome else s.phase))
      case Reply002 => Idle(s.(rpl002 := WelcomeTail(msg.params)))
      case Reply003 => Idle(s.(rpl003 := WelcomeTail(msg.params)))
      case Reply004 => Idle(s.(rpl004 := WelcomeTail(msg.params)))
      case Reply005 => Idle(s.(isupport := Isupport.Merge(s.isupport, Isupport.TokenParams(msg.params))))
      case MotdEnd =>
        if s.gotWelcome then Outcome(s.(phase := Complete), [Registered(in_.replay)]) else Idle(s)
      case NickError => StepNickError(env, s, in_)
      case ErrorLine => FailWith(s, in_, ServerError(Trailing(msg)), [])
      case Other => Idle(s)
  }

  function Step(env: Env, s: State, in_: Input): Outcome {
    React(env, s, in_, KindOf(env, in_.msg))
  }

  function ReactPost(env: Env, s: State, in_: Input, k: Kind): Outcome {
    if s.phase != Complete then Idle(s)
    else
      match k
      case Cap(sub) => PostCap(env, s, in_, sub)
      case Authenticate => StepAuthenticate(env, s, in_)
      case SaslOutcome(success) => StepOutcome(s, in_, success)
      case _ => Idle(s)
  }

  function StepPost(env: Env, s: State, in_: Input): Outcome {
    ReactPost(env, s, in_, KindOf(env, in_.msg))
  }

  /** The mechanism list an ACK brings along: the last non-empty value of sasl. */
  function AckOffer(toks: seq<string>, offered: map<string, string>): map<string, string> {
    if toks == [] then offered
    else
      var (name, val) := Isupport.SplitKV(toks[0]);
      AckOffer(toks[1..], if name == "sasl" && val != "" then offered[name := val] else offered)
  }

  function PostCap(env: Env, s: State, in_: Input, sub: CapSub): Outcome {
    var toks := env.fields(Trailing(in_.msg));
    match sub
    case NewCaps => Idle(s.(offered := AddOffers(toks, s.offered)))
    case DelCaps => Idle(s.(offered := DropOffers(toks, s.offered), acked := s.acked - Names(toks)))
    case Ack => PostAck(env, s, in_, AckTokens(toks))
    case _ => Idle(s)
  }

  function PostAck(env: Env, s: State, in_: Input, toks: seq<string>): Outcome {
    var s1 := s.(acked := s.acked + Names(toks), offered := AckOffer(toks, s.offered));
    if "sasl" !in Names(toks) || !s.sasl.wanted || s.mech.Some? then Idle(s1) else PostStart(env, s1, in_)
  }

  function PostStart(env: Env, s: State, in_: Input): Outcome {
    match PickMech(env, s)
    case None => Idle(s)
    case Some(mech) => Outcome(s.(mech := Some(mech), conv := None), [Send(Begin(mech), in_.replay)])
  }

  /** Feed a run of lines: Step until terminal; Step itself ignores what comes after. */
  function Run(env: Env, s: State, ins: seq<Input>): Outcome
    decreases |ins|
  {
    if ins == [] then Idle(s)
    else
      var o := Step(env, s, ins[0]);
      var rest := Run(env, o.state, ins[1..]);
      Outcome(rest.state, o.acts + rest.acts)
  }

  function RunPost(env: Env, s: State, ins: seq<Input>): Outcome
    decreases |ins|
  {
    if ins == [] then Idle(s)
    else
      var o := StepPost(env, s, ins[0]);
      var rest := RunPost(env, o.state, ins[1..]);
      Outcome(rest.state, o.acts + rest.acts)
  }
}

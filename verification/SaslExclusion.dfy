/** When the bouncer's AUTHENTICATE exchange and a client's can overlap (internal/session/sasl.go:30-50):
    exactly after an intruding AUTHENTICATE. There is none, whatever the server sends, as long as a
    client the session has closed gets no AUTHENTICATE through; and none from such a client either, as
    long as the server is disciplined. */
module SaslExclusion {
  import opened Common
  import opened SaslOwnership

  /** The bouncer's own exchange and a client's, on one uplink, at once. */
  predicate Overlap(s: State) {
    s.up.pending && s.client.Some?
  }

  /** A grant is being handled that is about to start the bouncer's exchange. */
  predicate Starting(h: Handler) {
    h.AckMark? && h.added && !h.registered
  }

  /** After registration the bouncer holds clients off while its exchange runs; before it, a client's
      exchange can only run once sasl is granted and the bouncer's own is over. */
  predicate ExchangeOk(u: Uplink, client: Option<ClientId>, h: Handler) {
    && (u.pending ==> u.sasl && client.None?)
    && (u.pending && u.registered ==> !u.failed)
    && (u.sasl && !u.registered && client.Some? ==> u.upSasl && !Starting(h))
    && (h.AckMark? ==> h.registered == u.registered)
  }

  predicate Inv(s: State) {
    ExchangeOk(s.up, s.client, s.handler)
  }

  // ---------------------------------------------------------------- the one action that can break it

  /** A client's AUTHENTICATE reaches the uplink of a network with SASL configured, during
      registration, after a failure, while the bouncer's exchange runs or is still to start. */
  predicate Intrudes(s: State, a: Action) {
    && a.Forward? && a.id in s.clients.authing && s.client.None?
    && s.up.sasl && s.up.failed && !s.up.registered
    && (s.up.pending || !s.up.upSasl || Starting(s.handler))
  }

  lemma ClientExact(s: State, a: Action)
    requires Inv(s) && OfClient(a) && Enabled(s, a)
    ensures Inv(ClientStep(s, a)) <==> !Intrudes(s, a)
  {
    var t := ClientStep(s, a);
    assert t.up == s.up && t.handler == s.handler;
    assert !a.Forward? ==> t.client == s.client || t.client.None?;
  }

  lemma UplinkKeeps(s: State, a: Action)
    requires Inv(s) && !OfClient(a) && !a.Continue? && Enabled(s, a)
    ensures Inv(UplinkStep(s, a))
  {
    match a
    case RegistrationOutcome(o) => OutcomeKeeps(s, o);
    case RouteOutcome(o) => RouteKeeps(s, o);
    case CapNew(usable) => NewKeeps(s, usable);
    case _ => LineKeeps(s, a);
  }

  lemma OutcomeKeeps(s: State, o: Outcome)
    requires Inv(s) && Enabled(s, RegistrationOutcome(o))
    ensures Inv(UplinkStep(s, RegistrationOutcome(o)))
  {
  }

  lemma RouteKeeps(s: State, o: Outcome)
    requires Inv(s) && Enabled(s, RouteOutcome(o))
    ensures Inv(UplinkStep(s, RouteOutcome(o)))
  {
  }

  lemma NewKeeps(s: State, usable: bool)
    requires Inv(s) && Enabled(s, CapNew(usable))
    ensures Inv(UplinkStep(s, CapNew(usable)))
  {
  }

  lemma LineKeeps(s: State, a: Action)
    requires Inv(s) && !OfClient(a) && !a.Continue? && Enabled(s, a)
    requires !a.RegistrationOutcome? && !a.RouteOutcome? && !a.CapNew?
    ensures Inv(UplinkStep(s, a))
  {
  }

  lemma ContinueKeeps(s: State)
    requires Inv(s)
    ensures Inv(ContinueStep(s))
  {
  }

  /** Of all actions, of the server, of clients and of the handlers in between, only an intruding
      AUTHENTICATE breaks the arbitration. */
  lemma IntrusionExact(s: State, a: Action)
    requires Inv(s)
    ensures Inv(Step(s, a)) <==> !Intrudes(s, a)
  {
    if Enabled(s, a) {
      if a.Continue? {
        ContinueKeeps(s);
      } else if OfClient(a) {
        ClientExact(s, a);
      } else {
        UplinkKeeps(s, a);
      }
    }
  }

  // ---------------------------------------------------------------- an overlap takes an intrusion

  predicate NoIntrusion(s: State, actions: seq<Action>)
    decreases |actions|
  {
    actions == [] || (!Intrudes(s, actions[0]) && NoIntrusion(Step(s, actions[0]), actions[1..]))
  }

  /** During registration only a grant is handled in sections. */
  predicate HandlerFits(s: State) {
    !s.up.registered ==> s.handler.Idle? || s.handler.AckMark?
  }

  lemma FitsStep(s: State, a: Action)
    requires HandlerFits(s) && Inv(s)
    ensures HandlerFits(Step(s, a))
  {
    if Enabled(s, a) && OfClient(a) {
      assert Step(s, a).up == s.up && Step(s, a).handler == s.handler;
    }
  }

  lemma {:induction false} NoIntrusionInv(s: State, actions: seq<Action>)
    requires Inv(s) && HandlerFits(s) && NoIntrusion(s, actions)
    ensures Inv(Run(s, actions)) && HandlerFits(Run(s, actions))
    decreases |actions|
  {
    if actions != [] {
      IntrusionExact(s, actions[0]);
      FitsStep(s, actions[0]);
      NoIntrusionInv(Step(s, actions[0]), actions[1..]);
    }
  }

  /** Whatever lets an AUTHENTICATE intrude, the server can bring about the overlap from there: at most
      by granting sasl and having the grant handled. */
  lemma IntrusionOverlaps(s: State, a: Action) returns (more: seq<Action>)
    requires Inv(s) && HandlerFits(s) && Intrudes(s, a)
    ensures NoIntrusion(Step(s, a), more) && Overlap(Run(Step(s, a), more))
  {
    var t := Step(s, a);
    assert t.client == Some(a.id) && t.up == s.up && t.handler == s.handler;
    if t.up.pending {
      more := [];
    } else if Starting(t.handler) {
      more := [Continue];
      assert more[1..] == [];
    } else if t.handler.AckMark? {
      more := [Continue] + [CapAck(true), Continue];
      assert more[1..] == [CapAck(true), Continue];
      GrantOverlaps(ContinueStep(t));
    } else {
      more := [CapAck(true), Continue];
      GrantOverlaps(t);
    }
  }

  lemma GrantOverlaps(t: State)
    requires t.up.sasl && !t.up.registered && !t.up.upSasl && t.handler.Idle? && t.client.Some?
    ensures NoIntrusion(t, [CapAck(true), Continue]) && Overlap(Run(t, [CapAck(true), Continue]))
  {
    var more := [CapAck(true), Continue];
    assert more[1..] == [Continue] && more[1..][1..] == [];
    var u := Step(t, CapAck(true));
    assert u.handler == AckMark(false, true) && u.client == t.client && u.up.sasl;
    assert Run(u, [Continue]) == Run(Step(u, Continue), []);
  }

  /** The exchanges can overlap from here on without a further intrusion. */
  ghost predicate MayOverlap(s: State) {
    exists more :: NoIntrusion(s, more) && Overlap(Run(s, more))
  }

  predicate IsFresh(s: State) {
    s == Fresh(s.up.sasl, s.up.upSasl, s.up.available, s.up.loggedIn)
  }

  /** Exactly the intrusions lead to an overlap: in a run from a fresh session without one there is
      none, and after such a run an action can be followed, without a further intrusion, by an overlap
      if and only if it intrudes. */
  lemma ExclusionExact(s: State, actions: seq<Action>, a: Action)
    requires IsFresh(s) && NoIntrusion(s, actions)
    ensures var t := Run(s, actions);
            && !Overlap(t)
            && (Intrudes(t, a) <==> MayOverlap(Step(t, a)))
  {
    NoIntrusionInv(s, actions);
    var t := Run(s, actions);
    if Intrudes(t, a) {
      var more := IntrusionOverlaps(t, a);
      assert NoIntrusion(Step(t, a), more) && Overlap(Run(Step(t, a), more));
    } else {
      IntrusionExact(t, a);
      FitsStep(t, a);
      NeverWithout(Step(t, a));
    }
  }

  lemma NeverWithout(s: State)
    requires Inv(s) && HandlerFits(s)
    ensures !MayOverlap(s)
  {
    forall more | NoIntrusion(s, more) ensures !Overlap(Run(s, more)) {
      NoIntrusionInv(s, more);
    }
  }

  // ---------------------------------------------------------------- any server, clients still attached

  predicate Holds(c: Clients, id: ClientId) {
    id in c.caps || id in c.authing || id in c.asking
  }

  /** Nobody attached has the capability or is getting it. */
  ghost predicate Bare(c: Clients) {
    forall id :: id in c.attached ==> !Holds(c, id)
  }

  ghost predicate Known(c: Clients) {
    forall id :: Holds(c, id) || id in c.attached ==> id in c.seen
  }

  /** sasl is offered to clients by a registered session only, and a disconnect closes all of them:
      before registration nobody attached holds it. */
  ghost predicate CapsInv(s: State) {
    && Known(s.clients)
    && (!s.up.registered ==> !s.offered && Bare(s.clients))
    && HandlerOk(s.handler, s.up.registered, s.clients.seen)
  }

  ghost predicate HandlerOk(h: Handler, registered: bool, seen: set<ClientId>) {
    match h
    case AckMark(r, _) => r ==> registered
    case Finish(granted) => granted ==> registered
    case Granting(ids) => registered && forall id :: id in ids ==> id in seen
    case _ => true
  }

  lemma CapsClient(s: State, a: Action)
    requires CapsInv(s) && OfClient(a) && Enabled(s, a)
    ensures CapsInv(ClientStep(s, a))
  {
    var c, d := s.clients, ClientStep(s, a).clients;
    if a.RequestSasl? && s.offered {
      assert forall id :: Holds(d, id) ==> Holds(c, id) || id == a.id;
    } else {
      assert forall id :: Holds(d, id) ==> Holds(c, id);
    }
  }

  lemma CapsContinue(s: State)
    requires CapsInv(s)
    ensures CapsInv(ContinueStep(s))
  {
    var c, d := s.clients, ContinueStep(s).clients;
    if s.handler.Granting? && s.handler.ids != [] {
      assert s.handler.ids[0] in s.handler.ids;
      assert forall id :: Holds(d, id) ==> Holds(c, id) || id == s.handler.ids[0];
    }
  }

  lemma CapsUplink(s: State, a: Action)
    requires CapsInv(s) && !OfClient(a) && !a.Continue? && Enabled(s, a)
    ensures CapsInv(UplinkStep(s, a))
  {
    if a.Disconnect? {
      var c, t := s.clients, UplinkStep(s, a);
      assert forall id :: Holds(t.clients, id) ==> Holds(c, id);
    } else {
      UplinkFrame(s, a);
      HandlerUplink(s, a);
    }
  }

  /** Uplink lines leave the clients alone, and the offer but for its recomputation. */
  lemma UplinkFrame(s: State, a: Action)
    requires !OfClient(a) && !a.Continue? && !a.Disconnect? && Enabled(s, a)
    ensures var t := UplinkStep(s, a);
            && t.clients == s.clients && (s.up.registered ==> t.up.registered)
            && (t.offered == s.offered || s.up.registered)
  {
    match a
    case RegistrationOutcome(o) =>
    case RouteOutcome(o) =>
    case CapNew(usable) =>
    case _ =>
  }

  lemma HandlerUplink(s: State, a: Action)
    requires HandlerOk(s.handler, s.up.registered, s.clients.seen)
    requires !OfClient(a) && !a.Continue? && !a.Disconnect? && Enabled(s, a)
    ensures HandlerOk(UplinkStep(s, a).handler, s.up.registered, s.clients.seen)
  {
    var h := UplinkStep(s, a).handler;
    assert h == s.handler || h == AckMark(s.up.registered, !s.up.upSasl) || h == Finish(false)
        || h.RouteRead? || h.Idle?;
  }

  lemma CapsStep(s: State, a: Action)
    requires CapsInv(s)
    ensures CapsInv(Step(s, a))
  {
    if Enabled(s, a) {
      if a.Continue? {
        CapsContinue(s);
      } else if OfClient(a) {
        CapsClient(s, a);
      } else {
        CapsUplink(s, a);
      }
    }
  }

  /** No client the session has closed gets an AUTHENTICATE through. */
  predicate LiveRun(s: State, actions: seq<Action>)
    decreases |actions|
  {
    actions == [] ||
    ((actions[0].Forward? ==> actions[0].id in s.clients.attached) && LiveRun(Step(s, actions[0]), actions[1..]))
  }

  /** Nobody attached can intrude: before registration none of them holds the capability. */
  lemma {:induction false} LiveRunClean(s: State, actions: seq<Action>)
    requires CapsInv(s) && LiveRun(s, actions)
    ensures NoIntrusion(s, actions) && CapsInv(Run(s, actions))
    decreases |actions|
  {
    if actions != [] {
      CapsStep(s, actions[0]);
      LiveRunClean(Step(s, actions[0]), actions[1..]);
    }
  }

  /** SASL exchanges never overlap, whatever the server sends and however clients, disconnects and
      the sections of the handlers interleave; and while the bouncer's exchange runs, the
      AUTHENTICATE of an attached client is refused. */
  lemma NeverOverlap(s: State, actions: seq<Action>)
    requires IsFresh(s) && LiveRun(s, actions)
    ensures var t := Run(s, actions);
            && !Overlap(t)
            && forall id :: t.up.pending && id in t.clients.attached && id in t.clients.authing ==> Refuses(t, id)
  {
    LiveRunClean(s, actions);
    NoIntrusionInv(s, actions);
  }

  // ---------------------------------------------------------------- any client, a disciplined server

  /** The server reports a SASL failure before registration only after it has granted sasl. */
  predicate DisciplinedRun(s: State, actions: seq<Action>)
    decreases |actions|
  {
    actions == [] ||
    ((actions[0].RegistrationOutcome? && Enabled(s, actions[0]) && IsFailure(actions[0].outcome) ==> s.up.upSasl)
     && DisciplinedRun(Step(s, actions[0]), actions[1..]))
  }

  /** A failure before registration leaves no bouncer exchange running and none to come. */
  predicate FailedOk(s: State) {
    !s.up.registered && s.up.sasl && s.up.failed ==> s.up.upSasl && !s.up.pending && !Starting(s.handler)
  }

  lemma FailedStep(s: State, a: Action)
    requires FailedOk(s)
    requires a.RegistrationOutcome? && Enabled(s, a) && IsFailure(a.outcome) ==> s.up.upSasl
    ensures FailedOk(Step(s, a))
  {
    if Enabled(s, a) {
      if OfClient(a) {
        assert Step(s, a).up == s.up && Step(s, a).handler == s.handler;
      } else if !a.Continue? {
        FailedUplink(s, a);
      }
    }
  }

  lemma FailedUplink(s: State, a: Action)
    requires FailedOk(s) && !OfClient(a) && !a.Continue? && Enabled(s, a)
    requires a.RegistrationOutcome? && IsFailure(a.outcome) ==> s.up.upSasl
    ensures FailedOk(UplinkStep(s, a))
  {
  }

  lemma {:induction false} DisciplinedRunClean(s: State, actions: seq<Action>)
    requires FailedOk(s) && DisciplinedRun(s, actions)
    ensures NoIntrusion(s, actions)
    decreases |actions|
  {
    if actions != [] {
      FailedStep(s, actions[0]);
      DisciplinedRunClean(Step(s, actions[0]), actions[1..]);
    }
  }

  /** With a disciplined server not even a client that runs on after being closed can overlap. */
  lemma NeverOverlapDisciplined(s: State, actions: seq<Action>)
    requires IsFresh(s) && DisciplinedRun(s, actions)
    ensures !Overlap(Run(s, actions))
  {
    DisciplinedRunClean(s, actions);
    NoIntrusionInv(s, actions);
  }

  // ---------------------------------------------------------------- where both fail

  lemma {:induction false} RunAppend(s: State, actions: seq<Action>, a: Action)
    ensures Run(s, actions + [a]) == Step(Run(s, actions), a)
    decreases |actions|
  {
    if actions == [] {
      assert Run(s, [a]) == Run(Step(s, a), []);
    } else {
      assert (actions + [a])[1..] == actions[1..] + [a];
      RunAppend(Step(s, actions[0]), actions[1..], a);
    }
  }

  lemma Then(s: State, actions: seq<Action>, a: Action) returns (longer: seq<Action>)
    ensures longer == actions + [a] && Run(s, longer) == Step(Run(s, actions), a)
  {
    RunAppend(s, actions, a);
    longer := actions + [a];
  }

  /** The bouncer's exchange starts with the grant. */
  lemma Granted(id: ClientId) returns (run: seq<Action>)
    ensures Run(Fresh(true, false, false, false), run)
         == State(Uplink(true, false, true, true, false, true, false), None, false, [], false,
                  Clients({id}, {id}, {}, map[], {}), Idle)
  {
    var s := Fresh(true, false, false, false);
    run := Then(s, [], Attach(id));
    run := Then(s, run, CapLs);
    run := Then(s, run, CapAck(true));
    run := Then(s, run, Continue);
  }

  /** It fails, so sasl is offered to clients once registered. */
  lemma FailedSession(id: ClientId) returns (run: seq<Action>)
    ensures Run(Fresh(true, false, false, false), run)
         == State(Uplink(true, true, true, true, false, false, true), None, true, [], false,
                  Clients({id}, {id}, {}, map[], {}), Idle)
  {
    var s := Fresh(true, false, false, false);
    run := Granted(id);
    run := Then(s, run, RegistrationOutcome(Fail904));
    run := Then(s, run, CompleteRegistration);
    run := Then(s, run, RefreshOffer);
  }

  /** A client takes it; the uplink goes down, and the client is closed but still running. */
  lemma ClosedClient(id: ClientId) returns (run: seq<Action>)
    ensures Run(Fresh(true, false, false, false), run)
         == State(Uplink(true, false, false, false, false, false, false), None, false, [], false,
                  Clients({}, {id}, {id}, map[], {}), Idle)
  {
    var s := Fresh(true, false, false, false);
    run := FailedSession(id);
    run := Then(s, run, RequestSasl(id));
    run := Then(s, run, AskUplink(id));
    assert Run(s, run).clients.asking - {id} == map[];
    run := Then(s, run, EndRequest(id));
    run := Then(s, run, Disconnect);
  }

  /** On the next connection a server that fails SASL before granting it lets that client in. */
  lemma ClosedClientIntrudes(id: ClientId) returns (run: seq<Action>)
    ensures var t := Run(Fresh(true, false, false, false), run);
            t.up == Uplink(true, false, false, false, false, false, true) && t.client == Some(id) && t.handler.Idle?
  {
    var s := Fresh(true, false, false, false);
    run := ClosedClient(id);
    run := Then(s, run, RegistrationOutcome(Fail904));
    run := Then(s, run, Authenticate(id));
    run := Then(s, run, Forward(id));
  }

  /** The grant then starts the bouncer's exchange beside the client's. */
  lemma ClosedClientOverlaps(id: ClientId) returns (run: seq<Action>)
    ensures Overlap(Run(Fresh(true, false, false, false), run))
  {
    var s := Fresh(true, false, false, false);
    run := ClosedClientIntrudes(id);
    run := Then(s, run, CapAck(true));
    run := Then(s, run, Continue);
  }
}

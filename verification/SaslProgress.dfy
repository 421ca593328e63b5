/** That exchanges end and others get their turn (internal/session/sasl.go): who runs AUTHENTICATE
    after any run, when each flag of the arbitration is raised and lowered, and what an outcome, a
    grant or a CAP NEW leads to once it has been handled. */
module SaslProgress {
  import opened Common
  import opened SaslOwnership
  import opened SaslExclusion

  // ---------------------------------------------------------------- who is mid-exchange

  /** The AUTHENTICATE of this client reaches the uplink: the bouncer has no claim on sasl, or has
      failed at it, and nobody else is at it. */
  predicate Admitted(s: State, a: Action, id: ClientId) {
    && a == Forward(id) && id in s.clients.authing
    && (!s.up.sasl || s.up.failed) && (s.client == None || s.client == Some(id))
  }

  /** An outcome has been delivered to this client, or it leaves, or the uplink goes down. */
  predicate Ended(s: State, a: Action, id: ClientId) {
    || (a == Continue && s.handler.RouteClear? && s.handler.id == id)
    || a == Leave(id)
    || (a == Disconnect && s.handler == Idle)
  }

  lemma ClientStepExact(s: State, a: Action, id: ClientId)
    ensures Step(s, a).client == Some(id) <==> Admitted(s, a, id) || (s.client == Some(id) && !Ended(s, a, id))
  {
    if Enabled(s, a) && OfClient(a) {
      assert Step(s, a).client == ClientStep(s, a).client;
    } else if Enabled(s, a) && !a.Continue? && !a.Disconnect? {
      SectionKeepsClient(s, a);
    }
  }

  lemma SectionKeepsClient(s: State, a: Action)
    requires Enabled(s, a) && !OfClient(a) && !a.Continue? && !a.Disconnect?
    ensures UplinkStep(s, a).client == s.client && UplinkStep(s, a).clients == s.clients
  {
  }

  /** The state in which action k of a run is taken. */
  function Before(s: State, actions: seq<Action>, k: nat): State
    requires k <= |actions|
  {
    Run(s, actions[..k])
  }

  /** If action j is taken, it does not end this client's exchange. */
  predicate Survives(s: State, actions: seq<Action>, id: ClientId, j: nat) {
    j < |actions| ==> !Ended(Before(s, actions, j), actions[j], id)
  }

  /** Its AUTHENTICATE was admitted by action k and nothing has ended it since. */
  ghost predicate HeldSince(s: State, actions: seq<Action>, id: ClientId, k: nat) {
    && k < |actions| && Admitted(Before(s, actions, k), actions[k], id)
    && forall j :: k < j < |actions| ==> Survives(s, actions, id, j)
  }

  ghost predicate Holds(s: State, actions: seq<Action>, id: ClientId) {
    exists k: nat :: HeldSince(s, actions, id, k)
  }

  lemma HeldNext(s: State, actions: seq<Action>, a: Action, id: ClientId, k: nat)
    requires k < |actions|
    ensures HeldSince(s, actions + [a], id, k) <==> HeldSince(s, actions, id, k) && !Ended(Run(s, actions), a, id)
  {
    var longer := actions + [a];
    assert longer[..k] == actions[..k];
    forall j: nat | j < |actions| ensures Survives(s, longer, id, j) <==> Survives(s, actions, id, j) {
      assert longer[..j] == actions[..j];
    }
    assert longer[..|actions|] == actions;
    assert Survives(s, longer, id, |actions|) <==> !Ended(Run(s, actions), a, id);
  }

  lemma HeldFirst(s: State, actions: seq<Action>, a: Action, id: ClientId)
    ensures HeldSince(s, actions + [a], id, |actions|) <==> Admitted(Run(s, actions), a, id)
  {
    assert (actions + [a])[..|actions|] == actions;
  }

  lemma HoldsNext(s: State, actions: seq<Action>, a: Action, id: ClientId)
    ensures var t := Run(s, actions);
            Holds(s, actions + [a], id) <==> Admitted(t, a, id) || (Holds(s, actions, id) && !Ended(t, a, id))
  {
    HeldFirst(s, actions, a, id);
    if Holds(s, actions, id) {
      var k: nat :| HeldSince(s, actions, id, k);
      HeldNext(s, actions, a, id, k);
    }
    if Holds(s, actions + [a], id) {
      var k: nat :| HeldSince(s, actions + [a], id, k);
      if k < |actions| {
        HeldNext(s, actions, a, id, k);
      }
    }
  }

  /** After any run, a client is mid-exchange if and only if its AUTHENTICATE was admitted and since
      then no outcome has been delivered to it, it has not left, and the uplink has not gone down. */
  lemma {:induction false} HolderExact(s: State, actions: seq<Action>, id: ClientId)
    requires s.client == None
    ensures Run(s, actions).client == Some(id) <==> Holds(s, actions, id)
    decreases |actions|
  {
    if actions != [] {
      var front, last := actions[..|actions| - 1], actions[|actions| - 1];
      HolderExact(s, front, id);
      ClientStepExact(Run(s, front), last, id);
      HoldsNext(s, front, last, id);
      RunAppend(s, front, last);
      assert actions == front + [last];
    }
  }

  // ---------------------------------------------------------------- an outcome frees the uplink

  /** Delivered to an attached client, an outcome 903 to 907 ends the exchange and changes nothing
      else; a client the session has closed gets nothing and keeps it. */
  lemma OutcomeHandled(s: State, o: Outcome, id: ClientId)
    requires s.handler == Idle && s.up.registered && !(s.up.sasl && s.up.pending)
    requires EndsExchange(o) && s.client == Some(id)
    ensures Run(s, [RouteOutcome(o), Continue, Continue])
         == if id in s.clients.attached then s.(client := None) else s
  {
    var s1 := s.(handler := RouteRead(o));
    var s2 := if id in s.clients.attached then s.(handler := RouteClear(o, id)) else s;
    assert Step(s, RouteOutcome(o)) == s1;
    assert Step(s1, Continue) == s2;
    Run3(s, RouteOutcome(o), Continue, Continue);
  }

  lemma Run3(s: State, a: Action, b: Action, c: Action)
    ensures Run(s, [a, b, c]) == Step(Step(Step(s, a), b), c)
  {
    assert [a, b, c][1..] == [b, c] && [b, c][1..] == [c] && [c][1..] == [];
    assert Run(s, [a, b, c]) == Run(Step(s, a), [b, c]);
    assert Run(Step(s, a), [b, c]) == Run(Step(Step(s, a), b), [c]);
  }

  /** The next client is let through unless the bouncer has a claim on sasl. */
  lemma NextAdmitted(s: State, next: ClientId)
    requires s.client == None && next in s.clients.authing
    ensures Step(s, Forward(next)).client == if s.up.sasl && !s.up.failed then None else Some(next)
  {
  }

  /** So from every state a run without an intrusion leads to: once an outcome for the attached client
      has been handled nobody is mid-exchange, and whoever comes next is admitted exactly when the
      bouncer has no claim on sasl. */
  lemma OutcomeFrees(s: State, actions: seq<Action>, o: Outcome, id: ClientId, next: ClientId)
    requires IsFresh(s) && NoIntrusion(s, actions)
    requires var t := Run(s, actions); t.handler == Idle && t.up.registered && t.client == Some(id)
    requires EndsExchange(o) && id in Run(s, actions).clients.attached && next in Run(s, actions).clients.authing
    ensures var t := Run(s, actions);
            var u := Run(t, [RouteOutcome(o), Continue, Continue]);
            && u == t.(client := None)
            && Step(u, Forward(next)).client == if t.up.sasl && !t.up.failed then None else Some(next)
  {
    NoIntrusionInv(s, actions);
    var t := Run(s, actions);
    OutcomeHandled(t, o, id);
    NextAdmitted(t.(client := None), next);
  }

  /** What can fall between two sections of a line's handler. */
  predicate Between(a: Action) {
    OfClient(a) || a.RefreshOffer?
  }

  lemma BetweenKeeps(s: State, a: Action)
    requires Between(a)
    ensures Step(s, a).handler == s.handler && Step(s, a).up == s.up
  {
  }

  lemma {:induction false} BetweenRun(s: State, actions: seq<Action>)
    requires forall a :: a in actions ==> Between(a)
    ensures Run(s, actions).handler == s.handler && Run(s, actions).up == s.up
    decreases |actions|
  {
    if actions != [] {
      assert actions[0] in actions;
      BetweenKeeps(s, actions[0]);
      BetweenRun(Step(s, actions[0]), actions[1..]);
    }
  }

  /** Whatever clients do in between, whoever is mid-exchange and attached when the outcome is routed is
      no longer so when it has been. */
  lemma OutcomeFreesInterleaved(s: State, o: Outcome, first: seq<Action>, second: seq<Action>, id: ClientId)
    requires s.handler == Idle && s.up.registered && !(s.up.sasl && s.up.pending) && EndsExchange(o)
    requires forall a :: a in first + second ==> Between(a)
    requires var t := Run(Step(s, RouteOutcome(o)), first); t.client == Some(id) && id in t.clients.attached
    ensures var t := Run(Step(s, RouteOutcome(o)), first);
            var u := Step(Run(Step(t, Continue), second), Continue);
            u.handler == Idle && u.client != Some(id) && u.up == s.up
  {
    assert forall a :: a in first ==> a in first + second;
    assert forall a :: a in second ==> a in first + second;
    var s1 := Step(s, RouteOutcome(o));
    BetweenRun(s1, first);
    var t := Run(s1, first);
    assert Step(t, Continue) == t.(handler := RouteClear(o, id));
    BetweenRun(Step(t, Continue), second);
  }

  // ---------------------------------------------------------------- the bouncer's flags

  /** CAP NEW finds SASL configured, and nobody logged in or at it. */
  predicate MayRestart(s: State) {
    && s.handler == Idle && s.up.registered && s.up.sasl
    && !s.up.loggedIn && !s.up.pending && s.client == None && !s.up.upSasl
  }

  /** The bouncer's own exchange begins: the grant during registration is marked, or a CAP NEW with a
      mechanism it can use finds the way free. */
  predicate BouncerStarts(s: State, a: Action) {
    || (a == Continue && s.up.sasl && s.handler == AckMark(false, true))
    || (a == CapNew(true) && MayRestart(s))
  }

  /** The outcome is the bouncer's own. */
  predicate BouncerOutcome(s: State, a: Action) {
    && s.handler == Idle && s.up.sasl
    && ((a.RegistrationOutcome? && !s.up.registered)
        || (a.RouteOutcome? && s.up.registered && s.up.pending && !a.outcome.LoggedIn900?))
  }

  predicate Ends(o: Outcome) { EndsExchange(o) || o.LoggedIn900? }

  /** Its exchange is over: an outcome, the end of registration, CAP DEL, or the uplink gone. */
  predicate BouncerStops(s: State, a: Action) {
    || (BouncerOutcome(s, a) && Ends(a.outcome))
    || (a == CompleteRegistration && s.handler == Idle && !s.up.registered)
    || (a == CapDel && s.handler == Idle && s.up.registered)
    || (a == Disconnect && s.handler == Idle)
  }

  lemma PendingExact(s: State, a: Action)
    ensures Step(s, a).up.pending <==> BouncerStarts(s, a) || (s.up.pending && !BouncerStops(s, a))
  {
    if OfClient(a) {
      BetweenKeeps(s, a);
    } else if a.RegistrationOutcome? {
      PendingRegistering(s, a.outcome);
    } else if a.RouteOutcome? {
      PendingRouted(s, a.outcome);
    } else if a.CapNew? {
      PendingNew(s, a.usableMech);
    } else {
      PendingOther(s, a);
    }
  }

  lemma PendingRegistering(s: State, o: Outcome)
    ensures var a := RegistrationOutcome(o);
            Step(s, a).up.pending <==> s.up.pending && !BouncerStops(s, a)
  {
  }

  /** What routing an outcome does to the flags. */
  lemma RoutedUp(s: State, o: Outcome)
    requires s.handler == Idle && s.up.registered
    ensures var u := Step(s, RouteOutcome(o)).up;
            u == if o.LoggedIn900? then ApplyAccount(s.up, o).(failed := false)
                 else if s.up.sasl && s.up.pending then NoteOutcome(ApplyAccount(s.up, o), o)
                 else ApplyAccount(s.up, o)
  {
    var t := s.(up := ApplyAccount(s.up, o));
    assert Step(s, RouteOutcome(o)) == RouteStep(t, o);
    assert t.up.sasl == s.up.sasl && t.up.pending == s.up.pending;
  }

  lemma PendingRouted(s: State, o: Outcome)
    ensures var a := RouteOutcome(o);
            Step(s, a).up.pending <==> s.up.pending && !BouncerStops(s, a)
  {
    if s.handler == Idle && s.up.registered {
      RoutedUp(s, o);
    }
  }

  lemma PendingNew(s: State, usable: bool)
    ensures Step(s, CapNew(usable)).up.pending <==> s.up.pending || (usable && MayRestart(s))
  {
  }

  lemma PendingOther(s: State, a: Action)
    requires !OfClient(a) && !a.RegistrationOutcome? && !a.RouteOutcome? && !a.CapNew?
    ensures Step(s, a).up.pending <==> BouncerStarts(s, a) || (s.up.pending && !BouncerStops(s, a))
  {
  }

  /** A 904, 905 or 906 of its own, registration over with no outcome, or a CAP NEW with no mechanism
      it can use: sasl is the clients'. */
  predicate GivesUp(s: State, a: Action) {
    || (BouncerOutcome(s, a) && (a.outcome.Fail904? || a.outcome.Fail905? || a.outcome.Fail906?))
    || (a == CompleteRegistration && s.handler == Idle && !s.up.registered && s.up.pending)
    || (a == CapNew(false) && MayRestart(s))
  }

  /** A 903 or 907 of its own, a 900 (whoever's, once registered), a new attempt, or the uplink gone. */
  predicate TakesBack(s: State, a: Action) {
    || (BouncerOutcome(s, a) && (a.outcome.Success903? || a.outcome.Already907? || a.outcome.LoggedIn900?))
    || (a.RouteOutcome? && a.outcome.LoggedIn900? && s.handler == Idle && s.up.registered)
    || (a == CapNew(true) && MayRestart(s))
    || (a == Disconnect && s.handler == Idle)
  }

  lemma FailedExact(s: State, a: Action)
    ensures Step(s, a).up.failed <==> GivesUp(s, a) || (s.up.failed && !TakesBack(s, a))
  {
    if OfClient(a) {
      BetweenKeeps(s, a);
    } else if a.RegistrationOutcome? {
      FailedRegistering(s, a.outcome);
    } else if a.RouteOutcome? {
      FailedRouted(s, a.outcome);
    } else if a.CapNew? {
      FailedNew(s, a.usableMech);
    } else {
      FailedOther(s, a);
    }
  }

  lemma FailedRegistering(s: State, o: Outcome)
    ensures var a := RegistrationOutcome(o);
            Step(s, a).up.failed <==> GivesUp(s, a) || (s.up.failed && !TakesBack(s, a))
  {
  }

  lemma FailedRouted(s: State, o: Outcome)
    ensures var a := RouteOutcome(o);
            Step(s, a).up.failed <==> GivesUp(s, a) || (s.up.failed && !TakesBack(s, a))
  {
    if s.handler == Idle && s.up.registered {
      RoutedUp(s, o);
    }
  }

  lemma FailedNew(s: State, usable: bool)
    ensures Step(s, CapNew(usable)).up.failed <==> if MayRestart(s) then !usable else s.up.failed
  {
  }

  lemma FailedOther(s: State, a: Action)
    requires !OfClient(a) && !a.RegistrationOutcome? && !a.RouteOutcome? && !a.CapNew?
    ensures Step(s, a).up.failed <==> GivesUp(s, a) || (s.up.failed && !TakesBack(s, a))
  {
  }

  /** The account: a 900 that names one, or a 901, on a line of either phase. */
  predicate AccountLine(s: State, a: Action, loggedIn: bool) {
    && s.handler == Idle
    && ((a.RegistrationOutcome? && !s.up.registered) || (a.RouteOutcome? && s.up.registered))
    && (a.outcome == LoggedIn900(Some(loggedIn)) || (a.outcome == LoggedOut901 && !loggedIn))
  }

  lemma AccountExact(s: State, a: Action)
    ensures Step(s, a).up.loggedIn
       <==> AccountLine(s, a, true)
            || (s.up.loggedIn && !AccountLine(s, a, false) && !(a == Disconnect && s.handler == Idle))
  {
    if OfClient(a) {
      BetweenKeeps(s, a);
    } else if a.RouteOutcome? {
      if s.handler == Idle && s.up.registered {
        RoutedUp(s, a.outcome);
      }
    } else if a.RegistrationOutcome? {
      AccountRegistering(s, a.outcome);
    } else {
      AccountOther(s, a);
    }
  }

  lemma AccountRegistering(s: State, o: Outcome)
    ensures var a := RegistrationOutcome(o);
            Step(s, a).up.loggedIn <==> AccountLine(s, a, true) || (s.up.loggedIn && !AccountLine(s, a, false))
  {
    if s.handler == Idle && !s.up.registered {
      RegisteringUp(s, o);
    }
  }

  lemma RegisteringUp(s: State, o: Outcome)
    requires s.handler == Idle && !s.up.registered
    ensures Step(s, RegistrationOutcome(o)).up
         == if s.up.sasl then NoteOutcome(ApplyAccount(s.up, o), o) else ApplyAccount(s.up, o)
  {
  }

  lemma AccountOther(s: State, a: Action)
    requires !OfClient(a) && !a.RouteOutcome? && !a.RegistrationOutcome?
    ensures Step(s, a).up.loggedIn <==> s.up.loggedIn && !(a == Disconnect && s.handler == Idle)
  {
    if !Enabled(s, a) {
    } else if a.Continue? {
      ContinueAccount(s);
    } else if a.CapNew? {
      NewAccount(s.(up := s.up.(available := true)), a.usableMech);
    } else {
      LineAccount(s, a);
    }
  }

  lemma ContinueAccount(s: State)
    ensures ContinueStep(s).up.loggedIn == s.up.loggedIn
  {
    match s.handler
    case AckMark(_, _) =>
    case RouteRead(_) =>
    case _ =>
  }

  lemma NewAccount(s: State, usable: bool)
    ensures NewStep(s, usable).up.loggedIn == s.up.loggedIn
  {
  }

  lemma LineAccount(s: State, a: Action)
    requires !OfClient(a) && !a.RouteOutcome? && !a.RegistrationOutcome? && !a.Continue? && !a.CapNew?
    ensures UplinkStep(s, a).up.loggedIn <==> s.up.loggedIn && a != Disconnect
  {
    match a
    case CapLs =>
    case CapAck(lists) =>
    case CapNak =>
    case CapDel =>
    case CompleteRegistration =>
    case RefreshOffer =>
    case Disconnect =>
  }

  /** What the uplink has granted and what it has on offer. */
  lemma UplinkCapsExact(s: State, a: Action)
    requires s.handler == Idle
    ensures Step(s, a).up.upSasl
       <==> a == CapAck(true) || (s.up.upSasl && a != Disconnect && !(a == CapDel && s.up.registered))
    ensures Step(s, a).up.available
       <==> || a == CapLs || (a.CapNew? && s.up.registered)
            || (s.up.available && a != Disconnect && !(a == CapDel && s.up.registered))
    ensures Step(s, a).up.registered <==> a == CompleteRegistration || (s.up.registered && a != Disconnect)
  {
    if OfClient(a) {
      BetweenKeeps(s, a);
    } else if a.RegistrationOutcome? || a.RouteOutcome? {
      OutcomeCaps(s, a);
    } else {
      LineCaps(s, a);
    }
  }

  predicate SameCaps(u: Uplink, v: Uplink) {
    u.upSasl == v.upSasl && u.available == v.available && u.registered == v.registered
  }

  lemma NoteKeepsCaps(u: Uplink, o: Outcome)
    ensures SameCaps(NoteOutcome(ApplyAccount(u, o), o), u) && SameCaps(ApplyAccount(u, o), u)
  {
  }

  lemma OutcomeCaps(s: State, a: Action)
    requires s.handler == Idle && (a.RegistrationOutcome? || a.RouteOutcome?)
    ensures SameCaps(Step(s, a).up, s.up)
  {
    NoteKeepsCaps(s.up, a.outcome);
    if !Enabled(s, a) {
      assert Step(s, a) == s;
    } else if a.RouteOutcome? {
      RoutedUp(s, a.outcome);
    } else {
      RegisteringUp(s, a.outcome);
    }
  }

  lemma LineCaps(s: State, a: Action)
    requires s.handler == Idle && !OfClient(a) && !a.RegistrationOutcome? && !a.RouteOutcome?
    ensures a.CapAck? || a == CapLs || a.CapNew? || a == CapDel || a == CompleteRegistration || a == Disconnect
            || SameCaps(Step(s, a).up, s.up)
    ensures a.CapAck? ==> Step(s, a).up == s.up.(upSasl := s.up.upSasl || a.listsSasl)
    ensures a == CapLs ==> Step(s, a).up == s.up.(available := true)
    ensures a.CapNew? && !s.up.registered ==> Step(s, a).up == s.up
    ensures a.CapNew? && s.up.registered ==> SameCaps(Step(s, a).up, s.up.(available := true))
    ensures a == CapDel && !s.up.registered ==> Step(s, a).up == s.up
    ensures a == CapDel && s.up.registered ==> SameCaps(Step(s, a).up, s.up.(upSasl := false, available := false))
    ensures a == CompleteRegistration ==> SameCaps(Step(s, a).up, s.up.(registered := true))
    ensures a == Disconnect ==> SameCaps(Step(s, a).up, s.up.(upSasl := false, available := false, registered := false))
  {
    if !Enabled(s, a) {
    } else if a.Continue? {
      ContinueCaps(s);
    } else {
      match a
      case CapLs =>
      case CapAck(lists) =>
      case CapNew(usable) => NewCaps(s.(up := s.up.(available := true)), usable);
      case CapDel =>
      case CompleteRegistration =>
      case Disconnect =>
      case _ =>
    }
  }

  lemma ContinueCaps(s: State)
    ensures SameCaps(ContinueStep(s).up, s.up)
  {
    match s.handler
    case AckMark(_, _) =>
    case RouteRead(_) =>
    case _ =>
  }

  lemma NewCaps(s: State, usable: bool)
    ensures SameCaps(NewStep(s, usable).up, s.up)
  {
  }

  // ---------------------------------------------------------------- what is delivered

  /** An outcome is on its way to a client exactly when it is not an account line, the bouncer is not at
      it, and the line is being routed; it is delivered if it ends an exchange and its client is attached. */
  lemma DeliveredExact(s: State, a: Action, o: Outcome, id: ClientId)
    ensures Step(s, a).handler == RouteRead(o)
       <==> || (a == RouteOutcome(o) && s.handler == Idle && s.up.registered && !(s.up.sasl && s.up.pending)
                && !o.LoggedIn900? && !o.LoggedOut901?)
            || (s.handler == RouteRead(o) && a != Continue)
    ensures Step(s, a).handler == RouteClear(o, id)
       <==> || (a == Continue && s.handler == RouteRead(o) && s.client == Some(id) && id in s.clients.attached
                && EndsExchange(o))
            || (s.handler == RouteClear(o, id) && a != Continue)
  {
    if OfClient(a) {
      BetweenKeeps(s, a);
    } else if a.RouteOutcome? {
      RoutedHandler(s, a.outcome);
    } else if a.Continue? {
      ContinueHandler(s);
    }
  }

  lemma RoutedHandler(s: State, o: Outcome)
    ensures Step(s, RouteOutcome(o)).handler
         == if s.handler == Idle && s.up.registered && !(s.up.sasl && s.up.pending)
              && !o.LoggedIn900? && !o.LoggedOut901?
            then RouteRead(o) else s.handler
  {
  }

  lemma ContinueHandler(s: State)
    ensures var h := Step(s, Continue).handler;
            !h.RouteRead? && (h.RouteClear? ==> s.handler == RouteRead(h.outcome))
  {
  }

  /** What clients are offered, as last computed: sasl if the uplink has it and the bouncer has no claim. */
  lemma OfferExact(s: State, a: Action)
    ensures Step(s, a).offered
       <==> if a == RefreshOffer && s.up.registered then s.up.available && (!s.up.sasl || s.up.failed)
            else s.offered && !(a == Disconnect && s.handler == Idle)
  {
  }

  // ---------------------------------------------------------------- a grant reaches those who asked

  function Continues(n: nat): (r: seq<Action>)
    ensures |r| == n && forall i :: 0 <= i < n ==> r[i] == Continue
  {
    seq(n, i => Continue)
  }

  function Enable(c: Clients, ids: seq<ClientId>): Clients {
    c.(caps := c.caps + set id | id in ids)
  }

  lemma RunMore(s: State, n: nat)
    ensures Run(s, Continues(n + 1)) == Run(Step(s, Continue), Continues(n))
  {
    assert Continues(n + 1)[1..] == Continues(n);
  }

  lemma EnableNext(c: Clients, ids: seq<ClientId>)
    requires ids != []
    ensures Enable(c.(caps := c.caps + {ids[0]}), ids[1..]) == Enable(c, ids)
  {
    assert ids == [ids[0]] + ids[1..];
    assert c.caps + {ids[0]} + (set id | id in ids[1..]) == c.caps + set id | id in ids;
  }

  lemma {:induction false} GrantAll(s: State, ids: seq<ClientId>)
    requires s.handler == Granting(ids)
    ensures Run(s, Continues(|ids| + 1)) == s.(clients := Enable(s.clients, ids), handler := Idle)
    decreases |ids|
  {
    RunMore(s, |ids|);
    if ids == [] {
      assert Enable(s.clients, []) == s.clients;
    } else {
      GrantAll(Step(s, Continue), ids[1..]);
      EnableNext(s.clients, ids);
    }
  }

  lemma {:induction false} AttachedExact(ids: seq<ClientId>, attached: set<ClientId>)
    ensures forall id :: id in Attached(ids, attached) <==> id in ids && id in attached
  {
    if ids != [] {
      AttachedExact(ids[1..], attached);
      assert ids == [ids[0]] + ids[1..];
    }
  }

  /** A grant after registration gives sasl to every client that waits for it and is still attached, and
      to nobody else; nobody is left waiting. */
  lemma GrantHandled(s: State)
    requires s.handler == Idle && s.up.registered && !s.up.upSasl
    ensures var asked := set id | id in s.waiters && id in s.clients.attached;
            var n := 3 + |Attached(s.waiters, s.clients.attached)|;
            Run(Step(s, CapAck(true)), Continues(n))
            == s.(up := s.up.(upSasl := true), waiters := [], reqPending := false,
                  clients := s.clients.(caps := s.clients.caps + asked))
  {
    var ids := Attached(s.waiters, s.clients.attached);
    AttachedExact(s.waiters, s.clients.attached);
    assert (set id | id in s.waiters && id in s.clients.attached) == set id | id in ids;
    var s1 := s.(up := s.up.(upSasl := true), handler := AckMark(true, true));
    RunMore(s1, |ids| + 2);
    FinishHandled(s1.(handler := Finish(true)), ids);
    MarkHandled(s1);
  }

  lemma MarkHandled(s: State)
    requires s.handler == AckMark(true, true)
    ensures Step(s, Continue) == s.(handler := Finish(true))
  {
  }

  lemma FinishHandled(s: State, ids: seq<ClientId>)
    requires s.handler == Finish(true) && ids == Attached(s.waiters, s.clients.attached)
    ensures Run(s, Continues(|ids| + 2))
         == s.(waiters := [], reqPending := false, clients := Enable(s.clients, ids), handler := Idle)
  {
    RunMore(s, |ids| + 1);
    GrantAll(s.(waiters := [], reqPending := false, handler := Granting(ids)), ids);
  }

  /** A client has sasl from the moment it is granted to it until it is taken from it. */
  lemma CapsExact(s: State, a: Action, id: ClientId)
    ensures id in Step(s, a).clients.caps
       <==> || (a == EndRequest(id) && id in s.clients.asking && s.clients.asking[id] == Grant)
            || (a == Continue && s.handler.Granting? && s.handler.ids != [] && s.handler.ids[0] == id)
            || (id in s.clients.caps && a != LoseCap(id))
  {
  }

  /** And it waits from a request the uplink has yet to grant until a grant, a refusal or a loss is handled. */
  lemma WaitersExact(s: State, a: Action, id: ClientId)
    ensures id in Step(s, a).waiters
       <==> || (a == EndRequest(id) && id in s.clients.asking && s.clients.asking[id] == Queue)
            || (id in s.waiters && !(a == Continue && s.handler.Finish?) && !(a == Disconnect && s.handler == Idle))
  {
  }
}

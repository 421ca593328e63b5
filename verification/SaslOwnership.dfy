/** Who may run AUTHENTICATE on one uplink (internal/session/sasl.go and the SASL parts of
    internal/session/upstream.go). Each mutex section of the original is one action. Uplink lines and
    disconnects are handled by one goroutine, line by line (internal/server/demux.go); every client
    has its own, so a client's sections may fall between any two of a line's, and of other clients'. */
module SaslOwnership {
  import opened Common

  type ClientId = string

  /** What the handler of the current uplink line still has to do. */
  datatype Handler =
    | Idle
    | AckMark(registered: bool, added: bool)       // handleCAPLine ACK, second section
    | Finish(granted: bool)                        // finishSASLWaiters, taking the waiters
    | Granting(ids: seq<ClientId>)                 // finishSASLWaiters, enabling the cap one by one
    | RouteRead(outcome: Outcome)                  // routeSASLTraffic, reading saslClient
    | RouteClear(outcome: Outcome, id: ClientId)   // routeSASLTraffic, after sending to it

  /** A 900 carries whether it names an account, if it has enough parameters; AUTHENTICATE, 908
      and anything else that ends nothing is Other. */
  datatype Outcome =
    | LoggedIn900(account: Option<bool>) | LoggedOut901
    | Success903 | Fail904 | Fail905 | Fail906 | Already907 | Other

  /** Where a client stands in RequestClientSASL: the offer was seen; then sasl was found granted on
      the uplink, or not. */
  datatype Asking = SawOffer | Grant | Queue

  /** The uplink's side: `sasl` is the configured Network.SASL, `upSasl` is sasl in upCaps, `pending`
      and `failed` are bouncerSASLPending and bouncerSASLFailed. */
  datatype Uplink = Uplink(sasl: bool, registered: bool, upSasl: bool, available: bool, loggedIn: bool,
                           pending: bool, failed: bool)

  /** `attached` are the session's downlinks, `seen` all that ever were (client ids are never reused),
      `caps` those that have negotiated sasl, and `authing` those past the capability test of an
      AUTHENTICATE. A client the session has closed keeps its capability, and its goroutine runs on
      until its connection is gone. */
  datatype Clients = Clients(attached: set<ClientId>, seen: set<ClientId>, caps: set<ClientId>,
                             asking: map<ClientId, Asking>, authing: set<ClientId>)

  /** `client` is saslClient, the one mid-exchange; `offered`: saslOffer is not empty. */
  datatype State = State(up: Uplink, client: Option<ClientId>, offered: bool, waiters: seq<ClientId>, reqPending: bool,
                         clients: Clients, handler: Handler)

  datatype Action =
    | CapLs | CapAck(listsSasl: bool) | CapNak | CapNew(usableMech: bool) | CapDel
    | RegistrationOutcome(outcome: Outcome) | RouteOutcome(outcome: Outcome) | CompleteRegistration
    | Continue                  // the next section of the line being handled
    | RefreshOffer              // refreshSASLOffer, run by the handlers of a registered session
    | Disconnect
    | Attach(id: ClientId) | Leave(id: ClientId)
    | RequestSasl(id: ClientId) | AskUplink(id: ClientId) | EndRequest(id: ClientId)
    | LoseCap(id: ClientId)     // broadcastCapNotify DEL
    | Authenticate(id: ClientId) | Forward(id: ClientId)

  predicate BouncerOwns(u: Uplink) {
    u.sasl && !u.failed
  }

  predicate IsFailure(o: Outcome) {
    o.Fail904? || o.Fail905? || o.Fail906?
  }

  /** The outcomes that end a client's exchange: 903 to 907. */
  predicate EndsExchange(o: Outcome) {
    o.Success903? || o.Fail904? || o.Fail905? || o.Fail906? || o.Already907?
  }

  /** noteBouncerSASLOutcomeLocked. */
  function NoteOutcome(u: Uplink, o: Outcome): Uplink {
    if o.LoggedIn900? || o.Success903? || o.Already907? then u.(pending := false, failed := false)
    else if IsFailure(o) then u.(pending := false, failed := true)
    else u
  }

  function ApplyAccount(u: Uplink, o: Outcome): Uplink {
    if o.LoggedIn900? && o.account.Some? then u.(loggedIn := o.account.value)
    else if o.LoggedOut901? then u.(loggedIn := false) else u
  }

  /** Uplink lines and disconnects wait until the previous line is fully handled. */
  predicate Enabled(s: State, a: Action) {
    match a
    case CapLs => s.handler.Idle?
    case CapAck(_) => s.handler.Idle?
    case CapNak => s.handler.Idle? && s.up.registered
    case CapNew(_) => s.handler.Idle? && s.up.registered
    case CapDel => s.handler.Idle? && s.up.registered
    case RegistrationOutcome(_) => s.handler.Idle? && !s.up.registered
    case RouteOutcome(_) => s.handler.Idle? && s.up.registered
    case CompleteRegistration => s.handler.Idle?
    case Continue => !s.handler.Idle?
    case RefreshOffer => s.up.registered
    case Disconnect => s.handler.Idle?
    case Attach(id) => id !in s.clients.seen
    case Leave(_) => true
    case RequestSasl(id) => id in s.clients.seen
    case AskUplink(id) => id in s.clients.asking && s.clients.asking[id].SawOffer?
    case EndRequest(id) => id in s.clients.asking && !s.clients.asking[id].SawOffer?
    case LoseCap(_) => true
    case Authenticate(id) => id in s.clients.caps
    case Forward(id) => id in s.clients.authing
  }

  predicate OfClient(a: Action) {
    a.Attach? || a.Leave? || a.RequestSasl? || a.AskUplink? || a.EndRequest?
    || a.LoseCap? || a.Authenticate? || a.Forward?
  }

  function Step(s: State, a: Action): State {
    if !Enabled(s, a) then s
    else if a.Continue? then ContinueStep(s)
    else if OfClient(a) then ClientStep(s, a)
    else UplinkStep(s, a)
  }

  /** The first section of an uplink line's handler, a disconnect, or an offer recomputed. */
  function UplinkStep(s: State, a: Action): State
    requires !OfClient(a) && !a.Continue?
  {
    match a
    case CapLs => s.(up := s.up.(available := true))
    case CapAck(lists) =>
      if lists then s.(up := s.up.(upSasl := true), handler := AckMark(s.up.registered, !s.up.upSasl)) else s
    case CapNak => s.(handler := Finish(false))
    case CapNew(usable) => NewStep(s.(up := s.up.(available := true)), usable)
    case CapDel =>
      s.(up := s.up.(upSasl := false, available := false, pending := false),
         handler := if s.up.upSasl then Finish(false) else Idle)
    case RegistrationOutcome(o) =>
      s.(up := if s.up.sasl then NoteOutcome(ApplyAccount(s.up, o), o) else ApplyAccount(s.up, o))
    case RouteOutcome(o) => RouteStep(s.(up := ApplyAccount(s.up, o)), o)
    case CompleteRegistration =>
      if s.up.registered then s
      else s.(up := s.up.(registered := true, pending := false, failed := s.up.failed || s.up.pending))
    case RefreshOffer => s.(offered := !BouncerOwns(s.up) && s.up.available)
    case Disconnect =>
      State(Uplink(s.up.sasl, false, false, false, false, false, false), None, false, [], false,
            if s.up.registered then s.clients.(attached := {}) else s.clients, s.handler)
  }

  /** CAP NEW advertising sasl: the bouncer tries again only when no exchange is in flight. */
  function NewStep(s: State, usable: bool): State {
    if s.up.sasl && !s.up.loggedIn && !s.up.pending && s.client.None? && !s.up.upSasl then
      if usable then s.(up := s.up.(pending := true, failed := false), handler := Finish(false))
      else s.(up := s.up.(failed := true))
    else s
  }

  function RouteStep(s: State, o: Outcome): State {
    if o.LoggedIn900? then s.(up := s.up.(failed := false))
    else if o.LoggedOut901? then s
    else if s.up.sasl && s.up.pending then s.(up := NoteOutcome(s.up, o))
    else s.(handler := RouteRead(o))
  }

  function ContinueStep(s: State): State {
    match s.handler
    case Idle => s
    case AckMark(registered, added) =>
      s.(up := s.up.(pending := s.up.pending || (s.up.sasl && added && !registered)),
         handler := if registered && added then Finish(true) else Idle)
    case Finish(granted) =>
      s.(waiters := [], reqPending := false,
         handler := if granted then Granting(Attached(s.waiters, s.clients.attached)) else Idle)
    case Granting(ids) =>
      if ids == [] then s.(handler := Idle)
      else s.(clients := s.clients.(caps := s.clients.caps + {ids[0]}), handler := Granting(ids[1..]))
    case RouteRead(o) =>
      if s.client.Some? && s.client.value in s.clients.attached && EndsExchange(o)
      then s.(handler := RouteClear(o, s.client.value)) else s.(handler := Idle)
    case RouteClear(_, id) => s.(handler := Idle, client := if s.client == Some(id) then None else s.client)
  }

  function Attached(ids: seq<ClientId>, attached: set<ClientId>): (r: seq<ClientId>)
    ensures forall id :: id in r ==> id in attached
  {
    if ids == [] then []
    else (if ids[0] in attached then [ids[0]] else []) + Attached(ids[1..], attached)
  }

  function ClientStep(s: State, a: Action): State
    requires OfClient(a) && Enabled(s, a)
  {
    var c := s.clients;
    match a
    case Attach(id) => s.(clients := c.(attached := c.attached + {id}, seen := c.seen + {id}))
    case Leave(id) =>
      s.(clients := c.(attached := c.attached - {id}), client := if s.client == Some(id) then None else s.client)
    case RequestSasl(id) => if s.offered then s.(clients := c.(asking := c.asking[id := SawOffer])) else s
    case AskUplink(id) => s.(clients := c.(asking := c.asking[id := if s.up.upSasl then Grant else Queue]))
    case EndRequest(id) =>
      if c.asking[id].Grant? then s.(clients := c.(asking := c.asking - {id}, caps := c.caps + {id}))
      else s.(clients := c.(asking := c.asking - {id}), waiters := s.waiters + [id], reqPending := true)
    case LoseCap(id) => s.(clients := c.(caps := c.caps - {id}))
    case Authenticate(id) => s.(clients := c.(authing := c.authing + {id}))
    case Forward(id) =>
      s.(clients := c.(authing := c.authing - {id}), client := if Refuses(s, id) then s.client else Some(id))
  }

  /** forwardClientAuthenticate under the lock: the bouncer owns sasl, or another client is at it. */
  predicate Refuses(s: State, id: ClientId) {
    BouncerOwns(s.up) || (s.client.Some? && s.client != Some(id))
  }

  function Run(s: State, actions: seq<Action>): State
    decreases |actions|
  {
    if actions == [] then s else Run(Step(s, actions[0]), actions[1..])
  }

  /** A session before its first connection: nobody attached, nothing in flight. `upSasl` may be
      known already, from a resumed connection. */
  function Fresh(sasl: bool, upSasl: bool, available: bool, loggedIn: bool): State {
    State(Uplink(sasl, false, upSasl, available, loggedIn, false, false), None, false, [], false,
          Clients({}, {}, {}, map[], {}), Idle)
  }
}

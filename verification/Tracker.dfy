/** The request tracker (internal/session/tracker.go): which downlink gets which numeric, and
    when a held enquiry may be written. The six queue maps of the original are one map keyed by
    kind; Go's map iteration orders and the picks it makes among equals are inputs of a step. */
module Tracker {
  import opened Common
  import opened TrackerQueue
  import ModeLetters

  datatype Key =
    | Whois(nick: string)
    | Stats(query: string)
    | Mode(target: string, letters: string)
    | Topic(channel: string)
    | Names(channel: string)
    | Serial(kind: string)

  type Queues = map<Key, seq<Request>>

  /** The one-shot follow-up (329 after a MODE 324). */
  datatype Sticky = Sticky(dests: seq<Waiter>, created: int)

  /** History: the ids and lines of all requests that had a line to write, what was handed to
      the caller to write, and the held requests that were removed before being written. */
  datatype Ledger = Ledger(nextId: nat, registered: map<nat, Line>, sent: seq<Out>, discarded: set<nat>)

  datatype State = State(queues: Queues, labeled: map<string, Request>, whox: map<string, Request>,
                         sticky: map<string, Sticky>, ready: seq<Out>, nextLabel: nat, nextToken: nat,
                         quirky: bool, ledger: Ledger)

  const EMPTY := State(map[], map[], map[], map[], [], 0, 0, false, Ledger(0, map[], [], {}))

  predicate HoldWrite(cmd: string) {
    cmd in {"LIST", "WHO", "WHOX", "NAMES", "LINKS", "MAP", "LUSERS",
            "TRACE", "USERS", "HELP", "ADMIN", "SILENCE", "WHOWAS"}
  }

  predicate TakesServerTarget(cmd: string) {
    cmd in {"TIME", "ADMIN", "USERS", "TRACE", "MAP", "LIST", "LINKS", "LUSERS", "WHOWAS"}
  }

  // ---------------------------------------------------------------- sweeping every queue

  datatype Sweeping = Aging(now: int) | Leaving(client: ClientId)

  /** DropClient treats the serial queues with a loop of its own. */
  function CutOf(sw: Sweeping, k: Key): Cut {
    match sw
    case Aging(now) => ByAge(now)
    case Leaving(c) => if k.Serial? then ByOwner(c) else ByClient(c)
  }

  function SweepAll(qs: Queues, sw: Sweeping): Queues {
    map k | k in qs && SweepQueue(qs[k], CutOf(sw, k)) != [] :: SweepQueue(qs[k], CutOf(sw, k))
  }

  /** The lines freed, in the order the queues are visited. */
  function FreedAll(qs: Queues, sw: Sweeping, order: seq<Key>): seq<Out> {
    if order == [] then [] else
      (if order[0] in qs then SweepFreed(qs[order[0]], CutOf(sw, order[0])) else []) + FreedAll(qs, sw, order[1..])
  }

  /** `order` visits every queue exactly once. */
  ghost predicate Visits(order: seq<Key>, qs: Queues) {
    && (forall k :: k in order <==> k in qs)
    && (forall i, j :: 0 <= i < j < |order| ==> order[i] != order[j])
  }

  function MapCut(sw: Sweeping): Cut {
    match sw case Aging(now) => ByAge(now) case Leaving(c) => ByClient(c)
  }

  function TrimMap(m: map<string, Request>, cut: Cut): map<string, Request> {
    map k | k in m && Trim(cut, m[k]).Some? :: Trim(cut, m[k]).value
  }

  function SweepSticky(m: map<string, Sticky>, sw: Sweeping): map<string, Sticky> {
    match sw
    case Aging(now) => map k | k in m && now - m[k].created <= REQUEST_TTL :: m[k]
    case Leaving(c) => map k | k in m && Without(m[k].dests, c) != [] :: m[k].(dests := Without(m[k].dests, c))
  }

  /** Ids of the requests in the queues, and of those still waiting to be written. */
  ghost function Present(qs: Queues): set<nat> {
    set k, r | k in qs && r in qs[k] :: r.id
  }

  ghost function Held(qs: Queues): set<nat> {
    set k, r | k in qs && r in qs[k] && r.hold && !Blank(r.outbound) :: r.id
  }

  /** Move to new queues, freeing some lines: what was held and is gone is discarded. */
  ghost function Requeue(t: State, qs: Queues, freed: seq<Out>): State {
    t.(queues := qs, ready := t.ready + freed,
       ledger := t.ledger.(discarded := t.ledger.discarded + (Held(t.queues) - Present(qs))))
  }

  /** DropClient and expireLocked. */
  ghost function SweepState(t: State, sw: Sweeping, order: seq<Key>): State {
    Requeue(t, SweepAll(t.queues, sw), FreedAll(t.queues, sw, order))
      .(labeled := TrimMap(t.labeled, MapCut(sw)), whox := TrimMap(t.whox, MapCut(sw)),
         sticky := SweepSticky(t.sticky, sw))
  }

  // ---------------------------------------------------------------- Begin

  datatype Opts = Opts(client: ClientId, cmd: string, clientLabel: string, preferLabel: bool, preferWhox: bool,
                       whoisTargets: seq<WhoisTarget>, whoMask: string, statsLetter: string, enquiryTarget: string,
                       modeLetters: ModeLetters.ByteString, flags: string, fields: string,
                       clientToken: string, remote: string,
                       outbound: Line, ends: set<string>, replies: set<string>)

  /** A nick as the client spelled it and as the casemapping folds it. */
  datatype WhoisTarget = WhoisTarget(wire: string, nick: string)

  const WHOIS_REMOTE_NICK: string := "\0"

  function WhoisOutbound(nick: string, remote: string): Line {
    if remote == "" then Line("WHOIS", [nick], "")
    else if remote == WHOIS_REMOTE_NICK then Line("WHOIS", [nick, nick], "")
    else Line("WHOIS", [remote, nick], "")
  }

  function WaiterOf(o: Opts): Waiter {
    Waiter(o.client, o.clientLabel, false, o.clientToken)
  }

  function RequestOf(o: Opts, id: nat, target: string, hold: bool, now: int): Request {
    Request(id, WaiterOf(o), [], o.cmd, target, o.remote, o.outbound, hold, now, o.ends, o.replies, o.flags, o.fields)
  }

  function FirstRemote(q: seq<Request>, remote: string): Option<nat> {
    if q == [] then None
    else if q[0].remote == remote then Some(0)
    else match FirstRemote(q[1..], remote) case None => None case Some(i) => Some(i + 1)
  }

  predicate HasOtherRemote(q: seq<Request>, remote: string) {
    exists i :: 0 <= i < |q| && q[i].remote != remote
  }

  function CoalesceAt(qs: Queues, k: Key, i: nat, w: Waiter): Queues
    requires k in qs && i < |qs[k]|
  {
    qs[k := qs[k][i := Coalesce(qs[k][i], w)]]
  }

  function QueueAt(qs: Queues, k: Key): seq<Request> {
    if k in qs then qs[k] else []
  }

  predicate Busy(t: State, k: Key) {
    k in t.queues && t.queues[k] != []
  }

  /** Enter a request into the ledger: its line is either written now or held. */
  function Register(l: Ledger, r: Request, written: bool): Ledger {
    if Blank(r.outbound) then l.(nextId := l.nextId + 1)
    else l.(nextId := l.nextId + 1, registered := l.registered[r.id := r.outbound],
            sent := if written then l.sent + [Out(r.id, r.outbound)] else l.sent)
  }

  /** Only the queues and the ledger differ. */
  predicate SameMaps(t: State, u: State) {
    t.labeled == u.labeled && t.whox == u.whox && t.sticky == u.sticky && t.ready == u.ready
  }

  /** Append a new request at `k`; it is written now unless held. */
  function Enqueue(t: State, k: Key, r: Request): (u: State)
    ensures SameMaps(t, u)
  {
    t.(queues := t.queues[k := QueueAt(t.queues, k) + [r]], ledger := Register(t.ledger, r, !r.hold))
  }

  /** The keyed enquiries that share or hold by remote form: WHOIS nick, STATS letter, NAMES channel. */
  function BeginByRemote(t: State, k: Key, r: Request): (u: State)
    ensures SameMaps(t, u)
  {
    if !Busy(t, k) then Enqueue(t, k, r.(hold := false))
    else match FirstRemote(t.queues[k], r.remote)
      case Some(i) => if i < |t.queues[k]| then t.(queues := CoalesceAt(t.queues, k, i, r.owner)) else t
      case None => Enqueue(t, k, r.(hold := true))
  }

  function WhoisRequest(o: Opts, id: nat, target: WhoisTarget, now: int): Request {
    Request(id, Waiter(o.client, o.clientLabel, false, ""), [], "WHOIS", target.nick, o.remote,
            WhoisOutbound(target.wire, o.remote), false, now, o.ends, {}, "", "")
  }

  /** One WHOIS nick: skipped when blank, else shared, held or written. */
  function BeginNick(t: State, o: Opts, target: WhoisTarget, now: int): (u: State)
    ensures SameMaps(t, u)
  {
    if target.wire == "" then t
    else BeginByRemote(t, Whois(target.nick), WhoisRequest(o, t.ledger.nextId, target, now))
  }

  function BeginWhois(t: State, o: Opts, targets: seq<WhoisTarget>, now: int): (u: State)
    ensures SameMaps(t, u)
    decreases |targets|
  {
    if targets == [] then t else BeginWhois(BeginNick(t, o, targets[0], now), o, targets[1..], now)
  }

  /** whoxFieldsKey: the querytype letter does not count for coalescing. */
  function FieldsKey(fields: string): string {
    if fields == [] then [] else
      (if fields[0] == 't' || fields[0] == 'T' then [] else [fields[0]]) + FieldsKey(fields[1..])
  }

  predicate MatchesWhox(r: Request, o: Opts) {
    r.target == o.whoMask && r.flags == o.flags && FieldsKey(r.fields) == FieldsKey(o.fields)
  }

  /** findMatchingWHOX takes any match the map range meets first. */
  ghost predicate PickOk(t: State, o: Opts, pick: Option<string>) {
    match pick
    case Some(tok) => tok in t.whox && MatchesWhox(t.whox[tok], o)
    case None => forall tok :: tok in t.whox ==> !MatchesWhox(t.whox[tok], o)
  }

  function FormatBase36(n: nat): string {
    if n < 36 then [DIGITS[n]] else FormatBase36(n / 36) + [DIGITS[n % 36]]
  }

  const DIGITS: string := "0123456789abcdefghijklmnopqrstuvwxyz"

  function BeginWhox(t: State, o: Opts, now: int, pick: Option<string>): State {
    match pick
    case Some(tok) => if tok in t.whox then t.(whox := t.whox[tok := Coalesce(t.whox[tok], WaiterOf(o))]) else t
    case None =>
      var n := if t.nextToken + 1 > 999 then 1 else t.nextToken + 1;
      var r := RequestOf(o, t.ledger.nextId, o.whoMask, false, now);
      t.(nextToken := n, whox := t.whox[FormatDecimal(n) := r], ledger := Register(t.ledger, r, true))
  }

  function FormatDecimal(n: nat): string {
    if n < 10 then [DIGITS[n]] else FormatDecimal(n / 10) + [DIGITS[n % 10]]
  }

  function BeginLabeled(t: State, o: Opts, now: int): State {
    var r := RequestOf(o, t.ledger.nextId, o.enquiryTarget, false, now);
    t.(nextLabel := t.nextLabel + 1, labeled := t.labeled["L" + FormatBase36(t.nextLabel + 1) := r],
       ledger := Register(t.ledger, r, true))
  }

  /** MODE: one exchange per target and letters, shared by everybody who asks. */
  function BeginMode(t: State, o: Opts, now: int): (u: State)
    ensures SameMaps(t, u)
  {
    var k := Mode(o.enquiryTarget, ModeLetters.KeyOf(o.modeLetters));
    if Busy(t, k) then t.(queues := CoalesceAt(t.queues, k, 0, WaiterOf(o)))
    else Enqueue(t, k, RequestOf(o, t.ledger.nextId, o.enquiryTarget, false, now))
  }

  predicate MustHold(q: seq<Request>, cmd: string, remote: string) {
    q != [] && (HoldWrite(cmd) || (TakesServerTarget(cmd) && HasOtherRemote(q, remote)))
  }

  function BeginSerial(t: State, o: Opts, now: int): (u: State)
    ensures SameMaps(t, u)
  {
    var hold := MustHold(QueueAt(t.queues, Serial(o.cmd)), o.cmd, o.remote);
    Enqueue(t, Serial(o.cmd), RequestOf(o, t.ledger.nextId, o.enquiryTarget, hold, now))
  }

  /** The commands that enter one queue. */
  function BeginQueued(t: State, o: Opts, now: int): (u: State)
    ensures SameMaps(t, u)
  {
    var id := t.ledger.nextId;
    if o.cmd == "STATS" && o.statsLetter != "" then
      BeginByRemote(t, Stats(o.statsLetter), RequestOf(o, id, o.statsLetter, false, now))
    else if o.cmd == "TOPIC" && o.enquiryTarget != "" then
      Enqueue(t, Topic(o.enquiryTarget), RequestOf(o, id, o.enquiryTarget, false, now))
    else if o.cmd == "MODE" && o.enquiryTarget != "" then BeginMode(t, o, now)
    else if o.cmd == "NAMES" && o.enquiryTarget != "" then
      BeginByRemote(t, Names(o.enquiryTarget), RequestOf(o, id, o.enquiryTarget, false, now))
    else BeginSerial(t, o, now)
  }

  /** The body of Begin after its sweep, in the order of its branches. */
  function BeginBody(t: State, o: Opts, now: int, pick: Option<string>): State {
    if o.preferLabel then BeginLabeled(t, o, now)
    else if o.preferWhox && (o.cmd == "WHO" || o.cmd == "WHOX") then BeginWhox(t, o, now, pick)
    else if o.cmd == "WHOIS" && o.whoisTargets != [] then BeginWhois(t, o, o.whoisTargets, now)
    else BeginQueued(t, o, now)
  }

  // ---------------------------------------------------------------- routing

  /** A numeric from the uplink, with its params as sent, folded by the casemapping, and
      trimmed and lower-cased (server names and STATS letters). */
  datatype Numeric = Numeric(tagLabel: string, command: string, params: seq<string>, folded: seq<string>,
                             lowered: seq<string>, whoisReply: bool)

  /** Which pending exchange a numeric belongs to, and whether it ends it. */
  datatype Effect =
    | ToLabel(tag: string)
    | ToSticky(target: string)
    | ToModes(keys: seq<Key>)
    | ToQueue(k: Key, ends: bool)
    | ToWhox(token: string, ends: bool)
    | ToNobody

  ghost predicate EffectOk(t: State, e: Effect) {
    match e
    case ToLabel(l) => l in t.labeled
    case ToSticky(target) => target in t.sticky
    case ToModes(keys) =>
      forall i :: 0 <= i < |keys| ==> keys[i].Mode? && keys[i] in t.queues && t.queues[keys[i]] != []
    case ToQueue(k, _) => k in t.queues && t.queues[k] != []
    case ToWhox(tok, _) => tok in t.whox
    case ToNobody => true
  }

  function HeadDests(qs: Queues, keys: seq<Key>): seq<Waiter> {
    if keys == [] then [] else
      (if keys[0] in qs && qs[keys[0]] != [] then DestsOf(qs[keys[0]][0]) else []) + HeadDests(qs, keys[1..])
  }

  function Dests(t: State, e: Effect): seq<Waiter> {
    match e
    case ToLabel(l) => if l in t.labeled then DestsOf(t.labeled[l]) else []
    case ToSticky(target) => if target in t.sticky then t.sticky[target].dests else []
    case ToModes(keys) => HeadDests(t.queues, keys)
    case ToQueue(k, _) => if k in t.queues && t.queues[k] != [] then DestsOf(t.queues[k][0]) else []
    case ToWhox(tok, _) => if tok in t.whox then DestsOf(t.whox[tok]) else []
    case ToNobody => []
  }

  /** A MODE 324 leaves a one-shot route for the 329 that follows. */
  function StickyFor(m: map<string, Sticky>, r: Request, target: string,
      command: string, now: int): map<string, Sticky> {
    if r.cmd == "MODE" && command == "324" && "329" in r.replies && target != ""
    then m[target := Sticky(DestsOf(r), now)] else m
  }

  function Remove<K, V>(m: map<K, V>, k: K): map<K, V> {
    map x | x in m && x != k :: m[x]
  }

  function PopAt(qs: Queues, k: Key): Queues
    requires k in qs
  {
    if Pop(qs[k]) == [] then Remove(qs, k) else qs[k := Pop(qs[k])]
  }

  ghost function Deliver(t: State, n: Numeric, e: Effect, now: int): State
    requires EffectOk(t, e)
  {
    match e
    case ToLabel(l) =>
      var r := t.labeled[l];
      if n.command !in r.ends then t else
        var target := if r.target != "" then r.target else if |n.folded| > 1 then n.folded[1] else "";
        t.(labeled := Remove(t.labeled, l), sticky := StickyFor(t.sticky, r, target, n.command, now))
    case ToSticky(target) => t.(sticky := Remove(t.sticky, target))
    case ToModes(keys) => Requeue(t, map k | k in t.queues && k !in keys :: t.queues[k], [])
    case ToQueue(k, ends) =>
      if !ends then t else
        Requeue(t, PopAt(t.queues, k), PopFreed(t.queues[k]))
          .(sticky := if k.Mode? then StickyFor(t.sticky, t.queues[k][0], k.target, n.command, now) else t.sticky)
    case ToWhox(tok, ends) => if ends then t.(whox := Remove(t.whox, tok)) else t
    case ToNobody => t
  }

  // ---------------------------------------------------------------- choosing the exchange (routeLocked)

  function ParamAt(ps: seq<string>, i: nat): string {
    if i < |ps| then ps[i] else ""
  }

  function ModeTarget(n: Numeric): string {
    if n.command == "221" then ParamAt(n.folded, 0)
    else if n.command in {"324", "329", "367", "368", "348", "349", "346", "347", "728", "729",
                          "403", "442", "472", "482", "401", "461"} then ParamAt(n.folded, 1)
    else ""
  }

  predicate IsModeError(command: string) {
    command in {"401", "403", "442", "461", "472", "482"}
  }

  function ModeLetter(command: string): Option<string> {
    if command in {"221", "324", "329"} then Some("")
    else if command in {"367", "368"} then Some("b")
    else if command in {"348", "349"} then Some("e")
    else if command in {"346", "347"} then Some("I")
    else if command in {"728", "729"} then Some("q")
    else None
  }

  function TopicTarget(n: Numeric): string {
    if n.command in {"331", "332", "333", "401", "403", "442", "461"} then ParamAt(n.folded, 1) else ""
  }

  function NamesTarget(n: Numeric): string {
    if n.command == "353" then ParamAt(n.folded, 2)
    else if n.command in {"366", "401", "403"} then ParamAt(n.folded, 1)
    else ""
  }

  predicate IsStatsNumeric(command: string) {
    command in {"211", "212", "213", "214", "215", "216", "217", "218", "219",
                "241", "242", "243", "244", "245", "246", "247", "248", "249", "250"}
  }

  predicate IsLikelyReply(command: string) {
    |command| == 3 && forall i :: 0 <= i < 3 ==> '0' <= command[i] <= '9'
  }

  const SERIAL_ORDER: seq<string> :=
    ["LIST", "WHO", "WHOX", "NAMES", "ISON", "USERHOST", "LUSERS", "LINKS",
     "MAP", "WHOWAS", "TIME", "TRACE", "USERS", "HELP", "ADMIN", "SILENCE"]

  /** The head of `k` recognises the numeric as its own. */
  predicate Accepts(t: State, k: Key, command: string) {
    Busy(t, k) && (t.queues[k][0].replies == {} || command in t.queues[k][0].replies)
  }

  predicate Ends(t: State, k: Key, command: string) {
    Busy(t, k) && command in t.queues[k][0].ends
  }

  /** A MODE queue of this target, restricted to list letters when `letter` is given. */
  predicate ModeOf(t: State, k: Key, target: string, letter: string) {
    Busy(t, k) && k.Mode? && k.target == target && (letter == "" || (|letter| == 1 && letter[0] in k.letters))
  }

  ghost predicate OldestMode(t: State, k: Key, target: string, letter: string) {
    ModeOf(t, k, target, letter) &&
    forall o :: ModeOf(t, o, target, letter) ==> t.queues[k][0].created <= t.queues[o][0].created
  }

  /** findModeWaiters: the exact queue, else the oldest holding the letter, else the oldest. */
  ghost predicate FoundMode(t: State, k: Key, target: string, letter: string) {
    if Busy(t, Mode(target, letter)) then k == Mode(target, letter)
    else if letter != "" && exists o :: ModeOf(t, o, target, letter) then OldestMode(t, k, target, letter)
    else OldestMode(t, k, target, "")
  }

  /** popAllModeTarget: `keys` enumerates the MODE queues the error is for. */
  ghost predicate AllModes(t: State, keys: seq<Key>, target: string, command: string) {
    && (forall k :: k in keys <==> ModeOf(t, k, target, "") && Accepts(t, k, command))
    && (forall i, j :: 0 <= i < j < |keys| ==> keys[i] != keys[j])
  }

  ghost predicate Selects(t: State, n: Numeric, e: Effect) {
    if n.tagLabel != "" && n.tagLabel in t.labeled then e == ToLabel(n.tagLabel)
    else if n.command == "329" && |n.folded| > 1 && n.folded[1] in t.sticky then e == ToSticky(n.folded[1])
    else SelectsMode(t, n, e) || (ModePasses(t, n) && SelectsKeyed(t, n, e))
  }

  ghost predicate SelectsMode(t: State, n: Numeric, e: Effect) {
    && ModeTarget(n) != ""
    && (if IsModeError(n.command) then e.ToModes? && e.keys != [] && AllModes(t, e.keys, ModeTarget(n), n.command)
        else && ModeLetter(n.command).Some? && e.ToQueue?
             && FoundMode(t, e.k, ModeTarget(n), ModeLetter(n.command).value)
             && Accepts(t, e.k, n.command) && (e.ends <==> Ends(t, e.k, n.command)))
  }

  /** routeModeLocked may return nil and let the later branches look. */
  ghost predicate ModePasses(t: State, n: Numeric) {
    || ModeTarget(n) == ""
    || (if IsModeError(n.command) then forall k :: !(ModeOf(t, k, ModeTarget(n), "") && Accepts(t, k, n.command))
        else ModeLetter(n.command).Some? ==>
               || (forall k :: !ModeOf(t, k, ModeTarget(n), ""))
               || exists k :: FoundMode(t, k, ModeTarget(n), ModeLetter(n.command).value) && !Accepts(t, k, n.command))
  }

  ghost predicate SelectsKeyed(t: State, n: Numeric, e: Effect) {
    if TopicTarget(n) != "" && Accepts(t, Topic(TopicTarget(n)), n.command) then
      e == ToQueue(Topic(TopicTarget(n)), Ends(t, Topic(TopicTarget(n)), n.command))
    else if NamesTarget(n) != "" && Accepts(t, Names(NamesTarget(n)), n.command) then
      e == ToQueue(Names(NamesTarget(n)), Ends(t, Names(NamesTarget(n)), n.command))
    else if n.whoisReply && |n.folded| > 1 && Busy(t, Whois(n.folded[1])) then
      e == ToQueue(Whois(n.folded[1]), Ends(t, Whois(n.folded[1]), n.command))
    else SelectsStats(t, n, e)
  }

  /** A STATS queue whose in-flight head was sent to this server. */
  predicate StatsVia(t: State, k: Key, server: string) {
    k.Stats? && Busy(t, k) && t.queues[k][0].remote != "" && t.queues[k][0].remote == server
  }

  ghost predicate OnlyStats(t: State, k: Key) {
    k.Stats? && Busy(t, k) && forall o: Key :: o.Stats? && Busy(t, o) ==> o == k
  }

  ghost predicate SelectsStats(t: State, n: Numeric, e: Effect) {
    if n.command == "402" && |n.lowered| > 1 && exists k :: StatsVia(t, k, n.lowered[1]) then
      e.ToQueue? && e.ends && StatsVia(t, e.k, n.lowered[1])
    else if n.command == "219" && |n.lowered| > 1 && Busy(t, Stats(n.lowered[1])) then
      e == ToQueue(Stats(n.lowered[1]), true)
    else if IsStatsNumeric(n.command) && n.command != "219" && exists k :: OnlyStats(t, k) then
      e.ToQueue? && !e.ends && OnlyStats(t, e.k)
    else SelectsWhox(t, n, e)
  }

  ghost predicate OldestWhox(t: State, tok: string, masks: set<string>) {
    && tok in t.whox && t.whox[tok].target in masks
    && forall o :: o in t.whox && t.whox[o].target in masks ==> t.whox[tok].created <= t.whox[o].created
  }

  ghost predicate SelectsWhox(t: State, n: Numeric, e: Effect) {
    var mask := ParamAt(n.folded, 1);
    var all := set tok | tok in t.whox :: t.whox[tok].target;
    if n.command == "354" && |n.params| > 1 && n.params[1] in t.whox then e == ToWhox(n.params[1], false)
    else if n.command == "354" && |n.params| > 1 && n.params[1] != "0" then e == ToNobody
    else if n.command == "315" && mask != "" && mask in all then e.ToWhox? && e.ends && OldestWhox(t, e.token, {mask})
    else if n.command == "315" && t.quirky && all != {} then e.ToWhox? && e.ends && OldestWhox(t, e.token, all)
    else if n.command == "354" && t.quirky && |t.whox| == 1 then e.ToWhox? && !e.ends && e.token in t.whox
    else match SerialFor(t, SERIAL_ORDER, n.command)
      case Some(kind) => e == ToQueue(Serial(kind), Ends(t, Serial(kind), n.command))
      case None => e == ToNobody
  }

  /** serialHeadFor. */
  function SerialFor(t: State, kinds: seq<string>, command: string): (r: Option<string>)
    ensures r.Some? ==> Busy(t, Serial(r.value))
  {
    if kinds == [] then None
    else if Busy(t, Serial(kinds[0])) &&
            (command in t.queues[Serial(kinds[0])][0].replies ||
             (t.queues[Serial(kinds[0])][0].replies == {} && IsLikelyReply(command))) then Some(kinds[0])
    else SerialFor(t, kinds[1..], command)
  }

  /** Whatever branch is taken names an exchange that exists. */
  lemma SelectsIsOk(t: State, n: Numeric, e: Effect)
    requires Selects(t, n, e)
    ensures EffectOk(t, e)
  {
    if e.ToModes? {
      forall i | 0 <= i < |e.keys|
        ensures e.keys[i].Mode? && e.keys[i] in t.queues && t.queues[e.keys[i]] != []
      {
        assert e.keys[i] in e.keys;
      }
    }
  }

  // ---------------------------------------------------------------- steps

  datatype Action =
    | Begin(opts: Opts, now: int, order: seq<Key>, pick: Option<string>)
    | Route(numeric: Numeric, now: int, order: seq<Key>, effect: Effect)
    | Drop(client: ClientId, order: seq<Key>)
    | TakeReady
    | SetWhoxFix(token: string, injectT: bool, clientToken: string)
    | SetIrcd(quirky: bool)

  /** SetWHOXClientFix. */
  function FixWhox(r: Request, injectT: bool, clientToken: string): Request {
    var owner := r.owner.(strip := injectT, restore := if injectT then r.owner.restore else clientToken);
    r.(owner := owner, extra := FixExtras(r.extra, injectT))
  }

  function FixExtras(ws: seq<Waiter>, strip: bool): (ps: seq<Waiter>)
    ensures |ps| == |ws|
    ensures forall i :: 0 <= i < |ws| ==> ps[i].client == ws[i].client
  {
    if ws == [] then [] else [FixRewrite(ws[0], strip)] + FixExtras(ws[1..], strip)
  }

  ghost function Step(t: State, a: Action): State
    requires Valid(t, a)
  {
    match a
    case Begin(o, now, order, pick) => BeginBody(SweepState(t, Aging(now), order), o, now, pick)
    case Route(n, now, order, e) =>
      var swept := SweepState(t, Aging(now), order);
      SelectsIsOk(swept, n, e);
      Deliver(swept, n, e, now)
    case Drop(c, order) => SweepState(t, Leaving(c), order)
    case TakeReady => t.(ready := [], ledger := t.ledger.(sent := t.ledger.sent + t.ready))
    case SetWhoxFix(tok, injectT, ct) =>
      if tok in t.whox then t.(whox := t.whox[tok := FixWhox(t.whox[tok], injectT, ct)]) else t
    case SetIrcd(q) => t.(quirky := q)
  }

  ghost predicate Valid(t: State, a: Action) {
    match a
    case Begin(o, now, order, pick) => Visits(order, t.queues) && PickOk(SweepState(t, Aging(now), order), o, pick)
    case Route(n, now, order, e) =>
      Visits(order, t.queues) && Selects(SweepState(t, Aging(now), order), n, e)
    case Drop(_, order) => Visits(order, t.queues)
    case _ => true
  }
}

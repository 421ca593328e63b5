/** What Begin does for the client that asks (internal/session/tracker.go:307-460, 1099-1122): on every
    branch it is entered once, with its own label and token, into an exchange of the form it asked for;
    nobody who already waits is moved, and no other exchange is touched. */
module TrackerAsks {
  import opened Common
  import opened TrackerQueue
  import opened Tracker
  import ModeLetters
  import TrackerRuns

  // ---------------------------------------------------------------- joining and entering

  predicate AlreadyWaits(r: Request, c: ClientId) {
    r.owner.client == c || exists i :: 0 <= i < |r.extra| && r.extra[i].client == c
  }

  /** `w` gets every reply of `r` from now on, behind those who already do and with its own label. What
      the bouncer injected into the line is stripped for it unless it sent a token of its own. */
  predicate Joins(r: Request, p: Request, w: Waiter) {
    p == if AlreadyWaits(r, w.client) then r
         else r.(extra := r.extra + [Waiter(w.client, w.echoLabel, w.restore == "" && r.owner.strip, w.restore)])
  }

  /** The first exchange of this form is joined, and the others stay. */
  ghost predicate SharedAt(before: seq<Request>, after: seq<Request>, i: nat, remote: string, w: Waiter) {
    && i < |before| == |after|
    && before[i].remote == remote && (forall j :: 0 <= j < i ==> before[j].remote != remote)
    && Joins(before[i], after[i], w) && forall j :: 0 <= j < |before| && j != i ==> after[j] == before[j]
  }

  ghost predicate Shared(before: seq<Request>, after: seq<Request>, remote: string, w: Waiter) {
    exists i: nat :: SharedAt(before, after, i, remote, w)
  }

  predicate HasForm(q: seq<Request>, remote: string) {
    exists i :: 0 <= i < |q| && q[i].remote == remote
  }

  /** A keyed enquiry shares an exchange of its form, or waits behind exchanges of other forms. */
  ghost predicate Asked(before: seq<Request>, after: seq<Request>, r: Request) {
    if HasForm(before, r.remote) then Shared(before, after, r.remote, r.owner)
    else after == before + [r.(hold := before != [])]
  }

  lemma CoalesceJoins(r: Request, w: Waiter)
    ensures Joins(r, Coalesce(r, w), w)
  {
    var ds := DestsOf(r);
    assert ds[0] == r.owner;
    assert forall i :: 0 <= i < |r.extra| ==> ds[i + 1] == r.extra[i];
    assert AlreadyWaits(r, w.client) <==> Waits(ds, w.client) by {
      if Waits(ds, w.client) {
        var i :| 0 <= i < |ds| && ds[i].client == w.client;
        assert i > 0 ==> r.extra[i - 1].client == w.client;
      }
      if AlreadyWaits(r, w.client) && r.owner.client != w.client {
        var i :| 0 <= i < |r.extra| && r.extra[i].client == w.client;
        assert ds[i + 1].client == w.client;
      }
    }
  }

  /** Where the first exchange of a form is, if there is one. */
  lemma {:induction false} FirstOfForm(q: seq<Request>, remote: string)
    ensures var i := FirstRemote(q, remote);
            && (i.Some? <==> HasForm(q, remote))
            && (i.Some? ==> i.value < |q| && q[i.value].remote == remote
                            && forall j :: 0 <= j < i.value ==> q[j].remote != remote)
  {
    if q != [] {
      FirstOfForm(q[1..], remote);
      assert forall j :: 0 < j < |q| ==> q[j] == q[1..][j - 1];
      if HasForm(q[1..], remote) {
        var i :| 0 <= i < |q[1..]| && q[1..][i].remote == remote;
        assert q[i + 1].remote == remote;
      }
    }
  }

  lemma ByRemoteAsks(t: State, k: Key, r: Request)
    ensures var u := BeginByRemote(t, k, r);
            && Asked(QueueAt(t.queues, k), QueueAt(u.queues, k), r)
            && u.queues == t.queues[k := QueueAt(u.queues, k)]
  {
    var q := QueueAt(t.queues, k);
    FirstOfForm(q, r.remote);
    if q != [] && HasForm(q, r.remote) {
      var i := FirstRemote(q, r.remote).value;
      CoalesceJoins(q[i], r.owner);
      assert SharedAt(q, q[i := Coalesce(q[i], r.owner)], i, r.remote, r.owner);
    }
  }

  // ---------------------------------------------------------------- the enquiries that enter one queue

  /** A new request carries what was asked, whoever asked it. */
  predicate IsNew(r: Request, o: Opts, id: nat, target: string, now: int) {
    && r.owner == Waiter(o.client, o.clientLabel, false, o.clientToken) && r.extra == []
    && r.id == id && r.cmd == o.cmd && r.target == target && r.remote == o.remote && r.outbound == o.outbound
    && r.created == now && r.ends == o.ends && r.replies == o.replies && r.flags == o.flags && r.fields == o.fields
  }

  lemma NewRequest(o: Opts, id: nat, target: string, hold: bool, now: int)
    ensures var r := RequestOf(o, id, target, hold, now); IsNew(r, o, id, target, now) && r.hold == hold
  {
  }

  /** The key a command is filed under. */
  predicate FiledUnder(o: Opts, k: Key, target: string) {
    if o.cmd == "STATS" && o.statsLetter != "" then k == Stats(o.statsLetter) && target == o.statsLetter
    else if o.enquiryTarget != "" && o.cmd == "TOPIC" then k == Topic(target) && target == o.enquiryTarget
    else if o.enquiryTarget != "" && o.cmd == "MODE" then
      k == Mode(target, ModeLetters.KeyOf(o.modeLetters)) && target == o.enquiryTarget
    else if o.enquiryTarget != "" && o.cmd == "NAMES" then k == Names(target) && target == o.enquiryTarget
    else k == Serial(o.cmd) && target == o.enquiryTarget
  }

  /** The commands whose replies cannot be told apart, and those that may go to another server. */
  predicate Indistinct(cmd: string) {
    || cmd == "LIST" || cmd == "WHO" || cmd == "WHOX" || cmd == "NAMES" || cmd == "LINKS" || cmd == "MAP"
    || cmd == "LUSERS" || cmd == "TRACE" || cmd == "USERS" || cmd == "HELP" || cmd == "ADMIN" || cmd == "SILENCE"
    || cmd == "WHOWAS"
  }

  predicate MayGoElsewhere(cmd: string) {
    || cmd == "TIME" || cmd == "ADMIN" || cmd == "USERS" || cmd == "TRACE" || cmd == "MAP" || cmd == "LIST"
    || cmd == "LINKS" || cmd == "LUSERS" || cmd == "WHOWAS"
  }

  /** Must wait for what is ahead of it: the replies could not be told apart. */
  ghost predicate MustWait(q: seq<Request>, o: Opts) {
    && q != []
    && (Indistinct(o.cmd) || (MayGoElsewhere(o.cmd) && exists i :: 0 <= i < |q| && q[i].remote != o.remote))
  }

  /** The queue asked for, before and after: WHOIS, STATS and NAMES share by form, MODE shares with
      whoever asked for the same letters, TOPIC and the rest queue up. */
  ghost predicate Entered(before: seq<Request>, after: seq<Request>, k: Key, o: Opts, r: Request) {
    match k
    case Mode(_, _) =>
      if before == [] then after == [r.(hold := false)]
      else |after| == |before| && Joins(before[0], after[0], r.owner) && after[1..] == before[1..]
    case Topic(_) => after == before + [r.(hold := false)]
    case Serial(_) => after == before + [r.(hold := MustWait(before, o))]
    case _ => Asked(before, after, r)
  }

  lemma HoldExact(q: seq<Request>, o: Opts)
    ensures MustHold(q, o.cmd, o.remote) <==> MustWait(q, o)
  {
    assert HoldWrite(o.cmd) <==> Indistinct(o.cmd);
    assert TakesServerTarget(o.cmd) <==> MayGoElsewhere(o.cmd);
  }

  lemma ModeEnters(t: State, o: Opts, now: int)
    ensures var u, k := BeginMode(t, o, now), Mode(o.enquiryTarget, ModeLetters.KeyOf(o.modeLetters));
            var r := RequestOf(o, t.ledger.nextId, o.enquiryTarget, false, now);
            && Entered(QueueAt(t.queues, k), QueueAt(u.queues, k), k, o, r)
            && u.queues == t.queues[k := QueueAt(u.queues, k)]
  {
    var k := Mode(o.enquiryTarget, ModeLetters.KeyOf(o.modeLetters));
    var q := QueueAt(t.queues, k);
    if q != [] {
      CoalesceJoins(q[0], WaiterOf(o));
      assert q[0 := Coalesce(q[0], WaiterOf(o))][1..] == q[1..];
    }
  }

  lemma SerialEnters(t: State, o: Opts, now: int)
    ensures var u, k := BeginSerial(t, o, now), Serial(o.cmd);
            var r := RequestOf(o, t.ledger.nextId, o.enquiryTarget, false, now);
            && Entered(QueueAt(t.queues, k), QueueAt(u.queues, k), k, o, r)
            && u.queues == t.queues[k := QueueAt(u.queues, k)]
  {
    HoldExact(QueueAt(t.queues, Serial(o.cmd)), o);
  }

  /** What is entered is filed under its own key as given, and every other queue is as it was. */
  lemma QueuedEnters(t: State, o: Opts, k: Key, target: string, now: int)
    requires FiledUnder(o, k, target)
    ensures var u := BeginQueued(t, o, now);
            && u.queues == t.queues[k := QueueAt(u.queues, k)] && SameMaps(t, u)
            && exists r :: IsNew(r, o, t.ledger.nextId, target, now)
                           && Entered(QueueAt(t.queues, k), QueueAt(u.queues, k), k, o, r)
  {
    var r := RequestOf(o, t.ledger.nextId, target, false, now);
    NewRequest(o, t.ledger.nextId, target, false, now);
    ModeEnters(t, o, now);
    SerialEnters(t, o, now);
    ByRemoteAsks(t, k, r);
    assert k.Stats? || k.Names? ==> BeginQueued(t, o, now) == BeginByRemote(t, k, r);
    assert k.Topic? ==> BeginQueued(t, o, now) == Enqueue(t, k, r);
    assert Entered(QueueAt(t.queues, k), QueueAt(BeginQueued(t, o, now).queues, k), k, o, r);
  }

  // ---------------------------------------------------------------- WHOIS, nick by nick

  lemma WhoisLines(nick: string, server: string)
    ensures WhoisOutbound(nick, "") == Line("WHOIS", [nick], "")
    ensures WhoisOutbound(nick, WHOIS_REMOTE_NICK) == Line("WHOIS", [nick, nick], "")
    ensures server !in {"", WHOIS_REMOTE_NICK} ==> WhoisOutbound(nick, server) == Line("WHOIS", [server, nick], "")
  {
  }

  function NickWaiter(o: Opts): Waiter {
    Waiter(o.client, o.clientLabel, false, "")
  }

  /** One nick: its exchange of this form is shared, or one is entered with the line for it. */
  ghost predicate NickAsked(before: seq<Request>, after: seq<Request>, o: Opts, wire: string, nick: string, now: int) {
    if HasForm(before, o.remote) then Shared(before, after, o.remote, NickWaiter(o))
    else exists id :: NickAppended(before, after, o, wire, nick, now, id)
  }

  ghost predicate NickAppended(before: seq<Request>, after: seq<Request>, o: Opts, wire: string, nick: string,
      now: int, id: nat)
  {
    after == before + [Request(id, NickWaiter(o), [], "WHOIS", nick, o.remote,
                         WhoisOutbound(wire, o.remote), before != [], now, o.ends, {}, "", "")]
  }

  /** The first spelling of a nick in the list; blanks are skipped. */
  function Spelling(targets: seq<WhoisTarget>, nick: string): Option<string> {
    if targets == [] then None
    else if targets[0].wire != "" && targets[0].nick == nick then Some(targets[0].wire)
    else Spelling(targets[1..], nick)
  }

  predicate SameAt(t: State, u: State, k: Key) {
    QueueAt(t.queues, k) == QueueAt(u.queues, k) && (k in t.queues <==> k in u.queues)
  }

  lemma NickEnters(t: State, o: Opts, target: WhoisTarget, now: int)
    requires target.wire != ""
    ensures var u, k := BeginNick(t, o, target, now), Whois(target.nick);
            && NickAsked(QueueAt(t.queues, k), QueueAt(u.queues, k), o, target.wire, target.nick, now)
            && forall other :: other != k ==> SameAt(t, u, other)
  {
    var k := Whois(target.nick);
    var r := WhoisRequest(o, t.ledger.nextId, target, now);
    ByRemoteAsks(t, k, r);
    var q := QueueAt(t.queues, k);
    var held := r.(hold := q != []);
    assert held == Request(r.id, NickWaiter(o), [], "WHOIS", target.nick, o.remote,
      WhoisOutbound(target.wire, o.remote), q != [], now, o.ends, {}, "", "");
    assert !HasForm(q, o.remote) ==>
      NickAppended(q, QueueAt(BeginNick(t, o, target, now).queues, k), o, target.wire, target.nick, now, r.id);
  }

  /** Who has joined stays where it is when it asks again. */
  lemma JoinedStays(q: seq<Request>, p: seq<Request>, i: nat, remote: string, w: Waiter)
    requires i < |q| && q[i].remote == remote && (forall j :: 0 <= j < i ==> q[j].remote != remote)
    requires AlreadyWaits(q[i], w.client) && Shared(q, p, remote, w)
    ensures p == q
  {
    var n: nat :| SharedAt(q, p, n, remote, w);
    assert n == i;
    assert forall j :: 0 <= j < |q| ==> p[j] == q[j];
  }

  lemma JoinsWaits(r: Request, p: Request, w: Waiter)
    requires Joins(r, p, w)
    ensures AlreadyWaits(p, w.client) && p.remote == r.remote
  {
    assert !AlreadyWaits(r, w.client) ==> p.extra[|r.extra|].client == w.client;
  }

  lemma AskedTwice(a: seq<Request>, b: seq<Request>, c: seq<Request>, o: Opts, wire: string, again: string,
      nick: string, now: int)
    requires NickAsked(a, b, o, wire, nick, now) && NickAsked(b, c, o, again, nick, now)
    ensures c == b
  {
    var w := NickWaiter(o);
    if HasForm(a, o.remote) {
      var i: nat :| SharedAt(a, b, i, o.remote, w);
      JoinsWaits(a[i], b[i], w);
      assert b[i].remote == o.remote;
      JoinedStays(b, c, i, o.remote, w);
    } else {
      assert forall j :: 0 <= j < |a| ==> b[j] == a[j];
      assert b[|a|].remote == o.remote;
      JoinedStays(b, c, |a|, o.remote, w);
    }
  }

  /** A nick that is asked about, under its first spelling, and one that is not. */
  ghost predicate NickDone(t: State, u: State, o: Opts, wire: Option<string>, nick: string, now: int) {
    match wire
    case None => SameAt(t, u, Whois(nick))
    case Some(w) => NickAsked(QueueAt(t.queues, Whois(nick)), QueueAt(u.queues, Whois(nick)), o, w, nick, now)
  }

  lemma FirstNick(t: State, o: Opts, target: WhoisTarget, nick: string, now: int)
    ensures NickDone(t, BeginNick(t, o, target, now), o,
                     if target.wire != "" && target.nick == nick then Some(target.wire) else None, nick, now)
  {
    if target.wire != "" {
      NickEnters(t, o, target, now);
    }
  }

  lemma NickThen(t: State, next: State, u: State, o: Opts, a: Option<string>, b: Option<string>, nick: string, now: int)
    requires NickDone(t, next, o, a, nick, now) && NickDone(next, u, o, b, nick, now)
    ensures NickDone(t, u, o, if a.Some? then a else b, nick, now)
  {
    var k := Whois(nick);
    if a.Some? && b.Some? {
      AskedTwice(QueueAt(t.queues, k), QueueAt(next.queues, k), QueueAt(u.queues, k), o, a.value, b.value, nick, now);
    }
  }

  /** For every nick of the list, in whatever spellings and however often: its exchange is shared or
      entered once, with the first spelling on the line; a nick that is not in the list is left alone. */
  lemma {:induction false} WhoisEnters(t: State, o: Opts, targets: seq<WhoisTarget>, nick: string, now: int)
    ensures NickDone(t, BeginWhois(t, o, targets, now), o, Spelling(targets, nick), nick, now)
    decreases |targets|
  {
    if targets != [] {
      var next, first := BeginNick(t, o, targets[0], now), targets[0];
      WhoisEnters(next, o, targets[1..], nick, now);
      FirstNick(t, o, first, nick, now);
      NickThen(t, next, BeginWhois(t, o, targets, now), o,
        if first.wire != "" && first.nick == nick then Some(first.wire) else None,
        Spelling(targets[1..], nick), nick, now);
    }
  }

  lemma NickOnly(t: State, o: Opts, target: WhoisTarget, k: Key, now: int)
    requires !k.Whois?
    ensures SameAt(t, BeginNick(t, o, target, now), k)
  {
    if target.wire != "" {
      NickEnters(t, o, target, now);
    }
  }

  lemma SameThen(t: State, next: State, u: State, k: Key)
    requires SameAt(t, next, k) && SameAt(next, u, k)
    ensures SameAt(t, u, k)
  {
  }

  /** No other queue is touched. */
  lemma {:induction false} WhoisOnly(t: State, o: Opts, targets: seq<WhoisTarget>, k: Key, now: int)
    requires !k.Whois?
    ensures SameAt(t, BeginWhois(t, o, targets, now), k)
    decreases |targets|
  {
    if targets != [] {
      var next := BeginNick(t, o, targets[0], now);
      WhoisOnly(next, o, targets[1..], k, now);
      NickOnly(t, o, targets[0], k, now);
      SameThen(t, next, BeginWhois(t, o, targets, now), k);
    }
  }

  // ---------------------------------------------------------------- WHOX and labels

  /** The fields count without the querytype letter, whatever its case. */
  lemma FieldsExact(c: char, rest: string)
    ensures FieldsKey("") == "" && FieldsKey("t" + rest) == FieldsKey("T" + rest) == FieldsKey(rest)
    ensures c != 't' && c != 'T' ==> FieldsKey([c] + rest) == [c] + FieldsKey(rest)
  {
    assert ("t" + rest)[1..] == rest && ("T" + rest)[1..] == rest && ([c] + rest)[1..] == rest;
  }

  /** A WHOX is shared with one of the same mask, flags and fields, if there is one; else it is entered
      under the next token from 1 to 999. No other token's exchange is touched. */
  ghost predicate WhoxEntered(t: State, u: State, o: Opts, now: int) {
    exists tok :: WhoxAt(t, u, o, tok, now)
  }

  predicate SameWhox(r: Request, o: Opts) {
    r.target == o.whoMask && r.flags == o.flags && FieldsKey(r.fields) == FieldsKey(o.fields)
  }

  ghost predicate WhoxAt(t: State, u: State, o: Opts, tok: string, now: int) {
    && tok in u.whox && (forall other :: other != tok ==> SameToken(t.whox, u.whox, other))
    && (if exists x :: x in t.whox && SameWhox(t.whox[x], o)
        then tok in t.whox && SameWhox(t.whox[tok], o)
             && Joins(t.whox[tok], u.whox[tok], Waiter(o.client, o.clientLabel, false, o.clientToken))
        else tok == FormatDecimal(if t.nextToken >= 999 then 1 else t.nextToken + 1)
             && IsNew(u.whox[tok], o, t.ledger.nextId, o.whoMask, now) && !u.whox[tok].hold
             && WroteNow(t, u, o.outbound))
  }

  predicate WroteNow(t: State, u: State, line: Line) {
    u.ledger.sent == t.ledger.sent + if Blank(line) then [] else [Out(t.ledger.nextId, line)]
  }

  predicate SameToken(m: map<string, Request>, p: map<string, Request>, x: string) {
    (x in m <==> x in p) && (x in m ==> m[x] == p[x])
  }

  lemma WhoxEnters(t: State, o: Opts, now: int, pick: Option<string>)
    requires PickOk(t, o, pick)
    ensures var u := BeginWhox(t, o, now, pick); WhoxEntered(t, u, o, now) && u.queues == t.queues
  {
    var u := BeginWhox(t, o, now, pick);
    match pick
    case Some(tok) =>
      CoalesceJoins(t.whox[tok], WaiterOf(o));
      assert SameWhox(t.whox[tok], o);
      assert WhoxAt(t, u, o, tok, now);
    case None =>
      forall x | x in t.whox ensures !SameWhox(t.whox[x], o) {
        assert !MatchesWhox(t.whox[x], o);
      }
      var n := if t.nextToken >= 999 then 1 else t.nextToken + 1;
      NewRequest(o, t.ledger.nextId, o.whoMask, false, now);
      assert WhoxAt(t, u, o, FormatDecimal(n), now);
  }

  /** What SetWHOXClientFix leaves: where the bouncer added the querytype it is stripped for whoever sent
      none, and otherwise the asker's own is put back. */
  lemma FixWhoxExact(r: Request, injectT: bool, token: string)
    ensures var p := FixWhox(r, injectT, token);
            && p == r.(owner := p.owner, extra := p.extra) && |p.extra| == |r.extra|
            && p.owner == Waiter(r.owner.client, r.owner.echoLabel, injectT, if injectT then r.owner.restore else token)
            && forall i :: 0 <= i < |r.extra| ==>
                 p.extra[i] == Waiter(r.extra[i].client, r.extra[i].echoLabel,
                                      r.extra[i].restore == "" && injectT, r.extra[i].restore)
  {
    FixExtrasExact(r.extra, injectT);
  }

  lemma {:induction false} FixExtrasExact(ws: seq<Waiter>, strip: bool)
    ensures forall i :: 0 <= i < |ws| ==>
              var w := ws[i];
              FixExtras(ws, strip)[i] == Waiter(w.client, w.echoLabel, w.restore == "" && strip, w.restore)
  {
    if ws != [] {
      FixExtrasExact(ws[1..], strip);
      assert forall i :: 0 < i < |ws| ==> ws[i] == ws[1..][i - 1];
    }
  }

  /** The digits, least significant last. */
  function DigitOf(c: char): int {
    if '0' <= c <= '9' then c as int - '0' as int else c as int - 'a' as int + 10
  }

  lemma Digits(i: nat)
    requires i < 36
    ensures DigitOf(DIGITS[i]) == i
  {
  }

  lemma Snoc(p: string, d: char)
    ensures (p + [d])[|p + [d]| - 1] == d && (p + [d])[..|p + [d]| - 1] == p
  {
  }

  lemma Shape36(n: nat)
    ensures var s := FormatBase36(n);
            s != "" && s[|s| - 1] == DIGITS[n % 36] && s[..|s| - 1] == if n < 36 then "" else FormatBase36(n / 36)
  {
    var p, d := if n < 36 then "" else FormatBase36(n / 36), DIGITS[n % 36];
    assert n < 36 ==> n % 36 == n;
    assert FormatBase36(n) == p + [d];
    Snoc(p, d);
  }

  function Decode(s: string, base: nat): int {
    if s == "" then 0 else base * Decode(s[..|s| - 1], base) + DigitOf(s[|s| - 1])
  }

  lemma DecodeStep(s: string, n: nat)
    requires s != "" && s[|s| - 1] == DIGITS[n % 36] && Decode(s[..|s| - 1], 36) == n / 36
    ensures Decode(s, 36) == n
  {
    Digits(n % 36);
  }

  lemma {:induction false} Base36Decodes(n: nat)
    ensures Decode(FormatBase36(n), 36) == n
  {
    Shape36(n);
    if n >= 36 {
      Base36Decodes(n / 36);
    }
    DecodeStep(FormatBase36(n), n);
  }

  lemma Shape10(n: nat)
    ensures var s := FormatDecimal(n);
            s != "" && s[|s| - 1] == DIGITS[n % 10] && s[..|s| - 1] == if n < 10 then "" else FormatDecimal(n / 10)
  {
    var p, d := if n < 10 then "" else FormatDecimal(n / 10), DIGITS[n % 10];
    assert n < 10 ==> n % 10 == n;
    assert FormatDecimal(n) == p + [d];
    Snoc(p, d);
  }

  lemma DecimalStep(s: string, n: nat)
    requires s != "" && s[|s| - 1] == DIGITS[n % 10] && Decode(s[..|s| - 1], 10) == n / 10
    ensures Decode(s, 10) == n
  {
    Digits(n % 10);
  }

  /** A token is its number in decimal, so two numbers never share one. */
  lemma {:induction false} DecimalDecodes(n: nat)
    ensures Decode(FormatDecimal(n), 10) == n
  {
    Shape10(n);
    if n >= 10 {
      DecimalDecodes(n / 10);
    }
    DecimalStep(FormatDecimal(n), n);
  }

  /** Every tag in use was made from a number that has been used up. */
  ghost predicate TagsOk(tags: set<string>, last: nat) {
    forall tag :: tag in tags ==> exists n: nat :: IsTag(tag, n) && n <= last
  }

  ghost predicate LabelsOk(t: State) {
    TagsOk(t.labeled.Keys, t.nextLabel)
  }

  predicate IsTag(tag: string, n: nat) { tag == "L" + FormatBase36(n) }

  lemma TagFresh(t: State, n: nat)
    requires LabelsOk(t) && n > t.nextLabel
    ensures "L" + FormatBase36(n) !in t.labeled
  {
    var tag := "L" + FormatBase36(n);
    if tag in t.labeled {
      var m: nat :| IsTag(tag, m) && m <= t.nextLabel;
      assert FormatBase36(n) == tag[1..] == FormatBase36(m);
      Base36Decodes(n);
      Base36Decodes(m);
    }
  }

  /** A labelled request is entered under a tag of its own; the others stay. */
  lemma LabelEnters(t: State, o: Opts, now: int)
    ensures var u, tag := BeginLabeled(t, o, now), "L" + FormatBase36(t.nextLabel + 1);
            && tag in u.labeled && IsNew(u.labeled[tag], o, t.ledger.nextId, o.enquiryTarget, now)
            && !u.labeled[tag].hold && u.nextLabel == t.nextLabel + 1
            && (forall other :: other != tag ==> SameToken(t.labeled, u.labeled, other)) && u.queues == t.queues
            && WroteNow(t, u, o.outbound)
  {
    NewRequest(o, t.ledger.nextId, o.enquiryTarget, false, now);
  }

  lemma SweepLabels(t: State, sw: Sweeping, order: seq<Key>)
    requires LabelsOk(t)
    ensures LabelsOk(SweepState(t, sw, order))
  {
  }

  lemma {:induction false} WhoisLabels(t: State, o: Opts, targets: seq<WhoisTarget>, now: int)
    ensures var u := BeginWhois(t, o, targets, now); u.labeled == t.labeled && u.nextLabel == t.nextLabel
    decreases |targets|
  {
    if targets != [] {
      WhoisLabels(BeginNick(t, o, targets[0], now), o, targets[1..], now);
    }
  }

  lemma QueuedLabels(t: State, o: Opts, now: int)
    ensures BeginQueued(t, o, now).labeled == t.labeled && BeginQueued(t, o, now).nextLabel == t.nextLabel
  {
  }

  /** Only the labelled branch adds a tag. */
  lemma BodyLabels(t: State, o: Opts, now: int, pick: Option<string>)
    requires !o.preferLabel
    ensures var u := BeginBody(t, o, now, pick); u.labeled == t.labeled && u.nextLabel == t.nextLabel
  {
    if o.preferWhox && (o.cmd == "WHO" || o.cmd == "WHOX") {
      assert BeginBody(t, o, now, pick) == BeginWhox(t, o, now, pick);
    } else if o.cmd == "WHOIS" && o.whoisTargets != [] {
      WhoisLabels(t, o, o.whoisTargets, now);
    } else {
      QueuedLabels(t, o, now);
    }
  }

  lemma LabelLabels(t: State, o: Opts, now: int)
    requires LabelsOk(t)
    ensures LabelsOk(BeginLabeled(t, o, now))
  {
    TagAdded(t.labeled.Keys, t.nextLabel);
    assert BeginLabeled(t, o, now).labeled.Keys == t.labeled.Keys + {"L" + FormatBase36(t.nextLabel + 1)};
  }

  lemma TagAdded(tags: set<string>, last: nat)
    requires TagsOk(tags, last)
    ensures TagsOk(tags + {"L" + FormatBase36(last + 1)}, last + 1)
  {
    assert IsTag("L" + FormatBase36(last + 1), last + 1);
  }

  lemma BeginLabels(t: State, o: Opts, now: int, pick: Option<string>)
    requires LabelsOk(t)
    ensures LabelsOk(BeginBody(t, o, now, pick))
  {
    if o.preferLabel {
      LabelLabels(t, o, now);
    } else {
      BodyLabels(t, o, now, pick);
    }
  }

  lemma DeliverLabels(t: State, n: Numeric, e: Effect, now: int)
    requires LabelsOk(t) && EffectOk(t, e)
    ensures LabelsOk(Deliver(t, n, e, now))
  {
  }

  lemma StepLabels(t: State, a: Action)
    requires LabelsOk(t) && Valid(t, a)
    ensures LabelsOk(Step(t, a))
  {
    match a
    case Begin(o, now, order, pick) =>
      SweepLabels(t, Aging(now), order);
      BeginLabels(SweepState(t, Aging(now), order), o, now, pick);
    case Route(n, now, order, e) =>
      SweepLabels(t, Aging(now), order);
      SelectsIsOk(SweepState(t, Aging(now), order), n, e);
      DeliverLabels(SweepState(t, Aging(now), order), n, e, now);
    case Drop(c, order) => SweepLabels(t, Leaving(c), order);
    case _ =>
  }

  lemma {:induction false} RunLabels(t: State, actions: seq<Action>)
    requires LabelsOk(t) && TrackerRuns.ValidRun(t, actions)
    ensures LabelsOk(TrackerRuns.Run(t, actions))
    decreases |actions|
  {
    if actions != [] {
      StepLabels(t, actions[0]);
      RunLabels(Step(t, actions[0]), actions[1..]);
    }
  }

  // ---------------------------------------------------------------- what a Begin leaves behind

  /** The line of a request that is new in a queue is written now exactly when it is not held. */
  predicate Wrote(t: State, u: State, k: Key, line: Line) {
    var q, p := QueueAt(t.queues, k), QueueAt(u.queues, k);
    u.ledger.sent == t.ledger.sent
      + (if |p| > |q| && !p[|q|].hold && !Blank(line) then [Out(t.ledger.nextId, line)] else [])
  }

  lemma EnqueueWrites(t: State, k: Key, r: Request)
    requires r.id == t.ledger.nextId
    ensures Wrote(t, Enqueue(t, k, r), k, r.outbound)
  {
    assert (QueueAt(t.queues, k) + [r])[|QueueAt(t.queues, k)|] == r;
  }

  lemma ByRemoteWrites(t: State, k: Key, r: Request)
    requires r.id == t.ledger.nextId
    ensures Wrote(t, BeginByRemote(t, k, r), k, r.outbound)
  {
    FirstOfForm(QueueAt(t.queues, k), r.remote);
    EnqueueWrites(t, k, r.(hold := true));
    EnqueueWrites(t, k, r.(hold := false));
  }

  lemma ModeWrites(t: State, o: Opts, now: int)
    ensures Wrote(t, BeginMode(t, o, now), Mode(o.enquiryTarget, ModeLetters.KeyOf(o.modeLetters)), o.outbound)
  {
    var k := Mode(o.enquiryTarget, ModeLetters.KeyOf(o.modeLetters));
    EnqueueWrites(t, k, RequestOf(o, t.ledger.nextId, o.enquiryTarget, false, now));
  }

  lemma SerialWrites(t: State, o: Opts, now: int)
    ensures Wrote(t, BeginSerial(t, o, now), Serial(o.cmd), o.outbound)
  {
    var hold := MustHold(QueueAt(t.queues, Serial(o.cmd)), o.cmd, o.remote);
    EnqueueWrites(t, Serial(o.cmd), RequestOf(o, t.ledger.nextId, o.enquiryTarget, hold, now));
  }

  lemma QueuedWrites(t: State, o: Opts, k: Key, target: string, now: int)
    requires FiledUnder(o, k, target)
    ensures Wrote(t, BeginQueued(t, o, now), k, o.outbound)
  {
    var r := RequestOf(o, t.ledger.nextId, target, false, now);
    ModeWrites(t, o, now);
    SerialWrites(t, o, now);
    ByRemoteWrites(t, k, r);
    EnqueueWrites(t, k, r);
    assert k.Stats? || k.Names? ==> BeginQueued(t, o, now) == BeginByRemote(t, k, r);
    assert k.Topic? ==> BeginQueued(t, o, now) == Enqueue(t, k, r);
  }

  /** All that holds of the state after a Begin by `o.client`, `s` being the state without what had expired. */
  ghost predicate Served(s: State, u: State, o: Opts, now: int) {
    if o.preferLabel then LabelServed(s, u, o, now)
    else if o.preferWhox && (o.cmd == "WHO" || o.cmd == "WHOX") then WhoxEntered(s, u, o, now) && u.queues == s.queues
    else if o.cmd == "WHOIS" && o.whoisTargets != [] then
      && (forall nick :: NickDone(s, u, o, Spelling(o.whoisTargets, nick), nick, now))
      && (forall k: Key :: !k.Whois? ==> SameAt(s, u, k))
    else forall k, target :: FiledUnder(o, k, target) ==> QueueServed(s, u, o, k, target, now)
  }

  ghost predicate LabelServed(s: State, u: State, o: Opts, now: int) {
    exists tag :: LabelAt(s, u, o, tag, now) && u.queues == s.queues
  }

  ghost predicate LabelAt(s: State, u: State, o: Opts, tag: string, now: int) {
    && tag !in s.labeled && tag in u.labeled && WroteNow(s, u, o.outbound)
    && IsNew(u.labeled[tag], o, s.ledger.nextId, o.enquiryTarget, now) && !u.labeled[tag].hold
    && forall other :: other != tag ==> SameToken(s.labeled, u.labeled, other)
  }

  ghost predicate QueueServed(s: State, u: State, o: Opts, k: Key, target: string, now: int) {
    && u.queues == s.queues[k := QueueAt(u.queues, k)] && Wrote(s, u, k, o.outbound)
    && exists r :: IsNew(r, o, s.ledger.nextId, target, now)
                   && Entered(QueueAt(s.queues, k), QueueAt(u.queues, k), k, o, r)
  }

  lemma LabelServes(s: State, o: Opts, now: int)
    requires LabelsOk(s)
    ensures LabelServed(s, BeginLabeled(s, o, now), o, now)
  {
    LabelEnters(s, o, now);
    TagFresh(s, s.nextLabel + 1);
    assert LabelAt(s, BeginLabeled(s, o, now), o, "L" + FormatBase36(s.nextLabel + 1), now);
  }

  lemma BodyServes(s: State, o: Opts, now: int, pick: Option<string>)
    requires LabelsOk(s) && PickOk(s, o, pick)
    ensures Served(s, BeginBody(s, o, now, pick), o, now)
  {
    if o.preferLabel {
      LabelServes(s, o, now);
    } else if o.preferWhox && (o.cmd == "WHO" || o.cmd == "WHOX") {
      WhoxEnters(s, o, now, pick);
    } else if o.cmd == "WHOIS" && o.whoisTargets != [] {
      var u := BeginWhois(s, o, o.whoisTargets, now);
      forall nick ensures NickDone(s, u, o, Spelling(o.whoisTargets, nick), nick, now) {
        WhoisEnters(s, o, o.whoisTargets, nick, now);
      }
      forall k: Key | !k.Whois? ensures SameAt(s, u, k) {
        WhoisOnly(s, o, o.whoisTargets, k, now);
      }
    } else {
      QueuedServes(s, o, now);
    }
  }

  lemma QueuedServes(s: State, o: Opts, now: int)
    ensures forall k, target :: FiledUnder(o, k, target) ==> QueueServed(s, BeginQueued(s, o, now), o, k, target, now)
  {
    forall k, target | FiledUnder(o, k, target) ensures QueueServed(s, BeginQueued(s, o, now), o, k, target, now) {
      QueuedEnters(s, o, k, target, now);
      QueuedWrites(s, o, k, target, now);
    }
  }

  /** In every reachable state, Begin serves the client that asks: labelled, WHOX, WHOIS per nick, or in
      the queue of its key. */
  lemma BeginServes(t: State, o: Opts, now: int, order: seq<Key>, pick: Option<string>)
    requires TrackerRuns.Reachable(t) && Valid(t, Begin(o, now, order, pick))
    ensures Served(SweepState(t, Aging(now), order), Step(t, Begin(o, now, order, pick)), o, now)
  {
    var actions :| TrackerRuns.ValidRun(EMPTY, actions) && TrackerRuns.Run(EMPTY, actions) == t;
    RunLabels(EMPTY, actions);
    SweepLabels(t, Aging(now), order);
    BodyServes(SweepState(t, Aging(now), order), o, now, pick);
  }

  // ---------------------------------------------------------------- so nobody asks in vain

  /** One of the exchanges of this form has the client among its destinations. */
  ghost predicate IsServed(q: seq<Request>, c: ClientId, remote: string) {
    exists i :: 0 <= i < |q| && q[i].remote == remote && AlreadyWaits(q[i], c)
  }

  lemma AskedServes(before: seq<Request>, after: seq<Request>, r: Request)
    requires Asked(before, after, r)
    ensures IsServed(after, r.owner.client, r.remote)
  {
    if HasForm(before, r.remote) {
      var i: nat :| SharedAt(before, after, i, r.remote, r.owner);
      JoinsWaits(before[i], after[i], r.owner);
    } else {
      assert after[|before|].owner == r.owner;
    }
  }

  /** Two clients that ask the same of the same server both get the answer. */
  lemma SecondAskerServed(t: State, k: Key, first: Request, r: Request)
    requires first in QueueAt(t.queues, k) && first.remote == r.remote
    ensures var q := QueueAt(BeginByRemote(t, k, r).queues, k);
            IsServed(q, r.owner.client, r.remote) && IsServed(q, first.owner.client, r.remote)
  {
    var before, after := QueueAt(t.queues, k), QueueAt(BeginByRemote(t, k, r).queues, k);
    ByRemoteAsks(t, k, r);
    AskedServes(before, after, r);
    var n :| 0 <= n < |before| && before[n] == first;
    var i: nat :| SharedAt(before, after, i, r.remote, r.owner);
    assert after[n].owner == first.owner;
  }
}

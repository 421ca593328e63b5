/** The request tracker as the object it is (internal/session/tracker.go): fields updated in place by
    Begin, DropClient, the expiry sweep, the queue pops and TakeReady, each proved to do what the
    step of module Tracker does. Maps are ranged over in an arbitrary order, as in Go. */
module TrackerObject {
  import opened Common
  import opened TrackerQueue
  import opened Tracker
  import ModeLetters
  import opened TrackerRoute
  import TrackerAsks

  // ---------------------------------------------------------------- one request, one queue

  /** coalesce. */
  method Share(r: Request, w: Waiter) returns (p: Request)
    ensures p == Coalesce(r, w) && TrackerAsks.Joins(r, p, w)
  {
    TrackerAsks.CoalesceJoins(r, w);
    var ds := DestsOf(r);
    if w.client == r.owner.client {
      assert ds[0].client == w.client;
      return r;
    }
    for i := 0 to |r.extra|
      invariant forall j :: 0 <= j < i ==> r.extra[j].client != w.client
    {
      if r.extra[i].client == w.client {
        assert ds[i + 1].client == w.client;
        return r;
      }
    }
    return r.(extra := r.extra + [FixRewrite(w, r.owner.strip)]);
  }

  /** dropClient; None: nobody is left waiting. */
  method Leave(r: Request, c: ClientId) returns (p: Option<Request>)
    ensures p == DropClient(r, c)
  {
    if r.owner.client == c {
      return if r.extra == [] then None else Some(r.(owner := r.extra[0], extra := r.extra[1..]));
    }
    var kept := RemoveFrom(r.extra, c);
    return Some(r.(extra := kept));
  }

  method RemoveFrom(ds: seq<Waiter>, c: ClientId) returns (kept: seq<Waiter>)
    ensures kept == Without(ds, c)
  {
    kept := [];
    for i := 0 to |ds|
      invariant Without(ds, c) == kept + Without(ds[i..], c)
    {
      WithoutNext(kept, ds, i, c);
      if ds[i].client != c {
        kept := kept + [ds[i]];
      }
    }
  }

  lemma WithoutNext(kept: seq<Waiter>, ds: seq<Waiter>, i: nat, c: ClientId)
    requires i < |ds|
    ensures kept + Without(ds[i..], c) == (if ds[i].client == c then kept else kept + [ds[i]]) + Without(ds[i + 1..], c)
  {
    assert ds[i..][1..] == ds[i + 1..];
  }

  method TrimOne(r: Request, cut: Cut) returns (p: Option<Request>)
    ensures p == Trim(cut, r)
  {
    match cut
    case ByClient(c) => p := Leave(r, c);
    case ByOwner(c) => return if r.owner.client == c then None else Some(r);
    case ByAge(now) => return if now - r.created > REQUEST_TTL then None else Some(r);
  }

  /** The inner loop of dropQueueClient and expireQueue. */
  method SweepList(q: seq<Request>, cut: Cut) returns (kept: seq<Request>, droppedHead: bool)
    ensures kept == Sweep(q, cut) && (droppedHead <==> q != [] && Trim(cut, q[0]).None?)
  {
    kept, droppedHead := [], false;
    for i := 0 to |q|
      invariant Sweep(q, cut) == kept + Sweep(q[i..], cut)
      invariant droppedHead <==> i > 0 && Trim(cut, q[0]).None?
    {
      SweepNext(kept, q, i, cut);
      var r := TrimOne(q[i], cut);
      if r.None? {
        if i == 0 {
          droppedHead := true;
        }
      } else {
        kept := kept + [r.value];
      }
    }
  }

  lemma SweepNext(kept: seq<Request>, q: seq<Request>, i: nat, cut: Cut)
    requires i < |q|
    ensures var r := Trim(cut, q[i]);
            kept + Sweep(q[i..], cut) == (if r.None? then kept else kept + [r.value]) + Sweep(q[i + 1..], cut)
  {
    assert q[i..][1..] == q[i + 1..];
  }

  /** enqueueHeldWrite on the new head. */
  method Release(q: seq<Request>) returns (p: seq<Request>, freed: seq<Out>)
    requires q != []
    ensures p == ReleaseHead(q) && freed == Freed(q[0])
  {
    freed := if q[0].hold && !Blank(q[0].outbound) then [Out(q[0].id, q[0].outbound)] else [];
    p := [q[0].(hold := false)] + q[1..];
  }

  method SweepOne(q: seq<Request>, cut: Cut) returns (p: seq<Request>, freed: seq<Out>)
    ensures p == SweepQueue(q, cut) && freed == SweepFreed(q, cut)
  {
    var kept, droppedHead := SweepList(q, cut);
    if |kept| > 0 && droppedHead {
      p, freed := Release(kept);
    } else {
      p, freed := kept, [];
    }
  }

  /** The queues swept so far, `todo` still to come. */
  function SweptPart(qs: Queues, sw: Sweeping, todo: set<Key>): Queues {
    map k | k in qs && k !in todo && SweepQueue(qs[k], CutOf(sw, k)) != [] :: SweepQueue(qs[k], CutOf(sw, k))
  }

  ghost predicate VisitedPart(order: seq<Key>, qs: Queues, todo: set<Key>) {
    && (forall k :: k in order <==> k in qs && k !in todo)
    && (forall i, j :: 0 <= i < j < |order| ==> order[i] != order[j])
  }

  lemma SweptNext(qs: Queues, sw: Sweeping, todo: set<Key>, k: Key)
    requires k in todo && k in qs
    ensures var p, left := SweepQueue(qs[k], CutOf(sw, k)), SweptPart(qs, sw, todo);
            SweptPart(qs, sw, todo - {k}) == if p == [] then left else left[k := p]
  {
  }

  lemma VisitedNext(order: seq<Key>, qs: Queues, todo: set<Key>, k: Key)
    requires VisitedPart(order, qs, todo) && k in todo && k in qs
    ensures VisitedPart(order + [k], qs, todo - {k})
  {
    var more := order + [k];
    forall i, j | 0 <= i < j < |more| ensures more[i] != more[j] {
      assert more[i] == order[i] && order[i] in order;
    }
  }

  lemma PartStart(qs: Queues, sw: Sweeping)
    ensures VisitedPart([], qs, qs.Keys) && SweptPart(qs, sw, qs.Keys) == map[] && FreedAll(qs, sw, []) == []
  {
  }

  lemma PartEnd(order: seq<Key>, qs: Queues, sw: Sweeping)
    requires VisitedPart(order, qs, {})
    ensures Visits(order, qs) && SweptPart(qs, sw, {}) == SweepAll(qs, sw)
  {
  }

  /** Sweep every queue, visiting them in any order. */
  method SweepMap(qs: Queues, sw: Sweeping) returns (left: Queues, freed: seq<Out>, ghost order: seq<Key>)
    ensures Visits(order, qs) && left == SweepAll(qs, sw) && freed == FreedAll(qs, sw, order)
  {
    var todo := qs.Keys;
    left, freed, order := map[], [], [];
    PartStart(qs, sw);
    while todo != {}
      invariant todo <= qs.Keys && VisitedPart(order, qs, todo)
      invariant left == SweptPart(qs, sw, todo)
      invariant freed == FreedAll(qs, sw, order)
      decreases |todo|
    {
      var k :| k in todo;
      var p, more := SweepOne(qs[k], CutOf(sw, k));
      FreedSnoc(qs, sw, order, k);
      SweptNext(qs, sw, todo, k);
      VisitedNext(order, qs, todo, k);
      if p != [] {
        left := left[k := p];
      }
      todo, freed, order := todo - {k}, freed + more, order + [k];
    }
    PartEnd(order, qs, sw);
  }

  lemma {:induction false} FreedSnoc(qs: Queues, sw: Sweeping, order: seq<Key>, k: Key)
    requires k in qs
    ensures FreedAll(qs, sw, order + [k]) == FreedAll(qs, sw, order) + SweepFreed(qs[k], CutOf(sw, k))
  {
    var freed := SweepFreed(qs[k], CutOf(sw, k));
    if order == [] {
      FreedCons(qs, sw, k, []);
      assert [] + [k] == [k] + [];
    } else {
      var rest := order[1..];
      FreedSnoc(qs, sw, rest, k);
      FreedCons(qs, sw, order[0], rest);
      FreedCons(qs, sw, order[0], rest + [k]);
      assert order == [order[0]] + rest && order + [k] == [order[0]] + (rest + [k]);
    }
  }

  lemma FreedCons(qs: Queues, sw: Sweeping, k: Key, rest: seq<Key>)
    ensures FreedAll(qs, sw, [k] + rest)
         == (if k in qs then SweepFreed(qs[k], CutOf(sw, k)) else []) + FreedAll(qs, sw, rest)
  {
    assert ([k] + rest)[1..] == rest;
  }

  method TrimRequests(m: map<string, Request>, cut: Cut) returns (left: map<string, Request>)
    ensures left == TrimMap(m, cut)
  {
    var todo := m.Keys;
    left := map[];
    while todo != {}
      invariant todo <= m.Keys
      invariant forall k :: k in left <==> k in m && k !in todo && Trim(cut, m[k]).Some?
      invariant forall k :: k in left ==> left[k] == Trim(cut, m[k]).value
      decreases |todo|
    {
      var k :| k in todo;
      var r := TrimOne(m[k], cut);
      if r.Some? {
        left := left[k := r.value];
      }
      todo := todo - {k};
    }
  }

  method SweepRoutes(m: map<string, Sticky>, sw: Sweeping) returns (left: map<string, Sticky>)
    ensures left == SweepSticky(m, sw)
  {
    var todo := m.Keys;
    left := map[];
    while todo != {}
      invariant todo <= m.Keys
      invariant forall k :: k in left <==> k in SweepSticky(m, sw) && k !in todo
      invariant forall k :: k in left ==> left[k] == SweepSticky(m, sw)[k]
      decreases |todo|
    {
      var k :| k in todo;
      todo := todo - {k};
      match sw {
        case Aging(now) =>
          if now - m[k].created <= REQUEST_TTL {
            left := left[k := m[k]];
          }
        case Leaving(c) =>
          var kept := RemoveFrom(m[k].dests, c);
          if kept != [] {
            left := left[k := m[k].(dests := kept)];
          }
      }
    }
  }

  // ---------------------------------------------------------------- the tracker

  class RequestTracker {
    var queues: Queues
    var labeled: map<string, Request>
    var whox: map<string, Request>
    var sticky: map<string, Sticky>
    var ready: seq<Out>
    var nextLabel: nat
    var nextToken: nat
    var quirky: bool
    var nextId: nat
    ghost var registered: map<nat, Line>
    ghost var sent: seq<Out>
    ghost var discarded: set<nat>

    /** The state the theorems are about. */
    ghost function Value(): State
      reads this
    {
      State(queues, labeled, whox, sticky, ready, nextLabel, nextToken, quirky,
            Ledger(nextId, registered, sent, discarded))
    }

    constructor ()
      ensures Value() == EMPTY
    {
      queues, labeled, whox, sticky, ready := map[], map[], map[], map[], [];
      nextLabel, nextToken, quirky, nextId := 0, 0, false, 0;
      registered, sent, discarded := map[], [], {};
    }

    /** DropClient and expireLocked. */
    method SweepWith(sw: Sweeping) returns (ghost order: seq<Key>)
      modifies this
      ensures Visits(order, old(queues)) && Value() == SweepState(old(Value()), sw, order)
    {
      order := SweepQueues(sw);
      var cut := MapCut(sw);
      labeled := TrimRequests(labeled, cut);
      whox := TrimRequests(whox, cut);
      sticky := SweepRoutes(sticky, sw);
    }

    method SweepQueues(sw: Sweeping) returns (ghost order: seq<Key>)
      modifies this`queues, this`ready, this`discarded
      ensures Visits(order, old(queues))
      ensures Value() == Requeue(old(Value()), SweepAll(old(queues), sw), FreedAll(old(queues), sw, order))
    {
      var left, freed, visited := SweepMap(queues, sw);
      order := visited;
      discarded := discarded + (Held(queues) - Present(left));
      queues, ready := left, ready + freed;
    }

    method Drop(c: ClientId) returns (ghost order: seq<Key>)
      modifies this
      ensures Valid(old(Value()), Action.Drop(c, order)) && Value() == Step(old(Value()), Action.Drop(c, order))
    {
      order := SweepWith(Leaving(c));
    }

    /** popWaiters and popSerial: the head is answered, the next one may go out. */
    method PopQueue(k: Key)
      requires k in queues
      modifies this
      ensures Value() == Requeue(old(Value()), PopAt(old(queues), k), PopFreed(old(queues)[k]))
    {
      var q := queues[k];
      var left := Remove(queues, k);
      if |q| > 1 {
        var p, freed := Release(q[1..]);
        left := queues[k := p];
        ready := ready + freed;
      }
      assert left == PopAt(queues, k);
      discarded := discarded + (Held(queues) - Present(left));
      queues := left;
      assert ready == old(ready) + PopFreed(q);
    }

    method TakeReady() returns (out: seq<Out>)
      modifies this
      ensures out == old(ready) && Value() == Step(old(Value()), Action.TakeReady)
    {
      out := ready;
      sent := sent + ready;
      ready := [];
    }

    /** Append a request, and say what to write for it now. */
    method Append(k: Key, r: Request) returns (lines: seq<Out>)
      modifies this
      ensures Value() == Enqueue(old(Value()), k, r) && sent == old(sent) + lines
    {
      queues := queues[k := QueueAt(queues, k) + [r]];
      lines := Note(r, !r.hold);
    }

    /** Count a request and record its line. */
    method Note(r: Request, written: bool) returns (lines: seq<Out>)
      modifies this`nextId, this`registered, this`sent
      ensures Value() == old(Value()).(ledger := Register(old(Value()).ledger, r, written)) && sent == old(sent) + lines
    {
      nextId := nextId + 1;
      lines := [];
      if !Blank(r.outbound) {
        registered := registered[r.id := r.outbound];
        if written {
          lines := [Out(r.id, r.outbound)];
          sent := sent + lines;
        }
      }
    }

    /** The keyed enquiries: share the first request of the same remote form, else queue up. */
    method AskByRemote(k: Key, r: Request) returns (lines: seq<Out>)
      modifies this
      ensures Value() == BeginByRemote(old(Value()), k, r) && sent == old(sent) + lines
    {
      var q := QueueAt(queues, k);
      if q == [] {
        lines := Append(k, r.(hold := false));
        return;
      }
      var i := FindRemote(q, r.remote);
      if i.None? {
        lines := Append(k, r.(hold := true));
      } else {
        var p := Share(q[i.value], r.owner);
        queues := queues[k := q[i.value := p]];
        lines := [];
      }
    }

    method AskNick(o: Opts, target: WhoisTarget, now: int) returns (lines: seq<Out>)
      modifies this
      ensures Value() == BeginNick(old(Value()), o, target, now) && sent == old(sent) + lines
    {
      lines := [];
      if target.wire != "" {
        lines := AskByRemote(Whois(target.nick), WhoisRequest(o, nextId, target, now));
      }
    }

    /** One line per nick; the ones already asked about are shared. */
    method AskWhois(o: Opts, now: int) returns (lines: seq<Out>)
      modifies this
      ensures Value() == BeginWhois(old(Value()), o, o.whoisTargets, now) && sent == old(sent) + lines
    {
      lines := [];
      var ts := o.whoisTargets;
      ghost var t := Value();
      ghost var all := BeginWhois(t, o, ts, now);
      assert ts[0..] == ts;
      for i := 0 to |ts|
        invariant Value() == t && BeginWhois(t, o, ts[i..], now) == all
        invariant sent == old(sent) + lines
      {
        WhoisNext(t, o, ts, i, now);
        t := BeginNick(t, o, ts[i], now);
        var more := AskNick(o, ts[i], now);
        JoinLines(old(sent), lines, more);
        lines := lines + more;
      }
    }

    /** MODE: one exchange per target and letters. */
    method AskMode(o: Opts, now: int) returns (lines: seq<Out>)
      modifies this
      ensures Value() == BeginMode(old(Value()), o, now) && sent == old(sent) + lines
    {
      var letters := ModeLetters.Normalize(o.modeLetters);
      var k := Mode(o.enquiryTarget, letters);
      var q := QueueAt(queues, k);
      if q != [] {
        var p := Share(q[0], WaiterOf(o));
        queues := queues[k := q[0 := p]];
        return [];
      }
      lines := Append(k, RequestOf(o, nextId, o.enquiryTarget, false, now));
    }

    /** The per-kind queues: held behind what may still be answered. */
    method AskSerial(o: Opts, now: int) returns (lines: seq<Out>)
      modifies this
      ensures Value() == BeginSerial(old(Value()), o, now) && sent == old(sent) + lines
    {
      var q := QueueAt(queues, Serial(o.cmd));
      var other := OtherRemote(q, o.remote);
      var hold := |q| > 0 && (HoldWrite(o.cmd) || (TakesServerTarget(o.cmd) && other));
      lines := Append(Serial(o.cmd), RequestOf(o, nextId, o.enquiryTarget, hold, now));
    }

    method AskQueued(o: Opts, now: int) returns (lines: seq<Out>)
      modifies this
      ensures Value() == BeginQueued(old(Value()), o, now) && sent == old(sent) + lines
    {
      if o.cmd == "STATS" && o.statsLetter != "" {
        lines := AskByRemote(Stats(o.statsLetter), RequestOf(o, nextId, o.statsLetter, false, now));
      } else if o.cmd == "TOPIC" && o.enquiryTarget != "" {
        lines := Append(Topic(o.enquiryTarget), RequestOf(o, nextId, o.enquiryTarget, false, now));
      } else if o.cmd == "MODE" && o.enquiryTarget != "" {
        lines := AskMode(o, now);
      } else if o.cmd == "NAMES" && o.enquiryTarget != "" {
        lines := AskByRemote(Names(o.enquiryTarget), RequestOf(o, nextId, o.enquiryTarget, false, now));
      } else {
        lines := AskSerial(o, now);
      }
    }

    /** formatID("L", n). */
    method LabelFor(n: nat) returns (tag: string)
      ensures tag == "L" + FormatBase36(n) && tag != ""
    {
      tag := "L" + FormatBase36(n);
    }

    method AskLabeled(o: Opts, now: int) returns (tag: string, lines: seq<Out>)
      modifies this
      ensures Value() == BeginLabeled(old(Value()), o, now) && sent == old(sent) + lines
      ensures tag != "" && tag in labeled && labeled[tag].id == old(nextId)
    {
      tag := LabelFor(nextLabel + 1);
      nextLabel := nextLabel + 1;
      var r := RequestOf(o, nextId, o.enquiryTarget, false, now);
      labeled := labeled[tag := r];
      lines := Note(r, true);
    }

    /** findMatchingWHOX: the first match the range meets. */
    method FindWhox(o: Opts) returns (pick: Option<string>)
      ensures PickOk(Value(), o, pick)
    {
      var todo := whox.Keys;
      while todo != {}
        invariant todo <= whox.Keys
        invariant forall tok :: tok in whox && tok !in todo ==> !MatchesWhox(whox[tok], o)
        decreases |todo|
      {
        var tok :| tok in todo;
        if MatchesWhox(whox[tok], o) {
          return Some(tok);
        }
        todo := todo - {tok};
      }
      return None;
    }

    method AskWhox(o: Opts, now: int) returns (token: string, lines: seq<Out>, ghost pick: Option<string>)
      modifies this
      ensures PickOk(old(Value()), o, pick)
      ensures if pick.Some? then token == "" else token in whox && whox[token].id == old(nextId)
      ensures Value() == BeginWhox(old(Value()), o, now, pick) && sent == old(sent) + lines
    {
      var found := FindWhox(o);
      pick := found;
      if found.Some? {
        var p := Share(whox[found.value], WaiterOf(o));
        whox := whox[found.value := p];
        token, lines := "", [];
      } else {
        nextToken := nextToken + 1;
        if nextToken > 999 {
          nextToken := 1;
        }
        var r := RequestOf(o, nextId, o.whoMask, false, now);
        token := FormatDecimal(nextToken);
        whox := whox[token := r];
        lines := Note(r, true);
      }
    }

    /** The destinations of the exchange found, one per waiter. */
    method Recipients(e: Effect) returns (dests: seq<Waiter>)
      requires EffectOk(Value(), e)
      ensures dests == Dests(Value(), e)
    {
      match e {
        case ToLabel(tag) => return DestsOf(labeled[tag]);
        case ToSticky(target) => return sticky[target].dests;
        case ToModes(keys) =>
          dests := [];
          for i := 0 to |keys|
            invariant HeadDests(queues, keys) == dests + HeadDests(queues, keys[i..])
          {
            HeadDestsNext(dests, queues, keys, i);
            dests := dests + DestsOf(queues[keys[i]][0]);
          }
        case ToQueue(k, _) => return DestsOf(queues[k][0]);
        case ToWhox(token, _) => return DestsOf(whox[token]);
        case ToNobody => return [];
      }
    }

    /** A labelled exchange ends on its own end numeric, leaving the follow-up of a MODE 324. */
    method EndLabel(tag: string, n: Numeric, now: int)
      requires tag in labeled
      modifies this`labeled, this`sticky
      ensures Value() == Deliver(old(Value()), n, ToLabel(tag), now)
    {
      var r := labeled[tag];
      if n.command in r.ends {
        var target := if r.target != "" then r.target else if |n.folded| > 1 then n.folded[1] else "";
        sticky := StickyFor(sticky, r, target, n.command, now);
        labeled := Remove(labeled, tag);
      }
    }

    /** An error for a MODE target ends every exchange it was for. */
    method EndModes(keys: seq<Key>, n: Numeric, now: int)
      requires EffectOk(Value(), ToModes(keys))
      modifies this
      ensures Value() == Deliver(old(Value()), n, ToModes(keys), now)
    {
      var left := map k | k in queues && k !in keys :: queues[k];
      discarded := discarded + (Held(queues) - Present(left));
      queues := left;
      assert ready + [] == ready;
    }

    method EndQueue(k: Key, n: Numeric, now: int)
      requires EffectOk(Value(), ToQueue(k, true))
      modifies this
      ensures Value() == Deliver(old(Value()), n, ToQueue(k, true), now)
    {
      var r := queues[k][0];
      PopQueue(k);
      if k.Mode? {
        sticky := StickyFor(sticky, r, k.target, n.command, now);
      }
    }

    /** What a routed numeric does to its exchange. */
    method Conclude(n: Numeric, e: Effect, now: int)
      requires EffectOk(Value(), e)
      modifies this
      ensures Value() == Deliver(old(Value()), n, e, now)
    {
      match e {
        case ToLabel(tag) => EndLabel(tag, n, now);
        case ToSticky(target) => sticky := Remove(sticky, target);
        case ToModes(keys) => EndModes(keys, n, now);
        case ToQueue(k, ends) =>
          if ends {
            EndQueue(k, n, now);
          }
        case ToWhox(token, ends) =>
          if ends {
            whox := Remove(whox, token);
          }
        case ToNobody =>
      }
    }

    /** RouteAll: expire, find the exchange, and say who gets the numeric. */
    method Route(n: Numeric, now: int) returns (dests: seq<Waiter>, ghost order: seq<Key>, ghost effect: Effect)
      modifies this
      ensures Visits(order, old(queues))
      ensures var swept := SweepState(old(Value()), Aging(now), order);
              Selects(swept, n, effect) && EffectOk(swept, effect)
              && dests == Dests(swept, effect) && Value() == Deliver(swept, n, effect, now)
    {
      order := SweepWith(Aging(now));
      var e := Choose(queues, labeled, whox, sticky, quirky, n, Value());
      effect := e;
      SelectsIsOk(Value(), n, e);
      dests := Recipients(e);
      Conclude(n, e, now);
    }

    /** Begin: expire, then enter the request. `tag` and `token` name a new labelled or WHOX request on
        the wire and are empty otherwise; `lines` is what the caller writes now. */
    method Begin(o: Opts, now: int)
        returns (tag: string, token: string, lines: seq<Out>, ghost order: seq<Key>, ghost pick: Option<string>)
      modifies this
      ensures Valid(old(Value()), Action.Begin(o, now, order, pick))
      ensures Value() == Step(old(Value()), Action.Begin(o, now, order, pick)) && sent == old(sent) + lines
      ensures tag != "" ==> tag in labeled && labeled[tag].id == old(nextId)
      ensures token != "" ==> token in whox && whox[token].id == old(nextId)
      ensures o.preferLabel ==> tag != ""
      ensures TrackerAsks.LabelsOk(old(Value())) ==>
        TrackerAsks.Served(SweepState(old(Value()), Aging(now), order), Value(), o, now)
        && TrackerAsks.LabelsOk(Value())
    {
      ghost var before := Value();
      order := SweepWith(Aging(now));
      ghost var swept := Value();
      pick := AnyPick(swept, o);
      tag, token := "", "";
      if o.preferLabel {
        tag, lines := AskLabeled(o, now);
      } else if o.preferWhox && (o.cmd == "WHO" || o.cmd == "WHOX") {
        token, lines, pick := AskWhox(o, now);
      } else if o.cmd == "WHOIS" && o.whoisTargets != [] {
        lines := AskWhois(o, now);
      } else {
        lines := AskQueued(o, now);
      }
      BeginServed(before, o, now, order, pick);
    }
  }

  lemma BeginServed(t: State, o: Opts, now: int, order: seq<Key>, pick: Option<string>)
    requires Valid(t, Begin(o, now, order, pick))
    ensures TrackerAsks.LabelsOk(t) ==>
      TrackerAsks.Served(SweepState(t, Aging(now), order), Step(t, Begin(o, now, order, pick)), o, now)
      && TrackerAsks.LabelsOk(Step(t, Begin(o, now, order, pick)))
  {
    if TrackerAsks.LabelsOk(t) {
      TrackerAsks.SweepLabels(t, Aging(now), order);
      TrackerAsks.BodyServes(SweepState(t, Aging(now), order), o, now, pick);
      TrackerAsks.StepLabels(t, Begin(o, now, order, pick));
    }
  }

  lemma HeadDestsNext(dests: seq<Waiter>, qs: Queues, keys: seq<Key>, i: nat)
    requires i < |keys| && keys[i] in qs && qs[keys[i]] != []
    ensures dests + HeadDests(qs, keys[i..]) == dests + DestsOf(qs[keys[i]][0]) + HeadDests(qs, keys[i + 1..])
  {
    assert keys[i..][1..] == keys[i + 1..];
  }

  /** Some WHOX pick is always possible. */
  ghost function AnyPick(t: State, o: Opts): (pick: Option<string>)
    ensures PickOk(t, o, pick)
  {
    if exists tok :: tok in t.whox && MatchesWhox(t.whox[tok], o) then
      var tok :| tok in t.whox && MatchesWhox(t.whox[tok], o); Some(tok)
    else None
  }

  lemma JoinLines(a: seq<Out>, b: seq<Out>, c: seq<Out>)
    ensures a + b + c == a + (b + c)
  {
  }

  lemma WhoisNext(t: State, o: Opts, ts: seq<WhoisTarget>, i: nat, now: int)
    requires i < |ts|
    ensures BeginWhois(t, o, ts[i..], now) == BeginWhois(BeginNick(t, o, ts[i], now), o, ts[i + 1..], now)
  {
    assert ts[i..][0] == ts[i] && ts[i..][1..] == ts[i + 1..];
  }

  /** findRemoteMatch. */
  method FindRemote(q: seq<Request>, remote: string) returns (i: Option<nat>)
    ensures i == FirstRemote(q, remote) && (i.Some? ==> i.value < |q|)
  {
    FirstRemoteFound(q, remote);
    for n := 0 to |q|
      invariant forall j :: 0 <= j < n ==> q[j].remote != remote
    {
      if q[n].remote == remote {
        return Some(n);
      }
    }
    return None;
  }

  /** FirstRemote is the least match. */
  lemma {:induction false} FirstRemoteFound(q: seq<Request>, remote: string)
    ensures var i := FirstRemote(q, remote);
            && (i.Some? ==> i.value < |q| && q[i.value].remote == remote
                            && forall j :: 0 <= j < i.value ==> q[j].remote != remote)
            && (i.None? ==> forall j :: 0 <= j < |q| ==> q[j].remote != remote)
  {
    if q != [] && q[0].remote != remote {
      FirstRemoteFound(q[1..], remote);
      assert forall j :: 0 < j < |q| ==> q[j] == q[1..][j - 1];
    }
  }

  /** serialHasOtherRemote. */
  method OtherRemote(q: seq<Request>, remote: string) returns (found: bool)
    ensures found == HasOtherRemote(q, remote)
  {
    for i := 0 to |q|
      invariant forall j :: 0 <= j < i ==> q[j].remote == remote
    {
      if q[i].remote != remote {
        return true;
      }
    }
    return false;
  }
}

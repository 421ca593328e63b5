/** Conservation of uplink lines in the request tracker: every line a request asked for is
    written once, still held, or was discarded while held (internal/session/tracker.go). */
module TrackerLedger {
  import opened Common
  import opened TrackerQueue
  import opened Tracker

  ghost predicate At(qs: Queues, k: Key, r: Request) {
    k in qs && r in qs[k]
  }

  /** No request sits in two places. */
  ghost predicate Unique(qs: Queues) {
    && (forall k :: k in qs ==> UniqueIds(qs[k]))
    && (forall k, r, k', r' :: At(qs, k, r) && At(qs, k', r') && r.id == r'.id ==> k == k')
  }

  lemma UniqueAt(qs: Queues, k: Key, r: Request, k': Key, r': Request)
    requires Unique(qs) && At(qs, k, r) && At(qs, k', r') && r.id == r'.id
    ensures k == k' && r == r'
  {
    var i :| 0 <= i < |qs[k]| && qs[k][i] == r;
    var j :| 0 <= j < |qs[k']| && qs[k'][j] == r';
  }

  ghost function OutIds(os: seq<Out>): set<nat> {
    set o | o in os :: o.id
  }

  ghost predicate UniqueOuts(os: seq<Out>) {
    forall i, j :: 0 <= i < j < |os| ==> os[i].id != os[j].id
  }

  /** Everything handed to the uplink so far or ready to be. */
  function Written(t: State): seq<Out> {
    t.ledger.sent + t.ready
  }

  ghost predicate QueuesBooked(qs: Queues, l: Ledger) {
    forall k, r :: At(qs, k, r) ==>
      r.id < l.nextId && (!Blank(r.outbound) ==> r.id in l.registered && l.registered[r.id] == r.outbound)
  }

  /** Each written line is the registered line of its request, and no request is written twice. */
  ghost predicate OutsBooked(os: seq<Out>, l: Ledger) {
    && UniqueOuts(os)
    && (forall o :: o in os ==> o.id in l.registered && l.registered[o.id] == o.line)
  }

  /** Written, held and discarded partition what was registered. */
  ghost predicate Balanced(qs: Queues, os: seq<Out>, l: Ledger) {
    && l.registered.Keys == OutIds(os) + Held(qs) + l.discarded
    && OutIds(os) !! Held(qs) && OutIds(os) !! l.discarded && Present(qs) !! l.discarded
    && (forall id :: id in l.registered ==> id < l.nextId)
  }

  ghost predicate LedgerOk(t: State) {
    && Unique(t.queues)
    && QueuesBooked(t.queues, t.ledger)
    && OutsBooked(Written(t), t.ledger)
    && Balanced(t.queues, Written(t), t.ledger)
  }

  // ---------------------------------------------------------------- queue moves

  /** `qs'` came from `qs` by removing requests and releasing held ones; `freed` lists exactly
      the released lines. */
  ghost predicate Moves(qs: Queues, qs': Queues, freed: seq<Out>) {
    && Unique(qs')
    && (forall k, p :: At(qs', k, p) ==> exists r :: At(qs, k, r) && Became(r, p))
    && UniqueOuts(freed)
    && (forall o :: o in freed ==> exists k, r, p :: ReleasedAs(qs, qs', k, r, p, o))
    && (forall k, r, p :: At(qs, k, r) && At(qs', k, p) && r.id == p.id && r.hold && !p.hold && !Blank(r.outbound)
          ==> Out(r.id, r.outbound) in freed)
  }

  predicate Became(r: Request, p: Request) {
    r.id == p.id && r.outbound == p.outbound && (p.hold ==> r.hold)
  }

  ghost predicate ReleasedAs(qs: Queues, qs': Queues, k: Key, r: Request, p: Request, o: Out) {
    && At(qs, k, r) && At(qs', k, p) && r.id == p.id == o.id && r.outbound == o.line
    && r.hold && !p.hold && !Blank(o.line)
  }

  lemma HeldIn(qs: Queues, id: nat)
    ensures id in Held(qs) <==> exists k, r :: At(qs, k, r) && r.id == id && r.hold && !Blank(r.outbound)
  {
    if id in Held(qs) {
      var k, r :| k in qs && r in qs[k] && r.hold && !Blank(r.outbound) && r.id == id;
      assert At(qs, k, r);
    }
  }

  lemma PresentIn(qs: Queues, id: nat)
    ensures id in Present(qs) <==> exists k, r :: At(qs, k, r) && r.id == id
  {
    if id in Present(qs) {
      var k, r :| k in qs && r in qs[k] && r.id == id;
      assert At(qs, k, r);
    }
  }

  lemma OutIn(os: seq<Out>, id: nat)
    ensures id in OutIds(os) <==> exists o :: o in os && o.id == id
  {
  }

  lemma HeldPresent(qs: Queues)
    ensures Held(qs) <= Present(qs)
  {
  }

  /** A released line was held before and is no longer. */
  lemma FreedWasHeld(qs: Queues, qs': Queues, freed: seq<Out>, o: Out)
    requires Moves(qs, qs', freed) && Unique(qs) && o in freed
    ensures o.id in Held(qs) && o.id !in Held(qs') && o.id in Present(qs')
  {
    var k, r, p :| ReleasedAs(qs, qs', k, r, p, o);
    HeldIn(qs, o.id);
    PresentIn(qs', o.id);
    if o.id in Held(qs') {
      HeldIn(qs', o.id);
      var k', p' :| At(qs', k', p') && p'.id == o.id && p'.hold && !Blank(p'.outbound);
      UniqueAt(qs', k, p, k', p');
    }
  }

  /** A held request either stays held, is released, or is gone. */
  lemma HeldGoesWhere(qs: Queues, qs': Queues, freed: seq<Out>, id: nat)
    requires Moves(qs, qs', freed) && Unique(qs) && id in Held(qs) && id in Present(qs')
    ensures id in Held(qs') || id in OutIds(freed)
  {
    HeldIn(qs, id);
    PresentIn(qs', id);
    var k, r :| At(qs, k, r) && r.id == id && r.hold && !Blank(r.outbound);
    var k', p :| At(qs', k', p) && p.id == id;
    var r' :| At(qs, k', r') && Became(r', p);
    UniqueAt(qs, k, r, k', r');
    if p.hold {
      HeldIn(qs', id);
    } else {
      assert Out(r.id, r.outbound) in freed;
      OutIn(freed, id);
    }
  }

  lemma StillWas(qs: Queues, qs': Queues, freed: seq<Out>)
    requires Moves(qs, qs', freed)
    ensures Held(qs') <= Held(qs) && Present(qs') <= Present(qs)
  {
    forall id | id in Held(qs') ensures id in Held(qs) {
      HeldIn(qs', id);
      HeldIn(qs, id);
      var k, p :| At(qs', k, p) && p.id == id && p.hold && !Blank(p.outbound);
      var r :| At(qs, k, r) && Became(r, p);
    }
    forall id | id in Present(qs') ensures id in Present(qs) {
      PresentIn(qs', id);
      PresentIn(qs, id);
      var k, p :| At(qs', k, p) && p.id == id;
      var r :| At(qs, k, r) && Became(r, p);
    }
  }

  lemma OutIdsAppend(a: seq<Out>, b: seq<Out>)
    ensures OutIds(a + b) == OutIds(a) + OutIds(b)
  {
    forall id ensures id in OutIds(a + b) <==> id in OutIds(a) + OutIds(b) {
      if id in OutIds(a) {
        var o :| o in a && o.id == id;
        assert o in a + b;
      }
      if id in OutIds(b) {
        var o :| o in b && o.id == id;
        assert o in a + b;
      }
    }
  }

  lemma UniqueAppend(a: seq<Out>, b: seq<Out>)
    requires UniqueOuts(a) && UniqueOuts(b) && OutIds(a) !! OutIds(b)
    ensures UniqueOuts(a + b)
  {
    forall i, j | 0 <= i < j < |a + b| ensures (a + b)[i].id != (a + b)[j].id {
      if i < |a| <= j {
        assert a[i] in a && b[j - |a|] in b;
        assert a[i].id in OutIds(a) && b[j - |a|].id in OutIds(b);
      }
    }
  }

  /** Conservation through a queue move. */
  lemma MoveBalances(qs: Queues, qs': Queues, freed: seq<Out>, os: seq<Out>, l: Ledger)
    requires Unique(qs) && Moves(qs, qs', freed) && Balanced(qs, os, l)
    ensures Balanced(qs', os + freed, l.(discarded := l.discarded + (Held(qs) - Present(qs'))))
  {
    StillWas(qs, qs', freed);
    HeldPresent(qs);
    OutIdsAppend(os, freed);
    forall id | id in OutIds(freed)
      ensures id in Held(qs) && id !in Held(qs') && id in Present(qs')
    {
      OutIn(freed, id);
      var o :| o in freed && o.id == id;
      FreedWasHeld(qs, qs', freed, o);
    }
    forall id | id in Held(qs) && id in Present(qs') ensures id in Held(qs') || id in OutIds(freed) {
      HeldGoesWhere(qs, qs', freed, id);
    }
    assert OutIds(freed) <= Held(qs);
    assert Held(qs) <= Held(qs') + OutIds(freed) + (Held(qs) - Present(qs'));
  }

  lemma MoveBooksOuts(qs: Queues, qs': Queues, freed: seq<Out>, os: seq<Out>, l: Ledger)
    requires Unique(qs) && Moves(qs, qs', freed) && QueuesBooked(qs, l) && OutsBooked(os, l) && OutIds(os) !! Held(qs)
    ensures OutsBooked(os + freed, l)
  {
    forall o | o in freed ensures o.id in l.registered && l.registered[o.id] == o.line && o.id in Held(qs) {
      FreedWasHeld(qs, qs', freed, o);
      var k, r, p :| ReleasedAs(qs, qs', k, r, p, o);
    }
    assert OutIds(os) !! OutIds(freed);
    UniqueAppend(os, freed);
  }

  lemma MoveBooksQueues(qs: Queues, qs': Queues, freed: seq<Out>, l: Ledger, l': Ledger)
    requires Moves(qs, qs', freed) && QueuesBooked(qs, l)
    requires l'.nextId == l.nextId && l'.registered == l.registered
    ensures QueuesBooked(qs', l')
  {
    forall k, p | At(qs', k, p)
      ensures p.id < l'.nextId && (!Blank(p.outbound) ==> p.id in l'.registered && l'.registered[p.id] == p.outbound)
    {
      var r :| At(qs, k, r) && Became(r, p);
    }
  }

  lemma RequeueLedger(t: State, qs': Queues, freed: seq<Out>)
    requires LedgerOk(t) && Moves(t.queues, qs', freed)
    ensures LedgerOk(Requeue(t, qs', freed))
  {
    var u := Requeue(t, qs', freed);
    assert Written(u) == Written(t) + freed;
    MoveBalances(t.queues, qs', freed, Written(t), t.ledger);
    MoveBooksOuts(t.queues, qs', freed, Written(t), t.ledger);
    MoveBooksQueues(t.queues, qs', freed, t.ledger, u.ledger);
  }

  // ---------------------------------------------------------------- moves of one queue

  predicate Rel(r: Request, p: Request, o: Out) {
    r.id == p.id == o.id && r.outbound == o.line && r.hold && !p.hold && !Blank(o.line)
  }

  ghost predicate QueueMoves(q: seq<Request>, q': seq<Request>, freed: seq<Out>) {
    && UniqueIds(q') && |freed| <= 1
    && (forall p :: p in q' ==> exists r :: r in q && Became(r, p))
    && (forall o :: o in freed ==> exists r, p :: r in q && p in q' && Rel(r, p, o))
    && (forall r, p :: r in q && p in q' && r.id == p.id && r.hold && !p.hold && !Blank(r.outbound)
          ==> Out(r.id, r.outbound) in freed)
  }

  lemma SameId(q: seq<Request>, r: Request, r': Request)
    requires UniqueIds(q) && r in q && r' in q && r.id == r'.id
    ensures r == r'
  {
    var i :| 0 <= i < |q| && q[i] == r;
    var j :| 0 <= j < |q| && q[j] == r';
  }

  /** A queue of unchanged lines, possibly fewer, moves without freeing anything. */
  lemma KeptMoves(q: seq<Request>, q': seq<Request>)
    requires UniqueIds(q) && UniqueIds(q')
    requires forall p :: p in q' ==> exists r :: r in q && SameLine(r, p)
    ensures QueueMoves(q, q', [])
  {
    forall p | p in q' ensures exists r :: r in q && Became(r, p) {
      var r :| r in q && SameLine(r, p);
      assert Became(r, p);
    }
    forall r, p | r in q && p in q' && r.id == p.id ensures r.hold == p.hold {
      var r' :| r' in q && SameLine(r', p);
      SameId(q, r, r');
    }
  }

  /** Releasing the head of such a queue frees exactly its line. */
  lemma ReleaseMoves(q: seq<Request>, q': seq<Request>)
    requires UniqueIds(q) && UniqueIds(q') && q' != []
    requires forall p :: p in q' ==> exists r :: r in q && SameLine(r, p)
    ensures QueueMoves(q, ReleaseHead(q'), Freed(q'[0]))
  {
    var out := ReleaseHead(q');
    assert forall i :: 0 <= i < |out| ==> out[i].id == q'[i].id;
    forall p | p in out ensures exists r :: r in q && Became(r, p) {
      var i :| 0 <= i < |out| && out[i] == p;
      assert q'[i] in q';
      var r :| r in q && SameLine(r, q'[i]);
      assert Became(r, p);
    }
    assert q'[0] in q';
    var h :| h in q && SameLine(h, q'[0]);
    assert out[0] in out;
    forall o | o in Freed(q'[0]) ensures exists r, p :: r in q && p in out && Rel(r, p, o) {
      assert Rel(h, out[0], o);
    }
    forall r, p | r in q && p in out && r.id == p.id && r.hold && !p.hold && !Blank(r.outbound)
      ensures Out(r.id, r.outbound) in Freed(q'[0])
    {
      ReleasedIsHead(q, q', r, p);
    }
  }

  lemma ReleasedIsHead(q: seq<Request>, q': seq<Request>, r: Request, p: Request)
    requires UniqueIds(q) && UniqueIds(q') && q' != []
    requires forall x :: x in q' ==> exists y :: y in q && SameLine(y, x)
    requires r in q && p in ReleaseHead(q') && r.id == p.id && r.hold && !p.hold
    ensures q'[0].id == r.id && q'[0].outbound == r.outbound && q'[0].hold
  {
    var out := ReleaseHead(q');
    var i :| 0 <= i < |out| && out[i] == p;
    assert q'[i] in q';
    var y :| y in q && SameLine(y, q'[i]);
    SameId(q, r, y);
  }

  lemma SweepKeepsLines(q: seq<Request>, cut: Cut)
    ensures forall p :: p in Sweep(q, cut) ==> exists r :: r in q && SameLine(r, p)
  {
    forall p | p in Sweep(q, cut) ensures exists r :: r in q && SameLine(r, p) {
      SweepOrigin(q, cut, p);
      var r :| r in q && Trim(cut, r) == Some(p);
      TrimKeepsLine(cut, r);
    }
  }

  lemma SweepQueueMoves(q: seq<Request>, cut: Cut)
    requires UniqueIds(q)
    ensures QueueMoves(q, SweepQueue(q, cut), SweepFreed(q, cut))
  {
    SweepUnique(q, cut);
    SweepKeepsLines(q, cut);
    if DropsHead(q, cut) {
      ReleaseMoves(q, Sweep(q, cut));
    } else {
      KeptMoves(q, Sweep(q, cut));
    }
  }

  lemma PopMoves(q: seq<Request>)
    requires UniqueIds(q)
    ensures QueueMoves(q, Pop(q), PopFreed(q))
  {
    if |q| > 1 {
      forall p | p in q[1..] ensures exists r :: r in q && SameLine(r, p) {
        assert p in q && SameLine(p, p);
      }
      ReleaseMoves(q, q[1..]);
    } else {
      KeptMoves(q, []);
    }
  }

  lemma CoalesceMoves(q: seq<Request>, i: nat, w: Waiter)
    requires UniqueIds(q) && i < |q|
    ensures QueueMoves(q, q[i := Coalesce(q[i], w)], [])
  {
    var q' := q[i := Coalesce(q[i], w)];
    forall p | p in q' ensures exists r :: r in q && SameLine(r, p) {
      var j :| 0 <= j < |q'| && q'[j] == p;
      assert q[j] in q && SameLine(q[j], p);
    }
    KeptMoves(q, q');
  }

  // ---------------------------------------------------------------- lifting to all queues

  function SetQueue(qs: Queues, k: Key, q: seq<Request>): Queues {
    if q == [] then Remove(qs, k) else qs[k := q]
  }

  lemma LiftUnique(qs: Queues, qs': Queues)
    requires Unique(qs)
    requires forall k :: k in qs' ==> UniqueIds(qs'[k])
    requires forall k, p :: At(qs', k, p) ==> exists r :: At(qs, k, r) && Became(r, p)
    ensures Unique(qs')
  {
    forall k, r, k', r' | At(qs', k, r) && At(qs', k', r') && r.id == r'.id ensures k == k' {
      var a :| At(qs, k, a) && Became(a, r);
      var b :| At(qs, k', b) && Became(b, r');
    }
  }

  lemma OneMoves(qs: Queues, k: Key, q': seq<Request>, freed: seq<Out>)
    requires Unique(qs) && k in qs && QueueMoves(qs[k], q', freed)
    ensures Moves(qs, SetQueue(qs, k, q'), freed)
  {
    var qs' := SetQueue(qs, k, q');
    forall x, p | At(qs', x, p) ensures exists r :: At(qs, x, r) && Became(r, p) {
      if x == k {
        var r :| r in qs[k] && Became(r, p);
        assert At(qs, k, r);
      } else {
        assert At(qs, x, p) && Became(p, p);
      }
    }
    LiftUnique(qs, qs');
    forall o | o in freed ensures exists x, r, p :: ReleasedAs(qs, qs', x, r, p, o) {
      var r, p :| r in qs[k] && p in q' && Rel(r, p, o);
      assert ReleasedAs(qs, qs', k, r, p, o);
    }
    forall x, r, p | At(qs, x, r) && At(qs', x, p) && r.id == p.id && r.hold && !p.hold && !Blank(r.outbound)
      ensures Out(r.id, r.outbound) in freed
    {
      if x != k {
        UniqueAt(qs, x, r, x, p);
      }
    }
  }

  /** Dropping whole queues frees no line. */
  lemma DropQueuesMoves(qs: Queues, qs': Queues)
    requires Unique(qs) && forall k :: k in qs' ==> k in qs && qs'[k] == qs[k]
    ensures Moves(qs, qs', [])
  {
    forall k, p | At(qs', k, p) ensures exists r :: At(qs, k, r) && Became(r, p) {
      assert At(qs, k, p) && Became(p, p);
    }
    LiftUnique(qs, qs');
    forall k, r, p | At(qs, k, r) && At(qs', k, p) && r.id == p.id ensures r == p {
      UniqueAt(qs, k, r, k, p);
    }
  }

  lemma {:induction false} FreedAllIn(qs: Queues, sw: Sweeping, order: seq<Key>, o: Out)
    ensures o in FreedAll(qs, sw, order) <==> exists k :: k in order && k in qs && o in SweepFreed(qs[k], CutOf(sw, k))
  {
    if order != [] {
      FreedAllIn(qs, sw, order[1..], o);
      assert order == [order[0]] + order[1..];
      if exists k :: k in order[1..] && k in qs && o in SweepFreed(qs[k], CutOf(sw, k)) {
        var k :| k in order[1..] && k in qs && o in SweepFreed(qs[k], CutOf(sw, k));
        assert k in order;
      }
    }
  }

  /** A line freed while sweeping queue `k` belongs to a request of queue `k`. */
  lemma FreedIsMember(qs: Queues, sw: Sweeping, k: Key, o: Out)
    requires Unique(qs) && k in qs && o in SweepFreed(qs[k], CutOf(sw, k))
    ensures exists r :: At(qs, k, r) && r.id == o.id
  {
    SweepQueueMoves(qs[k], CutOf(sw, k));
    var r, p :| r in qs[k] && p in SweepQueue(qs[k], CutOf(sw, k)) && Rel(r, p, o);
    assert At(qs, k, r);
  }

  lemma {:induction false} FreedAllUnique(qs: Queues, sw: Sweeping, order: seq<Key>)
    requires Unique(qs) && forall i, j :: 0 <= i < j < |order| ==> order[i] != order[j]
    ensures UniqueOuts(FreedAll(qs, sw, order))
  {
    if order != [] {
      FreedAllUnique(qs, sw, order[1..]);
      var head := if order[0] in qs then SweepFreed(qs[order[0]], CutOf(sw, order[0])) else [];
      var rest := FreedAll(qs, sw, order[1..]);
      forall a, b | a in head && b in rest ensures a.id != b.id {
        FreedAllIn(qs, sw, order[1..], b);
        var k :| k in order[1..] && k in qs && b in SweepFreed(qs[k], CutOf(sw, k));
        FreedIsMember(qs, sw, k, b);
        FreedIsMember(qs, sw, order[0], a);
        var r :| At(qs, k, r) && r.id == b.id;
        var r' :| At(qs, order[0], r') && r'.id == a.id;
      }
      assert OutIds(head) !! OutIds(rest);
      UniqueAppend(head, rest);
    }
  }

  lemma SweepAllOrigin(qs: Queues, sw: Sweeping, k: Key, p: Request)
    requires Unique(qs) && At(SweepAll(qs, sw), k, p)
    ensures exists r :: At(qs, k, r) && Became(r, p)
  {
    SweepQueueMoves(qs[k], CutOf(sw, k));
    var r :| r in qs[k] && Became(r, p);
    assert At(qs, k, r);
  }

  lemma SweepAllFreed(qs: Queues, sw: Sweeping, order: seq<Key>, o: Out)
    requires Unique(qs) && o in FreedAll(qs, sw, order)
    ensures exists k, r, p :: ReleasedAs(qs, SweepAll(qs, sw), k, r, p, o)
  {
    FreedAllIn(qs, sw, order, o);
    var k :| k in order && k in qs && o in SweepFreed(qs[k], CutOf(sw, k));
    SweepQueueMoves(qs[k], CutOf(sw, k));
    var r, p :| r in qs[k] && p in SweepQueue(qs[k], CutOf(sw, k)) && Rel(r, p, o);
    assert ReleasedAs(qs, SweepAll(qs, sw), k, r, p, o);
  }

  lemma SweepAllReleased(qs: Queues, sw: Sweeping, order: seq<Key>, k: Key, r: Request, p: Request)
    requires Unique(qs) && k in order && At(qs, k, r) && At(SweepAll(qs, sw), k, p)
    requires r.id == p.id && r.hold && !p.hold && !Blank(r.outbound)
    ensures Out(r.id, r.outbound) in FreedAll(qs, sw, order)
  {
    SweepQueueMoves(qs[k], CutOf(sw, k));
    assert Out(r.id, r.outbound) in SweepFreed(qs[k], CutOf(sw, k));
    FreedAllIn(qs, sw, order, Out(r.id, r.outbound));
  }

  lemma SweepAllUnique(qs: Queues, sw: Sweeping)
    requires Unique(qs)
    ensures Unique(SweepAll(qs, sw))
  {
    var qs' := SweepAll(qs, sw);
    forall k, p | At(qs', k, p) ensures exists r :: At(qs, k, r) && Became(r, p) {
      SweepAllOrigin(qs, sw, k, p);
    }
    forall k | k in qs' ensures UniqueIds(qs'[k]) {
      SweepQueueMoves(qs[k], CutOf(sw, k));
    }
    LiftUnique(qs, qs');
  }

  lemma SweepAllMoves(qs: Queues, sw: Sweeping, order: seq<Key>)
    requires Unique(qs) && Visits(order, qs)
    ensures Moves(qs, SweepAll(qs, sw), FreedAll(qs, sw, order))
  {
    var qs', freed := SweepAll(qs, sw), FreedAll(qs, sw, order);
    SweepAllUnique(qs, sw);
    FreedAllUnique(qs, sw, order);
    forall k, p | At(qs', k, p) ensures exists r :: At(qs, k, r) && Became(r, p) {
      SweepAllOrigin(qs, sw, k, p);
    }
    forall o | o in freed ensures exists k, r, p :: ReleasedAs(qs, qs', k, r, p, o) {
      SweepAllFreed(qs, sw, order, o);
    }
    forall k, r, p | At(qs, k, r) && At(qs', k, p) && r.id == p.id && r.hold && !p.hold && !Blank(r.outbound)
      ensures Out(r.id, r.outbound) in freed
    {
      SweepAllReleased(qs, sw, order, k, r, p);
    }
  }

  // ---------------------------------------------------------------- new requests

  lemma RegisterBooksOuts(os: seq<Out>, extra: seq<Out>, l: Ledger, r: Request)
    requires OutsBooked(os + extra, l) && r.id == l.nextId && !Blank(r.outbound)
    requires forall id :: id in l.registered ==> id < l.nextId
    ensures OutsBooked(os + [Out(r.id, r.outbound)] + extra, Register(l, r, true))
  {
    var o := Out(r.id, r.outbound);
    var after, before := os + [o] + extra, os + extra;
    forall i | 0 <= i < |after| ensures after[i] == o || after[i] in before {
      if i < |os| {
        assert after[i] == before[i];
      } else if i > |os| {
        assert after[i] == before[i - 1];
      }
    }
    forall i, j | 0 <= i < j < |after| ensures after[i].id != after[j].id {
      InsertUnique(os, extra, o, i, j);
    }
  }

  lemma InsertUnique(os: seq<Out>, extra: seq<Out>, o: Out, i: nat, j: nat)
    requires UniqueOuts(os + extra) && forall x :: x in os + extra ==> x.id < o.id
    requires i < j < |os + [o] + extra|
    ensures (os + [o] + extra)[i].id != (os + [o] + extra)[j].id
  {
    var after, before := os + [o] + extra, os + extra;
    assert i != |os| ==> after[i] == before[if i < |os| then i else i - 1];
    assert j != |os| ==> after[j] == before[if j < |os| then j else j - 1];
  }

  /** A request written at once, whether or not it also enters a queue. */
  lemma RegisterWritten(qs: Queues, os: seq<Out>, extra: seq<Out>, l: Ledger, r: Request)
    requires Balanced(qs, os + extra, l) && r.id == l.nextId && !Blank(r.outbound)
    requires forall id :: id in Present(qs) ==> id < l.nextId
    requires forall id :: id in l.discarded ==> id < l.nextId
    ensures Balanced(qs, os + [Out(r.id, r.outbound)] + extra, Register(l, r, true))
  {
    var o := Out(r.id, r.outbound);
    OutIdsAppend(os + [o], extra);
    OutIdsAppend(os, [o]);
    OutIdsAppend(os, extra);
    HeldPresent(qs);
    assert OutIds([o]) == {r.id};
  }

  lemma EnqueueSets(qs: Queues, k: Key, r: Request)
    ensures var qs' := qs[k := QueueAt(qs, k) + [r]];
            && Present(qs') == Present(qs) + {r.id}
            && Held(qs') == Held(qs) + (if r.hold && !Blank(r.outbound) then {r.id} else {})
  {
    var qs' := qs[k := QueueAt(qs, k) + [r]];
    assert At(qs', k, r);
    forall x, p ensures At(qs', x, p) <==> At(qs, x, p) || (x == k && p == r) {
    }
    forall id ensures id in Present(qs') <==> id in Present(qs) + {r.id} {
      PresentIn(qs, id);
      PresentIn(qs', id);
    }
    forall id ensures id in Held(qs') <==> id in Held(qs) + (if r.hold && !Blank(r.outbound) then {r.id} else {}) {
      HeldIn(qs, id);
      HeldIn(qs', id);
    }
  }

  lemma EnqueueUnique(qs: Queues, k: Key, r: Request, l: Ledger)
    requires Unique(qs) && QueuesBooked(qs, l) && r.id == l.nextId
    ensures Unique(qs[k := QueueAt(qs, k) + [r]])
  {
    var q := QueueAt(qs, k);
    var qs' := qs[k := q + [r]];
    forall i | 0 <= i < |q| ensures q[i].id != r.id {
      assert At(qs, k, q[i]);
    }
    forall x, p, x', p' | At(qs', x, p) && At(qs', x', p') && p.id == p'.id ensures x == x' {
      assert (At(qs, x, p) || (x == k && p == r)) && (At(qs, x', p') || (x' == k && p' == r));
    }
  }

  lemma PresentBelow(qs: Queues, l: Ledger)
    requires QueuesBooked(qs, l)
    ensures forall id :: id in Present(qs) ==> id < l.nextId
  {
    forall id | id in Present(qs) ensures id < l.nextId {
      PresentIn(qs, id);
    }
  }

  lemma EnqueueLedger(t: State, k: Key, r: Request)
    requires LedgerOk(t) && r.id == t.ledger.nextId
    ensures LedgerOk(Enqueue(t, k, r))
  {
    var u := Enqueue(t, k, r);
    EnqueueUnique(t.queues, k, r, t.ledger);
    EnqueueBooked(t, k, r);
    EnqueueOuts(t, k, r);
    EnqueueBalanced(t, k, r);
  }

  lemma EnqueueBooked(t: State, k: Key, r: Request)
    requires QueuesBooked(t.queues, t.ledger) && r.id == t.ledger.nextId
    ensures QueuesBooked(Enqueue(t, k, r).queues, Enqueue(t, k, r).ledger)
  {
    var u := Enqueue(t, k, r);
    forall x, p | At(u.queues, x, p)
      ensures p.id < u.ledger.nextId
        && (!Blank(p.outbound) ==> p.id in u.ledger.registered && u.ledger.registered[p.id] == p.outbound)
    {
      assert At(t.queues, x, p) || p == r;
    }
  }

  lemma EnqueueOuts(t: State, k: Key, r: Request)
    requires LedgerOk(t) && r.id == t.ledger.nextId
    ensures OutsBooked(Written(Enqueue(t, k, r)), Enqueue(t, k, r).ledger)
  {
    if !Blank(r.outbound) && !r.hold {
      RegisterBooksOuts(t.ledger.sent, t.ready, t.ledger, r);
    }
  }

  /** A new id joins at most one side of the balance. */
  lemma GrowBalanced(qs: Queues, os: seq<Out>, l: Ledger, qs': Queues, os': seq<Out>, l': Ledger, w: bool, h: bool)
    requires Balanced(qs, os, l) && l'.nextId == l.nextId + 1 && l'.discarded == l.discarded && !(w && h)
    requires forall x :: x in Present(qs) ==> x < l.nextId
    requires Present(qs') == Present(qs) + {l.nextId}
    requires Held(qs') == Held(qs) + (if h then {l.nextId} else {})
    requires OutIds(os') == OutIds(os) + (if w then {l.nextId} else {})
    requires l'.registered.Keys == l.registered.Keys + (if w || h then {l.nextId} else {})
    ensures Balanced(qs', os', l')
  {
    HeldPresent(qs);
    assert l.nextId !in l.registered.Keys;
  }

  lemma EnqueueBalanced(t: State, k: Key, r: Request)
    requires Balanced(t.queues, Written(t), t.ledger) && QueuesBooked(t.queues, t.ledger) && r.id == t.ledger.nextId
    ensures Balanced(Enqueue(t, k, r).queues, Written(Enqueue(t, k, r)), Enqueue(t, k, r).ledger)
  {
    var u := Enqueue(t, k, r);
    EnqueueSets(t.queues, k, r);
    PresentBelow(t.queues, t.ledger);
    RegisterIds(t.ledger, r, t.ready);
    GrowBalanced(t.queues, Written(t), t.ledger, u.queues, Written(u), u.ledger,
                 !Blank(r.outbound) && !r.hold, !Blank(r.outbound) && r.hold);
  }

  lemma RegisterIds(l: Ledger, r: Request, extra: seq<Out>)
    ensures OutIds(Register(l, r, !r.hold).sent + extra) ==
            OutIds(l.sent + extra) + (if !Blank(r.outbound) && !r.hold then {r.id} else {})
  {
    var o := Out(r.id, r.outbound);
    OutIdsAppend(l.sent + [o], extra);
    OutIdsAppend(l.sent, [o]);
    OutIdsAppend(l.sent, extra);
    assert OutIds([o]) == {r.id};
  }

  /** A request kept outside the queues (labelled or WHOX) is written at once. */
  lemma RegisterLedger(t: State, r: Request, u: State)
    requires LedgerOk(t) && r.id == t.ledger.nextId
    requires u.queues == t.queues && u.ready == t.ready && u.ledger == Register(t.ledger, r, true)
    ensures LedgerOk(u)
  {
    PresentBelow(t.queues, t.ledger);
    if !Blank(r.outbound) {
      RegisterWritten(t.queues, t.ledger.sent, t.ready, t.ledger, r);
      RegisterBooksOuts(t.ledger.sent, t.ready, t.ledger, r);
    }
  }

  /** Sharing somebody else's exchange writes nothing and registers nothing. */
  lemma CoalesceLedger(t: State, k: Key, i: nat, w: Waiter)
    requires LedgerOk(t) && k in t.queues && i < |t.queues[k]|
    ensures LedgerOk(t.(queues := CoalesceAt(t.queues, k, i, w)))
  {
    var qs' := CoalesceAt(t.queues, k, i, w);
    CoalesceMoves(t.queues[k], i, w);
    OneMoves(t.queues, k, qs'[k], []);
    RequeueLedger(t, qs', []);
    assert t.ready + [] == t.ready;
    HeldStays(t.queues, k, i, w);
    assert t.ledger.discarded + (Held(t.queues) - Present(qs')) == t.ledger.discarded;
  }

  lemma HeldStays(qs: Queues, k: Key, i: nat, w: Waiter)
    requires k in qs && i < |qs[k]|
    ensures Held(qs) <= Present(CoalesceAt(qs, k, i, w))
  {
    var qs' := CoalesceAt(qs, k, i, w);
    forall id | id in Held(qs) ensures id in Present(qs') {
      HeldIn(qs, id);
      PresentIn(qs', id);
      var x, r :| At(qs, x, r) && r.id == id;
      var j :| 0 <= j < |qs[x]| && qs[x][j] == r;
      assert At(qs', x, qs'[x][j]) && qs'[x][j].id == id;
    }
  }
}

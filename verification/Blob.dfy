/** The keeper's per-network blob store (internal/keeper/blob.go): a keyed store that only
    matches on key and mode, refined to the log of pushes since the last Clear. */
module Blob {
  import opened Common

  type Bytes = seq<int>

  datatype Mode = Append | Replace | Delete
  datatype PushOp = PushOp(key: string, mode: Mode, value: Bytes)
  datatype BlobEntry = BlobEntry(key: string, values: seq<Bytes>)

  // ---------------------------------------------------------------- what a log of pushes means

  /** The resolved value of one key, read off the log alone. */
  function Resolve(log: seq<PushOp>, key: string): Option<seq<Bytes>> {
    if log == [] then None else
      var last := log[|log| - 1];
      var before := Resolve(log[..|log| - 1], key);
      if last.key != key then before else
      match last.mode
      case Append => Some((if before.Some? then before.value else []) + [last.value])
      case Replace => Some([last.value])
      case Delete => None
  }

  /** The position of the push that made `key` present, for a key that is present. */
  function Born(log: seq<PushOp>, key: string): (b: nat)
    requires Resolve(log, key).Some?
    ensures b < |log| && log[b].key == key && !log[b].mode.Delete?
  {
    var prefix := log[..|log| - 1];
    if Resolve(prefix, key).Some? then Born(prefix, key) else |log| - 1
  }

  /** `order` lists exactly the present keys, each once, in the order they were first pushed. */
  ghost predicate FirstPushOrder(log: seq<PushOp>, order: seq<string>) {
    && (forall k :: k in order <==> Resolve(log, k).Some?)
    && (forall i, j :: 0 <= i < j < |order| ==> Born(log, order[i]) < Born(log, order[j]))
  }

  lemma {:induction false} BornStays(log: seq<PushOp>, op: PushOp, key: string)
    requires Resolve(log, key).Some? && Resolve(log + [op], key).Some?
    ensures Born(log + [op], key) == Born(log, key)
  {
    assert (log + [op])[..|log|] == log;
  }

  /** A push only touches its own key. */
  lemma ResolveAppend(log: seq<PushOp>, op: PushOp, key: string)
    ensures op.key != key ==> Resolve(log + [op], key) == Resolve(log, key)
    ensures op.key == key ==>
      Resolve(log + [op], key) ==
      (match op.mode
       case Append => Some((if Resolve(log, key).Some? then Resolve(log, key).value else []) + [op.value])
       case Replace => Some([op.value])
       case Delete => None)
  {
    assert (log + [op])[..|log|] == log;
  }

  // ---------------------------------------------------------------- replaying pushes

  predicate NoAppends(ops: seq<PushOp>) {
    forall i :: 0 <= i < |ops| ==> !ops[i].mode.Append?
  }

  predicate Mentions(ops: seq<PushOp>, key: string) {
    exists i :: 0 <= i < |ops| && ops[i].key == key
  }

  /** Some push of the block replaces or deletes the key, whatever it was. */
  predicate Settles(ops: seq<PushOp>, key: string) {
    exists i :: 0 <= i < |ops| && ops[i].key == key && !ops[i].mode.Append?
  }

  /** A block that replaces or deletes a key decides it, and ignores what was there. */
  lemma {:induction false} BlockDecides(log: seq<PushOp>, log': seq<PushOp>, ops: seq<PushOp>, key: string)
    requires Settles(ops, key)
    ensures Resolve(log + ops, key) == Resolve(log' + ops, key)
    decreases |ops|
  {
    var n := |ops| - 1;
    var front, last := ops[..n], ops[n];
    assert log + ops == (log + front) + [last] && log' + ops == (log' + front) + [last];
    ResolveAppend(log + front, last, key);
    ResolveAppend(log' + front, last, key);
    if last.key != key || last.mode.Append? {
      var i :| 0 <= i < |ops| && ops[i].key == key && !ops[i].mode.Append?;
      assert front[i] == ops[i];
      BlockDecides(log, log', front, key);
    }
  }

  lemma {:induction false} Untouched(log: seq<PushOp>, ops: seq<PushOp>, key: string)
    requires !Mentions(ops, key)
    ensures Resolve(log + ops, key) == Resolve(log, key)
    decreases |ops|
  {
    if ops == [] {
      assert log + ops == log;
    } else {
      var n := |ops| - 1;
      assert log + ops == (log + ops[..n]) + [ops[n]];
      ResolveAppend(log + ops[..n], ops[n], key);
      assert !Mentions(ops[..n], key);
      Untouched(log, ops[..n], key);
    }
  }

  /** How many values a key holds. */
  function Size(v: Option<seq<Bytes>>): nat {
    if v.Some? then |v.value| else 0
  }

  /** A block that only appends to a key makes it longer. */
  lemma {:induction false} AppendsGrow(log: seq<PushOp>, ops: seq<PushOp>, key: string)
    requires !Settles(ops, key)
    ensures Size(Resolve(log + ops, key)) >= Size(Resolve(log, key)) + (if Mentions(ops, key) then 1 else 0)
    decreases |ops|
  {
    if ops == [] {
      assert log + ops == log;
    } else {
      var n := |ops| - 1;
      var front, last := ops[..n], ops[n];
      assert log + ops == (log + front) + [last];
      assert ops == front + [last];
      ResolveAppend(log + front, last, key);
      assert !Settles(front, key);
      AppendsGrow(log, front, key);
    }
  }

  /** Re-applying an applied suffix, as a brain that crashed before its ack does, leaves a key's
      value unchanged iff the suffix does not touch the key or does more than append to it. */
  lemma ReplayExact(log: seq<PushOp>, suffix: seq<PushOp>, key: string)
    ensures Resolve(log + suffix + suffix, key) == Resolve(log + suffix, key)
       <==> Settles(suffix, key) || !Mentions(suffix, key)
  {
    if Settles(suffix, key) {
      BlockDecides(log + suffix, log, suffix, key);
    } else if !Mentions(suffix, key) {
      Untouched(log + suffix, suffix, key);
    } else {
      AppendsGrow(log + suffix, suffix, key);
    }
  }

  /** So a suffix of Replace and Delete pushes can always be re-applied. */
  lemma ReplayIsIdempotent(log: seq<PushOp>, suffix: seq<PushOp>, key: string)
    requires NoAppends(suffix)
    ensures Resolve(log + suffix + suffix, key) == Resolve(log + suffix, key)
  {
    ReplayExact(log, suffix, key);
  }

  /** An append is not idempotent: replaying it doubles the value. */
  lemma AppendReplayDoubles(key: string, v: Bytes)
    ensures var op := PushOp(key, Append, v);
            Resolve([op], key) == Some([v]) && Resolve([op] + [op], key) == Some([v, v])
  {
    var op := PushOp(key, Append, v);
    var none: seq<PushOp> := [];
    ResolveAppend(none, op, key);
    assert none + [op] == [op] && [] + [v] == [v];
    ResolveAppend([op], op, key);
    assert [v] + [v] == [v, v];
  }

  // ---------------------------------------------------------------- the store

  /** Removing one position keeps the birth order of the rest. */
  lemma OrderWithout(log: seq<PushOp>, op: PushOp, order: seq<string>, i: nat)
    requires FirstPushOrder(log, order) && i < |order| && order[i] == op.key && op.mode.Delete?
    ensures FirstPushOrder(log + [op], order[..i] + order[i + 1..])
  {
    var kept := order[..i] + order[i + 1..];
    Distinct(log, order);
    forall k ensures k in kept <==> Resolve(log + [op], k).Some? {
      ResolveAppend(log, op, k);
      KeptIffOther(order, i, k);
    }
    forall a, b | 0 <= a < b < |kept| ensures Born(log + [op], kept[a]) < Born(log + [op], kept[b]) {
      assert kept[a] in kept && kept[b] in kept;
      ResolveAppend(log, op, kept[a]);
      ResolveAppend(log, op, kept[b]);
      BornStays(log, op, kept[a]);
      BornStays(log, op, kept[b]);
    }
  }

  ghost predicate NoDuplicates(s: seq<string>) {
    forall i, j :: 0 <= i < j < |s| ==> s[i] != s[j]
  }

  lemma Distinct(log: seq<PushOp>, order: seq<string>)
    requires FirstPushOrder(log, order)
    ensures NoDuplicates(order)
  {
  }

  lemma KeptIffOther(order: seq<string>, i: nat, k: string)
    requires i < |order| && NoDuplicates(order)
    ensures k in order[..i] + order[i + 1..] <==> k in order && k != order[i]
  {
    var kept := order[..i] + order[i + 1..];
    if k in order && k != order[i] {
      var j :| 0 <= j < |order| && order[j] == k;
      assert kept[if j < i then j else j - 1] == k;
    }
    if k in kept {
      var j :| 0 <= j < |kept| && kept[j] == k;
      assert order[if j < i then j else j + 1] == k;
    }
  }

  /** A push that creates or keeps its key extends or keeps the birth order. */
  lemma OrderWith(log: seq<PushOp>, op: PushOp, order: seq<string>)
    requires FirstPushOrder(log, order) && !op.mode.Delete?
    ensures FirstPushOrder(log + [op], if op.key in order then order else order + [op.key])
  {
    var next := if op.key in order then order else order + [op.key];
    forall k ensures k in next <==> Resolve(log + [op], k).Some? {
      ResolveAppend(log, op, k);
    }
    forall a, b | 0 <= a < b < |next| ensures Born(log + [op], next[a]) < Born(log + [op], next[b]) {
      assert next[a] in next && next[b] in next && next[a] in order;
      BornStays(log, op, next[a]);
      if next[b] in order {
        BornStays(log, op, next[b]);
      } else {
        assert (log + [op])[..|log|] == log;
      }
    }
  }

  /** A delete of an absent key changes nothing but the log. */
  lemma OrderSame(log: seq<PushOp>, op: PushOp, order: seq<string>)
    requires FirstPushOrder(log, order) && op.mode.Delete? && op.key !in order
    ensures FirstPushOrder(log + [op], order)
  {
    forall k ensures k in order <==> Resolve(log + [op], k).Some? {
      ResolveAppend(log, op, k);
    }
    forall a, b | 0 <= a < b < |order| ensures Born(log + [op], order[a]) < Born(log + [op], order[b]) {
      assert order[a] in order && order[b] in order;
      BornStays(log, op, order[a]);
      BornStays(log, op, order[b]);
    }
  }

  function Lookup(entries: map<string, seq<Bytes>>, k: string): Option<seq<Bytes>> {
    if k in entries then Some(entries[k]) else None
  }

  /** The map holds exactly what the log resolves to, and the order slice lists its keys. */
  ghost predicate Agrees(log: seq<PushOp>, entries: map<string, seq<Bytes>>, order: seq<string>) {
    && FirstPushOrder(log, order)
    && (forall k :: Resolve(log, k) == Lookup(entries, k))
  }

  lemma AgreesPut(log: seq<PushOp>, op: PushOp, entries: map<string, seq<Bytes>>, order: seq<string>, v: seq<Bytes>)
    requires Agrees(log, entries, order) && !op.mode.Delete? && Resolve(log + [op], op.key) == Some(v)
    ensures Agrees(log + [op], entries[op.key := v], if op.key in order then order else order + [op.key])
  {
    OrderWith(log, op, order);
    forall k ensures Resolve(log + [op], k) == Lookup(entries[op.key := v], k) {
      LookupPut(log, op, entries, v, k);
    }
  }

  lemma LookupPut(log: seq<PushOp>, op: PushOp, entries: map<string, seq<Bytes>>, v: seq<Bytes>, k: string)
    requires Resolve(log, k) == Lookup(entries, k) && Resolve(log + [op], op.key) == Some(v)
    ensures Resolve(log + [op], k) == Lookup(entries[op.key := v], k)
  {
    ResolveAppend(log, op, k);
  }

  lemma AgreesDelete(log: seq<PushOp>, op: PushOp, entries: map<string, seq<Bytes>>, order': seq<string>)
    requires forall k :: Resolve(log, k) == Lookup(entries, k)
    requires op.mode.Delete? && FirstPushOrder(log + [op], order')
    ensures Agrees(log + [op], entries - {op.key}, order')
  {
    var next := entries - {op.key};
    forall k ensures Resolve(log + [op], k) == Lookup(next, k) {
      ResolveAppend(log, op, k);
      assert Lookup(next, k) == if k == op.key then None else Lookup(entries, k);
    }
  }

  class BlobStore {
    var entries: map<string, seq<Bytes>>
    var order: seq<string>
    ghost var log: seq<PushOp>  // every Push since construction or the last Clear

    ghost predicate Valid()
      reads this
    {
      Agrees(log, entries, order)
    }

    constructor ()
      ensures Valid() && log == []
    {
      entries, order, log := map[], [], [];
    }

    method Push(key: string, mode: Mode, value: Bytes)
      requires Valid()
      modifies this
      ensures Valid()
      ensures log == old(log) + [PushOp(key, mode, value)]
    {
      ghost var op := PushOp(key, mode, value);
      ghost var log0, entries0 := log, entries;
      assert Resolve(log, key) == Lookup(entries, key) && (key in order <==> Resolve(log, key).Some?);
      ResolveAppend(log0, op, key);
      match mode {
        case Append =>
          var values := (if key in entries then entries[key] else []) + [value];
          AgreesPut(log0, op, entries, order, values);
          if key !in entries {
            order := order + [key];
          }
          entries := entries[key := values];
        case Replace =>
          AgreesPut(log0, op, entries, order, [value]);
          if key !in entries {
            order := order + [key];
          }
          entries := entries[key := [value]];
        case Delete =>
          if key in entries {
            entries := entries - {key};
            RemoveFromOrder(key, op);
          } else {
            OrderSame(log0, op, order);
            assert entries - {key} == entries;
          }
          AgreesDelete(log0, op, entries0, order);
      }
      log := log0 + [op];
    }

    /** The loop of Push's delete case: cut the first occurrence of `key` out of `order`. */
    method RemoveFromOrder(key: string, ghost op: PushOp)
      requires FirstPushOrder(log, order) && key in order && op.key == key && op.mode.Delete?
      modifies this`order
      ensures FirstPushOrder(log + [op], order)
    {
      var i := 0;
      while order[i] != key
        invariant 0 <= i < |order| && key in order[i..]
        decreases |order| - i
      {
        assert order[i..] == [order[i]] + order[i + 1..];
        i := i + 1;
      }
      OrderWithout(log, op, order, i);
      order := order[..i] + order[i + 1..];
    }

    /** Every present key once, in first-push order, each with the value its pushes resolve to. */
    method Snapshot() returns (out: seq<BlobEntry>)
      requires Valid()
      ensures |out| == |order|
      ensures forall i :: 0 <= i < |out| ==> out[i].key == order[i] && Resolve(log, order[i]) == Some(out[i].values)
      ensures forall k :: Resolve(log, k).Some? <==> exists i :: 0 <= i < |out| && out[i].key == k
      ensures forall i, j :: 0 <= i < j < |out| ==> Born(log, order[i]) < Born(log, order[j])
    {
      out := [];
      for i := 0 to |order|
        invariant |out| == i
        invariant forall j :: 0 <= j < i ==> out[j].key == order[j] && Resolve(log, order[j]) == Some(out[j].values)
      {
        var key := order[i];
        assert key in order && Resolve(log, key) == Lookup(entries, key);
        out := out + [BlobEntry(key, entries[key])];
      }
      forall k ensures Resolve(log, k).Some? <==> exists i :: 0 <= i < |out| && out[i].key == k {
        if Resolve(log, k).Some? {
          assert k in order;
          var i :| 0 <= i < |order| && order[i] == k;
          assert out[i].key == k;
        }
      }
    }

    method Clear()
      modifies this
      ensures Valid() && log == [] && order == []
    {
      entries, order, log := map[], [], [];
    }
  }
}

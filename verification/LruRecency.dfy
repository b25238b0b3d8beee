/** What the LRU cache is named for: its order is the order of last uses, over whole runs. */
module LruRecency {
  import opened Wrappers
  import opened LruModel
  import opened LruRuns

  /** The operations that use a key. A use of a key that is absent does nothing, but then the
      key has to be put before it is present. */
  predicate Uses(op: Op, k: Key) {
    op == GetOp(k) || op == TouchOp(k) || (op.PutOp? && op.k == k)
  }

  /** When a key was last used; -1 if never. */
  function LastUse(ops: seq<Op>, k: Key): (t: int)
    ensures -1 <= t < |ops|
    ensures t >= 0 ==> Uses(ops[t], k)
    ensures forall i :: t < i < |ops| ==> !Uses(ops[i], k)
  {
    if ops == [] then -1
    else
      var n := |ops| - 1;
      if Uses(ops[n], k) then n else LastUse(ops[..n], k)
  }

  /** The value a key was last put with. */
  function LastPut(ops: seq<Op>, k: Key): Option<Value> {
    if ops == [] then None
    else
      var n := |ops| - 1;
      if ops[n].PutOp? && ops[n].k == k then Some(ops[n].v) else LastPut(ops[..n], k)
  }

  predicate UsedBefore(ops: seq<Op>, k: Key, k': Key) {
    0 <= LastUse(ops, k) < LastUse(ops, k')
  }

  /** Keys in the order of their last uses. */
  ghost predicate Recent(order: seq<Key>, ops: seq<Op>) {
    && (forall i :: 0 <= i < |order| ==> LastUse(ops, order[i]) >= 0)
    && forall i, j :: 0 <= i < j < |order| ==> UsedBefore(ops, order[i], order[j])
  }

  /** A key that is present holds the value it was last put with. */
  ghost predicate LastValues(vals: map<Key, Value>, ops: seq<Op>) {
    forall k :: k in vals ==> LastPut(ops, k) == Some(vals[k])
  }

  ghost predicate UpToDate(c: Cache, ops: seq<Op>) {
    Recent(c.order, ops) && LastValues(c.vals, ops)
  }

  lemma RecentWithout(order: seq<Key>, ops: seq<Op>, k: Key)
    requires Recent(order, ops) && Distinct(order)
    ensures Recent(Without(order, k), ops)
  {
    if k in order {
      var i :| 0 <= i < |order| && order[i] == k;
      WithoutAt(order, i);
      var less := order[..i] + order[i + 1..];
      assert forall j :: 0 <= j < |less| ==> less[j] == order[if j < i then j else j + 1];
    } else {
      WithoutAbsent(order, k);
    }
  }

  lemma LastUseAfter(ops: seq<Op>, op: Op, k: Key)
    ensures LastUse(ops + [op], k) == if Uses(op, k) then |ops| else LastUse(ops, k)
  {
    assert (ops + [op])[..|ops|] == ops;
  }

  /** An operation that uses no key of the order does not change it. */
  lemma RecentAfter(order: seq<Key>, ops: seq<Op>, op: Op)
    requires Recent(order, ops) && forall k :: k in order ==> !Uses(op, k)
    ensures Recent(order, ops + [op])
  {
    forall i | 0 <= i < |order|
      ensures LastUse(ops + [op], order[i]) == LastUse(ops, order[i])
    {
      LastUseAfter(ops, op, order[i]);
    }
  }

  /** One that uses a key puts it at the end. */
  lemma RecentUse(order: seq<Key>, ops: seq<Op>, op: Op, k: Key)
    requires Recent(order, ops) && Distinct(order) && Uses(op, k)
    ensures Recent(Without(order, k) + [k], ops + [op])
  {
    var less := Without(order, k);
    RecentWithout(order, ops, k);
    RecentAfter(less, ops, op);
    LastUseAfter(ops, op, k);
    forall i | 0 <= i < |less|
      ensures UsedBefore(ops + [op], less[i], k)
    {
      LastUseAfter(ops, op, less[i]);
      assert less[i] in less;
    }
  }

  lemma ValuesAfter(vals: map<Key, Value>, ops: seq<Op>, op: Op)
    requires LastValues(vals, ops) && (op.PutOp? ==> op.k !in vals)
    ensures LastValues(vals, ops + [op])
  {
    assert (ops + [op])[..|ops|] == ops;
  }

  lemma PopUpToDate(c: Cache, ops: seq<Op>, k: Key)
    requires Valid(c) && UpToDate(c, ops)
    ensures UpToDate(Pop(c, k), ops)
  {
    RecentWithout(c.order, ops, k);
  }

  lemma InsertUpToDate(c: Cache, ops: seq<Op>, k: Key, v: Value)
    requires Valid(c) && UpToDate(c, ops)
    ensures UpToDate(Insert(c, k, v), ops + [PutOp(k, v)])
  {
    var op := PutOp(k, v);
    RecentUse(c.order, ops, op, k);
    ValuesAfter(c.vals - {k}, ops, op);
    assert LastPut(ops + [op], k) == Some(v);
  }

  lemma PutUpToDate(c: Cache, capacity: nat, ops: seq<Op>, k: Key, v: Value)
    requires Within(c, capacity) && UpToDate(c, ops)
    ensures UpToDate(After(c, capacity, PutOp(k, v)), ops + [PutOp(k, v)])
  {
    var op, inserted := PutOp(k, v), Insert(c, k, v);
    InsertUpToDate(c, ops, k, v);
    PutEvictsAtMostOne(c, capacity, k, v);
    var after := After(c, capacity, op);
    if after != inserted {
      var i: nat :| OldestUnpinnedAt(inserted.order, c.pinned, i) && after == WithoutEntry(inserted, i);
      InsertValid(c, k, v);
      PopAt(inserted, i);
      PopUpToDate(inserted, ops + [op], inserted.order[i]);
    }
  }

  lemma UseUpToDate(c: Cache, ops: seq<Op>, op: Op, k: Key)
    requires Valid(c) && UpToDate(c, ops) && op in {GetOp(k), TouchOp(k)}
    ensures UpToDate(if k in c.vals then MoveToEnd(c, k) else c, ops + [op])
  {
    ValuesAfter(c.vals, ops, op);
    if k in c.vals {
      RecentUse(c.order, ops, op, k);
    } else {
      RecentAfter(c.order, ops, op);
    }
  }

  lemma StaysUpToDate(c: Cache, capacity: nat, ops: seq<Op>, op: Op)
    requires Within(c, capacity) && UpToDate(c, ops)
    ensures UpToDate(After(c, capacity, op), ops + [op])
  {
    match op {
      case PutOp(k, v) => PutUpToDate(c, capacity, ops, k, v);
      case GetOp(k) => UseUpToDate(c, ops, op, k);
      case TouchOp(k) => UseUpToDate(c, ops, op, k);
      case PopOp(k) =>
        UnusedUpToDate(c, ops, op);
        PopUpToDate(c, ops + [op], k);
      case RemoveOldestOp(_) =>
        UnusedUpToDate(c, ops, op);
        RemovalUpToDate(c, capacity, ops + [op], op);
      case PinOp(_) => UnusedUpToDate(c, ops, op);
      case ClearOp =>
    }
  }

  lemma UnusedUpToDate(c: Cache, ops: seq<Op>, op: Op)
    requires UpToDate(c, ops) && !op.PutOp? && forall k :: !Uses(op, k)
    ensures UpToDate(c, ops + [op])
  {
    RecentAfter(c.order, ops, op);
    ValuesAfter(c.vals, ops, op);
  }

  lemma RemovalUpToDate(c: Cache, capacity: nat, ops: seq<Op>, op: Op)
    requires Valid(c) && UpToDate(c, ops) && op.RemoveOldestOp?
    ensures UpToDate(After(c, capacity, op), ops)
  {
    if c.order != [] {
      PopUpToDate(c, ops, c.order[0]);
      var victim := FirstUnpinned(c.order, c.pinned);
      if victim.Some? {
        PopUpToDate(c, ops, victim.value);
      }
    }
  }

  lemma {:induction false} RunUpToDate(c: Cache, capacity: nat, before: seq<Op>, ops: seq<Op>)
    requires Within(c, capacity) && UpToDate(c, before)
    ensures UpToDate(RunOps(c, capacity, ops), before + ops)
    decreases |ops|
  {
    if ops != [] {
      StaysUpToDate(c, capacity, before, ops[0]);
      AfterWithin(c, capacity, ops[0]);
      RunUpToDate(After(c, capacity, ops[0]), capacity, before + [ops[0]], ops[1..]);
      assert before + [ops[0]] + ops[1..] == before + ops;
    } else {
      assert before + ops == before;
    }
  }

  /** After any run from an empty cache, with pins, removals and evictions: the keys that are
      present are in the order in which they were last used, and hold the values they were last
      put with. */
  lemma RecencyOrder(capacity: nat, ops: seq<Op>)
    ensures var c := RunOps(EMPTY, capacity, ops);
            && (forall i, j :: 0 <= i < j < |c.order| ==> UsedBefore(ops, c.order[i], c.order[j]))
            && forall k :: k in c.vals ==> LastPut(ops, k) == Some(c.vals[k])
  {
    RunUpToDate(EMPTY, capacity, [], ops);
    assert [] + ops == ops;
  }

  // ---------- pins ----------

  /** The only operations that can take a pinned entry. */
  predicate TakesPinned(op: Op, k: Key) {
    op == PopOp(k) || op == RemoveOldestOp(true) || op == ClearOp
  }

  lemma PinnedAfter(c: Cache, capacity: nat, op: Op, k: Key)
    requires Within(c, capacity) && !TakesPinned(op, k)
    requires k in c.pinned || (op == PinOp(k) && k in c.vals)
    ensures k in After(c, capacity, op).pinned
  {
    AfterWithin(c, capacity, op);
    if op.PutOp? {
      PutEvictsAtMostOne(c, capacity, op.k, op.v);
    }
  }

  /** An entry that is pinned stays, over any run in which it is not popped, the cache is not
      cleared, and no oldest entry is removed in spite of its pin. */
  lemma {:induction false} PinnedStays(c: Cache, capacity: nat, k: Key, ops: seq<Op>)
    requires Within(c, capacity) && k in c.vals && ops != [] && ops[0] == PinOp(k)
    requires forall i :: 0 <= i < |ops| ==> !TakesPinned(ops[i], k)
    ensures k in RunOps(c, capacity, ops).pinned && k in RunOps(c, capacity, ops).vals
  {
    AfterWithin(c, capacity, ops[0]);
    PinnedAfter(c, capacity, ops[0], k);
    PinnedOver(After(c, capacity, ops[0]), capacity, k, ops[1..]);
  }

  lemma {:induction false} PinnedOver(c: Cache, capacity: nat, k: Key, ops: seq<Op>)
    requires Within(c, capacity) && k in c.pinned
    requires forall i :: 0 <= i < |ops| ==> !TakesPinned(ops[i], k)
    ensures k in RunOps(c, capacity, ops).pinned && k in RunOps(c, capacity, ops).vals
    decreases |ops|
  {
    if ops != [] {
      AfterWithin(c, capacity, ops[0]);
      PinnedAfter(c, capacity, ops[0], k);
      PinnedOver(After(c, capacity, ops[0]), capacity, k, ops[1..]);
    }
  }
}

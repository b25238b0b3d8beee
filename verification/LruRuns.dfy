/** What holds of the LRU cache over whole runs: its invariants with pins, and that a
    smaller cache always holds a subset of a larger one. */
module LruRuns {
  import opened Wrappers
  import opened LruModel

  datatype Op =
    | PutOp(k: Key, v: Value)
    | GetOp(k: Key)
    | TouchOp(k: Key)
    | PopOp(k: Key)
    | PinOp(k: Key)
    | RemoveOldestOp(removePinned: bool)
    | ClearOp

  /** One call; a call that raises leaves the cache as it was. */
  function Apply(c: Cache, capacity: nat, op: Op): Result<Cache, LruError>
    requires Valid(c)
  {
    match op
    case PutOp(k, v) => Put(c, capacity, k, v)
    case GetOp(k) => Ok(if k in c.vals then MoveToEnd(c, k) else c)
    case TouchOp(k) => if k in c.vals then Ok(MoveToEnd(c, k)) else Err(KeyMissing)
    case PopOp(k) => Ok(Pop(c, k))
    case PinOp(k) => if k in c.vals then Ok(c.(pinned := c.pinned + {k})) else Err(NotInCache)
    case RemoveOldestOp(removePinned) => RemoveOldest(c, removePinned)
    case ClearOp => Ok(EMPTY)
  }

  function After(c: Cache, capacity: nat, op: Op): Cache
    requires Valid(c)
  {
    match Apply(c, capacity, op)
    case Ok(c') => c'
    case Err(_) => c
  }

  ghost predicate Within(c: Cache, capacity: nat) {
    Valid(c) && |c.order| <= capacity
  }

  lemma MoveToEndValid(c: Cache, k: Key)
    requires Valid(c) && k in c.vals
    ensures Valid(MoveToEnd(c, k)) && |MoveToEnd(c, k).order| == |c.order|
  {
    WithoutDistinct(c.order, k);
    DistinctAppend(Without(c.order, k), k);
  }

  /** The all-pinned error is possible only for an explicit removal from a nonempty cache
      whose entries are all pinned. */
  lemma AfterWithin(c: Cache, capacity: nat, op: Op)
    requires Within(c, capacity)
    ensures Within(After(c, capacity, op), capacity)
    ensures Apply(c, capacity, op) == Err(AllPinned) <==>
            op == RemoveOldestOp(false) && c.order != [] && c.pinned == c.vals.Keys
  {
    match op {
      case PutOp(k, v) => PutEvictsAtMostOne(c, capacity, k, v);
      case GetOp(k) => if k in c.vals { MoveToEndValid(c, k); }
      case TouchOp(k) => if k in c.vals { MoveToEndValid(c, k); }
      case PopOp(k) => PopValid(c, k);
      case RemoveOldestOp(removePinned) =>
        if c.order != [] {
          PopValid(c, c.order[0]);
          if FirstUnpinned(c.order, c.pinned).Some? {
            PopValid(c, FirstUnpinned(c.order, c.pinned).value);
            assert FirstUnpinned(c.order, c.pinned).value in c.vals.Keys;
          } else {
            assert forall k :: k in c.vals ==> k in c.order;
            assert c.pinned == c.vals.Keys;
          }
        }
      case _ =>
    }
  }

  function RunOps(c: Cache, capacity: nat, ops: seq<Op>): Cache
    requires Within(c, capacity)
    decreases |ops|
  {
    if ops == [] then c
    else
      AfterWithin(c, capacity, ops[0]);
      RunOps(After(c, capacity, ops[0]), capacity, ops[1..])
  }

  /** In every run from an empty cache: no more entries than the capacity, pinned keys are
      present, keys are unique. */
  lemma {:induction false} RunWithin(c: Cache, capacity: nat, ops: seq<Op>)
    requires Within(c, capacity)
    ensures Within(RunOps(c, capacity, ops), capacity)
    decreases |ops|
  {
    if ops != [] {
      AfterWithin(c, capacity, ops[0]);
      RunWithin(After(c, capacity, ops[0]), capacity, ops[1..]);
    }
  }

  // ---------- keeping some keys of an order ----------

  function Keep(s: seq<Key>, keys: set<Key>): (r: seq<Key>)
    ensures forall x :: x in r <==> x in s && x in keys
  {
    if s == [] then []
    else if s[0] in keys then [s[0]] + Keep(s[1..], keys)
    else Keep(s[1..], keys)
  }

  lemma {:induction false} KeepAppend(s: seq<Key>, k: Key, keys: set<Key>)
    ensures Keep(s + [k], keys) == Keep(s, keys) + (if k in keys then [k] else [])
  {
    if s != [] {
      assert (s + [k])[1..] == s[1..] + [k];
      KeepAppend(s[1..], k, keys);
    }
  }

  lemma {:induction false} KeepWithout(s: seq<Key>, k: Key, keys: set<Key>)
    ensures Keep(Without(s, k), keys) == Without(Keep(s, keys), k)
    ensures Keep(s, keys - {k}) == Without(Keep(s, keys), k)
    ensures k !in s ==> Keep(s, keys + {k}) == Keep(s, keys)
  {
    if s != [] {
      KeepWithout(s[1..], k, keys);
    }
  }

  // ---------- stack inclusion ----------

  /** The smaller cache holds entries of the larger one, with the same values, in the same
      relative order of recency, and falls short of it by no more than the capacities do. */
  ghost predicate Included(small: Cache, smallCapacity: nat, big: Cache, bigCapacity: nat) {
    && Within(small, smallCapacity) && Within(big, bigCapacity)
    && small.pinned == {} && big.pinned == {}
    && small.order == Keep(big.order, small.vals.Keys)
    && (forall k :: k in small.vals ==> k in big.vals && small.vals[k] == big.vals[k])
    && |big.order| - |small.order| <= bigCapacity - smallCapacity
  }

  /** The operations of a common trace without pins. */
  predicate Common(op: Op) {
    op.PutOp? || op.GetOp? || op.PopOp?
  }

  lemma MoveKeeps(s: seq<Key>, k: Key, keys: set<Key>)
    ensures Keep(Without(s, k) + [k], keys)
            == if k in keys then Without(Keep(s, keys), k) + [k] else Without(Keep(s, keys), k)
  {
    KeepAppend(Without(s, k), k, keys);
    KeepWithout(s, k, keys);
  }

  lemma InsertIncluded(small: Cache, big: Cache, k: Key, v: Value)
    requires Valid(small) && Valid(big) && small.order == Keep(big.order, small.vals.Keys)
    ensures Insert(small, k, v).order == Keep(Insert(big, k, v).order, Insert(small, k, v).vals.Keys)
  {
    var keys := small.vals.Keys;
    assert Insert(small, k, v).vals.Keys == keys + {k};
    KeepAppend(Without(big.order, k), k, keys + {k});
    KeepWithout(big.order, k, keys);
    KeepWithout(Without(big.order, k), k, keys);
  }

  /** Without pins a put evicts the oldest entry, if any. */
  lemma PutUnpinned(c: Cache, capacity: nat, k: Key, v: Value)
    requires Within(c, capacity) && c.pinned == {}
    ensures var inserted := Insert(c, k, v);
            Put(c, capacity, k, v) ==
            Ok(if |inserted.order| <= capacity then inserted else Pop(inserted, inserted.order[0]))
  {
    PutEvictsAtMostOne(c, capacity, k, v);
    InsertValid(c, k, v);
    var inserted := Insert(c, k, v);
    if |inserted.order| > capacity {
      PopAt(inserted, 0);
    }
  }

  lemma WithoutFirst(s: seq<Key>)
    requires s != [] && Distinct(s)
    ensures Without(s, s[0]) == s[1..]
  {
    WithoutAbsent(s[1..], s[0]);
  }

  /** Evicting from both: the oldest entry of the larger cache is either unknown to the
      smaller one or its oldest as well. */
  lemma EvictBoth(small: Cache, big: Cache)
    requires Valid(small) && Valid(big) && small.order == Keep(big.order, small.vals.Keys) && small.order != []
    requires forall k :: k in small.vals ==> k in big.vals && small.vals[k] == big.vals[k]
    ensures var small', big' := Pop(small, small.order[0]), Pop(big, big.order[0]);
            && small'.order == Keep(big'.order, small'.vals.Keys)
            && (forall k :: k in small'.vals ==> k in big'.vals && small'.vals[k] == big'.vals[k])
  {
    var h, o := small.order[0], big.order[0];
    WithoutFirst(big.order);
    KeepWithout(big.order, o, small.vals.Keys);
    KeepWithout(Without(big.order, o), h, small.vals.Keys);
    KeepWithout(big.order, h, small.vals.Keys);
    if o in small.vals {
      assert h == o;
      assert Keep(Without(big.order, o), small.vals.Keys - {h}) == Without(Without(small.order, o), h);
      assert h !in Without(small.order, h);
      WithoutAbsent(Without(small.order, h), h);
    } else {
      WithoutAbsent(small.order, o);
    }
  }

  /** An over-full cache drops its oldest entry. */
  function Evicted(c: Cache, capacity: nat): Cache {
    if |c.order| <= capacity then c else Pop(c, c.order[0])
  }

  lemma EvictIncluded(s: Cache, smallCapacity: nat, b: Cache, bigCapacity: nat)
    requires Valid(s) && Valid(b) && s.order == Keep(b.order, s.vals.Keys)
    requires forall k :: k in s.vals ==> k in b.vals && s.vals[k] == b.vals[k]
    requires |b.order| - |s.order| <= bigCapacity - smallCapacity
    ensures var s', b' := Evicted(s, smallCapacity), Evicted(b, bigCapacity);
            && s'.order == Keep(b'.order, s'.vals.Keys)
            && (forall k :: k in s'.vals ==> k in b'.vals && s'.vals[k] == b'.vals[k])
  {
    if |s.order| > smallCapacity {
      if |b.order| > bigCapacity {
        EvictBoth(s, b);
      } else {
        KeepWithout(b.order, s.order[0], s.vals.Keys);
      }
    }
  }

  lemma AfterPut(c: Cache, capacity: nat, k: Key, v: Value)
    requires Within(c, capacity) && c.pinned == {}
    ensures var inserted, after := Insert(c, k, v), After(c, capacity, PutOp(k, v));
            && after == Evicted(inserted, capacity) && Within(after, capacity) && after.pinned == {}
            && Valid(inserted) && |inserted.order| == |c.order| + (if k in c.vals then 0 else 1)
            && |after.order| == if |inserted.order| <= capacity then |inserted.order| else capacity
  {
    PutUnpinned(c, capacity, k, v);
    PutEvictsAtMostOne(c, capacity, k, v);
    InsertValid(c, k, v);
    var inserted := Insert(c, k, v);
    if |inserted.order| > capacity {
      PopValid(inserted, inserted.order[0]);
    }
  }

  lemma PutIncluded(small: Cache, smallCapacity: nat, big: Cache, bigCapacity: nat, k: Key, v: Value)
    requires Included(small, smallCapacity, big, bigCapacity)
    ensures Included(After(small, smallCapacity, PutOp(k, v)), smallCapacity, After(big, bigCapacity, PutOp(k, v)),
                     bigCapacity)
  {
    var s, b := Insert(small, k, v), Insert(big, k, v);
    AfterPut(small, smallCapacity, k, v);
    AfterPut(big, bigCapacity, k, v);
    InsertIncluded(small, big, k, v);
    EvictIncluded(s, smallCapacity, b, bigCapacity);
  }

  lemma PopIncluded(small: Cache, smallCapacity: nat, big: Cache, bigCapacity: nat, k: Key)
    requires Included(small, smallCapacity, big, bigCapacity)
    ensures Included(Pop(small, k), smallCapacity, Pop(big, k), bigCapacity)
  {
    PopValid(small, k);
    PopValid(big, k);
    KeepWithout(big.order, k, small.vals.Keys);
    KeepWithout(Without(big.order, k), k, small.vals.Keys);
    assert k !in Without(small.order, k);
    WithoutAbsent(Without(small.order, k), k);
  }

  lemma OpIncluded(small: Cache, smallCapacity: nat, big: Cache, bigCapacity: nat, op: Op)
    requires Included(small, smallCapacity, big, bigCapacity) && Common(op)
    ensures Included(After(small, smallCapacity, op), smallCapacity, After(big, bigCapacity, op), bigCapacity)
  {
    match op {
      case PutOp(k, v) =>
        PutIncluded(small, smallCapacity, big, bigCapacity, k, v);
      case GetOp(k) =>
        AfterWithin(small, smallCapacity, op);
        AfterWithin(big, bigCapacity, op);
        MoveKeeps(big.order, k, small.vals.Keys);
        if k in small.vals {
          MoveToEndValid(small, k);
        } else {
          WithoutAbsent(small.order, k);
        }
        if k in big.vals {
          MoveToEndValid(big, k);
        }
      case PopOp(k) => PopIncluded(small, smallCapacity, big, bigCapacity, k);
    }
  }

  lemma {:induction false} RunIncluded(small: Cache, smallCapacity: nat, big: Cache, bigCapacity: nat, ops: seq<Op>)
    requires Included(small, smallCapacity, big, bigCapacity)
    requires forall i :: 0 <= i < |ops| ==> Common(ops[i])
    ensures Included(RunOps(small, smallCapacity, ops), smallCapacity, RunOps(big, bigCapacity, ops), bigCapacity)
    decreases |ops|
  {
    if ops != [] {
      OpIncluded(small, smallCapacity, big, bigCapacity, ops[0]);
      RunIncluded(After(small, smallCapacity, ops[0]), smallCapacity, After(big, bigCapacity, ops[0]), bigCapacity,
                  ops[1..]);
    }
  }

  /** Stack inclusion: after any common trace of puts, gets and pops from empty, the smaller
      cache holds a subset of the larger one, with equal values and in the same relative
      order of recency. */
  lemma StackInclusion(smallCapacity: nat, bigCapacity: nat, ops: seq<Op>)
    requires smallCapacity <= bigCapacity
    requires forall i :: 0 <= i < |ops| ==> Common(ops[i])
    ensures var small, big := RunOps(EMPTY, smallCapacity, ops), RunOps(EMPTY, bigCapacity, ops);
            && small.order == Keep(big.order, small.vals.Keys)
            && forall k :: k in small.vals ==> k in big.vals && small.vals[k] == big.vals[k]
  {
    RunIncluded(EMPTY, smallCapacity, EMPTY, bigCapacity, ops);
  }
}

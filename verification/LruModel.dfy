/** The LRU cache with pinned entries: its operations on values. */
module LruModel {
  import opened Wrappers

  type Key(==,!new)
  type Value(==)

  datatype LruError = KeyMissing | NotInCache | AllPinned

  // ---------- recency orders ----------

  function Without(s: seq<Key>, k: Key): (r: seq<Key>)
    ensures forall x :: x in r <==> x in s && x != k
  {
    if s == [] then []
    else if s[0] == k then Without(s[1..], k)
    else [s[0]] + Without(s[1..], k)
  }

  lemma {:induction false} WithoutDistinct(s: seq<Key>, k: Key)
    requires Distinct(s)
    ensures Distinct(Without(s, k))
    ensures |Without(s, k)| == if k in s then |s| - 1 else |s|
  {
    if s != [] {
      WithoutDistinct(s[1..], k);
      assert s[0] !in s[1..];
      assert k in s <==> s[0] == k || k in s[1..];
    }
  }

  lemma {:induction false} WithoutAbsent(s: seq<Key>, k: Key)
    requires k !in s
    ensures Without(s, k) == s
  {
    if s != [] {
      WithoutAbsent(s[1..], k);
    }
  }

  lemma DistinctAppend(s: seq<Key>, k: Key)
    requires Distinct(s) && k !in s
    ensures Distinct(s + [k])
  {
  }

  // ---------- the cache as a value ----------

  /** Keys from least to most recently used, the value of each, and the pinned ones. */
  datatype Cache = Cache(order: seq<Key>, vals: map<Key, Value>, pinned: set<Key>)

  ghost predicate Valid(c: Cache) {
    && Distinct(c.order)
    && (forall k :: k in c.order <==> k in c.vals)
    && c.pinned <= c.vals.Keys
  }

  const EMPTY: Cache := Cache([], map[], {})

  function MoveToEnd(c: Cache, k: Key): Cache {
    c.(order := Without(c.order, k) + [k])
  }

  function Insert(c: Cache, k: Key, v: Value): Cache {
    MoveToEnd(c.(vals := c.vals[k := v]), k)
  }

  function Pop(c: Cache, k: Key): Cache {
    Cache(Without(c.order, k), c.vals - {k}, c.pinned - {k})
  }

  function FirstUnpinned(order: seq<Key>, pinned: set<Key>): (r: Option<Key>)
    ensures r == None <==> forall k :: k in order ==> k in pinned
    ensures r.Some? ==> r.value in order && r.value !in pinned
  {
    if order == [] then None
    else if order[0] !in pinned then Some(order[0])
    else FirstUnpinned(order[1..], pinned)
  }

  /** Position `i` holds the least recently used unpinned key. */
  ghost predicate OldestUnpinnedAt(order: seq<Key>, pinned: set<Key>, i: nat) {
    i < |order| && order[i] !in pinned && forall j :: 0 <= j < i ==> order[j] in pinned
  }

  lemma {:induction false} FirstUnpinnedAt(order: seq<Key>, pinned: set<Key>, i: nat)
    requires OldestUnpinnedAt(order, pinned, i)
    ensures FirstUnpinned(order, pinned) == Some(order[i])
  {
    if i > 0 {
      assert order[0] in pinned;
      FirstUnpinnedAt(order[1..], pinned, i - 1);
    }
  }

  lemma {:induction false} SomeUnpinned(order: seq<Key>, pinned: set<Key>) returns (i: nat)
    requires exists k :: k in order && k !in pinned
    ensures OldestUnpinnedAt(order, pinned, i)
  {
    if order[0] !in pinned {
      i := 0;
    } else {
      var rest := SomeUnpinned(order[1..], pinned);
      i := rest + 1;
    }
  }

  function RemoveOldest(c: Cache, removePinned: bool): Result<Cache, LruError> {
    if c.order == [] then Ok(c)
    else if removePinned then Ok(Pop(c, c.order[0]))
    else
      match FirstUnpinned(c.order, c.pinned)
      case None => Err(AllPinned)
      case Some(k) => Ok(Pop(c, k))
  }

  lemma {:induction false} WithoutAt(s: seq<Key>, i: nat)
    requires Distinct(s) && i < |s|
    ensures Without(s, s[i]) == s[..i] + s[i + 1..]
  {
    if i == 0 {
      WithoutAbsent(s[1..], s[0]);
    } else {
      assert s[0] != s[i];
      WithoutAt(s[1..], i - 1);
      assert s[..i] == [s[0]] + s[1..][..i - 1];
    }
  }

  /** The cache without the entry at position `i`. */
  ghost function WithoutEntry(c: Cache, i: nat): Cache
    requires i < |c.order|
  {
    Cache(c.order[..i] + c.order[i + 1..], c.vals - {c.order[i]}, c.pinned - {c.order[i]})
  }

  lemma PopAt(c: Cache, i: nat)
    requires Valid(c) && i < |c.order|
    ensures Pop(c, c.order[i]) == WithoutEntry(c, i)
  {
    WithoutAt(c.order, i);
  }

  /** Using a key moves it to the end and leaves the others in their order. */
  lemma UseMovesToEnd(c: Cache, i: nat)
    requires Valid(c) && i < |c.order|
    ensures MoveToEnd(c, c.order[i]) == c.(order := c.order[..i] + c.order[i + 1..] + [c.order[i]])
  {
    WithoutAt(c.order, i);
  }

  /** Which entry goes: the least recently used unpinned one, the least recently used one if
      pins do not matter, and none if all are pinned. */
  lemma RemoveOldestAt(c: Cache, removePinned: bool, i: nat)
    requires Valid(c) && i < |c.order|
    ensures !removePinned && OldestUnpinnedAt(c.order, c.pinned, i) ==>
              RemoveOldest(c, removePinned) == Ok(WithoutEntry(c, i))
    ensures removePinned && i == 0 ==> RemoveOldest(c, removePinned) == Ok(WithoutEntry(c, i))
    ensures RemoveOldest(c, removePinned) == Err(AllPinned) <==>
            !removePinned && forall j :: 0 <= j < |c.order| ==> c.order[j] in c.pinned
  {
    if !removePinned && OldestUnpinnedAt(c.order, c.pinned, i) {
      FirstUnpinnedAt(c.order, c.pinned, i);
    }
    PopAt(c, i);
  }

  lemma PopValid(c: Cache, k: Key)
    requires Valid(c)
    ensures Valid(Pop(c, k))
    ensures |Pop(c, k).order| == if k in c.vals then |c.order| - 1 else |c.order|
  {
    WithoutDistinct(c.order, k);
  }

  lemma InsertValid(c: Cache, k: Key, v: Value)
    requires Valid(c)
    ensures Valid(Insert(c, k, v))
    ensures |Insert(c, k, v).order| == if k in c.vals then |c.order| else |c.order| + 1
  {
    WithoutDistinct(c.order, k);
    DistinctAppend(Without(c.order, k), k);
  }

  /** Evicting until at most `capacity` entries are left. */
  function EvictTo(c: Cache, capacity: nat): Result<Cache, LruError>
    requires Valid(c)
    decreases |c.order|
  {
    if |c.order| <= capacity then Ok(c)
    else
      match FirstUnpinned(c.order, c.pinned)
      case None => Err(AllPinned)
      case Some(k) =>
        PopValid(c, k);
        EvictTo(Pop(c, k), capacity)
  }

  function Put(c: Cache, capacity: nat, k: Key, v: Value): Result<Cache, LruError>
    requires Valid(c)
  {
    InsertValid(c, k, v);
    EvictTo(Insert(c, k, v), capacity)
  }

  /** Evicting goes on with the least recently used unpinned entry until the capacity is met,
      and fails when there is none. */
  lemma EvictToAt(c: Cache, capacity: nat, i: nat)
    requires Valid(c) && |c.order| > capacity && i < |c.order|
    ensures OldestUnpinnedAt(c.order, c.pinned, i) ==>
              Valid(WithoutEntry(c, i)) && EvictTo(c, capacity) == EvictTo(WithoutEntry(c, i), capacity)
    ensures (forall j :: 0 <= j < |c.order| ==> c.order[j] in c.pinned) ==> EvictTo(c, capacity) == Err(AllPinned)
  {
    PopValid(c, c.order[i]);
    PopAt(c, i);
    if OldestUnpinnedAt(c.order, c.pinned, i) {
      FirstUnpinnedAt(c.order, c.pinned, i);
    }
  }

  /** The cache with a key put at the end, before anything is evicted. */
  ghost predicate PutAtEnd(c: Cache, k: Key, v: Value, c': Cache) {
    && c'.vals == c.vals[k := v] && c'.pinned == c.pinned
    && if k in c.vals
       then exists i :: 0 <= i < |c.order| && c.order[i] == k && c'.order == c.order[..i] + c.order[i + 1..] + [k]
       else c'.order == c.order + [k]
  }

  lemma InsertPutsAtEnd(c: Cache, k: Key, v: Value)
    requires Valid(c)
    ensures PutAtEnd(c, k, v, Insert(c, k, v))
  {
    if k in c.vals {
      assert k in c.order;
      var i :| 0 <= i < |c.order| && c.order[i] == k;
      WithoutAt(c.order, i);
    } else {
      WithoutAbsent(c.order, k);
    }
  }

  /** A put into a cache that is within its capacity puts the key at the end, never finds all
      entries pinned, and evicts at most one entry: the one whose key is unpinned while all
      keys before it are pinned, counting the new one. */
  lemma PutEvictsAtMostOne(c: Cache, capacity: nat, k: Key, v: Value)
    requires Valid(c) && |c.order| <= capacity
    ensures var inserted := Insert(c, k, v);
            var r := Put(c, capacity, k, v);
            && PutAtEnd(c, k, v, inserted)
            && r.Ok? && Valid(r.value) && |r.value.order| <= capacity
            && if k in c.vals || |c.order| < capacity then r.value == inserted
               else exists i: nat ::
                      OldestUnpinnedAt(inserted.order, c.pinned, i) && r.value == WithoutEntry(inserted, i)
  {
    InsertValid(c, k, v);
    InsertPutsAtEnd(c, k, v);
    var inserted := Insert(c, k, v);
    if |inserted.order| > capacity {
      assert k in inserted.order && k !in c.pinned;
      var i := SomeUnpinned(inserted.order, c.pinned);
      FirstUnpinnedAt(inserted.order, c.pinned, i);
      PopAt(inserted, i);
      PopValid(inserted, inserted.order[i]);
      assert inserted.order[i] in inserted.vals;
      assert EvictTo(WithoutEntry(inserted, i), capacity) == Ok(WithoutEntry(inserted, i));
    }
  }
}

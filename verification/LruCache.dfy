/** The LRU cache in place: an ordered dictionary, a set of pinned keys and a capacity. */
module LruCache {
  import opened Wrappers
  import opened LruModel

  class LRUCache {
    var order: seq<Key>
    var vals: map<Key, Value>
    var pinned: set<Key>
    const capacity: nat

    constructor (capacity: nat)
      ensures this.capacity == capacity && Contents() == EMPTY
    {
      this.capacity := capacity;
      order, vals, pinned := [], map[], {};
    }

    function Contents(): Cache
      reads this
    {
      Cache(order, vals, pinned)
    }

    method MoveKeyToEnd(k: Key)
      modifies this`order
      ensures order == Without(old(order), k) + [k]
    {
      order := Without(order, k) + [k];
    }

    method Touch(k: Key) returns (r: Result<(), LruError>)
      requires LruModel.Valid(Contents())
      modifies this`order
      ensures if k in old(vals) then r.Ok? && Contents() == LruModel.MoveToEnd(old(Contents()), k)
              else r == Err(KeyMissing) && Contents() == old(Contents())
    {
      if k !in vals {
        return Err(KeyMissing);
      }
      MoveKeyToEnd(k);
      r := Ok(());
    }

    method Get(k: Key, defaultValue: Option<Value>) returns (r: Option<Value>)
      modifies this`order
      ensures if k in old(vals) then r == Some(vals[k]) && Contents() == LruModel.MoveToEnd(old(Contents()), k)
              else r == defaultValue && Contents() == old(Contents())
    {
      if k in vals {
        r := Some(vals[k]);
        MoveKeyToEnd(k);
      } else {
        r := defaultValue;
      }
    }

    method Put(k: Key, v: Value) returns (r: Result<(), LruError>)
      requires LruModel.Valid(Contents()) && |order| <= capacity
      modifies this
      ensures r.Ok? && LruModel.Valid(Contents()) && |order| <= capacity
      ensures LruModel.Put(old(Contents()), capacity, k, v) == Ok(Contents())
    {
      LruModel.PutEvictsAtMostOne(Contents(), capacity, k, v);
      InsertValid(Contents(), k, v);
      vals := vals[k := v];
      MoveKeyToEnd(k);
      r := RemoveOldIfNeeded();
    }

    method RemoveOldIfNeeded() returns (r: Result<(), LruError>)
      requires LruModel.Valid(Contents())
      modifies this
      ensures match LruModel.EvictTo(old(Contents()), capacity)
              case Ok(c) => r.Ok? && Contents() == c && LruModel.Valid(c) && |order| <= capacity
              case Err(error) => r == Err(error)
    {
      while |order| > capacity
        invariant LruModel.Valid(Contents())
        invariant LruModel.EvictTo(Contents(), capacity) == LruModel.EvictTo(old(Contents()), capacity)
        decreases |order|
      {
        var unpinned := FirstUnpinned(order, pinned);
        PopValid(Contents(), if unpinned.Some? then unpinned.value else order[0]);
        r := RemoveOldest(false);
        if r.Err? {
          return;
        }
      }
      r := Ok(());
    }

    method Pop(k: Key, defaultValue: Option<Value>) returns (r: Option<Value>)
      modifies this
      ensures r == if k in old(vals) then Some(old(vals)[k]) else defaultValue
      ensures Contents() == LruModel.Pop(old(Contents()), k)
    {
      r := if k in vals then Some(vals[k]) else defaultValue;
      vals := vals - {k};
      order := Without(order, k);
      if k in pinned {
        pinned := pinned - {k};
      }
    }

    method Pin(k: Key) returns (r: Result<(), LruError>)
      modifies this`pinned
      ensures if k in vals then r.Ok? && pinned == old(pinned) + {k} else r == Err(NotInCache) && pinned == old(pinned)
    {
      if k !in vals {
        return Err(NotInCache);
      }
      pinned := pinned + {k};
      r := Ok(());
    }

    method RemoveOldest(removePinned: bool) returns (r: Result<(), LruError>)
      modifies this
      ensures match LruModel.RemoveOldest(old(Contents()), removePinned)
              case Ok(c) => r.Ok? && Contents() == c
              case Err(error) => r == Err(error) && Contents() == old(Contents())
    {
      if |order| == 0 {
        return Ok(());
      }
      var lruKey;
      if !removePinned {
        match FirstUnpinned(order, pinned) {
          case None => return Err(AllPinned);
          case Some(k) => lruKey := k;
        }
      } else {
        lruKey := order[0];
      }
      var _ := Pop(lruKey, None);
      r := Ok(());
    }

    /** Clearing removes every entry, pinned or not, and with them every pin. */
    method Clear()
      requires LruModel.Valid(Contents())
      modifies this
      ensures Contents() == EMPTY
    {
      while |order| > 0
        invariant LruModel.Valid(Contents())
        decreases |order|
      {
        PopValid(Contents(), order[0]);
        var r := RemoveOldest(true);
      }
      assert forall k :: k in vals ==> k in order;
      vals := map[];
    }
  }
}

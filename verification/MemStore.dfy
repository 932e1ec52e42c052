/** The in-memory store as an object. Each method is proved to do to the store's value exactly what the operation of
    the same name in StoreSpec does. */
module MemStore {
  import opened Events
  import opened IdAllocator
  import opened WatchTable
  import Spec = StoreSpec
  import opened WatchRegistry

  /** The number of watchers a store is created for. */
  const MAX_WATCHERS: nat := 32

  /** A store, or a REST layer, takes 33 watchers at a time. */
  lemma TakesThirtyThree<C>(t: Table<C>, c: C)
    requires ValidTable(t, MAX_WATCHERS)
    ensures |t.watchers| <= 33
    ensures Register(t, c).1.None? <==> |t.watchers| == 33
  {
    RegisterKeepsValid(t, MAX_WATCHERS, c);
    PartitionSize(t.ids, MAX_WATCHERS);
    assert |t.watchers| == |t.watchers.Keys|;
  }

  class Mem<V(==)> {
    var db: map<Key, V>
    const watchers: Watchers<V>

    constructor ()
      ensures Valid() && fresh(watchers) && fresh(watchers.Repr())
      ensures Model() == Spec.Store(map[], Table(Alloc(seq(MAX_WATCHERS + 1, i => i), {}), map[]))
      ensures watchers.idAllocator.maxID == MAX_WATCHERS == 32
    {
      db := map[];
      watchers := new Watchers(MAX_WATCHERS);
    }

    ghost predicate Valid()
      reads watchers, watchers.Repr()
    {
      watchers.Valid()
    }

    ghost function Model(): Spec.Store<V>
      reads this, watchers
    {
      Spec.Store(db, watchers.model)
    }

    method Get(key: Key) returns (r: Option<V>)
      ensures r == Lookup(db, key)
    {
      r := if key in db then Some(db[key]) else None;
    }

    /** The stored keys, in the order in which a loop over the map visits them. */
    method List() returns (order: seq<Key>)
      ensures Spec.Enumerates(order, db) && |order| == |db|
    {
      order := [];
      var keys := db.Keys;
      while keys != {}
        invariant keys <= db.Keys && |order| + |keys| == |db.Keys|
        invariant forall i, j :: 0 <= i < j < |order| ==> order[i] != order[j]
        invariant forall k :: k in order <==> k in db && k !in keys
        decreases |keys|
      {
        var k := Pick(keys);
        order := order + [k];
        keys := keys - {k};
      }
    }

    method Put(key: Key, newd: V)
      requires Valid()
      modifies this`db
      ensures Valid() && db == old(db)[key := newd] && watchers.model == old(watchers.model)
    {
      db := db[key := newd];
    }

    method Remove(key: Key)
      requires Valid()
      modifies this`db
      ensures Valid() && db == old(db) - {key} && watchers.model == old(watchers.model)
    {
      db := db - {key};
    }

    method Create(key: Key, data: V) returns (ok: bool)
      requires Valid()
      modifies this`db, watchers`model, watchers.channels
      ensures Valid()
      ensures ok <==> key !in old(db)
      ensures Model() == Spec.Create(old(Model()), key, data)
    {
      var r := Get(key);
      if r.Some? {
        return false;
      }
      Put(key, data);
      watchers.NotifyWatchers(Event(Added, key, data));
      ok := true;
    }

    method Update(key: Key, data: V)
      requires Valid()
      modifies this`db, watchers`model, watchers.channels
      ensures Valid()
      ensures Model() == Spec.Update(old(Model()), key, data)
    {
      var r := Get(key);
      Put(key, data);
      if r.Some? {
        if r.value != data {
          watchers.NotifyWatchers(Event(Modified, key, data));
        }
      } else {
        watchers.NotifyWatchers(Event(Added, key, data));
      }
    }

    /** Deleting an absent key succeeds and does nothing. Watchers are notified before the entry is removed. */
    method Delete(key: Key)
      requires Valid()
      modifies this`db, watchers`model, watchers.channels
      ensures Valid()
      ensures Model() == Spec.Delete(old(Model()), key)
    {
      var r := Get(key);
      if r.None? {
        return;
      }
      watchers.NotifyWatchers(Event(Deleted, key, r.value));
      Remove(key);
    }

    /** The snapshot loop. Nobody holds the channel yet, so when its buffer is full the loop is stuck. */
    method SendSnapshot(ch: Channel<V>, items: seq<Key>) returns (stuck: bool)
      requires forall k :: k in items ==> k in db
      requires ch.sent == [] && !ch.closed
      modifies ch`sent
      ensures stuck <==> |items| > 10
      ensures stuck ==> ch.sent == Spec.Snapshot(db, items)[..10]
      ensures !stuck ==> ch.sent == Spec.Snapshot(db, items)
    {
      for i := 0 to |items|
        invariant i <= CAPACITY && ch.sent == Spec.Snapshot(db, items)[..i]
      {
        if i == CAPACITY {
          return true;
        }
        ch.Send(Event(Added, items[i], db[items[i]]));
      }
      stuck := false;
    }

    /** A new watcher is sent every stored entry and then registered; null when no id is free. `stuck` says that the
        call never returns: the snapshot does not fit the channel, and nothing is registered. */
    method Watch() returns (w: WatchCtx?<V>, stuck: bool, ghost order: seq<Key>)
      requires Valid()
      modifies watchers, watchers.idAllocator
      ensures Valid()
      ensures stuck <==> old(Model()).table.ids.avail != [] && |db| > 10
      ensures w == null <==> old(Model()).table.ids.avail == [] || stuck
      ensures w == null ==> Model() == old(Model())
      ensures w != null ==> Spec.Enumerates(order, db)
                            && (Model(), Some(w.id)) == Spec.Watch(old(Model()), order)
      ensures w != null ==> && fresh(w) && fresh(w.resultCh) && w.watchers == watchers
                            && w.id in watchers.watchers && watchers.watchers[w.id] == w
      ensures watchers.contexts == old(watchers.contexts) + (if w == null then {} else {w})
      ensures watchers.channels == old(watchers.channels) + (if w == null then {} else {w.resultCh})
    {
      var exhausted := watchers.IsExhausted();
      if exhausted {
        return null, false, [];
      }
      var ctx := watchers.GetWatchContext();
      var items := List();
      stuck := SendSnapshot(ctx.resultCh, items);
      order := items;
      if stuck {
        return null, true, order;
      }
      assert watchers.Valid() && watchers.model == old(watchers.model);
      var ok := watchers.Add(ctx);
      if !ok {
        return null, false, order;
      }
      w := ctx;
    }
  }
}

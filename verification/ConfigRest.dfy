/** The Config REST layer as objects: its own watcher table, and the request handlers. Each handler is proved to do to
    the layer's value exactly what the function of the same name in ConfigSpec does. */
module ConfigRest {
  import opened Events
  import opened IdAllocator
  import opened WatchTable
  import opened WatchRegistry
  import opened MemStore
  import Store = StoreSpec
  import opened ConfigKeys
  import Spec = ConfigSpec

  type Object = Spec.Object

  class MWatch {
    const watchers: RestWatchers
    const resultCh: Channel<Object>
    var id: int

    constructor (watchers: RestWatchers)
      ensures this.watchers == watchers && fresh(resultCh)
      ensures resultCh.sent == [] && !resultCh.closed
    {
      this.watchers := watchers;
      resultCh := new Channel();
      id := 0;
    }

    method Stop()
      requires watchers.Valid()
      modifies watchers`watchers, watchers`model, watchers.idAllocator
      ensures watchers.Valid()
      ensures watchers.model == Unregister(old(watchers.model), old(id))
    {
      watchers.Del(id);
    }
  }

  class RestWatchers {
    const idAllocator: Allocator
    var watchers: map<int, MWatch>
    // The table as a value: every watcher stands for the events it has been sent.
    ghost var model: Table<Store.Stream<Object>>
    // The watches and channels that are or have been registered.
    ghost var contexts: set<MWatch>
    ghost var channels: set<Channel<Object>>

    constructor (maxWatchers: nat)
      ensures Valid() && fresh(Repr()) && idAllocator.maxID == maxWatchers
      ensures model == Table(Alloc(seq(maxWatchers + 1, i => i), {}), map[])
    {
      idAllocator := new Allocator(maxWatchers);
      watchers := map[];
      contexts, channels := {}, {};
      model := Table(Alloc(seq(maxWatchers + 1, i => i), {}), map[]);
    }

    ghost function Repr(): set<object>
      reads this
    {
      {this, idAllocator} + contexts + channels
    }

    /** Every registered watch knows its id, its channel is its own and open, and it has been sent what the model
        says. */
    ghost predicate EntriesValid()
      reads this, contexts, channels
    {
      && model.watchers.Keys == watchers.Keys
      && (forall id :: id in watchers ==>
            && watchers[id] in contexts && watchers[id].id == id
            && watchers[id].resultCh in channels && !watchers[id].resultCh.closed
            && watchers[id].resultCh.sent == model.watchers[id])
      && (forall i, j :: i in watchers && j in watchers && i != j ==>
            watchers[i].resultCh != watchers[j].resultCh)
    }

    ghost predicate Valid()
      reads this, Repr()
    {
      && 0 <= idAllocator.maxID && ValidTable(model, idAllocator.maxID)
      && idAllocator.Model() == model.ids
      && EntriesValid()
    }

    method IsExhausted() returns (b: bool)
      requires Valid()
      ensures b <==> model.ids.avail == []
    {
      b := idAllocator.IsExhausted();
    }

    /** `r.watchers[w.id] = w` */
    method Enter(w: MWatch)
      requires EntriesValid() && w !in contexts && w.resultCh !in channels && !w.resultCh.closed
      requires w.id !in watchers && Register(model, w.resultCh.sent).1 == Some(w.id)
      modifies this
      ensures EntriesValid() && watchers == old(watchers)[w.id := w]
      ensures model == Register(old(model), w.resultCh.sent).0
      ensures contexts == old(contexts) + {w} && channels == old(channels) + {w.resultCh}
    {
      watchers := watchers[w.id := w];
      contexts, channels := contexts + {w}, channels + {w.resultCh};
      model := Register(model, w.resultCh.sent).0;
    }

    method Add(w: MWatch) returns (ok: bool)
      requires Valid() && w !in contexts && w.resultCh !in channels && !w.resultCh.closed
      modifies this, idAllocator, w`id
      ensures Valid()
      ensures (model, if ok then Some(w.id) else None) == Register(old(model), w.resultCh.sent)
      ensures contexts == old(contexts) + (if ok then {w} else {})
      ensures channels == old(channels) + (if ok then {w.resultCh} else {})
      ensures ok ==> w.id in watchers && watchers[w.id] == w
    {
      RegisterKeepsValid(model, idAllocator.maxID, w.resultCh.sent);
      w.id, ok := idAllocator.AllocateID();
      if !ok {
        return;
      }
      Enter(w);
    }

    /** Releases the id, whatever the allocator answers, and deletes the entry. The channel stays open. */
    method Del(id: int)
      requires Valid()
      modifies this`watchers, this`model, idAllocator
      ensures Valid()
      ensures watchers == old(watchers) - {id}
      ensures model == UnregisterAlways(old(model), id)
      ensures model == Unregister(old(model), id)
    {
      UnregistersAgree(model, idAllocator.maxID, id);
      var released := idAllocator.ReleaseID(id);
      watchers := watchers - {id};
      model := UnregisterAlways(model, id);
    }

    /** No registered watcher has this channel. */
    ghost predicate Unused(ch: Channel<Object>)
      reads this
    {
      forall id :: id in watchers ==> watchers[id].resultCh != ch
    }

    /** The loop of NotifyWatchers. */
    method SendToAll(ev: Event<Object>)
      requires forall id :: id in watchers ==> watchers[id].resultCh in channels && !watchers[id].resultCh.closed
      requires forall i, j :: i in watchers && j in watchers && i != j ==>
                 watchers[i].resultCh != watchers[j].resultCh
      modifies channels
      ensures forall id :: id in watchers ==>
                && !watchers[id].resultCh.closed
                && watchers[id].resultCh.sent == old(watchers[id].resultCh.sent) + [ev]
      ensures forall ch :: ch in channels && Unused(ch) ==>
                ch.sent == old(ch.sent) && ch.closed == old(ch.closed)
    {
      var ids := watchers.Keys;
      while ids != {}
        invariant ids <= watchers.Keys
        invariant forall id :: id in watchers ==> !watchers[id].resultCh.closed
        invariant forall id :: id in watchers ==>
          watchers[id].resultCh.sent == old(watchers[id].resultCh.sent) + if id in ids then [] else [ev]
        invariant forall ch :: ch in channels && Unused(ch) ==>
          ch.sent == old(ch.sent) && ch.closed == old(ch.closed)
        decreases |ids|
      {
        var id := Pick(ids);
        watchers[id].resultCh.Send(ev);
        ids := ids - {id};
      }
    }

    method NotifyWatchers(ev: Event<Object>)
      requires Valid()
      modifies this`model, channels
      ensures Valid()
      ensures model == Store.Broadcast(old(model), ev)
      ensures forall ch :: ch in channels && Unused(ch) ==>
                ch.sent == old(ch.sent) && ch.closed == old(ch.closed)
    {
      SendToAll(ev);
      model := Store.Broadcast(model, ev);
    }
  }

  /** The request handlers. `targets` is what the data servers behind the target store have been told. */
  class Cfg {
    const isNamespaced: bool
    const store: Mem<Object>
    const watchers: RestWatchers
    var targets: map<Key, Spec.Intents>

    constructor (store: Mem<Object>, targets: map<Key, Spec.Intents>, isNamespaced: bool)
      requires store.Valid()
      ensures Valid() && this.store == store && this.isNamespaced == isNamespaced
      ensures watchers.idAllocator.maxID == MAX_WATCHERS == 32
      ensures Model() == Spec.Rest(store.Model(), targets, Table(Alloc(seq(MAX_WATCHERS + 1, i => i), {}), map[]))
    {
      this.isNamespaced := isNamespaced;
      this.store := store;
      this.targets := targets;
      watchers := new RestWatchers(MAX_WATCHERS);
    }

    ghost predicate Valid()
      reads store.watchers, store.watchers.Repr(), watchers, watchers.Repr()
    {
      && store.Valid() && watchers.Valid()
      && store.watchers.Repr() !! watchers.Repr()
    }

    ghost function Model(): Spec.Rest
      reads this, store, store.watchers, watchers
    {
      Spec.Rest(store.Model(), targets, watchers.model)
    }

    method Get(namespace: Option<string>, name: string) returns (r: Option<Object>, status: Spec.Status)
      requires Valid()
      ensures r == match GetKey(namespace, isNamespaced, name) { case Err => None case Ok(k) => Lookup(store.db, k) }
      ensures status == if GetKey(namespace, isNamespaced, name).Err? then Spec.BadRequest
                        else if r.None? then Spec.NotFound else Spec.Succeeded
    {
      var key := GetKey(namespace, isNamespaced, name);
      if key.Err? {
        return None, Spec.BadRequest;
      }
      r := store.Get(key.value);
      status := if r.None? then Spec.NotFound else Spec.Succeeded;
    }

    // The effects a request can have. Each one leaves the other parts alone.

    method TellTarget(told: map<Key, Spec.Intents>)
      requires Valid()
      modifies this`targets
      ensures Valid() && targets == told
    {
      targets := told;
    }

    method StoreCreate(key: Key, o: Object) returns (ok: bool)
      requires Valid()
      modifies store`db, store.watchers`model, store.watchers.channels
      ensures Valid() && (ok <==> key !in old(store.db))
      ensures store.Model() == Store.Create(old(store.Model()), key, o)
    {
      ok := store.Create(key, o);
      assert store.watchers.Repr() == old(store.watchers.Repr()) && watchers.Repr() == old(watchers.Repr());
    }

    method StoreUpdate(key: Key, o: Object)
      requires Valid()
      modifies store`db, store.watchers`model, store.watchers.channels
      ensures Valid() && store.Model() == Store.Update(old(store.Model()), key, o)
    {
      store.Update(key, o);
      assert store.watchers.Repr() == old(store.watchers.Repr()) && watchers.Repr() == old(watchers.Repr());
    }

    method StoreDelete(key: Key)
      requires Valid()
      modifies store`db, store.watchers`model, store.watchers.channels
      ensures Valid() && store.Model() == Store.Delete(old(store.Model()), key)
    {
      store.Delete(key);
      assert store.watchers.Repr() == old(store.watchers.Repr()) && watchers.Repr() == old(watchers.Repr());
    }

    method Notify(ev: Event<Object>)
      requires Valid()
      modifies watchers`model, watchers.channels
      ensures Valid() && watchers.model == Store.Broadcast(old(watchers.model), ev)
    {
      watchers.NotifyWatchers(ev);
    }

    /** The watch itself when there was an id for it, else null. */
    method AddWatch(ctx: MWatch) returns (w: MWatch?)
      requires Valid() && {ctx, ctx.resultCh} !! watchers.Repr() + store.watchers.Repr() && !ctx.resultCh.closed
      modifies watchers, watchers.idAllocator, ctx`id
      ensures Valid()
      ensures (watchers.model, if w == null then None else Some(w.id))
              == Register(old(watchers.model), ctx.resultCh.sent)
      ensures w != null ==> w == ctx && w.id in watchers.watchers && watchers.watchers[w.id] == w
    {
      var ok := watchers.Add(ctx);
      w := if ok then ctx else null;
    }

    /** The end of an Update that nothing has stopped. */
    method FinishUpdate(told: map<Key, Spec.Intents>, key: Key, o: Object)
      requires Valid()
      modifies this`targets, store`db, store.watchers`model, store.watchers.channels
      modifies watchers`model, watchers.channels
      ensures Valid()
      ensures Model() ==
                Spec.Announce(old(Model()).(targets := told, store := Store.Update(old(store.Model()), key, o)),
                              Added, key, o)
    {
      TellTarget(told);
      StoreUpdate(key, o);
      assert store.Model() == Store.Update(old(store.Model()), key, o);
      Notify(Event(Added, key, o));
    }

    /** The end of a Delete that nothing has stopped. */
    method FinishDelete(told: map<Key, Spec.Intents>, key: Key, o: Object)
      requires Valid()
      modifies this`targets, store`db, store.watchers`model, store.watchers.channels
      modifies watchers`model, watchers.channels
      ensures Valid()
      ensures Model() ==
                Spec.Announce(old(Model()).(targets := told, store := Store.Delete(old(store.Model()), key)),
                              Deleted, key, o)
    {
      TellTarget(told);
      StoreDelete(key);
      assert store.Model() == Store.Delete(old(store.Model()), key);
      Notify(Event(Deleted, key, o));
    }

    method Create(namespace: Option<string>, obj: Object, uid: string, intentOk: bool) returns (status: Spec.Status)
      requires Valid()
      modifies this`targets, store`db, store.watchers`model, store.watchers.channels
      modifies watchers`model, watchers.channels
      ensures Valid()
      ensures (Model(), status) == Spec.Create(old(Model()), namespace, isNamespaced, obj, uid, intentOk)
    {
      var keys := GetKeys(namespace, isNamespaced, obj.name, obj.labels);
      if keys.Err? {
        return Spec.BadRequest;
      }
      var (key, targetKey) := keys.value;
      var newObj := obj.(uid := uid);
      if !newObj.isConfig {
        return Spec.BadRequest;
      }
      if |newObj.blobs| == 0 {
        return Spec.Panicked;
      }
      if targetKey !in targets || !intentOk {
        return Spec.InternalError;
      }
      TellTarget(Spec.SetIntent(targets, targetKey, newObj));
      var created := StoreCreate(key, newObj);
      if !created {
        return Spec.InternalError;
      }
      Notify(Event(Added, key, newObj));
      status := Spec.Succeeded;
    }

    method Update(namespace: Option<string>, name: string, updated: Result<Object>, forceAllowCreate: bool,
                  intentOk: bool)
      returns (status: Spec.Status)
      requires Valid()
      modifies this`targets, store`db, store.watchers`model, store.watchers.channels
      modifies watchers`model, watchers.channels
      ensures Valid()
      ensures (Model(), status)
              == Spec.Update(old(Model()), namespace, isNamespaced, name, updated, forceAllowCreate, intentOk)
    {
      var k := GetKey(namespace, isNamespaced, name);
      if k.Err? {
        return Spec.BadRequest;
      }
      var key := k.value;
      var oldObj := store.Get(key);
      if oldObj.None? && !forceAllowCreate {
        return Spec.Refused;
      }
      if oldObj.None? || !oldObj.value.isConfig {
        return Spec.BadRequest;
      }
      if updated.Err? {
        return Spec.Refused;
      }
      var newConfig := updated.value;
      if !newConfig.isConfig {
        return Spec.BadRequest;
      }
      var targetKey := GetTargetKey(newConfig.labels);
      if targetKey.Err? {
        return Spec.BadRequest;
      }
      if targetKey.value !in targets {
        return Spec.InternalError;
      }
      if |newConfig.blobs| == 0 {
        return Spec.Panicked;
      }
      if !intentOk {
        return Spec.InternalError;
      }
      FinishUpdate(Spec.SetIntent(targets, targetKey.value, newConfig), key, newConfig);
      status := Spec.Succeeded;
    }

    method Delete(namespace: Option<string>, name: string, intentOk: bool) returns (status: Spec.Status)
      requires Valid()
      modifies this`targets, store`db, store.watchers`model, store.watchers.channels
      modifies watchers`model, watchers.channels
      ensures Valid()
      ensures (Model(), status) == Spec.Delete(old(Model()), namespace, isNamespaced, name, intentOk)
    {
      var k := GetKey(namespace, isNamespaced, name);
      if k.Err? {
        return Spec.BadRequest;
      }
      var key := k.value;
      var obj := store.Get(key);
      if obj.None? {
        return Spec.NotFound;
      }
      if !obj.value.isConfig {
        return Spec.BadRequest;
      }
      var targetKey := GetTargetKey(obj.value.labels);
      if targetKey.Err? {
        return Spec.BadRequest;
      }
      if targetKey.value !in targets || !intentOk {
        return Spec.InternalError;
      }
      FinishDelete(Spec.DeleteIntent(targets, targetKey.value, obj.value), key, obj.value);
      status := Spec.Succeeded;
    }

    /** A new watch whose channel holds a snapshot, if it fits. List returns every stored object whatever the
        namespace: both arms of its filter append. */
    method Listed() returns (w: MWatch, stuck: bool, ghost order: seq<Key>)
      requires Valid()
      ensures fresh(w) && fresh(w.resultCh) && !w.resultCh.closed && w.watchers == watchers
      ensures Valid() && {w, w.resultCh} !! watchers.Repr() + store.watchers.Repr()
      ensures stuck <==> |store.db| > 10
      ensures Store.Enumerates(order, store.db)
      ensures !stuck ==> w.resultCh.sent == Store.Snapshot(store.db, order)
    {
      w := new MWatch(watchers);
      var items := store.List();
      stuck := store.SendSnapshot(w.resultCh, items);
      order := items;
    }

    /** Null when the table is full or the request does not fit the resource's scope. `stuck` says that the call never
        returns. */
    method Watch(namespace: Option<string>) returns (w: MWatch?, stuck: bool, ghost order: seq<Key>)
      requires Valid()
      modifies watchers, watchers.idAllocator
      ensures Valid()
      ensures stuck <==> old(Model()).table.ids.avail != [] && namespace.Some? == isNamespaced && |store.db| > 10
      ensures w == null <==> old(Model()).table.ids.avail == [] || namespace.Some? != isNamespaced || stuck
      ensures w == null ==> Model() == old(Model())
      ensures w != null ==> Store.Enumerates(order, store.db)
                            && (Model(), Some(w.id)) == Spec.Watch(old(Model()), namespace, isNamespaced, order)
      ensures w != null ==> && fresh(w) && fresh(w.resultCh) && w.watchers == watchers
                            && w.id in watchers.watchers && watchers.watchers[w.id] == w
    {
      var exhausted := watchers.IsExhausted();
      if exhausted || namespace.Some? != isNamespaced {
        return null, false, [];
      }
      var ctx;
      ctx, stuck, order := Listed();
      if stuck {
        return null, true, order;
      }
      w := AddWatch(ctx);
    }
  }
}

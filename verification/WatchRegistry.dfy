/** The store's watcher table as an object: contexts with their channels, registered under allocated ids. */
module WatchRegistry {
  import opened Events
  import opened IdAllocator
  import opened WatchTable
  import opened StoreSpec

  /** A channel, seen from the sending side: everything ever sent, and whether it has been closed. */
  class Channel<V> {
    var sent: Stream<V>
    var closed: bool

    constructor ()
      ensures sent == [] && !closed
    {
      sent, closed := [], false;
    }

    /** A send on a closed channel would panic. */
    method Send(e: Event<V>)
      requires !closed
      modifies this`sent
      ensures sent == old(sent) + [e]
    {
      sent := sent + [e];
    }

    /** A second close would panic. */
    method Close()
      requires !closed
      modifies this`closed
      ensures closed
    {
      closed := true;
    }
  }

  /** A loop over a map visits its keys in any order. */
  method Pick<T>(s: set<T>) returns (x: T)
    requires s != {}
    ensures x in s
  {
    x :| x in s;
  }

  class WatchCtx<V> {
    const watchers: Watchers<V>
    const resultCh: Channel<V>
    var id: int

    constructor (watchers: Watchers<V>)
      ensures this.watchers == watchers && fresh(resultCh)
      ensures resultCh.sent == [] && !resultCh.closed
    {
      this.watchers := watchers;
      resultCh := new Channel();
      id := 0;
    }

    /** Stop removes whatever is registered under the remembered id. */
    method Stop()
      requires watchers.Valid()
      modifies watchers`watchers, watchers`model, watchers.idAllocator, watchers.channels
      ensures watchers.Valid()
      ensures watchers.model == Unregister(old(watchers.model), old(id))
      ensures old(id in watchers.watchers) ==> old(watchers.watchers[id]).resultCh.closed
    {
      watchers.Del(id);
    }
  }

  class Watchers<V> {
    const idAllocator: Allocator
    var watchers: map<int, WatchCtx<V>>
    // The table as a value: every watcher stands for the events it has been sent.
    ghost var model: Table<Stream<V>>
    // The contexts and channels that are or have been registered.
    ghost var contexts: set<WatchCtx<V>>
    ghost var channels: set<Channel<V>>

    constructor (maxWatchers: nat)
      ensures Valid() && fresh(Repr()) && idAllocator.maxID == maxWatchers
      ensures model == Table(Alloc(seq(maxWatchers + 1, i => i), {}), map[])
    {
      idAllocator := new Allocator(maxWatchers);
      watchers := map[];
      contexts, channels := {}, {};
      model := Table(Alloc(seq(maxWatchers + 1, i => i), {}), map[]);
    }

    ghost function Repr(): set<object>
      reads this
    {
      {this, idAllocator} + contexts + channels
    }

    /** Every registered context knows its id, its channel is its own and open, and it has been sent what the
        model says. */
    ghost predicate EntriesValid()
      reads this, contexts, channels
    {
      && model.watchers.Keys == watchers.Keys
      && (forall id :: id in watchers ==>
            && watchers[id] in contexts && watchers[id].id == id
            && watchers[id].resultCh in channels && !watchers[id].resultCh.closed
            && watchers[id].resultCh.sent == model.watchers[id])
      && (forall i, j :: i in watchers && j in watchers && i != j ==>
            watchers[i].resultCh != watchers[j].resultCh)
    }

    ghost predicate Valid()
      reads this, Repr()
    {
      && 0 <= idAllocator.maxID && ValidTable(model, idAllocator.maxID)
      && idAllocator.Model() == model.ids
      && EntriesValid()
    }

    method IsExhausted() returns (b: bool)
      requires Valid()
      ensures b <==> model.ids.avail == []
    {
      b := idAllocator.IsExhausted();
    }

    method Len() returns (n: nat)
      requires Valid()
      ensures n == |model.watchers|
    {
      n := |watchers|;
      assert n == |watchers.Keys|;
    }

    method GetWatchContext() returns (w: WatchCtx<V>)
      ensures fresh(w) && fresh(w.resultCh) && w.watchers == this
      ensures w.resultCh.sent == [] && !w.resultCh.closed
    {
      w := new WatchCtx(this);
    }

    /** `r.watchers[w.id] = w` */
    method Enter(w: WatchCtx<V>)
      requires EntriesValid() && w !in contexts && w.resultCh !in channels && !w.resultCh.closed
      requires w.id !in watchers && Register(model, w.resultCh.sent).1 == Some(w.id)
      modifies this
      ensures EntriesValid() && watchers == old(watchers)[w.id := w]
      ensures model == Register(old(model), w.resultCh.sent).0
      ensures contexts == old(contexts) + {w} && channels == old(channels) + {w.resultCh}
    {
      watchers := watchers[w.id := w];
      contexts, channels := contexts + {w}, channels + {w.resultCh};
      model := Register(model, w.resultCh.sent).0;
    }

    /** Registers w under the oldest free id and tells w that id. */
    method Add(w: WatchCtx<V>) returns (ok: bool)
      requires Valid() && w !in contexts && w.resultCh !in channels && !w.resultCh.closed
      modifies this, idAllocator, w`id
      ensures Valid()
      ensures (model, if ok then Some(w.id) else None) == Register(old(model), w.resultCh.sent)
      ensures contexts == old(contexts) + (if ok then {w} else {})
      ensures channels == old(channels) + (if ok then {w.resultCh} else {})
      ensures ok ==> w.id in watchers && watchers[w.id] == w
    {
      RegisterKeepsValid(model, idAllocator.maxID, w.resultCh.sent);
      w.id, ok := idAllocator.AllocateID();
      if !ok {
        return;
      }
      Enter(w);
    }

    /** Unregisters and closes the watcher of that id, if there is one. */
    method Del(id: int)
      requires Valid()
      modifies this`watchers, this`model, idAllocator, channels
      ensures Valid()
      ensures model == Unregister(old(model), id)
      ensures watchers == old(watchers) - {id}
      ensures id in old(watchers) ==> old(watchers)[id].resultCh.closed
      ensures forall ch :: ch in channels ==>
                && ch.sent == old(ch.sent)
                && (ch.closed <==> old(ch.closed) || (id in old(watchers) && ch == old(watchers)[id].resultCh))
    {
      if id !in watchers {
        return;
      }
      var wctx := watchers[id];
      var released := idAllocator.ReleaseID(id);
      watchers := watchers - {id};
      model := Unregister(model, id);
      wctx.resultCh.Close();
    }

    /** No registered watcher has this channel. */
    ghost predicate Unused(ch: Channel<V>)
      reads this
    {
      forall id :: id in watchers ==> watchers[id].resultCh != ch
    }

    /** The loop of NotifyWatchers. */
    method SendToAll(ev: Event<V>)
      requires forall id :: id in watchers ==> watchers[id].resultCh in channels && !watchers[id].resultCh.closed
      requires forall i, j :: i in watchers && j in watchers && i != j ==>
                 watchers[i].resultCh != watchers[j].resultCh
      modifies channels
      ensures forall id :: id in watchers ==>
                && !watchers[id].resultCh.closed
                && watchers[id].resultCh.sent == old(watchers[id].resultCh.sent) + [ev]
      ensures forall ch :: ch in channels && Unused(ch) ==>
                ch.sent == old(ch.sent) && ch.closed == old(ch.closed)
    {
      var ids := watchers.Keys;
      while ids != {}
        invariant ids <= watchers.Keys
        invariant forall id :: id in watchers ==> !watchers[id].resultCh.closed
        invariant forall id :: id in watchers ==>
          watchers[id].resultCh.sent == old(watchers[id].resultCh.sent) + if id in ids then [] else [ev]
        invariant forall ch :: ch in channels && Unused(ch) ==>
          ch.sent == old(ch.sent) && ch.closed == old(ch.closed)
        decreases |ids|
      {
        var id := Pick(ids);
        watchers[id].resultCh.Send(ev);
        ids := ids - {id};
      }
    }

    /** Sends the event to every registered watcher, in some order. */
    method NotifyWatchers(ev: Event<V>)
      requires Valid()
      modifies this`model, channels
      ensures Valid()
      ensures model == Broadcast(old(model), ev)
      ensures forall ch :: ch in channels && Unused(ch) ==>
                ch.sent == old(ch.sent) && ch.closed == old(ch.closed)
    {
      SendToAll(ev);
      model := Broadcast(model, ev);
    }
  }
}

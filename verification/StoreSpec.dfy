/** The in-memory store as a value, one operation at a time: the map, and the watcher table with the events sent to
    each registered watcher. */
module StoreSpec {
  import opened Events
  import opened WatchTable

  type Stream<V> = seq<Event<V>>

  datatype Store<V> = Store(db: map<Key, V>, table: Table<Stream<V>>)

  /** NotifyWatchers: every registered watcher is sent the event. */
  function Broadcast<V>(t: Table<Stream<V>>, e: Event<V>): Table<Stream<V>> {
    t.(watchers := map id | id in t.watchers :: t.watchers[id] + [e])
  }

  function Create<V>(s: Store<V>, k: Key, v: V): Store<V> {
    if k in s.db then s else Store(s.db[k := v], Broadcast(s.table, Event(Added, k, v)))
  }

  function Update<V(==)>(s: Store<V>, k: Key, v: V): Store<V> {
    var db := s.db[k := v];
    if k !in s.db then Store(db, Broadcast(s.table, Event(Added, k, v)))
    else if s.db[k] != v then Store(db, Broadcast(s.table, Event(Modified, k, v)))
    else Store(db, s.table)
  }

  function Delete<V>(s: Store<V>, k: Key): Store<V> {
    if k !in s.db then s else Store(s.db - {k}, Broadcast(s.table, Event(Deleted, k, s.db[k])))
  }

  /** `order` is an order in which a loop over the map may visit it. */
  ghost predicate Enumerates<V>(order: seq<Key>, db: map<Key, V>) {
    && (forall i, j :: 0 <= i < j < |order| ==> order[i] != order[j])
    && (forall k :: k in order <==> k in db)
  }

  /** The snapshot of a Watch: an Added event for every stored entry. */
  function Snapshot<V>(db: map<Key, V>, order: seq<Key>): Stream<V>
    requires forall k :: k in order ==> k in db
  {
    seq(|order|, i requires 0 <= i < |order| => Event(Added, order[i], db[order[i]]))
  }

  /** Watch: the id under which the new watcher is registered, if any is free. */
  function Watch<V>(s: Store<V>, order: seq<Key>): (Store<V>, Option<int>)
    requires forall k :: k in order ==> k in s.db
  {
    var (t, id) := Register(s.table, Snapshot(s.db, order));
    (s.(table := t), id)
  }

  function Stop<V>(s: Store<V>, id: int): Store<V> {
    s.(table := Unregister(s.table, id))
  }

  // ---------- Runs ----------

  datatype Op<V> =
    | CreateOp(key: Key, value: V)
    | UpdateOp(key: Key, value: V)
    | DeleteOp(key: Key)
    | WatchOp(order: seq<Key>)
    | StopOp(id: int)

  ghost predicate Legal<V>(s: Store<V>, op: Op<V>) {
    op.WatchOp? ==> Enumerates(op.order, s.db)
  }

  function Step<V(==)>(s: Store<V>, op: Op<V>): Store<V>
    requires op.WatchOp? ==> forall k :: k in op.order ==> k in s.db
  {
    match op
    case CreateOp(k, v) => Create(s, k, v)
    case UpdateOp(k, v) => Update(s, k, v)
    case DeleteOp(k) => Delete(s, k)
    case WatchOp(order) => Watch(s, order).0
    case StopOp(id) => Stop(s, id)
  }

  ghost predicate LegalRun<V>(s: Store<V>, ops: seq<Op<V>>)
    decreases |ops|
  {
    ops == [] || (Legal(s, ops[0]) && LegalRun(Step(s, ops[0]), ops[1..]))
  }

  ghost function Run<V>(s: Store<V>, ops: seq<Op<V>>): Store<V>
    requires LegalRun(s, ops)
    decreases |ops|
  {
    if ops == [] then s else Run(Step(s, ops[0]), ops[1..])
  }

  // ---------- Streams are truthful and replay to the store ----------

  ghost predicate MirrorsTruthfully<V>(s: Store<V>) {
    forall id :: id in s.table.watchers ==>
      Truthful(s.table.watchers[id]) && Replay(s.table.watchers[id]) == s.db
  }

  lemma {:induction false} SnapshotReplays<V>(db: map<Key, V>, order: seq<Key>)
    requires forall k :: k in order ==> k in db
    requires forall i, j :: 0 <= i < j < |order| ==> order[i] != order[j]
    ensures Truthful(Snapshot(db, order))
    ensures Replay(Snapshot(db, order)) == map k | k in order :: db[k]
  {
    if order != [] {
      var n := |order| - 1;
      var e := Event(Added, order[n], db[order[n]]);
      SnapshotReplays(db, order[..n]);
      assert Snapshot(db, order) == Snapshot(db, order[..n]) + [e];
      ReplayAppend(Snapshot(db, order[..n]), e);
      TruthfulAppend(Snapshot(db, order[..n]), e);
      assert forall k :: k in order <==> k in order[..n] || k == order[n];
    }
  }

  /** A truthful event sent to every watcher that mirrors db keeps them truthful, and they all mirror its effect. */
  lemma BroadcastMirrors<V>(s: Store<V>, e: Event<V>, db: map<Key, V>)
    requires MirrorsTruthfully(s) && TruthfulEvent(s.db, e) && Apply(s.db, e) == db
    ensures MirrorsTruthfully(Store(db, Broadcast(s.table, e)))
  {
    forall id | id in s.table.watchers
      ensures Truthful(s.table.watchers[id] + [e]) && Replay(s.table.watchers[id] + [e]) == db
    {
      ReplayAppend(s.table.watchers[id], e);
      TruthfulAppend(s.table.watchers[id], e);
    }
  }

  lemma RegisterMirrors<V>(t: Table<Stream<V>>, snapshot: Stream<V>, db: map<Key, V>)
    requires forall id :: id in t.watchers ==> Replay(t.watchers[id]) == db
    requires Replay(snapshot) == db
    ensures forall id :: id in Register(t, snapshot).0.watchers ==> Replay(Register(t, snapshot).0.watchers[id]) == db
    ensures Truthful(snapshot) && (forall id :: id in t.watchers ==> Truthful(t.watchers[id])) ==>
              forall id :: id in Register(t, snapshot).0.watchers ==> Truthful(Register(t, snapshot).0.watchers[id])
  {
  }

  lemma SnapshotIsStore<V>(db: map<Key, V>, order: seq<Key>)
    requires Enumerates(order, db)
    ensures Truthful(Snapshot(db, order)) && Replay(Snapshot(db, order)) == db
  {
    SnapshotReplays(db, order);
    assert (map k | k in order :: db[k]) == db;
  }

  lemma WatchMirrors<V>(s: Store<V>, order: seq<Key>, maxID: nat)
    requires ValidTable(s.table, maxID) && MirrorsTruthfully(s) && Enumerates(order, s.db)
    ensures ValidTable(Watch(s, order).0.table, maxID) && MirrorsTruthfully(Watch(s, order).0)
  {
    SnapshotIsStore(s.db, order);
    RegisterMirrors(s.table, Snapshot(s.db, order), s.db);
    RegisterKeepsValid(s.table, maxID, Snapshot(s.db, order));
  }

  lemma WriteMirrors<V>(s: Store<V>, op: Op<V>)
    requires MirrorsTruthfully(s) && (op.CreateOp? || op.UpdateOp? || op.DeleteOp?)
    ensures MirrorsTruthfully(Step(s, op))
  {
    match op
    case CreateOp(k, v) =>
      if k !in s.db { BroadcastMirrors(s, Event(Added, k, v), s.db[k := v]); }
    case UpdateOp(k, v) =>
      if k !in s.db {
        BroadcastMirrors(s, Event(Added, k, v), s.db[k := v]);
      } else if s.db[k] != v {
        BroadcastMirrors(s, Event(Modified, k, v), s.db[k := v]);
      } else {
        assert s.db[k := v] == s.db;
      }
    case DeleteOp(k) =>
      if k in s.db { BroadcastMirrors(s, Event(Deleted, k, s.db[k]), s.db - {k}); }
  }

  lemma StepMirrors<V>(s: Store<V>, op: Op<V>, maxID: nat)
    requires ValidTable(s.table, maxID) && MirrorsTruthfully(s) && Legal(s, op)
    ensures ValidTable(Step(s, op).table, maxID) && MirrorsTruthfully(Step(s, op))
  {
    match op
    case WatchOp(order) => WatchMirrors(s, order, maxID);
    case StopOp(id) => UnregisterKeepsValid(s.table, maxID, id);
    case _ => WriteMirrors(s, op);
  }

  /** After every sequential run of Create, Update, Delete, Watch and Stop, stale Stops included: each registered
      watcher's stream is truthful event by event, and replaying it gives exactly the store. */
  lemma {:induction false} RunMirrors<V>(s: Store<V>, ops: seq<Op<V>>, maxID: nat)
    requires ValidTable(s.table, maxID) && MirrorsTruthfully(s) && LegalRun(s, ops)
    ensures ValidTable(Run(s, ops).table, maxID) && MirrorsTruthfully(Run(s, ops))
    decreases |ops|
  {
    if ops != [] {
      StepMirrors(s, ops[0], maxID);
      RunMirrors(Step(s, ops[0]), ops[1..], maxID);
    }
  }

  /** A watcher that is not stopped only gains events: what it was sent stays sent, in order. */
  lemma {:induction false} StreamsOnlyGrow<V>(s: Store<V>, ops: seq<Op<V>>, maxID: nat, id: int)
    requires ValidTable(s.table, maxID) && id in s.table.watchers && LegalRun(s, ops)
    requires forall i :: 0 <= i < |ops| ==> ops[i] != StopOp(id)
    ensures id in Run(s, ops).table.watchers && s.table.watchers[id] <= Run(s, ops).table.watchers[id]
    decreases |ops|
  {
    if ops != [] {
      var s' := Step(s, ops[0]);
      match ops[0] {
        case WatchOp(order) => RegisterKeepsValid(s.table, maxID, Snapshot(s.db, order));
        case StopOp(other) => UnregisterKeepsValid(s.table, maxID, other);
        case _ =>
      }
      assert s.table.watchers[id] <= s'.table.watchers[id];
      StreamsOnlyGrow(s', ops[1..], maxID, id);
    }
  }

  // ---------- What one operation does ----------

  predicate IsWrite<V>(op: Op<V>) { op.CreateOp? || op.UpdateOp? || op.DeleteOp? }

  /** The written key reads as written, unless it is a Create of a stored key; every other key reads as before. */
  lemma ReadYourWrites<V>(s: Store<V>, op: Op<V>, j: Key)
    requires IsWrite(op)
    ensures var before, after := Lookup(s.db, j), Lookup(Step(s, op).db, j);
            if j != op.key then after == before
            else match op
                 case CreateOp(_, v) => after == if before.Some? then before else Some(v)
                 case UpdateOp(_, v) => after == Some(v)
                 case _ => after == None
  {
  }

  /** What a client has to be told about k, given the store before and after. */
  function Change<V(==)>(before: map<Key, V>, after: map<Key, V>, k: Key): Stream<V> {
    match (Lookup(before, k), Lookup(after, k))
    case (None, None) => []
    case (None, Some(v)) => [Event(Added, k, v)]
    case (Some(o), None) => [Event(Deleted, k, o)]
    case (Some(o), Some(v)) => if o == v then [] else [Event(Modified, k, v)]
  }

  /** Every registered watcher, and nobody else, is told exactly the change of the written key. */
  lemma WritesTellTheChange<V>(s: Store<V>, op: Op<V>)
    requires IsWrite(op)
    ensures var s' := Step(s, op);
            && s'.table.ids == s.table.ids && s'.table.watchers.Keys == s.table.watchers.Keys
            && forall id :: id in s.table.watchers ==>
                 s'.table.watchers[id] == s.table.watchers[id] + Change(s.db, s'.db, op.key)
  {
    assert forall id :: id in s.table.watchers ==> s.table.watchers[id] + [] == s.table.watchers[id];
  }

  /** Watch and Stop leave the store alone, and the other watchers with what they have been sent. */
  lemma WatchersComeAndGo<V>(s: Store<V>, op: Op<V>, maxID: nat, id: int)
    requires ValidTable(s.table, maxID) && Legal(s, op) && (op.WatchOp? || op.StopOp?)
    requires id in s.table.watchers && op != StopOp(id)
    ensures Step(s, op).db == s.db
    ensures id in Step(s, op).table.watchers && Step(s, op).table.watchers[id] == s.table.watchers[id]
  {
    match op
    case WatchOp(order) => RegisterAddsOnly(s.table, maxID, Snapshot(s.db, order));
    case StopOp(other) => UnregisterRemovesOnly(s.table, maxID, other);
  }
}

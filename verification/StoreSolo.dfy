/** The interleaving model and the sequential model agree: every run of one goroutine's actions that starts with an
    operation and ends with its return, and that nobody interrupts, has exactly the effect StoreSpec gives that
    operation. */
module StoreSolo {
  import opened Events
  import opened WatchTable
  import Spec = StoreSpec
  import opened Interleaving

  ghost predicate ChansExist<V>(s: State<V>) {
    forall id :: id in s.table.watchers ==> s.table.watchers[id] < |s.chans|
  }

  /** The store and the streams of its registered watchers, goroutines left out. */
  ghost function Abs<V>(s: State<V>): Spec.Store<V>
    requires ChansExist(s)
  {
    Spec.Store(s.db,
      Table(s.table.ids, map id | id in s.table.watchers :: s.chans[s.table.watchers[id]].sent))
  }

  /** An interleaving starts from the new store: nothing stored, nobody watching, all ids free in ascending order. */
  lemma InitIsNew<V>(goroutines: nat, maxID: nat)
    ensures ChansExist(Init<V>(goroutines, maxID))
    ensures Abs(Init<V>(goroutines, maxID)).db == map[] && Abs(Init<V>(goroutines, maxID)).table.watchers == map[]
    ensures Abs(Init<V>(goroutines, maxID)).table.ids.inUse == {}
    ensures Abs(Init<V>(goroutines, maxID)).table.ids.avail == seq(maxID + 1, i => i)
    ensures |Init<V>(goroutines, maxID).threads| == goroutines
    ensures forall p :: p in Init<V>(goroutines, maxID).threads ==> p.Idle?
  {
  }

  lemma SameStreams<V>(s: State<V>, t: Table<Spec.Stream<V>>)
    requires ChansExist(s) && t.ids == s.table.ids && t.watchers.Keys == s.table.watchers.Keys
    requires forall id :: id in s.table.watchers ==> t.watchers[id] == s.chans[s.table.watchers[id]].sent
    ensures Abs(s) == Spec.Store(s.db, t)
  {
    var m := Abs(s).table.watchers;
    assert forall id :: id in m <==> id in t.watchers;
    assert forall id :: id in m ==> m[id] == t.watchers[id];
  }

  // ---------- Uninterrupted runs ----------

  predicate By<V>(a: Action<V>, t: nat) { !a.Stop? && !a.Receive? && a.t == t }

  ghost predicate Busy<V>(s: State<V>, t: nat) { t < |s.threads| && !s.threads[t].Idle? }

  /** Every action is goroutine t's, and t is inside an operation all the time between the first and the last. */
  ghost predicate Alone<V>(s: State<V>, t: nat, acts: seq<Action<V>>)
    requires CanRun(s, acts)
  {
    && acts != [] && By(acts[|acts| - 1], t)
    && (|acts| > 1 ==> Alone(s, t, acts[..|acts| - 1]) && Busy(After(s, acts[..|acts| - 1]), t))
  }

  lemma {:induction false} RunKeepsSafe<V>(s: State<V>, acts: seq<Action<V>>, maxID: nat)
    requires Safe(s, maxID) && CanRun(s, acts)
    ensures Safe(After(s, acts), maxID)
  {
    if acts != [] {
      RunKeepsSafe(s, acts[..|acts| - 1], maxID);
      StepKeepsSafe(After(s, acts[..|acts| - 1]), acts[|acts| - 1], maxID);
    }
  }

  // ---------- NotifyWatchers ----------

  /** The watchers of s0, except the pending ones, have been sent ev, once, and nothing else. */
  ghost predicate Told<V>(s0: State<V>, s: State<V>, ev: Event<V>, pending: set<int>)
    requires ChansExist(s0)
  {
    && s.table == s0.table && |s.chans| == |s0.chans|
    && forall id :: id in s0.table.watchers ==>
         var c := s0.table.watchers[id];
         s.chans[c].sent == if id in pending then s0.chans[c].sent else s0.chans[c].sent + [ev]
  }

  function AfterNotice<V>(ev: Event<V>): Phase<V> {
    if ev.kind.Deleted? then Removing(ev.key) else Idle
  }

  /** Goroutine t is inside, or has just left, the NotifyWatchers call it was about to make in s0. */
  ghost predicate Notifying<V>(s0: State<V>, s: State<V>, t: nat, ev: Event<V>)
    requires ChansExist(s0)
  {
    && t < |s0.threads| == |s.threads| && s.threads == s0.threads[t := s.threads[t]] && s.db == s0.db
    && match s.threads[t]
       case Announce(e) => e == ev && s.table == s0.table && s.chans == s0.chans
       case Sending(e, pending) => e == ev && Told(s0, s, ev, pending)
       case p => p == AfterNotice(ev) && Told(s0, s, ev, {})
  }

  lemma SendTells<V>(s0: State<V>, s: State<V>, t: nat, id: int, ev: Event<V>, maxID: nat)
    requires Safe(s, maxID) && ChansExist(s0) && Enabled(s, Send(t, id)) && s.threads[t].ev == ev
    requires Told(s0, s, ev, s.threads[t].pending)
    ensures Told(s0, Next(s, Send(t, id)), ev, s.threads[t].pending - {id})
  {
    var s' := Next(s, Send(t, id));
    forall i | i in s0.table.watchers
      ensures var c := s0.table.watchers[i];
              s'.chans[c].sent == if i in s.threads[t].pending - {id} then s0.chans[c].sent
                                  else s0.chans[c].sent + [ev]
    {
      assert i != id ==> s.table.watchers[i] != s.table.watchers[id];
    }
  }

  lemma NotifyingStep<V>(s0: State<V>, s: State<V>, t: nat, ev: Event<V>, a: Action<V>, maxID: nat)
    requires Safe(s, maxID) && ChansExist(s0) && Notifying(s0, s, t, ev)
    requires s.threads[t].Announce? || s.threads[t].Sending?
    requires Enabled(s, a) && By(a, t)
    ensures Notifying(s0, Next(s, a), t, ev)
  {
    if a.Send? {
      SendTells(s0, s, t, a.id, ev, maxID);
    }
  }

  lemma ToldAll<V>(s0: State<V>, s: State<V>, ev: Event<V>)
    requires ChansExist(s0) && Told(s0, s, ev, {})
    ensures ChansExist(s) && Abs(s) == Spec.Store(s.db, Spec.Broadcast(Abs(s0).table, ev))
  {
    SameStreams(s, Spec.Broadcast(Abs(s0).table, ev));
  }

  /** The actions of a NotifyWatchers call. */
  predicate Notifies<V>(a: Action<V>, t: nat) { (a.Enter? || a.Send? || a.Leave?) && a.t == t }

  /** However far a call of NotifyWatchers has come, and in whatever order it visits the watchers: those visited have
      been sent the event once, and when it has returned the effect is the sequential broadcast. */
  lemma {:induction false} NotifySolo<V>(s: State<V>, t: nat, acts: seq<Action<V>>, maxID: nat)
    requires Safe(s, maxID) && t < |s.threads| && s.threads[t].Announce?
    requires CanRun(s, acts) && forall i :: 0 <= i < |acts| ==> Notifies(acts[i], t)
    ensures var ev, s' := s.threads[t].ev, After(s, acts);
            && Notifying(s, s', t, ev)
            && (s'.threads[t] == AfterNotice(ev) ==>
                  ChansExist(s') && Abs(s') == Spec.Store(s.db, Spec.Broadcast(Abs(s).table, ev)))
  {
    var ev := s.threads[t].ev;
    if acts == [] {
      assert s.threads == s.threads[t := s.threads[t]];
    } else {
      var init, a := acts[..|acts| - 1], acts[|acts| - 1];
      assert forall i :: 0 <= i < |init| ==> init[i] == acts[i];
      NotifySolo(s, t, init, maxID);
      RunKeepsSafe(s, init, maxID);
      assert Notifies(a, t);
      NotifyingStep(s, After(s, init), t, ev, a, maxID);
      if After(s, acts).threads[t] == AfterNotice(ev) {
        ToldAll(s, After(s, acts), ev);
      }
    }
  }

  // ---------- Create, Update, Delete ----------

  /** The event a write sends, if it sends one. */
  function EventOf<V(==)>(db: map<Key, V>, op: Spec.Op<V>): Option<Event<V>>
    requires Spec.IsWrite(op)
  {
    match op
    case CreateOp(k, v) => if k in db then None else Some(Event(Added, k, v))
    case UpdateOp(k, v) => Notice(k, v, Lookup(db, k))
    case DeleteOp(k) => if k in db then Some(Event(Deleted, k, db[k])) else None
  }

  /** Goroutine t about to announce its write: stored already, unless it is a Delete. */
  ghost function Committed<V>(s0: State<V>, t: nat, op: Spec.Op<V>): State<V>
    requires t < |s0.threads| && Spec.IsWrite(op) && EventOf(s0.db, op).Some?
  {
    Goto(s0.(db := if op.DeleteOp? then s0.db else s0.db[op.key := op.value]),
         t, Announce(EventOf(s0.db, op).value))
  }

  /** How far t has come with op, which it began in s0. */
  ghost predicate During<V>(s0: State<V>, s: State<V>, t: nat, op: Spec.Op<V>)
    requires ChansExist(s0) && Spec.IsWrite(op)
  {
    && t < |s0.threads| == |s.threads| && s.threads == s0.threads[t := s.threads[t]]
    && match s.threads[t]
       case Idle => ChansExist(s) && Abs(s) == Spec.Step(Abs(s0), op)
       case PutReady(k, v, prev) =>
         && (op == Spec.UpdateOp(k, v) || (op == Spec.CreateOp(k, v) && k !in s0.db))
         && prev == Lookup(s0.db, k) && s.db == s0.db && s.table == s0.table && s.chans == s0.chans
       case Listing(_) => false
       case Snapshot(_, _) => false
       case _ => EventOf(s0.db, op).Some? && Notifying(Committed(s0, t, op), s, t, EventOf(s0.db, op).value)
  }

  function Begin<V>(op: Spec.Op<V>, t: nat): Action<V>
    requires Spec.IsWrite(op)
  {
    match op
    case CreateOp(k, v) => BeginCreate(t, k, v)
    case UpdateOp(k, v) => BeginUpdate(t, k, v)
    case DeleteOp(k) => BeginDelete(t, k)
  }

  lemma BeginDuring<V>(s: State<V>, t: nat, op: Spec.Op<V>)
    requires ChansExist(s) && Spec.IsWrite(op) && Enabled(s, Begin(op, t))
    ensures During(s, Next(s, Begin(op, t)), t, op)
  {
  }

  lemma CommitStep<V>(s0: State<V>, s: State<V>, t: nat, op: Spec.Op<V>)
    requires ChansExist(s0) && Spec.IsWrite(op) && During(s0, s, t, op) && Enabled(s, Commit(t))
    ensures During(s0, Next(s, Commit(t)), t, op)
  {
    var s' := Next(s, Commit(t));
    if s'.threads[t].Idle? {
      SameStreams(s', Abs(s0).table);
    } else {
      assert s'.threads == Committed(s0, t, op).threads[t := s'.threads[t]];
    }
  }

  lemma NoticeStep<V>(s0: State<V>, s: State<V>, t: nat, op: Spec.Op<V>, a: Action<V>, maxID: nat)
    requires ChansExist(s0) && Spec.IsWrite(op) && During(s0, s, t, op) && Safe(s, maxID)
    requires s.threads[t].Announce? || s.threads[t].Sending?
    requires Enabled(s, a) && By(a, t)
    ensures During(s0, Next(s, a), t, op)
  {
    var mid, ev := Committed(s0, t, op), EventOf(s0.db, op).value;
    NotifyingStep(mid, s, t, ev, a, maxID);
    if Next(s, a).threads[t].Idle? {
      ToldAll(mid, Next(s, a), ev);
      assert Abs(mid).table == Abs(s0).table;
    }
  }

  lemma RemoveStep<V>(s0: State<V>, s: State<V>, t: nat, op: Spec.Op<V>)
    requires ChansExist(s0) && Spec.IsWrite(op) && During(s0, s, t, op) && Enabled(s, Remove(t))
    ensures During(s0, Next(s, Remove(t)), t, op)
  {
    var mid, ev := Committed(s0, t, op), EventOf(s0.db, op).value;
    ToldAll(mid, s, ev);
    assert Abs(mid).table == Abs(s0).table;
    assert Abs(Next(s, Remove(t))) == Abs(s).(db := s.db - {ev.key});
  }

  lemma {:induction false} RunDuring<V>(s: State<V>, t: nat, op: Spec.Op<V>, acts: seq<Action<V>>, maxID: nat)
    requires Safe(s, maxID) && Spec.IsWrite(op)
    requires CanRun(s, acts) && Alone(s, t, acts) && acts[0] == Begin(op, t)
    ensures During(s, After(s, acts), t, op)
  {
    var init, a := acts[..|acts| - 1], acts[|acts| - 1];
    if init == [] {
      assert After(s, init) == s;
      BeginDuring(s, t, op);
    } else {
      RunDuring(s, t, op, init, maxID);
      RunKeepsSafe(s, init, maxID);
      var mid := After(s, init);
      match mid.threads[t]
      case PutReady(_, _, _) => CommitStep(s, mid, t, op);
      case Removing(_) => RemoveStep(s, mid, t, op);
      case _ => NoticeStep(s, mid, t, op, a, maxID);
    }
  }

  /** Every uninterrupted run of a Create, Update or Delete, from its first action to its return, whatever the other
      goroutines are in the middle of: the effect is the sequential one. */
  lemma WriteSolo<V>(s: State<V>, t: nat, op: Spec.Op<V>, acts: seq<Action<V>>, maxID: nat)
    requires Safe(s, maxID) && Spec.IsWrite(op)
    requires CanRun(s, acts) && Alone(s, t, acts) && acts[0] == Begin(op, t)
    requires !Busy(After(s, acts), t)
    ensures var s' := After(s, acts);
            && Safe(s', maxID) && t < |s.threads| && s'.threads == s.threads[t := Idle]
            && Abs(s') == Spec.Step(Abs(s), op)
  {
    RunDuring(s, t, op, acts, maxID);
    RunKeepsSafe(s, acts, maxID);
  }

  /** Create. */
  lemma CreateSolo<V>(s: State<V>, t: nat, k: Key, v: V, acts: seq<Action<V>>, maxID: nat)
    requires Safe(s, maxID) && CanRun(s, acts) && Alone(s, t, acts) && acts[0] == BeginCreate(t, k, v)
    requires !Busy(After(s, acts), t)
    ensures ChansExist(After(s, acts)) && Abs(After(s, acts)) == Spec.Create(Abs(s), k, v)
  {
    WriteSolo(s, t, Spec.CreateOp(k, v), acts, maxID);
  }

  /** Update. */
  lemma UpdateSolo<V>(s: State<V>, t: nat, k: Key, v: V, acts: seq<Action<V>>, maxID: nat)
    requires Safe(s, maxID) && CanRun(s, acts) && Alone(s, t, acts) && acts[0] == BeginUpdate(t, k, v)
    requires !Busy(After(s, acts), t)
    ensures ChansExist(After(s, acts)) && Abs(After(s, acts)) == Spec.Update(Abs(s), k, v)
  {
    WriteSolo(s, t, Spec.UpdateOp(k, v), acts, maxID);
  }

  /** Delete. */
  lemma DeleteSolo<V>(s: State<V>, t: nat, k: Key, acts: seq<Action<V>>, maxID: nat)
    requires Safe(s, maxID) && CanRun(s, acts) && Alone(s, t, acts) && acts[0] == BeginDelete(t, k)
    requires !Busy(After(s, acts), t)
    ensures ChansExist(After(s, acts)) && Abs(After(s, acts)) == Spec.Delete(Abs(s), k)
  {
    WriteSolo(s, t, Spec.DeleteOp(k), acts, maxID);
  }

  // ---------- Watch and Stop ----------

  /** The keys whose entries the run has sent as a snapshot, in order. */
  function SnapshotOrder<V>(acts: seq<Action<V>>): seq<Key> {
    if acts == [] then []
    else
      var a := acts[|acts| - 1];
      SnapshotOrder(acts[..|acts| - 1]) + if a.SendSnapshot? then [a.key] else []
  }

  ghost predicate Listed<V>(order: seq<Key>, db: map<Key, V>) {
    && (forall i, j :: 0 <= i < j < |order| ==> order[i] != order[j])
    && (forall k :: k in order ==> k in db)
  }

  /** The channel that a Watch begun in s0 fills has been sent the entries of `order`. */
  ghost predicate Filled<V>(s0: State<V>, s: State<V>, order: seq<Key>) {
    && Listed(order, s0.db) && s.table == s0.table && s0.table.ids.avail != []
    && |s.chans| == |s0.chans| + 1 && s.chans[|s0.chans|].sent == Spec.Snapshot(s0.db, order)
  }

  /** How far t has come with the Watch it began in s0. */
  ghost predicate Watched<V>(s0: State<V>, s: State<V>, t: nat, order: seq<Key>)
    requires ChansExist(s0)
  {
    && t < |s0.threads| == |s.threads| && s.threads == s0.threads[t := s.threads[t]] && s.db == s0.db
    && |s0.chans| <= |s.chans| && (forall c :: 0 <= c < |s0.chans| ==> s.chans[c].sent == s0.chans[c].sent)
    && match s.threads[t]
       case Listing(c) => c == |s0.chans| && order == [] && Filled(s0, s, order)
       case Snapshot(c, todo) =>
         c == |s0.chans| && Filled(s0, s, order) && todo == s0.db - (set k | k in order)
       case Idle =>
         && ChansExist(s) && Listed(order, s0.db) && Abs(s) == Spec.Watch(Abs(s0), order).0
         && (s0.table.ids.avail != [] ==> Spec.Enumerates(order, s0.db))
       case _ => false
  }

  lemma BeginWatched<V>(s: State<V>, t: nat)
    requires ChansExist(s) && Enabled(s, BeginWatch(t))
    ensures Watched(s, Next(s, BeginWatch(t)), t, [])
  {
    if s.table.ids.avail == [] {
      assert s.threads == s.threads[t := Idle];
    }
  }

  lemma ListStep<V>(s0: State<V>, s: State<V>, t: nat)
    requires ChansExist(s0) && Watched(s0, s, t, []) && Enabled(s, List(t))
    ensures Watched(s0, Next(s, List(t)), t, [])
  {
    assert s0.db - (set k: Key | k in []) == s0.db;
  }

  lemma SnapshotAppend<V>(db: map<Key, V>, order: seq<Key>, k: Key)
    requires Listed(order, db) && k in db && k !in order
    ensures Listed(order + [k], db)
    ensures Spec.Snapshot(db, order + [k]) == Spec.Snapshot(db, order) + [Event(Added, k, db[k])]
    ensures db - (set j | j in order + [k]) == (db - (set j | j in order)) - {k}
  {
    assert forall j :: j in order + [k] <==> j in order || j == k;
  }

  lemma SnapshotStep<V>(s0: State<V>, s: State<V>, t: nat, order: seq<Key>, k: Key, maxID: nat)
    requires ChansExist(s0) && Safe(s, maxID) && Watched(s0, s, t, order) && Enabled(s, SendSnapshot(t, k))
    ensures Watched(s0, Next(s, SendSnapshot(t, k)), t, order + [k])
  {
    assert OwnsOpenChan(s, s.threads[t]);
    SnapshotAppend(s0.db, order, k);
  }

  lemma JoinStep<V>(s0: State<V>, s: State<V>, t: nat, order: seq<Key>, maxID: nat)
    requires ChansExist(s0) && Safe(s, maxID) && Watched(s0, s, t, order) && Enabled(s, Join(t))
    ensures Watched(s0, Next(s, Join(t)), t, order)
  {
    var s', sent := Next(s, Join(t)), Spec.Snapshot(s0.db, order);
    assert forall k :: k in s.threads[t].todo <==> k in s0.db && k !in order;
    SameStreams(s', Register(Abs(s0).table, sent).0);
  }

  lemma WatchedStep<V>(s0: State<V>, s: State<V>, t: nat, order: seq<Key>, a: Action<V>, maxID: nat)
    requires ChansExist(s0) && Safe(s, maxID) && Watched(s0, s, t, order) && Busy(s, t)
    requires Enabled(s, a) && By(a, t)
    ensures Watched(s0, Next(s, a), t, if a.SendSnapshot? then order + [a.key] else order)
  {
    if s.threads[t].Listing? {
      ListStep(s0, s, t);
    } else if a.SendSnapshot? {
      SnapshotStep(s0, s, t, order, a.key, maxID);
    } else {
      JoinStep(s0, s, t, order, maxID);
    }
  }

  lemma {:induction false} RunWatched<V>(s: State<V>, t: nat, acts: seq<Action<V>>, maxID: nat)
    requires Safe(s, maxID)
    requires CanRun(s, acts) && Alone(s, t, acts) && acts[0] == BeginWatch(t)
    ensures Watched(s, After(s, acts), t, SnapshotOrder(acts))
  {
    var init, a := acts[..|acts| - 1], acts[|acts| - 1];
    if init == [] {
      assert After(s, init) == s && SnapshotOrder(init) == [] && SnapshotOrder(acts) == [];
      BeginWatched(s, t);
    } else {
      RunWatched(s, t, init, maxID);
      RunKeepsSafe(s, init, maxID);
      var order := SnapshotOrder(init);
      assert order + [] == order;
      WatchedStep(s, After(s, init), t, order, a, maxID);
    }
  }

  /** Every uninterrupted run of a Watch: the effect is that of the sequential Watch which lists in the order in which
      the run sent the entries. */
  lemma WatchSolo<V>(s: State<V>, t: nat, acts: seq<Action<V>>, maxID: nat)
    requires Safe(s, maxID)
    requires CanRun(s, acts) && Alone(s, t, acts) && acts[0] == BeginWatch(t)
    requires !Busy(After(s, acts), t)
    ensures var s', order := After(s, acts), SnapshotOrder(acts);
            && Safe(s', maxID) && t < |s.threads| && s'.threads == s.threads[t := Idle]
            && (s.table.ids.avail != [] ==> Spec.Enumerates(order, s.db))
            && (forall k :: k in order ==> k in s.db)
            && Abs(s') == Spec.Watch(Abs(s), order).0
  {
    RunWatched(s, t, acts, maxID);
    RunKeepsSafe(s, acts, maxID);
  }

  /** Stop is a single action. */
  lemma StopSolo<V>(s: State<V>, id: int, maxID: nat)
    requires Safe(s, maxID) && NoReader(s)
    ensures Enabled(s, Stop(id)) && Safe(Next(s, Stop(id)), maxID)
    ensures Abs(Next(s, Stop(id))) == Spec.Stop(Abs(s), id)
  {
    StepKeepsSafe(s, Stop(id), maxID);
    SameStreams(Next(s, Stop(id)), Spec.Stop(Abs(s), id).table);
  }

  /** A Watch of a full table is refused before it lists, as a Create of a stored key is before it writes and a Delete
      of an absent key before it notifies: one step, no effect. */
  lemma RefusedAtOnce<V>(s: State<V>, a: Action<V>)
    requires Enabled(s, a)
    requires || (a.BeginWatch? && s.table.ids.avail == [])
             || (a.BeginCreate? && a.key in s.db)
             || (a.BeginDelete? && a.key !in s.db)
    ensures Next(s, a) == s
  {
  }

  // ---------- Such runs exist ----------

  lemma Member<T>(s: set<T>) returns (x: T)
    requires s != {}
    ensures x in s
  {
    x :| x in s;
  }

  ghost predicate HasRoom<V>(s: State<V>, ids: set<int>)
    requires ChansExist(s)
  {
    forall id :: id in ids && id in s.table.watchers ==> s.chans[s.table.watchers[id]].HasRoom()
  }

  /** Nothing will hold t up before its operation returns. */
  ghost predicate Clear<V>(s: State<V>, t: nat)
    requires ChansExist(s) && t < |s.threads|
  {
    match s.threads[t]
    case PutReady(_, _, _) => HasRoom(s, s.table.watchers.Keys)
    case Announce(_) => HasRoom(s, s.table.watchers.Keys)
    case Sending(_, pending) => HasRoom(s, pending)
    case Listing(c) => NoReader(s) && c < |s.chans| && |s.chans[c].sent| + |s.db| <= CAPACITY
    case Snapshot(c, todo) => NoReader(s) && c < |s.chans| && |s.chans[c].sent| + |todo| <= CAPACITY
    case _ => true
  }

  function Stage<V>(p: Phase<V>): nat {
    match p
    case Idle => 0
    case Removing(_) => 1
    case Sending(_, _) => 2
    case Snapshot(_, _) => 2
    case Announce(_) => 3
    case Listing(_) => 3
    case PutReady(_, _, _) => 4
  }

  function Left<V>(p: Phase<V>): nat {
    match p
    case Sending(_, pending) => |pending|
    case Snapshot(_, todo) => |todo|
    case _ => 0
  }

  lemma NextSend<V>(s: State<V>, t: nat, maxID: nat) returns (a: Action<V>)
    requires Safe(s, maxID) && t < |s.threads| && Clear(s, t) && s.threads[t].Sending? && s.threads[t].pending != {}
    ensures By(a, t) && Enabled(s, a) && Safe(Next(s, a), maxID) && Clear(Next(s, a), t)
    ensures Next(s, a).threads[t].Sending? && Left(Next(s, a).threads[t]) < Left(s.threads[t])
  {
    var pending := s.threads[t].pending;
    var id := Member(pending);
    a := Send(t, id);
    StepKeepsSafe(s, a, maxID);
    assert |pending - {id}| == |pending| - 1;
    assert forall i :: i in pending && i != id ==> s.table.watchers[i] != s.table.watchers[id];
  }

  lemma NextEntry<V>(s: State<V>, t: nat, maxID: nat) returns (a: Action<V>)
    requires Safe(s, maxID) && t < |s.threads| && Clear(s, t) && s.threads[t].Snapshot? && s.threads[t].todo != map[]
    ensures By(a, t) && Enabled(s, a) && Safe(Next(s, a), maxID) && Clear(Next(s, a), t)
    ensures Next(s, a).threads[t].Snapshot? && Left(Next(s, a).threads[t]) < Left(s.threads[t])
  {
    var todo := s.threads[t].todo;
    assert todo.Keys != {};
    var k := Member(todo.Keys);
    a := SendSnapshot(t, k);
    assert OwnsOpenChan(s, s.threads[t]);
    assert (todo - {k}).Keys == todo.Keys - {k} && |todo.Keys| == |todo| && |(todo - {k}).Keys| == |todo - {k}|;
    StepKeepsSafe(s, a, maxID);
  }

  /** While nothing is in its way, t can take another step, which brings it closer to its return. */
  lemma NextStep<V>(s: State<V>, t: nat, maxID: nat) returns (a: Action<V>)
    requires Safe(s, maxID) && Busy(s, t) && Clear(s, t)
    ensures By(a, t) && Enabled(s, a) && Safe(Next(s, a), maxID) && Clear(Next(s, a), t)
    ensures var p, p' := s.threads[t], Next(s, a).threads[t];
            Stage(p') < Stage(p) || (Stage(p') == Stage(p) && Left(p') < Left(p))
  {
    var p := s.threads[t];
    assert OwnsOpenChan(s, p);
    if p.Sending? && p.pending != {} {
      a := NextSend(s, t, maxID);
    } else if p.Snapshot? && p.todo != map[] {
      a := NextEntry(s, t, maxID);
    } else {
      match p {
        case PutReady(_, _, _) => a := Commit(t);
        case Announce(_) => a := Enter(t);
        case Sending(_, _) => a := Leave(t);
        case Removing(_) => a := Remove(t);
        case Listing(_) => a := List(t);
        case Snapshot(_, _) => a := Join(t);
      }
      StepKeepsSafe(s, a, maxID);
    }
  }

  lemma {:induction false} Finish<V>(s: State<V>, t: nat, acts: seq<Action<V>>, maxID: nat)
    returns (run: seq<Action<V>>)
    requires Safe(s, maxID) && CanRun(s, acts) && Alone(s, t, acts)
    requires Safe(After(s, acts), maxID) && t < |After(s, acts).threads| && Clear(After(s, acts), t)
    ensures CanRun(s, run) && Alone(s, t, run) && run[0] == acts[0] && !Busy(After(s, run), t)
    decreases Stage(After(s, acts).threads[t]), Left(After(s, acts).threads[t])
  {
    if Busy(After(s, acts), t) {
      var a := NextStep(After(s, acts), t, maxID);
      var longer := acts + [a];
      assert longer[..|longer| - 1] == acts;
      run := Finish(s, t, longer, maxID);
    } else {
      run := acts;
    }
  }

  lemma FirstStep<V>(s: State<V>, a: Action<V>, t: nat, maxID: nat)
    requires Safe(s, maxID) && Enabled(s, a) && By(a, t)
    ensures CanRun(s, [a]) && After(s, [a]) == Next(s, a) && Alone(s, t, [a]) && Safe(Next(s, a), maxID)
  {
    assert [a][..0] == [];
    assert CanRun(s, []) && After(s, []) == s;
    StepKeepsSafe(s, a, maxID);
  }

  /** A write can be run to its end whenever the watchers' channels have room. */
  lemma WriteRunExists<V>(s: State<V>, t: nat, op: Spec.Op<V>, maxID: nat) returns (acts: seq<Action<V>>)
    requires Safe(s, maxID) && t < |s.threads| && s.threads[t].Idle? && Spec.IsWrite(op)
    requires HasRoom(s, s.table.watchers.Keys)
    ensures CanRun(s, acts) && Alone(s, t, acts) && acts[0] == Begin(op, t) && !Busy(After(s, acts), t)
  {
    var a := Begin(op, t);
    FirstStep(s, a, t, maxID);
    acts := Finish(s, t, [a], maxID);
  }

  /** A Watch can be run to its end whenever nobody is sending and the store fits the channel. */
  lemma WatchRunExists<V>(s: State<V>, t: nat, maxID: nat) returns (acts: seq<Action<V>>)
    requires Safe(s, maxID) && t < |s.threads| && s.threads[t].Idle? && NoReader(s) && |s.db| <= CAPACITY
    ensures CanRun(s, acts) && Alone(s, t, acts) && acts[0] == BeginWatch(t) && !Busy(After(s, acts), t)
  {
    var a := BeginWatch(t);
    FirstStep(s, a, t, maxID);
    acts := Finish(s, t, [a], maxID);
  }
}

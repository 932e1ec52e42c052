/** The store at lock granularity: any number of goroutines run Create, Update, Delete, Watch and Stop at once.
    One action is one critical section of the map lock or of the watcher table's lock, or one channel send.
    NotifyWatchers holds the table's read lock from Enter to Leave, so a goroutine in phase Sending is a reader. */
module Interleaving {
  import opened Events
  import opened IdAllocator
  import opened WatchTable

  /** `sent` is everything ever sent; the client has received the first `taken` of it. */
  datatype Chan<V> = Chan(sent: seq<Event<V>>, taken: nat, closed: bool) {
    predicate HasRoom() { |sent| < taken + CAPACITY }
  }

  /** Where a goroutine stands inside the operation it runs. */
  datatype Phase<V> =
    | Idle
    | PutReady(key: Key, value: V, prev: Option<V>)        // Create or Update: Get has answered `prev`
    | Announce(ev: Event<V>)                               // about to call NotifyWatchers
    | Sending(ev: Event<V>, pending: set<int>)             // inside NotifyWatchers: `pending` still to be sent to
    | Removing(key: Key)                                   // Delete: watchers notified, entry still stored
    | Listing(chan: nat)                                   // Watch: context made, List not called yet
    | Snapshot(chan: nat, todo: map<Key, V>)               // Watch: listed, `todo` still to be sent
  {
    predicate Writes(k: Key) {
      match this
      case PutReady(key, _, _) => key == k
      case Announce(ev) => ev.key == k
      case Sending(ev, _) => ev.key == k
      case Removing(key) => key == k
      case _ => false
    }

    predicate Writing() { PutReady? || Announce? || Sending? || Removing? }

    predicate Watching() { Listing? || Snapshot? }
  }

  /** `panicked` records a send on a closed channel or a second close, which kill the process. */
  datatype State<V> = State(
    db: map<Key, V>, table: Table<nat>, chans: seq<Chan<V>>, threads: seq<Phase<V>>, panicked: bool)

  datatype Action<V> =
    | BeginCreate(t: nat, key: Key, value: V)
    | BeginUpdate(t: nat, key: Key, value: V)
    | BeginDelete(t: nat, key: Key)
    | Commit(t: nat)
    | Enter(t: nat)
    | Send(t: nat, id: int)
    | Leave(t: nat)
    | Remove(t: nat)
    | BeginWatch(t: nat)
    | List(t: nat)
    | SendSnapshot(t: nat, key: Key)
    | Join(t: nat)
    | Stop(id: int)
    | Receive(c: nat)

  function Init<V>(goroutines: nat, maxID: nat): State<V> {
    State(map[], Table(Alloc(seq(maxID + 1, i => i), {}), map[]), [], seq(goroutines, _ => Idle), false)
  }

  /** No goroutine is inside NotifyWatchers, so the table's write lock can be taken. */
  ghost predicate NoReader<V>(s: State<V>) {
    forall t :: 0 <= t < |s.threads| ==> !s.threads[t].Sending?
  }

  ghost predicate In<V>(s: State<V>, t: nat) { t < |s.threads| }

  /** A send waits while the buffer is full; on a closed channel it does not wait, it panics. */
  predicate CanSend<V>(s: State<V>, c: nat) {
    c < |s.chans| && (s.chans[c].closed || s.chans[c].HasRoom())
  }

  /** No Watch is still filling channel c: its client, if any, holds it. */
  ghost predicate HandedOut<V>(s: State<V>, c: nat) {
    forall t :: 0 <= t < |s.threads| && s.threads[t].Watching() ==> s.threads[t].chan != c
  }

  /** When an action can be taken. */
  ghost predicate Enabled<V>(s: State<V>, a: Action<V>) {
    !s.panicked &&
    match a
    case BeginCreate(t, _, _) => In(s, t) && s.threads[t].Idle?
    case BeginUpdate(t, _, _) => In(s, t) && s.threads[t].Idle?
    case BeginDelete(t, _) => In(s, t) && s.threads[t].Idle?
    case Commit(t) => In(s, t) && s.threads[t].PutReady?
    case Enter(t) => In(s, t) && s.threads[t].Announce?
    case Send(t, id) =>
      In(s, t) && s.threads[t].Sending? && id in s.threads[t].pending && id in s.table.watchers
      && CanSend(s, s.table.watchers[id])
    case Leave(t) => In(s, t) && s.threads[t].Sending? && s.threads[t].pending == {}
    case Remove(t) => In(s, t) && s.threads[t].Removing?
    case BeginWatch(t) => In(s, t) && s.threads[t].Idle?
    case List(t) => In(s, t) && s.threads[t].Listing?
    case SendSnapshot(t, k) =>
      In(s, t) && s.threads[t].Snapshot? && k in s.threads[t].todo && CanSend(s, s.threads[t].chan)
    case Join(t) => In(s, t) && s.threads[t].Snapshot? && s.threads[t].todo == map[] && NoReader(s)
    case Stop(id) => NoReader(s) && (id in s.table.watchers ==> s.table.watchers[id] < |s.chans|)
    case Receive(c) =>
      c < |s.chans| && s.chans[c].taken < |s.chans[c].sent| && HandedOut(s, c)
  }

  /** The event a committed write announces: Added for a new key, Modified for a different value, none otherwise. */
  function Notice<V(==)>(k: Key, v: V, prev: Option<V>): Option<Event<V>> {
    match prev
    case None => Some(Event(Added, k, v))
    case Some(o) => if o == v then None else Some(Event(Modified, k, v))
  }

  function Goto<V>(s: State<V>, t: nat, p: Phase<V>): State<V>
    requires t < |s.threads|
  {
    s.(threads := s.threads[t := p])
  }

  /** `w.ResultCh <- e` */
  function Push<V>(s: State<V>, c: nat, e: Event<V>): State<V>
    requires c < |s.chans|
  {
    if s.chans[c].closed then s.(panicked := true)
    else s.(chans := s.chans[c := s.chans[c].(sent := s.chans[c].sent + [e])])
  }

  /** `close(w.ResultCh)` */
  function Close<V>(s: State<V>, c: nat): State<V>
    requires c < |s.chans|
  {
    if s.chans[c].closed then s.(panicked := true)
    else s.(chans := s.chans[c := s.chans[c].(closed := true)])
  }

  ghost function Next<V>(s: State<V>, a: Action<V>): (s': State<V>)
    requires Enabled(s, a)
    ensures |s'.threads| == |s.threads| && |s.chans| <= |s'.chans|
  {
    match a
    case BeginCreate(t, k, v) => if k in s.db then s else Goto(s, t, PutReady(k, v, None))
    case BeginUpdate(t, k, v) => Goto(s, t, PutReady(k, v, Lookup(s.db, k)))
    case BeginDelete(t, k) => if k !in s.db then s else Goto(s, t, Announce(Event(Deleted, k, s.db[k])))
    case Commit(t) =>
      var p := s.threads[t];
      var n := Notice(p.key, p.value, p.prev);
      Goto(s.(db := s.db[p.key := p.value]), t, if n.None? then Idle else Announce(n.value))
    case Enter(t) => Goto(s, t, Sending(s.threads[t].ev, s.table.watchers.Keys))
    case Send(t, id) =>
      var p := s.threads[t];
      Push(Goto(s, t, p.(pending := p.pending - {id})), s.table.watchers[id], p.ev)
    case Leave(t) =>
      var e := s.threads[t].ev;
      Goto(s, t, if e.kind.Deleted? then Removing(e.key) else Idle)
    case Remove(t) => Goto(s.(db := s.db - {s.threads[t].key}), t, Idle)
    case BeginWatch(t) =>
      if s.table.ids.avail == [] then s
      else Goto(s.(chans := s.chans + [Chan([], 0, false)]), t, Listing(|s.chans|))
    case List(t) => Goto(s, t, Snapshot(s.threads[t].chan, s.db))
    case SendSnapshot(t, k) =>
      var p := s.threads[t];
      Push(Goto(s, t, p.(todo := p.todo - {k})), p.chan, Event(Added, k, p.todo[k]))
    case Join(t) => Goto(s.(table := Register(s.table, s.threads[t].chan).0), t, Idle)
    case Stop(id) =>
      if id !in s.table.watchers then s
      else Close(s.(table := Unregister(s.table, id)), s.table.watchers[id])
    case Receive(c) => s.(chans := s.chans[c := s.chans[c].(taken := s.chans[c].taken + 1)])
  }

  // ---------- Runs ----------

  /** The actions can be taken one after the other from s. */
  ghost predicate CanRun<V>(s: State<V>, acts: seq<Action<V>>)
    decreases |acts|, 0
  {
    acts == [] || (CanRun(s, acts[..|acts| - 1]) && Enabled(After(s, acts[..|acts| - 1]), acts[|acts| - 1]))
  }

  ghost function After<V>(s: State<V>, acts: seq<Action<V>>): State<V>
    requires CanRun(s, acts)
    decreases |acts|, 1
  {
    if acts == [] then s else Next(After(s, acts[..|acts| - 1]), acts[|acts| - 1])
  }

  // ---------- Channel safety ----------

  ghost predicate OwnsOpenChan<V>(s: State<V>, p: Phase<V>) {
    p.Watching() ==>
      && p.chan < |s.chans| && !s.chans[p.chan].closed
      && s.chans[p.chan].taken == 0 && |s.chans[p.chan].sent| <= CAPACITY
      && (forall id :: id in s.table.watchers ==> s.table.watchers[id] != p.chan)
  }

  /** What every step keeps: the table is valid, its channels are open and shared with nobody, a Watch owns the
      channel it is filling, and a notifier only has registered watchers left to send to. */
  ghost predicate Safe<V>(s: State<V>, maxID: nat) {
    && !s.panicked
    && ValidTable(s.table, maxID)
    && (forall id :: id in s.table.watchers ==>
          s.table.watchers[id] < |s.chans| && !s.chans[s.table.watchers[id]].closed)
    && (forall i, j :: i in s.table.watchers && j in s.table.watchers && i != j ==>
          s.table.watchers[i] != s.table.watchers[j])
    && (forall t :: 0 <= t < |s.threads| ==> OwnsOpenChan(s, s.threads[t]))
    && (forall t, u :: 0 <= t < u < |s.threads| && s.threads[t].Watching() && s.threads[u].Watching() ==>
          s.threads[t].chan != s.threads[u].chan)
    && (forall t :: 0 <= t < |s.threads| && s.threads[t].Sending? ==>
          s.threads[t].pending <= s.table.watchers.Keys)
  }

  lemma InitIsSafe<V>(goroutines: nat, maxID: nat)
    ensures Safe(Init<V>(goroutines, maxID), maxID)
  {
    var ids := seq(maxID + 1, i => i);
    forall id | 0 <= id <= maxID ensures id in ids {
      assert ids[id] == id;
    }
  }

  lemma StopKeepsSafe<V>(s: State<V>, id: int, maxID: nat)
    requires Safe(s, maxID) && Enabled(s, Stop(id))
    ensures Safe(Next(s, Stop(id)), maxID)
  {
    UnregisterKeepsValid(s.table, maxID, id);
  }

  lemma PushKeepsSafe<V>(s: State<V>, c: nat, e: Event<V>, maxID: nat)
    requires Safe(s, maxID) && c < |s.chans| && !s.chans[c].closed && s.chans[c].HasRoom()
    ensures Safe(Push(s, c, e), maxID)
  {}

  /** Moving one goroutine to a phase that owns no new channel and sends to no unregistered watcher. */
  lemma GotoKeepsSafe<V>(s: State<V>, t: nat, p: Phase<V>, maxID: nat)
    requires Safe(s, maxID) && t < |s.threads|
    requires p.Watching() ==> s.threads[t].Watching() && p.chan == s.threads[t].chan
    requires p.Sending? ==> p.pending <= s.table.watchers.Keys
    ensures Safe(Goto(s, t, p), maxID)
  {}

  /** Registering a channel that is open and that nobody else uses. */
  lemma RegisterKeepsSafe<V>(s: State<V>, c: nat, maxID: nat)
    requires Safe(s, maxID) && c < |s.chans| && !s.chans[c].closed
    requires forall id :: id in s.table.watchers ==> s.table.watchers[id] != c
    requires forall t :: 0 <= t < |s.threads| ==>
               !s.threads[t].Sending? && (s.threads[t].Watching() ==> s.threads[t].chan != c)
    ensures Safe(s.(table := Register(s.table, c).0), maxID)
  {
    RegisterKeepsValid(s.table, maxID, c);
  }

  lemma JoinKeepsSafe<V>(s: State<V>, t: nat, maxID: nat)
    requires Safe(s, maxID) && Enabled(s, Join(t))
    ensures Safe(Next(s, Join(t)), maxID)
  {
    assert OwnsOpenChan(s, s.threads[t]);
    GotoKeepsSafe(s, t, Idle, maxID);
    RegisterKeepsSafe(Goto(s, t, Idle), s.threads[t].chan, maxID);
  }

  lemma BeginWatchKeepsSafe<V>(s: State<V>, t: nat, maxID: nat)
    requires Safe(s, maxID) && Enabled(s, BeginWatch(t))
    ensures Safe(Next(s, BeginWatch(t)), maxID)
  {}

  lemma ReceiveKeepsSafe<V>(s: State<V>, c: nat, maxID: nat)
    requires Safe(s, maxID) && Enabled(s, Receive(c))
    ensures Safe(Next(s, Receive(c)), maxID)
  {}

  lemma SendKeepsSafe<V>(s: State<V>, t: nat, id: int, maxID: nat)
    requires Safe(s, maxID) && Enabled(s, Send(t, id))
    ensures Safe(Next(s, Send(t, id)), maxID)
  {
    var p := s.threads[t].(pending := s.threads[t].pending - {id});
    GotoKeepsSafe(s, t, p, maxID);
    PushKeepsSafe(Goto(s, t, p), s.table.watchers[id], p.ev, maxID);
  }

  lemma SendSnapshotKeepsSafe<V>(s: State<V>, t: nat, k: Key, maxID: nat)
    requires Safe(s, maxID) && Enabled(s, SendSnapshot(t, k))
    ensures Safe(Next(s, SendSnapshot(t, k)), maxID)
  {
    var p := s.threads[t].(todo := s.threads[t].todo - {k});
    GotoKeepsSafe(s, t, p, maxID);
    PushKeepsSafe(Goto(s, t, p), p.chan, Event(Added, k, s.threads[t].todo[k]), maxID);
  }

  lemma PutKeepsSafe<V>(s: State<V>, a: Action<V>, maxID: nat)
    requires Safe(s, maxID) && Enabled(s, a) && (a.BeginCreate? || a.BeginUpdate? || a.Commit?)
    ensures Safe(Next(s, a), maxID)
  {
    match a
    case BeginCreate(t, k, v) => if k !in s.db { GotoKeepsSafe(s, t, PutReady(k, v, None), maxID); }
    case BeginUpdate(t, k, v) => GotoKeepsSafe(s, t, PutReady(k, v, Lookup(s.db, k)), maxID);
    case Commit(t) => GotoKeepsSafe(s.(db := Next(s, a).db), t, Next(s, a).threads[t], maxID);
  }

  lemma MoveKeepsSafe<V>(s: State<V>, a: Action<V>, maxID: nat)
    requires Safe(s, maxID) && Enabled(s, a)
    requires a.BeginDelete? || a.Enter? || a.Leave? || a.Remove? || a.List?
    ensures Safe(Next(s, a), maxID)
  {
    match a
    case BeginDelete(t, k) => if k in s.db { GotoKeepsSafe(s, t, Next(s, a).threads[t], maxID); }
    case Enter(t) => GotoKeepsSafe(s, t, Next(s, a).threads[t], maxID);
    case Leave(t) => GotoKeepsSafe(s, t, Next(s, a).threads[t], maxID);
    case Remove(t) => GotoKeepsSafe(s.(db := Next(s, a).db), t, Idle, maxID);
    case List(t) => GotoKeepsSafe(s, t, Next(s, a).threads[t], maxID);
  }

  lemma StepKeepsSafe<V>(s: State<V>, a: Action<V>, maxID: nat)
    requires Safe(s, maxID) && Enabled(s, a)
    ensures Safe(Next(s, a), maxID)
  {
    match a
    case Join(t) => JoinKeepsSafe(s, t, maxID);
    case Stop(id) => StopKeepsSafe(s, id, maxID);
    case Send(t, id) => SendKeepsSafe(s, t, id, maxID);
    case SendSnapshot(t, k) => SendSnapshotKeepsSafe(s, t, k, maxID);
    case BeginWatch(t) => BeginWatchKeepsSafe(s, t, maxID);
    case Receive(c) => ReceiveKeepsSafe(s, c, maxID);
    case BeginCreate(_, _, _) => PutKeepsSafe(s, a, maxID);
    case BeginUpdate(_, _, _) => PutKeepsSafe(s, a, maxID);
    case Commit(_) => PutKeepsSafe(s, a, maxID);
    case _ => MoveKeepsSafe(s, a, maxID);
  }

  /** No interleaving of writes, watches and Stops, stale and repeated Stops of any id included, sends on a closed
      channel or closes a channel twice; and a channel is open for as long as it is in the table. */
  lemma {:induction false} RunsAreSafe<V>(goroutines: nat, maxID: nat, acts: seq<Action<V>>)
    requires CanRun(Init(goroutines, maxID), acts)
    ensures var s := After(Init(goroutines, maxID), acts);
            && Safe(s, maxID)
            && !s.panicked
            && (forall id :: id in s.table.watchers ==>
                  s.table.watchers[id] < |s.chans| && !s.chans[s.table.watchers[id]].closed)
  {
    if acts == [] {
      InitIsSafe<V>(goroutines, maxID);
    } else {
      var init := acts[..|acts| - 1];
      RunsAreSafe(goroutines, maxID, init);
      StepKeepsSafe(After(Init(goroutines, maxID), init), acts[|acts| - 1], maxID);
    }
  }
}

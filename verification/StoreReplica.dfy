/** When a watcher's stream is a faithful replica of the store, although writers, notifiers and watches interleave. */
module StoreReplica {
  import opened Events
  import opened Interleaving

  /** A Delete whose notification has started and whose entry is still stored. */
  predicate HalfDeleted<V>(p: Phase<V>) {
    (p.Sending? && p.ev.kind.Deleted?) || p.Removing?
  }

  /** A Create or Update that has stored its entry and not yet started its notification. */
  predicate Unannounced<V>(p: Phase<V>) { p.Announce? && !p.ev.kind.Deleted? }

  ghost predicate SomeSnapshot<V>(s: State<V>) {
    exists u :: 0 <= u < |s.threads| && s.threads[u].Snapshot?
  }

  ghost predicate Settled<V>(s: State<V>, k: Key) {
    forall u :: 0 <= u < |s.threads| ==> !s.threads[u].Writes(k)
  }

  /** What the callers have to arrange; the store itself does not. Writers of the same key do not overlap; no
      notification starts between a Watch's List and its Add; no Watch lists while a Delete has notified but not yet
      removed its entry; and none lists while a Create or Update has stored its entry but not yet started to notify.
      The first three make streams replay to the store, the fourth keeps them truthful as well. Writers of different
      keys interleave freely. */
  datatype Rule = OneWriterPerKey | NoNotifyInWatch | NoListInDelete | NoListInCommit

  ghost predicate Obeys<V>(s: State<V>, a: Action<V>, rule: Rule) {
    match rule
    case OneWriterPerKey => (a.BeginCreate? || a.BeginUpdate? || a.BeginDelete?) ==> Settled(s, a.key)
    case NoNotifyInWatch => a.Enter? ==> !SomeSnapshot(s)
    case NoListInDelete => a.List? ==> forall u :: 0 <= u < |s.threads| ==> !HalfDeleted(s.threads[u])
    case NoListInCommit => a.List? ==> forall u :: 0 <= u < |s.threads| ==> !Unannounced(s.threads[u])
  }

  ghost predicate Disciplined<V>(s: State<V>, a: Action<V>) {
    Obeys(s, a, OneWriterPerKey) && Obeys(s, a, NoNotifyInWatch) && Obeys(s, a, NoListInDelete)
  }

  ghost predicate DisciplinedRun<V>(s: State<V>, acts: seq<Action<V>>)
    requires CanRun(s, acts)
  {
    acts == []
    || (DisciplinedRun(s, acts[..|acts| - 1])
        && Disciplined(After(s, acts[..|acts| - 1]), acts[|acts| - 1]))
  }

  // ---------- The invariant ----------

  /** Watcher `id` has still to be sent the event of phase p. None stands for a Watch that is not registered yet. */
  predicate Waits<V>(p: Phase<V>, id: Option<int>) {
    p.Sending? && id.Some? && id.value in p.pending
  }

  /** How a replayed value r relates to the stored value d of the key that phase p is writing. */
  predicate PhaseOk<V(==)>(p: Phase<V>, waits: bool, r: Option<V>, d: Option<V>) {
    match p
    case PutReady(_, _, _) => r == d
    case Announce(ev) => ev.kind.Deleted? ==> r == d
    case Sending(ev, _) =>
      if ev.kind.Deleted? then r == if waits then d else None
      else !waits ==> r == d
    case Removing(_) => r == None
    case _ => true
  }

  ghost predicate KeyFaithful<V>(s: State<V>, m: map<Key, V>, id: Option<int>, k: Key) {
    && (Settled(s, k) ==> Lookup(m, k) == Lookup(s.db, k))
    && (forall t :: 0 <= t < |s.threads| && s.threads[t].Writes(k) ==>
          PhaseOk(s.threads[t], Waits(s.threads[t], id), Lookup(m, k), Lookup(s.db, k)))
  }

  ghost predicate Faithful<V>(s: State<V>, m: map<Key, V>, id: Option<int>) {
    forall k :: KeyFaithful(s, m, id, k)
  }

  /** What a goroutine remembers about the key it writes agrees with the store. */
  ghost predicate Remembers<V>(s: State<V>, p: Phase<V>) {
    match p
    case PutReady(k, _, prev) => prev == Lookup(s.db, k)
    case Announce(ev) => Lookup(s.db, ev.key) == Some(ev.obj)
    case Sending(ev, _) => Lookup(s.db, ev.key) == Some(ev.obj)
    case Listing(c) => c < |s.chans| && s.chans[c].sent == []
    case _ => true
  }

  ghost predicate OneWriter<V>(s: State<V>) {
    forall t, u, k :: 0 <= t < u < |s.threads| && s.threads[t].Writes(k) ==> !s.threads[u].Writes(k)
  }

  ghost predicate Orderly<V>(s: State<V>) {
    && OneWriter(s)
    && (forall t :: 0 <= t < |s.threads| ==> Remembers(s, s.threads[t]))
    && (SomeSnapshot(s) ==> forall u :: 0 <= u < |s.threads| ==> !HalfDeleted(s.threads[u]))
  }

  /** The map a Watch will have sent once its snapshot is out. */
  function SnapshotView<V>(s: State<V>, p: Phase<V>): map<Key, V>
    requires p.Snapshot? && p.chan < |s.chans|
  {
    Replay(s.chans[p.chan].sent) + p.todo
  }

  ghost predicate Replicas<V>(s: State<V>)
    requires forall id :: id in s.table.watchers ==> s.table.watchers[id] < |s.chans|
    requires forall t :: 0 <= t < |s.threads| && s.threads[t].Snapshot? ==> s.threads[t].chan < |s.chans|
  {
    && (forall id :: id in s.table.watchers ==>
          Faithful(s, Replay(s.chans[s.table.watchers[id]].sent), Some(id)))
    && (forall t :: 0 <= t < |s.threads| && s.threads[t].Snapshot? ==>
          Faithful(s, SnapshotView(s, s.threads[t]), None))
  }

  ghost predicate Invariant<V>(s: State<V>, maxID: nat) {
    Safe(s, maxID) && Orderly(s) && Replicas(s)
  }

  // ---------- Every disciplined step keeps it ----------

  /** Goroutine t moves to phase p and touches the store and the view at most at the key it was writing. */
  lemma KeyKept<V>(s: State<V>, s': State<V>, t: nat, p: Phase<V>,
                   m: map<Key, V>, m': map<Key, V>, id: Option<int>, k: Key)
    requires t < |s.threads| && s'.threads == s.threads[t := p]
    requires OneWriter(s)
    requires KeyFaithful(s, m, id, k)
    requires !s.threads[t].Writes(k) ==> Lookup(s'.db, k) == Lookup(s.db, k) && Lookup(m', k) == Lookup(m, k)
    requires p.Writes(k) ==>
               && (s.threads[t].Writes(k) || Settled(s, k))
               && PhaseOk(p, Waits(p, id), Lookup(m', k), Lookup(s'.db, k))
    requires s.threads[t].Writes(k) && !p.Writes(k) ==> Lookup(m', k) == Lookup(s'.db, k)
    ensures KeyFaithful(s', m', id, k)
  {
    if p.Writes(k) {
      assert s'.threads[t].Writes(k);
      forall u | 0 <= u < |s'.threads| && s'.threads[u].Writes(k)
        ensures PhaseOk(s'.threads[u], Waits(s'.threads[u], id), Lookup(m', k), Lookup(s'.db, k))
      {
        assert u == t;
      }
    } else if s.threads[t].Writes(k) {
      assert forall u :: 0 <= u < |s'.threads| ==> !s'.threads[u].Writes(k);
    } else {
      if Settled(s', k) {
        assert forall u :: 0 <= u < |s.threads| && u != t ==> s'.threads[u] == s.threads[u];
        assert Settled(s, k);
      }
    }
  }

  /** A write begins, commits, or removes its entry. */
  lemma ViewKeptByWriter<V>(s: State<V>, a: Action<V>, m: map<Key, V>, id: Option<int>, k: Key)
    requires Orderly(s) && Enabled(s, a) && Disciplined(s, a) && KeyFaithful(s, m, id, k)
    requires a.BeginCreate? || a.BeginUpdate? || a.BeginDelete? || a.Commit? || a.Remove?
    ensures KeyFaithful(Next(s, a), m, id, k)
  {
    var s', t := Next(s, a), a.t;
    assert s'.threads == s.threads[t := s'.threads[t]];
    assert Remembers(s, s.threads[t]);
    KeyKept(s, s', t, s'.threads[t], m, m, id, k);
  }

  /** A notification starts, is sent to another watcher, or ends. */
  lemma ViewKeptByNotifier<V>(s: State<V>, a: Action<V>, m: map<Key, V>, id: Option<int>, k: Key)
    requires Orderly(s) && Enabled(s, a) && Disciplined(s, a) && KeyFaithful(s, m, id, k)
    requires a.Enter? || a.Leave? || (a.Send? && id != Some(a.id))
    requires id.Some? ==> id.value in s.table.watchers
    requires id.None? ==> SomeSnapshot(s)
    ensures KeyFaithful(Next(s, a), m, id, k)
  {
    var s', t := Next(s, a), a.t;
    assert s'.threads == s.threads[t := s'.threads[t]];
    KeyKept(s, s', t, s'.threads[t], m, m, id, k);
  }

  lemma ViewKeptByWatch<V>(s: State<V>, a: Action<V>, m: map<Key, V>, id: Option<int>, k: Key)
    requires Orderly(s) && Enabled(s, a) && KeyFaithful(s, m, id, k)
    requires a.BeginWatch? || a.List? || a.SendSnapshot? || a.Join?
    ensures KeyFaithful(Next(s, a), m, id, k)
  {
    var s', t := Next(s, a), a.t;
    assert s'.threads == s.threads[t := s'.threads[t]];
    KeyKept(s, s', t, s'.threads[t], m, m, id, k);
  }

  /** A view whose channel receives nothing in this step. */
  lemma ViewKept<V>(s: State<V>, a: Action<V>, maxID: nat, m: map<Key, V>, id: Option<int>, k: Key)
    requires Safe(s, maxID) && Orderly(s) && Enabled(s, a) && Disciplined(s, a)
    requires a.Send? ==> id != Some(a.id)
    requires id.Some? ==> id.value in s.table.watchers
    requires id.None? ==> SomeSnapshot(s)
    requires KeyFaithful(s, m, id, k)
    ensures KeyFaithful(Next(s, a), m, id, k)
  {
    if a.Stop? || a.Receive? {
      assert Next(s, a).threads == s.threads && Next(s, a).db == s.db;
    } else if a.Enter? || a.Send? || a.Leave? {
      ViewKeptByNotifier(s, a, m, id, k);
    } else if a.BeginWatch? || a.List? || a.SendSnapshot? || a.Join? {
      ViewKeptByWatch(s, a, m, id, k);
    } else {
      ViewKeptByWriter(s, a, m, id, k);
    }
  }

  /** Goroutine t moves to phase p, which writes no key that another goroutine writes. */
  lemma OneWriterFrame<V>(s: State<V>, s': State<V>, t: nat, p: Phase<V>)
    requires OneWriter(s) && t < |s.threads| && s'.threads == s.threads[t := p]
    requires forall k :: p.Writes(k) ==> s.threads[t].Writes(k) || Settled(s, k)
    ensures OneWriter(s')
  {
    forall u, v, k | 0 <= u < v < |s'.threads| && s'.threads[u].Writes(k) ensures !s'.threads[v].Writes(k) {
      if u != t && v != t {
        assert s.threads[u].Writes(k);
      } else if u == t {
        assert s'.threads[v] == s.threads[v];
      } else {
        assert s'.threads[u] == s.threads[u];
      }
    }
  }

  lemma OneWriterKept<V>(s: State<V>, a: Action<V>)
    requires Orderly(s) && Enabled(s, a) && Disciplined(s, a)
    ensures OneWriter(Next(s, a))
  {
    if !a.Stop? && !a.Receive? {
      var p := Next(s, a).threads[a.t];
      assert forall k :: p.Writes(k) ==> s.threads[a.t].Writes(k) || Settled(s, k);
      OneWriterFrame(s, Next(s, a), a.t, p);
    }
  }

  /** A goroutine that does not move keeps its memory: only its own writer touches its key or its channel. */
  lemma RemembersKept<V>(s: State<V>, a: Action<V>, maxID: nat, u: nat)
    requires Safe(s, maxID) && Orderly(s) && Enabled(s, a)
    requires u < |s.threads| && (!a.Stop? && !a.Receive? ==> u != a.t)
    ensures Remembers(Next(s, a), Next(s, a).threads[u])
  {
    var p := s.threads[u];
    assert Remembers(s, p);
    assert Next(s, a).threads[u] == p;
    if p.PutReady? || p.Announce? || p.Sending? {
      var k := if p.PutReady? then p.key else p.ev.key;
      assert p.Writes(k);
      assert Lookup(Next(s, a).db, k) == Lookup(s.db, k);
    } else if p.Listing? {
      assert OwnsOpenChan(s, p);
      assert Next(s, a).chans[p.chan].sent == [];
    }
  }

  lemma MoverRemembers<V>(s: State<V>, a: Action<V>, maxID: nat)
    requires Safe(s, maxID) && Orderly(s) && Enabled(s, a) && !a.Stop? && !a.Receive?
    ensures Remembers(Next(s, a), Next(s, a).threads[a.t])
  {
    assert Remembers(s, s.threads[a.t]);
  }

  lemma OrderlyKept<V>(s: State<V>, a: Action<V>, maxID: nat)
    requires Safe(s, maxID) && Orderly(s) && Enabled(s, a) && Disciplined(s, a)
    ensures Orderly(Next(s, a))
  {
    OneWriterKept(s, a);
    forall u | 0 <= u < |s.threads| ensures Remembers(Next(s, a), Next(s, a).threads[u]) {
      if !a.Stop? && !a.Receive? && u == a.t {
        MoverRemembers(s, a, maxID);
      } else {
        RemembersKept(s, a, maxID, u);
      }
    }
  }

  lemma JoinedIsFaithful<V>(s: State<V>, t: nat, maxID: nat, id: int, k: Key)
    requires Invariant(s, maxID) && Enabled(s, Join(t))
    ensures KeyFaithful(Next(s, Join(t)), Replay(s.chans[s.threads[t].chan].sent), Some(id), k)
  {
    var m := Replay(s.chans[s.threads[t].chan].sent);
    assert SnapshotView(s, s.threads[t]) == m;
    assert KeyFaithful(s, m, None, k);
    assert KeyFaithful(s, m, Some(id), k);
    KeyKept(s, Next(s, Join(t)), t, Idle, m, m, Some(id), k);
  }

  lemma SentIsFaithful<V>(s: State<V>, t: nat, id: int, maxID: nat, k: Key)
    requires Invariant(s, maxID) && Enabled(s, Send(t, id))
    ensures KeyFaithful(Next(s, Send(t, id)),
              Replay(Next(s, Send(t, id)).chans[s.table.watchers[id]].sent), Some(id), k)
  {
    var s' := Next(s, Send(t, id));
    var sent := s.chans[s.table.watchers[id]].sent;
    var p := s.threads[t];
    ReplayAppend(sent, p.ev);
    assert s'.chans[s.table.watchers[id]].sent == sent + [p.ev];
    assert Remembers(s, p);
    assert KeyFaithful(s, Replay(sent), Some(id), k);
    KeyKept(s, s', t, s'.threads[t], Replay(sent), Apply(Replay(sent), p.ev), Some(id), k);
  }

  /** Only a send to a registered watcher changes its stream. */
  lemma UnsentStreamKept<V>(s: State<V>, a: Action<V>, maxID: nat, id: int)
    requires Safe(s, maxID) && Enabled(s, a) && (a.Send? ==> a.id != id)
    requires id in s.table.watchers && id in Next(s, a).table.watchers
    ensures var c := s.table.watchers[id];
            && Next(s, a).table.watchers[id] == c < |Next(s, a).chans|
            && Next(s, a).chans[c].sent == s.chans[c].sent
  {
    if a.SendSnapshot? {
      assert OwnsOpenChan(s, s.threads[a.t]);
    } else if a.Send? {
      assert s.table.watchers[a.id] != s.table.watchers[id];
    }
  }

  lemma RegisteredKept<V>(s: State<V>, a: Action<V>, maxID: nat, id: int, k: Key)
    requires Invariant(s, maxID) && Enabled(s, a) && Disciplined(s, a)
    requires Safe(Next(s, a), maxID) && id in Next(s, a).table.watchers
    ensures var s' := Next(s, a);
            KeyFaithful(s', Replay(s'.chans[s'.table.watchers[id]].sent), Some(id), k)
  {
    var s' := Next(s, a);
    if id !in s.table.watchers {
      assert a.Join?;
      JoinedIsFaithful(s, a.t, maxID, id, k);
    } else if a.Send? && a.id == id {
      SentIsFaithful(s, a.t, id, maxID, k);
    } else {
      var c := s.table.watchers[id];
      UnsentStreamKept(s, a, maxID, id);
      ViewKept(s, a, maxID, Replay(s.chans[c].sent), Some(id), k);
    }
  }

  lemma ListedIsFaithful<V>(s: State<V>, t: nat, maxID: nat, k: Key)
    requires Invariant(s, maxID) && Enabled(s, List(t)) && Disciplined(s, List(t))
    ensures var s' := Next(s, List(t));
            s'.threads[t].chan < |s'.chans| && KeyFaithful(s', SnapshotView(s', s'.threads[t]), None, k)
  {
    var s' := Next(s, List(t));
    assert Remembers(s, s.threads[t]);
    assert SnapshotView(s', s'.threads[t]) == s.db;
    assert KeyFaithful(s, s.db, None, k);
    KeyKept(s, s', t, s'.threads[t], s.db, s.db, None, k);
  }

  /** Sending an entry of the snapshot moves it from what is left to what is sent. */
  lemma SentSnapshotView<V>(s: State<V>, a: Action<V>, maxID: nat)
    requires Safe(s, maxID) && Enabled(s, a) && a.SendSnapshot?
    ensures var s' := Next(s, a);
            && s'.threads[a.t].Snapshot? && s'.threads[a.t].chan == s.threads[a.t].chan < |s.chans| == |s'.chans|
            && SnapshotView(s', s'.threads[a.t]) == SnapshotView(s, s.threads[a.t])
  {
    var s', p := Next(s, a), s.threads[a.t];
    assert OwnsOpenChan(s, p);
    var e := Event(Added, a.key, p.todo[a.key]);
    ReplayAppend(s.chans[p.chan].sent, e);
    assert s'.chans[p.chan].sent == s.chans[p.chan].sent + [e];
    assert s'.threads[a.t] == Phase.Snapshot(p.chan, p.todo - {a.key});
    assert Apply(Replay(s.chans[p.chan].sent), e) + (p.todo - {a.key}) == SnapshotView(s, p);
  }

  /** No step but List changes the map that a Watch will have sent. */
  lemma SnapshotViewKept<V>(s: State<V>, a: Action<V>, maxID: nat, u: nat)
    requires Safe(s, maxID) && Enabled(s, a)
    requires u < |s.threads| && s.threads[u].Snapshot? && Next(s, a).threads[u].Snapshot?
    ensures var s' := Next(s, a);
            && s'.threads[u].chan == s.threads[u].chan < |s'.chans|
            && SnapshotView(s', s'.threads[u]) == SnapshotView(s, s.threads[u])
  {
    if a.SendSnapshot? && a.t == u {
      SentSnapshotView(s, a, maxID);
    } else {
      var p := s.threads[u];
      assert OwnsOpenChan(s, p);
      assert Next(s, a).chans[p.chan].sent == s.chans[p.chan].sent;
    }
  }

  /** A Watch is in its snapshot because it was, or because it has just listed. */
  lemma ViewOrigin<V>(s: State<V>, a: Action<V>, maxID: nat, t: nat)
    requires Safe(s, maxID) && Enabled(s, a) && Safe(Next(s, a), maxID)
    requires t < |s.threads| && Next(s, a).threads[t].Snapshot?
    ensures s.threads[t].Snapshot? || a == List(t)
    ensures s.threads[t].Watching() && s.threads[t].chan < |s.chans|
    ensures Next(s, a).threads[t].chan < |Next(s, a).chans|
  {
    assert OwnsOpenChan(s, s.threads[t]);
  }

  lemma SnapshotKept<V>(s: State<V>, a: Action<V>, maxID: nat, u: nat, k: Key)
    requires Invariant(s, maxID) && Enabled(s, a) && Disciplined(s, a)
    requires Safe(Next(s, a), maxID)
    requires u < |s.threads| && Next(s, a).threads[u].Snapshot?
    ensures Next(s, a).threads[u].chan < |Next(s, a).chans|
    ensures KeyFaithful(Next(s, a), SnapshotView(Next(s, a), Next(s, a).threads[u]), None, k)
  {
    ViewOrigin(s, a, maxID, u);
    if !s.threads[u].Snapshot? {
      ListedIsFaithful(s, u, maxID, k);
    } else {
      SnapshotViewKept(s, a, maxID, u);
      assert KeyFaithful(s, SnapshotView(s, s.threads[u]), None, k);
      ViewKept(s, a, maxID, SnapshotView(s, s.threads[u]), None, k);
    }
  }

  lemma StepKeepsInvariant<V>(s: State<V>, a: Action<V>, maxID: nat)
    requires Invariant(s, maxID) && Enabled(s, a) && Disciplined(s, a)
    ensures Invariant(Next(s, a), maxID)
  {
    var s' := Next(s, a);
    StepKeepsSafe(s, a, maxID);
    OrderlyKept(s, a, maxID);
    forall id, k | id in s'.table.watchers
      ensures KeyFaithful(s', Replay(s'.chans[s'.table.watchers[id]].sent), Some(id), k)
    {
      RegisteredKept(s, a, maxID, id, k);
    }
    forall u, k | 0 <= u < |s'.threads| && s'.threads[u].Snapshot?
      ensures KeyFaithful(s', SnapshotView(s', s'.threads[u]), None, k)
    {
      SnapshotKept(s, a, maxID, u, k);
    }
  }

  lemma {:induction false} DisciplinedRunsKeepInvariant<V>(goroutines: nat, maxID: nat, acts: seq<Action<V>>)
    requires CanRun(Init(goroutines, maxID), acts) && DisciplinedRun(Init(goroutines, maxID), acts)
    ensures Invariant(After(Init(goroutines, maxID), acts), maxID)
  {
    if acts == [] {
      InitIsSafe<V>(goroutines, maxID);
    } else {
      var init := acts[..|acts| - 1];
      DisciplinedRunsKeepInvariant(goroutines, maxID, init);
      StepKeepsInvariant(After(Init(goroutines, maxID), init), acts[|acts| - 1], maxID);
    }
  }

  /** In every disciplined interleaving: for every registered watcher and every key that no write is in flight on,
      replaying the watcher's stream gives exactly the store's entry for that key. */
  lemma StreamsMirrorStore<V>(goroutines: nat, maxID: nat, acts: seq<Action<V>>, id: int, k: Key)
    requires CanRun(Init(goroutines, maxID), acts) && DisciplinedRun(Init(goroutines, maxID), acts)
    requires var s := After(Init(goroutines, maxID), acts); id in s.table.watchers && Settled(s, k)
    ensures var s := After(Init(goroutines, maxID), acts);
            && s.table.watchers[id] < |s.chans|
            && Lookup(Replay(s.chans[s.table.watchers[id]].sent), k) == Lookup(s.db, k)
  {
    DisciplinedRunsKeepInvariant(goroutines, maxID, acts);
    var s := After(Init(goroutines, maxID), acts);
    assert KeyFaithful(s, Replay(s.chans[s.table.watchers[id]].sent), Some(id), k);
  }

  lemma MapsEqual<V>(m: map<Key, V>, n: map<Key, V>)
    requires forall k :: Lookup(m, k) == Lookup(n, k)
    ensures m == n
  {
    assert forall k :: k in m <==> Lookup(m, k).Some?;
    assert forall k :: k in n <==> Lookup(n, k).Some?;
    assert forall k :: k in m ==> Lookup(m, k).value == Lookup(n, k).value;
  }

  lemma QuietViewIsTheStore<V>(s: State<V>, m: map<Key, V>, id: Option<int>)
    requires Faithful(s, m, id)
    requires forall t :: 0 <= t < |s.threads| ==> !s.threads[t].Writing()
    ensures m == s.db
  {
    forall k ensures Lookup(m, k) == Lookup(s.db, k) {
      assert KeyFaithful(s, m, id, k);
    }
    MapsEqual(m, s.db);
  }

  /** When no write is in flight at all, the replay is the store. */
  lemma QuietStreamsAreTheStore<V>(goroutines: nat, maxID: nat, acts: seq<Action<V>>, id: int)
    requires CanRun(Init(goroutines, maxID), acts) && DisciplinedRun(Init(goroutines, maxID), acts)
    requires id in After(Init(goroutines, maxID), acts).table.watchers
    requires forall p :: p in After(Init(goroutines, maxID), acts).threads ==> !p.Writing()
    ensures var s := After(Init(goroutines, maxID), acts);
            s.table.watchers[id] < |s.chans| && Replay(s.chans[s.table.watchers[id]].sent) == s.db
  {
    DisciplinedRunsKeepInvariant(goroutines, maxID, acts);
    var s := After(Init(goroutines, maxID), acts);
    QuietViewIsTheStore(s, Replay(s.chans[s.table.watchers[id]].sent), Some(id));
  }

  // ---------- A simpler discipline ----------

  ghost predicate NobodyWatches<V>(s: State<V>) {
    forall u :: 0 <= u < |s.threads| ==> !s.threads[u].Watching()
  }

  ghost predicate NobodyWrites<V>(s: State<V>) {
    forall u :: 0 <= u < |s.threads| ==> !s.threads[u].Writing()
  }

  /** Writers of the same key do not overlap and no Watch overlaps a write. */
  ghost predicate Apart<V>(s: State<V>, a: Action<V>) {
    && Obeys(s, a, OneWriterPerKey)
    && (a.BeginCreate? || a.BeginUpdate? || a.BeginDelete? ==> NobodyWatches(s))
    && (a.BeginWatch? ==> NobodyWrites(s))
  }

  ghost predicate ApartRun<V>(s: State<V>, acts: seq<Action<V>>)
    requires CanRun(s, acts)
  {
    acts == []
    || (ApartRun(s, acts[..|acts| - 1]) && Apart(After(s, acts[..|acts| - 1]), acts[|acts| - 1]))
  }

  ghost predicate WatchesAlone<V>(s: State<V>) {
    forall t, u :: 0 <= t < |s.threads| && 0 <= u < |s.threads| && s.threads[t].Watching() ==>
      !s.threads[u].Writing()
  }

  lemma AloneFrame<V>(s: State<V>, s': State<V>, t: nat, p: Phase<V>)
    requires WatchesAlone(s) && t < |s.threads| && s'.threads == s.threads[t := p]
    requires p.Watching() ==> s.threads[t].Watching() || NobodyWrites(s)
    requires p.Writing() ==> s.threads[t].Writing() || NobodyWatches(s)
    ensures WatchesAlone(s')
  {
    forall u, v | 0 <= u < |s'.threads| && 0 <= v < |s'.threads| && s'.threads[u].Watching()
      ensures !s'.threads[v].Writing()
    {
      assert u != t ==> s'.threads[u] == s.threads[u];
      assert v != t ==> s'.threads[v] == s.threads[v];
    }
  }

  lemma ApartStep<V>(s: State<V>, a: Action<V>)
    requires WatchesAlone(s) && Enabled(s, a) && Apart(s, a)
    ensures WatchesAlone(Next(s, a)) && Disciplined(s, a) && Obeys(s, a, NoListInCommit)
  {
    if !a.Stop? && !a.Receive? {
      AloneFrame(s, Next(s, a), a.t, Next(s, a).threads[a.t]);
    }
  }

  /** If no Watch overlaps a write and writers of the same key do not overlap, the run is disciplined, so its
      streams mirror the store. */
  lemma {:induction false} ApartRunsAreDisciplined<V>(goroutines: nat, maxID: nat, acts: seq<Action<V>>)
    requires CanRun(Init(goroutines, maxID), acts) && ApartRun(Init(goroutines, maxID), acts)
    ensures WatchesAlone(After(Init(goroutines, maxID), acts))
    ensures DisciplinedRun(Init(goroutines, maxID), acts)
  {
    if acts != [] {
      var init := acts[..|acts| - 1];
      ApartRunsAreDisciplined(goroutines, maxID, init);
      ApartStep(After(Init(goroutines, maxID), init), acts[|acts| - 1]);
    }
  }
}

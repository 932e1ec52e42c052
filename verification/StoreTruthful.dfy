/** Under all four rules no watcher is ever told anything untrue, in the middle of an interleaving either. */
module StoreTruthful {
  import opened Events
  import opened Interleaving
  import opened StoreReplica

  /** The discipline that mirrors the store, and no List between a write's commit and its notification. */
  ghost predicate Careful<V>(s: State<V>, a: Action<V>) {
    Disciplined(s, a) && Obeys(s, a, NoListInCommit)
  }

  ghost predicate CarefulRun<V>(s: State<V>, acts: seq<Action<V>>)
    requires CanRun(s, acts)
  {
    acts == []
    || (CarefulRun(s, acts[..|acts| - 1]) && Careful(After(s, acts[..|acts| - 1]), acts[|acts| - 1]))
  }

  /** Goroutine phase p still owes event p.ev to watcher id. */
  predicate Owes<V>(p: Phase<V>, id: int) {
    p.Announce? || (p.Sending? && id in p.pending)
  }

  ghost predicate OwedIsTruthful<V>(s: State<V>, id: int, p: Phase<V>)
    requires id in s.table.watchers && s.table.watchers[id] < |s.chans|
  {
    Owes(p, id) ==> TruthfulEvent(Replay(s.chans[s.table.watchers[id]].sent), p.ev)
  }

  /** A write that is about to be announced is true of what a Watch in phase p will have sent when it registers. */
  ghost predicate ViewIsReady<V>(s: State<V>, p: Phase<V>, q: Phase<V>)
    requires p.Snapshot? ==> p.chan < |s.chans|
  {
    p.Snapshot? && q.Announce? ==> TruthfulEvent(SnapshotView(s, p), q.ev)
  }

  ghost predicate SnapshotIsNew<V>(s: State<V>, p: Phase<V>)
    requires p.Snapshot? ==> p.chan < |s.chans|
  {
    p.Snapshot? ==> p.todo.Keys !! Replay(s.chans[p.chan].sent).Keys
  }

  ghost predicate StreamsTruthful<V>(s: State<V>) {
    forall c :: 0 <= c < |s.chans| ==> Truthful(s.chans[c].sent)
  }

  ghost predicate OwedTruthful<V>(s: State<V>)
    requires forall id :: id in s.table.watchers ==> s.table.watchers[id] < |s.chans|
  {
    forall id, t :: id in s.table.watchers && 0 <= t < |s.threads| ==> OwedIsTruthful(s, id, s.threads[t])
  }

  ghost predicate SnapshotsHaveChans<V>(s: State<V>) {
    forall t :: 0 <= t < |s.threads| && s.threads[t].Snapshot? ==> s.threads[t].chan < |s.chans|
  }

  ghost predicate ViewsReady<V>(s: State<V>)
    requires SnapshotsHaveChans(s)
  {
    forall t, u :: 0 <= t < |s.threads| && 0 <= u < |s.threads| ==> ViewIsReady(s, s.threads[t], s.threads[u])
  }

  ghost predicate SnapshotsNew<V>(s: State<V>)
    requires SnapshotsHaveChans(s)
  {
    forall t :: 0 <= t < |s.threads| ==> SnapshotIsNew(s, s.threads[t])
  }

  /** Every stream is truthful, closed ones included; so is every event still owed to a watcher, registered or about
      to be; and a snapshot has no entry twice. */
  ghost predicate AllTruthful<V>(s: State<V>)
    requires forall id :: id in s.table.watchers ==> s.table.watchers[id] < |s.chans|
    requires SnapshotsHaveChans(s)
  {
    StreamsTruthful(s) && OwedTruthful(s) && ViewsReady(s) && SnapshotsNew(s)
  }

  ghost predicate Inv<V>(s: State<V>, maxID: nat) {
    Invariant(s, maxID) && AllTruthful(s)
  }

  lemma StreamsStayTruthful<V>(s: State<V>, a: Action<V>, maxID: nat, c: nat)
    requires Inv(s, maxID) && Enabled(s, a) && c < |Next(s, a).chans|
    ensures Truthful(Next(s, a).chans[c].sent)
  {
    var s' := Next(s, a);
    if a.Send? && s.table.watchers[a.id] == c {
      var p := s.threads[a.t];
      assert OwedIsTruthful(s, a.id, p);
      TruthfulAppend(s.chans[c].sent, p.ev);
    } else if a.SendSnapshot? && s.threads[a.t].chan == c {
      var p := s.threads[a.t];
      assert SnapshotIsNew(s, p) && a.key in p.todo.Keys;
      TruthfulAppend(s.chans[c].sent, Event(Added, a.key, p.todo[a.key]));
    } else if c < |s.chans| {
      assert s'.chans[c].sent == s.chans[c].sent;
    }
  }

  lemma AnnounceOrigin<V>(s: State<V>, a: Action<V>, u: nat)
    requires Enabled(s, a) && u < |s.threads| && Next(s, a).threads[u].Announce?
    ensures Next(s, a).threads[u] == s.threads[u]
            || ((a.Commit? || a.BeginDelete?) && u == a.t && !s.threads[u].Announce?)
  {
  }

  /** A write that is about to be announced is true of every view that is faithful to the store. */
  lemma NewlyOwed<V>(s: State<V>, a: Action<V>, maxID: nat, m: map<Key, V>, id: Option<int>)
    requires Invariant(s, maxID) && Enabled(s, a) && Disciplined(s, a) && (a.Commit? || a.BeginDelete?)
    requires Faithful(s, m, id) && Next(s, a).threads[a.t].Announce? && !s.threads[a.t].Announce?
    ensures TruthfulEvent(m, Next(s, a).threads[a.t].ev)
  {
    var p := s.threads[a.t];
    var k := if a.Commit? then p.key else a.key;
    assert KeyFaithful(s, m, id, k);
    if a.Commit? {
      assert p.Writes(k) && Remembers(s, p);
    }
  }

  lemma OwedBefore<V>(s: State<V>, a: Action<V>, id: int, u: nat)
    requires Enabled(s, a) && u < |s.threads| && id in s.table.watchers && Owes(Next(s, a).threads[u], id)
    ensures (Owes(s.threads[u], id) && s.threads[u].ev == Next(s, a).threads[u].ev)
            || ((a.Commit? || a.BeginDelete?) && u == a.t && Next(s, a).threads[u].Announce? && !s.threads[u].Announce?)
  {
  }

  /** A truthful event stays truthful when an event about another key is sent. */
  lemma OtherKeySent<V>(sent: seq<Event<V>>, e: Event<V>, ev: Event<V>)
    requires TruthfulEvent(Replay(sent), ev) && e.key != ev.key
    ensures TruthfulEvent(Replay(sent + [e]), ev)
  {
    ReplayAppend(sent, e);
  }

  lemma OwedKeysDiffer<V>(s: State<V>, t: nat, u: nat)
    requires OneWriter(s) && t < |s.threads| && u < |s.threads| && t != u
    requires s.threads[t].Sending? && (s.threads[u].Announce? || s.threads[u].Sending?)
    ensures s.threads[t].ev.key != s.threads[u].ev.key
  {
    assert s.threads[t].Writes(s.threads[t].ev.key) && s.threads[u].Writes(s.threads[u].ev.key);
  }

  /** A send to the watcher's own channel comes from another goroutine, so it is about another key. */
  lemma OwedOutlivesSend<V>(s: State<V>, a: Action<V>, maxID: nat, id: int, u: nat)
    requires Inv(s, maxID) && Enabled(s, a) && a.Send?
    requires id in s.table.watchers && u < |s.threads| && Owes(Next(s, a).threads[u], id)
    ensures OwedIsTruthful(Next(s, a), id, Next(s, a).threads[u])
  {
    var c := s.table.watchers[id];
    OwedBefore(s, a, id, u);
    assert OwedIsTruthful(s, id, s.threads[u]);
    if a.id == id {
      assert u != a.t;
      OwedKeysDiffer(s, a.t, u);
      OtherKeySent(s.chans[c].sent, s.threads[a.t].ev, s.threads[u].ev);
      assert Next(s, a).chans[c].sent == s.chans[c].sent + [s.threads[a.t].ev];
    } else {
      UnsentStreamKept(s, a, maxID, id);
    }
  }

  /** Nobody is sending when a Watch registers, and what is about to be announced was ready for its view. */
  lemma OwedAtJoin<V>(s: State<V>, t: nat, maxID: nat, id: int, u: nat)
    requires Inv(s, maxID) && Enabled(s, Join(t)) && Safe(Next(s, Join(t)), maxID)
    requires id in Next(s, Join(t)).table.watchers && id !in s.table.watchers && u < |s.threads|
    ensures OwedIsTruthful(Next(s, Join(t)), id, Next(s, Join(t)).threads[u])
  {
    var p := s.threads[t];
    assert ViewIsReady(s, p, s.threads[u]);
    assert SnapshotView(s, p) == Replay(s.chans[p.chan].sent);
  }

  lemma OwedWithoutSend<V>(s: State<V>, a: Action<V>, maxID: nat, id: int, u: nat)
    requires Inv(s, maxID) && Enabled(s, a) && Disciplined(s, a) && !a.Send?
    requires id in s.table.watchers && u < |s.threads| && Owes(Next(s, a).threads[u], id)
    ensures TruthfulEvent(Replay(s.chans[s.table.watchers[id]].sent), Next(s, a).threads[u].ev)
  {
    OwedBefore(s, a, id, u);
    if Owes(s.threads[u], id) && s.threads[u].ev == Next(s, a).threads[u].ev {
      assert OwedIsTruthful(s, id, s.threads[u]);
    } else {
      NewlyOwed(s, a, maxID, Replay(s.chans[s.table.watchers[id]].sent), Some(id));
    }
  }

  lemma OwedStaysTruthful<V>(s: State<V>, a: Action<V>, maxID: nat, id: int, u: nat)
    requires Inv(s, maxID) && Enabled(s, a) && Disciplined(s, a)
    requires Safe(Next(s, a), maxID) && id in Next(s, a).table.watchers && u < |s.threads|
    ensures OwedIsTruthful(Next(s, a), id, Next(s, a).threads[u])
  {
    if id !in s.table.watchers {
      assert a.Join?;
      OwedAtJoin(s, a.t, maxID, id, u);
    } else if Owes(Next(s, a).threads[u], id) {
      if a.Send? {
        OwedOutlivesSend(s, a, maxID, id, u);
      } else {
        UnsentStreamKept(s, a, maxID, id);
        OwedWithoutSend(s, a, maxID, id, u);
      }
    }
  }

  /** A Watch that lists finds every write announced, unless it is a Delete, whose entry it lists. */
  lemma ReadyAtList<V>(s: State<V>, t: nat, maxID: nat, u: nat)
    requires Inv(s, maxID) && Enabled(s, List(t)) && Obeys(s, List(t), NoListInCommit) && u < |s.threads|
    requires s.threads[t].chan < |s.chans|
    ensures ViewIsReady(Next(s, List(t)), Next(s, List(t)).threads[t], Next(s, List(t)).threads[u])
  {
    var s' := Next(s, List(t));
    assert Remembers(s, s.threads[t]);
    assert SnapshotView(s', s'.threads[t]) == s.db;
    if s'.threads[u].Announce? {
      assert s'.threads[u] == s.threads[u] && !Unannounced(s.threads[u]) && Remembers(s, s.threads[u]);
    }
  }

  lemma OldViewStaysReady<V>(s: State<V>, a: Action<V>, maxID: nat, t: nat, u: nat)
    requires Inv(s, maxID) && Enabled(s, a) && Disciplined(s, a)
    requires t < |s.threads| && u < |s.threads| && s.threads[t].Snapshot? && Next(s, a).threads[t].Snapshot?
    requires Next(s, a).threads[u].Announce?
    ensures s.threads[t].chan < |s.chans|
    ensures TruthfulEvent(SnapshotView(s, s.threads[t]), Next(s, a).threads[u].ev)
  {
    assert OwnsOpenChan(s, s.threads[t]);
    AnnounceOrigin(s, a, u);
    if Next(s, a).threads[u] != s.threads[u] {
      NewlyOwed(s, a, maxID, SnapshotView(s, s.threads[t]), None);
    } else {
      assert ViewIsReady(s, s.threads[t], s.threads[u]);
    }
  }

  lemma ViewStaysReady<V>(s: State<V>, a: Action<V>, maxID: nat, t: nat, u: nat)
    requires Inv(s, maxID) && Enabled(s, a) && Careful(s, a) && Safe(Next(s, a), maxID)
    requires t < |s.threads| && u < |s.threads| && Next(s, a).threads[t].Snapshot?
    ensures Next(s, a).threads[t].chan < |Next(s, a).chans|
    ensures ViewIsReady(Next(s, a), Next(s, a).threads[t], Next(s, a).threads[u])
  {
    ViewOrigin(s, a, maxID, t);
    if !s.threads[t].Snapshot? {
      ReadyAtList(s, t, maxID, u);
    } else {
      SnapshotViewKept(s, a, maxID, t);
      if Next(s, a).threads[u].Announce? {
        OldViewStaysReady(s, a, maxID, t, u);
      }
    }
  }

  lemma SentSnapshotIsNew<V>(s: State<V>, t: nat, k: Key, maxID: nat)
    requires Inv(s, maxID) && Enabled(s, SendSnapshot(t, k)) && s.threads[t].chan < |s.chans|
    ensures SnapshotIsNew(Next(s, SendSnapshot(t, k)), Next(s, SendSnapshot(t, k)).threads[t])
  {
    var p := s.threads[t];
    assert OwnsOpenChan(s, p) && SnapshotIsNew(s, p);
    ReplayAppend(s.chans[p.chan].sent, Event(Added, k, p.todo[k]));
    assert Next(s, SendSnapshot(t, k)).chans[p.chan].sent == s.chans[p.chan].sent + [Event(Added, k, p.todo[k])];
  }

  lemma SnapshotStaysNew<V>(s: State<V>, a: Action<V>, maxID: nat, u: nat)
    requires Inv(s, maxID) && Enabled(s, a) && Safe(Next(s, a), maxID) && u < |s.threads|
    ensures var p := Next(s, a).threads[u]; p.Snapshot? ==> p.chan < |Next(s, a).chans|
    ensures SnapshotIsNew(Next(s, a), Next(s, a).threads[u])
  {
    if Next(s, a).threads[u].Snapshot? {
      ViewOrigin(s, a, maxID, u);
      var p := s.threads[u];
      if a.SendSnapshot? && a.t == u {
        SentSnapshotIsNew(s, u, a.key, maxID);
      } else {
        assert OwnsOpenChan(s, p) && SnapshotIsNew(s, p) && Remembers(s, p);
        assert Next(s, a).chans[p.chan].sent == s.chans[p.chan].sent;
      }
    }
  }

  lemma OwedKept<V>(s: State<V>, a: Action<V>, maxID: nat)
    requires Inv(s, maxID) && Enabled(s, a) && Careful(s, a) && Safe(Next(s, a), maxID)
    ensures OwedTruthful(Next(s, a))
  {
    var s' := Next(s, a);
    forall id, u | id in s'.table.watchers && 0 <= u < |s'.threads| ensures OwedIsTruthful(s', id, s'.threads[u]) {
      OwedStaysTruthful(s, a, maxID, id, u);
    }
  }

  lemma ViewsKept<V>(s: State<V>, a: Action<V>, maxID: nat)
    requires Inv(s, maxID) && Enabled(s, a) && Careful(s, a) && Safe(Next(s, a), maxID)
    ensures SnapshotsHaveChans(Next(s, a)) && ViewsReady(Next(s, a)) && SnapshotsNew(Next(s, a))
  {
    var s' := Next(s, a);
    forall t, u | 0 <= t < |s'.threads| && 0 <= u < |s'.threads| && s'.threads[t].Snapshot?
      ensures s'.threads[t].chan < |s'.chans| && ViewIsReady(s', s'.threads[t], s'.threads[u])
    {
      ViewStaysReady(s, a, maxID, t, u);
    }
    forall t | 0 <= t < |s'.threads|
      ensures s'.threads[t].Snapshot? ==> s'.threads[t].chan < |s'.chans|
      ensures SnapshotIsNew(s', s'.threads[t])
    {
      SnapshotStaysNew(s, a, maxID, t);
    }
  }

  lemma StepKeepsTruth<V>(s: State<V>, a: Action<V>, maxID: nat)
    requires Inv(s, maxID) && Enabled(s, a) && Careful(s, a)
    ensures Inv(Next(s, a), maxID)
  {
    StepKeepsInvariant(s, a, maxID);
    forall c | 0 <= c < |Next(s, a).chans| ensures Truthful(Next(s, a).chans[c].sent) {
      StreamsStayTruthful(s, a, maxID, c);
    }
    OwedKept(s, a, maxID);
    ViewsKept(s, a, maxID);
  }

  /** In every interleaving that obeys the four rules, every stream, of running and of stopped watchers, is truthful
      event by event. */
  lemma {:induction false} CarefulRunsAreTruthful<V>(goroutines: nat, maxID: nat, acts: seq<Action<V>>)
    requires CanRun(Init(goroutines, maxID), acts) && CarefulRun(Init(goroutines, maxID), acts)
    ensures Inv(After(Init(goroutines, maxID), acts), maxID)
    ensures forall c :: 0 <= c < |After(Init(goroutines, maxID), acts).chans| ==>
              Truthful(After(Init(goroutines, maxID), acts).chans[c].sent)
  {
    if acts == [] {
      InitIsSafe<V>(goroutines, maxID);
    } else {
      var init := acts[..|acts| - 1];
      CarefulRunsAreTruthful(goroutines, maxID, init);
      StepKeepsTruth(After(Init(goroutines, maxID), init), acts[|acts| - 1], maxID);
    }
  }

  lemma {:induction false} ApartRunsAreCareful<V>(goroutines: nat, maxID: nat, acts: seq<Action<V>>)
    requires CanRun(Init(goroutines, maxID), acts) && ApartRun(Init(goroutines, maxID), acts)
    ensures CarefulRun(Init(goroutines, maxID), acts)
  {
    if acts != [] {
      var init := acts[..|acts| - 1];
      ApartRunsAreCareful(goroutines, maxID, init);
      ApartRunsAreDisciplined(goroutines, maxID, init);
      ApartStep(After(Init(goroutines, maxID), init), acts[|acts| - 1]);
    }
  }

  /** In particular if no Watch overlaps a write and writers of the same key do not overlap. */
  lemma ApartRunsAreTruthful<V>(goroutines: nat, maxID: nat, acts: seq<Action<V>>)
    requires CanRun(Init(goroutines, maxID), acts) && ApartRun(Init(goroutines, maxID), acts)
    ensures forall c :: 0 <= c < |After(Init(goroutines, maxID), acts).chans| ==>
              Truthful(After(Init(goroutines, maxID), acts).chans[c].sent)
  {
    ApartRunsAreCareful(goroutines, maxID, acts);
    CarefulRunsAreTruthful(goroutines, maxID, acts);
  }
}

/** The rules are exactly right: streams replay to the store in all runs that obey a set of rules if and only if the
    set has the first three, and they are truthful if and only if it has all four. A run that breaks one rule only
    leaves a watcher that disagrees with the store until somebody writes the key again. */
module StoreReplicaLimits {
  import opened Events
  import opened Interleaving
  import opened StoreReplica
  import opened StoreTruthful

  ghost predicate ObeysAllBut(s: State<int>, a: Action<int>, rule: Rule) {
    && (rule != OneWriterPerKey ==> Obeys(s, a, OneWriterPerKey))
    && (rule != NoNotifyInWatch ==> Obeys(s, a, NoNotifyInWatch))
    && (rule != NoListInDelete ==> Obeys(s, a, NoListInDelete))
    && (rule != NoListInCommit ==> Obeys(s, a, NoListInCommit))
  }

  ghost predicate RunObeysAllBut(s: State<int>, acts: seq<Action<int>>, rule: Rule)
    requires CanRun(s, acts)
  {
    acts == []
    || (RunObeysAllBut(s, acts[..|acts| - 1], rule)
        && ObeysAllBut(After(s, acts[..|acts| - 1]), acts[|acts| - 1], rule))
  }

  /** `s` is reached from the initial state by a run that obeys every rule but `rule`. */
  ghost predicate Reaches(init: State<int>, s: State<int>, rule: Rule) {
    exists acts :: CanRun(init, acts) && After(init, acts) == s && RunObeysAllBut(init, acts, rule)
  }

  lemma ReachesStart(init: State<int>, rule: Rule)
    ensures Reaches(init, init, rule)
  {
    assert CanRun(init, []) && After(init, []) == init;
  }

  lemma ReachesNext(init: State<int>, s: State<int>, a: Action<int>, rule: Rule)
    requires Reaches(init, s, rule) && Enabled(s, a) && ObeysAllBut(s, a, rule)
    ensures Reaches(init, Next(s, a), rule)
  {
    var acts :| CanRun(init, acts) && After(init, acts) == s && RunObeysAllBut(init, acts, rule);
    var longer := acts + [a];
    assert longer[..|longer| - 1] == acts;
    assert CanRun(init, longer) && After(init, longer) == Next(s, a);
  }

  /** Every step that obeys the other rules stays inside P. */
  ghost predicate Closed(P: iset<State<int>>, rule: Rule) {
    forall s, a :: s in P && Enabled(s, a) && ObeysAllBut(s, a, rule) ==> Next(s, a) in P
  }

  /** The states reached from the initial state of two goroutines. */
  ghost function Reachable(rule: Rule): (P: iset<State<int>>)
    ensures Init(2, 32) in P && Closed(P, rule)
    ensures forall s :: s in P <==> Reaches(Init(2, 32), s, rule)
  {
    ReachesStart(Init(2, 32), rule);
    var P := iset s | Reaches(Init(2, 32), s, rule);
    assert Closed(P, rule) by {
      forall s, a | s in P && Enabled(s, a) && ObeysAllBut(s, a, rule) ensures Next(s, a) in P {
        ReachesNext(Init(2, 32), s, a, rule);
      }
    }
    P
  }

  lemma Go(P: iset<State<int>>, s: State<int>, a: Action<int>, rule: Rule) returns (s': State<int>)
    requires Closed(P, rule) && s in P && Enabled(s, a) && ObeysAllBut(s, a, rule)
    ensures s' == Next(s, a) && s' in P
  {
    s' := Next(s, a);
  }

  // ---------- A disagreement lasts ----------

  /** Nobody is writing k, and what watcher id has been told about it is not what is stored. */
  ghost predicate Disagrees<V>(s: State<V>, id: int, k: Key) {
    && Settled(s, k)
    && id in s.table.watchers && s.table.watchers[id] < |s.chans|
    && Lookup(Replay(s.chans[s.table.watchers[id]].sent), k) != Lookup(s.db, k)
  }

  predicate BeginsWriteOf<V>(a: Action<V>, k: Key) {
    (a.BeginCreate? || a.BeginUpdate? || a.BeginDelete?) && a.key == k
  }

  /** Nobody starts to write k, and watcher id is not stopped. */
  ghost predicate LeavesAlone<V>(acts: seq<Action<V>>, id: int, k: Key) {
    forall i :: 0 <= i < |acts| ==> !BeginsWriteOf(acts[i], k) && acts[i] != Stop(id)
  }

  lemma StreamKeptAt<V>(s: State<V>, a: Action<V>, maxID: nat, id: int, k: Key)
    requires Safe(s, maxID) && Enabled(s, a) && Settled(s, k)
    requires id in s.table.watchers && id in Next(s, a).table.watchers
    ensures var c := s.table.watchers[id];
            && Next(s, a).table.watchers[id] == c < |Next(s, a).chans|
            && Lookup(Replay(Next(s, a).chans[c].sent), k) == Lookup(Replay(s.chans[c].sent), k)
  {
    var c := s.table.watchers[id];
    if !a.Send? {
      UnsentStreamKept(s, a, maxID, id);
    } else if s.table.watchers[a.id] == c {
      var e := s.threads[a.t].ev;
      assert s.threads[a.t].Writes(e.key);
      ReplayAppend(s.chans[c].sent, e);
      assert Next(s, a).chans[c].sent == s.chans[c].sent + [e];
    }
  }

  lemma StaysSettled<V>(s: State<V>, a: Action<V>, k: Key)
    requires Enabled(s, a) && Settled(s, k) && !BeginsWriteOf(a, k)
    ensures Settled(Next(s, a), k) && Lookup(Next(s, a).db, k) == Lookup(s.db, k)
  {
    if !a.Stop? && !a.Receive? {
      assert !s.threads[a.t].Writes(k);
      assert forall u :: 0 <= u < |s.threads| && u != a.t ==> Next(s, a).threads[u] == s.threads[u];
    }
  }

  /** A disagreement survives every run in which nobody starts to write the key and the watcher is not stopped. */
  lemma {:induction false} DisagreementLasts<V>(s: State<V>, acts: seq<Action<V>>, maxID: nat, id: int, k: Key)
    requires Safe(s, maxID) && Disagrees(s, id, k) && CanRun(s, acts)
    requires LeavesAlone(acts, id, k)
    ensures Safe(After(s, acts), maxID) && Disagrees(After(s, acts), id, k)
  {
    if acts != [] {
      var init, a := acts[..|acts| - 1], acts[|acts| - 1];
      assert forall i :: 0 <= i < |init| ==> init[i] == acts[i];
      DisagreementLasts(s, init, maxID, id, k);
      var mid := After(s, init);
      StepKeepsSafe(mid, a, maxID);
      assert !BeginsWriteOf(a, k) && a != Stop(id);
      StaysSettled(mid, a, k);
      StreamKeptAt(mid, a, maxID, id, k);
    }
  }

  // ---------- Runs that break one rule ----------

  ghost predicate Quiet<V>(s: State<V>) {
    forall t :: 0 <= t < |s.threads| ==> s.threads[t].Idle?
  }

  /** Nothing is in flight, and the watcher registered under id 0 disagrees with the store about k, now and after every
      run that leaves it and k alone. */
  ghost predicate Diverged(s: State<int>, k: Key) {
    && Quiet(s)
    && forall acts :: CanRun(s, acts) && LeavesAlone(acts, 0, k) ==> Disagrees(After(s, acts), 0, k)
  }

  lemma DivergesForGood(s: State<int>, rule: Rule, k: Key)
    requires Reaches(Init(2, 32), s, rule) && Quiet(s) && Disagrees(s, 0, k)
    ensures Diverged(s, k)
  {
    var run :| CanRun(Init(2, 32), run) && After(Init(2, 32), run) == s && RunObeysAllBut(Init(2, 32), run, rule);
    RunsAreSafe(2, 32, run);
    forall acts | CanRun(s, acts) && LeavesAlone(acts, 0, k) ensures Disagrees(After(s, acts), 0, k) {
      DisagreementLasts(s, acts, 32, 0, k);
    }
  }

  /** The watcher registered under id 0 has been told something untrue. */
  ghost predicate Misled(s: State<int>) {
    && 0 in s.table.watchers && s.table.watchers[0] < |s.chans|
    && !Truthful(s.chans[s.table.watchers[0]].sent)
  }

  /** Both goroutines idle, and one watcher, registered under id 0, that has been sent `sent`. */
  ghost predicate Watched(s: State<int>, db: map<Key, int>, sent: seq<Event<int>>) {
    && !s.panicked && s.threads == [Idle, Idle] && s.db == db
    && s.table.watchers == map[0 := 0] && s.chans == [Chan(sent, 0, false)]
  }

  /** Two idle goroutines, an empty store, no watchers. */
  lemma Start(rule: Rule) returns (P: iset<State<int>>, s: State<int>)
    ensures P == Reachable(rule) && Closed(P, rule) && s in P
    ensures s.db == map[] && s.chans == [] && s.threads == [Idle, Idle] && !s.panicked
    ensures s.table.watchers == map[] && s.table.ids.avail != [] && s.table.ids.avail[0] == 0
  {
    P := Reachable(rule);
    s := Init(2, 32);
  }

  /** Goroutine 1 creates k while nobody is registered. */
  lemma CreateUnwatched(P: iset<State<int>>, s0: State<int>, rule: Rule, k: Key) returns (s: State<int>)
    requires Closed(P, rule) && s0 in P && !s0.panicked && |s0.threads| == 2
    requires k !in s0.db && s0.table.watchers == map[]
    requires s0.threads[1].Idle? && !s0.threads[0].Writing()
    requires rule == NoNotifyInWatch || !s0.threads[0].Snapshot?
    ensures s in P && s == s0.(db := s0.db[k := 1])
  {
    s := Go(P, s0, BeginCreate(1, k, 1), rule);
    s := Go(P, s, Commit(1), rule);
    s := Go(P, s, Enter(1), rule);
    s := Go(P, s, Leave(1), rule);
  }

  /** Goroutine 0 starts a Watch and lists. */
  lemma WatchAndList(P: iset<State<int>>, s0: State<int>, rule: Rule) returns (s: State<int>)
    requires Closed(P, rule) && s0 in P && !s0.panicked && |s0.threads| == 2
    requires s0.threads[0].Idle? && s0.table.ids.avail != []
    requires rule == NoListInDelete || !HalfDeleted(s0.threads[1])
    requires rule == NoListInCommit || !Unannounced(s0.threads[1])
    ensures s in P
    ensures s == s0.(chans := s0.chans + [Chan([], 0, false)],
                     threads := s0.threads[0 := Phase.Snapshot(|s0.chans|, s0.db)])
  {
    s := Go(P, s0, BeginWatch(0), rule);
    s := Go(P, s, List(0), rule);
  }

  /** Goroutine t announces e to the only watcher. */
  lemma Announces(P: iset<State<int>>, s0: State<int>, rule: Rule, t: nat, e: Event<int>) returns (s: State<int>)
    requires Closed(P, rule) && s0 in P && !s0.panicked && |s0.threads| == 2
    requires t < 2 && s0.threads[t] == Announce(e) && !e.kind.Deleted? && !SomeSnapshot(s0)
    requires s0.table.watchers == map[0 := 0] && |s0.chans| == 1 && !s0.chans[0].closed && s0.chans[0].HasRoom()
    ensures s in P
    ensures s == s0.(threads := s0.threads[t := Idle], chans := [s0.chans[0].(sent := s0.chans[0].sent + [e])])
  {
    s := Go(P, s0, Enter(t), rule);
    s := Go(P, s, Send(t, 0), rule);
    s := Go(P, s, Leave(t), rule);
  }

  /** Goroutine 1 stores k, which sends e, while all is quiet. */
  lemma Puts(P: iset<State<int>>, s0: State<int>, rule: Rule, k: Key, v: int, e: Event<int>) returns (s: State<int>)
    requires Closed(P, rule) && s0 in P && |s0.chans| == 1 && |s0.chans[0].sent| < CAPACITY
    requires Watched(s0, s0.db, s0.chans[0].sent) && Notice(k, v, Lookup(s0.db, k)) == Some(e)
    ensures s in P && Watched(s, s0.db[k := v], s0.chans[0].sent + [e])
  {
    s := Go(P, s0, BeginUpdate(1, k, v), rule);
    s := Go(P, s, Commit(1), rule);
    s := Announces(P, s, rule, 1, e);
  }

  /** A watcher is registered whose Watch did not see the notification of k. */
  lemma NotifyInsideWatch(k: Key) returns (P: iset<State<int>>, s: State<int>)
    ensures P == Reachable(NoNotifyInWatch) && Closed(P, NoNotifyInWatch) && s in P && Watched(s, map[k := 1], [])
  {
    P, s := Start(NoNotifyInWatch);
    s := WatchAndList(P, s, NoNotifyInWatch);
    s := CreateUnwatched(P, s, NoNotifyInWatch, k);
    s := Go(P, s, Join(0), NoNotifyInWatch);
  }

  /** A write announced between a Watch's List and its Add is never sent to that watcher. */
  lemma NotifyInsideWatchDiverges(k: Key)
    ensures exists s :: Reaches(Init(2, 32), s, NoNotifyInWatch) && Diverged(s, k)
  {
    var P, s := NotifyInsideWatch(k);
    assert s.chans[s.table.watchers[0]].sent == [];
    DivergesForGood(s, NoNotifyInWatch, k);
  }

  /** ... and its next change is announced as Modified to a watcher that has not been told of it. */
  lemma NotifyInsideWatchMisleads(k: Key)
    ensures exists s :: Reaches(Init(2, 32), s, NoNotifyInWatch) && Misled(s)
  {
    var P, s := NotifyInsideWatch(k);
    var e := Event(Modified, k, 2);
    s := Puts(P, s, NoNotifyInWatch, k, 2, e);
    TruthfulAppend([], e);
    assert Misled(s);
  }

  /** Goroutine 1 deletes k, which nobody watches, up to but not including the removal. */
  lemma NotifyDelete(P: iset<State<int>>, s0: State<int>, rule: Rule, k: Key) returns (s: State<int>)
    requires Closed(P, rule) && s0 in P && !s0.panicked && |s0.threads| == 2
    requires k in s0.db && s0.table.watchers == map[]
    requires s0.threads[0].Idle? && s0.threads[1].Idle?
    ensures s in P && s == s0.(threads := s0.threads[1 := Removing(k)])
  {
    s := Go(P, s0, BeginDelete(1, k), rule);
    s := Go(P, s, Enter(1), rule);
    s := Go(P, s, Leave(1), rule);
  }

  /** Goroutine 0 sends the one entry that it listed and registers. */
  lemma SendAndJoin(P: iset<State<int>>, s0: State<int>, rule: Rule, k: Key) returns (s: State<int>)
    requires Closed(P, rule) && s0 in P && !s0.panicked && |s0.threads| == 2 && !s0.threads[1].Sending?
    requires s0.db == map[k := 1] && s0.chans == [Chan([], 0, false)]
    requires s0.threads[0] == Phase.Snapshot(0, s0.db)
    requires s0.table.watchers == map[] && s0.table.ids.avail != [] && s0.table.ids.avail[0] == 0
    ensures s in P && !s.panicked && s.db == s0.db && s.threads == s0.threads[0 := Idle]
    ensures s.table.watchers == map[0 := 0] && s.chans == [Chan([] + [Event(Added, k, 1)], 0, false)]
  {
    s := Go(P, s0, SendSnapshot(0, k), rule);
    s := Go(P, s, Join(0), rule);
  }

  /** A watcher is registered whose Watch listed k after it was announced as deleted. */
  lemma ListInsideDelete(k: Key) returns (P: iset<State<int>>, s: State<int>)
    ensures P == Reachable(NoListInDelete) && Closed(P, NoListInDelete) && s in P
    ensures Watched(s, map[], [] + [Event(Added, k, 1)])
  {
    P, s := Start(NoListInDelete);
    s := CreateUnwatched(P, s, NoListInDelete, k);
    s := NotifyDelete(P, s, NoListInDelete, k);
    s := WatchAndList(P, s, NoListInDelete);
    s := SendAndJoin(P, s, NoListInDelete, k);
    s := Go(P, s, Remove(1), NoListInDelete);
  }

  /** A Watch that lists between a Delete's notification and its removal keeps the deleted entry. */
  lemma ListInsideDeleteDiverges(k: Key)
    ensures exists s :: Reaches(Init(2, 32), s, NoListInDelete) && Diverged(s, k)
  {
    var P, s := ListInsideDelete(k);
    ReplayAppend([], Event(Added, k, 1));
    assert k in Replay(s.chans[s.table.watchers[0]].sent);
    DivergesForGood(s, NoListInDelete, k);
  }

  /** ... and when it is created again, it is announced as Added to a watcher that has been told of it. */
  lemma ListInsideDeleteMisleads(k: Key)
    ensures exists s :: Reaches(Init(2, 32), s, NoListInDelete) && Misled(s)
  {
    var P, s := ListInsideDelete(k);
    var e := Event(Added, k, 1);
    s := Puts(P, s, NoListInDelete, k, 1, e);
    ReplayAppend([], e);
    TruthfulAppend([] + [e], e);
    assert Misled(s);
  }

  lemma AnnouncesAgain(P: iset<State<int>>, s0: State<int>, e: Event<int>) returns (s: State<int>)
    requires Closed(P, NoListInCommit) && s0 in P && !s0.panicked && e.kind.Added?
    requires s0.threads == [Idle, Announce(e)] && s0.db == map[e.key := e.obj]
    requires s0.table.watchers == map[0 := 0] && s0.chans == [Chan([] + [e], 0, false)]
    ensures s in P && Watched(s, s0.db, [e] + [e])
  {
    assert [] + [e] == [e];
    s := Announces(P, s0, NoListInCommit, 1, e);
  }

  /** Goroutine 1 has stored k and not announced it; a Watch lists it and registers. */
  lemma ListInsideCommit(k: Key) returns (P: iset<State<int>>, s: State<int>)
    ensures P == Reachable(NoListInCommit) && Closed(P, NoListInCommit) && s in P
    ensures Watched(s, map[k := 1], [Event(Added, k, 1)] + [Event(Added, k, 1)])
  {
    var e := Event(Added, k, 1);
    P, s := Start(NoListInCommit);
    s := Go(P, s, BeginCreate(1, k, 1), NoListInCommit);
    s := Go(P, s, Commit(1), NoListInCommit);
    s := WatchAndList(P, s, NoListInCommit);
    s := SendAndJoin(P, s, NoListInCommit, k);
    s := AnnouncesAgain(P, s, e);
  }

  /** A Watch that lists between a write's commit and its notification is told Added twice. */
  lemma ListInsideCommitMisleads(k: Key)
    ensures exists s :: Reaches(Init(2, 32), s, NoListInCommit) && Misled(s)
  {
    var e := Event(Added, k, 1);
    var P, s := ListInsideCommit(k);
    ReplayAppend([], e);
    assert [] + [e] == [e];
    TruthfulAppend([e], e);
    assert Misled(s);
  }

  /** Both goroutines create k: both existence checks, then both writes. */
  lemma CreateTwice(P: iset<State<int>>, s0: State<int>, k: Key) returns (s: State<int>)
    requires Closed(P, OneWriterPerKey) && s0 in P && !s0.panicked
    requires k !in s0.db && s0.threads == [Idle, Idle]
    ensures s in P
    ensures s == s0.(db := s0.db[k := 2],
                     threads := [Announce(Event(Added, k, 1)), Announce(Event(Added, k, 2))])
  {
    s := Go(P, s0, BeginCreate(0, k, 1), OneWriterPerKey);
    s := Go(P, s, BeginCreate(1, k, 2), OneWriterPerKey);
    s := Go(P, s, Commit(0), OneWriterPerKey);
    s := Go(P, s, Commit(1), OneWriterPerKey);
  }

  /** One watcher is registered, before anything is stored. */
  lemma StartWatched(rule: Rule) returns (P: iset<State<int>>, s: State<int>)
    ensures P == Reachable(rule) && Closed(P, rule) && s in P && Watched(s, map[], [])
  {
    P, s := Start(rule);
    s := WatchAndList(P, s, rule);
    s := Go(P, s, Join(0), rule);
  }

  /** Both goroutines create k; the events go out in the order opposite to that of the writes. */
  lemma OverlappingWriters(k: Key) returns (P: iset<State<int>>, s: State<int>)
    ensures P == Reachable(OneWriterPerKey) && Closed(P, OneWriterPerKey) && s in P
    ensures Watched(s, map[k := 2], [Event(Added, k, 2)] + [Event(Added, k, 1)])
  {
    P, s := StartWatched(OneWriterPerKey);
    s := CreateTwice(P, s, k);
    s := Announces(P, s, OneWriterPerKey, 1, Event(Added, k, 2));
    assert s.chans[0].sent == [Event(Added, k, 2)];
    s := Announces(P, s, OneWriterPerKey, 0, Event(Added, k, 1));
  }

  /** Two Creates of one key both pass the existence check: the watcher ends with the value that was overwritten. */
  lemma OverlappingWritersDiverge(k: Key)
    ensures exists s :: Reaches(Init(2, 32), s, OneWriterPerKey) && Diverged(s, k)
  {
    var P, s := OverlappingWriters(k);
    ReplayAppend([Event(Added, k, 2)], Event(Added, k, 1));
    assert Replay(s.chans[s.table.watchers[0]].sent)[k] == 1 && s.db[k] == 2;
    DivergesForGood(s, OneWriterPerKey, k);
  }

  /** ... and has been told Added twice. */
  lemma OverlappingWritersMislead(k: Key)
    ensures exists s :: Reaches(Init(2, 32), s, OneWriterPerKey) && Misled(s)
  {
    var P, s := OverlappingWriters(k);
    ReplayAppend([], Event(Added, k, 2));
    assert [] + [Event(Added, k, 2)] == [Event(Added, k, 2)];
    TruthfulAppend([Event(Added, k, 2)], Event(Added, k, 1));
    assert Misled(s);
  }

  // ---------- Which rules it takes ----------

  ghost predicate RunObeys(s: State<int>, acts: seq<Action<int>>, rules: set<Rule>)
    requires CanRun(s, acts)
  {
    acts == []
    || (RunObeys(s, acts[..|acts| - 1], rules)
        && forall rule :: rule in rules ==> Obeys(After(s, acts[..|acts| - 1]), acts[|acts| - 1], rule))
  }

  lemma AllButObeys(s: State<int>, a: Action<int>, rule: Rule, rules: set<Rule>)
    requires ObeysAllBut(s, a, rule) && rule !in rules
    ensures forall other :: other in rules ==> Obeys(s, a, other)
  {
  }

  lemma {:induction false} ObeysWithout(s: State<int>, acts: seq<Action<int>>, rule: Rule, rules: set<Rule>)
    requires CanRun(s, acts) && RunObeysAllBut(s, acts, rule) && rule !in rules
    ensures RunObeys(s, acts, rules)
  {
    if acts != [] {
      var init := acts[..|acts| - 1];
      ObeysWithout(s, init, rule, rules);
      AllButObeys(After(s, init), acts[|acts| - 1], rule, rules);
    }
  }

  lemma {:induction false} ObeysFirstThree(s: State<int>, acts: seq<Action<int>>, rules: set<Rule>)
    requires CanRun(s, acts) && RunObeys(s, acts, rules)
    requires {OneWriterPerKey, NoNotifyInWatch, NoListInDelete} <= rules
    ensures DisciplinedRun(s, acts)
    ensures NoListInCommit in rules ==> CarefulRun(s, acts)
  {
    if acts != [] {
      ObeysFirstThree(s, acts[..|acts| - 1], rules);
    }
  }

  ghost predicate AllMirror(s: State<int>) {
    forall id :: id in s.table.watchers ==>
      s.table.watchers[id] < |s.chans| && Replay(s.chans[s.table.watchers[id]].sent) == s.db
  }

  ghost predicate Obeying(goroutines: nat, maxID: nat, acts: seq<Action<int>>, rules: set<Rule>) {
    CanRun(Init(goroutines, maxID), acts) && RunObeys(Init(goroutines, maxID), acts, rules)
  }

  /** In all interleavings that obey the rules, all watchers replay to the store whenever nothing is in flight. */
  ghost predicate MirrorsUnder(rules: set<Rule>) {
    forall goroutines: nat, maxID: nat, acts ::
      Obeying(goroutines, maxID, acts, rules) && Quiet(After(Init(goroutines, maxID), acts)) ==>
        AllMirror(After(Init(goroutines, maxID), acts))
  }

  /** In all interleavings that obey the rules, all streams are truthful, at every moment. */
  ghost predicate TruthfulUnder(rules: set<Rule>) {
    forall goroutines: nat, maxID: nat, acts ::
      Obeying(goroutines, maxID, acts, rules) ==> StreamsTruthful(After(Init(goroutines, maxID), acts))
  }

  lemma MirrorsUnderThree(rules: set<Rule>)
    requires {OneWriterPerKey, NoNotifyInWatch, NoListInDelete} <= rules
    ensures MirrorsUnder(rules)
  {
    forall goroutines: nat, maxID: nat, acts |
      Obeying(goroutines, maxID, acts, rules) && Quiet(After(Init(goroutines, maxID), acts))
      ensures AllMirror(After(Init(goroutines, maxID), acts))
    {
      ObeysFirstThree(Init(goroutines, maxID), acts, rules);
      forall id | id in After(Init<int>(goroutines, maxID), acts).table.watchers
        ensures var s := After(Init<int>(goroutines, maxID), acts);
                s.table.watchers[id] < |s.chans| && Replay(s.chans[s.table.watchers[id]].sent) == s.db
      {
        QuietStreamsAreTheStore(goroutines, maxID, acts, id);
      }
    }
  }

  lemma NoMirrorsWithout(rules: set<Rule>, rule: Rule, k: Key)
    requires rule !in rules && exists s :: Reaches(Init(2, 32), s, rule) && Diverged(s, k)
    ensures !MirrorsUnder(rules)
  {
    var s :| Reaches(Init(2, 32), s, rule) && Diverged(s, k);
    var acts :| CanRun(Init(2, 32), acts) && After(Init(2, 32), acts) == s && RunObeysAllBut(Init(2, 32), acts, rule);
    ObeysWithout(Init(2, 32), acts, rule, rules);
    assert CanRun(s, []) && LeavesAlone<int>([], 0, k) && After(s, []) == s;
    assert Obeying(2, 32, acts, rules);
  }

  /** Which rules mirroring takes: exactly the first three. */
  lemma MirrorsUnderIff(rules: set<Rule>)
    ensures MirrorsUnder(rules) <==> {OneWriterPerKey, NoNotifyInWatch, NoListInDelete} <= rules
  {
    var k := Key("default", "cfg");
    if OneWriterPerKey !in rules {
      OverlappingWritersDiverge(k);
      NoMirrorsWithout(rules, OneWriterPerKey, k);
    } else if NoNotifyInWatch !in rules {
      NotifyInsideWatchDiverges(k);
      NoMirrorsWithout(rules, NoNotifyInWatch, k);
    } else if NoListInDelete !in rules {
      ListInsideDeleteDiverges(k);
      NoMirrorsWithout(rules, NoListInDelete, k);
    } else {
      MirrorsUnderThree(rules);
    }
  }

  lemma TruthfulUnderAll(rules: set<Rule>)
    requires {OneWriterPerKey, NoNotifyInWatch, NoListInDelete, NoListInCommit} <= rules
    ensures TruthfulUnder(rules)
  {
    forall goroutines: nat, maxID: nat, acts | Obeying(goroutines, maxID, acts, rules)
      ensures StreamsTruthful(After(Init(goroutines, maxID), acts))
    {
      ObeysFirstThree(Init(goroutines, maxID), acts, rules);
      CarefulRunsAreTruthful(goroutines, maxID, acts);
    }
  }

  lemma UntruthfulWithout(rules: set<Rule>, rule: Rule)
    requires rule !in rules && exists s :: Reaches(Init(2, 32), s, rule) && Misled(s)
    ensures !TruthfulUnder(rules)
  {
    var s :| Reaches(Init(2, 32), s, rule) && Misled(s);
    var acts :| CanRun(Init(2, 32), acts) && After(Init(2, 32), acts) == s && RunObeysAllBut(Init(2, 32), acts, rule);
    ObeysWithout(Init(2, 32), acts, rule, rules);
    assert Obeying(2, 32, acts, rules);
  }

  /** Which rules truthfulness takes: all four. */
  lemma TruthfulUnderIff(rules: set<Rule>)
    ensures TruthfulUnder(rules) <==>
              {OneWriterPerKey, NoNotifyInWatch, NoListInDelete, NoListInCommit} <= rules
  {
    var k := Key("default", "cfg");
    if OneWriterPerKey !in rules {
      OverlappingWritersMislead(k);
      UntruthfulWithout(rules, OneWriterPerKey);
    } else if NoNotifyInWatch !in rules {
      NotifyInsideWatchMisleads(k);
      UntruthfulWithout(rules, NoNotifyInWatch);
    } else if NoListInDelete !in rules {
      ListInsideDeleteMisleads(k);
      UntruthfulWithout(rules, NoListInDelete);
    } else if NoListInCommit !in rules {
      ListInsideCommitMisleads(k);
      UntruthfulWithout(rules, NoListInCommit);
    } else {
      TruthfulUnderAll(rules);
    }
  }
}

/** The initial snapshot of a Watch goes into a channel that its client does not hold yet. */
module WatchSnapshot {
  import opened Events
  import opened Interleaving

  /** The number of entries the Watch of goroutine t listed: those sent plus those still to be sent. */
  ghost function Listed<V>(s: State<V>, t: nat): nat
    requires t < |s.threads| && s.threads[t].Snapshot? && s.threads[t].chan < |s.chans|
  {
    |s.chans[s.threads[t].chan].sent| + |s.threads[t].todo|
  }

  lemma ListedKept<V>(s: State<V>, a: Action<V>, maxID: nat, t: nat)
    requires Safe(s, maxID) && Enabled(s, a)
    requires t < |s.threads| && s.threads[t].Snapshot? && OwnsOpenChan(s, s.threads[t]) && a != Join(t)
    ensures var s' := Next(s, a);
            && t < |s'.threads| && s'.threads[t].Snapshot? && s'.threads[t].chan < |s'.chans|
            && Listed(s', t) == Listed(s, t)
  {
    var s' := Next(s, a);
    var p := s.threads[t];
    if a.SendSnapshot? && a.t == t {
      assert (p.todo - {a.key}).Keys == p.todo.Keys - {a.key};
      assert |p.todo.Keys| == |p.todo| && |(p.todo - {a.key}).Keys| == |p.todo - {a.key}|;
    } else {
      assert s'.threads[t] == p && s'.chans[p.chan].sent == s.chans[p.chan].sent;
    }
  }

  /** A Watch whose List saw at most 10 entries is never held up while it sends them. */
  lemma SmallSnapshotNeverWaits<V>(s: State<V>, maxID: nat, t: nat, k: Key)
    requires Safe(s, maxID) && t < |s.threads| && s.threads[t].Snapshot? && OwnsOpenChan(s, s.threads[t])
    requires Listed(s, t) <= 10 && k in s.threads[t].todo
    ensures Enabled(s, SendSnapshot(t, k))
  {
    assert k in s.threads[t].todo.Keys;
    assert |s.threads[t].todo.Keys| == |s.threads[t].todo|;
  }

  /** A Watch whose List saw more never returns, whatever the other goroutines do. */
  lemma {:induction false} LargeSnapshotNeverReturns<V>(s: State<V>, acts: seq<Action<V>>, maxID: nat, t: nat)
    requires Safe(s, maxID) && t < |s.threads| && s.threads[t].Snapshot? && OwnsOpenChan(s, s.threads[t])
    requires Listed(s, t) > 10 && CanRun(s, acts)
    ensures var s' := After(s, acts);
            && Safe(s', maxID)
            && t < |s'.threads| && s'.threads[t].Snapshot? && OwnsOpenChan(s', s'.threads[t])
            && Listed(s', t) == Listed(s, t)
            && !Enabled(s', Join(t))
  {
    if acts != [] {
      var init := acts[..|acts| - 1];
      LargeSnapshotNeverReturns(s, init, maxID, t);
      var mid := After(s, init);
      StepKeepsSafe(mid, acts[|acts| - 1], maxID);
      ListedKept(mid, acts[|acts| - 1], maxID, t);
    }
  }
}

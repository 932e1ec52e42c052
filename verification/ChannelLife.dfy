/** What becomes of a channel in an interleaving: when it is closed, what is sent on it, and what its client can
    still receive. */
module ChannelLife {
  import opened Events
  import opened WatchTable
  import opened Interleaving

  ghost predicate Registered<V>(s: State<V>, c: nat) {
    exists id :: id in s.table.watchers && s.table.watchers[id] == c
  }

  ghost predicate IsSending<V>(s: State<V>, t: nat) { t < |s.threads| && s.threads[t].Sending? }

  // ---------- Closing ----------

  /** A channel is closed after an action exactly when it was closed before, or the action stops the watcher that is
      registered with it. */
  lemma ClosedIff<V>(s: State<V>, a: Action<V>, maxID: nat, c: nat)
    requires Safe(s, maxID) && Enabled(s, a) && c < |s.chans|
    ensures Next(s, a).chans[c].closed <==>
              s.chans[c].closed || (a.Stop? && a.id in s.table.watchers && s.table.watchers[a.id] == c)
  {
  }

  lemma StepKeepsOrCloses<V>(s: State<V>, a: Action<V>, maxID: nat, c: nat)
    requires Safe(s, maxID) && Enabled(s, a) && Registered(s, c)
    ensures c < |Next(s, a).chans| && (Registered(Next(s, a), c) || Next(s, a).chans[c].closed)
  {
    var id :| id in s.table.watchers && s.table.watchers[id] == c;
    if a.Join? { RegisterKeepsValid(s.table, maxID, s.threads[a.t].chan); }
    if a != Stop(id) {
      assert id in Next(s, a).table.watchers && Next(s, a).table.watchers[id] == c;
    }
  }

  /** A channel that is registered stays so or has been closed, after every run. */
  lemma {:induction false} RegisteredOrClosed<V>(s: State<V>, acts: seq<Action<V>>, maxID: nat, c: nat)
    requires Safe(s, maxID) && CanRun(s, acts) && Registered(s, c)
    ensures Safe(After(s, acts), maxID) && c < |After(s, acts).chans|
    ensures Registered(After(s, acts), c) || After(s, acts).chans[c].closed
  {
    if acts != [] {
      var init, a := acts[..|acts| - 1], acts[|acts| - 1];
      RegisteredOrClosed(s, init, maxID, c);
      var mid := After(s, init);
      StepKeepsSafe(mid, a, maxID);
      if Registered(mid, c) {
        StepKeepsOrCloses(mid, a, maxID, c);
      } else {
        ClosedIff(mid, a, maxID, c);
      }
    }
  }

  /** A watcher that nobody stops stays registered under its id, with its channel. */
  lemma {:induction false} UnstoppedStays<V>(s: State<V>, acts: seq<Action<V>>, maxID: nat, id: int)
    requires Safe(s, maxID) && CanRun(s, acts) && id in s.table.watchers
    requires forall i :: 0 <= i < |acts| ==> acts[i] != Stop(id)
    ensures Safe(After(s, acts), maxID)
    ensures id in After(s, acts).table.watchers && After(s, acts).table.watchers[id] == s.table.watchers[id]
  {
    if acts != [] {
      var init, a := acts[..|acts| - 1], acts[|acts| - 1];
      assert forall i :: 0 <= i < |init| ==> init[i] == acts[i];
      UnstoppedStays(s, init, maxID, id);
      var mid := After(s, init);
      StepKeepsSafe(mid, a, maxID);
      assert a != Stop(id);
      if a.Join? { RegisterKeepsValid(mid.table, maxID, mid.threads[a.t].chan); }
    }
  }

  /** While a goroutine is inside NotifyWatchers nobody is registered and nobody is stopped, so it sends to the watchers
      that were registered when it entered, however long it takes. */
  lemma {:induction false} TableIsFixed<V>(s: State<V>, acts: seq<Action<V>>, t: nat)
    requires CanRun(s, acts) && t < |s.threads|
    requires forall i :: 0 <= i <= |acts| ==> CanRun(s, acts[..i]) && IsSending(After(s, acts[..i]), t)
    ensures After(s, acts).table == s.table
  {
    assert acts[..|acts|] == acts;
    if acts != [] {
      var init := acts[..|acts| - 1];
      forall i | 0 <= i <= |init| ensures CanRun(s, init[..i]) && IsSending(After(s, init[..i]), t) {
        assert init[..i] == acts[..i];
      }
      TableIsFixed(s, init, t);
      assert IsSending(After(s, init), t);
    }
  }

  // ---------- Sending ----------

  /** The channel an action sends on or closes. */
  ghost function Touched<V>(s: State<V>, a: Action<V>): Option<nat>
    requires Enabled(s, a)
  {
    match a
    case Send(_, id) => Some(s.table.watchers[id])
    case SendSnapshot(t, _) => Some(s.threads[t].chan)
    case Stop(id) => if id in s.table.watchers then Some(s.table.watchers[id]) else None
    case _ => None
  }

  /** What the program would not survive: a send on a closed channel, or a second close. */
  lemma PanicsIff<V>(s: State<V>, a: Action<V>)
    requires Enabled(s, a)
    ensures Next(s, a).panicked <==> Touched(s, a).Some? && s.chans[Touched(s, a).value].closed
  {
  }

  /** In no interleaving is there an action, next, that would send on a closed channel or close one again. */
  lemma TouchedIsOpen<V>(goroutines: nat, maxID: nat, acts: seq<Action<V>>, a: Action<V>)
    requires CanRun(Init(goroutines, maxID), acts) && Enabled(After(Init(goroutines, maxID), acts), a)
    ensures var s := After(Init(goroutines, maxID), acts);
            Touched(s, a).Some? ==> Touched(s, a).value < |s.chans| && !s.chans[Touched(s, a).value].closed
  {
    RunsAreSafe(goroutines, maxID, acts);
    var s := After(Init(goroutines, maxID), acts);
    if a.SendSnapshot? { assert OwnsOpenChan(s, s.threads[a.t]); }
  }

  /** What has been sent stays sent, in order; nothing is sent on a closed channel; a client receives one event at a
      time, and nobody receives for it. */
  lemma HistoryGrows<V>(s: State<V>, a: Action<V>, maxID: nat, c: nat)
    requires Safe(s, maxID) && Enabled(s, a) && c < |s.chans|
    ensures s.chans[c].sent <= Next(s, a).chans[c].sent
    ensures s.chans[c].closed ==> Next(s, a).chans[c].sent == s.chans[c].sent
    ensures Next(s, a).chans[c].taken == s.chans[c].taken + if a == Receive(c) then 1 else 0
  {
    if a.SendSnapshot? { assert OwnsOpenChan(s, s.threads[a.t]); }
  }

  // ---------- Buffers ----------

  /** No channel ever holds more than 10 events that its client has not received. */
  ghost predicate Bounded<V>(s: State<V>) {
    forall c :: 0 <= c < |s.chans| ==> s.chans[c].taken <= |s.chans[c].sent| <= s.chans[c].taken + 10
  }

  lemma StepKeepsBounded<V>(s: State<V>, a: Action<V>, maxID: nat)
    requires Safe(s, maxID) && Enabled(s, a) && Bounded(s)
    ensures Bounded(Next(s, a))
  {
    if a.SendSnapshot? { assert OwnsOpenChan(s, s.threads[a.t]); }
  }

  lemma {:induction false} RunsAreBounded<V>(goroutines: nat, maxID: nat, acts: seq<Action<V>>)
    requires CanRun(Init(goroutines, maxID), acts)
    ensures Bounded(After(Init(goroutines, maxID), acts))
  {
    if acts != [] {
      var init := acts[..|acts| - 1];
      RunsAreBounded(goroutines, maxID, init);
      RunsAreSafe(goroutines, maxID, init);
      StepKeepsBounded(After(Init(goroutines, maxID), init), acts[|acts| - 1], maxID);
    }
  }

  /** The client of a watcher, running or stopped, can receive exactly when something is left to receive. */
  lemma ReceivesIff<V>(s: State<V>, maxID: nat, c: nat)
    requires Safe(s, maxID) && c < |s.chans| && (Registered(s, c) || s.chans[c].closed)
    ensures Enabled(s, Receive(c)) <==> s.chans[c].taken < |s.chans[c].sent|
  {
    forall t | 0 <= t < |s.threads| && s.threads[t].Watching() ensures s.threads[t].chan != c {
      assert OwnsOpenChan(s, s.threads[t]);
    }
  }
}

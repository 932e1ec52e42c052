/** Finalizer lists of an object's metadata. RemoveFinalizer shifts the backing array while it is still ranging over
    the old slice, so what it does to a list with repeated entries is not what one would expect. */
module Finalizers {
  // ---------- What removal does ----------

  /** The list without any occurrence of f. */
  function Without(s: seq<string>, f: string): seq<string> {
    if s == [] then []
    else if s[0] == f then Without(s[1..], f)
    else [s[0]] + Without(s[1..], f)
  }

  /** What the removal loop keeps: after removing an occurrence it does not look at the next entry, which has moved
      into the place it just left. */
  function SkipWithout(s: seq<string>, f: string): seq<string> {
    if s == [] then []
    else if s[0] != f then [s[0]] + SkipWithout(s[1..], f)
    else if |s| == 1 then []
    else [s[1]] + SkipWithout(s[2..], f)
  }

  /** The last entry is f, and so is an earlier one. */
  predicate LastRepeats(s: seq<string>, f: string) {
    s != [] && s[|s| - 1] == f && f in s[..|s| - 1]
  }

  predicate AdjacentRepeat(s: seq<string>, f: string) {
    exists i :: 0 <= i < |s| - 1 && s[i] == f && s[i + 1] == f
  }

  predicate AtMostOnce(s: seq<string>, f: string) {
    forall i, j :: 0 <= i < j < |s| ==> !(s[i] == f && s[j] == f)
  }

  lemma {:induction false} WithoutHasNone(s: seq<string>, f: string)
    ensures f !in Without(s, f)
  {
    if s != [] { WithoutHasNone(s[1..], f); }
  }

  lemma AdjacentShift(s: seq<string>, f: string, n: nat)
    requires n <= |s|
    requires forall i :: 0 <= i < n && i + 1 < |s| ==> s[i] != f || s[i + 1] != f
    ensures AdjacentRepeat(s, f) <==> AdjacentRepeat(s[n..], f)
  {
    if AdjacentRepeat(s, f) {
      var i :| 0 <= i < |s| - 1 && s[i] == f && s[i + 1] == f;
      assert s[n..][i - n] == f && s[n..][i - n + 1] == f;
    }
    if AdjacentRepeat(s[n..], f) {
      var i :| 0 <= i < |s[n..]| - 1 && s[n..][i] == f && s[n..][i + 1] == f;
      assert s[n + i] == f && s[n + i + 1] == f;
    }
  }

  lemma Cons(x: string, a: seq<string>, b: seq<string>)
    ensures [x] + a == [x] + b <==> a == b
  {
    assert ([x] + a)[1..] == a && ([x] + b)[1..] == b;
  }

  /** The loop removes every occurrence exactly when no two of them are adjacent. */
  lemma {:induction false} SkipIsWithoutIff(s: seq<string>, f: string)
    ensures SkipWithout(s, f) == Without(s, f) <==> !AdjacentRepeat(s, f)
    decreases |s|
  {
    if s == [] {
    } else if s[0] != f {
      AdjacentShift(s, f, 1);
      SkipIsWithoutIff(s[1..], f);
      Cons(s[0], SkipWithout(s[1..], f), Without(s[1..], f));
    } else if |s| == 1 {
    } else if s[1] == f {
      assert s[0] == f && s[1] == f;
      WithoutHasNone(s, f);
      assert SkipWithout(s, f)[0] == f;
    } else {
      AdjacentShift(s, f, 2);
      SkipIsWithoutIff(s[2..], f);
      assert s[1..][1..] == s[2..];
      Cons(s[1], SkipWithout(s[2..], f), Without(s[2..], f));
    }
  }

  // ---------- The operations on lists ----------

  datatype Outcome = Panics | Done(list: seq<string>)

  function Add(s: seq<string>, f: string): seq<string> {
    if f in s then s else s + [f]
  }

  function Remove(s: seq<string>, f: string): Outcome {
    if LastRepeats(s, f) then Panics else Done(SkipWithout(s, f))
  }

  /** Adding appends: the list stays a prefix of the new one, and a finalizer that was not on it becomes the last. */
  lemma AddAppends(s: seq<string>, f: string)
    ensures s <= Add(s, f) && |Add(s, f)| <= |s| + 1
    ensures f in Add(s, f)
    ensures f in s ==> Add(s, f) == s
    ensures f !in s ==> |Add(s, f)| == |s| + 1 && Add(s, f)[|s|] == f
  {
  }

  /** For every list: removal succeeds and leaves exactly the other entries, in order, if and only if no two
      occurrences are adjacent and the last entry is not a repeated occurrence. */
  lemma RemovalIsExactIff(s: seq<string>, f: string)
    ensures Remove(s, f) == Done(Without(s, f)) <==> !AdjacentRepeat(s, f) && !LastRepeats(s, f)
  {
    SkipIsWithoutIff(s, f);
  }

  /** A repeated last entry: the loop slices out of range. */
  lemma RemovalPanics()
    ensures Remove(["f", "a", "f"], "f").Panics?
  {
    assert ["f", "a", "f"][..2][0] == "f";
  }

  /** Adjacent entries: the second is kept. */
  lemma RemovalLeavesOne()
    ensures Remove(["f", "f", "a"], "f") == Done(["f", "a"])
  {
    assert ["f", "f", "a"][2..] == ["a"];
  }

  /** In particular when f occurs at most once. */
  lemma RemovalOfSingle(s: seq<string>, f: string)
    requires AtMostOnce(s, f)
    ensures Remove(s, f) == Done(Without(s, f))
  {
    RemovalIsExactIff(s, f);
    if s != [] && s[|s| - 1] == f {
      var init := s[..|s| - 1];
      assert forall i :: 0 <= i < |init| ==> init[i] != f;
    }
  }

  // ---------- Runs of several controllers ----------

  ghost predicate Distinct(s: seq<string>) {
    forall i, j :: 0 <= i < j < |s| ==> s[i] != s[j]
  }

  datatype Call = AddCall(f: string) | RemoveCall(f: string)

  function Apply(s: seq<string>, c: Call): Outcome {
    match c
    case AddCall(f) => Done(Add(s, f))
    case RemoveCall(f) => Remove(s, f)
  }

  function Run(s: seq<string>, calls: seq<Call>): Outcome {
    if calls == [] then Done(s)
    else
      var r := Run(s, calls[..|calls| - 1]);
      if r.Panics? then Panics else Apply(r.list, calls[|calls| - 1])
  }

  /** The entries of s that are in `keep`, in order. */
  function Only(s: seq<string>, keep: set<string>): seq<string> {
    if s == [] then []
    else if s[0] in keep then [s[0]] + Only(s[1..], keep)
    else Only(s[1..], keep)
  }

  lemma {:induction false} OnlyAppend(s: seq<string>, f: string, keep: set<string>)
    ensures Only(s + [f], keep) == Only(s, keep) + if f in keep then [f] else []
  {
    if s == [] {
      assert Only([f], keep) == if f in keep then [f] else [];
      assert [] + [f] == [f];
    } else {
      OnlyAppend(s[1..], f, keep);
      assert (s + [f])[1..] == s[1..] + [f];
    }
  }

  lemma {:induction false} OnlyWithout(s: seq<string>, f: string, keep: set<string>)
    requires f !in keep
    ensures Only(Without(s, f), keep) == Only(s, keep)
  {
    if s != [] {
      OnlyWithout(s[1..], f, keep);
      if s[0] != f {
        assert Without(s, f)[1..] == Without(s[1..], f);
      }
    }
  }

  lemma {:induction false} WithoutKeeps(s: seq<string>, f: string, g: string)
    requires g != f
    ensures g in Without(s, f) <==> g in s
  {
    if s != [] {
      assert s == [s[0]] + s[1..];
      WithoutKeeps(s[1..], f, g);
    }
  }

  lemma {:induction false} WithoutKeepsDistinct(s: seq<string>, f: string)
    requires Distinct(s)
    ensures Distinct(Without(s, f))
  {
    if s != [] {
      var rest := Without(s[1..], f);
      WithoutKeepsDistinct(s[1..], f);
      if s[0] != f {
        assert s[0] !in s[1..];
        WithoutKeeps(s[1..], f, s[0]);
        assert forall i :: 0 <= i < |rest| ==> rest[i] in rest;
      }
    }
  }

  /** Over every run of additions and removals by any number of controllers, from a duplicate-free list: no call
      panics and the list stays duplicate-free. */
  lemma {:induction false} RunsStayDistinct(s: seq<string>, calls: seq<Call>)
    requires Distinct(s)
    ensures Run(s, calls).Done? && Distinct(Run(s, calls).list)
  {
    if calls != [] {
      RunsStayDistinct(s, calls[..|calls| - 1]);
      var mid := Run(s, calls[..|calls| - 1]).list;
      var c := calls[|calls| - 1];
      if c.RemoveCall? {
        RemovalOfSingle(mid, c.f);
        WithoutKeepsDistinct(mid, c.f);
      }
    }
  }

  /** The index of the last call about g, or -1. */
  function LastCall(calls: seq<Call>, g: string): (i: int)
    ensures -1 <= i < |calls|
  {
    if calls == [] then -1
    else if calls[|calls| - 1].f == g then |calls| - 1
    else LastCall(calls[..|calls| - 1], g)
  }

  /** ... and a finalizer is on the list exactly when the last call about it added it, or, if there was none, when
      it was on the list at the start. */
  lemma {:induction false} OwnCallsDecide(s: seq<string>, calls: seq<Call>, g: string)
    requires Distinct(s)
    ensures Run(s, calls).Done?
    ensures g in Run(s, calls).list <==>
            (if LastCall(calls, g) < 0 then g in s else calls[LastCall(calls, g)].AddCall?)
  {
    RunsStayDistinct(s, calls);
    if calls != [] {
      var init := calls[..|calls| - 1];
      OwnCallsDecide(s, init, g);
      RunsStayDistinct(s, init);
      var mid := Run(s, init).list;
      var c := calls[|calls| - 1];
      if c.RemoveCall? {
        RemovalOfSingle(mid, c.f);
        WithoutHasNone(mid, c.f);
        if c.f != g { WithoutKeeps(mid, c.f, g); }
      }
    }
  }

  /** ... and entries that nobody removes keep their order. */
  lemma {:induction false} OthersKeepOrder(s: seq<string>, calls: seq<Call>, keep: set<string>)
    requires Distinct(s)
    requires forall g :: g in keep ==> g in s
    requires forall i :: 0 <= i < |calls| && calls[i].RemoveCall? ==> calls[i].f !in keep
    ensures Run(s, calls).Done? && Only(Run(s, calls).list, keep) == Only(s, keep)
    ensures forall g :: g in keep ==> g in Run(s, calls).list
  {
    RunsStayDistinct(s, calls);
    if calls != [] {
      var init := calls[..|calls| - 1];
      assert forall i :: 0 <= i < |init| ==> init[i] == calls[i];
      OthersKeepOrder(s, init, keep);
      RunsStayDistinct(s, init);
      var mid := Run(s, init).list;
      var c := calls[|calls| - 1];
      if c.RemoveCall? {
        RemovalOfSingle(mid, c.f);
        OnlyWithout(mid, c.f, keep);
        forall g | g in keep ensures g in Without(mid, c.f) { WithoutKeeps(mid, c.f, g); }
      } else if c.f !in mid {
        OnlyAppend(mid, c.f, keep);
      }
    }
  }

  ghost predicate Before(s: seq<string>, g: string, f: string) {
    exists i, j :: 0 <= i < j < |s| && s[i] == g && s[j] == f
  }

  lemma {:induction false} OnlyKeepsMembers(s: seq<string>, keep: set<string>, x: string)
    ensures x in Only(s, keep) <==> x in s && x in keep
  {
    if s != [] {
      OnlyKeepsMembers(s[1..], keep, x);
      assert s == [s[0]] + s[1..];
    }
  }

  /** If a list shows g before f once the others are left out, it shows them in that order. */
  lemma {:induction false} OnlyShowsOrder(s: seq<string>, g: string, f: string)
    requires g != f && Only(s, {g, f}) == [g, f]
    ensures Before(s, g, f)
  {
    if s[0] in {g, f} {
      assert [g, f] == [s[0]] + Only(s[1..], {g, f});
      assert [g, f][0] == s[0] && [g, f][1..] == Only(s[1..], {g, f});
      assert Only(s[1..], {g, f}) == [f];
      OnlyKeepsMembers(s[1..], {g, f}, f);
      var j :| 0 <= j < |s[1..]| && s[1..][j] == f;
      assert s[j + 1] == f;
    } else {
      OnlyShowsOrder(s[1..], g, f);
      var i, j :| 0 <= i < j < |s[1..]| && s[1..][i] == g && s[1..][j] == f;
      assert s[i + 1] == g && s[j + 1] == f;
    }
  }

  lemma {:induction false} OnlyNone(s: seq<string>, keep: set<string>)
    requires forall x :: x in keep ==> x !in s
    ensures Only(s, keep) == []
  {
    if s != [] {
      assert forall x :: x in s[1..] ==> x in s;
      OnlyNone(s[1..], keep);
    }
  }

  lemma {:induction false} OnlyOne(s: seq<string>, g: string, f: string)
    requires Distinct(s) && g in s && f !in s && g != f
    ensures Only(s, {g, f}) == [g]
  {
    if s[0] == g {
      assert g !in s[1..];
      OnlyNone(s[1..], {g, f});
    } else {
      assert g in s[1..];
      OnlyOne(s[1..], g, f);
    }
  }

  lemma AddShowsOrder(s: seq<string>, f: string, g: string)
    requires Distinct(s) && g in s && f !in s
    ensures Only(Add(s, f), {g, f}) == [g, f]
  {
    OnlyOne(s, g, f);
    OnlyAppend(s, f, {g, f});
    assert [g] + [f] == [g, f];
  }

  /** An entry that is on the list when another finalizer is added stays before it while nobody removes either. */
  lemma AddedStaysBehind(s: seq<string>, f: string, g: string, calls: seq<Call>)
    requires Distinct(s) && g in s && f !in s
    requires forall i :: 0 <= i < |calls| && calls[i].RemoveCall? ==> calls[i].f != f && calls[i].f != g
    ensures Run(Add(s, f), calls).Done? && Before(Run(Add(s, f), calls).list, g, f)
  {
    AddShowsOrder(s, f, g);
    OthersKeepOrder(Add(s, f), calls, {g, f});
    OnlyShowsOrder(Run(Add(s, f), calls).list, g, f);
  }

  lemma {:induction false} WithoutAppended(s: seq<string>, f: string)
    requires f !in s
    ensures Without(s + [f], f) == s
  {
    if s == [] {
      assert [] + [f] == [f];
    } else {
      assert (s + [f])[1..] == s[1..] + [f];
      WithoutAppended(s[1..], f);
    }
  }

  /** Removing a freshly added finalizer restores the list exactly. */
  lemma {:induction false} AddThenRemove(s: seq<string>, f: string)
    requires f !in s
    ensures Remove(Add(s, f), f) == Done(s)
  {
    RemovalOfSingle(s + [f], f);
    WithoutAppended(s, f);
  }

  lemma {:induction false} RemovalOfAbsent(s: seq<string>, f: string)
    requires f !in s
    ensures Remove(s, f) == Done(s)
  {
    if s != [] {
      assert f !in s[1..];
      RemovalOfAbsent(s[1..], f);
    }
  }

  // ---------- The removal loop ----------

  /** The array contents after the entries behind i have moved down by one; the last of them stays where it was, too. */
  function Shifted(t: seq<string>, i: nat, m: nat): seq<string>
    requires i < m <= |t|
  {
    t[..i] + t[i + 1..m] + t[m - 1..]
  }

  lemma ShiftedAt(t: seq<string>, i: nat, m: nat, k: nat)
    requires i < m <= |t| && k < |t|
    ensures |Shifted(t, i, m)| == |t|
    ensures Shifted(t, i, m)[k] == if i <= k < m - 1 then t[k + 1] else t[k]
  {
    if k >= m - 1 {
      assert Shifted(t, i, m)[k] == t[m - 1..][k - (m - 1)];
    } else if k >= i {
      assert Shifted(t, i, m)[k] == t[i + 1..m][k - i];
    }
  }

  /** `append(f[:i], f[i+1:]...)` on a slice of m entries, in place. */
  method CopyDown(a: array<string>, i: nat, m: nat, n: nat)
    requires i < m <= n <= a.Length
    modifies a
    ensures a[..n] == Shifted(old(a[..n]), i, m)
  {
    ghost var t := a[..n];
    for j := i to m - 1
      invariant forall k :: i <= k < j ==> a[k] == t[k + 1]
      invariant forall k :: 0 <= k < i || j <= k < n ==> a[k] == t[k]
    {
      a[j] := a[j + 1];
    }
    forall k | 0 <= k < n ensures |Shifted(t, i, m)| == n && a[..n][k] == Shifted(t, i, m)[k] {
      ShiftedAt(t, i, m, k);
      assert a[..n][k] == a[k];
    }
    assert |a[..n]| == n == |Shifted(t, i, m)| by { ShiftedAt(t, i, m, i); }
  }

  /** The loop of RemoveFinalizer from iteration i on: t is the old slice, m the length of the shortened one. */
  function Loop(t: seq<string>, i: nat, m: nat, f: string): Outcome
    requires i <= |t| && m <= |t|
    decreases |t| - i
  {
    if i == |t| then Done(t[..m])
    else if t[i] != f then Loop(t, i + 1, m, f)
    else if i + 1 > m then Panics
    else Loop(Shifted(t, i, m), i + 1, m - 1, f)
  }

  /** While i <= m the loop has decided about the entries of s up to i + |s| - m and has not touched the rest. */
  ghost predicate Decided(s: seq<string>, t: seq<string>, i: nat, m: nat, f: string)
    requires |t| == |s| && m <= |s| && i <= |s|
  {
    && (i <= m ==>
          && t[..i] + SkipWithout(s[i + |s| - m..], f) == SkipWithout(s, f)
          && t[i..m] == s[i + |s| - m..])
    && (i >= m ==> t[..m] == SkipWithout(s, f))
  }

  /** Beyond m every cell holds the last entry of s. */
  ghost predicate Stale(s: seq<string>, t: seq<string>, m: nat)
    requires |t| == |s|
  {
    forall j :: m <= j < |s| ==> t[j] == s[|s| - 1]
  }

  /** What the number of removals tells about the occurrences met so far. */
  ghost predicate Seen(s: seq<string>, i: nat, m: nat, f: string)
    requires m <= |s| && i <= |s|
  {
    var n := |s|;
    && (m < n && i < n ==> f in s[..n - 1])
    && (m == n ==> f !in s[..i])
    && (n > 0 && s[n - 1] == f ==> i <= m + 1 && (i == m + 1 && m == n - 1 ==> f !in s[..n - 1]))
  }

  /** Before iteration i, s being the original list, t the first |s| cells of the array and m the length of the
      shortened slice: |s| - m occurrences have been removed. */
  ghost predicate LoopState(s: seq<string>, t: seq<string>, i: nat, m: nat, f: string) {
    && |t| == |s| && m <= |s| && i <= |s|
    && Decided(s, t, i, m, f) && Stale(s, t, m) && Seen(s, i, m, f)
  }

  /** One step of the removal at position q of the original list. */
  lemma Consume(s: seq<string>, q: nat, f: string)
    requires q < |s|
    ensures SkipWithout(s[q..], f) ==
            if s[q] != f then [s[q]] + SkipWithout(s[q + 1..], f)
            else if q + 1 == |s| then []
            else [s[q + 1]] + SkipWithout(s[q + 2..], f)
  {
    assert s[q..][1..] == s[q + 1..];
    if q + 1 < |s| { assert s[q..][2..] == s[q + 2..]; }
  }

  lemma KeepDecides(s: seq<string>, t: seq<string>, i: nat, m: nat, f: string)
    requires |t| == |s| && m <= |s| && i < |s| && t[i] != f && Decided(s, t, i, m, f)
    ensures Decided(s, t, i + 1, m, f)
  {
    if i < m {
      var q := i + |s| - m;
      Consume(s, q, f);
      assert t[i..m][0] == s[q];
      assert t[..i + 1] == t[..i] + [s[q]];
      assert t[i + 1..m] == t[i..m][1..];
      assert s[q..][1..] == s[q + 1..];
      if i + 1 == m { assert t[..m] + [] == t[..m]; }
    }
  }

  lemma KeepSees(s: seq<string>, t: seq<string>, i: nat, m: nat, f: string)
    requires LoopState(s, t, i, m, f) && i < |s| && t[i] != f
    ensures Seen(s, i + 1, m, f)
  {
    if m == |s| {
      assert t[i..m][0] == s[i..][0];
      assert s[..i + 1] == s[..i] + [s[i]];
    }
  }

  lemma KeepStep(s: seq<string>, t: seq<string>, i: nat, m: nat, f: string)
    requires LoopState(s, t, i, m, f) && i < |s| && t[i] != f
    ensures LoopState(s, t, i + 1, m, f)
  {
    KeepDecides(s, t, i, m, f);
    KeepSees(s, t, i, m, f);
  }

  lemma ShiftedShape(t: seq<string>, i: nat, m: nat)
    requires i + 1 < m <= |t|
    ensures var u := Shifted(t, i, m);
            && u[..i + 1] == t[..i] + [t[i + 1]]
            && u[i + 1..m - 1] == t[i..m][2..]
  {
  }

  lemma Regroup(a: seq<string>, x: string, b: seq<string>)
    ensures a + ([x] + b) == (a + [x]) + b
  {
  }

  /** The entry behind a removed one has moved into its place and counts as kept. */
  lemma RemovePrefix(s: seq<string>, t: seq<string>, i: nat, m: nat, f: string)
    requires |t| == |s| && i + 1 < m <= |s| && t[i] == f && Decided(s, t, i, m, f)
    ensures Shifted(t, i, m)[..i + 1] + SkipWithout(s[i + |s| - m + 2..], f) == SkipWithout(s, f)
  {
    var q := i + |s| - m;
    var live := t[i..m];
    assert live[0] == t[i] && live[1] == t[i + 1];
    assert s[q..][0] == s[q] && s[q..][1] == s[q + 1];
    Consume(s, q, f);
    ShiftedShape(t, i, m);
    Regroup(t[..i], s[q + 1], SkipWithout(s[q + 2..], f));
  }

  lemma RemoveRest(s: seq<string>, t: seq<string>, i: nat, m: nat)
    requires |t| == |s| && i + 1 < m <= |s| && t[i..m] == s[i + |s| - m..]
    ensures Shifted(t, i, m)[i + 1..m - 1] == s[i + |s| - m + 2..]
  {
    ShiftedShape(t, i, m);
    assert s[i + |s| - m..][2..] == s[i + |s| - m + 2..];
  }

  lemma RemoveDecides(s: seq<string>, t: seq<string>, i: nat, m: nat, f: string)
    requires |t| == |s| && i + 1 < m <= |s| && Decided(s, t, i, m, f) && t[i] == f
    ensures |Shifted(t, i, m)| == |s| && Decided(s, Shifted(t, i, m), i + 1, m - 1, f)
  {
    var u := Shifted(t, i, m);
    RemovePrefix(s, t, i, m, f);
    RemoveRest(s, t, i, m);
    if i + 1 == m - 1 {
      assert s[i + |s| - m + 2..] == [];
      assert u[..m - 1] + [] == u[..m - 1];
    }
  }

  lemma RemoveStales(s: seq<string>, t: seq<string>, i: nat, m: nat, f: string)
    requires |t| == |s| && i < m <= |s| && Decided(s, t, i, m, f) && Stale(s, t, m)
    ensures |Shifted(t, i, m)| == |s| && Stale(s, Shifted(t, i, m), m - 1)
  {
    forall j | m - 1 <= j < |s| ensures |Shifted(t, i, m)| == |s| && Shifted(t, i, m)[j] == s[|s| - 1] {
      ShiftedAt(t, i, m, j);
      if j == m - 1 { assert t[j] == t[i..m][m - 1 - i] == s[|s| - 1]; }
    }
    ShiftedAt(t, i, m, i);
  }

  lemma RemoveStep(s: seq<string>, t: seq<string>, i: nat, m: nat, f: string)
    requires LoopState(s, t, i, m, f) && i + 1 < m && t[i] == f
    ensures LoopState(s, Shifted(t, i, m), i + 1, m - 1, f)
  {
    RemoveDecides(s, t, i, m, f);
    RemoveStales(s, t, i, m, f);
    assert f in s[..|s| - 1] by {
      assert t[i] == t[i..m][0] == s[i + |s| - m] == s[..|s| - 1][i + |s| - m];
    }
  }

  lemma RemoveLastStep(s: seq<string>, t: seq<string>, i: nat, m: nat, f: string)
    requires LoopState(s, t, i, m, f) && i + 1 == m && t[i] == f
    ensures LoopState(s, Shifted(t, i, m), i + 1, m - 1, f)
  {
    var n, u := |s|, Shifted(t, i, m);
    Consume(s, n - 1, f);
    assert t[i..m][0] == s[n - 1] == f;
    assert u == t;
    assert t[..i] + [] == t[..i];
    assert m == n ==> s[..i] == s[..n - 1];
  }

  /** An iteration that slices out of range. */
  lemma PanicStep(s: seq<string>, t: seq<string>, i: nat, m: nat, f: string)
    requires LoopState(s, t, i, m, f) && m <= i < |s| && t[i] == f
    ensures LastRepeats(s, f) && Loop(t, i, m, f) == Panics
  {
    assert s[|s| - 1] == f;
  }

  /** Any other iteration. */
  lemma LoopStep(s: seq<string>, t: seq<string>, i: nat, m: nat, f: string) returns (t': seq<string>, m': nat)
    requires LoopState(s, t, i, m, f) && i < |s| && (i < m || t[i] != f)
    ensures LoopState(s, t', i + 1, m', f) && Loop(t, i, m, f) == Loop(t', i + 1, m', f)
  {
    if t[i] != f {
      KeepStep(s, t, i, m, f);
      t', m' := t, m;
    } else {
      if i + 1 < m { RemoveStep(s, t, i, m, f); } else { RemoveLastStep(s, t, i, m, f); }
      t', m' := Shifted(t, i, m), m - 1;
    }
  }

  lemma LastStep(s: seq<string>, t: seq<string>, m: nat, f: string)
    requires LoopState(s, t, |s|, m, f)
    ensures !LastRepeats(s, f) && Loop(t, |s|, m, f) == Done(SkipWithout(s, f))
  {
    assert s[..|s|] == s;
    if m == |s| { assert t[..m] + SkipWithout([], f) == t[..m]; }
  }

  lemma {:induction false} LoopFrom(s: seq<string>, t: seq<string>, i: nat, m: nat, f: string)
    requires LoopState(s, t, i, m, f)
    ensures Loop(t, i, m, f) == Remove(s, f)
    decreases |s| - i
  {
    if i == |s| {
      LastStep(s, t, m, f);
    } else if i < m || t[i] != f {
      var t', m' := LoopStep(s, t, i, m, f);
      LoopFrom(s, t', i + 1, m', f);
    } else {
      PanicStep(s, t, i, m, f);
    }
  }

  /** The loop panics exactly when the last entry is a repeated occurrence of f; otherwise it leaves SkipWithout. */
  lemma LoopRemoves(s: seq<string>, f: string)
    ensures Loop(s, 0, |s|, f) == Remove(s, f)
  {
    LoopFrom(s, s, 0, |s|, f);
  }

  // ---------- The metadata object ----------

  /** The finalizer slice of an object: the first `len` cells of a backing array. */
  class Meta {
    var backing: array<string>
    var len: nat

    ghost predicate Valid()
      reads this
    {
      len <= backing.Length
    }

    ghost function List(): seq<string>
      requires Valid()
      reads this, backing
    {
      backing[..len]
    }

    constructor ()
      ensures Valid() && fresh(backing) && List() == []
    {
      backing := new string[0];
      len := 0;
    }

    method FinalizerExists(f: string) returns (b: bool)
      requires Valid()
      ensures b <==> f in List()
    {
      for i := 0 to len
        invariant f !in backing[..i]
      {
        if backing[i] == f {
          return true;
        }
      }
      b := false;
    }

    /** Appends f unless it is there; append writes into spare capacity if there is some. */
    method AddFinalizer(f: string)
      requires Valid()
      modifies this, backing
      ensures Valid() && (backing == old(backing) || fresh(backing))
      ensures List() == Add(old(List()), f)
    {
      var found := FinalizerExists(f);
      if found {
        return;
      }
      if len == backing.Length {
        var bigger := new string[len + 1];
        forall j | 0 <= j < len { bigger[j] := backing[j]; }
        bigger[len] := f;
        assert bigger[..len] == backing[..len];
        backing := bigger;
      } else {
        backing[len] := f;
      }
      len := len + 1;
      assert backing[..len] == old(backing[..len]) + [f];
    }

    /** The loop ranges over the old slice while `f = append(f[:i], f[i+1:]...)` shifts the array under it and
        shortens the new slice to m entries. `f[i+1:]` panics when i + 1 exceeds m. */
    method RemoveFinalizer(f: string) returns (panicked: bool)
      requires Valid()
      modifies this`len, backing
      ensures Valid()
      ensures panicked <==> Remove(old(List()), f).Panics?
      ensures !panicked ==> Done(List()) == Remove(old(List()), f)
    {
      var n, m := len, len;
      LoopRemoves(List(), f);
      for i := 0 to n
        invariant 0 <= m <= n
        invariant Loop(backing[..n], i, m, f) == Remove(old(List()), f)
        modifies backing
      {
        if backing[i] == f {
          if i + 1 > m {
            return true;
          }
          CopyDown(backing, i, m, n);
          m := m - 1;
        }
      }
      len := m;
      assert backing[..n][..m] == backing[..m];
      panicked := false;
    }
  }

  /** The answer of the API server to an update of the object. */
  datatype UpdateResult = Updated | NotFound | Failed

  /** A controller's own finalizer. Nothing is sent to the API server when there is nothing to change. */
  class APIFinalizer {
    const finalizer: string

    constructor (finalizer: string)
      ensures this.finalizer == finalizer
    {
      this.finalizer := finalizer;
    }

    method AddFinalizer(obj: Meta, answer: UpdateResult) returns (ok: bool, sent: bool)
      requires obj.Valid()
      modifies obj, obj.backing
      ensures obj.Valid() && obj.List() == Add(old(obj.List()), finalizer)
      ensures sent <==> obj.List() != old(obj.List())
      ensures ok <==> !sent || answer.Updated?
    {
      var found := obj.FinalizerExists(finalizer);
      if found {
        return true, false;
      }
      obj.AddFinalizer(finalizer);
      assert |obj.List()| == old(|obj.List()|) + 1;
      return answer.Updated?, true;
    }

    /** An object that is gone counts as updated. */
    method RemoveFinalizer(obj: Meta, answer: UpdateResult) returns (ok: bool, sent: bool, panicked: bool)
      requires obj.Valid()
      modifies obj`len, obj.backing
      ensures obj.Valid()
      ensures panicked <==> Remove(old(obj.List()), finalizer).Panics?
      ensures !panicked ==> Done(obj.List()) == Remove(old(obj.List()), finalizer)
      ensures !panicked ==> (sent <==> finalizer in old(obj.List())) && (ok <==> !sent || !answer.Failed?)
    {
      var found := obj.FinalizerExists(finalizer);
      if !found {
        RemovalOfAbsent(obj.List(), finalizer);
        return true, false, false;
      }
      panicked := obj.RemoveFinalizer(finalizer);
      sent := !panicked;
      ok := !answer.Failed?;
    }
  }
}

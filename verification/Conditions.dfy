/** Condition sets: a list kept as a set keyed by condition type. The config and inv API groups carry the same code. */
module Conditions {
  /** `kind` is the condition's Type. */
  datatype Condition = Condition(
    kind: string, status: string, observedGeneration: int, lastTransitionTime: int, reason: string, message: string)

  /** Condition.Equal: ignores the transition time, and the observed generation as well. */
  predicate Same(c: Condition, o: Condition) {
    c.kind == o.kind && c.status == o.status && c.reason == o.reason && c.message == o.message
  }

  predicate HasKind(cs: seq<Condition>, kind: string) {
    exists i :: 0 <= i < |cs| && cs[i].kind == kind
  }

  /** The entry x after the condition n has been set. */
  function Upd(x: Condition, n: Condition): Condition {
    if x.kind == n.kind && !Same(x, n) then n else x
  }

  function SetOne(cs: seq<Condition>, n: Condition): seq<Condition> {
    var updated := seq(|cs|, i requires 0 <= i < |cs| => Upd(cs[i], n));
    if HasKind(cs, n.kind) then updated else updated + [n]
  }

  function SetAll(cs: seq<Condition>, ns: seq<Condition>): seq<Condition> {
    if ns == [] then cs else SetOne(SetAll(cs, ns[..|ns| - 1]), ns[|ns| - 1])
  }

  /** What becomes of one entry while the whole argument list is set. */
  function Fold(x: Condition, ns: seq<Condition>): (r: Condition)
    ensures r.kind == x.kind
  {
    if ns == [] then x else Upd(Fold(x, ns[..|ns| - 1]), ns[|ns| - 1])
  }

  // ---------- Idempotence ----------

  /** Two entries of one type end up the same, up to times, once any condition of that type has been set. */
  lemma {:induction false} FoldForgets(x: Condition, y: Condition, ns: seq<Condition>)
    requires x.kind == y.kind
    requires HasKind(ns, x.kind)
    ensures Same(Fold(x, ns), Fold(y, ns))
  {
    var init, n := ns[..|ns| - 1], ns[|ns| - 1];
    if n.kind != x.kind {
      var i :| 0 <= i < |ns| && ns[i].kind == x.kind;
      assert init[i].kind == x.kind;
      FoldForgets(x, y, init);
    }
  }

  lemma {:induction false} FoldOfOtherKinds(x: Condition, ns: seq<Condition>)
    requires !HasKind(ns, x.kind)
    ensures Fold(x, ns) == x
  {
    if ns != [] {
      var init := ns[..|ns| - 1];
      assert forall i :: 0 <= i < |init| ==> init[i] == ns[i];
      FoldOfOtherKinds(x, init);
    }
  }

  /** Every argument type is present and no entry would be changed by the arguments. */
  ghost predicate Stable(cs: seq<Condition>, ns: seq<Condition>) {
    && (forall i :: 0 <= i < |ns| ==> HasKind(cs, ns[i].kind))
    && (forall i :: 0 <= i < |cs| ==> Fold(cs[i], ns) == cs[i])
  }

  lemma UpdIsStable(x: Condition, n: Condition, ns: seq<Condition>)
    requires Fold(x, ns) == x
    ensures Fold(Upd(x, n), ns + [n]) == Upd(x, n)
  {
    assert (ns + [n])[..|ns|] == ns;
    if x.kind == n.kind && !Same(x, n) {
      if HasKind(ns, n.kind) {
        FoldForgets(x, n, ns);
      } else {
        FoldOfOtherKinds(n, ns);
      }
    }
  }

  lemma SetOneKinds(cs: seq<Condition>, n: Condition)
    ensures HasKind(SetOne(cs, n), n.kind)
    ensures forall k :: HasKind(cs, k) ==> HasKind(SetOne(cs, n), k)
  {
    var r := SetOne(cs, n);
    assert forall i :: 0 <= i < |cs| ==> r[i].kind == cs[i].kind;
    if !HasKind(cs, n.kind) {
      assert r[|cs|] == n;
    }
  }

  lemma {:induction false} SetAllIsStable(cs: seq<Condition>, ns: seq<Condition>)
    ensures Stable(SetAll(cs, ns), ns)
  {
    if ns != [] {
      var init, n := ns[..|ns| - 1], ns[|ns| - 1];
      var mid := SetAll(cs, init);
      var r := SetOne(mid, n);
      SetAllIsStable(cs, init);
      assert init + [n] == ns;
      forall i | 0 <= i < |r| ensures Fold(r[i], ns) == r[i] {
        if i < |mid| {
          UpdIsStable(mid[i], n, init);
        } else {
          assert forall j :: 0 <= j < |init| ==> HasKind(mid, init[j].kind);
          FoldOfOtherKinds(n, init);
        }
      }
      forall i | 0 <= i < |ns| ensures HasKind(r, ns[i].kind) {
        SetOneKinds(mid, n);
        if i < |init| {
          assert HasKind(mid, init[i].kind);
        }
      }
    }
  }

  /** Entries that were there stay at their place and are folded; if every argument type was there, nothing is
      appended. */
  lemma {:induction false} OldEntriesFold(cs: seq<Condition>, ns: seq<Condition>)
    ensures |cs| <= |SetAll(cs, ns)|
    ensures forall i :: 0 <= i < |cs| ==> SetAll(cs, ns)[i] == Fold(cs[i], ns)
    ensures (forall i :: 0 <= i < |ns| ==> HasKind(cs, ns[i].kind)) ==> |SetAll(cs, ns)| == |cs|
  {
    if ns != [] {
      var init, n := ns[..|ns| - 1], ns[|ns| - 1];
      OldEntriesFold(cs, init);
      if HasKind(cs, n.kind) {
        var i :| 0 <= i < |cs| && cs[i].kind == n.kind;
        assert SetAll(cs, init)[i].kind == n.kind;
      }
    }
  }

  /** Setting the same conditions again changes nothing, times included, for every starting list and every argument
      list, repeated types allowed. */
  lemma SetAllIdempotent(cs: seq<Condition>, ns: seq<Condition>)
    ensures SetAll(SetAll(cs, ns), ns) == SetAll(cs, ns)
  {
    SetAllIsStable(cs, ns);
    OldEntriesFold(SetAll(cs, ns), ns);
  }

  // ---------- Last write wins ----------

  function Kinds(cs: seq<Condition>): seq<string> {
    seq(|cs|, i requires 0 <= i < |cs| => cs[i].kind)
  }

  predicate UniqueKinds(cs: seq<Condition>) {
    forall i, j :: 0 <= i < j < |cs| ==> cs[i].kind != cs[j].kind
  }

  /** The types of ns that are not known yet, in order of first appearance. */
  function NewKinds(known: seq<string>, ns: seq<Condition>): seq<string>
    decreases |ns|
  {
    if ns == [] then []
    else if ns[0].kind in known then NewKinds(known, ns[1..])
    else [ns[0].kind] + NewKinds(known + [ns[0].kind], ns[1..])
  }

  lemma {:induction false} SetAllFromFront(cs: seq<Condition>, ns: seq<Condition>)
    requires ns != []
    ensures SetAll(cs, ns) == SetAll(SetOne(cs, ns[0]), ns[1..])
  {
    var init, n := ns[..|ns| - 1], ns[|ns| - 1];
    if init == [] {
      assert ns[1..] == [];
    } else {
      SetAllFromFront(cs, init);
      assert ns[1..][..|ns[1..]| - 1] == init[1..];
    }
  }

  lemma KnownKind(cs: seq<Condition>, k: string)
    ensures k in Kinds(cs) <==> HasKind(cs, k)
  {
    if HasKind(cs, k) {
      var i :| 0 <= i < |cs| && cs[i].kind == k;
      assert Kinds(cs)[i] == k;
    }
  }

  /** Old entries keep their places and types; new types are appended in order of first appearance. */
  lemma {:induction false} SetAllKinds(cs: seq<Condition>, ns: seq<Condition>)
    ensures Kinds(SetAll(cs, ns)) == Kinds(cs) + NewKinds(Kinds(cs), ns)
    decreases |ns|
  {
    if ns != [] {
      var one := SetOne(cs, ns[0]);
      SetAllFromFront(cs, ns);
      SetAllKinds(one, ns[1..]);
      KnownKind(cs, ns[0].kind);
      if HasKind(cs, ns[0].kind) {
        assert Kinds(one) == Kinds(cs);
      } else {
        assert Kinds(one) == Kinds(cs) + [ns[0].kind];
      }
    }
  }

  lemma {:induction false} SetAllKeepsUnique(cs: seq<Condition>, ns: seq<Condition>)
    requires UniqueKinds(cs)
    ensures UniqueKinds(SetAll(cs, ns))
  {
    if ns != [] {
      SetAllKeepsUnique(cs, ns[..|ns| - 1]);
    }
  }

  /** The index of the last condition of that type, or -1. */
  function LastIndex(ns: seq<Condition>, k: string): (i: int)
    ensures -1 <= i < |ns|
    ensures i >= 0 ==> ns[i].kind == k && forall j :: i < j < |ns| ==> ns[j].kind != k
    ensures i < 0 ==> !HasKind(ns, k)
  {
    if ns == [] then -1
    else if ns[|ns| - 1].kind == k then |ns| - 1
    else LastIndex(ns[..|ns| - 1], k)
  }

  lemma {:induction false} FoldIsLast(x: Condition, ns: seq<Condition>)
    requires HasKind(ns, x.kind)
    ensures Same(Fold(x, ns), ns[LastIndex(ns, x.kind)])
  {
    var init, n := ns[..|ns| - 1], ns[|ns| - 1];
    if n.kind != x.kind {
      var i :| 0 <= i < |ns| && ns[i].kind == x.kind;
      assert init[i].kind == x.kind;
      FoldIsLast(x, init);
    }
  }

  /** GetCondition: the first condition of the type, or one that says False. */
  function Find(cs: seq<Condition>, k: string): Condition {
    if cs == [] then Condition(k, "False", 0, 0, "", "")
    else if cs[0].kind == k then cs[0]
    else Find(cs[1..], k)
  }

  lemma KindOfCons(c: Condition, cs: seq<Condition>, k: string)
    ensures HasKind([c] + cs, k) <==> c.kind == k || HasKind(cs, k)
  {
    assert ([c] + cs)[0] == c;
    if HasKind(cs, k) {
      var i :| 0 <= i < |cs| && cs[i].kind == k;
      assert ([c] + cs)[i + 1].kind == k;
    }
  }

  lemma {:induction false} FindsEntry(cs: seq<Condition>, k: string)
    ensures HasKind(cs, k) ==>
              exists i :: 0 <= i < |cs| && cs[i].kind == k && Find(cs, k) == cs[i] && !HasKind(cs[..i], k)
    ensures !HasKind(cs, k) ==> Find(cs, k) == Condition(k, "False", 0, 0, "", "")
  {
    if cs != [] {
      FindsEntry(cs[1..], k);
      if cs[0].kind != k {
        if HasKind(cs, k) {
          var i :| 0 <= i < |cs| && cs[i].kind == k;
          assert cs[1..][i - 1].kind == k;
        }
        if HasKind(cs[1..], k) {
          var j :| 0 <= j < |cs[1..]| && cs[1..][j].kind == k && Find(cs[1..], k) == cs[1..][j]
                   && !HasKind(cs[1..][..j], k);
          assert cs[j + 1].kind == k;
          assert cs[..j + 1] == [cs[0]] + cs[1..][..j];
          KindOfCons(cs[0], cs[1..][..j], k);
        }
      } else {
        assert cs[..0] == [];
      }
    }
  }

  lemma {:induction false} FindOfFolded(cs: seq<Condition>, rs: seq<Condition>, k: string)
    requires |cs| <= |rs| && HasKind(cs, k)
    requires forall i :: 0 <= i < |cs| ==> rs[i].kind == cs[i].kind && (cs[i].kind == k ==> rs[i] == cs[i])
    ensures Find(rs, k) == Find(cs, k)
  {
    if cs[0].kind != k {
      var i :| 0 <= i < |cs| && cs[i].kind == k;
      assert cs[1..][i - 1].kind == k;
      FindOfFolded(cs[1..], rs[1..], k);
    }
  }

  lemma {:induction false} NoNewKind(cs: seq<Condition>, ns: seq<Condition>, k: string)
    requires !HasKind(cs, k) && !HasKind(ns, k)
    ensures !HasKind(SetAll(cs, ns), k)
  {
    if ns != [] {
      var init, n := ns[..|ns| - 1], ns[|ns| - 1];
      assert forall i :: 0 <= i < |init| ==> init[i] == ns[i];
      NoNewKind(cs, init, k);
      assert forall i :: 0 <= i < |SetAll(cs, init)| ==> SetAll(cs, ns)[i].kind == SetAll(cs, init)[i].kind;
    }
  }

  /** After SetConditions every entry of a supplied type says what the last supplied condition of that type says, and
      so does GetCondition; for a type that was not supplied GetCondition answers exactly what it did before. */
  lemma LastWriteWins(cs: seq<Condition>, ns: seq<Condition>, k: string)
    ensures var r := SetAll(cs, ns);
            && (HasKind(ns, k) ==>
                  && Same(Find(r, k), ns[LastIndex(ns, k)])
                  && forall i :: 0 <= i < |r| && r[i].kind == k ==> Same(r[i], ns[LastIndex(ns, k)]))
            && (!HasKind(ns, k) ==> Find(r, k) == Find(cs, k))
  {
    var r := SetAll(cs, ns);
    SetAllIsStable(cs, ns);
    if HasKind(ns, k) {
      forall i | 0 <= i < |r| && r[i].kind == k ensures Same(r[i], ns[LastIndex(ns, k)]) {
        FoldIsLast(r[i], ns);
      }
      var j :| 0 <= j < |ns| && ns[j].kind == k;
      assert HasKind(r, ns[j].kind);
      FindsEntry(r, k);
    } else {
      OldEntriesFold(cs, ns);
      forall i | 0 <= i < |cs| && cs[i].kind == k ensures r[i] == cs[i] {
        FoldOfOtherKinds(cs[i], ns);
      }
      if HasKind(cs, k) {
        FindOfFolded(cs, r, k);
      } else {
        NoNewKind(cs, ns, k);
        FindsEntry(r, k);
        FindsEntry(cs, k);
      }
    }
  }

  /** Setting a condition changes nothing exactly when its type is present and every entry of that type already says
      the same; a different time or observed generation does not count as a change. */
  lemma SetOneNoOpIff(cs: seq<Condition>, n: Condition)
    ensures SetOne(cs, n) == cs <==>
            HasKind(cs, n.kind) && forall i :: 0 <= i < |cs| && cs[i].kind == n.kind ==> Same(cs[i], n)
  {
    var r := SetOne(cs, n);
    if HasKind(cs, n.kind) && r == cs {
      forall i | 0 <= i < |cs| && cs[i].kind == n.kind ensures Same(cs[i], n) {
        assert r[i] == cs[i];
      }
    }
  }

  // ---------- Which condition stays, time and all ----------

  /** Nothing is made up: every entry is, time and generation included, one that was there or one that was supplied. */
  lemma {:induction false} EntriesAreGiven(cs: seq<Condition>, ns: seq<Condition>)
    ensures forall x :: x in SetAll(cs, ns) ==> x in cs || x in ns
  {
    if ns != [] {
      var init, n := ns[..|ns| - 1], ns[|ns| - 1];
      EntriesAreGiven(cs, init);
      forall x | x in SetAll(cs, ns) ensures x in cs || x in ns {
        assert x == n || x in SetAll(cs, init);
      }
    }
  }

  /** One condition: each entry of its type that said something else becomes exactly that condition, with its time and
      generation; every other entry stays exactly as it was; if there was none of its type, it is appended. */
  lemma SetOneReplaces(cs: seq<Condition>, n: Condition)
    ensures |cs| <= |SetOne(cs, n)| <= |cs| + 1
    ensures forall i :: 0 <= i < |cs| ==>
              SetOne(cs, n)[i] ==
                if cs[i].kind == n.kind
                   && (cs[i].status != n.status || cs[i].reason != n.reason || cs[i].message != n.message)
                then n else cs[i]
    ensures |SetOne(cs, n)| == |cs| <==> HasKind(cs, n.kind)
    ensures !HasKind(cs, n.kind) ==> SetOne(cs, n)[|cs|] == n
  {
  }

  /** What an entry x said when the i-th argument was set, up to times. */
  function Previous(x: Condition, ns: seq<Condition>, i: nat): Condition
    requires i <= |ns|
  {
    var j := LastIndex(ns[..i], x.kind);
    if j < 0 then x else ns[j]
  }

  /** The i-th argument said something new about x's type, and no later argument did. */
  ghost predicate LastChange(x: Condition, ns: seq<Condition>, i: int) {
    && 0 <= i < |ns| && ns[i].kind == x.kind
    && !Same(Previous(x, ns, i), ns[i])
    && forall j :: i < j < |ns| && ns[j].kind == x.kind ==> Same(ns[j], ns[i])
  }

  lemma LastChangeOfPrefix(x: Condition, ns: seq<Condition>, i: int)
    requires ns != [] && i < |ns| - 1
    ensures var init, n := ns[..|ns| - 1], ns[|ns| - 1];
            LastChange(x, ns, i) <==> LastChange(x, init, i) && (n.kind == x.kind ==> Same(n, ns[i]))
  {
    var init := ns[..|ns| - 1];
    if 0 <= i {
      assert ns[..i] == init[..i];
      forall j | i < j < |init| ensures init[j] == ns[j] {}
      if LastChange(x, init, i) && (ns[|ns| - 1].kind == x.kind ==> Same(ns[|ns| - 1], ns[i])) {
        forall j | i < j < |ns| && ns[j].kind == x.kind ensures Same(ns[j], ns[i]) {
          if j < |init| { assert init[j] == ns[j]; }
        }
      }
    }
  }

  lemma FoldIsPrevious(x: Condition, ns: seq<Condition>)
    ensures Same(Fold(x, ns), Previous(x, ns, |ns|))
  {
    assert ns[..|ns|] == ns;
    if HasKind(ns, x.kind) {
      FoldIsLast(x, ns);
    } else {
      FoldOfOtherKinds(x, ns);
    }
  }

  lemma {:induction false} FoldAtLastChange(x: Condition, ns: seq<Condition>, i: int)
    requires LastChange(x, ns, i)
    ensures Fold(x, ns) == ns[i]
  {
    var init := ns[..|ns| - 1];
    if i < |init| {
      LastChangeOfPrefix(x, ns, i);
      FoldAtLastChange(x, init, i);
    } else {
      assert init == ns[..i] && init[..|init|] == init;
      FoldIsPrevious(x, init);
    }
  }

  lemma NoChangeInPrefix(x: Condition, ns: seq<Condition>, i: int)
    requires ns != [] && !LastChange(x, ns, i) && !LastChange(x, ns, |ns| - 1)
    ensures !LastChange(x, ns[..|ns| - 1], i)
  {
    var init, n := ns[..|ns| - 1], ns[|ns| - 1];
    if i < |init| {
      LastChangeOfPrefix(x, ns, i);
      if LastChange(x, init, i) {
        FoldAtLastChange(x, init, i);
        FoldIsPrevious(x, init);
        assert init[..|init|] == init;
      }
    }
  }

  lemma {:induction false} FoldWithoutChange(x: Condition, ns: seq<Condition>)
    requires forall i :: !LastChange(x, ns, i)
    ensures Fold(x, ns) == x
  {
    if ns != [] {
      var init := ns[..|ns| - 1];
      forall i ensures !LastChange(x, init, i) { NoChangeInPrefix(x, ns, i); }
      FoldWithoutChange(x, init);
      FoldIsPrevious(x, init);
      assert init[..|init|] == init;
      assert !LastChange(x, ns, |init|);
    }
  }

  /** Transition times: an entry ends as exactly the argument that last changed what its type says, with that
      argument's time and generation; if no argument changed it, it stays exactly what it was. */
  lemma FoldIsLastChange(x: Condition, ns: seq<Condition>)
    ensures forall i :: LastChange(x, ns, i) ==> Fold(x, ns) == ns[i]
    ensures (forall i :: !LastChange(x, ns, i)) ==> Fold(x, ns) == x
  {
    forall i | LastChange(x, ns, i) ensures Fold(x, ns) == ns[i] { FoldAtLastChange(x, ns, i); }
    if forall i :: !LastChange(x, ns, i) { FoldWithoutChange(x, ns); }
  }

  function FirstIndex(ns: seq<Condition>, k: string): (i: nat)
    requires HasKind(ns, k)
    ensures i < |ns| && ns[i].kind == k && !HasKind(ns[..i], k)
  {
    if ns[0].kind == k then 0
    else
      var j :| 0 <= j < |ns| && ns[j].kind == k;
      assert ns[1..][j - 1].kind == k;
      var i := 1 + FirstIndex(ns[1..], k);
      assert ns[..i] == [ns[0]] + ns[1..][..i - 1];
      KindOfCons(ns[0], ns[1..][..i - 1], k);
      i
  }

  lemma KindOfPrefix(ns: seq<Condition>, i: nat, k: string)
    requires i <= |ns|
    ensures HasKind(ns[..i], k) <==> exists m :: 0 <= m < i && ns[m].kind == k
  {
    assert forall m :: 0 <= m < i ==> ns[..i][m] == ns[m];
  }

  lemma FirstIndexIs(ns: seq<Condition>, k: string, i: nat)
    requires i < |ns| && ns[i].kind == k && !HasKind(ns[..i], k)
    ensures HasKind(ns, k) && FirstIndex(ns, k) == i
  {
    KindOfPrefix(ns, i, k);
    KindOfPrefix(ns, FirstIndex(ns, k), k);
  }

  /** An appended entry is what becomes of the first argument of its type; with FoldIsLastChange that gives its time. */
  lemma {:induction false} NewEntriesFold(cs: seq<Condition>, ns: seq<Condition>, i: nat)
    requires |cs| <= i < |SetAll(cs, ns)|
    ensures var k := SetAll(cs, ns)[i].kind;
            HasKind(ns, k) && SetAll(cs, ns)[i] == Fold(ns[FirstIndex(ns, k)], ns)
  {
    var init, n := ns[..|ns| - 1], ns[|ns| - 1];
    var mid, k := SetAll(cs, init), SetAll(cs, ns)[i].kind;
    if i < |mid| {
      NewEntriesFold(cs, init, i);
      var j := FirstIndex(init, k);
      assert ns[..j] == init[..j];
      FirstIndexIs(ns, k, j);
    } else {
      SetAllIsStable(cs, init);
      forall j | 0 <= j < |init| ensures init[j].kind != k {
        assert HasKind(mid, init[j].kind);
      }
      FoldOfOtherKinds(n, init);
      FirstIndexIs(ns, k, |init|);
    }
  }
}

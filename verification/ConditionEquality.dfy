/** Equality of condition sets: both lists are sorted by type and compared pairwise. The library sort is unstable, so
    everything here holds for whichever sorted permutation it returns. */
module ConditionEquality {
  import opened Conditions

  // ---------- The order of types ----------

  /** Lexicographic order of strings. (Dafny's `<` on strings is the prefix order.) */
  predicate Less(a: string, b: string) {
    b != [] && (a == [] || a[0] < b[0] || (a[0] == b[0] && Less(a[1..], b[1..])))
  }

  lemma {:induction false} LessIrreflexive(a: string)
    ensures !Less(a, a)
  {
    if a != [] { LessIrreflexive(a[1..]); }
  }

  lemma {:induction false} LessTransitive(a: string, b: string, c: string)
    requires Less(a, b) && Less(b, c)
    ensures Less(a, c)
  {
    if a != [] && a[0] == b[0] == c[0] { LessTransitive(a[1..], b[1..], c[1..]); }
  }

  lemma {:induction false} LessTotal(a: string, b: string)
    ensures Less(a, b) || a == b || Less(b, a)
  {
    if a != [] && b != [] && a[0] == b[0] {
      LessTotal(a[1..], b[1..]);
      assert a == [a[0]] + a[1..] && b == [b[0]] + b[1..];
    }
  }

  /** The shorter of two strings comes first if it is a prefix; otherwise the first difference decides. */
  lemma {:induction false} LessIff(a: string, b: string)
    ensures Less(a, b) <==>
              || a < b
              || exists i :: 0 <= i < |a| && i < |b| && a[..i] == b[..i] && a[i] < b[i]
  {
    if a != [] && b != [] && a[0] == b[0] {
      LessIff(a[1..], b[1..]);
      assert a == [a[0]] + a[1..] && b == [b[0]] + b[1..];
      if i :| 0 <= i < |a[1..]| && i < |b[1..]| && a[1..][..i] == b[1..][..i] && a[1..][i] < b[1..][i] {
        assert a[..i + 1] == [a[0]] + a[1..][..i] && b[..i + 1] == [b[0]] + b[1..][..i];
        assert a[i + 1] < b[i + 1];
      }
      if i :| 0 <= i < |a| && i < |b| && a[..i] == b[..i] && a[i] < b[i] {
        assert a[1..][..i - 1] == a[..i][1..] && b[1..][..i - 1] == b[..i][1..];
        assert a[1..][i - 1] < b[1..][i - 1];
      }
    } else if a != [] && b != [] && a[0] < b[0] {
      assert a[..0] == b[..0];
    }
  }

  // ---------- A condition set as a map ----------

  datatype Core = Core(status: string, reason: string, message: string)

  function CoreOf(c: Condition): Core { Core(c.status, c.reason, c.message) }

  function KindSet(cs: seq<Condition>): set<string> { set i | 0 <= i < |cs| :: cs[i].kind }

  /** What the set says about each type, transition times left out. */
  function Meaning(cs: seq<Condition>): map<string, Core> {
    map k | k in KindSet(cs) :: CoreOf(Find(cs, k))
  }

  lemma MeaningOf(cs: seq<Condition>)
    requires UniqueKinds(cs)
    ensures forall i :: 0 <= i < |cs| ==> cs[i].kind in Meaning(cs) && Meaning(cs)[cs[i].kind] == CoreOf(cs[i])
    ensures forall k :: k in Meaning(cs) <==> HasKind(cs, k)
  {
    forall i | 0 <= i < |cs|
      ensures cs[i].kind in Meaning(cs) && Meaning(cs)[cs[i].kind] == CoreOf(cs[i])
    {
      assert HasKind(cs, cs[i].kind);
      FindsEntry(cs, cs[i].kind);
    }
  }

  // ---------- Sorted permutations ----------

  /** What sort.Slice promises. */
  ghost predicate SortedByKind(sc: seq<Condition>) {
    forall i, j :: 0 <= i < j < |sc| ==> !Less(sc[j].kind, sc[i].kind)
  }

  ghost predicate SortOf(sc: seq<Condition>, cs: seq<Condition>) {
    SortedByKind(sc) && multiset(sc) == multiset(cs)
  }

  lemma InsertSorted(sc: seq<Condition>, j: nat, c: Condition)
    requires SortedByKind(sc) && j <= |sc|
    requires j > 0 ==> !Less(c.kind, sc[j - 1].kind)
    requires forall k :: j <= k < |sc| ==> Less(c.kind, sc[k].kind)
    ensures SortedByKind(sc[..j] + [c] + sc[j..])
  {
    forall k | 0 <= k < j ensures !Less(c.kind, sc[k].kind) {
      if Less(c.kind, sc[k].kind) && k < j - 1 {
        LessTotal(sc[k].kind, sc[j - 1].kind);
        if Less(sc[k].kind, sc[j - 1].kind) { LessTransitive(c.kind, sc[k].kind, sc[j - 1].kind); }
      }
    }
    forall k | j <= k < |sc| ensures !Less(sc[k].kind, c.kind) {
      if Less(sc[k].kind, c.kind) {
        LessTransitive(c.kind, sc[k].kind, c.kind);
        LessIrreflexive(c.kind);
      }
    }
  }

  ghost predicate Increasing(ks: seq<string>) {
    forall i, j :: 0 <= i < j < |ks| ==> Less(ks[i], ks[j])
  }

  lemma HasHead(a: seq<string>)
    ensures a != [] ==> a[0] in a
  {}

  /** Two increasing lists of the same types are the same list. */
  lemma {:induction false} IncreasingIsCanonical(a: seq<string>, b: seq<string>)
    requires Increasing(a) && Increasing(b)
    requires forall k :: k in a <==> k in b
    ensures a == b
  {
    HasHead(a);
    HasHead(b);
    if a != [] {
      assert a[0] in b && b[0] in a;
      var i :| 0 <= i < |b| && b[i] == a[0];
      var j :| 0 <= j < |a| && a[j] == b[0];
      if i > 0 && j > 0 {
        LessTransitive(a[0], b[0], a[0]);
      }
      LessIrreflexive(a[0]);
      assert a[0] == b[0];
      forall k ensures k in a[1..] <==> k in b[1..] {
        if k in a[1..] {
          var x :| 1 <= x < |a| && a[x] == k;
          assert k in a && k != a[0];
        }
        if k in b[1..] {
          var y :| 1 <= y < |b| && b[y] == k;
          assert k in b && k != b[0];
        }
      }
      IncreasingIsCanonical(a[1..], b[1..]);
      assert a == [a[0]] + a[1..] && b == [b[0]] + b[1..];
    }
  }

  lemma {:induction false} UniqueAsMultiset(cs: seq<Condition>, c: Condition)
    requires UniqueKinds(cs)
    ensures multiset(cs)[c] <= 1
    ensures forall d :: d in multiset(cs) && c in multiset(cs) && d.kind == c.kind ==> d == c
  {
    if cs != [] {
      var init, last := cs[..|cs| - 1], cs[|cs| - 1];
      UniqueAsMultiset(init, c);
      assert cs == init + [last];
      assert forall d :: d in multiset(init) ==> d in init && d.kind != last.kind;
    }
  }

  lemma SameKinds(sc: seq<Condition>, cs: seq<Condition>, k: string)
    requires multiset(sc) == multiset(cs)
    ensures HasKind(sc, k) ==> HasKind(cs, k)
  {
    if HasKind(sc, k) {
      var i :| 0 <= i < |sc| && sc[i].kind == k;
      assert sc[i] in multiset(sc) && sc[i] in cs;
    }
  }

  lemma TwiceInMultiset(s: seq<Condition>, i: nat, j: nat)
    requires i < j < |s| && s[i] == s[j]
    ensures multiset(s)[s[i]] >= 2
  {
    assert s == s[..j] + [s[j]] + s[j + 1..];
    assert s[i] in s[..j];
  }

  lemma PermutationIsUnique(sc: seq<Condition>, cs: seq<Condition>)
    requires multiset(sc) == multiset(cs) && UniqueKinds(cs)
    ensures UniqueKinds(sc)
  {
    forall i, j | 0 <= i < j < |sc| ensures sc[i].kind != sc[j].kind {
      assert sc[i] in multiset(sc) && sc[j] in multiset(sc);
      UniqueAsMultiset(cs, sc[i]);
      if sc[i] == sc[j] { TwiceInMultiset(sc, i, j); }
    }
  }

  /** A permutation of a list with one condition per type has one condition per type, and means the same. */
  lemma PermutationMeans(sc: seq<Condition>, cs: seq<Condition>)
    requires multiset(sc) == multiset(cs) && UniqueKinds(cs)
    ensures UniqueKinds(sc) && Meaning(sc) == Meaning(cs)
  {
    PermutationIsUnique(sc, cs);
    MeaningOf(sc);
    MeaningOf(cs);
    forall k ensures k in Meaning(sc) <==> k in Meaning(cs) {
      SameKinds(sc, cs, k);
      SameKinds(cs, sc, k);
    }
    forall k | k in Meaning(sc) ensures Meaning(sc)[k] == Meaning(cs)[k] {
      var i :| 0 <= i < |sc| && sc[i].kind == k;
      assert sc[i] in multiset(sc) && sc[i] in cs;
    }
  }

  lemma SortIncreases(sc: seq<Condition>)
    requires SortedByKind(sc) && UniqueKinds(sc)
    ensures Increasing(Kinds(sc))
  {
    forall i, j | 0 <= i < j < |sc| ensures Less(sc[i].kind, sc[j].kind) {
      LessTotal(sc[i].kind, sc[j].kind);
    }
  }

  /** The loop over both sorted lists. */
  ghost predicate PairwiseSame(sc: seq<Condition>, oc: seq<Condition>) {
    |sc| == |oc| && forall i :: 0 <= i < |sc| ==> Same(sc[i], oc[i])
  }

  lemma SameImpliesMeaning(sc: seq<Condition>, oc: seq<Condition>)
    requires UniqueKinds(sc) && UniqueKinds(oc) && PairwiseSame(sc, oc)
    ensures Meaning(sc) == Meaning(oc)
  {
    MeaningOf(sc);
    MeaningOf(oc);
    assert Kinds(sc) == Kinds(oc);
    forall k ensures k in Meaning(sc) <==> k in Meaning(oc) {
      KnownKind(sc, k);
      KnownKind(oc, k);
    }
    forall k | k in Meaning(sc) ensures Meaning(sc)[k] == Meaning(oc)[k] {
      var i :| 0 <= i < |sc| && sc[i].kind == k;
      assert Same(sc[i], oc[i]);
    }
  }

  lemma MeaningImpliesSame(sc: seq<Condition>, oc: seq<Condition>)
    requires UniqueKinds(sc) && UniqueKinds(oc) && SortedByKind(sc) && SortedByKind(oc)
    requires Meaning(sc) == Meaning(oc)
    ensures PairwiseSame(sc, oc)
  {
    MeaningOf(sc);
    MeaningOf(oc);
    SortIncreases(sc);
    SortIncreases(oc);
    forall k ensures k in Kinds(sc) <==> k in Kinds(oc) {
      KnownKind(sc, k);
      KnownKind(oc, k);
    }
    IncreasingIsCanonical(Kinds(sc), Kinds(oc));
    assert |sc| == |Kinds(sc)| == |oc|;
    forall i | 0 <= i < |sc| ensures Same(sc[i], oc[i]) {
      assert Kinds(sc)[i] == Kinds(oc)[i];
    }
  }

  /** For lists with one condition per type, and whatever sorted permutations the sort returns, the pairwise
      comparison succeeds exactly when both lists say the same about the same types. */
  lemma PairwiseIsMeaning(cs: seq<Condition>, os: seq<Condition>, sc: seq<Condition>, oc: seq<Condition>)
    requires UniqueKinds(cs) && UniqueKinds(os)
    requires SortOf(sc, cs) && SortOf(oc, os)
    ensures PairwiseSame(sc, oc) <==> Meaning(cs) == Meaning(os)
  {
    PermutationMeans(sc, cs);
    PermutationMeans(oc, os);
    if PairwiseSame(sc, oc) {
      SameImpliesMeaning(sc, oc);
    }
    if Meaning(sc) == Meaning(oc) {
      MeaningImpliesSame(sc, oc);
    }
  }

  // ---------- Setting and equality ----------

  /** What an argument list says about each of its types: the last condition of the type counts. */
  function Supplied(ns: seq<Condition>): map<string, Core> {
    map k | k in KindSet(ns) && LastIndex(ns, k) >= 0 :: CoreOf(ns[LastIndex(ns, k)])
  }

  lemma KindsOfSetAll(cs: seq<Condition>, ns: seq<Condition>, k: string)
    ensures HasKind(SetAll(cs, ns), k) <==> HasKind(cs, k) || HasKind(ns, k)
    ensures forall s: seq<Condition> :: k in KindSet(s) <==> HasKind(s, k)
  {
    var r := SetAll(cs, ns);
    SetAllIsStable(cs, ns);
    OldEntriesFold(cs, ns);
    if HasKind(cs, k) {
      var i :| 0 <= i < |cs| && cs[i].kind == k;
      assert r[i].kind == k;
    } else if HasKind(ns, k) {
      var j :| 0 <= j < |ns| && ns[j].kind == k;
      assert HasKind(r, ns[j].kind);
    } else {
      NoNewKind(cs, ns, k);
    }
  }

  /** SetConditions overrides the meaning of the set by what was supplied last, and touches nothing else. */
  lemma SetAllMeans(cs: seq<Condition>, ns: seq<Condition>)
    ensures Meaning(SetAll(cs, ns)) == Meaning(cs) + Supplied(ns)
  {
    var r := SetAll(cs, ns);
    forall k
      ensures k in Meaning(r) <==> k in Meaning(cs) || k in Supplied(ns)
      ensures k in Meaning(r) ==> Meaning(r)[k] == (Meaning(cs) + Supplied(ns))[k]
    {
      LastWriteWins(cs, ns, k);
      KindsOfSetAll(cs, ns, k);
    }
  }

  lemma SuppliedIsMeaning(ns: seq<Condition>)
    requires UniqueKinds(ns)
    ensures Supplied(ns) == Meaning(ns)
  {
    MeaningOf(ns);
    assert forall k :: k in KindSet(ns) <==> HasKind(ns, k);
  }

  /** Setting conditions of distinct types in any two orders gives sets that mean the same, whatever was set before. */
  lemma OrderIrrelevant(cs: seq<Condition>, ns: seq<Condition>, ms: seq<Condition>)
    requires UniqueKinds(cs) && UniqueKinds(ns) && multiset(ms) == multiset(ns)
    ensures UniqueKinds(SetAll(cs, ns)) && UniqueKinds(SetAll(cs, ms))
    ensures Meaning(SetAll(cs, ns)) == Meaning(SetAll(cs, ms))
  {
    SetAllKeepsUnique(cs, ns);
    SetAllKeepsUnique(cs, ms);
    SetAllMeans(cs, ns);
    SetAllMeans(cs, ms);
    PermutationMeans(ms, ns);
    SuppliedIsMeaning(ns);
    SuppliedIsMeaning(ms);
  }

  /** ... so Equal accepts them, whatever sorted permutations sc and oc the sort returns. */
  lemma OrdersAreAccepted(cs: seq<Condition>, ns: seq<Condition>, ms: seq<Condition>,
                          sc: seq<Condition>, oc: seq<Condition>)
    requires UniqueKinds(cs) && UniqueKinds(ns) && multiset(ms) == multiset(ns)
    requires SortOf(sc, SetAll(cs, ns)) && SortOf(oc, SetAll(cs, ms))
    ensures PairwiseSame(sc, oc)
  {
    OrderIrrelevant(cs, ns, ms);
    PairwiseIsMeaning(SetAll(cs, ns), SetAll(cs, ms), sc, oc);
  }

  lemma {:induction false} KindSetSize(cs: seq<Condition>)
    requires UniqueKinds(cs)
    ensures |KindSet(cs)| == |cs|
  {
    if cs != [] {
      var init, last := cs[..|cs| - 1], cs[|cs| - 1];
      KindSetSize(init);
      assert forall i :: 0 <= i < |init| ==> init[i] == cs[i];
      assert KindSet(cs) == KindSet(init) + {last.kind};
      assert last.kind !in KindSet(init);
    }
  }

  lemma {:induction false} MeaningSize(cs: seq<Condition>)
    requires UniqueKinds(cs)
    ensures |Meaning(cs)| == |cs|
  {
    KindSetSize(cs);
    assert Meaning(cs).Keys == KindSet(cs);
  }

  lemma SameLength(s: seq<Condition>, t: seq<Condition>)
    requires multiset(s) == multiset(t)
    ensures |s| == |t|
  {
    assert |multiset(s)| == |s| && |multiset(t)| == |t|;
  }
}

/** Equality of condition lists in which a type may occur more than once: the unstable sort then decides. */
module ConditionRepeats {
  import opened Conditions
  import opened ConditionEquality

  /** What Condition.Equal compares. */
  function Strip(c: Condition): Condition { c.(observedGeneration := 0, lastTransitionTime := 0) }

  function Contents(cs: seq<Condition>): multiset<Condition> {
    if cs == [] then multiset{} else multiset{Strip(cs[0])} + Contents(cs[1..])
  }

  /** Entries of one type say the same. */
  ghost predicate Agree(cs: seq<Condition>) {
    forall i, j :: 0 <= i < |cs| && 0 <= j < |cs| && cs[i].kind == cs[j].kind ==> Same(cs[i], cs[j])
  }

  lemma {:induction false} InContents(cs: seq<Condition>, x: Condition)
    ensures x in Contents(cs) <==> exists i :: 0 <= i < |cs| && Strip(cs[i]) == x
    ensures |Contents(cs)| == |cs|
  {
    if cs != [] {
      InContents(cs[1..], x);
      if i :| 0 <= i < |cs[1..]| && Strip(cs[1..][i]) == x {
        assert Strip(cs[i + 1]) == x;
      }
      if i :| 1 <= i < |cs| && Strip(cs[i]) == x {
        assert Strip(cs[1..][i - 1]) == x;
      }
    }
  }

  lemma {:induction false} ContentsWithout(cs: seq<Condition>, i: nat)
    requires i < |cs|
    ensures Contents(cs) == multiset{Strip(cs[i])} + Contents(cs[..i] + cs[i + 1..])
  {
    var rest := cs[..i] + cs[i + 1..];
    if i == 0 {
      assert rest == cs[1..];
    } else {
      ContentsWithout(cs[1..], i - 1);
      assert rest[1..] == cs[1..][..i - 1] + cs[1..][i..];
    }
  }

  lemma MultisetWithout(cs: seq<Condition>, i: nat)
    requires i < |cs|
    ensures multiset(cs[..i] + cs[i + 1..]) == multiset(cs) - multiset{cs[i]}
  {
    assert cs == cs[..i] + [cs[i]] + cs[i + 1..];
  }

  lemma MultisetTail(cs: seq<Condition>)
    requires cs != []
    ensures multiset(cs[1..]) == multiset(cs) - multiset{cs[0]}
  {
    assert cs == [cs[0]] + cs[1..];
  }

  lemma {:induction false} PermutedContents(sc: seq<Condition>, cs: seq<Condition>)
    requires multiset(sc) == multiset(cs)
    ensures Contents(sc) == Contents(cs)
    decreases |cs|
  {
    SameLength(sc, cs);
    if cs != [] {
      assert cs[0] in multiset(sc);
      var i :| 0 <= i < |sc| && sc[i] == cs[0];
      MultisetWithout(sc, i);
      MultisetTail(cs);
      PermutedContents(sc[..i] + sc[i + 1..], cs[1..]);
      ContentsWithout(sc, i);
    }
  }

  lemma {:induction false} PairwiseContents(sc: seq<Condition>, oc: seq<Condition>)
    requires PairwiseSame(sc, oc)
    ensures Contents(sc) == Contents(oc)
  {
    if sc != [] {
      PairwiseContents(sc[1..], oc[1..]);
      assert Same(sc[0], oc[0]);
    }
  }

  lemma AgreePermutes(cs: seq<Condition>, sc: seq<Condition>)
    requires multiset(sc) == multiset(cs) && Agree(cs)
    ensures Agree(sc)
  {
    forall i, j | 0 <= i < |sc| && 0 <= j < |sc| && sc[i].kind == sc[j].kind ensures Same(sc[i], sc[j]) {
      assert sc[i] in multiset(sc) && sc[j] in multiset(sc);
      assert sc[i] in cs && sc[j] in cs;
    }
  }

  lemma ContentsSize(cs: seq<Condition>)
    ensures |Contents(cs)| == |cs|
  {
    InContents(cs, Condition("", "", 0, 0, "", ""));
  }

  lemma HeadsAgree(sc: seq<Condition>, oc: seq<Condition>)
    requires SortedByKind(sc) && SortedByKind(oc) && Agree(sc) && Contents(sc) == Contents(oc)
    requires sc != [] && oc != []
    ensures Strip(sc[0]) == Strip(oc[0])
  {
    InContents(sc, Strip(oc[0]));
    InContents(oc, Strip(oc[0]));
    InContents(sc, Strip(sc[0]));
    InContents(oc, Strip(sc[0]));
    var i :| 0 <= i < |sc| && Strip(sc[i]) == Strip(oc[0]);
    var j :| 0 <= j < |oc| && Strip(oc[j]) == Strip(sc[0]);
    assert sc[i].kind == oc[0].kind && oc[j].kind == sc[0].kind;
    LessTotal(sc[0].kind, oc[0].kind);
    LessIrreflexive(sc[0].kind);
    assert Same(sc[0], sc[i]);
  }

  lemma {:induction false} AgreeingAreAccepted(sc: seq<Condition>, oc: seq<Condition>)
    requires SortedByKind(sc) && SortedByKind(oc) && Agree(sc) && Contents(sc) == Contents(oc)
    ensures PairwiseSame(sc, oc)
    decreases |sc|
  {
    ContentsSize(sc);
    ContentsSize(oc);
    if sc != [] {
      HeadsAgree(sc, oc);
      assert Contents(sc[1..]) == Contents(sc) - multiset{Strip(sc[0])};
      assert Contents(oc[1..]) == Contents(oc) - multiset{Strip(oc[0])};
      AgreeingAreAccepted(sc[1..], oc[1..]);
    }
  }

  /** Whatever the sort returns, Equal accepts two lists only if they hold the same entries equally often; it accepts
      them for certain if, besides, entries of one type agree. */
  lemma ContentsDecide(cs: seq<Condition>, os: seq<Condition>, sc: seq<Condition>, oc: seq<Condition>)
    requires SortOf(sc, cs) && SortOf(oc, os)
    ensures PairwiseSame(sc, oc) ==> Contents(cs) == Contents(os)
    ensures Agree(cs) && Contents(cs) == Contents(os) ==> PairwiseSame(sc, oc)
  {
    PermutedContents(sc, cs);
    PermutedContents(oc, os);
    if PairwiseSame(sc, oc) { PairwiseContents(sc, oc); }
    if Agree(cs) && Contents(cs) == Contents(os) {
      AgreePermutes(cs, sc);
      AgreeingAreAccepted(sc, oc);
    }
  }

  lemma {:induction false} Position(sc: seq<Condition>, n: nat, c: Condition) returns (j: nat)
    requires n <= |sc| && forall k :: n <= k < |sc| ==> Less(c.kind, sc[k].kind)
    ensures j <= |sc| && (j > 0 ==> !Less(c.kind, sc[j - 1].kind))
    ensures forall k :: j <= k < |sc| ==> Less(c.kind, sc[k].kind)
  {
    if n > 0 && Less(c.kind, sc[n - 1].kind) {
      j := Position(sc, n - 1, c);
    } else {
      j := n;
    }
  }

  lemma InsertedMultiset(sc: seq<Condition>, j: nat, c: Condition)
    requires j <= |sc|
    ensures multiset(sc[..j] + [c] + sc[j..]) == multiset(sc) + multiset{c}
  {
    assert sc == sc[..j] + sc[j..];
  }

  lemma {:induction false} SortExists(cs: seq<Condition>) returns (sc: seq<Condition>)
    ensures SortOf(sc, cs)
  {
    if cs == [] {
      sc := [];
    } else {
      var rest := SortExists(cs[1..]);
      var j := Position(rest, |rest|, cs[0]);
      InsertSorted(rest, j, cs[0]);
      InsertedMultiset(rest, j, cs[0]);
      assert cs == [cs[0]] + cs[1..];
      sc := rest[..j] + [cs[0]] + rest[j..];
    }
  }

  /** Two entries of one type that disagree can be sorted either way round. */
  lemma SwapIsSort(sc: seq<Condition>, i: nat, j: nat)
    requires SortedByKind(sc) && i < j < |sc| && sc[i].kind == sc[j].kind
    ensures SortOf(sc[i := sc[j]][j := sc[i]], sc)
  {
  }

  ghost predicate AlwaysAccepted(cs: seq<Condition>, os: seq<Condition>) {
    forall sc, oc :: SortOf(sc, cs) && SortOf(oc, os) ==> PairwiseSame(sc, oc)
  }

  lemma AlwaysAcceptedAgree(cs: seq<Condition>, os: seq<Condition>)
    requires AlwaysAccepted(cs, os)
    ensures Contents(cs) == Contents(os) && Agree(cs)
  {
    var sc := SortExists(cs);
    var oc := SortExists(os);
    assert PairwiseSame(sc, oc);
    ContentsDecide(cs, os, sc, oc);
    forall i, j | 0 <= i < j < |sc| && sc[i].kind == sc[j].kind ensures Same(sc[i], sc[j]) {
      SwapIsSort(sc, i, j);
      var swapped := sc[i := sc[j]][j := sc[i]];
      assert SortOf(swapped, cs);
      assert PairwiseSame(swapped, oc);
      assert Same(sc[i], oc[i]) && Same(swapped[i], oc[i]);
    }
    AgreePermutes(sc, cs);
  }

  /** The exact condition under which Equal accepts two lists whatever the sort does: the contents are equal and
      entries of one type agree. Otherwise Equal may even refuse a list and itself. */
  lemma AlwaysAcceptedIff(cs: seq<Condition>, os: seq<Condition>)
    ensures AlwaysAccepted(cs, os) <==> Contents(cs) == Contents(os) && Agree(cs)
  {
    if AlwaysAccepted(cs, os) {
      AlwaysAcceptedAgree(cs, os);
    }
    if Contents(cs) == Contents(os) && Agree(cs) {
      forall sc, oc | SortOf(sc, cs) && SortOf(oc, os) ensures PairwiseSame(sc, oc) {
        ContentsDecide(cs, os, sc, oc);
      }
    }
  }

  /** A list that Equal may refuse although it is compared with itself. */
  lemma RefusesItself()
    ensures var ready, failed := Condition("Ready", "True", 0, 0, "", ""), Condition("Ready", "False", 0, 0, "", "");
            var cs := [ready, failed];
            SortOf(cs, cs) && SortOf([failed, ready], cs) && !PairwiseSame(cs, [failed, ready])
  {
    var ready, failed := Condition("Ready", "True", 0, 0, "", ""), Condition("Ready", "False", 0, 0, "", "");
    LessIrreflexive("Ready");
    SwapIsSort([ready, failed], 0, 1);
    assert [ready, failed][0 := failed][1 := ready] == [failed, ready];
    assert !Same([ready, failed][0], [failed, ready][0]);
  }
}

/** The status object that carries a condition set. */
module ConditionStatus {
  import opened Conditions
  import opened ConditionEquality
  import opened ConditionRepeats

  lemma LengthsDecide(cs: seq<Condition>, os: seq<Condition>)
    requires |cs| != |os|
    ensures Contents(cs) != Contents(os)
    ensures UniqueKinds(cs) && UniqueKinds(os) ==> Meaning(cs) != Meaning(os)
  {
    ContentsSize(cs);
    ContentsSize(os);
    if UniqueKinds(cs) && UniqueKinds(os) {
      MeaningSize(cs);
      MeaningSize(os);
    }
  }

  lemma SortsDecide(cs: seq<Condition>, os: seq<Condition>, sc: seq<Condition>, oc: seq<Condition>)
    requires SortOf(sc, cs) && SortOf(oc, os)
    ensures |sc| == |cs| && |oc| == |os|
    ensures PairwiseSame(sc, oc) ==> Contents(cs) == Contents(os)
    ensures Agree(cs) && Contents(cs) == Contents(os) ==> PairwiseSame(sc, oc)
    ensures UniqueKinds(cs) && UniqueKinds(os) ==> (PairwiseSame(sc, oc) <==> Meaning(cs) == Meaning(os))
  {
    SameLength(sc, cs);
    SameLength(oc, os);
    ContentsDecide(cs, os, sc, oc);
    if UniqueKinds(cs) && UniqueKinds(os) {
      PairwiseIsMeaning(cs, os, sc, oc);
    }
  }

  /** Stands for the library's sort.Slice; only the contract is used. */
  method SortByKind(cs: seq<Condition>) returns (sc: seq<Condition>)
    ensures SortOf(sc, cs)
  {
    sc := [];
    for i := 0 to |cs|
      invariant SortOf(sc, cs[..i])
    {
      assert cs[..i + 1] == cs[..i] + [cs[i]];
      var j := |sc|;
      while j > 0 && Less(cs[i].kind, sc[j - 1].kind)
        invariant 0 <= j <= |sc|
        invariant forall k :: j <= k < |sc| ==> Less(cs[i].kind, sc[k].kind)
      {
        j := j - 1;
      }
      InsertSorted(sc, j, cs[i]);
      assert sc == sc[..j] + sc[j..];
      sc := sc[..j] + [cs[i]] + sc[j..];
    }
    assert cs[..|cs|] == cs;
  }

  class ConditionedStatus {
    var conditions: seq<Condition>

    constructor (c: seq<Condition>)
      ensures conditions == SetAll([], c)
    {
      conditions := [];
      new;
      SetConditions(c);
    }

    method GetCondition(t: string) returns (c: Condition)
      ensures c == Find(conditions, t)
    {
      for i := 0 to |conditions|
        invariant Find(conditions, t) == Find(conditions[i..], t)
      {
        if conditions[i].kind == t {
          return conditions[i];
        }
      }
      c := Condition(t, "False", 0, 0, "", "");
    }

    method SetConditions(c: seq<Condition>)
      modifies this
      ensures conditions == SetAll(old(conditions), c)
    {
      for j := 0 to |c|
        invariant conditions == SetAll(old(conditions), c[..j])
      {
        var n := c[j];
        assert c[..j + 1][..j] == c[..j];
        var found := false;
        ghost var before := conditions;
        for i := 0 to |conditions|
          invariant |conditions| == |before|
          invariant forall k :: 0 <= k < |before| ==> conditions[k] == if k < i then Upd(before[k], n) else before[k]
          invariant found <==> HasKind(before[..i], n.kind)
        {
          assert before[..i + 1] == before[..i] + [before[i]];
          var existing := conditions[i];
          if existing.kind != n.kind {
            continue;
          }
          assert before[..i + 1][i].kind == n.kind;
          if Same(existing, n) {
            found := true;
            continue;
          }
          conditions := conditions[i := n];
          found := true;
        }
        assert before[..|before|] == before;
        if !found {
          conditions := conditions + [n];
        }
        assert conditions == SetOne(before, n);
      }
      assert c[..|c|] == c;
    }

    /** For sets with one condition per type: true exactly when both say the same about the same types. For all lists:
        never true of different contents, and true of equal contents if entries of one type agree. Neither list
        changes. */
    static method Equal(r: ConditionedStatus?, other: ConditionedStatus?) returns (b: bool)
      ensures r == null || other == null ==> (b <==> r == null && other == null)
      ensures r != null && other != null && UniqueKinds(r.conditions) && UniqueKinds(other.conditions) ==>
                (b <==> Meaning(r.conditions) == Meaning(other.conditions))
      ensures r != null && other != null && b ==> Contents(r.conditions) == Contents(other.conditions)
      ensures r != null && other != null && Agree(r.conditions) ==>
                (b <==> Contents(r.conditions) == Contents(other.conditions))
    {
      if r == null || other == null {
        return r == null && other == null;
      }
      if |other.conditions| != |r.conditions| {
        LengthsDecide(r.conditions, other.conditions);
        return false;
      }
      var sc := SortByKind(r.conditions);
      var oc := SortByKind(other.conditions);
      SortsDecide(r.conditions, other.conditions, sc, oc);
      for i := 0 to |sc|
        invariant forall k :: 0 <= k < i ==> Same(sc[k], oc[k])
      {
        if !Same(sc[i], oc[i]) {
          return false;
        }
      }
      b := true;
    }
  }
}

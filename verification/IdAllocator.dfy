/** The watcher ID allocator: a queue of free ids and the set of ids in use. The store's allocator and the REST
    layer's allocator are the same code, so one model serves both. */
module IdAllocator {
  import opened Events

  /** The value of an allocator. */
  datatype Alloc = Alloc(avail: seq<int>, inUse: set<int>)

  ghost predicate Distinct(s: seq<int>) {
    forall i, j :: 0 <= i < j < |s| ==> s[i] != s[j]
  }

  /** The free ids are duplicate-free and, with the ids in use, partition 0..maxID. */
  ghost predicate Partition(a: Alloc, maxID: int) {
    && Distinct(a.avail)
    && (forall id :: id in a.avail ==> id !in a.inUse && 0 <= id <= maxID)
    && (forall id :: id in a.inUse ==> 0 <= id <= maxID)
    && (forall id :: 0 <= id <= maxID ==> id in a.avail || id in a.inUse)
  }

  /** AllocateID takes the oldest free id, or fails when there is none. */
  function Allocate(a: Alloc): (Alloc, Option<int>) {
    if a.avail == [] then (a, None)
    else (Alloc(a.avail[1..], a.inUse + {a.avail[0]}), Some(a.avail[0]))
  }

  /** ReleaseID queues an id that is in use; any other id is refused. */
  function Release(a: Alloc, id: int): (Alloc, bool) {
    if id !in a.inUse then (a, false)
    else (Alloc(a.avail + [id], a.inUse - {id}), true)
  }

  lemma AllocateKeepsPartition(a: Alloc, maxID: int)
    requires Partition(a, maxID)
    ensures Partition(Allocate(a).0, maxID)
  {
    if a.avail != [] {
      var b := Allocate(a).0;
      forall id | id in b.avail ensures id !in b.inUse && 0 <= id <= maxID {
        assert id in a.avail;
      }
      forall id | 0 <= id <= maxID ensures id in b.avail || id in b.inUse {
        if id in a.avail && id != a.avail[0] {
          var i :| 0 <= i < |a.avail| && a.avail[i] == id;
          assert b.avail[i - 1] == id;
        }
      }
    }
  }

  lemma ReleaseKeepsPartition(a: Alloc, maxID: int, id: int)
    requires Partition(a, maxID)
    ensures Partition(Release(a, id).0, maxID)
  {
    if id in a.inUse {
      var b := Release(a, id).0;
      assert b.avail[|a.avail|] == id;
      forall j | j in a.avail ensures j in b.avail {
        var i :| 0 <= i < |a.avail| && a.avail[i] == j;
        assert b.avail[i] == j;
      }
    }
  }

  /** The ids below n. */
  function Range(n: nat): (r: set<int>)
    ensures |r| == n
    ensures forall i :: i in r <==> 0 <= i < n
  {
    if n == 0 then {} else Range(n - 1) + {n - 1}
  }

  lemma DistinctSize(s: seq<int>)
    requires Distinct(s)
    ensures |set id | id in s| == |s|
  {
    if s != [] {
      var t := s[..|s| - 1];
      DistinctSize(t);
      assert s == t + [s[|s| - 1]];
      assert (set id | id in s) == (set id | id in t) + {s[|s| - 1]};
    }
  }

  /** No id is ever lost: free and used ids always add up to maxID + 1. */
  lemma PartitionSize(a: Alloc, maxID: nat)
    requires Partition(a, maxID)
    ensures |a.avail| + |a.inUse| == maxID + 1
  {
    DistinctSize(a.avail);
    var free := set id | id in a.avail;
    assert free + a.inUse == Range(maxID + 1);
    assert free * a.inUse == {};
  }

  // ---------- Runs of one allocator ----------

  datatype AllocOp = AllocateID | ReleaseID(id: int)

  function Step(a: Alloc, op: AllocOp): Alloc {
    match op
    case AllocateID => Allocate(a).0
    case ReleaseID(id) => Release(a, id).0
  }

  function Run(a: Alloc, ops: seq<AllocOp>): Alloc {
    if ops == [] then a else Step(Run(a, ops[..|ops| - 1]), ops[|ops| - 1])
  }

  /** The ids handed out by the successful AllocateID calls of the run, in order. */
  function Returned(a: Alloc, ops: seq<AllocOp>): seq<int> {
    if ops == [] then []
    else
      var init := ops[..|ops| - 1];
      var r := Allocate(Run(a, init)).1;
      Returned(a, init) + if ops[|ops| - 1].AllocateID? && r.Some? then [r.value] else []
  }

  /** The ids taken back by the successful ReleaseID calls of the run, in order. */
  function Released(a: Alloc, ops: seq<AllocOp>): seq<int> {
    if ops == [] then []
    else
      var init := ops[..|ops| - 1];
      var op := ops[|ops| - 1];
      Released(a, init) + if op.ReleaseID? && Release(Run(a, init), op.id).1 then [op.id] else []
  }

  /** One call more: what was free plus what came back against what was handed out plus what is free. */
  lemma QueueStep(start: seq<int>, back: seq<int>, out: seq<int>, a: Alloc, op: AllocOp)
    requires start + back == out + a.avail
    ensures op.AllocateID? ==>
              start + back == (out + if Allocate(a).1.Some? then [Allocate(a).1.value] else []) + Step(a, op).avail
    ensures op.ReleaseID? ==>
              start + (back + if Release(a, op.id).1 then [op.id] else []) == out + Step(a, op).avail
  {
    var free := a.avail;
    if op.AllocateID? {
      if free != [] {
        assert free == [free[0]] + free[1..];
        assert (out + [free[0]]) + free[1..] == out + free;
      } else {
        assert out + [] == out;
      }
    } else if Release(a, op.id).1 {
      assert start + (back + [op.id]) == (start + back) + [op.id];
      assert (out + free) + [op.id] == out + (free + [op.id]);
    } else {
      assert back + [] == back;
    }
  }

  /** Queue conservation: what was free plus what came back is, in the same order, what was handed out plus what
      is free now. */
  lemma {:induction false} QueueLaw(a: Alloc, ops: seq<AllocOp>)
    ensures a.avail + Released(a, ops) == Returned(a, ops) + Run(a, ops).avail
  {
    if ops != [] {
      var init := ops[..|ops| - 1];
      QueueLaw(a, init);
      QueueStep(a.avail, Released(a, init), Returned(a, init), Run(a, init), ops[|ops| - 1]);
      assert Released(a, init) + [] == Released(a, init) && Returned(a, init) + [] == Returned(a, init);
    }
  }

  lemma {:induction false} RunKeepsPartition(a: Alloc, maxID: int, ops: seq<AllocOp>)
    requires Partition(a, maxID)
    ensures Partition(Run(a, ops), maxID)
  {
    if ops != [] {
      var init := ops[..|ops| - 1];
      RunKeepsPartition(a, maxID, init);
      match ops[|ops| - 1]
      case AllocateID => AllocateKeepsPartition(Run(a, init), maxID);
      case ReleaseID(id) => ReleaseKeepsPartition(Run(a, init), maxID, id);
    }
  }

  /** FIFO reuse: an id released with q ids ahead of it is handed out by exactly the (q+1)-th later successful
      AllocateID, whatever is released in between; until then it stays free, q minus the number of allocations
      from the front. */
  lemma FifoReuse(a: Alloc, maxID: int, id: int, ops: seq<AllocOp>)
    requires Partition(a, maxID) && id in a.inUse
    ensures var b := Release(a, id).0;
            var q := |a.avail|;
            var out := Returned(b, ops);
            && (|out| > q ==> out[q] == id)
            && (forall i :: 0 <= i < q && i < |out| ==> out[i] == a.avail[i] != id)
            && (|out| <= q ==>
                  && q - |out| < |Run(b, ops).avail|
                  && Run(b, ops).avail[q - |out|] == id
                  && id !in Run(b, ops).inUse)
  {
    var b := Release(a, id).0;
    var out := Returned(b, ops);
    QueueLaw(b, ops);
    ReleaseKeepsPartition(a, maxID, id);
    RunKeepsPartition(b, maxID, ops);
    var whole := b.avail + Released(b, ops);
    assert whole == out + Run(b, ops).avail;
    assert whole[|a.avail|] == id;
    forall i | 0 <= i < |a.avail| && i < |out| ensures out[i] == a.avail[i] != id {
      assert whole[i] == out[i];
      assert a.avail[i] in a.avail;
    }
    if |out| > |a.avail| {
      assert out[|a.avail|] == whole[|a.avail|];
    } else {
      assert whole[|a.avail|] == Run(b, ops).avail[|a.avail| - |out|];
    }
  }

  // ---------- The allocator object ----------

  class Allocator {
    const maxID: int
    var availableIDs: seq<int>
    var allocatedIDs: map<int, bool>

    /** The allocator's abstract value: an id is in use when the map holds true for it. */
    ghost function Model(): Alloc
      reads this
    {
      Alloc(availableIDs, set id | id in allocatedIDs && allocatedIDs[id])
    }

    ghost predicate Valid()
      reads this
    {
      Partition(Model(), maxID)
    }

    constructor (maxID: int)
      requires 0 <= maxID
      ensures Valid() && this.maxID == maxID
      ensures Model() == Alloc(seq(maxID + 1, i => i), {})
    {
      var ids: seq<int> := [];
      for i := 0 to maxID + 1
        invariant ids == seq(i, j => j)
      {
        ids := ids + [i];
      }
      this.maxID := maxID;
      availableIDs := ids;
      allocatedIDs := map[];
      new;
      forall id | 0 <= id <= maxID ensures id in availableIDs {
        assert availableIDs[id] == id;
      }
    }

    method IsExhausted() returns (b: bool)
      ensures b <==> Allocate(Model()).1.None?
    {
      b := |availableIDs| == 0;
    }

    method AllocateID() returns (id: int, ok: bool)
      modifies this
      ensures old(Valid()) ==> Valid()
      ensures Model() == old(Allocate(Model())).0
      ensures (if ok then Some(id) else None) == old(Allocate(Model())).1
    {
      if Valid() { AllocateKeepsPartition(Model(), maxID); }
      if |availableIDs| == 0 {
        return 0, false;
      }
      id := availableIDs[0];
      availableIDs := availableIDs[1..];
      allocatedIDs := allocatedIDs[id := true];
      ok := true;
      assert Model() == old(Allocate(Model())).0;
    }

    method ReleaseID(id: int) returns (ok: bool)
      modifies this
      ensures old(Valid()) ==> Valid()
      ensures (Model(), ok) == old(Release(Model(), id))
    {
      if Valid() { ReleaseKeepsPartition(Model(), maxID, id); }
      if id !in allocatedIDs || !allocatedIDs[id] {
        return false;
      }
      availableIDs := availableIDs + [id];
      allocatedIDs := allocatedIDs - {id};
      ok := true;
      assert Model() == old(Release(Model(), id)).0;
    }
  }
}

/** The value of a watcher table: the allocator plus the registered watchers by id. `C` is whatever identifies a
    watcher: its event stream in the sequential models, its channel in the interleaving model. */
module WatchTable {
  import opened Events
  import opened IdAllocator

  datatype Table<+C> = Table(ids: Alloc, watchers: map<int, C>)

  /** Free and used ids partition 0..maxID, and the used ids are exactly the registered ones. */
  ghost predicate ValidTable<C>(t: Table<C>, maxID: int) {
    Partition(t.ids, maxID) && t.ids.inUse == t.watchers.Keys
  }

  /** Add: register under a freshly allocated id, or fail and change nothing. */
  function Register<C>(t: Table<C>, c: C): (Table<C>, Option<int>) {
    var (ids, r) := Allocate(t.ids);
    if r.None? then (t, None) else (Table(ids, t.watchers[r.value := c]), r)
  }

  /** Del of the store's table: an id that is not registered is ignored. */
  function Unregister<C>(t: Table<C>, id: int): Table<C> {
    if id !in t.watchers then t else Table(Release(t.ids, id).0, t.watchers - {id})
  }

  /** Del of the REST layer's table: release whatever the allocator answers, then delete the entry. */
  function UnregisterAlways<C>(t: Table<C>, id: int): Table<C> {
    Table(Release(t.ids, id).0, t.watchers - {id})
  }

  /** The two layers' Del differ in text only: ignoring the allocator's refusal is harmless on a valid table. */
  lemma UnregistersAgree<C>(t: Table<C>, maxID: int, id: int)
    requires ValidTable(t, maxID)
    ensures UnregisterAlways(t, id) == Unregister(t, id)
  {
    if id !in t.watchers {
      assert t.watchers - {id} == t.watchers;
    }
  }

  lemma RegisterKeepsValid<C>(t: Table<C>, maxID: nat, c: C)
    requires ValidTable(t, maxID)
    ensures ValidTable(Register(t, c).0, maxID)
    ensures Register(t, c).1.None? <==> |t.watchers| == maxID + 1
    ensures Register(t, c).1.Some? ==> Register(t, c).1.value !in t.watchers
  {
    AllocateKeepsPartition(t.ids, maxID);
    PartitionSize(t.ids, maxID);
    assert |t.watchers| == |t.watchers.Keys|;
    if t.ids.avail != [] {
      var id := t.ids.avail[0];
      assert id in t.ids.avail;
      assert id !in t.ids.inUse;
    }
  }

  lemma UnregisterKeepsValid<C>(t: Table<C>, maxID: int, id: int)
    requires ValidTable(t, maxID)
    ensures ValidTable(Unregister(t, id), maxID)
  {
    ReleaseKeepsPartition(t.ids, maxID, id);
  }

  /** Del removes the id and nothing else, and queues it for reuse behind the ids that are free already. */
  lemma UnregisterRemovesOnly<C>(t: Table<C>, maxID: int, id: int)
    requires ValidTable(t, maxID)
    ensures var t' := Unregister(t, id);
            && id !in t'.watchers
            && (forall i :: i in t.watchers && i != id ==> i in t'.watchers && t'.watchers[i] == t.watchers[i])
            && (forall i :: i in t'.watchers ==> i in t.watchers)
            && t'.ids.avail == t.ids.avail + if id in t.watchers then [id] else []
  {
    assert t.ids.avail + [] == t.ids.avail;
  }

  /** Add takes the longest free id, and leaves the watchers that are registered alone. */
  lemma RegisterAddsOnly<C>(t: Table<C>, maxID: nat, c: C)
    requires ValidTable(t, maxID)
    ensures var (t', id) := Register(t, c);
            && (id.None? <==> t.ids.avail == []) && (id.None? ==> t' == t)
            && (id.Some? ==>
                  && t.ids.avail == [id.value] + t'.ids.avail
                  && t'.watchers.Keys == t.watchers.Keys + {id.value} && t'.watchers[id.value] == c
                  && forall i :: i in t.watchers ==> t'.watchers[i] == t.watchers[i])
  {
    RegisterKeepsValid(t, maxID, c);
  }

  // ---------- Runs of one table ----------

  datatype TableOp<+C> = Add(c: C) | Del(id: int)

  function TableStep<C>(t: Table<C>, op: TableOp<C>): Table<C> {
    match op
    case Add(c) => Register(t, c).0
    case Del(id) => Unregister(t, id)
  }

  function TableRun<C>(t: Table<C>, ops: seq<TableOp<C>>): Table<C> {
    if ops == [] then t else TableStep(TableRun(t, ops[..|ops| - 1]), ops[|ops| - 1])
  }

  /** The allocator calls that the table operations make. */
  function AllocOps<C>(ops: seq<TableOp<C>>): seq<AllocOp> {
    seq(|ops|, i requires 0 <= i < |ops| => if ops[i].Add? then AllocateID else ReleaseID(ops[i].id))
  }

  /** How many of the Adds of a run succeed. */
  function AddsIn<C>(t: Table<C>, ops: seq<TableOp<C>>): nat {
    |Returned(t.ids, AllocOps(ops))|
  }

  /** Over every run of Adds and Dels, failed Adds and stale Dels included, the table stays valid, and free plus
      registered is always maxID + 1. */
  lemma {:induction false} RunKeepsValid<C>(t: Table<C>, maxID: nat, ops: seq<TableOp<C>>)
    requires ValidTable(t, maxID)
    ensures var r := TableRun(t, ops);
            && ValidTable(r, maxID)
            && r.ids == Run(t.ids, AllocOps(ops))
            && |r.ids.avail| + |r.watchers| == maxID + 1
  {
    if ops != [] {
      var init := ops[..|ops| - 1];
      RunKeepsValid(t, maxID, init);
      assert AllocOps(ops)[..|ops| - 1] == AllocOps(init);
      var s := TableRun(t, init);
      match ops[|ops| - 1]
      case Add(c) => RegisterKeepsValid(s, maxID, c);
      case Del(id) => UnregisterKeepsValid(s, maxID, id);
    }
    PartitionSize(TableRun(t, ops).ids, maxID);
    assert |TableRun(t, ops).watchers| == |TableRun(t, ops).watchers.Keys|;
  }

  /** A repeated Stop is harmless until its id is reused: as long as at most q later Adds succeeded, q being the
      number of ids that were free when it was stopped, stopping it again changes nothing. */
  lemma StaleStopHarmless<C>(t: Table<C>, maxID: nat, id: int, ops: seq<TableOp<C>>)
    requires ValidTable(t, maxID) && id in t.watchers
    requires AddsIn(Unregister(t, id), ops) <= |t.ids.avail|
    ensures var s := TableRun(Unregister(t, id), ops);
            id !in s.watchers && Unregister(s, id) == s
  {
    UnregisterKeepsValid(t, maxID, id);
    RunKeepsValid(Unregister(t, id), maxID, ops);
    FifoReuse(t.ids, maxID, id, AllocOps(ops));
  }

  /** A registered id stays with its watcher until it is stopped. */
  lemma StepKeepsOthers<C>(s: Table<C>, maxID: nat, op: TableOp<C>, id: int)
    requires ValidTable(s, maxID) && id in s.watchers && op != Del(id)
    ensures id in TableStep(s, op).watchers && TableStep(s, op).watchers[id] == s.watchers[id]
  {
    if op.Add? { RegisterKeepsValid(s, maxID, op.c); }
  }

  lemma ReturnedByLast<C>(ids: Alloc, ops: seq<TableOp<C>>)
    requires ops != []
    ensures var init, op := ops[..|ops| - 1], ops[|ops| - 1];
            var r := Allocate(Run(ids, AllocOps(init))).1;
            Returned(ids, AllocOps(ops)) ==
              Returned(ids, AllocOps(init)) + if op.Add? && r.Some? then [r.value] else []
  {
    assert AllocOps(ops)[..|ops| - 1] == AllocOps(ops[..|ops| - 1]);
    assert AllocOps(ops)[|ops| - 1].AllocateID? <==> ops[|ops| - 1].Add?;
  }

  /** The (q+1)-th successful allocation returns the released id. */
  lemma LastReturns<C>(ids: Alloc, maxID: nat, id: int, ops: seq<TableOp<C>>)
    requires Partition(ids, maxID) && id in ids.inUse && ops != []
    requires var b := Release(ids, id).0;
             |Returned(b, AllocOps(ops[..|ops| - 1]))| <= |ids.avail| < |Returned(b, AllocOps(ops))|
    ensures ops[|ops| - 1].Add?
    ensures Allocate(Run(Release(ids, id).0, AllocOps(ops[..|ops| - 1]))).1 == Some(id)
  {
    ReturnedByLast(Release(ids, id).0, ops);
    FifoReuse(ids, maxID, id, AllocOps(ops));
  }

  /** So the watcher of that Add gets the stopped id. */
  lemma AddReuses<C>(t: Table<C>, maxID: nat, id: int, ops: seq<TableOp<C>>)
    requires ValidTable(t, maxID) && id in t.watchers && ops != []
    requires AddsIn(Unregister(t, id), ops[..|ops| - 1]) <= |t.ids.avail| < AddsIn(Unregister(t, id), ops)
    ensures var s := TableRun(Unregister(t, id), ops);
            ops[|ops| - 1].Add? && id in s.watchers && s.watchers[id] == ops[|ops| - 1].c
  {
    var t1, init := Unregister(t, id), ops[..|ops| - 1];
    assert t1.ids == Release(t.ids, id).0;
    LastReturns(t.ids, maxID, id, ops);
    UnregisterKeepsValid(t, maxID, id);
    RunKeepsValid(t1, maxID, init);
    assert TableRun(t1, ops) == TableStep(TableRun(t1, init), ops[|ops| - 1]);
  }

  /** ... and no longer: once the (q+1)-th Add has succeeded, and as long as nobody stops the id, the stale id names
      a watcher registered by that later Add, which a repeated Stop would remove. */
  lemma {:induction false} StaleStopHitsAnother<C>(t: Table<C>, maxID: nat, id: int, ops: seq<TableOp<C>>)
    requires ValidTable(t, maxID) && id in t.watchers
    requires forall i :: 0 <= i < |ops| ==> ops[i] != Del(id)
    requires AddsIn(Unregister(t, id), ops) > |t.ids.avail|
    ensures var s := TableRun(Unregister(t, id), ops);
            && id in s.watchers
            && Add(s.watchers[id]) in ops
            && id !in Unregister(s, id).watchers
  {
    var t1 := Unregister(t, id);
    var init := ops[..|ops| - 1];
    if AddsIn(t1, init) > |t.ids.avail| {
      StaleStopHitsAnother(t, maxID, id, init);
      UnregisterKeepsValid(t, maxID, id);
      RunKeepsValid(t1, maxID, init);
      StepKeepsOthers(TableRun(t1, init), maxID, ops[|ops| - 1], id);
    } else {
      AddReuses(t, maxID, id, ops);
      assert ops[|ops| - 1] in ops;
    }
  }

  /** The exact condition: after a Stop with q ids free, and a run in which nobody stops that id, a repeated Stop
      changes the table if and only if more than q Adds have succeeded. */
  lemma StaleStopIff<C>(t: Table<C>, maxID: nat, id: int, ops: seq<TableOp<C>>)
    requires ValidTable(t, maxID) && id in t.watchers
    requires forall i :: 0 <= i < |ops| ==> ops[i] != Del(id)
    ensures var s := TableRun(Unregister(t, id), ops);
            Unregister(s, id) != s <==> AddsIn(Unregister(t, id), ops) > |t.ids.avail|
  {
    if AddsIn(Unregister(t, id), ops) > |t.ids.avail| {
      StaleStopHitsAnother(t, maxID, id, ops);
    } else {
      StaleStopHarmless(t, maxID, id, ops);
    }
  }

  lemma RunThen<C>(t: Table<C>, ops: seq<TableOp<C>>, op: TableOp<C>)
    ensures TableRun(t, ops + [op]) == TableStep(TableRun(t, ops), op)
  {
    assert (ops + [op])[..|ops|] == ops;
  }

  /** Two ids; "a" is registered and stopped while one id is free; "b" gets that one. */
  lemma StoppedAndReplaced()
    ensures TableRun(Table(Alloc([0, 1], {}), map[]), [Add("a"), Del(0), Add("b")])
         == Table(Alloc([0], {1}), map[1 := "b"])
  {
    var t := Table(Alloc([0, 1], {}), map[]);
    assert TableRun(t, []) == t;
    RunThen(t, [], Add("a"));
    assert [] + [Add("a")] == [Add("a")];
    assert TableRun(t, [Add("a")]) == Table(Alloc([1], {0}), map[0 := "a"]);
    RunThen(t, [Add("a")], Del(0));
    assert [Add("a")] + [Del(0)] == [Add("a"), Del(0)];
    assert TableRun(t, [Add("a"), Del(0)]) == Table(Alloc([1, 0], {}), map[]);
    RunThen(t, [Add("a"), Del(0)], Add("b"));
    assert [Add("a"), Del(0)] + [Add("b")] == [Add("a"), Del(0), Add("b")];
  }

  /** ... After one more Add, one more than ids were free, stopping "a" again removes "c". */
  lemma StaleStopRemovesC()
    ensures var t := Table(Alloc([0, 1], {}), map[]);
            var ops := [Add("a"), Del(0), Add("b")] + [Add("c")];
            && ValidTable(t, 1)
            && TableRun(t, ops).watchers == map[1 := "b", 0 := "c"]
            && TableRun(t, ops + [Del(0)]).watchers == map[1 := "b"]
  {
    var t := Table(Alloc([0, 1], {}), map[]);
    assert 0 in t.ids.avail && t.ids.avail[1] == 1;
    var ops := [Add("a"), Del(0), Add("b")];
    StoppedAndReplaced();
    RunThen(t, ops, Add("c"));
    RunThen(t, ops + [Add("c")], Del(0));
  }
}

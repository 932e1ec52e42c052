/** Each way in which targets, store and REST-layer streams come apart, as a concrete run from the start. */
module ConfigLimits {
  import opened Events
  import IdAllocator
  import opened WatchTable
  import Store = StoreSpec
  import opened ConfigKeys
  import opened ConfigSpec
  import opened ConfigRuns

  /** Two targets, one free watcher id in each layer. */
  function Start(): Rest {
    Rest(Store.Store(map[], Table(IdAllocator.Alloc([0], {}), map[])),
         map[Key("site", "a") := map[], Key("site", "b") := map[]],
         Table(IdAllocator.Alloc([0], {}), map[]))
  }

  function Labels(target: string): map<string, string> {
    map[TARGET_NAME_KEY := target, TARGET_NAMESPACE_KEY := "site"]
  }

  function Config(target: string, priority: int): Object {
    Object(true, "default", "cfg", Labels(target), "uid", priority, [("/interface", "up")])
  }

  function CreateCfg(target: string, priority: int): Request {
    CreateReq(Some("default"), Config(target, priority), "uid", true)
  }

  function UpdateCfg(target: string, priority: int): Request {
    UpdateReq(Some("default"), "cfg", Ok(Config(target, priority)), false, true)
  }

  lemma StartIsInitial()
    ensures Initial(Start(), 0)
  {
    assert 0 in Start().table.ids.avail;
  }

  lemma LabelsName(target: string)
    requires target != ""
    ensures GetTargetKey(Labels(target)) == Ok(Key("site", target))
  {
    assert TARGET_NAME_KEY[6] != TARGET_NAMESPACE_KEY[6] || |TARGET_NAME_KEY| != |TARGET_NAMESPACE_KEY|;
  }

  lemma TwoSteps(s: Rest, a: Request, b: Request)
    requires WellFormed(s, a) && WellFormed(Step(s, true, a).0, b)
    ensures LegalRun(s, true, [a, b])
    ensures Run(s, true, [a, b]) == Step(Step(s, true, a).0, true, b).0
  {
    var mid := Step(s, true, a).0;
    assert [a, b][1..] == [b] && [b][1..] == [];
    assert LegalRun(Step(mid, true, b).0, true, []);
    assert Run(mid, true, [b]) == Run(Step(mid, true, b).0, true, []);
  }

  lemma AfterCreate() returns (s: Rest)
    ensures WellFormed(Start(), CreateCfg("a", 1)) && s == Step(Start(), true, CreateCfg("a", 1)).0
    ensures s.store.db == map[Key("default", "cfg") := Config("a", 1)]
    ensures s.targets == Start().targets[Key("site", "a") := map[Key("default", "cfg") := Config("a", 1)]]
  {
    LabelsName("a");
    s := Step(Start(), true, CreateCfg("a", 1)).0;
  }

  /** A Create of a stored key with other contents: the target holds the refused config. */
  lemma DuplicateCreateStrays()
    ensures Initial(Start(), 0) && LegalRun(Start(), true, [CreateCfg("a", 1), CreateCfg("a", 2)])
    ensures !Mirrored(Run(Start(), true, [CreateCfg("a", 1), CreateCfg("a", 2)]))
  {
    StartIsInitial();
    LabelsName("a");
    var s := AfterCreate();
    TwoSteps(Start(), CreateCfg("a", 1), CreateCfg("a", 2));
    var s' := Step(s, true, CreateCfg("a", 2)).0;
    var t, k := Key("site", "a"), Key("default", "cfg");
    assert Lookup(s'.targets[t], k) == Some(Config("a", 2)) != Owned(s', t, k);
  }

  /** An Update that moves a config from target a to target b: target a keeps its intent. */
  lemma LabelMoveStrays()
    ensures Initial(Start(), 0) && LegalRun(Start(), true, [CreateCfg("a", 1), UpdateCfg("b", 1)])
    ensures !Mirrored(Run(Start(), true, [CreateCfg("a", 1), UpdateCfg("b", 1)]))
  {
    StartIsInitial();
    LabelsName("a");
    LabelsName("b");
    var s := AfterCreate();
    TwoSteps(Start(), CreateCfg("a", 1), UpdateCfg("b", 1));
    var s' := Step(s, true, UpdateCfg("b", 1)).0;
    var t, k := Key("site", "a"), Key("default", "cfg");
    assert Lookup(s'.targets[t], k) == Some(Config("a", 1));
    assert Owned(s', t, k) == None;
  }

  function WatchAll(): Request { WatchReq(Some("default"), []) }

  lemma AfterWatchAndCreate() returns (s: Rest)
    ensures WellFormed(Start(), WatchAll()) && WellFormed(Step(Start(), true, WatchAll()).0, CreateCfg("a", 1))
    ensures s == Step(Step(Start(), true, WatchAll()).0, true, CreateCfg("a", 1)).0
    ensures Key("default", "cfg") in s.store.db && s.store.db[Key("default", "cfg")] == Config("a", 1)
    ensures s.targets.Keys == Start().targets.Keys
    ensures s.table.watchers == map[0 := [] + [Event(Added, Key("default", "cfg"), Config("a", 1))]]
  {
    LabelsName("a");
    var w := Step(Start(), true, WatchAll()).0;
    assert w.table.watchers == map[0 := []];
    s := Step(w, true, CreateCfg("a", 1)).0;
  }

  lemma AfterUpdate(s: Rest, before: Store.Stream<Object>) returns (s': Rest)
    requires s.table.watchers == map[0 := before] && s.targets.Keys == Start().targets.Keys
    requires Key("default", "cfg") in s.store.db && s.store.db[Key("default", "cfg")] == Config("a", 1)
    ensures WellFormed(s, UpdateCfg("a", 2)) && s' == Step(s, true, UpdateCfg("a", 2)).0
    ensures s'.table.watchers == map[0 := before + [Event(Added, Key("default", "cfg"), Config("a", 2))]]
  {
    LabelsName("a");
    s' := Step(s, true, UpdateCfg("a", 2)).0;
  }

  /** A watched Update: the watcher is told Added about a config it has been told Added about before. */
  lemma WatchedUpdateMisleads()
    ensures var reqs := [WatchAll(), CreateCfg("a", 1), UpdateCfg("a", 2)];
            Initial(Start(), 0) && LegalRun(Start(), true, reqs) && !RestTruthful(Run(Start(), true, reqs))
  {
    StartIsInitial();
    var reqs := [WatchAll(), CreateCfg("a", 1), UpdateCfg("a", 2)];
    assert reqs[1..] == [CreateCfg("a", 1), UpdateCfg("a", 2)];
    TwoSteps(Step(Start(), true, WatchAll()).0, CreateCfg("a", 1), UpdateCfg("a", 2));
    var s := AfterWatchAndCreate();
    var k := Key("default", "cfg");
    var e, e' := Event(Added, k, Config("a", 1)), Event(Added, k, Config("a", 2));
    var s' := AfterUpdate(s, [] + [e]);
    ReplayAppend([], e);
    TruthfulAppend([] + [e], e');
    assert !Truthful(s'.table.watchers[0]);
  }
}

/** The rules for concurrent requests are exactly right: targets and store agree in all runs that obey a set of rules
    if and only if the set has all three, and every stored config keeps an intent if and only if it has the first. */
module ConfigInterleavingLimits {
  import opened Events
  import opened ConfigSpec
  import Seq = ConfigRuns
  import opened ConfigLimits
  import opened ConfigInterleaving

  const CFG := Key("default", "cfg")
  const TARGET_A := Key("site", "a")
  const TARGET_B := Key("site", "b")

  /** Two idle goroutines, two targets. */
  function Begun(): State { State(true, Start(), [Idle, Idle]) }

  ghost predicate Leads(acts: seq<Action>, s: State, rules: set<Rule>) {
    CanRun(Begun(), acts) && After(Begun(), acts) == s && RunObeys(Begun(), acts, rules)
  }

  lemma Go(acts: seq<Action>, s: State, a: Action, rules: set<Rule>) returns (longer: seq<Action>, s': State)
    requires Leads(acts, s, rules) && Enabled(s, a) && forall rule :: rule in rules ==> Obeys(s, a, rule)
    ensures s' == Next(s, a) && Leads(longer, s', rules)
  {
    s', longer := Next(s, a), acts + [a];
    assert longer[..|longer| - 1] == acts;
  }

  function Holding(db: map<Key, Object>, a: Intents, b: Intents, threads: seq<Phase>): State {
    Begun().(rest := WithDb(Start().(targets := map[TARGET_A := a, TARGET_B := b]), db), threads := threads)
  }

  function Working(kind: Kind, target: Key, o: Object): Phase { Ready(kind, CFG, target, o) }

  lemma InstructA(a: Intents, b: Intents, p: Phase)
    requires !p.Idle? && p.target == TARGET_A && ObjectKey(p.obj) == CFG
    ensures Instructed(map[TARGET_A := a, TARGET_B := b], p) ==
            map[TARGET_A := if p.kind.Deleting? then a - {CFG} else a[CFG := p.obj], TARGET_B := b]
  {
    assert TARGET_A != TARGET_B by { assert TARGET_A.name[0] != TARGET_B.name[0]; }
  }

  /** The call of target a for cfg. */
  lemma TellA(acts: seq<Action>, s: State, t: nat, a: Intents, b: Intents, rules: set<Rule>)
    returns (longer: seq<Action>, s': State)
    requires Leads(acts, s, rules) && s == Holding(s.rest.store.db, a, b, s.threads) && t < |s.threads|
    requires var p := s.threads[t]; p.Ready? && p == Working(p.kind, TARGET_A, p.obj) && ObjectKey(p.obj) == CFG
    ensures var p := s.threads[t];
            && Leads(longer, s', rules)
            && s' == Holding(s.rest.store.db, if p.kind.Deleting? then a - {CFG} else a[CFG := p.obj], b,
                             s.threads[t := Told(p.kind, CFG, TARGET_A, p.obj)])
  {
    InstructA(a, b, s.threads[t]);
    longer, s' := Go(acts, s, Tell(t), rules);
  }

  /** The rest of a request, uninterrupted. */
  lemma Finish(acts: seq<Action>, s: State, t: nat, rules: set<Rule>) returns (longer: seq<Action>, s': State)
    requires Leads(acts, s, rules) && t < |s.threads| && s.threads[t].Told?
    requires s.threads[t].kind.Creating? ==> s.threads[t].key !in s.rest.store.db
    requires s.threads[t].kind.Deleting? ==> s.threads[t].key in s.rest.store.db
    ensures Leads(longer, s', rules)
    ensures s' == s.(threads := s.threads[t := Idle],
                     rest := WithDb(s.rest, Written(s.rest.store.db, s.threads[t])))
  {
    longer, s' := Go(acts, s, Check(t), rules);
    longer, s' := Go(longer, s', Write(t), rules);
  }

  /** Goroutine 0 creates cfg on target a. */
  lemma Created(rules: set<Rule>) returns (acts: seq<Action>, s: State)
    ensures Leads(acts, s, rules)
    ensures s == Holding(map[CFG := Config("a", 1)], map[CFG := Config("a", 1)], map[], [Idle, Idle])
  {
    LabelsName("a");
    acts, s := [], Begun();
    acts, s := Go(acts, s, Begin(0, CreateCfg("a", 1)), rules);
    assert s.threads[0] == Working(Creating, TARGET_A, Config("a", 1));
    acts, s := TellA(acts, s, 0, map[], map[], rules);
    acts, s := Finish(acts, s, 0, rules);
  }

  function DeleteCfg(): Seq.Request { Seq.DeleteReq(Some("default"), "cfg", true) }

  /** Goroutine 0 serves an Update and goroutine 1 another request for the same key; both have looked it up. */
  lemma BothBegin(req: Seq.Request, p: Phase) returns (acts: seq<Action>, s: State)
    requires || (req == UpdateCfg("a", 3) && p == Working(Updating, TARGET_A, Config("a", 3)))
             || (req == DeleteCfg() && p == Working(Deleting, TARGET_A, Config("a", 1)))
    ensures Leads(acts, s, {NoDuplicate, NoMove})
    ensures s == Holding(map[CFG := Config("a", 1)], map[CFG := Config("a", 1)], map[],
                         [Working(Updating, TARGET_A, Config("a", 2)), p])
  {
    var rules := {NoDuplicate, NoMove};
    LabelsName("a");
    acts, s := Created(rules);
    acts, s := Go(acts, s, Begin(0, UpdateCfg("a", 2)), rules);
    assert s.threads[0] == Working(Updating, TARGET_A, Config("a", 2));
    acts, s := Go(acts, s, Begin(1, req), rules);
    assert s.threads[1] == p;
  }

  lemma Rewritten(a: Intents, o: Object)
    requires a.Keys == {CFG}
    ensures a - {CFG} == map[] && a[CFG := o] == map[CFG := o]
  {
  }

  /** ... then 0 calls the target, then 1 does. */
  lemma BothTell(req: Seq.Request, p: Phase) returns (acts: seq<Action>, s: State)
    requires || (req == UpdateCfg("a", 3) && p == Working(Updating, TARGET_A, Config("a", 3)))
             || (req == DeleteCfg() && p == Working(Deleting, TARGET_A, Config("a", 1)))
    ensures Leads(acts, s, {NoDuplicate, NoMove})
    ensures s == Holding(map[CFG := Config("a", 1)],
                         if p.kind.Deleting? then map[] else map[CFG := Config("a", 3)], map[],
                         [Told(Updating, CFG, TARGET_A, Config("a", 2)), Told(p.kind, CFG, TARGET_A, p.obj)])
  {
    var rules := {NoDuplicate, NoMove};
    acts, s := BothBegin(req, p);
    acts, s := TellA(acts, s, 0, map[CFG := Config("a", 1)], map[], rules);
    var a := map[CFG := Config("a", 1)][CFG := Config("a", 2)];
    acts, s := TellA(acts, s, 1, a, map[], rules);
    Rewritten(a, p.obj);
  }

  ghost predicate Quiet(s: State) { forall t :: 0 <= t < |s.threads| ==> s.threads[t].Idle? }

  lemma HoldsOther(r: Rest, told: Object, stored: Object)
    requires TARGET_A in r.targets && Lookup(r.targets[TARGET_A], CFG) == Some(told)
    requires Lookup(r.store.db, CFG) == Some(stored) && told != stored
    ensures !Seq.Mirrored(r)
  {
    assert Seq.Owned(r, TARGET_A, CFG) != Some(told);
  }

  /** Two Updates call the target in one order and write in the other. */
  lemma OverlappingUpdatesStray() returns (acts: seq<Action>, s: State)
    ensures Leads(acts, s, {NoDuplicate, NoMove}) && Quiet(s) && !Seq.Mirrored(s.rest)
  {
    acts, s := BothTell(UpdateCfg("a", 3), Working(Updating, TARGET_A, Config("a", 3)));
    acts, s := Finish(acts, s, 1, {NoDuplicate, NoMove});
    acts, s := Finish(acts, s, 0, {NoDuplicate, NoMove});
    assert Config("a", 2).priority != Config("a", 3).priority;
    HoldsOther(s.rest, Config("a", 3), Config("a", 2));
  }

  /** A Delete overtakes an Update between its call of the target and its write: a config is stored that no target has
      been told of. */
  lemma OverlappingDeleteUnbacks() returns (acts: seq<Action>, s: State)
    ensures Leads(acts, s, {NoDuplicate, NoMove}) && Quiet(s) && !HasIntent(s.rest, CFG)
  {
    LabelsName("a");
    acts, s := BothTell(DeleteCfg(), Working(Deleting, TARGET_A, Config("a", 1)));
    acts, s := Finish(acts, s, 1, {NoDuplicate, NoMove});
    acts, s := Finish(acts, s, 0, {NoDuplicate, NoMove});
    assert s.rest.store.db[CFG] == Config("a", 2) && s.rest.targets[TARGET_A] == map[];
  }

  /** A Create of the stored cfg with other contents has looked everything up. */
  lemma Duplicating() returns (acts: seq<Action>, s: State)
    ensures Leads(acts, s, {OneRequestPerKey, NoMove})
    ensures s == Holding(map[CFG := Config("a", 1)], map[CFG := Config("a", 1)], map[],
                         [Working(Creating, TARGET_A, Config("a", 2)), Idle])
  {
    var rules := {OneRequestPerKey, NoMove};
    LabelsName("a");
    acts, s := Created(rules);
    acts, s := Go(acts, s, Begin(0, CreateCfg("a", 2)), rules);
    assert s.threads[0] == Working(Creating, TARGET_A, Config("a", 2));
  }

  /** ... and is refused after its call of the target. */
  lemma Duplicated() returns (acts: seq<Action>, s: State)
    ensures Leads(acts, s, {OneRequestPerKey, NoMove})
    ensures s == Holding(map[CFG := Config("a", 1)], map[CFG := Config("a", 1)][CFG := Config("a", 2)], map[],
                         [Idle, Idle])
  {
    var rules := {OneRequestPerKey, NoMove};
    acts, s := Duplicating();
    acts, s := TellA(acts, s, 0, map[CFG := Config("a", 1)], map[], rules);
    acts, s := Go(acts, s, Check(0), rules);
  }

  lemma DuplicateStrays() returns (acts: seq<Action>, s: State)
    ensures Leads(acts, s, {OneRequestPerKey, NoMove}) && Quiet(s) && !Seq.Mirrored(s.rest)
  {
    acts, s := Duplicated();
    assert Config("a", 2).priority != Config("a", 1).priority;
    HoldsOther(s.rest, Config("a", 2), Config("a", 1));
  }

  /** An Update that moves cfg from target a to target b has looked everything up. */
  lemma Moving() returns (acts: seq<Action>, s: State)
    ensures Leads(acts, s, {OneRequestPerKey, NoDuplicate})
    ensures s == Holding(map[CFG := Config("a", 1)], map[CFG := Config("a", 1)], map[],
                         [Working(Updating, TARGET_B, Config("b", 1)), Idle])
  {
    var rules := {OneRequestPerKey, NoDuplicate};
    LabelsName("b");
    acts, s := Created(rules);
    acts, s := Go(acts, s, Begin(0, UpdateCfg("b", 1)), rules);
    assert s.threads[0] == Working(Updating, TARGET_B, Config("b", 1));
  }

  lemma Moved() returns (acts: seq<Action>, s: State)
    ensures Leads(acts, s, {OneRequestPerKey, NoDuplicate}) && Quiet(s)
    ensures CFG in s.rest.store.db && s.rest.store.db[CFG] == Config("b", 1)
    ensures TARGET_A in s.rest.targets && s.rest.targets[TARGET_A] == map[CFG := Config("a", 1)]
  {
    acts, s := Moving();
    acts, s := Go(acts, s, Tell(0), {OneRequestPerKey, NoDuplicate});
    acts, s := Finish(acts, s, 0, {OneRequestPerKey, NoDuplicate});
  }

  lemma MoveStrays() returns (acts: seq<Action>, s: State)
    ensures Leads(acts, s, {OneRequestPerKey, NoDuplicate}) && Quiet(s) && !Seq.Mirrored(s.rest)
  {
    acts, s := Moved();
    LabelsName("b");
    assert Seq.Owned(s.rest, TARGET_A, CFG) == None;
    assert Lookup(s.rest.targets[TARGET_A], CFG) == Some(Config("a", 1));
  }

  // ---------- Which rules it takes ----------

  ghost predicate Obeying(s: State, acts: seq<Action>, rules: set<Rule>) {
    Initial(s) && CanRun(s, acts) && RunObeys(s, acts, rules)
  }

  /** In all interleavings that obey the rules, targets and store agree whenever no request is in flight. */
  ghost predicate MirrorsUnder(rules: set<Rule>) {
    forall s, acts :: Obeying(s, acts, rules) && Quiet(After(s, acts)) ==> Seq.Mirrored(After(s, acts).rest)
  }

  /** In all interleavings that obey the rules, every stored config has an intent whenever no request is in flight. */
  ghost predicate BacksUnder(rules: set<Rule>) {
    forall s, acts, k :: Obeying(s, acts, rules) && Quiet(After(s, acts)) ==> HasIntent(After(s, acts).rest, k)
  }

  lemma {:induction false} ObeysFewer(s: State, acts: seq<Action>, rules: set<Rule>, fewer: set<Rule>)
    requires CanRun(s, acts) && RunObeys(s, acts, rules) && fewer <= rules
    ensures RunObeys(s, acts, fewer)
  {
    if acts != [] { ObeysFewer(s, acts[..|acts| - 1], rules, fewer); }
  }

  lemma AllRules(rules: set<Rule>)
    ensures rules <= {OneRequestPerKey, NoDuplicate, NoMove}
  {
    forall rule | rule in rules ensures rule in {OneRequestPerKey, NoDuplicate, NoMove} {
      assert rule == OneRequestPerKey || rule == NoDuplicate || rule == NoMove;
    }
  }

  lemma WitnessObeys(acts: seq<Action>, s: State, rules: set<Rule>, fewer: set<Rule>)
    requires Leads(acts, s, rules) && fewer <= rules
    ensures Obeying(Begun(), acts, fewer)
  {
    StartIsInitial();
    ObeysFewer(Begun(), acts, rules, fewer);
  }

  lemma MirrorsUnderThree(rules: set<Rule>)
    requires {OneRequestPerKey, NoDuplicate, NoMove} <= rules
    ensures MirrorsUnder(rules)
  {
    forall s, acts | Obeying(s, acts, rules) && Quiet(After(s, acts)) ensures Seq.Mirrored(After(s, acts).rest) {
      RunsMirror(s, acts, rules);
      var r := After(s, acts).rest;
      forall t, k | t in r.targets ensures Lookup(r.targets[t], k) == Seq.Owned(r, t, k) {
        assert Free(After(s, acts), k) && KeyMirrored(r, k);
      }
    }
  }

  /** Which rules mirroring takes: all three. */
  lemma MirrorsUnderIff(rules: set<Rule>)
    ensures MirrorsUnder(rules) <==> {OneRequestPerKey, NoDuplicate, NoMove} <= rules
  {
    AllRules(rules);
    if {OneRequestPerKey, NoDuplicate, NoMove} <= rules {
      MirrorsUnderThree(rules);
    } else {
      var acts, s;
      if OneRequestPerKey !in rules {
        acts, s := OverlappingUpdatesStray();
        WitnessObeys(acts, s, {NoDuplicate, NoMove}, rules);
      } else if NoDuplicate !in rules {
        acts, s := DuplicateStrays();
        WitnessObeys(acts, s, {OneRequestPerKey, NoMove}, rules);
      } else {
        acts, s := MoveStrays();
        WitnessObeys(acts, s, {OneRequestPerKey, NoDuplicate}, rules);
      }
    }
  }

  /** Which rules backing takes: one request per key at a time. */
  lemma BacksUnderIff(rules: set<Rule>)
    ensures BacksUnder(rules) <==> OneRequestPerKey in rules
  {
    if OneRequestPerKey in rules {
      forall s, acts, k | Obeying(s, acts, rules) && Quiet(After(s, acts)) ensures HasIntent(After(s, acts).rest, k) {
        RunsBack(s, acts, rules);
      }
    } else {
      AllRules(rules);
      var acts, s := OverlappingDeleteUnbacks();
      WitnessObeys(acts, s, {NoDuplicate, NoMove}, rules);
      assert !HasIntent(After(Begun(), acts).rest, CFG);
    }
  }
}

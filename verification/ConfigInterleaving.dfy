/** The Config REST layer with any number of requests at once. One action is one of the steps between which other
    requests can come: the look-ups up to the call of the target, the call itself, the store's own look-up, and the
    store's write. Watchers are left out; the events are the business of Interleaving. */
module ConfigInterleaving {
  import opened Events
  import opened ConfigKeys
  import opened ConfigSpec
  import Seq = ConfigRuns

  type Request = Seq.Request

  datatype Kind = Creating | Updating | Deleting

  /** Where a goroutine stands inside the request it serves. */
  datatype Phase =
    | Idle
    | Ready(kind: Kind, key: Key, target: Key, obj: Object)    // about to call the target
    | Told(kind: Kind, key: Key, target: Key, obj: Object)     // about to enter the store
    | Checked(kind: Kind, key: Key, target: Key, obj: Object)  // the store has looked the key up, and will write

  datatype State = State(isNamespaced: bool, rest: Rest, threads: seq<Phase>)

  /** A request that a target is going to refuse has `ok` false; it has no effect. */
  datatype Action = Begin(t: nat, req: Request) | Tell(t: nat) | Check(t: nat) | Write(t: nat)

  /** What a request does first: it looks everything up and gets ready to call the target, or it fails. */
  function Entry(s: State, req: Request): Phase {
    if Seq.SetsIntent(s.rest, s.isNamespaced, req) then
      Ready(Creating, Seq.RequestKey(req), TargetOf(req.obj.labels), req.obj.(uid := req.uid))
    else if Seq.Updates(s.rest, s.isNamespaced, req) then
      var o := req.updated.value;
      Ready(Updating, Seq.RequestKey(req), TargetOf(o.labels), o)
    else if Seq.Deletes(s.rest, s.isNamespaced, req) then
      var o := s.rest.store.db[Seq.RequestKey(req)];
      Ready(Deleting, Seq.RequestKey(req), TargetOf(o.labels), o)
    else Idle
  }

  ghost predicate Enabled(s: State, a: Action) {
    && a.t < |s.threads|
    && match a
       case Begin(t, req) => s.threads[t].Idle? && req.Writes() && Seq.WellFormed(s.rest, req)
       case Tell(t) => s.threads[t].Ready? && s.threads[t].target in s.rest.targets
       case Check(t) => s.threads[t].Told?
       case Write(t) => s.threads[t].Checked?
  }

  /** The store after the write of p. */
  function Written(db: map<Key, Object>, p: Phase): map<Key, Object>
    requires !p.Idle?
  {
    if p.kind.Deleting? then db - {p.key} else db[p.key := p.obj]
  }

  function Instructed(targets: map<Key, Intents>, p: Phase): map<Key, Intents>
    requires !p.Idle? && p.target in targets
  {
    if p.kind.Deleting? then DeleteIntent(targets, p.target, p.obj) else SetIntent(targets, p.target, p.obj)
  }

  function WithDb(r: Rest, db: map<Key, Object>): Rest { r.(store := r.store.(db := db)) }

  ghost function Next(s: State, a: Action): State
    requires Enabled(s, a)
  {
    var p := s.threads[a.t];
    match a
    case Begin(t, req) => s.(threads := s.threads[t := Entry(s, req)])
    case Tell(t) =>
      s.(threads := s.threads[t := Told(p.kind, p.key, p.target, p.obj)],
         rest := s.rest.(targets := Instructed(s.rest.targets, p)))
    case Check(t) =>
      // Create refuses a stored key; Delete is content with an absent one.
      var over := if p.kind.Creating? then p.key in s.rest.store.db
                  else p.kind.Deleting? && p.key !in s.rest.store.db;
      s.(threads := s.threads[t := if over then Idle else Checked(p.kind, p.key, p.target, p.obj)])
    case Write(t) =>
      s.(threads := s.threads[t := Idle], rest := WithDb(s.rest, Written(s.rest.store.db, p)))
  }

  ghost predicate CanRun(s: State, acts: seq<Action>)
    decreases |acts|, 0
  {
    acts == [] || (CanRun(s, acts[..|acts| - 1]) && Enabled(After(s, acts[..|acts| - 1]), acts[|acts| - 1]))
  }

  ghost function After(s: State, acts: seq<Action>): State
    requires CanRun(s, acts)
    decreases |acts|, 1
  {
    if acts == [] then s else Next(After(s, acts[..|acts| - 1]), acts[|acts| - 1])
  }

  // ---------- One request at a time ----------

  /** Every action is goroutine t's, and t is inside a request all the time between the first and the last. */
  ghost predicate Alone(s: State, t: nat, acts: seq<Action>)
    requires CanRun(s, acts)
  {
    && acts != [] && acts[|acts| - 1].t == t
    && (|acts| > 1 ==>
          && Alone(s, t, acts[..|acts| - 1])
          && var mid := After(s, acts[..|acts| - 1]); t < |mid.threads| && !mid.threads[t].Idle?)
  }

  /** How far t has come with the request it began in s0. */
  ghost predicate During(s0: State, s: State, t: nat, req: Request)
    requires req.Writes() && Seq.WellFormed(s0.rest, req)
  {
    && t < |s0.threads| == |s.threads| && s.threads == s0.threads[t := s.threads[t]]
    && s.isNamespaced == s0.isNamespaced
    && var p := s.threads[t];
       var whole := Seq.Step(s0.rest, s0.isNamespaced, req).0;
       match p
       case Idle => s.rest.targets == whole.targets && s.rest.store.db == whole.store.db
       case Ready(_, _, _, _) => p == Entry(s0, req) && s.rest == s0.rest
       case _ =>
         && Entry(s0, req) == Ready(p.kind, p.key, p.target, p.obj) && p.target in s0.rest.targets
         && s.rest == s0.rest.(targets := Instructed(s0.rest.targets, p))
         && (p.Checked? ==> p.kind.Creating? ==> p.key !in s0.rest.store.db)
  }

  lemma DuringStep(s0: State, s: State, t: nat, req: Request, a: Action)
    requires req.Writes() && Seq.WellFormed(s0.rest, req) && During(s0, s, t, req)
    requires Enabled(s, a) && a.t == t && !s.threads[t].Idle?
    ensures During(s0, Next(s, a), t, req)
  {
  }

  /** Every uninterrupted run of a request, from its first action to its last, has on targets and store the effect of
      the sequential protocol. */
  lemma {:induction false} RequestSolo(s: State, t: nat, req: Request, acts: seq<Action>)
    requires CanRun(s, acts) && Alone(s, t, acts) && acts[0] == Begin(t, req)
    requires req.Writes() && Seq.WellFormed(s.rest, req)
    ensures During(s, After(s, acts), t, req)
    ensures After(s, acts).threads[t].Idle? ==>
              var whole := Seq.Step(s.rest, s.isNamespaced, req).0;
              After(s, acts).rest.targets == whole.targets && After(s, acts).rest.store.db == whole.store.db
  {
    var init := acts[..|acts| - 1];
    if init == [] {
      assert After(s, init) == s;
      Seq.SucceedsIff(s.rest, s.isNamespaced, req);
    } else {
      RequestSolo(s, t, req, init);
      DuringStep(s, After(s, init), t, req, acts[|acts| - 1]);
    }
  }

  // ---------- The rules ----------

  ghost predicate Free(s: State, k: Key) {
    forall u :: 0 <= u < |s.threads| && !s.threads[u].Idle? ==> s.threads[u].key != k
  }

  /** What the callers have to arrange: one request per key at a time; no Create of a stored key with other contents;
      no Update that changes the target labels. */
  datatype Rule = OneRequestPerKey | NoDuplicate | NoMove

  ghost predicate Obeys(s: State, a: Action, rule: Rule)
    requires Enabled(s, a)
  {
    match rule
    case OneRequestPerKey => a.Begin? ==> Free(s, Seq.RequestKey(a.req))
    case NoDuplicate => a.Begin? && a.req.CreateReq? ==> !Seq.LeavesStray(s.rest, s.isNamespaced, a.req)
    case NoMove => a.Begin? && a.req.UpdateReq? ==> !Seq.LeavesStray(s.rest, s.isNamespaced, a.req)
  }

  ghost predicate RunObeys(s: State, acts: seq<Action>, rules: set<Rule>)
    requires CanRun(s, acts)
  {
    acts == []
    || (RunObeys(s, acts[..|acts| - 1], rules)
        && forall rule :: rule in rules ==> Obeys(After(s, acts[..|acts| - 1]), acts[|acts| - 1], rule))
  }

  /** Nothing stored, no intents, no request in flight. */
  ghost predicate Initial(s: State) {
    && s.rest.store.db == map[] && (forall t :: t in s.rest.targets ==> s.rest.targets[t] == map[])
    && forall t :: 0 <= t < |s.threads| ==> s.threads[t].Idle?
  }

  // ---------- Requests in flight ----------

  /** A config that the protocol can handle and that labels name `target`. */
  ghost predicate Sound(r: Rest, k: Key, o: Object, target: Key) {
    && o.isConfig && o.blobs != [] && ObjectKey(o) == k
    && Names(o.labels, target) && target in r.targets
  }

  ghost predicate StoredSound(r: Rest) {
    forall k :: k in r.store.db ==>
      CarriesTarget(r.store.db[k].labels) && Sound(r, k, r.store.db[k], TargetOf(r.store.db[k].labels))
  }

  /** What a request remembers is still so: the object it deletes is the one stored, the one it updates is stored. */
  ghost predicate Current(r: Rest, p: Phase) {
    !p.Idle? ==>
      && Sound(r, p.key, p.obj, p.target)
      && (p.kind.Updating? ==> p.key in r.store.db)
      && (p.kind.Deleting? ==> Lookup(r.store.db, p.key) == Some(p.obj))
      && (p.kind.Creating? && p.Checked? ==> p.key !in r.store.db)
  }

  ghost predicate OnePerKey(s: State) {
    forall t, u :: 0 <= t < u < |s.threads| && !s.threads[t].Idle? && !s.threads[u].Idle? ==>
      s.threads[t].key != s.threads[u].key
  }

  ghost predicate Orderly(s: State) {
    && OnePerKey(s) && StoredSound(s.rest)
    && forall t :: 0 <= t < |s.threads| ==> Current(s.rest, s.threads[t])
  }

  lemma EntryIsCurrent(s: State, req: Request)
    requires StoredSound(s.rest) && req.Writes() && Seq.WellFormed(s.rest, req)
    ensures Current(s.rest, Entry(s, req)) && (Entry(s, req).Idle? || Entry(s, req).key == Seq.RequestKey(req))
  {
  }

  /** An action touches targets and store at the key of its own request only. */
  lemma OthersUntouched(s: State, a: Action, k: Key)
    requires Orderly(s) && Enabled(s, a) && (a.Begin? || s.threads[a.t].key != k)
    ensures Lookup(Next(s, a).rest.store.db, k) == Lookup(s.rest.store.db, k)
    ensures Next(s, a).rest.targets.Keys == s.rest.targets.Keys
    ensures forall t :: t in s.rest.targets ==>
              Lookup(Next(s, a).rest.targets[t], k) == Lookup(s.rest.targets[t], k)
  {
  }

  lemma StoredStaysSound(s: State, a: Action)
    requires Orderly(s) && Enabled(s, a)
    ensures StoredSound(Next(s, a).rest)
  {
    assert Current(s.rest, s.threads[a.t]);
  }

  lemma OrderlyStep(s: State, a: Action)
    requires Orderly(s) && Enabled(s, a) && Obeys(s, a, OneRequestPerKey)
    ensures Orderly(Next(s, a))
  {
    var s' := Next(s, a);
    StoredStaysSound(s, a);
    if a.Begin? { EntryIsCurrent(s, a.req); }
    forall u | 0 <= u < |s.threads| ensures Current(s'.rest, s'.threads[u]) {
      assert Current(s.rest, s.threads[u]) && Current(s.rest, s.threads[a.t]);
      if u != a.t && !s.threads[u].Idle? {
        OthersUntouched(s, a, s.threads[u].key);
      }
    }
  }

  // ---------- Mirroring ----------

  /** The targets hold at k what the store holds. */
  ghost predicate KeyMirrored(r: Rest, k: Key) {
    forall t :: t in r.targets ==> Lookup(r.targets[t], k) == Seq.Owned(r, t, k)
  }

  /** What the rules on Create and Update ask for. */
  ghost predicate Fitting(r: Rest, p: Phase)
    requires !p.Idle?
  {
    p.key in r.store.db ==>
      match p.kind
      case Creating => r.store.db[p.key] == p.obj
      case _ => Names(r.store.db[p.key].labels, p.target)
  }

  /** Before its call of the target a request leaves its key mirrored; after it, the targets are ahead of the store. */
  ghost predicate PhaseMirrored(r: Rest, p: Phase) {
    match p
    case Idle => true
    case Ready(_, _, _, _) => KeyMirrored(r, p.key) && Fitting(r, p)
    case _ => KeyMirrored(WithDb(r, Written(r.store.db, p)), p.key) && Fitting(r, p)
  }

  ghost predicate Mirroring(s: State) {
    && (forall k :: Free(s, k) ==> KeyMirrored(s.rest, k))
    && (forall t :: 0 <= t < |s.threads| ==> PhaseMirrored(s.rest, s.threads[t]))
  }

  lemma AgreeAt(r: Rest, r': Rest, k: Key)
    requires Lookup(r'.store.db, k) == Lookup(r.store.db, k) && r'.targets.Keys == r.targets.Keys
    requires forall t :: t in r.targets ==> Lookup(r'.targets[t], k) == Lookup(r.targets[t], k)
    ensures KeyMirrored(r', k) <==> KeyMirrored(r, k)
  {
    assert forall t :: Seq.Owned(r', t, k) == Seq.Owned(r, t, k);
  }

  lemma OtherPhaseKept(s: State, a: Action, u: nat)
    requires Orderly(s) && Enabled(s, a) && u < |s.threads| && u != a.t && PhaseMirrored(s.rest, s.threads[u])
    ensures PhaseMirrored(Next(s, a).rest, Next(s, a).threads[u])
  {
    var p, r, r' := s.threads[u], s.rest, Next(s, a).rest;
    if !p.Idle? {
      OthersUntouched(s, a, p.key);
      AgreeAt(r, r', p.key);
      AgreeAt(WithDb(r, Written(r.store.db, p)), WithDb(r', Written(r'.store.db, p)), p.key);
    }
  }

  lemma TellMirrors(r: Rest, p: Phase)
    requires p.Ready? && Current(r, p) && PhaseMirrored(r, p)
    ensures PhaseMirrored(r.(targets := Instructed(r.targets, p)), Told(p.kind, p.key, p.target, p.obj))
  {
    var r' := WithDb(r.(targets := Instructed(r.targets, p)), Written(r.store.db, p));
    forall t | t in r'.targets ensures Lookup(r'.targets[t], p.key) == Seq.Owned(r', t, p.key) {
      assert Lookup(r.targets[t], p.key) == Seq.Owned(r, t, p.key);
    }
  }

  /** The key of the moving request, after its action. */
  lemma OwnKeyKept(s: State, a: Action)
    requires Orderly(s) && Mirroring(s) && Enabled(s, a) && !a.Begin?
    ensures PhaseMirrored(Next(s, a).rest, Next(s, a).threads[a.t])
    ensures Next(s, a).threads[a.t].Idle? ==> KeyMirrored(Next(s, a).rest, s.threads[a.t].key)
  {
    var p, r := s.threads[a.t], s.rest;
    assert Current(r, p) && PhaseMirrored(r, p);
    if a.Tell? {
      TellMirrors(r, p);
    } else if a.Check? && Next(s, a).threads[a.t].Idle? {
      assert WithDb(r, Written(r.store.db, p)).store.db == r.store.db;
    }
  }

  lemma BeginMirrors(s: State, t: nat, req: Request)
    requires Orderly(s) && Mirroring(s) && Enabled(s, Begin(t, req))
    requires forall rule :: Obeys(s, Begin(t, req), rule)
    ensures PhaseMirrored(s.rest, Entry(s, req))
  {
    var p := Entry(s, req);
    if !p.Idle? {
      EntryIsCurrent(s, req);
      assert Obeys(s, Begin(t, req), OneRequestPerKey);
      assert Obeys(s, Begin(t, req), NoDuplicate) && Obeys(s, Begin(t, req), NoMove);
      if p.kind.Updating? {
        TargetIsLabels(p.obj.labels, s.rest.store.db[p.key].labels);
      }
    }
  }

  lemma FreeKept(s: State, a: Action, k: Key)
    requires Orderly(s) && Mirroring(s) && Enabled(s, a) && Free(Next(s, a), k)
    ensures KeyMirrored(Next(s, a).rest, k)
  {
    var p := s.threads[a.t];
    if !a.Begin? && p.key == k {
      assert Next(s, a).threads[a.t].Idle?;
      OwnKeyKept(s, a);
    } else {
      forall u | 0 <= u < |s.threads| && !s.threads[u].Idle? ensures s.threads[u].key != k {
        if u != a.t { assert Next(s, a).threads[u] == s.threads[u]; }
      }
      OthersUntouched(s, a, k);
      AgreeAt(s.rest, Next(s, a).rest, k);
    }
  }

  lemma MirroringStep(s: State, a: Action)
    requires Orderly(s) && Mirroring(s) && Enabled(s, a) && forall rule :: Obeys(s, a, rule)
    ensures Orderly(Next(s, a)) && Mirroring(Next(s, a))
  {
    var s' := Next(s, a);
    assert Obeys(s, a, OneRequestPerKey);
    OrderlyStep(s, a);
    forall k | Free(s', k) ensures KeyMirrored(s'.rest, k) { FreeKept(s, a, k); }
    forall u | 0 <= u < |s'.threads| ensures PhaseMirrored(s'.rest, s'.threads[u]) {
      if u != a.t {
        OtherPhaseKept(s, a, u);
      } else if a.Begin? {
        BeginMirrors(s, a.t, a.req);
      } else {
        OwnKeyKept(s, a);
      }
    }
  }

  /** In every interleaving that obeys the rules, with any pattern of target failures: each target holds, at every key
      that no request is in flight for, exactly what the store holds. */
  lemma {:induction false} RunsMirror(s: State, acts: seq<Action>, rules: set<Rule>)
    requires Initial(s) && CanRun(s, acts) && RunObeys(s, acts, rules)
    requires {OneRequestPerKey, NoDuplicate, NoMove} <= rules
    ensures Orderly(After(s, acts)) && Mirroring(After(s, acts))
  {
    if acts != [] {
      var init, a := acts[..|acts| - 1], acts[|acts| - 1];
      RunsMirror(s, init, rules);
      forall rule ensures Obeys(After(s, init), a, rule) {
        assert rule == OneRequestPerKey || rule == NoDuplicate || rule == NoMove;
        assert rule in rules;
      }
      MirroringStep(After(s, init), a);
    }
  }

  // ---------- Every stored config has an intent ----------

  /** A Delete past its call of the target is about to remove its config. */
  predicate Doomed(p: Phase) { (p.Told? || p.Checked?) && p.kind.Deleting? }

  ghost predicate HasIntent(r: Rest, k: Key) {
    k in r.store.db && CarriesTarget(r.store.db[k].labels) ==>
      var t := TargetOf(r.store.db[k].labels);
      t in r.targets && k in r.targets[t]
  }

  ghost predicate Backing(s: State) {
    && (forall k :: HasIntent(s.rest, k)
                    || exists t :: 0 <= t < |s.threads| && Doomed(s.threads[t]) && s.threads[t].key == k)
    && (forall t :: 0 <= t < |s.threads| && (s.threads[t].Told? || s.threads[t].Checked?) ==>
          HasIntent(WithDb(s.rest, Written(s.rest.store.db, s.threads[t])), s.threads[t].key))
  }

  lemma IntentAt(r: Rest, r': Rest, k: Key)
    requires Lookup(r'.store.db, k) == Lookup(r.store.db, k) && r'.targets.Keys == r.targets.Keys
    requires forall t :: t in r.targets ==> Lookup(r'.targets[t], k) == Lookup(r.targets[t], k)
    ensures HasIntent(r', k) <==> HasIntent(r, k)
  {
    if k in r.store.db && CarriesTarget(r.store.db[k].labels) {
      var t := TargetOf(r.store.db[k].labels);
      if t in r.targets { assert Lookup(r'.targets[t], k) == Lookup(r.targets[t], k); }
    }
  }

  /** Nobody else dooms the key of a request. */
  lemma OwnIntent(s: State, t: nat)
    requires Orderly(s) && Backing(s) && t < |s.threads| && !s.threads[t].Idle? && !Doomed(s.threads[t])
    ensures HasIntent(s.rest, s.threads[t].key)
  {
    assert forall u :: 0 <= u < |s.threads| && Doomed(s.threads[u]) && s.threads[u].key == s.threads[t].key ==> u == t;
  }

  lemma OwnIntentKept(s: State, a: Action)
    requires Orderly(s) && Backing(s) && Enabled(s, a) && !a.Begin?
    ensures HasIntent(Next(s, a).rest, s.threads[a.t].key)
            || (Doomed(Next(s, a).threads[a.t]) && Next(s, a).threads[a.t].key == s.threads[a.t].key)
  {
    var p := s.threads[a.t];
    assert Current(s.rest, p);
    if !Doomed(p) { OwnIntent(s, a.t); }
  }

  lemma BackedKept(s: State, a: Action, k: Key)
    requires Orderly(s) && Backing(s) && Enabled(s, a)
    ensures HasIntent(Next(s, a).rest, k)
            || exists t :: 0 <= t < |s.threads| && Doomed(Next(s, a).threads[t]) && Next(s, a).threads[t].key == k
  {
    var s', p := Next(s, a), s.threads[a.t];
    assert Current(s.rest, p);
    if a.Begin? || p.key != k {
      OthersUntouched(s, a, k);
      IntentAt(s.rest, s'.rest, k);
      if !HasIntent(s.rest, k) {
        var t :| 0 <= t < |s.threads| && Doomed(s.threads[t]) && s.threads[t].key == k;
        assert s'.threads[t] == s.threads[t];
      }
    } else {
      OwnIntentKept(s, a);
    }
  }

  lemma AheadKept(s: State, a: Action, u: nat)
    requires Orderly(s) && Backing(s) && Enabled(s, a) && u < |s.threads|
    requires Next(s, a).threads[u].Told? || Next(s, a).threads[u].Checked?
    ensures var s' := Next(s, a);
            HasIntent(WithDb(s'.rest, Written(s'.rest.store.db, s'.threads[u])), s'.threads[u].key)
  {
    var s', p := Next(s, a), s.threads[u];
    assert Current(s.rest, p);
    if u != a.t {
      OthersUntouched(s, a, p.key);
      IntentAt(WithDb(s.rest, Written(s.rest.store.db, p)), WithDb(s'.rest, Written(s'.rest.store.db, p)), p.key);
    }
  }

  lemma BackingStep(s: State, a: Action)
    requires Orderly(s) && Backing(s) && Enabled(s, a)
    ensures Backing(Next(s, a))
  {
    var s' := Next(s, a);
    forall k ensures HasIntent(s'.rest, k)
                     || exists t :: 0 <= t < |s'.threads| && Doomed(s'.threads[t]) && s'.threads[t].key == k
    {
      BackedKept(s, a, k);
    }
    forall u | 0 <= u < |s'.threads| && (s'.threads[u].Told? || s'.threads[u].Checked?)
      ensures HasIntent(WithDb(s'.rest, Written(s'.rest.store.db, s'.threads[u])), s'.threads[u].key)
    {
      AheadKept(s, a, u);
    }
  }

  /** In every interleaving with one request per key at a time, duplicate Creates and label moves included: every stored
      config has an intent on the target its labels name, unless a Delete of it is past its call of the target. */
  lemma {:induction false} RunsBack(s: State, acts: seq<Action>, rules: set<Rule>)
    requires Initial(s) && CanRun(s, acts) && RunObeys(s, acts, rules) && OneRequestPerKey in rules
    ensures Orderly(After(s, acts)) && Backing(After(s, acts))
  {
    if acts != [] {
      var init, a := acts[..|acts| - 1], acts[|acts| - 1];
      RunsBack(s, init, rules);
      OrderlyStep(After(s, init), a);
      BackingStep(After(s, init), a);
    }
  }
}

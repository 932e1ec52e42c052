/** What every sequential run of requests against the Config REST layer keeps. */
module ConfigRuns {
  import opened Events
  import opened WatchTable
  import Store = StoreSpec
  import opened ConfigKeys
  import opened ConfigSpec

  datatype Request =
    | CreateReq(namespace: Option<string>, obj: Object, uid: string, ok: bool)
    | UpdateReq(namespace: Option<string>, name: string, updated: Result<Object>, force: bool, ok: bool)
    | DeleteReq(namespace: Option<string>, name: string, ok: bool)
    | WatchReq(namespace: Option<string>, order: seq<Key>)
    | StopReq(id: int)
    | StoreWatchReq(order: seq<Key>)
    | StoreStopReq(id: int)
  {
    predicate Writes() { CreateReq? || UpdateReq? || DeleteReq? }
  }

  /** The store key a request is about. */
  function RequestKey(req: Request): Key
    requires req.Writes()
  {
    var name := if req.CreateReq? then req.obj.name else req.name;
    Key(if req.namespace.Some? then req.namespace.value else "", name)
  }

  /** The API machinery hands over objects whose own name and namespace are those of the request. */
  ghost predicate WellFormed(s: Rest, req: Request) {
    match req
    case CreateReq(_, obj, _, _) => ObjectKey(obj) == RequestKey(req)
    case UpdateReq(_, _, updated, _, _) => updated.Ok? ==> ObjectKey(updated.value) == RequestKey(req)
    case WatchReq(_, order) => Store.Enumerates(order, s.store.db)
    case StoreWatchReq(order) => Store.Enumerates(order, s.store.db)
    case _ => true
  }

  ghost function Step(s: Rest, isNamespaced: bool, req: Request): (Rest, Status)
    requires WellFormed(s, req)
  {
    match req
    case CreateReq(ns, obj, uid, ok) => Create(s, ns, isNamespaced, obj, uid, ok)
    case UpdateReq(ns, name, updated, force, ok) => Update(s, ns, isNamespaced, name, updated, force, ok)
    case DeleteReq(ns, name, ok) => Delete(s, ns, isNamespaced, name, ok)
    case WatchReq(ns, order) => (Watch(s, ns, isNamespaced, order).0, Succeeded)
    case StopReq(id) => (Stop(s, id), Succeeded)
    case StoreWatchReq(order) => (s.(store := Store.Watch(s.store, order).0), Succeeded)
    case StoreStopReq(id) => (s.(store := Store.Stop(s.store, id)), Succeeded)
  }

  // ---------- Single requests ----------

  /** A Create that gets as far as setting its intent. */
  predicate SetsIntent(s: Rest, isNamespaced: bool, req: Request) {
    && req.CreateReq? && req.ok && req.obj.isConfig && req.obj.blobs != []
    && ScopeFits(req.namespace, isNamespaced)
    && CarriesTarget(req.obj.labels) && TargetOf(req.obj.labels) in s.targets
  }

  /** An Update that nothing stops. */
  predicate Updates(s: Rest, isNamespaced: bool, req: Request) {
    && req.UpdateReq? && req.ok && ScopeFits(req.namespace, isNamespaced)
    && RequestKey(req) in s.store.db && s.store.db[RequestKey(req)].isConfig
    && req.updated.Ok? && req.updated.value.isConfig && req.updated.value.blobs != []
    && CarriesTarget(req.updated.value.labels) && TargetOf(req.updated.value.labels) in s.targets
  }

  /** A Delete that nothing stops. */
  predicate Deletes(s: Rest, isNamespaced: bool, req: Request) {
    && req.DeleteReq? && req.ok && ScopeFits(req.namespace, isNamespaced)
    && RequestKey(req) in s.store.db
    && var o := s.store.db[RequestKey(req)];
       o.isConfig && CarriesTarget(o.labels) && TargetOf(o.labels) in s.targets
  }

  /** When a write succeeds, in terms of the state before it. */
  predicate Succeeds(s: Rest, isNamespaced: bool, req: Request) {
    || (SetsIntent(s, isNamespaced, req) && RequestKey(req) !in s.store.db)
    || Updates(s, isNamespaced, req)
    || Deletes(s, isNamespaced, req)
  }

  lemma SucceedsIff(s: Rest, isNamespaced: bool, req: Request)
    requires WellFormed(s, req) && req.Writes()
    ensures Step(s, isNamespaced, req).1 == Succeeded <==> Succeeds(s, isNamespaced, req)
  {
  }

  /** A failing write changes neither the store nor any event stream, and it changes the targets exactly when it is
      a Create of a stored key that got as far as setting an intent the target did not already hold. */
  lemma FailureChangesNothingElse(s: Rest, isNamespaced: bool, req: Request)
    requires WellFormed(s, req) && req.Writes() && Step(s, isNamespaced, req).1 != Succeeded
    ensures var s' := Step(s, isNamespaced, req).0;
            && s'.store == s.store && s'.table == s.table
            && (s' != s <==>
                  && SetsIntent(s, isNamespaced, req) && RequestKey(req) in s.store.db
                  && var o := req.obj.(uid := req.uid);
                     Lookup(s.targets[TargetOf(o.labels)], ObjectKey(o)) != Some(o))
  {
    if SetsIntent(s, isNamespaced, req) {
      var o := req.obj.(uid := req.uid);
      var t := TargetOf(o.labels);
      var s' := Step(s, isNamespaced, req).0;
      assert s'.targets[t] == s.targets[t][ObjectKey(o) := o];
      if Lookup(s.targets[t], ObjectKey(o)) == Some(o) {
        assert s.targets[t][ObjectKey(o) := o] == s.targets[t];
        assert s'.targets == s.targets;
      }
    }
  }

  /** Keys appear in the store only through a successful Create and vanish only through a successful Delete; an
      Update never creates, not even when it is allowed to. */
  lemma KeysChangeOnlySo(s: Rest, isNamespaced: bool, req: Request)
    requires WellFormed(s, req)
    ensures var (s', status) := Step(s, isNamespaced, req);
            s'.store.db.Keys ==
              if req.CreateReq? && status == Succeeded then s.store.db.Keys + {RequestKey(req)}
              else if req.DeleteReq? && status == Succeeded then s.store.db.Keys - {RequestKey(req)}
              else s.store.db.Keys
    ensures req.CreateReq? && Step(s, isNamespaced, req).1 == Succeeded ==> RequestKey(req) !in s.store.db
    ensures req.DeleteReq? && Step(s, isNamespaced, req).1 == Succeeded ==> RequestKey(req) in s.store.db
  {
  }

  // ---------- The invariant ----------

  /** A stored object that a later Delete or Update can handle: its labels name a known target, which holds an
      intent for it. */
  ghost predicate Backed(s: Rest, k: Key, o: Object) {
    && o.isConfig && o.blobs != [] && ObjectKey(o) == k
    && CarriesTarget(o.labels) && TargetOf(o.labels) in s.targets
    && k in s.targets[TargetOf(o.labels)]
  }

  ghost predicate AllBacked(s: Rest) {
    forall k :: k in s.store.db ==> Backed(s, k, s.store.db[k])
  }

  /** Every watcher of the REST layer replays to the store. */
  ghost predicate RestMirrors(s: Rest) {
    forall id :: id in s.table.watchers ==> Replay(s.table.watchers[id]) == s.store.db
  }

  ghost predicate Invariant(s: Rest, maxID: nat) {
    && ValidTable(s.table, maxID) && ValidTable(s.store.table, maxID)
    && Store.MirrorsTruthfully(s.store) && RestMirrors(s)
    && AllBacked(s)
  }

  lemma AnnounceMirrors(s: Rest, s1: Rest, e: Event<Object>)
    requires RestMirrors(s) && s1.table == s.table && Apply(s.store.db, e) == s1.store.db
    ensures RestMirrors(Announce(s1, e.kind, e.key, e.obj))
  {
    forall id | id in s.table.watchers ensures Replay(s.table.watchers[id] + [e]) == s1.store.db {
      ReplayAppend(s.table.watchers[id], e);
    }
  }

  lemma SetIntentKeepsBacked(s: Rest, t: Key, key: Key, o: Object)
    requires AllBacked(s) && t in s.targets && o.isConfig && o.blobs != []
    requires Names(o.labels, t) && ObjectKey(o) == key
    ensures AllBacked(s.(targets := SetIntent(s.targets, t, o), store := s.store.(db := s.store.db[key := o])))
  {
  }

  lemma DeleteIntentKeepsBacked(s: Rest, t: Key, key: Key, o: Object)
    requires AllBacked(s) && t in s.targets && ObjectKey(o) == key
    ensures AllBacked(s.(targets := DeleteIntent(s.targets, t, o), store := s.store.(db := s.store.db - {key})))
  {
  }

  lemma CreateKeeps(s: Rest, isNamespaced: bool, req: Request, maxID: nat)
    requires Invariant(s, maxID) && WellFormed(s, req) && req.CreateReq?
    ensures Invariant(Step(s, isNamespaced, req).0, maxID)
  {
    var o := req.obj.(uid := req.uid);
    var key := RequestKey(req);
    if Step(s, isNamespaced, req).1 == Succeeded {
      Store.StepMirrors(s.store, Store.CreateOp(key, o), maxID);
      AnnounceMirrors(s, s.(store := Store.Create(s.store, key, o)), Event(Added, key, o));
      SetIntentKeepsBacked(s, TargetOf(o.labels), key, o);
    }
  }

  lemma UpdateKeeps(s: Rest, isNamespaced: bool, req: Request, maxID: nat)
    requires Invariant(s, maxID) && WellFormed(s, req) && req.UpdateReq?
    ensures Invariant(Step(s, isNamespaced, req).0, maxID)
  {
    if Step(s, isNamespaced, req).1 == Succeeded {
      var o := req.updated.value;
      var key := RequestKey(req);
      Store.StepMirrors(s.store, Store.UpdateOp(key, o), maxID);
      AnnounceMirrors(s, s.(store := Store.Update(s.store, key, o)), Event(Added, key, o));
      SetIntentKeepsBacked(s, TargetOf(o.labels), key, o);
    }
  }

  lemma DeleteKeeps(s: Rest, isNamespaced: bool, req: Request, maxID: nat)
    requires Invariant(s, maxID) && WellFormed(s, req) && req.DeleteReq?
    ensures Invariant(Step(s, isNamespaced, req).0, maxID)
  {
    if Step(s, isNamespaced, req).1 == Succeeded {
      var key := RequestKey(req);
      var o := s.store.db[key];
      assert Backed(s, key, o);
      Store.StepMirrors(s.store, Store.DeleteOp(key), maxID);
      AnnounceMirrors(s, s.(store := Store.Delete(s.store, key)), Event(Deleted, key, o));
      DeleteIntentKeepsBacked(s, TargetOf(o.labels), key, o);
    }
  }

  lemma WatchKeeps(s: Rest, isNamespaced: bool, req: Request, maxID: nat)
    requires Invariant(s, maxID) && WellFormed(s, req) && req.WatchReq?
    ensures Invariant(Step(s, isNamespaced, req).0, maxID)
  {
    var snapshot := Store.Snapshot(s.store.db, req.order);
    Store.SnapshotIsStore(s.store.db, req.order);
    var s' := Step(s, isNamespaced, req).0;
    if s' != s {
      assert s' == s.(table := Register(s.table, snapshot).0);
      Store.RegisterMirrors(s.table, snapshot, s.store.db);
      RegisterKeepsValid(s.table, maxID, snapshot);
    }
  }

  lemma StopKeeps(s: Rest, isNamespaced: bool, req: Request, maxID: nat)
    requires Invariant(s, maxID) && WellFormed(s, req) && req.StopReq?
    ensures Invariant(Step(s, isNamespaced, req).0, maxID)
  {
    UnregisterKeepsValid(s.table, maxID, req.id);
    UnregistersAgree(s.table, maxID, req.id);
  }

  lemma StoreWatchersKeep(s: Rest, isNamespaced: bool, req: Request, maxID: nat)
    requires Invariant(s, maxID) && WellFormed(s, req) && (req.StoreWatchReq? || req.StoreStopReq?)
    ensures Invariant(Step(s, isNamespaced, req).0, maxID)
  {
    var op := if req.StoreWatchReq? then Store.WatchOp(req.order) else Store.StopOp(req.id);
    Store.StepMirrors(s.store, op, maxID);
    assert Step(s, isNamespaced, req).0 == s.(store := Store.Step(s.store, op));
    assert Store.Step(s.store, op).db == s.store.db;
  }

  lemma StepKeeps(s: Rest, isNamespaced: bool, req: Request, maxID: nat)
    requires Invariant(s, maxID) && WellFormed(s, req)
    ensures Invariant(Step(s, isNamespaced, req).0, maxID)
  {
    if req.CreateReq? {
      CreateKeeps(s, isNamespaced, req, maxID);
    } else if req.UpdateReq? {
      UpdateKeeps(s, isNamespaced, req, maxID);
    } else if req.DeleteReq? {
      DeleteKeeps(s, isNamespaced, req, maxID);
    } else if req.WatchReq? {
      WatchKeeps(s, isNamespaced, req, maxID);
    } else if req.StopReq? {
      StopKeeps(s, isNamespaced, req, maxID);
    } else {
      StoreWatchersKeep(s, isNamespaced, req, maxID);
    }
  }

  // ---------- Truthfulness of the REST layer ----------

  ghost predicate RestTruthful(s: Rest) {
    forall id :: id in s.table.watchers ==> Truthful(s.table.watchers[id])
  }

  lemma SomeKey<K, V>(m: map<K, V>) returns (k: K)
    requires m != map[]
    ensures k in m
  {
    assert m.Keys != {};
    k :| k in m;
  }

  /** An event sent to at least one watcher leaves all streams truthful exactly when it is true of the store. */
  lemma AnnounceTruthfulIff(s: Rest, s1: Rest, e: Event<Object>)
    requires RestMirrors(s) && RestTruthful(s) && s1.table == s.table
    ensures RestTruthful(Announce(s1, e.kind, e.key, e.obj)) <==>
              s.table.watchers == map[] || TruthfulEvent(s.store.db, e)
  {
    var s' := Announce(s1, e.kind, e.key, e.obj);
    forall id | id in s.table.watchers
      ensures s'.table.watchers[id] == s.table.watchers[id] + [e]
      ensures Truthful(s'.table.watchers[id]) <==> TruthfulEvent(s.store.db, e)
    {
      TruthfulAppend(s.table.watchers[id], e);
    }
    if s.table.watchers != map[] {
      var id := SomeKey(s.table.watchers);
      assert id in s'.table.watchers;
    }
  }

  /** The exact condition: a request keeps the streams of the REST layer truthful if and only if it is not an Update
      that goes through and that somebody watches. Such an Update announces a stored object as Added. */
  lemma RestTruthfulIff(s: Rest, isNamespaced: bool, req: Request, maxID: nat)
    requires Invariant(s, maxID) && RestTruthful(s) && WellFormed(s, req)
    ensures RestTruthful(Step(s, isNamespaced, req).0) <==>
              !(Updates(s, isNamespaced, req) && s.table.watchers != map[])
  {
    if req.Writes() { SucceedsIff(s, isNamespaced, req); }
    var (s', status) := Step(s, isNamespaced, req);
    if req.Writes() && status == Succeeded {
      var key := RequestKey(req);
      if req.CreateReq? {
        var o := req.obj.(uid := req.uid);
        AnnounceTruthfulIff(s, s.(targets := s'.targets, store := s'.store), Event(Added, key, o));
      } else if req.UpdateReq? {
        AnnounceTruthfulIff(s, s.(targets := s'.targets, store := s'.store), Event(Added, key, req.updated.value));
      } else {
        AnnounceTruthfulIff(s, s.(targets := s'.targets, store := s'.store), Event(Deleted, key, s.store.db[key]));
      }
    } else if req.WatchReq? {
      Store.SnapshotIsStore(s.store.db, req.order);
    }
  }

  // ---------- Targets and store ----------

  function Owned(s: Rest, t: Key, k: Key): Option<Object> {
    if k in s.store.db && Names(s.store.db[k].labels, t) then Some(s.store.db[k]) else None
  }

  /** Each target holds exactly the stored configs whose labels name it, with equal contents. */
  ghost predicate Mirrored(s: Rest) {
    forall t, k :: t in s.targets ==> Lookup(s.targets[t], k) == Owned(s, t, k)
  }

  /** The two requests that leave a target different from the store: a Create of a stored key, which sets its intent
      before the store refuses it; and an Update that moves the config to another target, whose old intent stays. */
  ghost predicate LeavesStray(s: Rest, isNamespaced: bool, req: Request)
    requires WellFormed(s, req)
  {
    match req
    case CreateReq(_, obj, uid, _) =>
      SetsIntent(s, isNamespaced, req)
      && RequestKey(req) in s.store.db && s.store.db[RequestKey(req)] != obj.(uid := uid)
    case UpdateReq(_, _, updated, _, _) =>
      Updates(s, isNamespaced, req) && !SameTargetLabels(updated.value.labels, s.store.db[RequestKey(req)].labels)
    case _ => false
  }

  /** An intent is set for a stored config, and the store refuses. */
  lemma RefusedMirroredIff(s: Rest, s': Rest, t: Key, k: Key, o: Object)
    requires Mirrored(s) && t in s.targets && k in s.store.db
    requires ObjectKey(o) == k && Names(o.labels, t)
    requires s'.targets == SetIntent(s.targets, t, o) && s'.store.db == s.store.db
    ensures Mirrored(s') <==> s.store.db[k] == o
  {
    assert Lookup(s'.targets[t], k) == Some(o);
    forall u, j | u in s'.targets && (u != t || j != k) ensures Lookup(s'.targets[u], j) == Owned(s', u, j) {
      assert Lookup(s.targets[u], j) == Owned(s, u, j);
    }
  }

  /** An intent is set and the store takes the config. */
  lemma PutMirroredIff(s: Rest, s': Rest, t: Key, k: Key, o: Object)
    requires Mirrored(s) && t in s.targets && (k in s.store.db ==> Backed(s, k, s.store.db[k]))
    requires ObjectKey(o) == k && Names(o.labels, t)
    requires s'.targets == SetIntent(s.targets, t, o) && s'.store.db == s.store.db[k := o]
    ensures Mirrored(s') <==> (k in s.store.db ==> Names(s.store.db[k].labels, t))
  {
    if k in s.store.db && !Names(s.store.db[k].labels, t) {
      var before := TargetOf(s.store.db[k].labels);
      assert Lookup(s'.targets[before], k) == Lookup(s.targets[before], k) == Owned(s, before, k);
      assert Owned(s', before, k) == None;
    } else {
      forall u, j | u in s'.targets ensures Lookup(s'.targets[u], j) == Owned(s', u, j) {
        assert Lookup(s.targets[u], j) == Owned(s, u, j);
      }
    }
  }

  lemma CreateMirroredIff(s: Rest, isNamespaced: bool, req: Request, maxID: nat)
    requires Invariant(s, maxID) && Mirrored(s) && WellFormed(s, req) && req.CreateReq?
    ensures Mirrored(Step(s, isNamespaced, req).0) <==> !LeavesStray(s, isNamespaced, req)
  {
    if SetsIntent(s, isNamespaced, req) {
      var o, k, s' := req.obj.(uid := req.uid), RequestKey(req), Step(s, isNamespaced, req).0;
      var t := TargetOf(o.labels);
      if k in s.store.db {
        RefusedMirroredIff(s, s', t, k, o);
      } else {
        PutMirroredIff(s, s', t, k, o);
      }
    }
  }

  lemma UpdateMirroredIff(s: Rest, isNamespaced: bool, req: Request, maxID: nat)
    requires Invariant(s, maxID) && Mirrored(s) && WellFormed(s, req) && req.UpdateReq?
    ensures Mirrored(Step(s, isNamespaced, req).0) <==> !LeavesStray(s, isNamespaced, req)
  {
    SucceedsIff(s, isNamespaced, req);
    if Updates(s, isNamespaced, req) {
      var o, k := req.updated.value, RequestKey(req);
      assert Backed(s, k, s.store.db[k]);
      TargetIsLabels(o.labels, s.store.db[k].labels);
      PutMirroredIff(s, Step(s, isNamespaced, req).0, TargetOf(o.labels), k, o);
    }
  }

  lemma DeleteMirrored(s: Rest, isNamespaced: bool, req: Request, maxID: nat)
    requires Invariant(s, maxID) && Mirrored(s) && WellFormed(s, req) && req.DeleteReq?
    ensures Mirrored(Step(s, isNamespaced, req).0)
  {
    var (s', status) := Step(s, isNamespaced, req);
    if status == Succeeded {
      var k := RequestKey(req);
      var o := s.store.db[k];
      assert Backed(s, k, o);
      var t := TargetOf(o.labels);
      assert s'.targets == DeleteIntent(s.targets, t, o) && s'.store.db == s.store.db - {k};
      forall u, j | u in s'.targets ensures Lookup(s'.targets[u], j) == Owned(s', u, j) {
        assert Lookup(s.targets[u], j) == Owned(s, u, j);
      }
    }
  }

  /** The exact condition: from a state in which targets and store agree, they still agree after a request, whatever
      SetIntent and DeleteIntent answer, if and only if the request does not leave a stray intent. */
  lemma StepMirroredIff(s: Rest, isNamespaced: bool, req: Request, maxID: nat)
    requires Invariant(s, maxID) && Mirrored(s) && WellFormed(s, req)
    ensures Mirrored(Step(s, isNamespaced, req).0) <==> !LeavesStray(s, isNamespaced, req)
  {
    match req
    case CreateReq(_, _, _, _) => CreateMirroredIff(s, isNamespaced, req, maxID);
    case UpdateReq(_, _, _, _, _) => UpdateMirroredIff(s, isNamespaced, req, maxID);
    case DeleteReq(_, _, _) => DeleteMirrored(s, isNamespaced, req, maxID);
    case _ =>
      var s' := Step(s, isNamespaced, req).0;
      assert s'.targets == s.targets && s'.store.db == s.store.db;
      assert forall u, j :: Owned(s', u, j) == Owned(s, u, j);
  }

  // ---------- Runs ----------

  ghost predicate LegalRun(s: Rest, isNamespaced: bool, reqs: seq<Request>)
    decreases |reqs|
  {
    reqs == [] || (WellFormed(s, reqs[0]) && LegalRun(Step(s, isNamespaced, reqs[0]).0, isNamespaced, reqs[1..]))
  }

  ghost function Run(s: Rest, isNamespaced: bool, reqs: seq<Request>): Rest
    requires LegalRun(s, isNamespaced, reqs)
    decreases |reqs|
  {
    if reqs == [] then s else Run(Step(s, isNamespaced, reqs[0]).0, isNamespaced, reqs[1..])
  }

  /** No request of the run leaves a stray intent: Creates use absent keys, Updates keep the target labels. */
  ghost predicate StrictRun(s: Rest, isNamespaced: bool, reqs: seq<Request>)
    requires LegalRun(s, isNamespaced, reqs)
    decreases |reqs|
  {
    reqs == []
    || (!LeavesStray(s, isNamespaced, reqs[0])
        && StrictRun(Step(s, isNamespaced, reqs[0]).0, isNamespaced, reqs[1..]))
  }

  /** Nothing stored, no intents, nobody watching. */
  ghost predicate Initial(s: Rest, maxID: nat) {
    && s.store.db == map[] && s.store.table.watchers == map[] && s.table.watchers == map[]
    && ValidTable(s.table, maxID) && ValidTable(s.store.table, maxID)
    && forall t :: t in s.targets ==> s.targets[t] == map[]
  }

  lemma InitialIsMirrored(s: Rest, maxID: nat)
    requires Initial(s, maxID)
    ensures Invariant(s, maxID) && Mirrored(s)
  {
  }

  /** After every run of requests, duplicate Creates and label moves included: every stored config has an intent on
      the target its labels name, and each watcher of either layer replays to exactly the store, although the layers
      label their events differently. */
  lemma {:induction false} RunsKeepInvariant(s: Rest, isNamespaced: bool, reqs: seq<Request>, maxID: nat)
    requires Invariant(s, maxID) && LegalRun(s, isNamespaced, reqs)
    ensures Invariant(Run(s, isNamespaced, reqs), maxID)
    ensures var r := Run(s, isNamespaced, reqs);
            forall k :: k in r.store.db ==>
              var labels := r.store.db[k].labels;
              && TARGET_NAME_KEY in labels && labels[TARGET_NAME_KEY] != ""
              && TARGET_NAMESPACE_KEY in labels && labels[TARGET_NAMESPACE_KEY] != ""
              && k in r.targets[Key(labels[TARGET_NAMESPACE_KEY], labels[TARGET_NAME_KEY])]
    decreases |reqs|
  {
    if reqs != [] {
      StepKeeps(s, isNamespaced, reqs[0], maxID);
      RunsKeepInvariant(Step(s, isNamespaced, reqs[0]).0, isNamespaced, reqs[1..], maxID);
    } else {
      assert forall k :: k in s.store.db ==> Backed(s, k, s.store.db[k]);
    }
  }

  /** Both event layers agree. */
  lemma LayersAgree(s: Rest, isNamespaced: bool, reqs: seq<Request>, maxID: nat, rest: int, store: int)
    requires Initial(s, maxID) && LegalRun(s, isNamespaced, reqs)
    requires var r := Run(s, isNamespaced, reqs); rest in r.table.watchers && store in r.store.table.watchers
    ensures var r := Run(s, isNamespaced, reqs);
            Replay(r.table.watchers[rest]) == Replay(r.store.table.watchers[store]) == r.store.db
  {
    InitialIsMirrored(s, maxID);
    RunsKeepInvariant(s, isNamespaced, reqs, maxID);
  }

  /** On every strict run, with any pattern of target failures, each target holds exactly the stored configs whose
      labels name it, with equal contents. */
  lemma {:induction false} StrictRunsMirror(s: Rest, isNamespaced: bool, reqs: seq<Request>, maxID: nat)
    requires Invariant(s, maxID) && Mirrored(s)
    requires LegalRun(s, isNamespaced, reqs) && StrictRun(s, isNamespaced, reqs)
    ensures Mirrored(Run(s, isNamespaced, reqs))
    decreases |reqs|
  {
    if reqs != [] {
      StepKeeps(s, isNamespaced, reqs[0], maxID);
      StepMirroredIff(s, isNamespaced, reqs[0], maxID);
      StrictRunsMirror(Step(s, isNamespaced, reqs[0]).0, isNamespaced, reqs[1..], maxID);
    }
  }

  /** In particular from the start. */
  lemma TargetsAreTheStore(s: Rest, isNamespaced: bool, reqs: seq<Request>, maxID: nat)
    requires Initial(s, maxID) && LegalRun(s, isNamespaced, reqs) && StrictRun(s, isNamespaced, reqs)
    ensures Mirrored(Run(s, isNamespaced, reqs))
  {
    InitialIsMirrored(s, maxID);
    StrictRunsMirror(s, isNamespaced, reqs, maxID);
  }
}

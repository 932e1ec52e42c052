/** What each request against the Config REST layer is answered, and what it leaves behind, in terms of the state before
    it. */
module ConfigAnswers {
  import opened Events
  import opened WatchTable
  import Store = StoreSpec
  import opened ConfigKeys
  import opened ConfigSpec
  import opened ConfigRuns

  // ---------- The answers ----------

  /** A request body that the layer can handle: a config whose labels name a target. */
  predicate Handles(o: Object) { o.isConfig && CarriesTarget(o.labels) }

  /** The stored object that an Update or a Delete is about. */
  predicate Finds(s: Rest, isNamespaced: bool, req: Request) {
    req.Writes() && ScopeFits(req.namespace, isNamespaced) && RequestKey(req) in s.store.db
  }

  predicate IsBad(s: Rest, isNamespaced: bool, req: Request)
    requires req.Writes()
  {
    || !ScopeFits(req.namespace, isNamespaced)
    || match req
       case CreateReq(_, obj, _, _) => !Handles(obj)
       case UpdateReq(_, _, updated, force, _) =>
         if RequestKey(req) !in s.store.db then force
         else !s.store.db[RequestKey(req)].isConfig || (updated.Ok? && !Handles(updated.value))
       case _ => RequestKey(req) in s.store.db && !Handles(s.store.db[RequestKey(req)])
  }

  /** Only a Delete says that the object is missing. */
  predicate IsMissing(s: Rest, isNamespaced: bool, req: Request) {
    req.DeleteReq? && ScopeFits(req.namespace, isNamespaced) && RequestKey(req) !in s.store.db
  }

  /** The store's error, or that of the update itself, is handed on as it is. */
  predicate IsRefused(s: Rest, isNamespaced: bool, req: Request) {
    && req.UpdateReq? && ScopeFits(req.namespace, isNamespaced)
    && if RequestKey(req) in s.store.db then s.store.db[RequestKey(req)].isConfig && req.updated.Err? else !req.force
  }

  /** Create looks at the first entry of an empty list before it looks for the target, Update after. */
  predicate Panics(s: Rest, isNamespaced: bool, req: Request) {
    || (req.CreateReq? && ScopeFits(req.namespace, isNamespaced) && Handles(req.obj) && req.obj.blobs == [])
    || (req.UpdateReq? && Finds(s, isNamespaced, req) && s.store.db[RequestKey(req)].isConfig
        && req.updated.Ok? && Handles(req.updated.value) && req.updated.value.blobs == []
        && TargetOf(req.updated.value.labels) in s.targets)
  }

  /** The target is unknown, or refuses; or, once it has been told, the key turns out to be taken. */
  predicate Fails(s: Rest, isNamespaced: bool, req: Request) {
    || (req.CreateReq? && ScopeFits(req.namespace, isNamespaced) && Handles(req.obj) && req.obj.blobs != []
        && (TargetOf(req.obj.labels) !in s.targets || !req.ok || RequestKey(req) in s.store.db))
    || (req.UpdateReq? && Finds(s, isNamespaced, req) && s.store.db[RequestKey(req)].isConfig
        && req.updated.Ok? && Handles(req.updated.value)
        && (TargetOf(req.updated.value.labels) !in s.targets || (req.updated.value.blobs != [] && !req.ok)))
    || (req.DeleteReq? && Finds(s, isNamespaced, req) && Handles(s.store.db[RequestKey(req)])
        && (TargetOf(s.store.db[RequestKey(req)].labels) !in s.targets || !req.ok))
  }

  /** Exactly when each answer is given. */
  lemma AnswerIff(s: Rest, isNamespaced: bool, req: Request)
    requires WellFormed(s, req) && req.Writes()
    ensures var status := Step(s, isNamespaced, req).1;
            && (status == Succeeded <==> Succeeds(s, isNamespaced, req))
            && (status == BadRequest <==> IsBad(s, isNamespaced, req))
            && (status == NotFound <==> IsMissing(s, isNamespaced, req))
            && (status == Refused <==> IsRefused(s, isNamespaced, req))
            && (status == Panicked <==> Panics(s, isNamespaced, req))
            && (status == InternalError <==> Fails(s, isNamespaced, req))
  {
    match req
    case CreateReq(ns, obj, _, _) => GetKeysIff(ns, isNamespaced, obj.name, obj.labels);
    case UpdateReq(ns, name, updated, _, _) =>
      GetKeyIff(ns, isNamespaced, name);
      if updated.Ok? { GetTargetKeyIff(updated.value.labels); }
    case DeleteReq(ns, name, _) =>
      GetKeyIff(ns, isNamespaced, name);
      if RequestKey(req) in s.store.db { GetTargetKeyIff(s.store.db[RequestKey(req)].labels); }
  }

  // ---------- The effects ----------

  /** What a write that succeeds puts under its key. */
  function Written(req: Request): Option<Object>
    requires req.Writes() && (req.UpdateReq? ==> req.updated.Ok?)
  {
    match req
    case CreateReq(_, obj, uid, _) => Some(obj.(uid := uid))
    case UpdateReq(_, _, updated, _, _) => Some(updated.value)
    case _ => None
  }

  /** The store reads as written at the key of a request that succeeds, and as before everywhere else. */
  lemma StoreAfter(s: Rest, isNamespaced: bool, req: Request, j: Key)
    requires WellFormed(s, req) && req.Writes()
    ensures Lookup(Step(s, isNamespaced, req).0.store.db, j) ==
              if Succeeds(s, isNamespaced, req) && j == RequestKey(req) then Written(req) else Lookup(s.store.db, j)
  {
    SucceedsIff(s, isNamespaced, req);
  }

  /** The target that a request tells something, if it gets that far. */
  function Tells(s: Rest, isNamespaced: bool, req: Request): Option<Key> {
    if SetsIntent(s, isNamespaced, req) then Some(TargetOf(req.obj.labels))
    else if Updates(s, isNamespaced, req) then Some(TargetOf(req.updated.value.labels))
    else if Deletes(s, isNamespaced, req) then Some(TargetOf(s.store.db[RequestKey(req)].labels))
    else None
  }

  /** Telling target u about o touches no other intent. */
  lemma ToldOnly(targets: map<Key, Intents>, u: Key, o: Object, t: Key, j: Key)
    requires u in targets && t in targets
    ensures SetIntent(targets, u, o).Keys == targets.Keys == DeleteIntent(targets, u, o).Keys
    ensures Lookup(SetIntent(targets, u, o)[t], j) ==
              if t == u && j == ObjectKey(o) then Some(o) else Lookup(targets[t], j)
    ensures Lookup(DeleteIntent(targets, u, o)[t], j) ==
              if t == u && j == ObjectKey(o) then None else Lookup(targets[t], j)
  {
  }

  lemma Told(s: Rest, isNamespaced: bool, req: Request)
    requires WellFormed(s, req) && req.Writes()
    ensures var targets, told := Step(s, isNamespaced, req).0.targets, Tells(s, isNamespaced, req);
            targets == if told.None? then s.targets
                       else if req.DeleteReq? then
                         DeleteIntent(s.targets, told.value, s.store.db[RequestKey(req)])
                       else SetIntent(s.targets, told.value, Written(req).value)
  {
  }

  /** One target is told about one config; all other intents stay what they were, whatever the state. */
  lemma TargetsAfter(s: Rest, isNamespaced: bool, req: Request, t: Key, j: Key)
    requires WellFormed(s, req) && req.Writes() && t in s.targets
    requires forall k :: k in s.store.db ==> ObjectKey(s.store.db[k]) == k
    ensures Step(s, isNamespaced, req).0.targets.Keys == s.targets.Keys
    ensures Lookup(Step(s, isNamespaced, req).0.targets[t], j) ==
              if Tells(s, isNamespaced, req) == Some(t) && j == RequestKey(req) then Written(req)
              else Lookup(s.targets[t], j)
  {
    Told(s, isNamespaced, req);
    var told := Tells(s, isNamespaced, req);
    if told.Some? {
      ToldOnly(s.targets, told.value, if req.DeleteReq? then s.store.db[RequestKey(req)] else Written(req).value, t, j);
    }
  }

  /** The event the REST layer's watchers are sent by a request that succeeds. */
  function Announced(s: Rest, req: Request): Event<Object>
    requires req.Writes() && (req.UpdateReq? ==> req.updated.Ok?)
    requires req.DeleteReq? ==> RequestKey(req) in s.store.db
  {
    match req
    case DeleteReq(_, _, _) => Event(Deleted, RequestKey(req), s.store.db[RequestKey(req)])
    case _ => Event(Added, RequestKey(req), Written(req).value)
  }

  /** Watchers of both layers hear of a request that succeeds, and of no other: those of the REST layer exactly one
      event, those of the store the change of the key, which is nothing when an Update writes an equal object. */
  lemma EventsAfter(s: Rest, isNamespaced: bool, req: Request)
    requires WellFormed(s, req) && req.Writes()
    ensures var s' := Step(s, isNamespaced, req).0;
            && s'.table.ids == s.table.ids && s'.store.table.ids == s.store.table.ids
            && s'.table.watchers.Keys == s.table.watchers.Keys
            && (forall id :: id in s.table.watchers ==>
                  s'.table.watchers[id] ==
                    s.table.watchers[id] + if Succeeds(s, isNamespaced, req) then [Announced(s, req)] else [])
            && s'.store.table.watchers.Keys == s.store.table.watchers.Keys
            && (forall id :: id in s.store.table.watchers ==>
                  s'.store.table.watchers[id] ==
                    s.store.table.watchers[id] + Store.Change(s.store.db, s'.store.db, RequestKey(req)))
  {
    var s', key := Step(s, isNamespaced, req).0, RequestKey(req);
    SucceedsIff(s, isNamespaced, req);
    if Succeeds(s, isNamespaced, req) {
      var op := match req
                case CreateReq(_, _, _, _) => Store.CreateOp(key, Written(req).value)
                case UpdateReq(_, _, _, _, _) => Store.UpdateOp(key, Written(req).value)
                case _ => Store.DeleteOp(key);
      assert s'.store == Store.Step(s.store, op);
      Store.WritesTellTheChange(s.store, op);
    } else {
      FailureChangesNothingElse(s, isNamespaced, req);
      assert forall id :: id in s.table.watchers ==> s.table.watchers[id] + [] == s.table.watchers[id];
      assert forall id :: id in s.store.table.watchers ==>
               s.store.table.watchers[id] + [] == s.store.table.watchers[id];
    }
  }

  /** Stop removes the watcher of that id and nothing else, and frees the id; store and targets do not notice. */
  lemma StopRemovesOnly(s: Rest, isNamespaced: bool, id: int, maxID: nat)
    requires ValidTable(s.table, maxID)
    ensures var s' := Step(s, isNamespaced, StopReq(id)).0;
            && s'.store == s.store && s'.targets == s.targets
            && id !in s'.table.watchers
            && (forall i :: i in s.table.watchers && i != id ==>
                  i in s'.table.watchers && s'.table.watchers[i] == s.table.watchers[i])
            && (forall i :: i in s'.table.watchers ==> i in s.table.watchers)
            && s'.table.ids.avail == s.table.ids.avail + if id in s.table.watchers then [id] else []
  {
    UnregistersAgree(s.table, maxID, id);
    UnregisterRemovesOnly(s.table, maxID, id);
  }

  /** Watch is refused exactly when no id is free or the scope does not fit; otherwise one watcher is added, which has
      been sent an Added event for every stored object, of whatever namespace. */
  lemma WatchAddsOnly(s: Rest, namespace: Option<string>, isNamespaced: bool, order: seq<Key>, maxID: nat)
    requires ValidTable(s.table, maxID) && Store.Enumerates(order, s.store.db)
    ensures var (s', id) := Watch(s, namespace, isNamespaced, order);
            && (id.None? <==> |s.table.watchers| == maxID + 1 || !ScopeFits(namespace, isNamespaced))
            && s'.store == s.store && s'.targets == s.targets && (id.None? ==> s' == s)
            && (id.Some? ==>
                  && id.value !in s.table.watchers
                  && s'.table.watchers.Keys == s.table.watchers.Keys + {id.value}
                  && (forall i :: i in s.table.watchers ==> s'.table.watchers[i] == s.table.watchers[i])
                  && Truthful(s'.table.watchers[id.value])
                  && Replay(s'.table.watchers[id.value]) == s.store.db)
  {
    var snapshot := Store.Snapshot(s.store.db, order);
    Store.SnapshotIsStore(s.store.db, order);
    RegisterKeepsValid(s.table, maxID, snapshot);
    RegisterAddsOnly(s.table, maxID, snapshot);
  }
}

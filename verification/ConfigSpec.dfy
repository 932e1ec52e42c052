/** The Config REST protocol as a value, one request at a time: push the intent to the target, commit to the store,
    notify the REST layer's own watchers. Any step may fail. */
module ConfigSpec {
  import opened Events
  import opened WatchTable
  import Store = StoreSpec
  import opened ConfigKeys

  /** A runtime object. `isConfig` says whether the type assertion to Config succeeds; `blobs` is Spec.Config. */
  datatype Object = Object(
    isConfig: bool, namespace: string, name: string, labels: map<string, string>, uid: string,
    priority: int, blobs: seq<(string, string)>)

  /** The intent name of an object, and the store key it belongs under. */
  function ObjectKey(o: Object): Key { Key(o.namespace, o.name) }

  /** What a target has been told: one intent per config. */
  type Intents = map<Key, Object>

  /** `table` is the REST layer's watcher table; the store has its own. */
  datatype Rest = Rest(
    store: Store.Store<Object>, targets: map<Key, Intents>, table: Table<Store.Stream<Object>>)

  datatype Status = Succeeded | BadRequest | NotFound | InternalError | Panicked | Refused

  /** SetIntent and DeleteIntent either succeed or leave the target as it was; `ok` says which. */
  function SetIntent(targets: map<Key, Intents>, target: Key, o: Object): map<Key, Intents>
    requires target in targets
  {
    targets[target := targets[target][ObjectKey(o) := o]]
  }

  function DeleteIntent(targets: map<Key, Intents>, target: Key, o: Object): map<Key, Intents>
    requires target in targets
  {
    targets[target := targets[target] - {ObjectKey(o)}]
  }

  function Announce(s: Rest, kind: EventType, key: Key, o: Object): Rest {
    s.(table := Store.Broadcast(s.table, Event(kind, key, o)))
  }

  /** Create: the intent is set before the store is asked whether the key is taken. */
  function Create(s: Rest, namespace: Option<string>, isNamespaced: bool, obj: Object, uid: string, ok: bool)
    : (Rest, Status)
  {
    var keys := GetKeys(namespace, isNamespaced, obj.name, obj.labels);
    if keys.Err? then (s, BadRequest)
    else
      var (key, target) := keys.value;
      var o := obj.(uid := uid);
      if !o.isConfig then (s, BadRequest)
      else if o.blobs == [] then (s, Panicked)
      else if target !in s.targets then (s, InternalError)
      else if !ok then (s, InternalError)
      else
        var s1 := s.(targets := SetIntent(s.targets, target, o));
        if key in s.store.db then (s1, InternalError)
        else (Announce(s1.(store := Store.Create(s.store, key, o)), Added, key, o), Succeeded)
  }

  /** Update. `updated` is what objInfo.UpdatedObject makes of the stored object, if it succeeds. A missing key is
      refused one way or the other: with forceAllowCreate the nil object fails the type assertion. */
  function Update(s: Rest, namespace: Option<string>, isNamespaced: bool, name: string, updated: Result<Object>,
                  forceAllowCreate: bool, ok: bool)
    : (Rest, Status)
  {
    var k := GetKey(namespace, isNamespaced, name);
    if k.Err? then (s, BadRequest)
    else
      var key := k.value;
      if key !in s.store.db then (s, if forceAllowCreate then BadRequest else Refused)
      else if !s.store.db[key].isConfig then (s, BadRequest)
      else if updated.Err? then (s, Refused)
      else if !updated.value.isConfig then (s, BadRequest)
      else
        var o := updated.value;
        var t := GetTargetKey(o.labels);
        if t.Err? then (s, BadRequest)
        else if t.value !in s.targets then (s, InternalError)
        else if o.blobs == [] then (s, Panicked)
        else if !ok then (s, InternalError)
        else
          var s1 := s.(targets := SetIntent(s.targets, t.value, o), store := Store.Update(s.store, key, o));
          (Announce(s1, Added, key, o), Succeeded)
  }

  function Delete(s: Rest, namespace: Option<string>, isNamespaced: bool, name: string, ok: bool): (Rest, Status) {
    var k := GetKey(namespace, isNamespaced, name);
    if k.Err? then (s, BadRequest)
    else
      var key := k.value;
      if key !in s.store.db then (s, NotFound)
      else
        var o := s.store.db[key];
        var t := GetTargetKey(o.labels);
        if !o.isConfig then (s, BadRequest)
        else if t.Err? then (s, BadRequest)
        else if t.value !in s.targets then (s, InternalError)
        else if !ok then (s, InternalError)
        else
          var s1 := s.(targets := DeleteIntent(s.targets, t.value, o), store := Store.Delete(s.store, key));
          (Announce(s1, Deleted, key, o), Succeeded)
  }

  /** Watch sends the whole store whatever the namespace: both arms of List's filter append. */
  function Watch(s: Rest, namespace: Option<string>, isNamespaced: bool, order: seq<Key>): (Rest, Option<int>)
    requires forall k :: k in order ==> k in s.store.db
  {
    if s.table.ids.avail == [] || namespace.Some? != isNamespaced then (s, None)
    else
      var (t, id) := Register(s.table, Store.Snapshot(s.store.db, order));
      (s.(table := t), id)
  }

  function Stop(s: Rest, id: int): Rest {
    s.(table := UnregisterAlways(s.table, id))
  }
}

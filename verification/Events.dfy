/** The vocabulary of the watch streams: keys, events, and the map a client obtains by replaying a stream. */
module Events {
  datatype Option<+T> = None | Some(value: T)

  datatype Key = Key(namespace: string, name: string)

  datatype EventType = Added | Modified | Deleted

  /** The program's event carries only a type and an object. `key` is the store key the event is about; the
      program never reads it, it is recorded so that a stream can be replayed. */
  datatype Event<V> = Event(kind: EventType, key: Key, obj: V)

  /** The buffer size of a watch context's channel. */
  const CAPACITY: nat := 10

  function Lookup<V>(m: map<Key, V>, k: Key): Option<V> {
    if k in m then Some(m[k]) else None
  }

  /** Added and Modified put the object, Deleted removes it. */
  function Apply<V>(m: map<Key, V>, e: Event<V>): map<Key, V> {
    if e.kind.Deleted? then m - {e.key} else m[e.key := e.obj]
  }

  /** The map held by a client that has applied the whole stream to an empty map. */
  function Replay<V>(s: seq<Event<V>>): map<Key, V> {
    if s == [] then map[] else Apply(Replay(s[..|s| - 1]), s[|s| - 1])
  }

  lemma ReplayAppend<V>(s: seq<Event<V>>, e: Event<V>)
    ensures Replay(s + [e]) == Apply(Replay(s), e)
  {
    assert (s + [e])[..|s|] == s;
  }

  /** What an event says is true of the map it is applied to: Added of an absent key, Modified of a present key
      whose value differs, Deleted of a present key with the value it had. */
  predicate TruthfulEvent<V(==)>(m: map<Key, V>, e: Event<V>) {
    match e.kind
    case Added => e.key !in m
    case Modified => e.key in m && m[e.key] != e.obj
    case Deleted => e.key in m && m[e.key] == e.obj
  }

  /** Every event is truthful about the replay of the events before it. */
  predicate Truthful<V(==)>(s: seq<Event<V>>) {
    s == [] || (Truthful(s[..|s| - 1]) && TruthfulEvent(Replay(s[..|s| - 1]), s[|s| - 1]))
  }

  lemma TruthfulAppend<V>(s: seq<Event<V>>, e: Event<V>)
    ensures Truthful(s + [e]) <==> Truthful(s) && TruthfulEvent(Replay(s), e)
  {
    assert (s + [e])[..|s|] == s;
  }
}

/** Which store key and which target a request is about. */
module ConfigKeys {
  import opened Events

  const TARGET_NAME_KEY := "targetName"
  const TARGET_NAMESPACE_KEY := "targetNamespace"

  datatype Result<+T> = Ok(value: T) | Err

  /** The namespace of the request context, if it has one, has to fit the resource's scope. */
  function GetKey(namespace: Option<string>, isNamespaced: bool, name: string): Result<Key> {
    if namespace.Some? != isNamespaced then Err
    else Ok(Key(if namespace.Some? then namespace.value else "", name))
  }

  /** A missing label reads as the empty string. */
  function Label(labels: map<string, string>, key: string): string {
    if key in labels then labels[key] else ""
  }

  function GetTargetKey(labels: map<string, string>): Result<Key> {
    var name := Label(labels, TARGET_NAME_KEY);
    var namespace := Label(labels, TARGET_NAMESPACE_KEY);
    if name == "" || namespace == "" then Err else Ok(Key(namespace, name))
  }

  function GetKeys(namespace: Option<string>, isNamespaced: bool, name: string, labels: map<string, string>)
    : Result<(Key, Key)>
  {
    var key := GetKey(namespace, isNamespaced, name);
    var target := GetTargetKey(labels);
    if key.Err? then Err else if target.Err? then Err else Ok((key.value, target.value))
  }

  // ---------- When they succeed ----------

  /** A namespaced resource is requested in a namespace, any other outside namespaces. */
  predicate ScopeFits(namespace: Option<string>, isNamespaced: bool) { namespace.Some? <==> isNamespaced }

  /** Both target labels are there, and neither is empty. */
  predicate CarriesTarget(labels: map<string, string>) {
    && TARGET_NAME_KEY in labels && labels[TARGET_NAME_KEY] != ""
    && TARGET_NAMESPACE_KEY in labels && labels[TARGET_NAMESPACE_KEY] != ""
  }

  function TargetOf(labels: map<string, string>): Key
    requires CarriesTarget(labels)
  {
    Key(labels[TARGET_NAMESPACE_KEY], labels[TARGET_NAME_KEY])
  }

  predicate Names(labels: map<string, string>, target: Key) { CarriesTarget(labels) && TargetOf(labels) == target }

  lemma GetKeyIff(namespace: Option<string>, isNamespaced: bool, name: string)
    ensures GetKey(namespace, isNamespaced, name).Ok? <==> ScopeFits(namespace, isNamespaced)
    ensures forall k :: GetKey(namespace, isNamespaced, name) == Ok(k) ==>
              k.name == name && (k.namespace == if isNamespaced then namespace.value else "")
  {
  }

  /** Labels name a target exactly when they hold both target labels with values, and then it is the target of
      exactly those two values. */
  lemma GetTargetKeyIff(labels: map<string, string>)
    ensures GetTargetKey(labels).Ok? <==> CarriesTarget(labels)
    ensures forall t :: GetTargetKey(labels) == Ok(t) <==> Names(labels, t)
  {
  }

  lemma GetKeysIff(namespace: Option<string>, isNamespaced: bool, name: string, labels: map<string, string>)
    ensures GetKeys(namespace, isNamespaced, name, labels).Ok? <==>
              ScopeFits(namespace, isNamespaced) && CarriesTarget(labels)
    ensures forall k, t :: GetKeys(namespace, isNamespaced, name, labels) == Ok((k, t)) ==>
              GetKey(namespace, isNamespaced, name) == Ok(k) && Names(labels, t)
  {
  }

  /** The labels by their own names. */
  lemma LabelNames()
    ensures GetTargetKey(map["targetName" := "leaf1", "targetNamespace" := "site"]) == Ok(Key("site", "leaf1"))
    ensures GetTargetKey(map["targetName" := "leaf1"]).Err? && GetTargetKey(map["targetNamespace" := "site"]).Err?
    ensures GetTargetKey(map["targetName" := "", "targetNamespace" := "site"]).Err?
  {
    assert "targetName"[6] != "targetNamespace"[6] || |"targetName"| != |"targetNamespace"|;
  }

  predicate SameTargetLabels(a: map<string, string>, b: map<string, string>) {
    Label(a, TARGET_NAME_KEY) == Label(b, TARGET_NAME_KEY)
    && Label(a, TARGET_NAMESPACE_KEY) == Label(b, TARGET_NAMESPACE_KEY)
  }

  /** Two label sets name the same target exactly when they agree on both target labels. */
  lemma TargetIsLabels(a: map<string, string>, b: map<string, string>)
    requires CarriesTarget(a) && CarriesTarget(b)
    ensures TargetOf(a) == TargetOf(b) <==> SameTargetLabels(a, b)
  {
  }
}

/** The names under which the data server knows targets and intents: both end in the dotted form of a key. */
module IntentNames {
  import opened Events

  /** Key.String: the target's name. */
  function Dotted(k: Key): string {
    if k.namespace == "" then k.name else k.namespace + "." + k.name
  }

  /** The API version with its slashes replaced. */
  function AtSlashes(s: string): string {
    seq(|s|, i requires 0 <= i < |s| => if s[i] == '/' then '@' else s[i])
  }

  function IntentName(apiVersion: string, kind: string, k: Key): string {
    AtSlashes(apiVersion) + "." + kind + "." + Dotted(k)
  }

  predicate NoDot(s: string) { '.' !in s }

  /** The position of the first dot, or the length. */
  function FirstDot(s: string): nat {
    if s == "" || s[0] == '.' then 0 else 1 + FirstDot(s[1..])
  }

  lemma {:induction false} FirstDotAfter(a: string, x: string)
    requires NoDot(a)
    ensures FirstDot(a + "." + x) == |a|
  {
    if a == "" {
      assert a + "." + x == "." + x;
    } else {
      assert (a + "." + x)[1..] == a[1..] + "." + x;
      FirstDotAfter(a[1..], x);
    }
  }

  lemma SplitAtDot(a: string, b: string, x: string, y: string)
    requires NoDot(a) && NoDot(b) && a + "." + x == b + "." + y
    ensures a == b && x == y
  {
    FirstDotAfter(a, x);
    FirstDotAfter(b, y);
    var s := a + "." + x;
    assert s[..|a|] == a && s[|a| + 1..] == x;
    assert s == b + "." + y && s[..|b|] == b && s[|b| + 1..] == y;
  }

  /** With namespaces that have no dot (Kubernetes allows none), and both keys in a namespace or neither, two configs
      share an intent name exactly when they have the same key: the intents of a target can be modelled as a map by
      key. The same holds of target names. */
  lemma NamesAreKeys(apiVersion: string, kind: string, k: Key, j: Key)
    requires NoDot(k.namespace) && NoDot(j.namespace) && (k.namespace == "" <==> j.namespace == "")
    ensures Dotted(k) == Dotted(j) <==> k == j
    ensures IntentName(apiVersion, kind, k) == IntentName(apiVersion, kind, j) <==> k == j
  {
    if Dotted(k) == Dotted(j) && k.namespace != "" {
      SplitAtDot(k.namespace, j.namespace, k.name, j.name);
    }
    var p := AtSlashes(apiVersion) + "." + kind + ".";
    assert IntentName(apiVersion, kind, k)[|p|..] == Dotted(k);
    assert IntentName(apiVersion, kind, j)[|p|..] == Dotted(j);
  }

  /** Without that condition names collide. */
  lemma NamesCollide(apiVersion: string, kind: string)
    ensures IntentName(apiVersion, kind, Key("a", "b.c")) == IntentName(apiVersion, kind, Key("a.b", "c"))
  {
    assert Dotted(Key("a", "b.c")) == "a.b.c" == Dotted(Key("a.b", "c"));
  }

  /** Names as the data server sees them. */
  lemma NameExamples()
    ensures Dotted(Key("", "leaf1")) == "leaf1" && Dotted(Key("site", "leaf1")) == "site.leaf1"
    ensures IntentName("sdc/v1", "Config", Key("site", "cfg")) == "sdc@v1.Config.site.cfg"
  {
    assert AtSlashes("sdc/v1") == "sdc@v1";
    assert "sdc@v1" + "." + "Config" + "." + "site.cfg" == "sdc@v1.Config.site.cfg";
  }
}

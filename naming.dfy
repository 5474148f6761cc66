/** How a module's name, key and root namespace are derived from its class.
    The runtime reflection of the PHP code is replaced by an explicit class
    descriptor, and the kebab-case conversion (a third-party helper whose
    behaviour is not modelled) is passed in as the function `kebab`. */
module Naming {
  import opened Text

  /** A module class: its namespace (`App\Modules\Billing`, empty for the
      global namespace), its short name (`BillingModule`), and the route
      prefixes its declaration gives the public properties `apiRoutesPrefix`,
      `webRoutesPrefix` and `routePrefix` (empty unless the class overrides them). */
  datatype ModuleClass = ModuleClass(
    namespace: string,
    shortName: string,
    apiPrefix: string,
    webPrefix: string,
    routePrefix: string)

  /** The conventional class-name suffix that a module's name drops. */
  const Suffix := "Module"

  /** The literal first segment of every module key. */
  const Root := "app"

  /** The namespace separator. */
  const Backslash := '\\'

  /** The directory separator `dirname` works with (a Unix host). */
  const Slash := '/'

  /** `getName`: the short name without one trailing "Module", checked
      with `substr($name, -6)`. The name is kept, or loses exactly that
      suffix, and it loses it exactly when the short name ends in it. */
  function Name(shortName: string): (r: string)
    ensures r == shortName || r + Suffix == shortName
    ensures r != shortName <==> (|shortName| >= 6 && shortName[|shortName| - 6..] == Suffix)
  {
    var n := |shortName|;
    if n >= 6 && shortName[n - 6..] == Suffix then
      assert shortName == shortName[..n - 6] + Suffix;
      shortName[..n - 6]
    else shortName
  }

  /** A name ending in "Module" loses exactly that suffix, once, even when
      what is left also ends in "Module". */
  lemma NameStripsOnce(base: string)
    ensures Name(base + Suffix) == base
  {
    var s := base + Suffix;
    assert s[|s| - 6..] == Suffix;
  }

  /** The segments of a key: "app", then the kebab-cased namespace segments
      from the third on (`array_slice($parts, 2)`), in their original order. */
  function KeyParts(namespace: string, kebab: string -> string): (parts: seq<string>)
    ensures var segments := Split(namespace, Backslash);
      && |parts| == 1 + (if |segments| <= 2 then 0 else |segments| - 2)
      && parts[0] == Root
      && forall i :: 1 <= i < |parts| ==> parts[i] == kebab(segments[i + 1])
  {
    var segments := Split(namespace, Backslash);
    var kebabed := seq(|segments|, i requires 0 <= i < |segments| => kebab(segments[i]));
    [Root] + (if |kebabed| <= 2 then [] else kebabed[2..])
  }

  /** The kebab-case conversion introduces no "." into any namespace segment. */
  predicate DotFree(namespace: string, kebab: string -> string)
  {
    var segments := Split(namespace, Backslash);
    forall i :: 0 <= i < |segments| ==> '.' !in kebab(segments[i])
  }

  /** `getKey`: the key parts joined with ".", so a function of the
      namespace alone. Every key begins with "app"; a namespace of at most
      two segments gives the key "app"; when the kebab-cased segments hold
      no ".", splitting the key on "." gives back exactly its parts, so the
      key has max(n - 2, 0) dots for an n-segment namespace. */
  function Key(namespace: string, kebab: string -> string): (r: string)
    ensures Root <= r
    ensures |Split(namespace, Backslash)| <= 2 ==> r == Root
    ensures DotFree(namespace, kebab) ==>
      && Split(r, '.') == KeyParts(namespace, kebab)
      && Count(r, '.') == if |Split(namespace, Backslash)| <= 2 then 0 else |Split(namespace, Backslash)| - 2
  {
    var parts := KeyParts(namespace, kebab);
    KeyPartsDotFree(namespace, kebab);
    if DotFree(namespace, kebab) then
      SplitJoin(parts, '.');
      JoinCount(parts, '.');
      Join(parts, '.')
    else
      Join(parts, '.')
  }

  /** With dot-free kebab-cased segments, no key part holds a ".". */
  lemma KeyPartsDotFree(namespace: string, kebab: string -> string)
    ensures DotFree(namespace, kebab) ==> Free(KeyParts(namespace, kebab), '.')
  {
    if DotFree(namespace, kebab) {
      var parts := KeyParts(namespace, kebab);
      var segments := Split(namespace, Backslash);
      forall i | 0 <= i < |parts| ensures '.' !in parts[i] {
        if i > 0 {
          assert parts[i] == kebab(segments[i + 1]);
        }
      }
    }
  }

  /** `static::class`: the fully qualified class name. */
  function QualifiedName(c: ModuleClass): string
  {
    if c.namespace == [] then c.shortName else c.namespace + [Backslash] + c.shortName
  }

  /** `getRootNamespace`: turn namespace separators into directory separators,
      take `dirname`, and turn them back. */
  function RootNamespace(className: string): string
  {
    Translate(Dirname(Translate(className, Backslash, Slash), Slash), Slash, Backslash)
  }

  /** A class as PHP can declare it: a non-empty short name, no "/" anywhere,
      and a namespace without a trailing separator. */
  predicate WellFormed(c: ModuleClass)
  {
    && c.shortName != []
    && Backslash !in c.shortName
    && Slash !in c.shortName
    && Slash !in c.namespace
    && (c.namespace == [] || c.namespace[|c.namespace| - 1] != Backslash)
  }

  /** The root namespace of a class is the namespace it is declared in, or
      "." for a class in the global namespace. */
  lemma RootNamespaceOfClass(c: ModuleClass)
    requires WellFormed(c)
    ensures RootNamespace(QualifiedName(c)) == if c.namespace == [] then "." else c.namespace
  {
    var short := c.shortName;
    assert Translate(short, Backslash, Slash) == short;
    if c.namespace == [] {
      DirnameOfBare(short, Slash);
      assert Translate(".", Slash, Backslash) == ".";
    } else {
      var ns := c.namespace;
      var tns := Translate(ns, Backslash, Slash);
      TranslateAppend(ns + [Backslash], short, Backslash, Slash);
      TranslateAppend(ns, [Backslash], Backslash, Slash);
      assert Translate([Backslash], Backslash, Slash) == [Slash];
      assert tns[|tns| - 1] == ns[|ns| - 1];
      DirnameOfChild(tns, short, Slash);
      TranslateBack(ns, Backslash, Slash);
    }
  }
}

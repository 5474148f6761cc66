/** What the walks over the module tree and the registry guarantee, and the
    documented scenarios: nested route groups and configuration access
    before and after registration. */
module ModuleFacts {
  import opened Text
  import opened Naming
  import opened Routing
  import opened Trees
  import opened Modules

  /** Mounting a tree opens one group per node below the root (a shared
      module once per path to it), for the nodes in pre-order: each child
      in insertion order, followed at once by everything below it. */
  lemma {:induction false} MountIsPreorder(t: Tree<ModuleView>, routeType: string, scope: seq<string>, kebab: string -> string)
    ensures |Mount(t, routeType, scope, kebab)| == |PreorderList(t.kids)| == Size(t) - 1
    ensures forall i :: 0 <= i < |PreorderList(t.kids)| ==>
      Mount(t, routeType, scope, kebab)[i].mounted == PreorderList(t.kids)[i].instance
    decreases t, 1
  {
    MountListIsPreorder(t.kids, routeType, scope, kebab);
    PreorderSize(t);
  }

  lemma {:induction false} MountListIsPreorder(ts: seq<Tree<ModuleView>>, routeType: string, scope: seq<string>, kebab: string -> string)
    ensures |MountList(ts, routeType, scope, kebab)| == |PreorderList(ts)|
    ensures forall i :: 0 <= i < |PreorderList(ts)| ==>
      MountList(ts, routeType, scope, kebab)[i].mounted == PreorderList(ts)[i].instance
    decreases ts, 0
  {
    if ts != [] {
      var init, last := ts[..|ts| - 1], ts[|ts| - 1];
      var nested := scope + [GroupPrefix(last.item, routeType, kebab)];
      var a, b := MountList(init, routeType, scope, kebab), Mount(last, routeType, nested, kebab);
      var e := Event(nested, last.item.instance, HookFor(routeType));
      var p, q := PreorderList(init), PreorderList(last.kids);
      MountListIsPreorder(init, routeType, scope, kebab);
      MountListIsPreorder(last.kids, routeType, nested, kebab);
      assert MountList(ts, routeType, scope, kebab) == a + [e] + b;
      assert PreorderList(ts) == p + [last.item] + q;
      forall i | 0 <= i < |PreorderList(ts)|
        ensures MountList(ts, routeType, scope, kebab)[i].mounted == PreorderList(ts)[i].instance
      {
        if i < |a| {
          assert (a + [e] + b)[i] == a[i] && (p + [last.item] + q)[i] == p[i];
        } else if i > |a| {
          assert (a + [e] + b)[i] == b[i - |a| - 1] && (p + [last.item] + q)[i] == q[i - |a| - 1];
        }
      }
    }
  }

  /** An event lies strictly inside the groups `scope` and calls the hook
      of the route type. */
  predicate Within(e: Event, scope: seq<string>, routeType: string)
  {
    && |scope| < |e.scope|
    && e.scope[..|scope|] == scope
    && e.hook == HookFor(routeType)
  }

  /** Every group opened while mounting is nested inside the groups that
      were open when mounting began, and calls the hook of the route type
      only: `bootApiRoutes` for "api", `bootWebRoutes` for "web", none
      otherwise. */
  lemma {:induction false} MountNests(t: Tree<ModuleView>, routeType: string, scope: seq<string>, kebab: string -> string)
    ensures forall e :: e in Mount(t, routeType, scope, kebab) ==> Within(e, scope, routeType)
    decreases t, 1
  {
    MountListNests(t.kids, routeType, scope, kebab);
  }

  lemma {:induction false} MountListNests(ts: seq<Tree<ModuleView>>, routeType: string, scope: seq<string>, kebab: string -> string)
    ensures forall e :: e in MountList(ts, routeType, scope, kebab) ==> Within(e, scope, routeType)
    decreases ts, 0
  {
    if ts != [] {
      var init, last := ts[..|ts| - 1], ts[|ts| - 1];
      var nested := scope + [GroupPrefix(last.item, routeType, kebab)];
      MountListNests(init, routeType, scope, kebab);
      MountNests(last, routeType, nested, kebab);
      forall e | e in Mount(last, routeType, nested, kebab)
        ensures Within(e, scope, routeType)
      {
        assert Within(e, nested, routeType);
        assert e.scope[..|scope|] == e.scope[..|nested|][..|scope|];
      }
      assert nested[..|scope|] == scope;
    }
  }

  /** Once a class's registered instance has loaded its configuration,
      `config` looks up the module key, or the key, ".", and the name; with
      dot-free segments that path is the key's segments and the name. */
  lemma ConfigKeyPath(registry: Registry, cls: ModuleClass, name: string, kebab: string -> string)
    requires cls in registry.instances
    requires registry.instances[cls].configKey == Key(cls.namespace, kebab)
    ensures registry.ConfigKey(cls, None) == Ok(Key(cls.namespace, kebab))
    ensures registry.ConfigKey(cls, Some(name)) == Ok(Key(cls.namespace, kebab) + "." + name)
    ensures DotFree(cls.namespace, kebab) && '.' !in name ==>
      Split(registry.ConfigKey(cls, Some(name)).value, '.') == KeyParts(cls.namespace, kebab) + [name]
  {
    if DotFree(cls.namespace, kebab) && '.' !in name {
      var key := Key(cls.namespace, kebab);
      SplitAfterSep(key, name, '.');
      assert key + "." + name == key + ['.'] + name;
    }
  }

  /** Mounting a chain root -> a -> b whose two lower modules have no api
      prefix and the truthy segments `sa` and `sb` opens the group `sa` and
      inside it the group `sa`/`sb`, each calling `bootApiRoutes`. */
  lemma ChainMount(root: ModuleView, a: ModuleView, b: ModuleView, kebab: string -> string)
    requires a.apiPrefix == "" && b.apiPrefix == ""
    requires Truthy(a.routePrefix) && Truthy(b.routePrefix)
    ensures Mount(Node(root, [Node(a, [Node(b, [])])]), "api", [], kebab)
      == [Event([a.routePrefix], a.instance, ApiRoutes), Event([a.routePrefix, b.routePrefix], b.instance, ApiRoutes)]
  {
    var tb := Node(b, []);
    var ta := Node(a, [tb]);
    var pa, pb := a.routePrefix, b.routePrefix;
    assert GroupPrefix(a, "api", kebab) == pa;
    assert GroupPrefix(b, "api", kebab) == pb;
    assert [ta][..0] == [] && [tb][..0] == [];
    assert [] + [pa] == [pa] && [pa] + [pb] == [pa, pb];
    assert Mount(tb, "api", [pa, pb], kebab) == [];
    var eb := Event([pa, pb], b.instance, ApiRoutes);
    assert MountList([tb], "api", [pa], kebab) == [] + [eb] + [];
    assert Mount(ta, "api", [pa], kebab) == [eb];
    assert MountList([ta], "api", [], kebab) == [] + [Event([pa], a.instance, ApiRoutes)] + [eb];
  }

  /** `provide` of a class the container has not seen, on a module without
      children: the one child is a new module with the class's prefixes. */
  method ProvideFirst(parent: Module, cls: ModuleClass, app: App, registry: Registry, kebab: string -> string) returns (added: Module)
    requires app.Valid() && parent.children == [] && cls !in app.providers
    modifies parent`children, app, registry
    ensures parent.children == [added] && fresh(added) && added.cls == cls && added.children == []
    ensures added.apiRoutesPrefix == cls.apiPrefix && added.webRoutesPrefix == cls.webPrefix
    ensures added.routePrefix == cls.routePrefix
    ensures app.Valid() && app.providers == old(app.providers)[cls := added]
  {
    var _ := parent.Provide(cls, app, registry, kebab);
    added := parent.children[0];
  }

  /** Builds Root -> A (segment "a") -> B (segment "b") by `provide`. */
  method BuildChain(kebab: string -> string) returns (root: Module, a: Module, b: Module)
    ensures root.children == [a] && a.children == [b] && b.children == []
    ensures a.apiRoutesPrefix == "" && a.routePrefix == "a"
    ensures b.apiRoutesPrefix == "" && b.routePrefix == "b"
  {
    var registry := new Registry();
    var app := new App();
    root := new Module(ModuleClass("App\\Modules", "AppModule", "", "", ""), registry);
    var aClass := ModuleClass("App\\Modules\\A", "AModule", "", "", "a");
    var bClass := ModuleClass("App\\Modules\\A\\B", "BModule", "", "", "b");
    a := ProvideFirst(root, aClass, app, registry, kebab);
    assert bClass != aClass;
    b := ProvideFirst(a, bClass, app, registry, kebab);
  }

  /** A tree Root -> A (segment "a") -> B (segment "b") built by `provide`:
      mounting its api routes opens the group "a" and, inside it, "a/b",
      calling `bootApiRoutes` in each. */
  method NestedRoutes(kebab: string -> string) returns (events: seq<Event>)
    ensures |events| == 2
    ensures events[0].scope == ["a"] && events[1].scope == ["a", "b"]
    ensures Join(events[1].scope, '/') == "a/b"
    ensures events[0].hook == ApiRoutes && events[1].hook == ApiRoutes
  {
    var root, a, b := BuildChain(kebab);
    ghost var tb := Node(View(b), []);
    ghost var ta := Node(View(a), [tb]);
    ghost var t := Node(View(root), [ta]);
    assert IsShape(b, tb);
    assert IsShape(a, ta);
    assert IsShape(root, t);
    events := root.BootAllRoutes("api", [], kebab, t);
    ChainMount(View(root), View(a), View(b), kebab);
  }

  /** `config` fails with "Module not initialized" before a class has an
      instance and, once a parent has provided it, reads the class's key
      followed by the name. */
  method ConfigLifecycle(kebab: string -> string) returns (before: Result<string>, after: Result<string>)
    ensures before == Err(NotInitialized)
    ensures after == Ok(Key("App\\Modules\\Billing", kebab) + "." + "currency")
  {
    var registry := new Registry();
    var app := new App();
    var root := new Module(ModuleClass("App\\Modules", "AppModule", "", "", ""), registry);
    var billing := ModuleClass("App\\Modules\\Billing", "BillingModule", "", "", "");
    before := registry.ConfigKey(billing, Some("currency"));
    var _ := root.Provide(billing, app, registry, kebab);
    after := registry.ConfigKey(billing, Some("currency"));
  }

  /** Of two modules constructed for one class, the registry keeps the
      first; `setInstance` afterwards replaces it. */
  method FirstInstanceWins(cls: ModuleClass) returns (kept: Module, replaced: Module, first: Module, second: Module)
    ensures first != second
    ensures kept == first
    ensures replaced == second
  {
    var registry := new Registry();
    first := new Module(cls, registry);
    second := new Module(cls, registry);
    kept := registry.GetInstance(cls).value;
    registry.SetInstance(second);
    replaced := registry.GetInstance(cls).value;
  }

  /** Nothing stops a registered module from providing its own class: the
      container hands back the module itself, which becomes its own child.
      From then on the module has no tree, and the recursive walks over its
      children never end. */
  method SelfProvide(cls: ModuleClass, kebab: string -> string) returns (root: Module)
    ensures root.children == [root]
    ensures forall t: Tree<ModuleView> :: !IsShape(root, t)
  {
    var registry := new Registry();
    var app := new App();
    root := app.Register(cls, registry);
    var _ := root.Provide(cls, app, registry, kebab);
    assert Reaches(root.children[0], root, 0);
    assert Reaches(root, root, 1);
    forall t: Tree<ModuleView>
      ensures !IsShape(root, t)
    {
      CycleHasNoShape(root, 1, t);
    }
  }
}

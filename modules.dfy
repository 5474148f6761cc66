/** The module tree: the process-wide instance registry, the framework's
    provider container, and `Module` objects whose children lists grow by
    registration and are walked to list modules and to mount routes. */
module Modules {
  import opened Text
  import opened Naming
  import opened Routing
  import opened Trees

  datatype Option<T> = None | Some(value: T)

  datatype Result<T> = Ok(value: T) | Err(error: string)

  /** The message of the exception `config` throws. */
  const NotInitialized := "Module not initialized"

  /** What one module looks like at one moment: the object, its class and
      its three route-prefix properties. */
  datatype ModuleView = ModuleView(
    instance: Module,
    cls: ModuleClass,
    apiPrefix: string,
    webPrefix: string,
    routePrefix: string)

  /** One row of `renderList`: the module's key, class and instance. */
  datatype Entry = Entry(key: string, cls: ModuleClass, instance: Module)

  /** One router group opened while mounting routes: the stack of prefixes
      of the groups it is nested in (its own last), the module whose routes
      are declared in it, and the declaration hook called there. */
  datatype Event = Event(scope: seq<string>, mounted: Module, hook: Hook)

  /** The static `$instances` map, keyed by class. */
  class Registry {
    var instances: map<ModuleClass, Module>

    constructor ()
      ensures instances == map[]
    {
      instances := map[];
    }

    /** `getInstance`: the instance registered for a class, if any. */
    function GetInstance(cls: ModuleClass): (r: Option<Module>)
      reads this
      ensures r.Some? <==> cls in instances
      ensures r.Some? ==> r.value == instances[cls]
    {
      if cls in instances then Some(instances[cls]) else None
    }

    /** `setInstance`: registers a module under its own class,
        replacing any earlier entry for that class. */
    method SetInstance(m: Module)
      modifies this
      ensures instances == old(instances)[m.cls := m]
    {
      instances := instances[m.cls := m];
    }

    /** The configuration path `config` looks up: an error when no instance
        of the class is registered, otherwise the instance's config key,
        followed by "." and the name when one is given. */
    function ConfigKey(cls: ModuleClass, name: Option<string>): (r: Result<string>)
      reads this, instances.Values
      ensures r.Err? <==> cls !in instances
      ensures r.Err? ==> r.error == NotInitialized
      ensures cls in instances && name.None? ==> r.value == instances[cls].configKey
      ensures cls in instances && name.Some? ==> r.value == instances[cls].configKey + "." + name.value
    {
      match GetInstance(cls)
      case None => Err(NotInitialized)
      case Some(m) =>
        match name
        case None => Ok(m.configKey)
        case Some(n) => Ok(m.configKey + "." + n)
    }

    /** `config($name, $default)`: the value stored under the configuration
        path, or the default when nothing is stored there. */
    function Config<V>(cls: ModuleClass, name: Option<string>, default: V, store: map<string, V>): (r: Result<V>)
      reads this, instances.Values
      ensures r.Err? <==> cls !in instances
      ensures r.Err? ==> r.error == NotInitialized
      ensures r.Ok? ==> var path := ConfigKey(cls, name).value;
        r.value == if path in store then store[path] else default
    {
      match ConfigKey(cls, name)
      case Err(e) => Err(e)
      case Ok(path) => Ok(if path in store then store[path] else default)
    }
  }

  /** The framework's provider container, as far as registration goes: it
      constructs a provider once per class and afterwards hands back the
      one it has. */
  class App {
    var providers: map<ModuleClass, Module>

    /** Every provider is kept under its own class. */
    predicate Valid()
      reads this
    {
      forall k :: k in providers ==> providers[k].cls == k
    }

    constructor ()
      ensures providers == map[] && Valid()
    {
      providers := map[];
    }

    /** `$app->register($moduleClass)`. */
    method Register(cls: ModuleClass, registry: Registry) returns (m: Module)
      requires Valid()
      modifies this, registry
      ensures Valid() && m.cls == cls
      ensures cls in providers && m == providers[cls]
      ensures cls in old(providers) ==>
        && m == old(providers[cls])
        && providers == old(providers)
        && registry.instances == old(registry.instances)
      ensures cls !in old(providers) ==>
        && fresh(m) && m.cls == cls && m.children == [] && m.configKey == ""
        && m.apiRoutesPrefix == cls.apiPrefix && m.webRoutesPrefix == cls.webPrefix && m.routePrefix == cls.routePrefix
        && providers == old(providers)[cls := m]
        && registry.instances == if cls in old(registry.instances) then old(registry.instances)
                                 else old(registry.instances)[cls := m]
    {
      if cls in providers {
        m := providers[cls];
      } else {
        m := new Module(cls, registry);
        providers := providers[cls := m];
      }
    }
  }

  class Module {
    const cls: ModuleClass
    var configKey: string
    var children: seq<Module>
    var apiRoutesPrefix: string
    var webRoutesPrefix: string
    var routePrefix: string

    /** A new module takes its class's declared prefixes and registers
        itself only when its class has no instance yet: the first one
        constructed wins. */
    constructor (cls: ModuleClass, registry: Registry)
      modifies registry
      ensures this.cls == cls && configKey == "" && children == []
      ensures apiRoutesPrefix == cls.apiPrefix && webRoutesPrefix == cls.webPrefix && routePrefix == cls.routePrefix
      ensures registry.instances == if cls in old(registry.instances) then old(registry.instances)
                                    else old(registry.instances)[cls := this]
    {
      this.cls := cls;
      configKey := "";
      children := [];
      apiRoutesPrefix := cls.apiPrefix;
      webRoutesPrefix := cls.webPrefix;
      routePrefix := cls.routePrefix;
      new;
      if registry.GetInstance(cls).None? {
        registry.SetInstance(this);
      }
    }

    /** The part of `loadConfigs` this model keeps: the config key becomes
        the module's key. */
    method LoadConfigs(kebab: string -> string)
      modifies this`configKey
      ensures configKey == Key(cls.namespace, kebab)
    {
      configKey := Key(cls.namespace, kebab);
    }

    /** `provide($moduleClass)`: construct a module of the class and load its
        configuration, register the class with the container, and append
        the container's instance, not the one constructed here, to the
        children. The one constructed here is returned; it is a distinct
        object, and it is the registry's entry when the class had none. */
    method Provide(child: ModuleClass, app: App, registry: Registry, kebab: string -> string) returns (constructed: Module)
      requires app.Valid()
      modifies this`children, app, registry
      ensures fresh(constructed) && constructed.cls == child && constructed.configKey == Key(child.namespace, kebab)
      ensures |children| == |old(children)| + 1 && children[..|old(children)|] == old(children)
      ensures child in app.providers && children[|children| - 1] == app.providers[child]
      ensures app.Valid() && children[|children| - 1].cls == child
      ensures child in old(app.providers) ==> children[|children| - 1] == old(app.providers[child])
      ensures child !in old(app.providers) ==>
        var added := children[|children| - 1];
        && fresh(added) && added.cls == child && added.children == [] && added.configKey == ""
        && added.apiRoutesPrefix == child.apiPrefix && added.webRoutesPrefix == child.webPrefix
        && added.routePrefix == child.routePrefix
      ensures app.providers == if child in old(app.providers) then old(app.providers)
                               else old(app.providers)[child := children[|children| - 1]]
      ensures registry.instances == if child in old(registry.instances) then old(registry.instances)
                                    else old(registry.instances)[child := constructed]
      ensures constructed != children[|children| - 1]
    {
      constructed := new Module(child, registry);
      constructed.LoadConfigs(kebab);
      var registered := app.Register(child, registry);
      children := children + [registered];
    }

    /** `renderList`: this module's entry, then each child's list in child
        order, so one entry per node of the tree `t` the children links
        form below this module, in pre-order. */
    method RenderList(kebab: string -> string, ghost t: Tree<ModuleView>) returns (list: seq<Entry>)
      requires IsShape(this, t)
      ensures list == Entries(Preorder(t), kebab)
      ensures |list| == Size(t) && list[0].instance == this
      decreases t
    {
      list := [Entry(Key(cls.namespace, kebab), cls, this)];
      var i := 0;
      while i < |children|
        invariant 0 <= i <= |children| && IsShape(this, t)
        invariant list == Entries([t.item] + PreorderList(t.kids[..i]), kebab)
      {
        var childList := children[i].RenderList(kebab, t.kids[i]);
        RenderStep(t.item, t.kids, i, list, childList, kebab);
        list := list + childList;
        i := i + 1;
      }
      assert t.kids[..|children|] == t.kids;
      PreorderSize(t);
    }

    /** `bootAllRoutes($type)`: for each child in order, open a router group
        whose prefix is the child's type prefix followed by its own segment,
        and run the group's callback (`MountGroup`) for the child inside it.
        `scope` is the stack of groups already open. */
    method BootAllRoutes(routeType: string, scope: seq<string>, kebab: string -> string, ghost t: Tree<ModuleView>) returns (events: seq<Event>)
      requires IsShape(this, t)
      ensures events == Mount(t, routeType, scope, kebab)
      decreases t, 0
    {
      events := [];
      for i := 0 to |children|
        invariant IsShape(this, t)
        invariant events == MountList(t.kids[..i], routeType, scope, kebab)
      {
        var m := children[i];
        var customPrefix := RoutePrefix(routeType, m.apiRoutesPrefix, m.webRoutesPrefix);
        var modulePrefix := PrefixForCurrent(m.routePrefix, m.cls.shortName, kebab);
        var prefix := customPrefix + modulePrefix;
        assert prefix == GroupPrefix(t.kids[i].item, routeType, kebab);
        var group := m.MountGroup(routeType, scope + [prefix], kebab, t.kids[i]);
        MountStep(t.kids, i, routeType, scope, kebab, events, prefix, group);
        events := events + group;
      }
      assert t.kids[..|children|] == t.kids;
    }

    /** The callback of the router group opened for this module: call the
        hook for the route type ("api": `bootApiRoutes`, "web":
        `bootWebRoutes`, otherwise none), then mount this module's own
        children inside the same group. */
    method MountGroup(routeType: string, scope: seq<string>, kebab: string -> string, ghost t: Tree<ModuleView>) returns (events: seq<Event>)
      requires IsShape(this, t)
      ensures events == [Event(scope, this, HookFor(routeType))] + Mount(t, routeType, scope, kebab)
      decreases t, 1
    {
      var hook := NoRoutes;
      if routeType == "api" {
        hook := ApiRoutes;
      }
      if routeType == "web" {
        hook := WebRoutes;
      }
      var nested := BootAllRoutes(routeType, scope, kebab, t);
      events := [Event(scope, this, hook)] + nested;
    }
  }

  function View(m: Module): ModuleView
    reads m
  {
    ModuleView(m, m.cls, m.apiRoutesPrefix, m.webRoutesPrefix, m.routePrefix)
  }

  /** `t` is the tree the children links form below `m`: its root is `m`'s
      view and its subtrees are those of `m`'s children, in order. A module
      shared by two parents appears once on each path to it. Such a tree is
      finite, so a module that has one lies on no cycle (`ShapeIsAcyclic`). */
  ghost predicate IsShape(m: Module, t: Tree<ModuleView>)
    reads *
    decreases t
  {
    && t.item == View(m)
    && |t.kids| == |m.children|
    && forall i :: 0 <= i < |t.kids| ==> IsShape(m.children[i], t.kids[i])
  }

  /** `b` is reached from `a` by following `n` children links. */
  ghost predicate Reaches(a: Module, b: Module, n: nat)
    reads *
    decreases n
  {
    if n == 0 then a == b
    else exists i :: 0 <= i < |a.children| && Reaches(a.children[i], b, n - 1)
  }

  /** The structure below a module determines its tree. */
  lemma {:induction false} ShapeUnique(m: Module, t1: Tree<ModuleView>, t2: Tree<ModuleView>)
    requires IsShape(m, t1) && IsShape(m, t2)
    ensures t1 == t2
    decreases t1
  {
    forall i | 0 <= i < |t1.kids|
      ensures t1.kids[i] == t2.kids[i]
    {
      ShapeUnique(m.children[i], t1.kids[i], t2.kids[i]);
    }
    assert t1.kids == t2.kids;
  }

  /** A module reached in `n` steps has a tree at least `n` levels lower. */
  lemma {:induction false} ReachDescends(a: Module, b: Module, n: nat, t: Tree<ModuleView>) returns (s: Tree<ModuleView>)
    requires IsShape(a, t) && Reaches(a, b, n)
    ensures IsShape(b, s) && Height(s) + n <= Height(t)
    decreases n
  {
    if n == 0 {
      s := t;
    } else {
      var i :| 0 <= i < |a.children| && Reaches(a.children[i], b, n - 1);
      KidHeight(t, i);
      s := ReachDescends(a.children[i], b, n - 1, t.kids[i]);
    }
  }

  /** The only path from a module that has a tree back to itself is the
      empty one: the walks from it terminate. */
  lemma ShapeIsAcyclic(m: Module, n: nat, t: Tree<ModuleView>)
    requires Reaches(m, m, n)
    ensures IsShape(m, t) ==> n == 0
  {
    if IsShape(m, t) {
      var s := ReachDescends(m, m, n, t);
      ShapeUnique(m, s, t);
    }
  }

  /** A module on a cycle of children links has no tree, so the walks are
      not defined on it. */
  lemma CycleHasNoShape(m: Module, n: nat, t: Tree<ModuleView>)
    requires Reaches(m, m, n) && n > 0
    ensures !IsShape(m, t)
  {
    ShapeIsAcyclic(m, n, t);
  }

  function EntryOf(v: ModuleView, kebab: string -> string): Entry
  {
    Entry(Key(v.cls.namespace, kebab), v.cls, v.instance)
  }

  /** One entry per listed module, in order. */
  function Entries(vs: seq<ModuleView>, kebab: string -> string): seq<Entry>
  {
    seq(|vs|, i requires 0 <= i < |vs| => EntryOf(vs[i], kebab))
  }

  lemma EntriesAppend(a: seq<ModuleView>, b: seq<ModuleView>, kebab: string -> string)
    ensures Entries(a + b, kebab) == Entries(a, kebab) + Entries(b, kebab)
  {
    var l, r := Entries(a + b, kebab), Entries(a, kebab) + Entries(b, kebab);
    forall i | 0 <= i < |l| ensures l[i] == r[i] {
      if i < |a| { assert (a + b)[i] == a[i]; } else { assert (a + b)[i] == b[i - |a|]; }
    }
  }

  /** One more child listed: its entries follow those already listed. */
  lemma RenderStep(root: ModuleView, ts: seq<Tree<ModuleView>>, i: nat, done: seq<Entry>, next: seq<Entry>, kebab: string -> string)
    requires i < |ts|
    requires done == Entries([root] + PreorderList(ts[..i]), kebab)
    requires next == Entries(Preorder(ts[i]), kebab)
    ensures done + next == Entries([root] + PreorderList(ts[..i + 1]), kebab)
  {
    var a, b := [root] + PreorderList(ts[..i]), Preorder(ts[i]);
    assert ts[..i + 1] == ts[..i] + [ts[i]];
    PreorderListSnoc(ts[..i], ts[i]);
    assert [root] + (PreorderList(ts[..i]) + b) == a + b;
    EntriesAppend(a, b, kebab);
  }

  /** The group prefix of a child: its type prefix and its own segment. */
  function GroupPrefix(v: ModuleView, routeType: string, kebab: string -> string): string
  {
    RoutePrefix(routeType, v.apiPrefix, v.webPrefix) + PrefixForCurrent(v.routePrefix, v.cls.shortName, kebab)
  }

  /** The router groups opened when the routes below a tree's root are
      mounted inside the groups `scope`. */
  function Mount(t: Tree<ModuleView>, routeType: string, scope: seq<string>, kebab: string -> string): seq<Event>
    decreases t, 1
  {
    MountList(t.kids, routeType, scope, kebab)
  }

  /** Each child in order: its own group, then the groups below it. */
  function MountList(ts: seq<Tree<ModuleView>>, routeType: string, scope: seq<string>, kebab: string -> string): seq<Event>
    decreases ts, 0
  {
    if ts == [] then []
    else
      var last := ts[|ts| - 1];
      var nested := scope + [GroupPrefix(last.item, routeType, kebab)];
      MountList(ts[..|ts| - 1], routeType, scope, kebab)
        + [Event(nested, last.item.instance, HookFor(routeType))]
        + Mount(last, routeType, nested, kebab)
  }

  /** One more child mounted: its group event, then the events below it. */
  lemma MountStep(ts: seq<Tree<ModuleView>>, i: nat, routeType: string, scope: seq<string>, kebab: string -> string,
                  done: seq<Event>, prefix: string, group: seq<Event>)
    requires i < |ts|
    requires done == MountList(ts[..i], routeType, scope, kebab)
    requires prefix == GroupPrefix(ts[i].item, routeType, kebab)
    requires group == [Event(scope + [prefix], ts[i].item.instance, HookFor(routeType))] + Mount(ts[i], routeType, scope + [prefix], kebab)
    ensures done + group == MountList(ts[..i + 1], routeType, scope, kebab)
  {
    assert ts[..i + 1][..i] == ts[..i];
  }
}

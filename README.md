# salodev/modularize: the module tree in Dafny

`salodev/modularize` organises a Laravel application into modules. A module is
a service provider class whose name ends in `Module`. Modules form a tree: a
parent calls `provide` for each child class, which constructs the child, loads
its configuration, registers it with the framework's container and appends
the container's instance to the parent's `children`. From a module's class come:

- its name (`getName`);
- its configuration and view key (`getKey`, for example `app.billing.invoices`);
- its root namespace (`getRootNamespace`);
- its two route prefixes (`getRoutePrefix`, `getRoutePrefixForCurrent`).

Three operations work on the tree:

- `renderList` lists the tree.
- `bootAllRoutes` mounts every module's routes inside nested router groups.
- `config` reads a module's settings through a process-wide registry of one
  instance per class.

The project models `src/Module.php`:

- `text.dfy` (module `Text`): the PHP string primitives the naming code uses.
  These are `explode`, `implode`, single-character `str_replace` and `dirname`,
  which follows PHP's own algorithm.
- `naming.dfy` (module `Naming`): the class descriptor that replaces
  reflection, plus `getName`, `getKey` and `getRootNamespace`.
- `routing.dfy` (module `Routing`): PHP string truthiness, `getRoutePrefix`,
  `getRoutePrefixForCurrent`, and which hook a route type calls.
- `trees.dfy` (module `Trees`): finite trees with their size, pre-order listing
  and height.
- `modules.dfy` (module `Modules`): the registry, the container and `Module`.
  - Each is a class whose methods update its fields.
  - `renderList` and `bootAllRoutes` are loops over `children` that recurse
    into each child.
  - Each walk takes a ghost tree `t` (`IsShape(this, t)`) describing the
    object structure below the module. The walk is proved equal to a function
    of that tree, and the tree also gives termination.
- `properties.dfy` (module `ModuleFacts`): lemmas about the walks and about
  configuration paths, and three scenarios built from real objects.

Three pieces of the outside world become parameters or classes:

- The kebab-case conversion comes from a third-party helper. It is a function
  parameter `kebab`, and nothing is assumed about it.
- The router becomes an event log. Opening a group pushes its prefix onto the
  `scope` parameter. Each module mounted records one `Event(scope, module,
  hook)`.
- The container's `register` becomes `App.Register`. It constructs a provider
  once per class and afterwards returns that same provider. `App.Valid` keeps
  every provider under its own class.

The registry follows the code.

- A module's constructor writes its class's entry only when there is none, so
  the first module constructed wins.
- `setInstance` overwrites the entry.
- `provide` returns the module it constructed itself. That is not the child
  it appends, which is the container's instance. When the class had no
  registry entry, the constructed module is the one that becomes the entry.

## Model

| member | source | states |
|---|---|---|
| Text.Split | src/Module.php:227 | `explode` always yields at least one piece |
| Text.SplitFree | src/Module.php:227 | no piece of `explode` contains the separator |
| Text.JoinSplit | src/Module.php:227-235 | `implode` of the `explode` pieces gives back the string, and no piece contains the separator |
| Text.Join | src/Module.php:235 | `implode` of at least one piece starts with the first piece |
| Text.SplitJoin | src/Module.php:227-235 | splitting glued separator-free pieces gives back exactly those pieces |
| Text.JoinCount | src/Module.php:235 | gluing n separator-free pieces puts exactly n - 1 separators in the result |
| Text.Translate | src/Module.php:139-141 | single-character `str_replace` keeps the length, and no occurrence of the replaced character is left when it differs from its replacement |
| Text.TranslateCount | src/Module.php:139-141 | the result holds the input's occurrences of the replacement plus those of the replaced character, and every other character as often as the input |
| Text.TranslateAppend | src/Module.php:139-141 | replacing distributes over concatenation |
| Text.TranslateBack | src/Module.php:139-141 | replacing a character and then replacing back is the identity when the replacement did not occur |
| Text.Dirname | src/Module.php:140 | `dirname` of the empty path is empty; of any other path it is the root, ".", or a strictly shorter prefix of the path that does not end in a separator |
| Text.DirnameOfChild | src/Module.php:140 | `dirname` of `dir/file` is `dir` |
| Text.DirnameOfBare | src/Module.php:140 | `dirname` of a name without separators is "." |
| Naming.Name | src/Module.php:215-223 | `getName` keeps the short name, or drops exactly a final "Module"; it drops something exactly when the name ends in "Module" |
| Naming.NameStripsOnce | src/Module.php:215-223 | a name ending in "Module" loses that suffix only once, even when what remains ends in "Module" |
| Naming.KeyParts | src/Module.php:225-234 | the key segments are "app" followed by the kebab-cased namespace segments from the third on, in their original order |
| Naming.Key | src/Module.php:225-237 | the key starts with "app"; it is exactly "app" for at most two namespace segments; with dot-free segments it splits on "." back into its parts and has max(n - 2, 0) dots |
| Naming.RootNamespaceOfClass | src/Module.php:136-144 | the root namespace of a class is the namespace it is declared in, or "." in the global namespace |
| Routing.RoutePrefix | src/Module.php:191-203 | "api" gives the api prefix and "/" when that prefix is truthy, else "", whatever the web prefix; "web" likewise with the web prefix only; any other type gives ""; a non-empty result is a truthy prefix followed by one "/" |
| Routing.PrefixForCurrent | src/Module.php:205-213 | the segment is the override or the kebab-cased name; an override of "" or "0" always gives the kebab-cased name |
| Routing.PrefixForCurrentCases | src/Module.php:205-213 | a truthy override is used verbatim whatever the name; "0" behaves exactly like ""; `XModule` without an override gives kebab(`X`) |
| Routing.HookFor | src/Module.php:180-185 | `bootApiRoutes` is called exactly for "api", `bootWebRoutes` exactly for "web", and neither for any other type |
| Trees.PreorderSize | src/Module.php:65-81 | a pre-order listing has one item per node and starts with the root |
| Modules.Registry.GetInstance | src/Module.php:83-90 | an instance is found exactly when the class has an entry, and it is that entry |
| Modules.Registry.SetInstance | src/Module.php:92-95 | the module's class now maps to the module and every other class's entry is as before |
| Modules.Registry.ConfigKey | src/Module.php:98-114 | fails with "Module not initialized" exactly when the class has no entry; otherwise gives the entry's config key, or the key, ".", and the name |
| Modules.Registry.Config | src/Module.php:98-114 | fails with "Module not initialized" exactly when the class has no entry; otherwise gives the configured value at the path, or the default |
| Modules.App.Register | src/Module.php:123 | the result is the provider kept for the class, and its class is that class; a class's first registration creates a fresh module with no children that registers itself if its class has no entry; later registrations return that module and change nothing |
| Modules.Module.constructor | src/Module.php:29-37 | a new module has the class's prefixes and no children; it becomes the registry entry only when its class had none, and every other entry is unchanged |
| Modules.Module.LoadConfigs | src/Module.php:54-63 | the config key becomes the module's key |
| Modules.Module.Provide | src/Module.php:119-125 | children grows by exactly one, earlier children are unchanged, and the new last child is the container's instance for the class, whose class is the provided one (the existing provider, or a fresh one); the returned module is a fresh distinct module with its config key loaded, and it is the registry entry if the class had none |
| Modules.Module.RenderList | src/Module.php:65-81 | the list is the module's own entry followed by its children's lists in child order: the pre-order listing of the tree below it, one entry per node |
| Modules.Module.BootAllRoutes | src/Module.php:170-189 | the groups opened are exactly the mount of the tree below the module: each child in order gets a group whose prefix is its type prefix followed by its own segment, nested in the current groups, with its own children mounted inside it |
| Modules.Module.MountGroup | src/Module.php:179-187 | a group's callback calls the route type's hook for the module, then mounts the module's children inside the same group |
| Modules.ShapeUnique | src/Module.php:170-189 | the object structure below a module determines its tree |
| Modules.ReachDescends | src/Module.php:170-189 | a module reached in n steps of children links has a tree at least n levels lower |
| Modules.ShapeIsAcyclic | src/Module.php:170-189 | a module that has a finite tree lies on no cycle of children links, so the recursive walks terminate |
| Modules.CycleHasNoShape | src/Module.php:65-81 | a module on a cycle of children links has no finite tree, so the walks are not defined on it |
| Modules.EntriesAppend | src/Module.php:77 | listing two lists one after the other is concatenating their entries (`array_merge`) |
| Modules.RenderStep | src/Module.php:75-78 | after one more child is listed, the list is the pre-order listing up to and including that child |
| Modules.MountStep | src/Module.php:172-188 | after one more child is mounted, the events are the mount of the children up to and including that child |
| ModuleFacts.MountIsPreorder | src/Module.php:170-189 | mounting opens one group per node strictly below the module, once per path to it, in pre-order: each child in insertion order, followed at once by everything below it |
| ModuleFacts.MountListIsPreorder | src/Module.php:172-188 | mounting a sequence of children opens one group per node of their pre-order listing, in that order |
| ModuleFacts.MountNests | src/Module.php:170-189 | every group opened is strictly nested inside the groups open when mounting began, and calls only the route type's hook |
| ModuleFacts.MountListNests | src/Module.php:172-188 | the same nesting and hook property for a sequence of children |
| ModuleFacts.ChainMount | src/Module.php:170-189 | for a chain root, a, b with truthy segments and no api prefixes, mounting api routes opens group `a`, then group `a`/`b` inside it, each calling `bootApiRoutes` |
| ModuleFacts.ConfigKeyPath | src/Module.php:98-114 | once the entry has loaded its configuration, `config` reads the module key, or the key, ".", and the name; with dot-free segments that path's "."-segments are the key's segments followed by the name |
| ModuleFacts.ProvideFirst | src/Module.php:119-125 | providing a class the container has not seen, to a module without children, gives it exactly one fresh child of that class with the class's api, web and route prefixes |
| ModuleFacts.BuildChain | src/Module.php:119-125 | two `provide` steps build the chain Root -> A -> B with the declared segments |
| ModuleFacts.NestedRoutes | src/Module.php:170-189 | on the chain built by `provide`, the api routes are mounted in the groups "a" and "a/b", both calling `bootApiRoutes` |
| ModuleFacts.ConfigLifecycle | src/Module.php:98-125 | `config` fails with "Module not initialized" before the class is provided, and afterwards reads the key of the class's namespace followed by the name |
| ModuleFacts.FirstInstanceWins | src/Module.php:29-37 | of two modules constructed for one class, the registry keeps the first; `setInstance` then replaces it with the second |
| ModuleFacts.SelfProvide | src/Module.php:119-125 | a registered module that provides its own class becomes its own only child, and from then on it has no finite tree |

## Left out

- `src/ModulesServiceProvider.php` is not part of this model. It checks files, publishes assets and hands the tree's api routes to the framework router under a literal `api` prefix.
- `src/CaseHelper.php` is not part of this model. Kebab-casing belongs to a third-party library and is the uninterpreted parameter `kebab`.
- `boot`, `bootCommands`, `bootSchedule`, `bootViews` and `view` are left out. They load migrations, commands, schedules and views through the filesystem and the framework.
- `getRootPath` and `getMigrationsPath` are left out. They depend on `app_path` and on real directories.
- `router`, `console`, `scheduler`, `onRouter` and `onSchedule` are left out. They resolve framework services. The router's group stack is the `scope` parameter of the walks.
- The bodies of `bootApiRoutes` and `bootWebRoutes` are left out. They are empty extension points, recorded as the `hook` of each event.
- Modules.Module.LoadConfigs: does not model the file check on `config.php` or `mergeConfigFrom`, which use the filesystem.
- Modules.Registry.Config: Laravel's nested-array dotted lookup is a flat map from full paths to values, given as a parameter.
- Modules.Registry.ConfigKey: leaves out the `is_null($module->configKey)` branch. The property is a non-null string that starts as "", so that branch can never run.
- Modules.Registry.GetInstance: takes the class explicitly instead of using late static binding (`static::class`).
- Modules.Module.RenderList: entries leave out the `path` field, which comes from `getRootPath`.
- Modules.Module.BootAllRoutes: the default route type `'api'` is not modelled, so callers always pass the type. The router's trimming and joining of slashes in nested prefixes is not modelled, so a group's scope is the stack of raw prefixes.
- Modules.Module.constructor: `parent::__construct($app)` only stores the container and is not modelled.
- Modules.App.Register: the container's provider lifecycle is not modelled. That covers calling `register()`, booting when the application is already booted, and matching an existing provider by `instanceof`. Registration is construct-once-per-class.
- Modules.Module.Provide: dynamic instantiation (`new $moduleClass`) takes a class descriptor, and reflection is replaced by the descriptor's fields.
- Naming.RootNamespace: assumes a Unix host, where `DIRECTORY_SEPARATOR` is "/". On Windows, `dirname` also treats "\" and drive letters specially.
- Modules.Module.RenderList: requires the module to have a finite tree below it (`IsShape`). The PHP code has no such guard, and on a cycle of children links it recurses without end; see "## Findings".
- Modules.Module.BootAllRoutes: requires a finite tree below the module for the same reason.
- Naming.RootNamespace: is a reference definition without a contract of its own; Naming.RootNamespaceOfClass states its meaning.
- Modules.Mount: is the reference definition for `bootAllRoutes`, without a contract of its own; ModuleFacts.MountIsPreorder and ModuleFacts.MountNests state its meaning.
- Modules.MountList: likewise, with ModuleFacts.MountListIsPreorder and ModuleFacts.MountListNests.

## Findings

| source | as written | input that shows it | evidently intended | confidence | as-written member | corrected member |
|---|---|---|---|---|---|---|
| src/Module.php:119-125 | `provide` appends whatever the container returns for the class, with no check that this is not the module itself or one of its ancestors, and `renderList` (lines 75-76) and `bootAllRoutes` (lines 172-186) follow `children` without a visited set | after the root module is registered with the container, calling `provide` on it with its own class makes it its own child; `renderList` and `bootAllRoutes` then recurse without end | the children links form a finite tree, so every walk ends | not executed; the container's registration lifecycle, which is not modelled, may turn a cycle created during `register()` into endless registration instead | ModuleFacts.SelfProvide | Modules.ShapeIsAcyclic |

/** Route prefixes of a module: the per-type prefix and the module's own
    path segment. */
module Routing {
  import opened Naming

  /** PHP truthiness of a string: only "" and "0" are false. */
  predicate Truthy(s: string)
  {
    s != "" && s != "0"
  }

  /** `getRoutePrefix($type)`: the prefix configured for the route type
      ("api" reads only the api prefix, "web" only the web prefix, anything
      else nothing), followed by "/" when it is truthy, otherwise "". A
      non-empty result is a truthy prefix and one "/". */
  function RoutePrefix(routeType: string, apiPrefix: string, webPrefix: string): (r: string)
    ensures routeType == "api" ==> r == if Truthy(apiPrefix) then apiPrefix + "/" else ""
    ensures routeType == "web" ==> r == if Truthy(webPrefix) then webPrefix + "/" else ""
    ensures routeType != "api" && routeType != "web" ==> r == ""
    ensures r != "" ==> |r| >= 2 && r[|r| - 1] == '/' && Truthy(r[..|r| - 1])
  {
    // The PHP code makes two independent checks, of which at most one holds.
    var selected := if routeType == "api" then apiPrefix else if routeType == "web" then webPrefix else "";
    if Truthy(selected) then
      assert (selected + "/")[..|selected|] == selected;
      selected + "/"
    else ""
  }

  /** `getRoutePrefixForCurrent`: the explicit override when truthy,
      otherwise the kebab-cased module name, so an override of "0" falls
      back to the name just as an empty one does. */
  function PrefixForCurrent(routePrefix: string, shortName: string, kebab: string -> string): (r: string)
    ensures r == routePrefix || r == kebab(Name(shortName))
    ensures routePrefix == "0" || routePrefix == "" ==> r == kebab(Name(shortName))
  {
    if Truthy(routePrefix) then routePrefix else kebab(Name(shortName))
  }

  /** A truthy override is used verbatim and the name is then irrelevant;
      without one, a module class `XModule` gets the segment kebab(`X`). */
  lemma PrefixForCurrentCases(routePrefix: string, shortName: string, otherName: string, kebab: string -> string)
    ensures Truthy(routePrefix) ==>
      PrefixForCurrent(routePrefix, shortName, kebab) == routePrefix == PrefixForCurrent(routePrefix, otherName, kebab)
    ensures PrefixForCurrent("0", shortName, kebab) == PrefixForCurrent("", shortName, kebab)
    ensures PrefixForCurrent("", shortName + Suffix, kebab) == kebab(shortName)
  {
    NameStripsOnce(shortName);
  }

  /** Which route-declaration hook a walk calls on each module. */
  datatype Hook = ApiRoutes | WebRoutes | NoRoutes

  /** "api" calls `bootApiRoutes`, "web" calls `bootWebRoutes`, any other
      type calls neither. */
  function HookFor(routeType: string): (k: Hook)
    ensures k == ApiRoutes <==> routeType == "api"
    ensures k == WebRoutes <==> routeType == "web"
    ensures k == NoRoutes <==> routeType != "api" && routeType != "web"
  {
    if routeType == "api" then ApiRoutes else if routeType == "web" then WebRoutes else NoRoutes
  }
}

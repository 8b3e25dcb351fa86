/**
 * The hash router of js/router.js: the routes table, the not-found handler and the
 * signed-in user held by the module, and the decision `handleRoute` takes for the
 * current `location.hash`: render a route, redirect to the login page, or report an
 * unknown route. Rendering itself belongs to the callers and is not modelled.
 */
module Router {
  import opened Wrappers

  datatype User = User(uid: string)

  /** One entry of the routes table; its `render` function is what a Render decision calls. */
  datatype RouteDef = RouteDef(requiresAuth: bool)

  /** The argument `render` receives: `{ user: currentUser, params: {} }`. */
  datatype Context = Context(user: Option<User>, params: map<string, string>)

  /** The one effect `handleRoute` has. */
  datatype Decision =
    | NotFound(route: string)          // onNotFound(route)
    | NoHandler                        // unknown route and no handler: nothing happens
    | Redirect(path: string)           // navigate(path)
    | Render(route: string, ctx: Context)
    | Throws                           // a TypeError escapes the handler

  /** `location.hash.replace(/^#/, '') || '/'`. */
  function GetHash(hash: string): (r: string)
    ensures r != []
    ensures |hash| > 1 && hash[0] == '#' ==> r == hash[1..]
    ensures (hash == [] || hash == "#") ==> r == "/"
    ensures hash != [] && hash[0] != '#' ==> r == hash
  {
    var rest := if hash != [] && hash[0] == '#' then hash[1..] else hash;
    if rest == [] then "/" else rest
  }

  /** The value `location.hash` reads back after `location.hash = path`. */
  function Navigate(path: string): string
  {
    if path == [] then [] else if path[0] == '#' then path else "#" + path
  }

  /** Navigating to a path that does not start with '#' makes `getHash` give that path back. */
  lemma GetHashNavigate(path: string)
    requires path != [] && path[0] != '#'
    ensures GetHash(Navigate(path)) == path
  {
    assert ("#" + path)[1..] == path;
  }

  /** `raw.split('?')[0]`: the text before the first '?', or all of it. */
  function RouteKey(raw: string): (r: string)
    ensures |r| <= |raw| && r == raw[..|r|]
    ensures forall k :: 0 <= k < |r| ==> r[k] != '?'
    ensures |r| < |raw| ==> raw[|r|] == '?'
  {
    if raw == [] || raw[0] == '?' then [] else [raw[0]] + RouteKey(raw[1..])
  }

  /** A query string after the path never changes the key that is looked up. */
  lemma {:induction false} QueryIgnored(path: string, query: string)
    requires forall k :: 0 <= k < |path| ==> path[k] != '?'
    ensures RouteKey(path + "?" + query) == path
    decreases |path|
  {
    if path == [] {
      assert (path + "?" + query)[0] == '?';
    } else {
      QueryIgnored(path[1..], query);
      assert (path + "?" + query)[1..] == path[1..] + "?" + query;
    }
  }

  /**
   * The decision of `handleRoute`, looking the key up among the table's own entries:
   * an unknown key goes to the not-found handler if one is set, a guarded route without a
   * user redirects to '/login', and every other route is rendered once with the user and
   * empty params.
   */
  function Decide(routes: map<string, RouteDef>, hasNotFound: bool, user: Option<User>, hash: string): (d: Decision)
    ensures var key := RouteKey(GetHash(hash));
      && (key !in routes ==> d == if hasNotFound then NotFound(key) else NoHandler)
      && (key in routes && routes[key].requiresAuth && user.None? ==> d == Redirect("/login"))
      && (key in routes && !(routes[key].requiresAuth && user.None?) ==> d == Render(key, Context(user, map[])))
    ensures d != Throws
  {
    var route := RouteKey(GetHash(hash));
    if route !in routes then (if hasNotFound then NotFound(route) else NoHandler)
    else if routes[route].requiresAuth && user.None? then Redirect("/login")
    else Render(route, Context(user, map[]))
  }

  /** A redirect to the login page leads to rendering it when '/login' is an open route. */
  lemma RedirectReachesLogin(routes: map<string, RouteDef>, hasNotFound: bool, user: Option<User>)
    requires "/login" in routes && !routes["/login"].requiresAuth
    ensures Decide(routes, hasNotFound, user, Navigate("/login")) == Render("/login", Context(user, map[]))
  {
    GetHashNavigate("/login");
    QueryIgnored("/login", "");
    assert "/login" + "?" + "" == "/login?";
    assert RouteKey("/login") == "/login" by {
      var s := "/login";
      assert s[0] != '?' && s[1..] == "login";
      assert RouteKey("") == "";
    }
  }

  // ----- The lookup as written: `routes[route]` on a plain object -----

  /** The properties every plain object inherits from `Object.prototype`. */
  const InheritedNames: set<string> := {
    "constructor", "__proto__", "toString", "toLocaleString", "valueOf", "hasOwnProperty",
    "isPrototypeOf", "propertyIsEnumerable", "__defineGetter__", "__defineSetter__",
    "__lookupGetter__", "__lookupSetter__" }

  /**
   * `handleRoute` as written: `routes[route]` also finds an inherited property, which is
   * truthy and has neither `requiresAuth` nor `render`, so `r.render(...)` throws.
   */
  function DecideAsWritten(routes: map<string, RouteDef>, hasNotFound: bool, user: Option<User>, hash: string): (d: Decision)
    ensures var key := RouteKey(GetHash(hash)); key !in routes && key in InheritedNames ==> d == Throws
  {
    var route := RouteKey(GetHash(hash));
    if route !in routes && route in InheritedNames then Throws
    else Decide(routes, hasNotFound, user, hash)
  }

  /** The two agree on every hash whose key is a route of the table or no inherited name. */
  lemma AsWrittenAgrees(routes: map<string, RouteDef>, hasNotFound: bool, user: Option<User>, hash: string)
    requires var key := RouteKey(GetHash(hash)); key in routes || key !in InheritedNames
    ensures DecideAsWritten(routes, hasNotFound, user, hash) == Decide(routes, hasNotFound, user, hash)
  {
  }

  /** "#toString" is no route, yet the lookup finds `Object.prototype.toString` and the handler throws instead of reporting it. */
  lemma ToStringThrows(routes: map<string, RouteDef>, user: Option<User>)
    requires "toString" !in routes
    ensures DecideAsWritten(routes, true, user, "#toString") == Throws
    ensures Decide(routes, true, user, "#toString") == NotFound("toString")
  {
    assert GetHash("#toString") == "toString";
    assert RouteKey("toString") == "toString" by {
      QueryIgnored("toString", "");
      assert "toString" + "?" + "" == "toString?";
      assert RouteKey("toString?") == "toString";
      assert RouteKey("toString?") == [RouteKey("toString?")[0]] + RouteKey("toString?")[1..];
    }
  }

  /** The module-level state of js/router.js and the handler that reads it. */
  class HashRouter {
    var routes: map<string, RouteDef>
    var hasNotFound: bool
    var currentUser: Option<User>

    constructor ()
      ensures routes == map[] && !hasNotFound && currentUser.None?
    {
      routes, hasNotFound, currentUser := map[], false, None;
    }

    /** `defineRoutes(map)`: the old table is replaced, not merged. */
    method DefineRoutes(m: map<string, RouteDef>)
      modifies this
      ensures routes == m && hasNotFound == old(hasNotFound) && currentUser == old(currentUser)
    {
      routes := m;
    }

    /** `setNotFound(fn)`; `present` is whether `fn` is a function rather than null. */
    method SetNotFound(present: bool)
      modifies this
      ensures hasNotFound == present && routes == old(routes) && currentUser == old(currentUser)
    {
      hasNotFound := present;
    }

    /** `setUser(u)`: the old user is replaced. */
    method SetUser(u: Option<User>)
      modifies this
      ensures currentUser == u && routes == old(routes) && hasNotFound == old(hasNotFound)
    {
      currentUser := u;
    }

    /**
     * `handleRoute()` for the current hash, with the own-entry lookup: it differs from the
     * code as written exactly on the inherited names that are no route, where that throws.
     */
    method HandleRoute(hash: string) returns (d: Decision)
      ensures d == Decide(routes, hasNotFound, currentUser, hash)
      ensures var key := RouteKey(GetHash(hash));
        d == DecideAsWritten(routes, hasNotFound, currentUser, hash) <==> key in routes || key !in InheritedNames
      ensures d.Render? ==> d.route in routes && d.ctx == Context(currentUser, map[])
      ensures d.Render? && routes[d.route].requiresAuth ==> currentUser.Some?
    {
      var raw := GetHash(hash);
      var route := RouteKey(raw);
      if route !in routes {
        if hasNotFound {
          return NotFound(route);
        }
        return NoHandler;
      }
      var r := routes[route];
      if r.requiresAuth && currentUser.None? {
        return Redirect("/login");
      }
      d := Render(route, Context(currentUser, map[]));
    }
  }
}

/**
 * The route guard's decision: a route declares the roles it requires and whether
 * all of them or any one is needed; the roles held are those the token storage
 * service reports. A denial picks the view to redirect to.
 */
module AuthGuards {
  import opened Optional
  import opened Seqs
  import opened AuthModel
  import opened AuthServices
  import opened AppConstants

  const ProductsRoute := "/products"

  /** The guard's answer and the navigation it triggers, if any. */
  datatype Access = Access(granted: bool, redirect: Option<string>)

  /** What `canActivate` does: decide at once, or wait for the session (the polling is not modelled). */
  datatype Activation = Decided(access: Access) | AwaitingSession

  /** `route.data['roles'] || []`: no declared roles means no role restriction. */
  function RequiredRoles(data: RouteData): (r: seq<string>)
    ensures data.roles.None? ==> r == []
    ensures data.roles.Some? ==> r == data.roles.value
  {
    data.roles.GetOr([])
  }

  /** `route.data['requireAll'] || false`: "any" unless "all" is declared. */
  function RequireAll(data: RouteData): (r: bool)
    ensures data.requireAll.None? ==> !r
    ensures data.requireAll.Some? ==> r == data.requireAll.value
  {
    data.requireAll.GetOr(false)
  }

  /** `checkRoleAccess(requiredRoles, requireAll)`, with `hasRole` read from `localStorage`. */
  function CheckRoleAccess(items: map<string, string>, required: seq<string>, requireAll: bool): (r: Access)
    ensures required == [] ==> r == Access(true, None)
    ensures required != [] && requireAll ==>
      (r.granted <==> forall i :: 0 <= i < |required| ==> HasRole(items, required[i]))
    ensures required != [] && !requireAll ==>
      (r.granted <==> exists i :: 0 <= i < |required| && HasRole(items, required[i]))
    ensures r.granted <==> r.redirect.None?
    ensures !r.granted ==> r.redirect == Some(if HasRole(items, RoleEmployee) then ProductsRoute else LoginRoute)
  {
    if required == [] then Access(true, None)
    else
      var hasAccess :=
        if requireAll then Every(required, (role: string) => HasRole(items, role))
        else Any(required, (role: string) => HasRole(items, role));
      if hasAccess then Access(true, None)
      else if HasRole(items, RoleEmployee) then Access(false, Some(ProductsRoute))
      else Access(false, Some(LoginRoute))
  }

  /** `canActivate(route)`: an authenticated session is decided at once; otherwise the guard waits. */
  function CanActivate(items: map<string, string>, data: RouteData): (r: Activation)
    ensures IsAuthenticated(items) <==> r.Decided?
    ensures r.Decided? ==> r.access == CheckRoleAccess(items, RequiredRoles(data), RequireAll(data))
  {
    if IsAuthenticated(items) then Decided(CheckRoleAccess(items, RequiredRoles(data), RequireAll(data)))
    else AwaitingSession
  }

  // ---- properties ------------------------------------------------------------------

  /** A route without role data admits every authenticated user, without redirect. */
  lemma NoRouteDataAdmits(items: map<string, string>, title: Option<string>)
    requires IsAuthenticated(items)
    ensures CanActivate(items, RouteData(title, None, None)) == Decided(Access(true, None))
  {
  }

  /** "All" mode grants exactly when the required roles are a subset of the roles held. */
  lemma AllModeIsInclusion(items: map<string, string>, required: seq<string>)
    ensures CheckRoleAccess(items, required, true).granted <==>
      forall role :: role in required ==> HasRole(items, role)
  {
  }

  /** "Any" mode grants exactly when some required role is held, or none is required. */
  lemma AnyModeIsOverlap(items: map<string, string>, required: seq<string>)
    ensures CheckRoleAccess(items, required, false).granted <==>
      required == [] || exists role :: role in required && HasRole(items, role)
  {
    if required != [] && (exists role :: role in required && HasRole(items, role)) {
      var role :| role in required && HasRole(items, role);
      var i :| 0 <= i < |required| && required[i] == role;
      assert HasRole(items, required[i]);
    }
  }

  /** "All" is at least as strict as "any": whatever "all" grants, "any" grants too. */
  lemma AllImpliesAny(items: map<string, string>, required: seq<string>)
    ensures CheckRoleAccess(items, required, true).granted ==> CheckRoleAccess(items, required, false).granted
  {
    if required != [] && CheckRoleAccess(items, required, true).granted {
      assert HasRole(items, required[0]);
    }
  }

  /**
   * An employee who lacks the administrator role is sent back to the product
   * list, not to the login view.
   */
  lemma EmployeeDeniedAdminRoute(items: map<string, string>)
    requires HasRole(items, RoleEmployee) && !HasRole(items, RoleAdmin)
    ensures CheckRoleAccess(items, [RoleAdmin], true) == Access(false, Some(ProductsRoute))
    ensures CheckRoleAccess(items, [RoleAdmin], false) == Access(false, Some(ProductsRoute))
  {
  }

  /** The guard itself keeps an employee session out of an admin route, in either mode, and sends it to /products. */
  lemma EmployeeDeniedByGuard(items: map<string, string>, title: Option<string>, requireAll: Option<bool>)
    requires IsAuthenticated(items) && HasRole(items, RoleEmployee) && !HasRole(items, RoleAdmin)
    ensures CanActivate(items, RouteData(title, Some([RoleAdmin]), requireAll)) == Decided(Access(false, Some(ProductsRoute)))
  {
    EmployeeDeniedAdminRoute(items);
  }
}

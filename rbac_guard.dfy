/**
 * Role-based access decisions over the menu-permission list the backend
 * returns: the first accessible menu's route, whether any menu is readable,
 * and the throw-or-redirect guard of a server page.
 */
module RbacGuard {
  import opened Wrappers
  import opened Text

  datatype SubMenu = SubMenu(canRead: bool)

  /** One entry of the permission list; every field may be missing. */
  datatype Menu = Menu(menuName: Option<string>, name: Option<string>, subMenus: Option<seq<SubMenu>>)

  /** `fetchRoleMenuPermissions()`: the reply it resolves with, or a rejection. */
  datatype PermissionsReply = PermissionsReply(status: bool, errorMessage: Option<string>, response: Option<seq<Menu>>)
  datatype Fetch = Fetched(reply: PermissionsReply) | Threw

  /** What a guarded page does: render, throw `ForbiddenError`, or redirect. */
  datatype Decision = Allowed | Forbidden(message: string) | Redirect(to: string)

  const ForbiddenMessage: string := "403 - Not Authorized"
  const DefaultRedirect: string := "/dashboard"

  /** The `menuRoutes` table. */
  const MenuRoutes: map<string, string> := map[
    "dashboard" := "/dashboard",
    "user" := "/users",
    "role" := "/roles",
    "complaint" := "/complaints",
    "report" := "/reports"
  ]

  /** `(menu.menuName || menu.name)?.toLowerCase()`. */
  function EffectiveName(m: Menu): (n: Option<string>)
    ensures Truthy(m.menuName) ==> n == Some(Lower(m.menuName.value))
    ensures !Truthy(m.menuName) ==> n == (if m.name.Some? then Some(Lower(m.name.value)) else None)
  {
    match OrElse(m.menuName, m.name)
    case None => None
    case Some(s) => Some(Lower(s))
  }

  /** `menu.subMenus?.some(subMenu => subMenu.canRead)`. */
  predicate HasReadableSubMenu(m: Menu) {
    m.subMenus.Some? && exists k :: 0 <= k < |m.subMenus.value| && m.subMenus.value[k].canRead
  }

  /** `menuRoutes[menu.menuName?.toLowerCase()]`: only `menuName` is looked at, never `name`. */
  function RouteOf(m: Menu): (r: Option<string>)
    ensures r.Some? ==> r.value in MenuRoutes.Values
  {
    if m.menuName.Some? && Lower(m.menuName.value) in MenuRoutes then Some(MenuRoutes[Lower(m.menuName.value)]) else None
  }

  predicate Accessible(m: Menu) {
    RouteOf(m).Some? && HasReadableSubMenu(m)
  }

  /** The route of the first accessible menu in list order. */
  function FirstAccessibleMenuUrl(perms: seq<Menu>): (r: Option<string>)
    ensures r.None? <==> forall i :: 0 <= i < |perms| ==> !Accessible(perms[i])
    ensures r.Some? ==> exists i :: (0 <= i < |perms| && Accessible(perms[i]) && r == RouteOf(perms[i])
      && forall j :: 0 <= j < i ==> !Accessible(perms[j]))
    ensures r.Some? ==> r.value in MenuRoutes.Values
  {
    if perms == [] then None
    else if Accessible(perms[0]) then RouteOf(perms[0])
    else
      var r := FirstAccessibleMenuUrl(perms[1..]);
      assert forall i :: 1 <= i < |perms| ==> perms[i] == perms[1..][i - 1];
      r
  }

  /** `getFirstAccessibleMenuUrl`: the loop with early return. */
  method GetFirstAccessibleMenuUrl(perms: Option<seq<Menu>>) returns (r: Option<string>)
    ensures perms.None? || perms.value == [] ==> r.None?
    ensures perms.Some? ==> r == FirstAccessibleMenuUrl(perms.value)
  {
    if perms.None? || |perms.value| == 0 {
      return None;
    }
    var menus := perms.value;
    var i := 0;
    while i < |menus|
      invariant 0 <= i <= |menus|
      invariant FirstAccessibleMenuUrl(menus) == FirstAccessibleMenuUrl(menus[i..])
    {
      assert menus[i..][1..] == menus[i + 1..];
      var route := RouteOf(menus[i]);
      if route.Some? && HasReadableSubMenu(menus[i]) {
        return route;
      }
      i := i + 1;
    }
    return None;
  }

  /** `hasAnyMenuAccess`: some menu has some readable sub-menu. */
  predicate HasAnyMenuAccess(perms: Option<seq<Menu>>) {
    perms.Some? && |perms.value| > 0 && exists i :: 0 <= i < |perms.value| && HasReadableSubMenu(perms.value[i])
  }

  /** A menu route found means some menu is readable. */
  lemma FirstUrlImpliesAccess(perms: seq<Menu>)
    requires FirstAccessibleMenuUrl(perms).Some?
    ensures HasAnyMenuAccess(Some(perms))
  {
    var i :| 0 <= i < |perms| && Accessible(perms[i]);
  }

  /** Readable menus whose names are not in the route table give no route, although access exists. */
  lemma AccessWithoutRoute()
    ensures var perms := [Menu(None, Some("dashboard"), Some([SubMenu(true)]))];
      FirstAccessibleMenuUrl(perms).None? && HasAnyMenuAccess(Some(perms))
  {
    var perms := [Menu(None, Some("dashboard"), Some([SubMenu(true)]))];
    assert HasReadableSubMenu(perms[0]) by { assert perms[0].subMenus.value[0].canRead; }
  }

  /** `allowedMenus?.some(menu => (menu.menuName || menu.name)?.toLowerCase() === menuName.toLowerCase())`. */
  predicate HasMenu(menus: Option<seq<Menu>>, menuName: string) {
    menus.Some? && exists i :: 0 <= i < |menus.value| && EffectiveName(menus.value[i]) == Some(Lower(menuName))
  }

  /**
   * `requireMenuPermission`: a missing permission and a failed fetch are
   * handled alike, by throwing `ForbiddenError` or redirecting.
   */
  function RequireMenuPermission(menuName: string, redirectTo: Option<string>, throwOnForbidden: bool, fetch: Fetch): (d: Decision)
    ensures d.Allowed? <==> fetch.Fetched? && HasMenu(fetch.reply.response, menuName)
    ensures d.Forbidden? <==> !d.Allowed? && throwOnForbidden
    ensures d.Forbidden? ==> d.message == ForbiddenMessage
    ensures d.Redirect? ==> d.to == (if redirectTo.Some? then redirectTo.value else DefaultRedirect)
  {
    var deny := if throwOnForbidden then Forbidden(ForbiddenMessage)
                else Redirect(if redirectTo.Some? then redirectTo.value else DefaultRedirect);
    match fetch
    case Threw => deny
    case Fetched(reply) => if HasMenu(reply.response, menuName) then Allowed else deny
  }

  /** The guard compares names case-insensitively: names with the same lower case get the same decision. */
  lemma RequireIgnoresCase(a: string, b: string, redirectTo: Option<string>, throwOnForbidden: bool, fetch: Fetch)
    requires Lower(a) == Lower(b)
    ensures RequireMenuPermission(a, redirectTo, throwOnForbidden, fetch) == RequireMenuPermission(b, redirectTo, throwOnForbidden, fetch)
  {
  }

  /** `menuName` wins over `name` whenever it is non-empty. */
  lemma MenuNameWins(menuName: string, name: string, subs: Option<seq<SubMenu>>)
    requires menuName != "" && Lower(menuName) != Lower(name)
    ensures !HasMenu(Some([Menu(Some(menuName), Some(name), subs)]), name)
    ensures HasMenu(Some([Menu(Some(""), Some(name), subs)]), name)
  {
    var m := Menu(Some(""), Some(name), subs);
    assert EffectiveName(m) == Some(Lower(name));
    assert [m][0] == m;
  }
}

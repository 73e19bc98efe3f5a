/**
 * Client-side page protection: whether the user may see a page, which page
 * to fall back to, and whether to navigate there. A failed or "Network
 * error" permission fetch grants access, so that a backend outage never
 * causes a redirect loop.
 */
module RouteProtection {
  import opened Wrappers
  import opened Text
  import opened RbacGuard

  /** `AVAILABLE_PAGES`, in order of preference. */
  const AvailablePages: seq<string> := ["dashboard", "complaints", "users", "roles", "reports"]

  datatype Navigation = Stay | NavigateTo(url: string)

  /** The reply says the backend could not be reached. */
  predicate NetworkDown(reply: PermissionsReply) {
    !reply.status && reply.errorMessage.Some? && Includes(reply.errorMessage.value, "Network error")
  }

  function MenusOf(reply: PermissionsReply): seq<Menu> {
    if reply.response.Some? then reply.response.value else []
  }

  /** `hasPagePermission`. */
  predicate HasPagePermission(pageName: string, fetch: Fetch) {
    match fetch
    case Threw => true
    case Fetched(reply) =>
      NetworkDown(reply) || HasMenu(Some(MenusOf(reply)), pageName)
  }

  /** `excludePage?.toLowerCase()`. */
  function Excluded(excludePage: Option<string>): Option<string> {
    if excludePage.Some? then Some(Lower(excludePage.value)) else None
  }

  lemma SlashPrefixInjective(a: string, b: string)
    ensures "/" + a == "/" + b ==> a == b
  {
    if "/" + a == "/" + b {
      assert a == ("/" + a)[1..];
    }
  }

  /** The first available page other than the excluded one, as a path; "/" when there is none. */
  function FallbackPage(excl: Option<string>): (url: string)
    ensures url != "/"
    ensures excl.Some? ==> url != "/" + excl.value
    ensures exists k :: 0 <= k < |AvailablePages| && url == "/" + AvailablePages[k]
  {
    if Some(AvailablePages[0]) != excl then
      SlashPrefixInjective(AvailablePages[0], if excl.Some? then excl.value else "");
      "/" + AvailablePages[0]
    else
      SlashPrefixInjective(AvailablePages[1], excl.value);
      "/" + AvailablePages[1]
  }

  /** The first allowed menu with a non-empty lower-cased name other than the excluded one, as a path. */
  function FirstMenuPage(menus: seq<Menu>, excl: Option<string>): (url: Option<string>)
    ensures url.None? <==> forall i :: 0 <= i < |menus| ==> !Truthy(EffectiveName(menus[i])) || EffectiveName(menus[i]) == excl
    ensures url.Some? ==> exists i :: (0 <= i < |menus| && Truthy(EffectiveName(menus[i]))
      && EffectiveName(menus[i]) != excl && url.value == "/" + EffectiveName(menus[i]).value
      && forall j :: 0 <= j < i ==> !Truthy(EffectiveName(menus[j])) || EffectiveName(menus[j]) == excl)
  {
    if menus == [] then None
    else
      var name := EffectiveName(menus[0]);
      if Truthy(name) && name != excl then Some("/" + name.value)
      else
        assert forall i :: 1 <= i < |menus| ==> menus[i] == menus[1..][i - 1];
        FirstMenuPage(menus[1..], excl)
  }

  /**
   * `getFirstAvailablePage`: the first allowed menu other than the excluded
   * page when the fetch returned menus, else the first available fallback
   * page; never "/" and never the excluded page.
   */
  function FirstAvailablePage(excludePage: Option<string>, fetch: Fetch): (url: string)
    ensures url != "/"
    ensures excludePage.Some? ==> url != "/" + Lower(excludePage.value)
    ensures (fetch.Fetched? && !NetworkDown(fetch.reply)
      && FirstMenuPage(MenusOf(fetch.reply), Excluded(excludePage)).Some?) ==>
      url == FirstMenuPage(MenusOf(fetch.reply), Excluded(excludePage)).value
    ensures (!(fetch.Fetched? && !NetworkDown(fetch.reply)
      && FirstMenuPage(MenusOf(fetch.reply), Excluded(excludePage)).Some?)) ==>
      url == FallbackPage(Excluded(excludePage))
  {
    var excl := Excluded(excludePage);
    match fetch
    case Threw => FallbackPage(excl)
    case Fetched(reply) =>
      if NetworkDown(reply) then FallbackPage(excl)
      else
        var page := FirstMenuPage(MenusOf(reply), excl);
        if page.Some? then
          assert excludePage.Some? ==> page.value != "/" + Lower(excludePage.value) by {
            if excludePage.Some? {
              var i :| 0 <= i < |MenusOf(reply)| && Truthy(EffectiveName(MenusOf(reply)[i]))
                && EffectiveName(MenusOf(reply)[i]) != excl
                && page.value == "/" + EffectiveName(MenusOf(reply)[i]).value;
              SlashPrefixInjective(EffectiveName(MenusOf(reply)[i]).value, Lower(excludePage.value));
            }
          }
          page.value
        else FallbackPage(excl)
  }

  /** The loop over `AVAILABLE_PAGES`. */
  method FallbackLoop(excl: Option<string>) returns (url: string)
    ensures url == FallbackPage(excl)
  {
    var i := 0;
    while i < |AvailablePages|
      invariant 0 <= i <= 2
      invariant forall j :: 0 <= j < i ==> Some(AvailablePages[j]) == excl
    {
      if Some(AvailablePages[i]) != excl {
        return "/" + AvailablePages[i];
      }
      i := i + 1;
      assert i <= 1 by { assert AvailablePages[0] != AvailablePages[1]; }
    }
    return "/";
  }

  /** `getFirstAvailablePage`, with its two loops and early returns. */
  method GetFirstAvailablePage(excludePage: Option<string>, fetch: Fetch) returns (url: string)
    ensures url == FirstAvailablePage(excludePage, fetch)
  {
    var excl := Excluded(excludePage);
    if fetch.Fetched? {
      var reply := fetch.reply;
      if NetworkDown(reply) {
        url := FallbackLoop(excl);
        return;
      }
      var page := MenuLoop(MenusOf(reply), excl);
      if page.Some? {
        return page.value;
      }
    }
    url := FallbackLoop(excl);
  }

  /** The loop over the allowed menus. */
  method MenuLoop(menus: seq<Menu>, excl: Option<string>) returns (url: Option<string>)
    ensures url == FirstMenuPage(menus, excl)
  {
    var i := 0;
    while i < |menus|
      invariant 0 <= i <= |menus|
      invariant FirstMenuPage(menus, excl) == FirstMenuPage(menus[i..], excl)
    {
      assert menus[i..][1..] == menus[i + 1..];
      var name := EffectiveName(menus[i]);
      if Truthy(name) && name != excl {
        return Some("/" + name.value);
      }
      i := i + 1;
    }
    return None;
  }

  /** `protectPage`: navigate to the fallback unless permitted or the fallback is where we are. */
  function ProtectPage(pageName: string, currentPath: Option<string>, permissionFetch: Fetch, pageFetch: Fetch): (n: Navigation)
  {
    if HasPagePermission(pageName, permissionFetch) then Stay
    else
      var fallback := FirstAvailablePage(Some(pageName), pageFetch);
      if Some(fallback) == currentPath || fallback == "/" + pageName then Stay
      else if fallback == "/" && Truthy(currentPath) && currentPath.value != "/" then Stay
      else if fallback == "/" && Truthy(currentPath) then Stay
      else NavigateTo(fallback)
  }

  /**
   * The fallback is never "/", so the two home-page guards never decide:
   * protectPage navigates exactly when permission is missing and the fallback
   * is neither the current path nor "/" + pageName, and then never to "/".
   */
  lemma ProtectPageNavigates(pageName: string, currentPath: Option<string>, permissionFetch: Fetch, pageFetch: Fetch)
    ensures var fallback := FirstAvailablePage(Some(pageName), pageFetch);
      ProtectPage(pageName, currentPath, permissionFetch, pageFetch) ==
        if !HasPagePermission(pageName, permissionFetch) && Some(fallback) != currentPath && fallback != "/" + pageName
        then NavigateTo(fallback) else Stay
    ensures var n := ProtectPage(pageName, currentPath, permissionFetch, pageFetch);
      n.NavigateTo? ==> n.url != "/" && Some(n.url) != currentPath && n.url != "/" + Lower(pageName)
  {
  }

  /** A rejected or "Network error" fetch grants every page. */
  lemma OutageGrantsAccess(pageName: string, reply: PermissionsReply)
    requires NetworkDown(reply)
    ensures HasPagePermission(pageName, Fetched(reply)) && HasPagePermission(pageName, Threw)
  {
  }

  /** Excluding "dashboard" falls back to "/complaints"; excluding anything else, to "/dashboard". */
  lemma FallbackOrder(excludePage: Option<string>)
    ensures FirstAvailablePage(excludePage, Threw) ==
      if excludePage.Some? && Lower(excludePage.value) == "dashboard" then "/complaints" else "/dashboard"
  {
  }
}

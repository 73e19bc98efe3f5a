/** The sidebar's navigation: which route is highlighted, and which clicks navigate. */
module AppSidebar {
  import opened Wrappers
  import opened Text

  datatype SidebarRoute = SidebarRoute(labelText: string, url: string, isImplemented: bool)

  /** `isRouteActive(url)` for the current `pathname`. */
  predicate IsRouteActive(pathname: Option<string>, url: string) {
    if !Truthy(pathname) then false
    else if pathname.value == url then true
    else if url != "/" && StartsWith(pathname.value, url) then true
    else false
  }

  /** `handleNavigation`: the url pushed to the router, if any. */
  function HandleNavigation(route: SidebarRoute): (pushed: Option<string>)
    ensures pushed.Some? <==> route.isImplemented
    ensures pushed.Some? ==> pushed.value == route.url
  {
    if route.isImplemented then Some(route.url) else None
  }

  /** The root url is active only on the root path. */
  lemma RootOnlyExact(pathname: Option<string>)
    ensures IsRouteActive(pathname, "/") <==> pathname == Some("/")
  {
  }

  /** A non-empty url is active on its own path. */
  lemma ActiveOnOwnPath(url: string)
    requires url != ""
    ensures IsRouteActive(Some(url), url)
  {
  }

  /** The prefix test is textual: "/users" is active on "/users-archive" too. */
  lemma TextualPrefix()
    ensures IsRouteActive(Some("/users-archive"), "/users")
    ensures !IsRouteActive(Some("/user"), "/users")
  {
    assert "/users-archive"[..6] == "/users";
  }

  /** A descendant path keeps its ancestor's route active. */
  lemma ActiveOnDescendant(url: string, rest: string)
    requires url != "" && url != "/"
    ensures IsRouteActive(Some(url + rest), url)
  {
    assert (url + rest)[..|url|] == url;
  }
}

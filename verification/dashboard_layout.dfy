/** The dashboard's sidebar and header: a fixed navigation table, the button
    highlighted for the current pathname, and the header title. */
module DashboardLayout {
  import opened Wrappers

  datatype NavItem = NavItem(name: string, href: string)

  /** The sidebar's entries, in display order. */
  const Navigation: seq<NavItem> := [
    NavItem("Overview", "/dashboard"),
    NavItem("Projects", "/dashboard/projects"),
    NavItem("Analytics", "/dashboard/analytics"),
    NavItem("Profile", "/dashboard/profile"),
    NavItem("Settings", "/dashboard/settings")
  ]

  const FallbackTitle: string := "Dashboard"

  /** `items.find(item => item.href === pathname)`: the first entry whose href
      is the pathname, if any. */
  function Find(items: seq<NavItem>, pathname: string): (r: Option<NavItem>)
    ensures r.None? <==> forall i :: 0 <= i < |items| ==> items[i].href != pathname
    ensures r.Some? ==> r.value.href == pathname
    ensures r.Some? ==>
      exists i :: 0 <= i < |items| && items[i] == r.value && forall k :: 0 <= k < i ==> items[k].href != pathname
  {
    if items == [] then None
    else if items[0].href == pathname then Some(items[0])
    else
      var r := Find(items[1..], pathname);
      assert forall i :: 1 <= i < |items| ==> items[i] == items[1..][i - 1];
      r
  }

  /** A sidebar button is highlighted when its href is the pathname. */
  predicate IsActive(item: NavItem, pathname: string)
  {
    pathname == item.href
  }

  /** The header: the found entry's name, or "Dashboard" when there is no
      entry (or, as `||` would, when its name is empty). The title is
      either the fallback or the name of an entry whose href is the
      pathname. */
  function Title(pathname: string): (r: string)
    ensures r == FallbackTitle || exists i :: 0 <= i < |Navigation| && Navigation[i].href == pathname && Navigation[i].name == r
  {
    match Find(Navigation, pathname)
    case Some(item) => if item.name != "" then item.name else FallbackTitle
    case None => FallbackTitle
  }

  /** The sidebar lists Overview, Projects, Analytics, Profile and Settings,
      in that order. */
  lemma NavigationOrder()
    ensures |Navigation| == 5
    ensures Navigation[0].name == "Overview" && Navigation[1].name == "Projects"
    ensures Navigation[2].name == "Analytics" && Navigation[3].name == "Profile"
    ensures Navigation[4].name == "Settings"
  {
  }

  /** No two entries share an href, and no entry is named like the fallback. */
  lemma NavigationWellFormed()
    ensures forall i, j :: 0 <= i < j < |Navigation| ==> Navigation[i].href != Navigation[j].href
    ensures forall i :: 0 <= i < |Navigation| ==> Navigation[i].name != "" && Navigation[i].name != FallbackTitle
  {
  }

  /** At most one sidebar button is highlighted. */
  lemma AtMostOneActive(pathname: string, i: nat, j: nat)
    requires i < |Navigation| && j < |Navigation|
    requires IsActive(Navigation[i], pathname) && IsActive(Navigation[j], pathname)
    ensures i == j
  {
    NavigationWellFormed();
  }

  /** The highlighted button's name is the header title. */
  lemma ActiveGivesTitle(pathname: string, i: nat)
    requires i < |Navigation| && IsActive(Navigation[i], pathname)
    ensures Title(pathname) == Navigation[i].name
  {
    NavigationWellFormed();
    assert Find(Navigation, pathname).Some?;
    var k :| 0 <= k < |Navigation| && Navigation[k] == Find(Navigation, pathname).value
      && forall m :: 0 <= m < k ==> Navigation[m].href != pathname;
    assert Navigation[k].href == pathname;
  }

  /** The title is "Dashboard" exactly when no entry's href is the pathname. */
  lemma TitleFallback(pathname: string)
    ensures Title(pathname) == FallbackTitle <==> forall i :: 0 <= i < |Navigation| ==> Navigation[i].href != pathname
  {
    NavigationWellFormed();
    if Find(Navigation, pathname).Some? {
      var k :| 0 <= k < |Navigation| && Navigation[k] == Find(Navigation, pathname).value;
    }
  }

  /** Every entry's href is at most 20 characters long, so no longer
      pathname has a title of its own. */
  lemma LongPathnameFallsBack(pathname: string)
    requires |pathname| > 20
    ensures Title(pathname) == FallbackTitle
  {
    assert forall i :: 0 <= i < |Navigation| ==> |Navigation[i].href| <= 20;
    TitleFallback(pathname);
  }
}

/**
 * The bottom navigation of the app shell: four tabs, and the rule deciding
 * which tab is highlighted for the current path.
 */
module AppShell {

  datatype Tab = Tab(href: string, caption: string)

  /** `tabs`, in display order. */
  const Tabs: seq<Tab> := [
    Tab("/", "Dashboard"),
    Tab("/personal", "Personal"),
    Tab("/groups", "Groups"),
    Tab("/profile", "Profile")
  ]

  /** `pathname.startsWith(prefix)` */
  predicate StartsWith(pathname: string, prefix: string) {
    |prefix| <= |pathname| && pathname[..|prefix|] == prefix
  }

  /** `pathname === href || (href !== "/" && pathname.startsWith(`${href}/`))` */
  function IsActive(pathname: string, href: string): (active: bool)
    ensures pathname == href ==> active
    ensures active ==> StartsWith(pathname, href)
    ensures active && pathname != href ==> href != "/" && |pathname| > |href| && pathname[|href|] == '/'
  {
    pathname == href || (href != "/" && StartsWith(pathname, href + "/"))
  }

  /** The root tab is active for the root path only. */
  lemma RootOnlyExact(pathname: string)
    ensures IsActive(pathname, "/") <==> pathname == "/"
  {
  }

  /** Any path below a non-root tab activates it. */
  lemma DescendantActive(href: string, rest: string)
    requires href != "/"
    ensures IsActive(href + "/" + rest, href)
  {
    assert (href + "/" + rest)[..|href + "/"|] == href + "/";
  }

  /** A path that only shares a prefix with the tab, without a `/` after it, does not activate it. */
  lemma SiblingNotActive(href: string, tail: string)
    requires tail != "" && tail[0] != '/'
    ensures !IsActive(href + tail, href)
  {
    var p := href + tail;
    assert p[|href|] == tail[0];
  }

  /** `/personalx` does not activate `/personal`, while `/personal/x` does. */
  lemma PersonalExamples(tab: string, sibling: string, child: string)
    requires tab == "/personal" && sibling == tab + "x" && child == tab + "/x"
    ensures !IsActive(sibling, tab) && IsActive(child, tab)
  {
    SiblingNotActive(tab, "x");
    DescendantActive(tab, "x");
  }

  /** The table: `/`, `/personal`, `/groups`, `/profile`, in that order. */
  lemma TabTable()
    ensures |Tabs| == 4
    ensures Tabs[0].href == "/" && Tabs[1].href == "/personal" && Tabs[2].href == "/groups" && Tabs[3].href == "/profile"
  {
  }

  /** Which tab an active path belongs to can be read off its first three characters. */
  lemma ActiveTabKey(pathname: string, i: int)
    requires 0 <= i < |Tabs| && IsActive(pathname, Tabs[i].href)
    ensures i == 0 <==> pathname == "/"
    ensures i != 0 ==> |pathname| >= 3
    ensures i == 1 ==> pathname[1] == 'p' && pathname[2] == 'e'
    ensures i == 2 ==> pathname[1] == 'g'
    ensures i == 3 ==> pathname[1] == 'p' && pathname[2] == 'r'
  {
    var h := Tabs[i].href;
    assert pathname[..|h|] == h;
    if i != 0 {
      assert pathname[1] == h[1] && pathname[2] == h[2];
    }
  }

  /** For the table, at most one tab is active on any path. */
  lemma AtMostOneActive(pathname: string, i: int, j: int)
    requires 0 <= i < |Tabs| && 0 <= j < |Tabs|
    requires IsActive(pathname, Tabs[i].href) && IsActive(pathname, Tabs[j].href)
    ensures i == j
  {
    ActiveTabKey(pathname, i);
    ActiveTabKey(pathname, j);
  }
}

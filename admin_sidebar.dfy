/**
 * The admin panel's sidebar: a fixed menu of eight sections and the rule that
 * marks the current one. The dashboard is marked only on its own path; every
 * other section is marked on any path that starts with its link, so its
 * sub-pages (`/admin/programs/new`, `/admin/news/edit/<id>`) keep it marked.
 */
module AdminSidebar {
  /** A menu entry: its link and the text shown for it (`label` in the menu
      table). */
  datatype MenuItem = MenuItem(href: string, caption: string)

  const DashboardHref := "/admin/dashboard"

  /** `menuItems`, in display order. */
  const MenuItems: seq<MenuItem> := [
    MenuItem(DashboardHref, "Dashboard"),
    MenuItem("/admin/pages", "Page Content"),
    MenuItem("/admin/news", "News"),
    MenuItem("/admin/programs", "Programs"),
    MenuItem("/admin/board-members", "Board Members"),
    MenuItem("/admin/documents", "Documents"),
    MenuItem("/admin/donations", "Donations"),
    MenuItem("/admin/submissions", "Submissions")
  ]

  /** `isActive` for one menu item on the current path. */
  predicate IsActive(item: MenuItem, pathname: string) {
    if item.href == DashboardHref then pathname == item.href else item.href <= pathname
  }

  /** Two prefixes of the same path are prefixes of one another. */
  lemma {:induction false} PrefixesComparable(a: string, b: string, p: string)
    requires a <= p && b <= p
    ensures a <= b || b <= a
  {
    if |a| <= |b| {
      assert a == p[..|a|] && b[..|a|] == p[..|a|];
    } else {
      assert b == p[..|b|] && a[..|b|] == p[..|b|];
    }
  }

  /** A literal test for "not a prefix": the two links part at index `k`. */
  lemma DifferAt(a: string, b: string, k: nat)
    requires k < |a| && k < |b| && a[k] != b[k]
    ensures !(a <= b) && !(b <= a)
  {
  }

  /** Eight items with distinct links, all under `/admin/`, none of which is a
      prefix of another. */
  lemma MenuShape()
    ensures |MenuItems| == 8
    ensures forall i :: 0 <= i < |MenuItems| ==> "/admin/" <= MenuItems[i].href
    ensures forall i, j :: 0 <= i < |MenuItems| && 0 <= j < |MenuItems| && i != j ==>
      !(MenuItems[i].href <= MenuItems[j].href)
  {
    forall i, j | 0 <= i < |MenuItems| && 0 <= j < |MenuItems| && i != j
      ensures !(MenuItems[i].href <= MenuItems[j].href)
    {
      var a, b := MenuItems[i].href, MenuItems[j].href;
      if a[7] != b[7] {
        DifferAt(a, b, 7);
      } else if a[8] != b[8] {
        DifferAt(a, b, 8);
      } else {
        DifferAt(a, b, 9);
      }
    }
  }

  /** For any path at most one item is marked. */
  lemma AtMostOneActive(pathname: string, i: nat, j: nat)
    requires i < |MenuItems| && j < |MenuItems|
    requires IsActive(MenuItems[i], pathname) && IsActive(MenuItems[j], pathname)
    ensures i == j
  {
    MenuShape();
    if i != j {
      var a, b := MenuItems[i].href, MenuItems[j].href;
      assert a <= pathname && b <= pathname;
      PrefixesComparable(a, b, pathname);
    }
  }

  /** A sub-page marks its section: `/admin/programs/new` marks Programs. */
  lemma SubPageMarksSection()
    ensures IsActive(MenuItems[3], "/admin/programs/new")
    ensures !IsActive(MenuItems[0], "/admin/dashboard/settings")
  {
    assert MenuItems[3].href == "/admin/programs";
    assert "/admin/programs" + "/new" == "/admin/programs/new";
  }
}

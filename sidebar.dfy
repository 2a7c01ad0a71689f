/**
 * The navigation of src/components/layout/sidebar.tsx: the declared items, filtered by
 * the viewer's role, and the test that highlights the item for the current path.
 */
module Sidebar {
  import opened Wrappers
  import opened Text

  datatype NavItem = NavItem(href: string, title: string, adminOnly: bool)

  const NavItems: seq<NavItem> := [
    NavItem("/home", "Home", false),
    NavItem("/playlists", "Playlists", false),
    NavItem("/testing", "Video Testing", false),
    NavItem("/schedule", "Schedule Testing", false),
    NavItem("/reports", "Reports", false),
    NavItem("/dashboard", "Dashboard", false),
    NavItem("/users", "User Management", true)
  ]

  /** `!item.adminOnly || userRole === "ADMIN"`. */
  predicate Shown(item: NavItem, role: Option<string>) {
    !item.adminOnly || role == Some("ADMIN")
  }

  /** `items.filter(...)`: the shown items, in their declared order. */
  function Visible(items: seq<NavItem>, role: Option<string>): (r: seq<NavItem>)
    ensures |r| <= |items|
  {
    if items == [] then []
    else (if Shown(items[0], role) then [items[0]] else []) + Visible(items[1..], role)
  }

  /** The filter keeps exactly the shown items: everything kept is shown, and everything shown is kept. */
  lemma {:induction false} VisibleExactly(items: seq<NavItem>, role: Option<string>)
    ensures forall x :: x in Visible(items, role) <==> x in items && Shown(x, role)
  {
    if items != [] {
      VisibleExactly(items[1..], role);
      assert items == [items[0]] + items[1..];
    }
  }

  /** Administrators see all seven items; anyone else, an undefined role included, the first six. */
  lemma VisibleItems(role: Option<string>)
    ensures role == Some("ADMIN") ==> Visible(NavItems, role) == NavItems
    ensures role != Some("ADMIN") ==> Visible(NavItems, role) == NavItems[..6] && |Visible(NavItems, role)| == 6
  {
    assert NavItems[6].adminOnly;
    assert forall k :: 0 <= k < 6 ==> !NavItems[k].adminOnly;
    OnlyLastAdmin(NavItems, role);
  }

  /** A list whose last item alone is admin-only: administrators keep all of it, anyone else all but the last. */
  lemma OnlyLastAdmin(items: seq<NavItem>, role: Option<string>)
    requires items != [] && items[|items| - 1].adminOnly
    requires forall k :: 0 <= k < |items| - 1 ==> !items[k].adminOnly
    ensures role == Some("ADMIN") ==> Visible(items, role) == items
    ensures role != Some("ADMIN") ==> Visible(items, role) == items[..|items| - 1]
  {
    var common, last := items[..|items| - 1], [items[|items| - 1]];
    assert items == common + last;
    VisibleAppend(common, last, role);
    AllShown(common, role);
    assert last[1..] == [];
  }

  /** Filtering a concatenation filters each part. */
  lemma {:induction false} VisibleAppend(a: seq<NavItem>, b: seq<NavItem>, role: Option<string>)
    ensures Visible(a + b, role) == Visible(a, role) + Visible(b, role)
  {
    if a != [] {
      var ab := a + b;
      VisibleAppend(a[1..], b, role);
      assert ab[0] == a[0] && ab[1..] == a[1..] + b;
      if Shown(a[0], role) {
        assert Visible(ab, role) == [a[0]] + Visible(ab[1..], role);
        assert Visible(a, role) == [a[0]] + Visible(a[1..], role);
      } else {
        assert Visible(ab, role) == Visible(ab[1..], role);
        assert Visible(a, role) == Visible(a[1..], role);
      }
    } else {
      assert a + b == b;
    }
  }

  /** Items that are not admin-only are all kept. */
  lemma {:induction false} AllShown(items: seq<NavItem>, role: Option<string>)
    requires forall k :: 0 <= k < |items| ==> !items[k].adminOnly
    ensures Visible(items, role) == items
  {
    if items != [] {
      AllShown(items[1..], role);
      assert items == [items[0]] + items[1..];
    }
  }

  /** `pathname === item.href || pathname.startsWith(item.href + "/")`. */
  predicate IsActive(pathname: string, href: string) {
    pathname == href || StartsWith(pathname, href + "/")
  }

  /** "/homepage" does not highlight "/home", while "/home/x" does. */
  lemma WholeSegmentsOnly()
    ensures !IsActive("/homepage", "/home")
    ensures IsActive("/home/x", "/home")
  {
    assert "/homepage"[..6] != "/home/" by { assert "/homepage"[5] != "/home/"[5]; }
    assert "/home/x"[..6] == "/home/";
  }

  /** A "/word" path: one leading '/' and no other. */
  predicate SingleSegment(href: string) {
    |href| >= 2 && href[0] == '/' && forall k :: 1 <= k < |href| ==> href[k] != '/'
  }

  lemma ActivePrefix(pathname: string, href: string)
    requires IsActive(pathname, href)
    ensures |href| <= |pathname| && pathname[..|href|] == href
    ensures pathname != href ==> |href| < |pathname| && pathname[|href|] == '/'
  {
    if pathname != href {
      assert pathname[..|href| + 1][..|href|] == pathname[..|href|];
      assert (href + "/")[..|href|] == href;
      assert pathname[..|href| + 1][|href|] == pathname[|href|];
    }
  }

  /** Two single-segment hrefs active for the same path are the same href. */
  lemma ActiveUnique(pathname: string, h1: string, h2: string)
    requires SingleSegment(h1) && SingleSegment(h2)
    requires IsActive(pathname, h1) && IsActive(pathname, h2)
    ensures h1 == h2
  {
    ActivePrefix(pathname, h1);
    ActivePrefix(pathname, h2);
  }

  /** Every declared href is a single "/word" segment. */
  lemma NavHrefsSingleSegment()
    ensures forall k :: 0 <= k < |NavItems| ==> SingleSegment(NavItems[k].href)
  {
    assert SingleSegment("/home");
    assert SingleSegment("/playlists");
    assert SingleSegment("/testing");
    assert SingleSegment("/schedule");
    assert SingleSegment("/reports");
    assert SingleSegment("/dashboard");
    assert SingleSegment("/users");
  }

  /** With the declared hrefs, at most one item is highlighted, whatever the path. */
  lemma AtMostOneActive(pathname: string, i: nat, j: nat)
    requires i < j < |NavItems|
    ensures !(IsActive(pathname, NavItems[i].href) && IsActive(pathname, NavItems[j].href))
  {
    if IsActive(pathname, NavItems[i].href) && IsActive(pathname, NavItems[j].href) {
      NavHrefsSingleSegment();
      ActiveUnique(pathname, NavItems[i].href, NavItems[j].href);
      assert false;
    }
  }
}

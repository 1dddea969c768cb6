/** The navigation bar: which of its links is highlighted for the current route. */
module Navbar {
  import opened Text

  datatype NavItem = NavItem(name: string, path: string)

  const NavItems: seq<NavItem> := [
    NavItem("Home", "/"),
    NavItem("About Me", "/about"),
    NavItem("Projects", "/projects"),
    NavItem("Blog", "/blog"),
    NavItem("Contact Me", "/contact")
  ]

  /** An item is highlighted on its own path, and, unless it is the home item, below it. */
  predicate IsActive(pathname: string, item: NavItem)
  {
    pathname == item.path || (item.path != "/" && StartsWith(pathname, item.path))
  }

  /** The home item is highlighted only on `/` itself. */
  lemma RootActiveOnlyAtRoot(pathname: string, item: NavItem)
    requires item.path == "/"
    ensures IsActive(pathname, item) <==> pathname == "/"
  {
  }

  /** Any other item is highlighted exactly when the pathname starts with its path. */
  lemma OtherActiveOnPrefix(pathname: string, item: NavItem)
    requires item.path != "/"
    ensures IsActive(pathname, item) <==> StartsWith(pathname, item.path)
  {
    if pathname == item.path {
      assert pathname[..|item.path|] == pathname;
    }
  }

  /** The names of the highlighted items. */
  function ActiveItems(pathname: string, items: seq<NavItem>): (names: seq<string>)
    ensures |names| <= |items|
    ensures forall k :: 0 <= k < |items| && IsActive(pathname, items[k]) ==> items[k].name in names
    ensures forall n :: n in names ==> exists k :: 0 <= k < |items| && IsActive(pathname, items[k]) && items[k].name == n
  {
    if items == [] then []
    else
      var rest := ActiveItems(pathname, items[1..]);
      assert forall k :: 1 <= k < |items| ==> items[k] == items[1..][k - 1];
      if IsActive(pathname, items[0]) then [items[0].name] + rest else rest
  }

  /** A list in which no item is active highlights no name. */
  lemma {:induction false} NoneActive(pathname: string, items: seq<NavItem>)
    requires forall k :: 0 <= k < |items| ==> !IsActive(pathname, items[k])
    ensures ActiveItems(pathname, items) == []
    decreases |items|
  {
    if items != [] {
      assert forall k :: 1 <= k < |items| ==> items[k] == items[1..][k - 1];
      NoneActive(pathname, items[1..]);
    }
  }

  /** A list in which at most one item is active has at most one highlighted name. */
  lemma {:induction false} ActiveItemsOfSingle(pathname: string, items: seq<NavItem>)
    requires forall i, j ::
      0 <= i < |items| && 0 <= j < |items| && IsActive(pathname, items[i]) && IsActive(pathname, items[j]) ==> i == j
    ensures |ActiveItems(pathname, items)| <= 1
    decreases |items|
  {
    if items != [] {
      var rest := items[1..];
      forall i, j | 0 <= i < |rest| && 0 <= j < |rest| &&
          IsActive(pathname, rest[i]) && IsActive(pathname, rest[j])
        ensures i == j
      {
        assert rest[i] == items[i + 1] && rest[j] == items[j + 1];
      }
      ActiveItemsOfSingle(pathname, rest);
      if IsActive(pathname, items[0]) {
        forall k | 0 <= k < |rest| ensures !IsActive(pathname, rest[k]) {
          assert rest[k] == items[k + 1];
        }
        NoneActive(pathname, rest);
      }
    }
  }

  /** Two paths of length at least 2 that both prefix a pathname share their second character. */
  lemma PrefixesAgree(pathname: string, a: string, b: string)
    requires StartsWith(pathname, a) && StartsWith(pathname, b)
    requires |a| >= 2 && |b| >= 2
    ensures a[1] == b[1]
  {
    assert a[1] == pathname[1] == b[1];
  }

  /** Whatever the pathname, at most one item of the bar is highlighted. */
  lemma AtMostOneActive(pathname: string, i: nat, j: nat)
    requires i < |NavItems| && j < |NavItems|
    requires IsActive(pathname, NavItems[i]) && IsActive(pathname, NavItems[j])
    ensures i == j
  {
    if i != 0 && j != 0 {
      OtherActiveOnPrefix(pathname, NavItems[i]);
      OtherActiveOnPrefix(pathname, NavItems[j]);
      PrefixesAgree(pathname, NavItems[i].path, NavItems[j].path);
    }
  }

  /** Whatever the pathname, the bar highlights at most one name. */
  lemma OneHighlightedName(pathname: string)
    ensures |ActiveItems(pathname, NavItems)| <= 1
  {
    forall i, j | 0 <= i < |NavItems| && 0 <= j < |NavItems| &&
        IsActive(pathname, NavItems[i]) && IsActive(pathname, NavItems[j])
      ensures i == j
    {
      AtMostOneActive(pathname, i, j);
    }
    ActiveItemsOfSingle(pathname, NavItems);
  }

  /** The item a pathname highlights, if any, is the one whose path shares its second character. */
  lemma ActiveBySecondChar(pathname: string, k: nat)
    requires k < |NavItems| && k != 0 && |pathname| >= 2
    requires IsActive(pathname, NavItems[k])
    ensures NavItems[k].path[1] == pathname[1]
  {
    OtherActiveOnPrefix(pathname, NavItems[k]);
  }

  /** The detail routes highlight their section's item and no other. */
  lemma DetailRoutesHighlightTheirSection(k: nat)
    requires k < |NavItems|
    ensures IsActive("/projects/[slug]", NavItems[k]) <==> NavItems[k].name == "Projects"
    ensures IsActive("/blog/[slug]", NavItems[k]) <==> NavItems[k].name == "Blog"
  {
    var p, b := "/projects/[slug]", "/blog/[slug]";
    assert p[..9] == "/projects";
    assert b[..5] == "/blog";
    if k != 0 && IsActive(p, NavItems[k]) {
      ActiveBySecondChar(p, k);
    }
    if k != 0 && IsActive(b, NavItems[k]) {
      ActiveBySecondChar(b, k);
    }
  }
}

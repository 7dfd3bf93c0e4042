/**
 * The sidebar: the theme switch, the three navigation links with the active
 * one highlighted, and the open flag of the mobile drawer.
 */
module Sidebar {

  /** `toggleTheme`: "dark" becomes "light", anything else becomes "dark". */
  function Toggle(theme: string): (t: string)
    ensures t == "dark" || t == "light"
    ensures t == "dark" <==> theme != "dark"
  {
    if theme == "dark" then "light" else "dark"
  }

  /** Toggling twice restores "dark" and "light"; any other value ends up "light". */
  lemma ToggleTwice(theme: string)
    ensures theme == "dark" || theme == "light" ==> Toggle(Toggle(theme)) == theme
    ensures theme != "dark" && theme != "light" ==> Toggle(Toggle(theme)) == "light"
  {
  }

  datatype MenuItem = MenuItem(name: string, path: string)

  /** The navigation links, in display order: three links to three different paths. */
  function Menu(): (m: seq<MenuItem>)
    ensures |m| == 3
    ensures forall i, j :: 0 <= i < j < |m| ==> m[i].path != m[j].path
  {
    var m := [
      MenuItem("Dashboard", "/dashboard"),
      MenuItem("Transactions", "/transactions"),
      MenuItem("Settings", "/settings")
    ];
    assert m[0].path[1] == 'd' && m[1].path[1] == 't' && m[2].path[1] == 's';
    m
  }

  /** `location.pathname === item.path`: an exact match, no prefix matching, so a
      link is never active on a longer path below it, nor on a shorter one above it. */
  predicate IsActive(pathname: string, item: MenuItem)
    ensures |pathname| != |item.path| ==> !IsActive(pathname, item)
  {
    pathname == item.path
  }

  /** The indices of the links highlighted for a pathname. */
  function ActiveLinks(pathname: string): set<nat>
  {
    set i: nat | i < |Menu()| && IsActive(pathname, Menu()[i])
  }

  /** At most one link is highlighted: exactly one on the three page paths, none elsewhere. */
  lemma AtMostOneActive(pathname: string)
    ensures |ActiveLinks(pathname)| <= 1
    ensures pathname == "/dashboard" ==> ActiveLinks(pathname) == {0}
    ensures pathname == "/transactions" ==> ActiveLinks(pathname) == {1}
    ensures pathname == "/settings" ==> ActiveLinks(pathname) == {2}
    ensures pathname != "/dashboard" && pathname != "/transactions" && pathname != "/settings"
      ==> ActiveLinks(pathname) == {}
  {
    var s := ActiveLinks(pathname);
    assert Menu()[0].path == "/dashboard" && Menu()[1].path == "/transactions" && Menu()[2].path == "/settings";
    assert "/dashboard" != "/transactions" && "/dashboard" != "/settings" && "/transactions" != "/settings" by {
      assert "/dashboard"[1] == 'd' && "/transactions"[1] == 't' && "/settings"[1] == 's';
    }
    if pathname == "/dashboard" {
      assert s == {0};
    } else if pathname == "/transactions" {
      assert s == {1};
    } else if pathname == "/settings" {
      assert s == {2};
    } else {
      assert s == {};
    }
  }

  /** The mobile drawer. */
  class Drawer {
    var open: bool

    /** `useState(false)`: the drawer starts closed. */
    constructor ()
      ensures !open
    {
      open := false;
    }

    /** The hamburger button. */
    method Open()
      modifies this
      ensures open
    {
      open := true;
    }

    /** A click on the overlay or on a menu link. */
    method Close()
      modifies this
      ensures !open
    {
      open := false;
    }
  }
}

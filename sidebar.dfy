/** The application sidebar: the navigation items with their active flags,
    the search box that hands a claim to the chat page, and the reset
    button. */
module Sidebar {

  import opened Common
  import opened Text
  import opened Store

  datatype NavItem = NavItem(title: string, href: string, active: bool)

  function MainNavItems(pathname: string): (items: seq<NavItem>)
    ensures |items| == 4
    ensures forall i :: 0 <= i < |items| ==> (items[i].active <==> pathname == items[i].href)
  {
    [NavItem("Dashboard", "/", pathname == "/"),
     NavItem("Explore", "/explore", pathname == "/explore"),
     NavItem("History", "/history", pathname == "/history"),
     NavItem("Insights", "/insights", pathname == "/insights")]
  }

  function SettingsNavItems(pathname: string): (items: seq<NavItem>)
    ensures |items| == 3
    ensures forall i :: 0 <= i < |items| ==> (items[i].active <==> pathname == items[i].href)
  {
    [NavItem("Profile", "/profile", pathname == "/profile"),
     NavItem("Settings", "/settings", pathname == "/settings"),
     NavItem("About", "/about", pathname == "/about")]
  }

  /** The hrefs of the sidebar are all different, so at most one item is
      active for any pathname, and exactly one when the pathname is one of
      them. */
  lemma AtMostOneActive(pathname: string)
    ensures var items := MainNavItems(pathname) + SettingsNavItems(pathname);
            forall i, j :: 0 <= i < j < |items| && items[i].active ==> !items[j].active
  {
    var items := MainNavItems(pathname) + SettingsNavItems(pathname);
    assert |"/"| == 1 && |"/explore"| == 8 && |"/history"| == 8 && |"/insights"| == 9;
    assert |"/profile"| == 8 && |"/settings"| == 9 && |"/about"| == 6;
    assert "/explore"[1] != "/history"[1] && "/explore"[1] != "/profile"[1] && "/history"[1] != "/profile"[1];
    assert "/insights"[1] != "/settings"[1];
    forall i, j | 0 <= i < j < |items| && items[i].active
      ensures !items[j].active
    {
      assert items[i].href != items[j].href;
    }
  }

  /** The sidebar's own state: the text in its search box. */
  class SearchBox {
    var searchQuery: string

    constructor ()
      ensures searchQuery == ""
    {
      searchQuery := "";
    }

    method Type(text: string)
      modifies this
      ensures searchQuery == text
    {
      searchQuery := text;
    }

    /** handleSearchSubmit: a query that is blank after trimming does
        nothing; otherwise the untrimmed query goes to the store with
        auto-submit on, the app navigates to the chat page and the box is
        cleared. */
    method HandleSearchSubmit(store: FactCheckStore) returns (navigateTo: Option<string>)
      modifies this, store
      ensures JsTrim(old(searchQuery)) == "" ==> navigateTo == None && unchanged(this) && unchanged(store)
      ensures JsTrim(old(searchQuery)) != "" ==>
                store.claim == old(searchQuery) && store.autoSubmit
                && navigateTo == Some("/") && searchQuery == ""
    {
      if JsTrim(searchQuery) != "" {
        store.SetClaim(searchQuery);
        store.SetAutoSubmit(true);
        navigateTo := Some("/");
        searchQuery := "";
      } else {
        navigateTo := None;
      }
    }
  }

  /** handleReset: only a navigation to the chat page; it takes no store
      and so leaves it as it is. */
  function HandleReset(): (navigateTo: string)
    ensures navigateTo == "/" && navigateTo == MainNavItems("/")[0].href
  {
    "/"
  }
}

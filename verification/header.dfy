/**
 * The site header (`Header`): which navigation entries a visitor sees,
 * which one is marked as the current page, the mobile menu's open flag and
 * the log-out handler. Both the desktop list and the mobile panel render
 * the same entries, so they are modelled once.
 */
module Header {
  import opened JsText
  import opened Ui

  /** One entry of `navItems`; `active` says whether it is shown. */
  datatype NavItem = NavItem(name: string, slug: string, active: bool)

  /** `navItems` for the given `authStatus`, in declared order. */
  function NavItems(authStatus: bool): seq<NavItem> {
    [ NavItem("Home", "/", true),
      NavItem("My Account", "/login", !authStatus),
      NavItem("All Posts", "/all-posts", authStatus),
      NavItem("Add Post", "/add-post", authStatus) ]
  }

  /** `items.filter((i) => i.active)`. */
  function Visible(items: seq<NavItem>): (r: seq<NavItem>)
    ensures |r| <= |items|
    ensures forall x :: x in r <==> x in items && x.active
  {
    if items == [] then []
    else if items[0].active then [items[0]] + Visible(items[1..])
    else Visible(items[1..])
  }

  /** `isActive(slug)`: the current path is the slug or lies below it. */
  predicate IsActive(pathname: string, slug: string) {
    pathname == slug || StartsWith(pathname, slug + "/")
  }

  /** The item is styled as the call to action. */
  predicate IsCta(item: NavItem, authStatus: bool) {
    item.slug == "/add-post" && authStatus
  }

  /** What one menu lists: a link per visible item, then the log-out entry
      when signed in. */
  datatype Entry = Link(item: NavItem, cta: bool) | Logout

  function MenuEntries(authStatus: bool): (r: seq<Entry>)
    ensures |r| >= 1 && r[0] == Link(NavItem("Home", "/", true), false)
  {
    var links := seq(|Visible(NavItems(authStatus))|,
                     i requires 0 <= i < |Visible(NavItems(authStatus))| =>
                       var item := Visible(NavItems(authStatus))[i];
                       Link(item, IsCta(item, authStatus)));
    links + (if authStatus then [Logout] else [])
  }

  /** A signed-in visitor sees Home, All Posts, Add Post and then Log out,
      with only Add Post styled as the call to action; a visitor who is not
      signed in sees Home and My Account, and no log-out entry. */
  lemma EntriesByAuth(authStatus: bool)
    ensures authStatus ==> (MenuEntries(authStatus) ==
      [ Link(NavItem("Home", "/", true), false),
        Link(NavItem("All Posts", "/all-posts", true), false),
        Link(NavItem("Add Post", "/add-post", true), true),
        Logout ])
    ensures !authStatus ==> (MenuEntries(authStatus) ==
      [ Link(NavItem("Home", "/", true), false),
        Link(NavItem("My Account", "/login", true), false) ])
    ensures Logout in MenuEntries(authStatus) <==> authStatus
  {
    var items := NavItems(authStatus);
    assert items[3..][1..] == [];
    assert items[2..][1..] == items[3..];
    assert items[1..][1..] == items[2..];
    var v3 := Visible(items[3..]);
    assert v3 == if authStatus then [items[3]] else [];
    var v2 := Visible(items[2..]);
    assert v2 == if authStatus then [items[2]] + v3 else v3;
    var v1 := Visible(items[1..]);
    assert v1 == if !authStatus then [items[1]] + v2 else v2;
    assert Visible(items) == [items[0]] + v1;
  }

  /** Being active is matching the slug a whole path segment at a time:
      "/add-post" is active on "/add-post/x" but not on "/add-posts". */
  lemma ActiveIffSegmentPrefix(pathname: string, slug: string)
    ensures IsActive(pathname, slug) <==>
            StartsWith(pathname, slug) && (|pathname| == |slug| || pathname[|slug|] == '/')
  {
    if StartsWith(pathname, slug) && |pathname| > |slug| && pathname[|slug|] == '/' {
      assert pathname[..|slug| + 1] == pathname[..|slug|] + [pathname[|slug|]];
    }
    if StartsWith(pathname, slug + "/") {
      assert pathname[..|slug|] == (slug + "/")[..|slug|];
    }
  }

  /** Home ("/") is active only on "/" itself, and on paths starting "//". */
  lemma HomeActiveOnlyAtRoot(pathname: string)
    ensures IsActive(pathname, "/") <==> pathname == "/" || StartsWith(pathname, "//")
  {
    assert "/" + "/" == "//";
  }

  /** The header's own state: the current path, the mobile menu flag, and
      what it has asked of the app. */
  class Menu {
    var pathname: string
    var open: bool
    var effects: seq<Effect>

    constructor (pathname: string)
      ensures this.pathname == pathname && !open && effects == []
    {
      this.pathname := pathname;
      open := false;
      effects := [];
    }

    /** The hamburger button. */
    method Toggle()
      modifies this
      ensures open == !old(open)
      ensures pathname == old(pathname) && effects == old(effects)
    {
      open := !open;
    }

    /** A new location: the effect keyed on `pathname` closes the menu, and
        runs only when the path actually changed. */
    method OnRouteChange(p: string)
      modifies this
      ensures pathname == p
      ensures open == (old(open) && p == old(pathname))
      ensures effects == old(effects)
    {
      if p != pathname {
        open := false;
      }
      pathname := p;
    }

    /** A key press anywhere in the window: Escape closes the menu. */
    method OnKey(key: string)
      modifies this
      ensures open == (old(open) && key != "Escape")
      ensures pathname == old(pathname) && effects == old(effects)
    {
      if key == "Escape" {
        open := false;
      }
    }

    /** A link in the mobile panel: it navigates and closes the menu. */
    method OnMobileLinkClick(item: NavItem)
      modifies this
      ensures !open
      ensures pathname == old(pathname) && effects == old(effects) + [Navigate(item.slug)]
    {
      effects := effects + [Navigate(item.slug)];
      open := false;
    }

    /** `logoutHandler`: the auth service's `logout` swallows its own
        errors, so the session is always cleared and the visitor sent to the
        log-in page, in this order. */
    method LogoutHandler()
      modifies this
      ensures effects == old(effects) + [AuthLogout, DispatchLogout, Navigate("/login")]
      ensures open == old(open) && pathname == old(pathname)
    {
      effects := effects + [AuthLogout];
      effects := effects + [DispatchLogout];
      effects := effects + [Navigate("/login")];
    }
  }
}

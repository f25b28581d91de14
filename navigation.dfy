/** The navigation bar (components/navigation.tsx): the active-link test on
    the current path and the two menu flags. */
module Navigation {
  import opened Text

  /** `isActive(href)` on `pathname`: the root link is also active on
      "/analyze"; any other link on its own path and on the paths below it. */
  predicate IsActive(pathname: string, href: string)
    ensures pathname == href ==> IsActive(pathname, href)
    ensures href != "/" && IsActive(pathname, href) ==> StartsWith(pathname, href)
  {
    if href == "/" then pathname == "/" || pathname == "/analyze"
    else pathname == href || StartsWith(pathname, href + "/")
  }

  /** For a link other than the root, active means: the path starts with the
      link, and either ends there or continues with a '/'. */
  lemma ActiveIsSegmentPrefix(pathname: string, href: string)
    requires href != "/"
    ensures IsActive(pathname, href) <==>
      StartsWith(pathname, href) && (|pathname| == |href| || pathname[|href|] == '/')
  {
    var n := |href|;
    if StartsWith(pathname, href + "/") {
      assert pathname[..n] == (href + "/")[..n] == href;
      assert pathname[n] == (href + "/")[n];
    }
    if StartsWith(pathname, href) && |pathname| == n {
      assert pathname == pathname[..n];
    }
    if StartsWith(pathname, href) && |pathname| > n && pathname[n] == '/' {
      assert pathname[..n + 1] == pathname[..n] + [pathname[n]];
    }
  }

  /** The root link is active exactly on "/" and "/analyze", not below them. */
  lemma RootActive(pathname: string)
    ensures IsActive(pathname, "/") <==> pathname in {"/", "/analyze"}
    ensures !IsActive("/analyze/x", "/")
  {
  }

  /** Every link is active on its own path. */
  lemma SelfActive(href: string)
    ensures IsActive(href, href)
  {
  }

  /** "/reports" is active below itself but not on a path that merely shares its prefix. */
  lemma ReportsExamples()
    ensures IsActive("/reports/1", "/reports")
    ensures !IsActive("/reportsX", "/reports")
    ensures !IsActive("/report", "/reports")
  {
    ActiveIsSegmentPrefix("/reportsX", "/reports");
    assert "/reports/1"[..9] == "/reports/";
  }

  /** The component's state flags. */
  class NavigationBar {
    var mobileOpen: bool
    var analyzeOpen: bool
    var loginModal: bool

    constructor ()
      ensures !mobileOpen && !analyzeOpen && !loginModal
    {
      mobileOpen := false;
      analyzeOpen := false;
      loginModal := false;
    }

    /** The hamburger button. */
    method ToggleMobile()
      modifies this
      ensures mobileOpen == !old(mobileOpen)
      ensures loginModal == old(loginModal) && analyzeOpen == old(analyzeOpen)
    {
      mobileOpen := !mobileOpen;
    }

    /** Either Login button. */
    method OpenLogin()
      modifies this
      ensures loginModal
      ensures mobileOpen == old(mobileOpen) && analyzeOpen == old(analyzeOpen)
    {
      loginModal := true;
    }

    /** The close button of the login modal. */
    method CloseLogin()
      modifies this
      ensures !loginModal
      ensures mobileOpen == old(mobileOpen) && analyzeOpen == old(analyzeOpen)
    {
      loginModal := false;
    }
  }

  /** Pressing the hamburger twice restores the menu. */
  method ToggleTwice(bar: NavigationBar)
    modifies bar
    ensures bar.mobileOpen == old(bar.mobileOpen) && bar.loginModal == old(bar.loginModal)
  {
    bar.ToggleMobile();
    bar.ToggleMobile();
  }
}

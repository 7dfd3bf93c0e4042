/**
 * The shell around the signed-in pages: the colour theme, kept in browser
 * storage, and the logout confirmation.
 */
module Layout {
  import opened Values
  import opened Sidebar

  /** `localStorage.getItem("theme") || "dark"`: a missing or empty stored value
      falls back to "dark". */
  function InitialTheme(stored: Option<string>): (t: string)
    ensures t != ""
    ensures stored.Some? && stored.value != "" ==> t == stored.value
    ensures stored.None? || stored.value == "" ==> t == "dark"
  {
    if stored.Some? && stored.value != "" then stored.value else "dark"
  }

  /** Dark mode is on exactly when the theme switch would turn it to "light". */
  predicate IsDark(theme: string)
    ensures IsDark(theme) <==> Toggle(theme) == "light"
  {
    theme == "dark"
  }

  /** The theme the shell persisted is the one it starts with after a reload. */
  lemma ThemeSurvivesReload(theme: string)
    requires theme != ""
    ensures InitialTheme(Some(theme)) == theme
  {
  }

  /** The theme switch flips dark mode, and never produces a value storage would drop. */
  lemma ToggleFlipsDark(theme: string)
    ensures IsDark(Toggle(theme)) <==> !IsDark(theme)
    ensures InitialTheme(Some(Toggle(theme))) == Toggle(theme)
  {
  }

  /** The shell's state, the browser location and the session. */
  class Shell {
    var theme: string
    var storedTheme: Option<string>
    var showLogoutModal: bool
    var pathname: string
    var signedIn: bool
    const drawer: Drawer

    /** The stored theme always equals the current one, which is never empty. */
    ghost predicate Valid()
      reads this
    {
      storedTheme == Some(theme) && theme != ""
    }

    /** Mounting: the theme is read from storage and written back by the effect. */
    constructor (stored: Option<string>, pathname: string)
      ensures Valid()
      ensures theme == InitialTheme(stored) && storedTheme == Some(theme)
      ensures !showLogoutModal && signedIn && this.pathname == pathname
      ensures fresh(drawer) && !drawer.open
    {
      theme := InitialTheme(stored);
      storedTheme := Some(InitialTheme(stored));
      showLogoutModal := false;
      this.pathname := pathname;
      signedIn := true;
      drawer := new Drawer();
    }

    /** The sidebar's switch: `setTheme(toggleTheme(theme))`, then the effect
        persists the new theme. */
    method ToggleTheme()
      requires Valid()
      modifies this
      ensures Valid()
      ensures theme == Toggle(old(theme)) && (IsDark(theme) <==> !IsDark(old(theme)))
      ensures showLogoutModal == old(showLogoutModal) && pathname == old(pathname)
      ensures signedIn == old(signedIn)
    {
      theme := Toggle(theme);
      storedTheme := Some(theme);
    }

    /** The sidebar's Logout button only asks for confirmation. */
    method OpenLogoutModal()
      requires Valid()
      modifies this
      ensures Valid()
      ensures showLogoutModal
      ensures theme == old(theme) && storedTheme == old(storedTheme)
      ensures pathname == old(pathname) && signedIn == old(signedIn)
    {
      showLogoutModal := true;
    }

    /** The confirmation's Cancel: the modal closes and the session stays. */
    method CancelLogout()
      requires Valid()
      modifies this
      ensures Valid()
      ensures !showLogoutModal
      ensures theme == old(theme) && storedTheme == old(storedTheme)
      ensures pathname == old(pathname) && signedIn == old(signedIn)
    {
      showLogoutModal := false;
    }

    /** `handleLogout`: a successful sign-out ends the session and navigates to
        "/"; a failed one changes nothing. */
    method Logout(ok: bool)
      requires Valid()
      modifies this
      ensures Valid()
      ensures ok ==> !signedIn && pathname == "/"
      ensures !ok ==> signedIn == old(signedIn) && pathname == old(pathname)
      ensures theme == old(theme) && storedTheme == old(storedTheme)
      ensures showLogoutModal == old(showLogoutModal)
    {
      if ok {
        signedIn := false;
        pathname := "/";
      }
    }

    /** A menu link: the drawer closes and the location becomes the link's path,
        which is then the only active link. */
    method FollowLink(i: nat)
      requires Valid() && i < |Menu()|
      modifies this, drawer
      ensures Valid()
      ensures pathname == Menu()[i].path && !drawer.open
      ensures ActiveLinks(pathname) == {i}
      ensures theme == old(theme) && storedTheme == old(storedTheme)
      ensures showLogoutModal == old(showLogoutModal) && signedIn == old(signedIn)
    {
      drawer.Close();
      pathname := Menu()[i].path;
      AtMostOneActive(pathname);
    }
  }
}

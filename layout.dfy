/**
 * The page shell (app/src/components/Layout.tsx): one `isMenuOpen` flag shared
 * by the header's menu button, which toggles it, and the sidebar, which
 * closes it; an effect on the router's pathname closes it on every route change.
 */
module Layout {
  import Sidebar

  /** The shell's state: the menu flag and the pathname the effect last saw. */
  datatype Shell = Shell(menuOpen: bool, pathname: string)

  /** What changes the flag. */
  datatype ShellEvent =
    | MenuButton                    // Header's `onMenuClick`
    | SidebarClose                  // Sidebar's `onClose`
    | PathnameChange(path: string)  // the router's location after a navigation

  /** The menu starts closed on whatever route the shell is mounted. */
  function Mount(pathname: string): (s: Shell)
    ensures !s.menuOpen && s.pathname == pathname
  {
    Shell(false, pathname)
  }

  /** The state after one event; the effect reruns only when the pathname differs. */
  function Step(s: Shell, e: ShellEvent): Shell {
    match e
    case MenuButton => s.(menuOpen := !s.menuOpen)
    case SidebarClose => s.(menuOpen := false)
    case PathnameChange(p) => if p != s.pathname then Shell(false, p) else s
  }

  /** The state after a sequence of events. */
  function Run(s: Shell, es: seq<ShellEvent>): Shell
    decreases |es|
  {
    if es == [] then s else Run(Step(s, es[0]), es[1..])
  }

  /** The menu button is its own inverse. */
  lemma ToggleTwice(s: Shell)
    ensures Step(Step(s, MenuButton), MenuButton) == s
    ensures Step(s, MenuButton).menuOpen != s.menuOpen
  {
  }

  /** Closing from the sidebar always closes, and closing again changes nothing. */
  lemma CloseIdempotent(s: Shell)
    ensures !Step(s, SidebarClose).menuOpen
    ensures Step(Step(s, SidebarClose), SidebarClose) == Step(s, SidebarClose)
    ensures Step(s, SidebarClose).pathname == s.pathname
  {
  }

  /** After a route change the menu is closed, whatever it was before. */
  lemma RouteChangeCloses(s: Shell, p: string)
    requires p != s.pathname
    ensures Step(s, PathnameChange(p)) == Shell(false, p)
  {
  }

  predicate Odd(n: nat) {
    n % 2 == 1
  }

  /** Only presses of the menu button: the menu is open iff it started open xor it was pressed an odd number of times. */
  lemma {:induction false} PressesOnly(s: Shell, es: seq<ShellEvent>)
    requires forall i :: 0 <= i < |es| ==> es[i] == MenuButton
    ensures Run(s, es).pathname == s.pathname
    ensures Run(s, es).menuOpen == (s.menuOpen != Odd(|es|))
    decreases |es|
  {
    if es != [] {
      PressesOnly(Step(s, MenuButton), es[1..]);
    }
  }

  /** A sequence that ends with a close, or with a change to a new route, leaves the menu closed. */
  lemma {:induction false} EndsClosed(s: Shell, es: seq<ShellEvent>)
    requires es != []
    requires es[|es| - 1] == SidebarClose
          || (es[|es| - 1].PathnameChange? && es[|es| - 1].path != Run(s, es[..|es| - 1]).pathname)
    ensures !Run(s, es).menuOpen
  {
    RunSnoc(s, es[..|es| - 1], es[|es| - 1]);
    assert es[..|es| - 1] + [es[|es| - 1]] == es;
  }

  /** Running one more event is one more step. */
  lemma {:induction false} RunSnoc(s: Shell, es: seq<ShellEvent>, e: ShellEvent)
    ensures Run(s, es + [e]) == Step(Run(s, es), e)
    decreases |es|
  {
    if es == [] {
      assert es + [e] == [e];
    } else {
      assert (es + [e])[0] == es[0] && (es + [e])[1..] == es[1..] + [e];
      RunSnoc(Step(s, es[0]), es[1..], e);
    }
  }

  /** The pathname a link or `navigate` call leads to: the part before the fragment. */
  function PathOf(to: string): (p: string)
    ensures '#' !in p
    ensures p <= to
    ensures |p| == |to| || to[|p|] == '#'
  {
    to[..Sidebar.HashIndex(to)]
  }

  /** The pathname the router shows after a sidebar click. */
  function PathAfter(a: Sidebar.Action, pathname: string): string {
    match a
    case FollowLink(to) => PathOf(to)
    case Navigate(to) => PathOf(to)
    case _ => pathname
  }

  /** The mounted shell. */
  class LayoutView {
    var isMenuOpen: bool
    var pathname: string

    function State(): Shell
      reads this
    {
      Shell(isMenuOpen, pathname)
    }

    constructor (path: string)
      ensures State() == Mount(path)
    {
      isMenuOpen := false;
      pathname := path;
    }

    /** The header's menu button: `setIsMenuOpen(!isMenuOpen)`. */
    method MenuClick()
      modifies this`isMenuOpen
      ensures State() == Step(old(State()), MenuButton)
    {
      isMenuOpen := !isMenuOpen;
    }

    /** The sidebar's `onClose`: `setIsMenuOpen(false)`. */
    method CloseMenu()
      modifies this`isMenuOpen
      ensures State() == Step(old(State()), SidebarClose)
    {
      isMenuOpen := false;
    }

    /** The router's location changes; the effect on `pathname` closes the menu. */
    method LocationChanged(path: string)
      modifies this
      ensures State() == Step(old(State()), PathnameChange(path))
    {
      if path != pathname {
        pathname := path;
        isMenuOpen := false;
      }
    }

    /**
     * A click on a sidebar entry: the sidebar closes the menu, then the router
     * follows the link or the navigation (if any), which updates the pathname.
     */
    method SidebarItemClick(item: Sidebar.MenuItem, pageIds: set<string>) returns (r: Sidebar.ClickEffect)
      modifies this
      ensures r == Sidebar.HandleItemClick(item, old(pathname), pageIds)
      ensures !isMenuOpen
      ensures pathname == PathAfter(r.action, old(pathname))
      ensures r.action.ScrollTo? || r.action.Nothing? ==> pathname == old(pathname) == "/"
    {
      r := Sidebar.HandleItemClick(item, pathname, pageIds);
      CloseMenu();
      match r.action {
        case FollowLink(to) => LocationChanged(PathOf(to));
        case Navigate(to) => LocationChanged(PathOf(to));
        case _ =>
      }
    }
  }

  /** Navigating to a section from another page always lands on the home route. */
  lemma NavigateLandsHome(item: Sidebar.MenuItem, pathname: string, pageIds: set<string>)
    requires Sidebar.Intercepts(item)
    requires pathname != "/"
    ensures PathAfter(Sidebar.HandleItemClick(item, pathname, pageIds).action, pathname) == "/"
  {
    var id := Sidebar.SectionIdOf(item);
    if id != "" {
      var to := Sidebar.SectionPath(id);
      assert to == "/" + ("#" + id);
      Sidebar.HashIndexAppend("/", "#" + id);
    }
  }
}

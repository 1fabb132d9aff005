/**
 * The application shell's two sidebar flags: the mobile overlay (`sidebarOpen`) and the desktop collapse
 * (`sidebarCollapsed`).  Each event keeps them from being set together.
 */
module AppShell {

  datatype ShellState = ShellState(sidebarOpen: bool, sidebarCollapsed: bool)

  /** The events the shell reacts to: the menu button, and the sidebar reporting its collapse flag. */
  datatype ShellEvent = MenuClick | SidebarToggled(collapsed: bool)

  const InitialState := ShellState(false, false)

  /** An open overlay is never collapsed. */
  predicate Consistent(s: ShellState) {
    !(s.sidebarOpen && s.sidebarCollapsed)
  }

  /** `onClick`: flip the overlay; opening it expands a collapsed sidebar. */
  function Click(s: ShellState): (r: ShellState)
    ensures r.sidebarOpen == !s.sidebarOpen
    ensures Consistent(r)
    ensures !r.sidebarOpen ==> r.sidebarCollapsed == s.sidebarCollapsed
  {
    var open := !s.sidebarOpen;
    ShellState(open, if open && s.sidebarCollapsed then false else s.sidebarCollapsed)
  }

  /** `onSidebarToggle(collapsed)`: take the flag; collapsing closes an open overlay. */
  function SidebarToggle(s: ShellState, collapsed: bool): (r: ShellState)
    ensures r.sidebarCollapsed == collapsed
    ensures Consistent(r)
    ensures !collapsed ==> r.sidebarOpen == s.sidebarOpen
  {
    ShellState(if s.sidebarOpen && collapsed then false else s.sidebarOpen, collapsed)
  }

  function Step(s: ShellState, e: ShellEvent): ShellState {
    match e
    case MenuClick => Click(s)
    case SidebarToggled(collapsed) => SidebarToggle(s, collapsed)
  }

  /** The state after a sequence of events from the start. */
  function Run(events: seq<ShellEvent>): ShellState {
    if events == [] then InitialState else Step(Run(events[..|events| - 1]), events[|events| - 1])
  }

  /** Every reachable state has the overlay and the collapse apart. */
  lemma ReachableStatesAreConsistent(events: seq<ShellEvent>)
    ensures Consistent(Run(events))
  {
  }

  /** Two clicks from a consistent state close the overlay again, and a collapsed sidebar opened by them stays expanded. */
  lemma ClickTwice(s: ShellState)
    requires Consistent(s)
    ensures Click(Click(s)).sidebarOpen == s.sidebarOpen
    ensures !s.sidebarOpen ==> Click(Click(s)) == ShellState(false, false)
    ensures s.sidebarOpen ==> Click(Click(s)) == s
  {
  }

  class AppComponent {
    var sidebarCollapsed: bool
    var sidebarOpen: bool

    function State(): ShellState
      reads this
    {
      ShellState(sidebarOpen, sidebarCollapsed)
    }

    constructor()
      ensures State() == InitialState
    {
      sidebarCollapsed := false;
      sidebarOpen := false;
    }

    /** `onClick`. */
    method OnClick()
      modifies this
      ensures State() == Click(old(State()))
    {
      sidebarOpen := !sidebarOpen;
      if sidebarOpen && sidebarCollapsed {
        sidebarCollapsed := false;
      }
    }

    /** `onSidebarToggle`. */
    method OnSidebarToggle(collapsed: bool)
      modifies this
      ensures State() == SidebarToggle(old(State()), collapsed)
    {
      sidebarCollapsed := collapsed;
      if sidebarOpen && collapsed {
        sidebarOpen := false;
      }
    }
  }
}

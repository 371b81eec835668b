/** The recovery fixture: a persistent record of panes, tabs and harness launches. */
module RecoveryFixture {
  import opened Sequences
  import opened Labels

  datatype Harness = Harness(kind: string, pid: int, arguments: seq<string>)

  /** A pane shows an empty shell until a harness is launched in it; a name or a
      session may be recorded before that. */
  datatype Pane = Pane(
    tab: string,
    workspace: string,
    terminal: string,
    title: string,
    name: Option<string>,
    session: Option<string>,
    harness: Option<Harness>,
    closed: bool)

  /** A launch: its arguments are saved; the pane and process are history. */
  datatype Launch = Launch(pane: string, pid: int, arguments: seq<string>)

  /** What is saved between calls. */
  datatype State = State(
    panes: map<string, Pane>,
    tabsCreated: nat,
    launchCount: nat,
    launches: seq<Launch>,
    closedPanes: seq<string>,
    closedTabs: seq<string>,
    failReadOnce: bool,
    failCloseOnce: bool)

  datatype Command =
    | TabCreate(workspace: string, title: string)
    | AgentStart(name: string, kind: string, pane: string, arguments: seq<string>)
    | PaneRead(pane: string)
    | PaneClose(pane: string)
    | TabGet(tab: string)
    | TabClose(tab: string)
    | TabRename(tab: string, title: string)
    | AgentRename(pane: string, name: string)
    | ReportSession(pane: string, session: string)

  datatype Outcome = Done | Created(pane: string, tab: string) | Found(pane: string)
    | Missing(target: string) | Interrupted | Refused | Raised

  const OLD_PANE := "w1:p1"

  function PaneId(n: nat): string { "w1:p" + Decimal(n) }
  function TabId(n: nat): string { "w1:t" + Decimal(n) }
  function TerminalId(n: nat): string { "term-" + Decimal(n) }

  function Fresh(failRead: bool, failClose: bool): State {
    State(map[], 0, 0, [], [], [], failRead, failClose)
  }

  predicate IsLive(s: State, pane: string) {
    pane in s.panes && !s.panes[pane].closed
  }

  /** The live panes that show a tab. */
  function Matches(s: State, tab: string): set<string> {
    set p | p in s.panes && !s.panes[p].closed && s.panes[p].tab == tab
  }

  /** The session a harness was asked for: what follows the first selector found;
      `None` when nothing follows it, which the fixture does not survive. */
  function Session(arguments: seq<string>): Option<string> {
    if "--session-id" in arguments then After(arguments, "--session-id")
    else if "--resume" in arguments then After(arguments, "--resume")
    else if "resume" in arguments then After(arguments, "resume")
    else Some("session-1")
  }

  function After(arguments: seq<string>, selector: string): Option<string> {
    if arguments == [] then None
    else if arguments[0] != selector then After(arguments[1..], selector)
    else if |arguments| == 1 then None
    else Some(arguments[1])
  }

  // ---------------------------------------------------------------- one call

  function CreateTab(s: State, workspace: string, title: string): State {
    var n := s.tabsCreated + 1;
    s.(tabsCreated := n,
       panes := s.panes[PaneId(n) := Pane(TabId(n), workspace, TerminalId(n), title, None, None, None, false)])
  }

  function StartAgent(s: State, pids: seq<int>, name: string, kind: string, pane: string, arguments: seq<string>)
    : State
    requires pane in s.panes && s.launchCount < |pids| && Session(arguments).Some?
  {
    var pid := pids[s.launchCount];
    s.(panes := s.panes[pane := s.panes[pane].(
         name := Some(name), session := Session(arguments), harness := Some(Harness(kind, pid, arguments)))],
       launchCount := s.launchCount + 1,
       launches := s.launches + [Launch(pane, pid, arguments)])
  }

  function Shut(s: State, pane: string): State
    requires pane in s.panes
  {
    s.(panes := s.panes[pane := s.panes[pane].(closed := true)])
  }

  /** The saved state after one call, and what the call reports. */
  ghost function Step(s: State, pids: seq<int>, c: Command): (State, Outcome) {
    match c
    case TabCreate(workspace, title) =>
      (CreateTab(s, workspace, title), Created(PaneId(s.tabsCreated + 1), TabId(s.tabsCreated + 1)))
    case AgentStart(name, kind, pane, arguments) =>
      if !IsLive(s, pane) then (s, Missing(pane))
      else if s.launchCount >= |pids| then (s, Refused)
      else if Session(arguments).None? then (s, Raised)
      else (StartAgent(s, pids, name, kind, pane, arguments), Done)
    case PaneRead(pane) =>
      if !IsLive(s, pane) then (s, Missing(pane))
      else if pane == OLD_PANE && s.failReadOnce then (s.(failReadOnce := false), Interrupted)
      else (if pane == OLD_PANE then s.(failReadOnce := false) else s, Done)
    case PaneClose(pane) =>
      if !IsLive(s, pane) then (s, Missing(pane))
      else if pane == OLD_PANE && s.failCloseOnce then (s.(failCloseOnce := false), Interrupted)
      else (Shut(s, pane).(closedPanes := s.closedPanes + [pane]), Done)
    case TabGet(tab) =>
      if |Matches(s, tab)| != 1 then (s, Missing(tab)) else (s, Found(Only(Matches(s, tab))))
    case TabClose(tab) =>
      if |Matches(s, tab)| != 1 then (s, Missing(tab))
      else (Shut(s, Only(Matches(s, tab))).(closedTabs := s.closedTabs + [tab]), Done)
    case TabRename(tab, title) =>
      if |Matches(s, tab)| != 1 then (s, Missing(tab))
      else
        var p := Only(Matches(s, tab));
        (s.(panes := s.panes[p := s.panes[p].(title := title)]), Done)
    case AgentRename(pane, name) =>
      if !IsLive(s, pane) then (s, Missing(pane))
      else (s.(panes := s.panes[pane := s.panes[pane].(name := Some(name))]), Done)
    case ReportSession(pane, session) =>
      if !IsLive(s, pane) then (s, Missing(pane))
      else (s.(panes := s.panes[pane := s.panes[pane].(session := Some(session))]), Done)
  }

  ghost function Only(s: set<string>): (x: string)
    requires |s| == 1
    ensures x in s
  {
    assert s != {};
    var x :| x in s;
    x
  }

  lemma OnlyIs(s: set<string>, x: string)
    requires |s| == 1 && x in s
    ensures Only(s) == x
  {
    assert s == {x} + (s - {x});
    assert |s - {x}| == 0;
  }

  /** The fixture program: its saved state, changed in place by each call. */
  class Fixture {
    const pids: seq<int>
    var panes: map<string, Pane>
    var tabsCreated: nat
    var launchCount: nat
    var launches: seq<Launch>
    var closedPanes: seq<string>
    var closedTabs: seq<string>
    var failReadOnce: bool
    var failCloseOnce: bool

    ghost function View(): State
      reads this
    {
      State(panes, tabsCreated, launchCount, launches, closedPanes, closedTabs, failReadOnce, failCloseOnce)
    }

    constructor (pids: seq<int>, failRead: bool, failClose: bool)
      ensures this.pids == pids && View() == Fresh(failRead, failClose)
    {
      this.pids := pids;
      panes, tabsCreated, launchCount, launches := map[], 0, 0, [];
      closedPanes, closedTabs, failReadOnce, failCloseOnce := [], [], failRead, failClose;
    }

    predicate Live(pane: string)
      reads this
    {
      pane in panes && !panes[pane].closed
    }

    method FindTab(tab: string) returns (pane: Option<string>)
      ensures pane.Some? <==> |Matches(View(), tab)| == 1
      ensures pane.Some? ==> pane.value == Only(Matches(View(), tab))
    {
      var matches := set p | p in panes && !panes[p].closed && panes[p].tab == tab;
      assert matches == Matches(View(), tab);
      if |matches| != 1 {
        return None;
      }
      assert matches != {};
      var p :| p in matches;
      OnlyIs(matches, p);
      return Some(p);
    }

    method Create(workspace: string, title: string) returns (o: Outcome)
      modifies this
      ensures View() == Step(old(View()), pids, TabCreate(workspace, title)).0
      ensures o == Step(old(View()), pids, TabCreate(workspace, title)).1
    {
      tabsCreated := tabsCreated + 1;
      var pane, tab := PaneId(tabsCreated), TabId(tabsCreated);
      panes := panes[pane := Pane(tab, workspace, TerminalId(tabsCreated), title, None, None, None, false)];
      return Created(pane, tab);
    }

    method Start(name: string, kind: string, pane: string, arguments: seq<string>) returns (o: Outcome)
      modifies this
      ensures View() == Step(old(View()), pids, AgentStart(name, kind, pane, arguments)).0
      ensures o == Step(old(View()), pids, AgentStart(name, kind, pane, arguments)).1
    {
      if !Live(pane) {
        return Missing(pane);
      }
      var index := launchCount;
      if index >= |pids| {
        return Refused;
      }
      var session := Session(arguments);
      if session.None? {
        return Raised;
      }
      panes := panes[pane := panes[pane].(
        name := Some(name), session := session, harness := Some(Harness(kind, pids[index], arguments)))];
      launchCount := index + 1;
      launches := launches + [Launch(pane, pids[index], arguments)];
      return Done;
    }

    method ReadPane(pane: string) returns (o: Outcome)
      modifies this
      ensures View() == Step(old(View()), pids, PaneRead(pane)).0
      ensures o == Step(old(View()), pids, PaneRead(pane)).1
    {
      if !Live(pane) {
        return Missing(pane);
      }
      if pane == OLD_PANE {
        var fail := failReadOnce;
        failReadOnce := false;
        if fail {
          return Interrupted;
        }
      }
      return Done;
    }

    method ClosePane(pane: string) returns (o: Outcome)
      modifies this
      ensures View() == Step(old(View()), pids, PaneClose(pane)).0
      ensures o == Step(old(View()), pids, PaneClose(pane)).1
    {
      if !Live(pane) {
        return Missing(pane);
      }
      if pane == OLD_PANE && failCloseOnce {
        failCloseOnce := false;
        return Interrupted;
      }
      panes := panes[pane := panes[pane].(closed := true)];
      closedPanes := closedPanes + [pane];
      return Done;
    }

    method CloseTab(tab: string) returns (o: Outcome)
      modifies this
      ensures View() == Step(old(View()), pids, TabClose(tab)).0
      ensures o == Step(old(View()), pids, TabClose(tab)).1
    {
      var pane := FindTab(tab);
      if pane.None? {
        return Missing(tab);
      }
      panes := panes[pane.value := panes[pane.value].(closed := true)];
      closedTabs := closedTabs + [tab];
      return Done;
    }

    method RenameTab(tab: string, title: string) returns (o: Outcome)
      modifies this
      ensures View() == Step(old(View()), pids, TabRename(tab, title)).0
      ensures o == Step(old(View()), pids, TabRename(tab, title)).1
    {
      var pane := FindTab(tab);
      if pane.None? {
        return Missing(tab);
      }
      panes := panes[pane.value := panes[pane.value].(title := title)];
      return Done;
    }

    method GetTab(tab: string) returns (o: Outcome)
      ensures (View(), o) == Step(View(), pids, TabGet(tab))
    {
      var pane := FindTab(tab);
      return if pane.None? then Missing(tab) else Found(pane.value);
    }

    method RenameAgent(pane: string, name: string) returns (o: Outcome)
      modifies this
      ensures View() == Step(old(View()), pids, AgentRename(pane, name)).0
      ensures o == Step(old(View()), pids, AgentRename(pane, name)).1
    {
      if !Live(pane) {
        return Missing(pane);
      }
      panes := panes[pane := panes[pane].(name := Some(name))];
      return Done;
    }

    method Report(pane: string, session: string) returns (o: Outcome)
      modifies this
      ensures View() == Step(old(View()), pids, ReportSession(pane, session)).0
      ensures o == Step(old(View()), pids, ReportSession(pane, session)).1
    {
      if !Live(pane) {
        return Missing(pane);
      }
      panes := panes[pane := panes[pane].(session := Some(session))];
      return Done;
    }
  }
}

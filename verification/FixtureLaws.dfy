/** What the recovery fixture keeps over every sequence of calls. */
module FixtureLaws {
  import opened Sequences
  import opened Labels
  import opened RecoveryFixture

  /** The saved state after a sequence of calls. */
  ghost function Play(pids: seq<int>, s: State, calls: seq<Command>): State {
    if calls == [] then s else Step(Play(pids, s, Front(calls)), pids, Last(calls)).0
  }

  // ---------------------------------------------------------------- the invariant

  ghost predicate Numbered(s: State, p: string, n: nat) {
    && 1 <= n <= s.tabsCreated && p in s.panes
    && p == PaneId(n) && s.panes[p].tab == TabId(n) && s.panes[p].terminal == TerminalId(n)
  }

  /** Pane, tab and terminal ids carry the number of the tab they were created for. */
  ghost predicate IdsOk(s: State) {
    forall p :: p in s.panes ==> exists n :: Numbered(s, p, n)
  }

  /** Every launch took the next planned process. */
  ghost predicate LaunchesOk(s: State, pids: seq<int>) {
    && s.launchCount == |s.launches| <= |pids|
    && forall i :: 0 <= i < |s.launches| ==> s.launches[i].pid == pids[i]
  }

  ghost predicate PanesRecorded(s: State) {
    forall p :: p in s.closedPanes ==> p in s.panes && s.panes[p].closed && s.panes[p].tab !in s.closedTabs
  }

  ghost predicate TabsRecorded(s: State) {
    forall t :: t in s.closedTabs ==> exists p :: p in s.panes && s.panes[p].closed && s.panes[p].tab == t
  }

  /** A closed pane is recorded once, as a closed pane or as a closed tab, and an
      open one not at all. */
  ghost predicate ClosedOk(s: State) {
    && NoDuplicates(s.closedPanes) && NoDuplicates(s.closedTabs)
    && PanesRecorded(s) && TabsRecorded(s)
    && (forall p :: p in s.panes && s.panes[p].closed ==> p in s.closedPanes || s.panes[p].tab in s.closedTabs)
  }

  ghost predicate Inv(s: State, pids: seq<int>) {
    IdsOk(s) && LaunchesOk(s, pids) && ClosedOk(s)
  }

  // ---------------------------------------------------------------- identities

  lemma Prefixed(a: string, b: string, x: string, y: string)
    requires |a| == |b| && a + x == b + y
    ensures x == y
  {
    assert (a + x)[|a|..] == x && (b + y)[|b|..] == y;
  }

  lemma IdsInjective(m: nat, n: nat)
    ensures PaneId(m) == PaneId(n) ==> m == n
    ensures TabId(m) == TabId(n) ==> m == n
    ensures TerminalId(m) == TerminalId(n) ==> m == n
  {
    if PaneId(m) == PaneId(n) {
      Prefixed("w1:p", "w1:p", Decimal(m), Decimal(n));
      DecimalInjective(m, n);
    }
    if TabId(m) == TabId(n) {
      Prefixed("w1:t", "w1:t", Decimal(m), Decimal(n));
      DecimalInjective(m, n);
    }
    if TerminalId(m) == TerminalId(n) {
      Prefixed("term-", "term-", Decimal(m), Decimal(n));
      DecimalInjective(m, n);
    }
  }

  /** Panes with one tab, or one terminal, are one pane. */
  lemma OneToOne(s: State, p: string, q: string)
    requires IdsOk(s) && p in s.panes && q in s.panes
    ensures s.panes[p].tab == s.panes[q].tab ==> p == q
    ensures s.panes[p].terminal == s.panes[q].terminal ==> p == q
  {
    var m :| Numbered(s, p, m);
    var n :| Numbered(s, q, n);
    IdsInjective(m, n);
  }

  lemma FreshNumber(s: State)
    requires IdsOk(s)
    ensures var n := s.tabsCreated + 1;
      forall p :: p in s.panes ==>
        p != PaneId(n) && s.panes[p].tab != TabId(n) && s.panes[p].terminal != TerminalId(n)
  {
    var n := s.tabsCreated + 1;
    forall p | p in s.panes
      ensures p != PaneId(n) && s.panes[p].tab != TabId(n) && s.panes[p].terminal != TerminalId(n)
    {
      var m :| Numbered(s, p, m);
      IdsInjective(m, n);
    }
  }

  lemma LiveTabMatches(s: State, p: string)
    requires IdsOk(s) && IsLive(s, p)
    ensures Matches(s, s.panes[p].tab) == {p}
  {
    forall q | q in Matches(s, s.panes[p].tab) ensures q == p {
      OneToOne(s, p, q);
    }
    assert p in Matches(s, s.panes[p].tab);
  }

  // ---------------------------------------------------------------- each call keeps it

  /** A pane's identity and fate are untouched. */
  ghost predicate SamePanes(s: State, s': State) {
    && s'.panes.Keys == s.panes.Keys && s'.tabsCreated == s.tabsCreated
    && forall p :: p in s.panes ==>
      s'.panes[p].tab == s.panes[p].tab && s'.panes[p].terminal == s.panes[p].terminal
  }

  lemma SameIds(s: State, s': State)
    requires IdsOk(s) && SamePanes(s, s')
    ensures IdsOk(s')
  {
    forall p | p in s'.panes ensures exists n :: Numbered(s', p, n) {
      var n :| Numbered(s, p, n);
      assert Numbered(s', p, n);
    }
  }

  lemma CreateKeeps(s: State, pids: seq<int>, workspace: string, title: string)
    requires Inv(s, pids)
    ensures Inv(CreateTab(s, workspace, title), pids)
  {
    var s' := CreateTab(s, workspace, title);
    var n := s'.tabsCreated;
    FreshNumber(s);
    forall p | p in s'.panes ensures exists m :: Numbered(s', p, m) {
      if p == PaneId(n) {
        assert Numbered(s', p, n);
      } else {
        var m :| Numbered(s, p, m);
        assert Numbered(s', p, m);
      }
    }
    CreateClosed(s, workspace, title);
  }

  lemma CreateClosed(s: State, workspace: string, title: string)
    requires IdsOk(s) && ClosedOk(s)
    ensures ClosedOk(CreateTab(s, workspace, title))
  {
    var s' := CreateTab(s, workspace, title);
    FreshNumber(s);
    forall t | t in s'.closedTabs ensures exists p :: p in s'.panes && s'.panes[p].closed && s'.panes[p].tab == t {
      var p :| p in s.panes && s.panes[p].closed && s.panes[p].tab == t;
      assert p in s'.panes && s'.panes[p].closed && s'.panes[p].tab == t;
    }
  }

  /** Closing a live pane under its pane id. */
  lemma ClosePaneKeeps(s: State, p: string)
    requires IdsOk(s) && ClosedOk(s) && IsLive(s, p)
    ensures ClosedOk(Shut(s, p).(closedPanes := s.closedPanes + [p]))
  {
    var s' := Shut(s, p).(closedPanes := s.closedPanes + [p]);
    assert s.panes[p].tab !in s.closedTabs by {
      if s.panes[p].tab in s.closedTabs {
        var q :| q in s.panes && s.panes[q].closed && s.panes[q].tab == s.panes[p].tab;
        OneToOne(s, p, q);
      }
    }
    assert p !in s.closedPanes;
    forall t | t in s'.closedTabs ensures exists q :: q in s'.panes && s'.panes[q].closed && s'.panes[q].tab == t {
      var q :| q in s.panes && s.panes[q].closed && s.panes[q].tab == t;
      assert q in s'.panes && s'.panes[q].closed && s'.panes[q].tab == t;
    }
  }

  /** Closing a live pane under its tab id. */
  lemma CloseTabKeeps(s: State, p: string)
    requires IdsOk(s) && ClosedOk(s) && IsLive(s, p)
    ensures ClosedOk(Shut(s, p).(closedTabs := s.closedTabs + [s.panes[p].tab]))
  {
    var t := s.panes[p].tab;
    var s' := Shut(s, p).(closedTabs := s.closedTabs + [t]);
    assert t !in s.closedTabs by {
      if t in s.closedTabs {
        var q :| q in s.panes && s.panes[q].closed && s.panes[q].tab == t;
        OneToOne(s, p, q);
      }
    }
    forall q | q in s'.closedPanes
      ensures q in s'.panes && s'.panes[q].closed && s'.panes[q].tab !in s'.closedTabs
    {
      assert q in s.panes && s.panes[q].closed;
      OneToOne(s, p, q);
    }
    forall u | u in s'.closedTabs ensures exists q :: q in s'.panes && s'.panes[q].closed && s'.panes[q].tab == u {
      if u == t {
        assert p in s'.panes && s'.panes[p].closed && s'.panes[p].tab == u;
      } else {
        var q :| q in s.panes && s.panes[q].closed && s.panes[q].tab == u;
        assert q in s'.panes && s'.panes[q].closed && s'.panes[q].tab == u;
      }
    }
  }

  lemma PaneCloseKeeps(s: State, pids: seq<int>, pane: string)
    requires Inv(s, pids)
    ensures Inv(Step(s, pids, PaneClose(pane)).0, pids)
  {
    var s' := Step(s, pids, PaneClose(pane)).0;
    if IsLive(s, pane) {
      ClosePaneKeeps(s, pane);
      assert s'.panes.Keys == s.panes.Keys;
      SameIds(s, s');
    }
  }

  lemma TabCloseKeeps(s: State, pids: seq<int>, tab: string)
    requires Inv(s, pids)
    ensures Inv(Step(s, pids, TabClose(tab)).0, pids)
  {
    var s' := Step(s, pids, TabClose(tab)).0;
    if |Matches(s, tab)| == 1 {
      CloseTabKeeps(s, Only(Matches(s, tab)));
      assert s'.panes.Keys == s.panes.Keys;
      SameIds(s, s');
    }
  }

  lemma OtherKeeps(s: State, pids: seq<int>, c: Command)
    requires Inv(s, pids) && !c.PaneClose? && !c.TabClose? && !c.TabCreate?
    ensures Inv(Step(s, pids, c).0, pids)
  {
    var s' := Step(s, pids, c).0;
    OtherEdits(s, pids, c);
    OtherLaunches(s, pids, c);
    SameIds(s, s');
  }

  /** Only details of one pane changed. */
  ghost predicate Edited(s: State, s': State) {
    && SamePanes(s, s') && s'.closedPanes == s.closedPanes && s'.closedTabs == s.closedTabs
    && forall p :: p in s.panes ==> s'.panes[p].closed == s.panes[p].closed
  }

  lemma EditPane(s: State, s': State, p: string, x: Pane)
    requires p in s.panes && s'.panes == s.panes[p := x] && s'.tabsCreated == s.tabsCreated
    requires x.tab == s.panes[p].tab && x.terminal == s.panes[p].terminal && x.closed == s.panes[p].closed
    requires s'.closedPanes == s.closedPanes && s'.closedTabs == s.closedTabs
    ensures Edited(s, s')
  {
    assert s'.panes.Keys == s.panes.Keys;
  }

  lemma OtherEdits(s: State, pids: seq<int>, c: Command)
    requires !c.PaneClose? && !c.TabClose? && !c.TabCreate?
    ensures Edited(s, Step(s, pids, c).0)
  {
    var s' := Step(s, pids, c).0;
    if s'.panes != s.panes {
      var p := if c.TabRename? then Only(Matches(s, c.tab)) else c.pane;
      EditPane(s, s', p, s'.panes[p]);
    }
  }

  lemma OtherLaunches(s: State, pids: seq<int>, c: Command)
    requires LaunchesOk(s, pids) && !c.PaneClose? && !c.TabClose? && !c.TabCreate?
    ensures LaunchesOk(Step(s, pids, c).0, pids)
  {
  }

  lemma StepKeeps(s: State, pids: seq<int>, c: Command)
    requires Inv(s, pids)
    ensures Inv(Step(s, pids, c).0, pids)
  {
    if c.TabCreate? {
      CreateKeeps(s, pids, c.workspace, c.title);
    } else if c.PaneClose? {
      PaneCloseKeeps(s, pids, c.pane);
    } else if c.TabClose? {
      TabCloseKeeps(s, pids, c.tab);
    } else {
      OtherKeeps(s, pids, c);
    }
  }

  // ---------------------------------------------------------------- every sequence of calls

  lemma {:induction false} PlayKeeps(pids: seq<int>, s: State, calls: seq<Command>)
    requires Inv(s, pids)
    ensures Inv(Play(pids, s, calls), pids)
  {
    if calls != [] {
      PlayKeeps(pids, s, Front(calls));
      StepKeeps(Play(pids, s, Front(calls)), pids, Last(calls));
    }
  }

  /** The panes of `s` are all there in `s'` and show the same tabs and terminals. */
  ghost predicate Persist(s: State, s': State) {
    forall p :: p in s.panes ==>
      p in s'.panes && s'.panes[p].tab == s.panes[p].tab && s'.panes[p].terminal == s.panes[p].terminal
  }

  lemma CreatePersists(s: State, workspace: string, title: string)
    requires IdsOk(s)
    ensures Persist(s, CreateTab(s, workspace, title))
  {
    FreshNumber(s);
  }

  lemma ClosePersists(s: State, pids: seq<int>, c: Command)
    requires c.PaneClose? || c.TabClose?
    ensures Persist(s, Step(s, pids, c).0)
  {
    var s' := Step(s, pids, c).0;
    if s'.panes != s.panes {
      var p := if c.PaneClose? then c.pane else Only(Matches(s, c.tab));
      assert s'.panes == s.panes[p := s.panes[p].(closed := true)];
    }
  }

  lemma StepPersists(s: State, pids: seq<int>, c: Command)
    requires IdsOk(s)
    ensures Persist(s, Step(s, pids, c).0)
  {
    if c.TabCreate? {
      CreatePersists(s, c.workspace, c.title);
    } else if c.PaneClose? || c.TabClose? {
      ClosePersists(s, pids, c);
    } else {
      OtherEdits(s, pids, c);
    }
  }

  lemma {:induction false} PlayPersists(pids: seq<int>, s: State, calls: seq<Command>)
    requires Inv(s, pids)
    ensures Persist(s, Play(pids, s, calls))
  {
    if calls != [] {
      PlayPersists(pids, s, Front(calls));
      PlayKeeps(pids, s, Front(calls));
      StepPersists(Play(pids, s, Front(calls)), pids, Last(calls));
    }
  }

  /** From a fresh fixture, after any calls: every pane stays with its tab and
      terminal over any further calls, and a new tab then gets pane, tab and
      terminal ids that no pane has or ever had. */
  lemma IdsAreNeverReused(pids: seq<int>, failRead: bool, failClose: bool, calls: seq<Command>,
    more: seq<Command>, workspace: string, title: string)
    ensures var early := Play(pids, Fresh(failRead, failClose), calls);
      var s := Play(pids, early, more);
      var s' := Step(s, pids, TabCreate(workspace, title)).0;
      var n := s'.tabsCreated;
      && Persist(early, s) && Persist(s, s')
      && s'.panes.Keys == s.panes.Keys + {PaneId(n)} && PaneId(n) !in s.panes
      && s'.panes[PaneId(n)].tab == TabId(n) && s'.panes[PaneId(n)].terminal == TerminalId(n)
      && forall p :: p in s.panes ==> s.panes[p].tab != TabId(n) && s.panes[p].terminal != TerminalId(n)
  {
    PlayKeeps(pids, Fresh(failRead, failClose), calls);
    var early := Play(pids, Fresh(failRead, failClose), calls);
    PlayKeeps(pids, early, more);
    PlayPersists(pids, early, more);
    FreshNumber(Play(pids, early, more));
  }

  /** After any calls, looking up a tab finds a pane exactly when that pane is live
      and shows the tab: no lookup is ambiguous. */
  lemma TabLookupIsExact(pids: seq<int>, failRead: bool, failClose: bool, calls: seq<Command>, tab: string, p: string)
    ensures var s := Play(pids, Fresh(failRead, failClose), calls);
      Step(s, pids, TabGet(tab)).1 == Found(p) <==> IsLive(s, p) && s.panes[p].tab == tab
  {
    PlayKeeps(pids, Fresh(failRead, failClose), calls);
    var s := Play(pids, Fresh(failRead, failClose), calls);
    if IsLive(s, p) && s.panes[p].tab == tab {
      LiveTabMatches(s, p);
      OnlyIs(Matches(s, tab), p);
    }
  }

  lemma StepKeepsClosed(s: State, pids: seq<int>, c: Command, p: string)
    requires p in s.panes && s.panes[p].closed && IdsOk(s)
    ensures p in Step(s, pids, c).0.panes && Step(s, pids, c).0.panes[p].closed
  {
    if c.TabCreate? {
      FreshNumber(s);
    } else if c.PaneClose? || c.TabClose? {
      CloseShuts(s, pids, c, p);
    } else {
      OtherEdits(s, pids, c);
    }
  }

  lemma CloseShuts(s: State, pids: seq<int>, c: Command, p: string)
    requires p in s.panes && s.panes[p].closed && (c.PaneClose? || c.TabClose?)
    ensures p in Step(s, pids, c).0.panes && Step(s, pids, c).0.panes[p].closed
  {
  }

  lemma {:induction false} ClosedForever(pids: seq<int>, s: State, calls: seq<Command>, p: string)
    requires Inv(s, pids) && p in s.panes && s.panes[p].closed
    ensures p in Play(pids, s, calls).panes && Play(pids, s, calls).panes[p].closed
  {
    if calls != [] {
      ClosedForever(pids, s, Front(calls), p);
      PlayKeeps(pids, s, Front(calls));
      StepKeepsClosed(Play(pids, s, Front(calls)), pids, Last(calls), p);
    }
  }

  function Times(s: seq<string>, x: string): nat {
    Count((y: string) => y == x, s)
  }

  lemma {:induction false} TimesDistinct(s: seq<string>, x: string)
    requires NoDuplicates(s)
    ensures Times(s, x) == if x in s then 1 else 0
  {
    if s != [] {
      TimesDistinct(Front(s), x);
      assert s == Front(s) + [Last(s)];
    }
  }

  /** After any calls a closed pane stays closed whatever follows, and is recorded
      exactly once; an open one is not recorded. */
  lemma ClosedOnce(pids: seq<int>, failRead: bool, failClose: bool, calls: seq<Command>, more: seq<Command>, p: string)
    requires p in Play(pids, Fresh(failRead, failClose), calls).panes
    ensures var s := Play(pids, Fresh(failRead, failClose), calls);
      && Times(s.closedPanes, p) + Times(s.closedTabs, s.panes[p].tab) == (if s.panes[p].closed then 1 else 0)
      && (s.panes[p].closed ==> p in Play(pids, s, more).panes && Play(pids, s, more).panes[p].closed)
  {
    PlayKeeps(pids, Fresh(failRead, failClose), calls);
    var s := Play(pids, Fresh(failRead, failClose), calls);
    TimesDistinct(s.closedPanes, p);
    TimesDistinct(s.closedTabs, s.panes[p].tab);
    if s.panes[p].closed {
      ClosedForever(pids, s, more, p);
    } else {
      OpenUnrecorded(s, p);
    }
  }

  lemma OpenUnrecorded(s: State, p: string)
    requires IdsOk(s) && ClosedOk(s) && IsLive(s, p)
    ensures p !in s.closedPanes && s.panes[p].tab !in s.closedTabs
  {
    if s.panes[p].tab in s.closedTabs {
      var q :| q in s.panes && s.panes[q].closed && s.panes[q].tab == s.panes[p].tab;
      OneToOne(s, p, q);
    }
  }

  // ---------------------------------------------------------------- planned processes

  /** Launch `i` was the last one in pane `p`, and gave it the `i`-th planned process. */
  ghost predicate LaunchedAs(s: State, pids: seq<int>, p: string, i: nat) {
    && p in s.panes && s.panes[p].harness.Some?
    && i < |s.launches| <= |pids| && s.launches[i].pane == p && s.panes[p].harness.value.pid == pids[i]
    && forall j :: i < j < |s.launches| ==> s.launches[j].pane != p
  }

  ghost predicate HarnessesOk(s: State, pids: seq<int>) {
    forall p :: p in s.panes && s.panes[p].harness.Some? ==> exists i :: LaunchedAs(s, pids, p, i)
  }

  /** No harness was started or replaced. */
  ghost predicate SameHarnesses(s: State, s': State) {
    && s'.launches == s.launches
    && forall p :: p in s'.panes && s'.panes[p].harness.Some? ==>
      p in s.panes && s'.panes[p].harness == s.panes[p].harness
  }

  lemma SameHarnessesOk(s: State, s': State, pids: seq<int>)
    requires HarnessesOk(s, pids) && SameHarnesses(s, s')
    ensures HarnessesOk(s', pids)
  {
    forall p | p in s'.panes && s'.panes[p].harness.Some? ensures exists i :: LaunchedAs(s', pids, p, i) {
      var i :| LaunchedAs(s, pids, p, i);
      assert LaunchedAs(s', pids, p, i);
    }
  }

  lemma StartHarnessesOk(s: State, pids: seq<int>, name: string, kind: string, pane: string, arguments: seq<string>)
    requires HarnessesOk(s, pids) && LaunchesOk(s, pids)
    requires pane in s.panes && s.launchCount < |pids| && Session(arguments).Some?
    ensures HarnessesOk(StartAgent(s, pids, name, kind, pane, arguments), pids)
  {
    var s' := StartAgent(s, pids, name, kind, pane, arguments);
    forall p | p in s'.panes && s'.panes[p].harness.Some? ensures exists i :: LaunchedAs(s', pids, p, i) {
      if p == pane {
        assert LaunchedAs(s', pids, p, s.launchCount);
      } else {
        var i :| LaunchedAs(s, pids, p, i);
        assert LaunchedAs(s', pids, p, i);
      }
    }
  }

  lemma StepHarnessesOk(s: State, pids: seq<int>, c: Command)
    requires HarnessesOk(s, pids) && LaunchesOk(s, pids)
    ensures HarnessesOk(Step(s, pids, c).0, pids)
  {
    var s' := Step(s, pids, c).0;
    if c.AgentStart? && s' != s {
      StartHarnessesOk(s, pids, c.name, c.kind, c.pane, c.arguments);
    } else {
      SameHarnessesOk(s, s', pids);
    }
  }

  lemma {:induction false} PlayHarnessesOk(pids: seq<int>, s: State, calls: seq<Command>)
    requires Inv(s, pids) && HarnessesOk(s, pids)
    ensures HarnessesOk(Play(pids, s, calls), pids)
  {
    if calls != [] {
      PlayHarnessesOk(pids, s, Front(calls));
      PlayKeeps(pids, s, Front(calls));
      StepHarnessesOk(Play(pids, s, Front(calls)), pids, Last(calls));
    }
  }

  /** After any calls the launch count is the number of recorded launches, never
      more than the planned processes; the i-th launch got the i-th of them; and a
      pane holds the process planned for the last launch in it, so that no two
      panes ever hold the process planned for one launch. */
  lemma LaunchesFollowPlan(pids: seq<int>, failRead: bool, failClose: bool, calls: seq<Command>)
    ensures var s := Play(pids, Fresh(failRead, failClose), calls);
      LaunchesOk(s, pids) && HarnessesOk(s, pids)
    ensures var s := Play(pids, Fresh(failRead, failClose), calls);
      forall p, q, i, j :: LaunchedAs(s, pids, p, i) && LaunchedAs(s, pids, q, j) ==> (p == q <==> i == j)
  {
    PlayKeeps(pids, Fresh(failRead, failClose), calls);
    PlayHarnessesOk(pids, Fresh(failRead, failClose), calls);
  }

  // ---------------------------------------------------------------- sessions and first ids

  /** The first place where `selector` stands. */
  ghost predicate FirstAt(arguments: seq<string>, selector: string, i: int) {
    && 0 <= i < |arguments| && arguments[i] == selector
    && forall j :: 0 <= j < i ==> arguments[j] != selector
  }

  lemma {:induction false} AfterIs(arguments: seq<string>, selector: string, i: int)
    requires FirstAt(arguments, selector, i)
    ensures After(arguments, selector) == if i + 1 < |arguments| then Some(arguments[i + 1]) else None
    decreases |arguments|
  {
    if i > 0 {
      var rest := arguments[1..];
      assert rest[i - 1] == arguments[i];
      forall j | 0 <= j < i - 1 ensures rest[j] != selector {
        assert rest[j] == arguments[j + 1];
      }
      AfterIs(rest, selector, i - 1);
    }
  }

  /** The selector that decides: the first of the three that stands among the arguments. */
  ghost predicate Deciding(arguments: seq<string>, selector: string) {
    || (selector == "--session-id" && selector in arguments)
    || (selector == "--resume" && selector in arguments && "--session-id" !in arguments)
    || (selector == "resume" && selector in arguments && "--session-id" !in arguments && "--resume" !in arguments)
  }

  /** A harness asks for the session that follows the first occurrence of the
      deciding selector, and for "session-1" when there is no selector. */
  lemma SessionIs(arguments: seq<string>, selector: string, i: int)
    ensures Deciding(arguments, selector) && FirstAt(arguments, selector, i) ==>
      Session(arguments) == if i + 1 < |arguments| then Some(arguments[i + 1]) else None
    ensures "--session-id" !in arguments && "--resume" !in arguments && "resume" !in arguments ==>
      Session(arguments) == Some("session-1")
  {
    if FirstAt(arguments, selector, i) {
      AfterIs(arguments, selector, i);
    }
  }

  /** A pane's session changes only by a launch in it, to the session asked for, and
      by a report on it, to the session reported. */
  lemma SessionFollows(s: State, pids: seq<int>, c: Command, p: string)
    requires p in s.panes && IdsOk(s)
    ensures var (s', o) := Step(s, pids, c);
      p in s'.panes && s'.panes[p].session ==
        if c.AgentStart? && c.pane == p && o.Done? then Session(c.arguments)
        else if c.ReportSession? && c.pane == p && o.Done? then Some(c.session)
        else s.panes[p].session
  {
    if c.TabCreate? {
      FreshNumber(s);
    } else if c.TabGet? || c.TabClose? || c.TabRename? {
      TabsKeepSessions(s, pids, c, p);
    }
  }

  lemma TabsKeepSessions(s: State, pids: seq<int>, c: Command, p: string)
    requires p in s.panes && (c.TabGet? || c.TabClose? || c.TabRename?)
    ensures var s' := Step(s, pids, c).0; p in s'.panes && s'.panes[p].session == s.panes[p].session
  {
  }

  /** The first tab is the old pane: its ids are spelt out. */
  lemma FirstTab(pids: seq<int>, failRead: bool, failClose: bool, workspace: string, title: string)
    ensures var (s, o) := Step(Fresh(failRead, failClose), pids, TabCreate(workspace, title));
      && o == Created("w1:p1", "w1:t1") && OLD_PANE == "w1:p1"
      && s.panes == map["w1:p1" := Pane("w1:t1", workspace, "term-1", title, None, None, None, false)]
  {
    assert Decimal(1) == "1";
    assert PaneId(1) == "w1:p1" && TabId(1) == "w1:t1" && TerminalId(1) == "term-1";
  }
}

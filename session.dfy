/** Windows and their sessions: which windows open at startup, how a new window is
    placed, and how the application reacts to window commands.

    At startup the paths named on the command line are split into folders and files.
    Every folder opens a window of its own, cascaded down and to the right; with no
    folder and no file the windows saved by the previous session are restored; and when
    neither gives a window, one default window opens. The named files are opened in the
    first window only. While running, the application keeps its windows by id, the id of
    the active window and a flag set once the application is terminating; every
    persistence call is recorded in a log instead of being performed. */
module Session {
  import opened Options
  import opened Geometry
  import opened Workspaces

  type WindowId = nat

  /** A one-based line and column, as given on the command line (`file:line:column`). */
  datatype LineCol = LineCol(line: nat, column: nat)

  /** A zero-based editor position whose coordinates are unsigned 32-bit integers. */
  datatype Position = Position(line: nat, character: nat)

  /** A path named on the command line, with its optional position and whether it is a folder. */
  datatype PathObject = PathObject(path: string, linecol: Option<LineCol>, isDir: bool)

  const U32Modulus: nat := 0x1_0000_0000

  /** `n - 1`, saturating at zero. */
  function SaturatingPred(n: nat): (r: nat)
    ensures n == 0 ==> r == 0
    ensures n > 0 ==> r + 1 == n
  {
    if n == 0 then 0 else n - 1
  }

  /** The conversion of an unsigned number to 32 bits, which keeps its low 32 bits. */
  function TruncateU32(n: nat): (r: nat)
    ensures r < U32Modulus
    ensures n < U32Modulus ==> r == n
    ensures (n - r) % U32Modulus == 0
  {
    n % U32Modulus
  }

  /** The editor position of a one-based line and column. */
  function ToPosition(lc: LineCol): Position {
    Position(TruncateU32(SaturatingPred(lc.line)), TruncateU32(SaturatingPred(lc.column)))
  }

  /** A zero-based position written one-based is read back as the same position. */
  lemma PositionRoundTrip(p: Position)
    requires p.line < U32Modulus && p.character < U32Modulus
    ensures ToPosition(LineCol(p.line + 1, p.character + 1)) == p
  {
  }

  /** Line or column zero is taken as the first one, and coordinates past the 32-bit
      range wrap around. */
  lemma PositionEdgeCases(line: nat, column: nat)
    ensures ToPosition(LineCol(0, column)) == ToPosition(LineCol(1, column))
    ensures ToPosition(LineCol(line, 0)) == ToPosition(LineCol(line, 1))
    ensures ToPosition(LineCol(U32Modulus + 1, 1)) == Position(0, 0)
  {
  }

  /** Where an editor should open a file. */
  datatype EditorLocation = EditorLocation(path: string, position: Option<Position>,
                                           ignoreUnconfirmed: bool, sameEditorTab: bool)

  datatype InternalCommand = GoToLocation(location: EditorLocation)

  /** Opens a named file in a new editor (never replacing an unconfirmed one), at its
      position when one was given. */
  function OpenFileCommand(file: PathObject): InternalCommand {
    GoToLocation(EditorLocation(
      file.path,
      if file.linecol.Some? then Some(ToPosition(file.linecol.value)) else None,
      true,
      false))
  }

  datatype TabsInfo = TabsInfo(activeTab: nat, workspaces: seq<Workspace>)

  /** What is stored about a window: its geometry and its workspace tabs. */
  datatype WindowInfo = WindowInfo(size: Size, pos: Point, maximised: bool, tabs: TabsInfo)

  /** What is stored about the whole application: every window, in order. */
  datatype AppInfo = AppInfo(windows: seq<WindowInfo>)

  const DefaultSize := Size(800.0, 600.0)
  const Origin := Point(0.0, 0.0)
  const ZeroSize := Size(0.0, 0.0)
  /** How far each further window opened at startup is moved on both axes. */
  const CascadeStep := 50.0
  const SingleDefaultTab := TabsInfo(0, [DefaultWorkspace])

  /** The toolkit's settings for a new window, always titled "Lapce"; the title bar is
      hidden on macOS or when the custom title bar is configured. */
  datatype WindowConfig = WindowConfig(title: string, size: Size, position: Option<Point>, showTitlebar: bool)

  function Config(size: Size, position: Option<Point>, hideTitlebar: bool): WindowConfig {
    WindowConfig("Lapce", size, position, !hideTitlebar)
  }

  /** A window to open: the toolkit settings, the stored state it starts from, and the
      files it opens once it exists. */
  datatype WindowPlan = WindowPlan(config: WindowConfig, info: WindowInfo, files: seq<PathObject>)

  /** The named folders, in order. */
  function Dirs(paths: seq<PathObject>): (d: seq<PathObject>)
    ensures forall k :: 0 <= k < |d| ==> d[k].isDir
  {
    if paths == [] then [] else (if paths[0].isDir then [paths[0]] else []) + Dirs(paths[1..])
  }

  /** The named files, in order. */
  function Files(paths: seq<PathObject>): (f: seq<PathObject>)
    ensures forall k :: 0 <= k < |f| ==> !f[k].isDir
  {
    if paths == [] then [] else (if paths[0].isDir then [] else [paths[0]]) + Files(paths[1..])
  }

  /** Every path lands in exactly one of the two parts. */
  lemma {:induction false} PartitionKeepsEverything(paths: seq<PathObject>)
    ensures multiset(Dirs(paths)) + multiset(Files(paths)) == multiset(paths)
  {
    if paths != [] {
      PartitionKeepsEverything(paths[1..]);
      assert paths == [paths[0]] + paths[1..];
    }
  }

  /** The partition keeps the order of the paths: it splits each part of a sequence
      separately. */
  lemma PartitionKeepsOrder(a: seq<PathObject>, b: seq<PathObject>)
    ensures Dirs(a + b) == Dirs(a) + Dirs(b)
    ensures Files(a + b) == Files(a) + Files(b)
  {
    DirsAppend(a, b);
    FilesAppend(a, b);
  }

  lemma {:induction false} DirsAppend(a: seq<PathObject>, b: seq<PathObject>)
    ensures Dirs(a + b) == Dirs(a) + Dirs(b)
  {
    if a == [] {
      assert a + b == b;
    } else {
      assert (a + b)[0] == a[0];
      assert (a + b)[1..] == a[1..] + b;
      DirsAppend(a[1..], b);
      var head := if a[0].isDir then [a[0]] else [];
      assert Dirs(a + b) == head + (Dirs(a[1..]) + Dirs(b));
      assert head + (Dirs(a[1..]) + Dirs(b)) == (head + Dirs(a[1..])) + Dirs(b);
    }
  }

  lemma {:induction false} FilesAppend(a: seq<PathObject>, b: seq<PathObject>)
    ensures Files(a + b) == Files(a) + Files(b)
  {
    if a == [] {
      assert a + b == b;
    } else {
      assert (a + b)[0] == a[0];
      assert (a + b)[1..] == a[1..] + b;
      FilesAppend(a[1..], b);
      var head := if a[0].isDir then [] else [a[0]];
      assert Files(a + b) == head + (Files(a[1..]) + Files(b));
      assert head + (Files(a[1..]) + Files(b)) == (head + Files(a[1..])) + Files(b);
    }
  }

  /** Every file of the plans, in plan order. */
  function AllFiles(plans: seq<WindowPlan>): seq<PathObject> {
    if plans == [] then [] else AllFiles(plans[..|plans| - 1]) + plans[|plans| - 1].files
  }

  lemma AllFilesAppend(plans: seq<WindowPlan>, p: WindowPlan)
    ensures AllFiles(plans + [p]) == AllFiles(plans) + p.files
  {
    assert (plans + [p])[..|plans|] == plans;
  }

  /** The geometry windows opened at startup start from: the last stored window's, or
      800 by 600 at the origin. */
  function BaseSize(storedWindow: Option<WindowInfo>): Size {
    if storedWindow.Some? then storedWindow.value.size else DefaultSize
  }

  function BasePos(storedWindow: Option<WindowInfo>): Point {
    if storedWindow.Some? then storedWindow.value.pos else Origin
  }

  /** The position `i` cascade steps after `base`, each step moving right and down. */
  function CascadePos(base: Point, i: nat): Point {
    if i == 0 then base else Offset(CascadePos(base, i - 1), CascadeStep, CascadeStep)
  }

  /** After `i` steps a window sits `i` times the step right of and below the base. */
  lemma {:induction false} CascadeClosedForm(base: Point, i: nat)
    ensures CascadePos(base, i) == Offset(base, CascadeStep * i as real, CascadeStep * i as real)
  {
    if i > 0 {
      CascadeClosedForm(base, i - 1);
    }
  }

  /** The window for folder number `i` of the command line: the base geometry moved by
      `i` cascade steps, not maximised, with one local workspace tab on the folder; only
      the first folder's window opens the named files. */
  function FolderPlan(storedWindow: Option<WindowInfo>, i: nat, dir: PathObject, files: seq<PathObject>,
                      hideTitlebar: bool): WindowPlan
  {
    var info := WindowInfo(BaseSize(storedWindow),
                           CascadePos(BasePos(storedWindow), i),
                           false, TabsInfo(0, [Workspace(Local, Some(dir.path), 0)]));
    WindowPlan(Config(info.size, Some(info.pos), hideTitlebar), info, if i == 0 then files else [])
  }

  /** The window restoring a stored one. */
  predicate IsRestoredPlan(p: WindowPlan, w: WindowInfo, hideTitlebar: bool) {
    p == WindowPlan(Config(w.size, Some(w.pos), hideTitlebar), w, [])
  }

  /** The window opened when nothing else opened one: the stored window's geometry (or
      800 by 600 at the origin, not maximised) with a single default workspace tab. */
  predicate IsFallbackPlan(p: WindowPlan, storedWindow: Option<WindowInfo>, files: seq<PathObject>, hideTitlebar: bool) {
    var base := if storedWindow.Some? then storedWindow.value
                else WindowInfo(DefaultSize, Origin, false, SingleDefaultTab);
    p.info == base.(tabs := SingleDefaultTab)
    && p.config == Config(base.size, Some(base.pos), hideTitlebar)
    && p.files == files
  }

  /** Whether the stored session is restored: only when no folder and no file is named. */
  predicate Restores(paths: seq<PathObject>, storedApp: Option<AppInfo>) {
    Dirs(paths) == [] && Files(paths) == [] && storedApp.Some? && storedApp.value.windows != []
  }

  /** One window per named folder, in order, cascading from the stored window's
      geometry; the named files go to the first window only, as the pending file list is
      taken by the first window that opens. */
  method FolderWindows(storedWindow: Option<WindowInfo>, dirs: seq<PathObject>, files: seq<PathObject>,
                       hideTitlebar: bool)
    returns (plans: seq<WindowPlan>)
    requires dirs != []
    ensures |plans| == |dirs|
    ensures forall i :: 0 <= i < |plans| ==> plans[i] == FolderPlan(storedWindow, i, dirs[i], files, hideTitlebar)
    ensures AllFiles(plans) == files
  {
    plans := [];
    var pending: Option<seq<PathObject>> := if files == [] then None else Some(files);
    var size, pos := BaseSize(storedWindow), BasePos(storedWindow);
    for i := 0 to |dirs|
      invariant |plans| == i
      invariant pos == CascadePos(BasePos(storedWindow), i)
      invariant forall k :: 0 <= k < i ==> plans[k] == FolderPlan(storedWindow, k, dirs[k], files, hideTitlebar)
      invariant pending == (if i == 0 && files != [] then Some(files) else None)
      invariant AllFiles(plans) == (if i == 0 then [] else files)
    {
      var info := WindowInfo(size, pos, false, TabsInfo(0, [Workspace(Local, Some(dirs[i].path), 0)]));
      pos := Offset(pos, CascadeStep, CascadeStep);
      var taken := if pending.Some? then pending.value else [];
      pending := None;
      var plan := WindowPlan(Config(info.size, Some(info.pos), hideTitlebar), info, taken);
      FolderPlanOf(storedWindow, i, dirs[i], files, hideTitlebar, plan);
      AllFilesAppend(plans, plan);
      ExtendPlans(plans, plan, storedWindow, dirs, files, hideTitlebar);
      plans := plans + [plan];
    }
  }

  /** A window with the base size at the base position moved `i` steps, one local tab on
      `dir`, and the named files when it is the first, is folder window `i`. */
  lemma FolderPlanOf(storedWindow: Option<WindowInfo>, i: nat, dir: PathObject, files: seq<PathObject>,
                     hideTitlebar: bool, plan: WindowPlan)
    requires plan.info == WindowInfo(BaseSize(storedWindow), CascadePos(BasePos(storedWindow), i),
                                     false, TabsInfo(0, [Workspace(Local, Some(dir.path), 0)]))
    requires plan.config == Config(plan.info.size, Some(plan.info.pos), hideTitlebar)
    requires plan.files == if i == 0 then files else []
    ensures plan == FolderPlan(storedWindow, i, dir, files, hideTitlebar)
  {
  }

  /** Appending folder window number `|plans|` keeps every earlier window in place. */
  lemma ExtendPlans(plans: seq<WindowPlan>, plan: WindowPlan, storedWindow: Option<WindowInfo>,
                    dirs: seq<PathObject>, files: seq<PathObject>, hideTitlebar: bool)
    requires |plans| < |dirs|
    requires forall k :: 0 <= k < |plans| ==> plans[k] == FolderPlan(storedWindow, k, dirs[k], files, hideTitlebar)
    requires plan == FolderPlan(storedWindow, |plans|, dirs[|plans|], files, hideTitlebar)
    ensures forall k :: 0 <= k <= |plans| ==> (plans + [plan])[k] == FolderPlan(storedWindow, k, dirs[k], files, hideTitlebar)
  {
  }

  /** One window per stored window, in order, each opening no file. */
  method RestoredWindows(app: AppInfo, hideTitlebar: bool) returns (plans: seq<WindowPlan>)
    ensures |plans| == |app.windows|
    ensures forall i :: 0 <= i < |plans| ==> IsRestoredPlan(plans[i], app.windows[i], hideTitlebar)
    ensures AllFiles(plans) == []
  {
    plans := [];
    for i := 0 to |app.windows|
      invariant |plans| == i
      invariant forall k :: 0 <= k < i ==> IsRestoredPlan(plans[k], app.windows[k], hideTitlebar)
      invariant AllFiles(plans) == []
    {
      var info := app.windows[i];
      var plan := WindowPlan(Config(info.size, Some(info.pos), hideTitlebar), info, []);
      AllFilesAppend(plans, plan);
      plans := plans + [plan];
    }
  }

  /** The windows to open at startup, given the stored last window and stored session
      (`None` where reading them failed) and the paths named on the command line. */
  method CreateWindows(storedWindow: Option<WindowInfo>, storedApp: Option<AppInfo>, paths: seq<PathObject>,
                       hideTitlebar: bool)
    returns (plans: seq<WindowPlan>)
    ensures |plans| >= 1
    ensures AllFiles(plans) == Files(paths)
    ensures Dirs(paths) != [] ==> (|plans| == |Dirs(paths)| &&
      forall i :: 0 <= i < |plans| ==> plans[i] == FolderPlan(storedWindow, i, Dirs(paths)[i], Files(paths), hideTitlebar))
    ensures Restores(paths, storedApp) ==> (|plans| == |storedApp.value.windows| &&
      forall i :: 0 <= i < |plans| ==> IsRestoredPlan(plans[i], storedApp.value.windows[i], hideTitlebar))
    ensures Dirs(paths) == [] && !Restores(paths, storedApp) ==>
      |plans| == 1 && IsFallbackPlan(plans[0], storedWindow, Files(paths), hideTitlebar)
  {
    plans := [];
    var dirs, files := Dirs(paths), Files(paths);
    if dirs != [] {
      plans := FolderWindows(storedWindow, dirs, files, hideTitlebar);
    } else if files == [] && storedApp.Some? {
      plans := RestoredWindows(storedApp.value, hideTitlebar);
    }
    if |plans| == 0 {
      var info := if storedWindow.Some? then storedWindow.value
                  else WindowInfo(DefaultSize, Origin, false, SingleDefaultTab);
      info := info.(tabs := SingleDefaultTab);
      var plan := WindowPlan(Config(info.size, Some(info.pos), hideTitlebar), info, files);
      AllFilesAppend([], plan);
      plans := [plan];
    }
  }

  /** Each folder window after the first sits one cascade step right of and below the
      one before it, with the same size, and opens no file. */
  lemma FolderWindowsCascade(storedWindow: Option<WindowInfo>, i: nat, d: PathObject, e: PathObject,
                             files: seq<PathObject>, hideTitlebar: bool)
    ensures var p, q := FolderPlan(storedWindow, i, d, files, hideTitlebar), FolderPlan(storedWindow, i + 1, e, files, hideTitlebar);
      q.info.pos == Offset(p.info.pos, CascadeStep, CascadeStep) && q.info.size == p.info.size && q.files == []
  {
  }

  /** What the application keeps of an open window: its current size and position.
      Everything else a window holds is not part of this model. */
  datatype WindowData = WindowData(size: Size, position: Point)

  datatype AppCommand =
    | SaveApp
    | NewWindow(folder: Option<string>)
    | CloseWindow(id: WindowId)
    | WindowGotFocus(id: WindowId)
    | WindowClosed(id: WindowId)

  /** The calls the application makes to the session store and the toolkit, recorded
      in order instead of being performed. */
  datatype Effect =
    | SnapshotInserted(snapshot: map<WindowId, WindowData>)   // the windows recorded as the session
    | SessionSaved(saved: map<WindowId, WindowData>)          // the current windows saved
    | ScopeDisposed(disposed: WindowId)
    | CloseRequested(closing: WindowId)
    | WindowRequested(plan: WindowPlan)

  datatype AppState = AppState(windows: map<WindowId, WindowData>, activeWindow: WindowId,
                               appTerminated: bool, log: seq<Effect>)

  /** A window that may serve as the active one: the window with the active id when it
      is open, otherwise any open window, and none only when no window is open. */
  predicate ActiveChoice(windows: map<WindowId, WindowData>, active: WindowId, w: Option<WindowData>) {
    if active in windows then w == Some(windows[active])
    else if windows == map[] then w == None
    else w.Some? && w.value in windows.Values
  }

  /** The window `new_window` asks for: the size of the active window (chosen as above)
      and its position moved by one cascade step, else the stored window's size and
      position, else 800 by 600 placed by the toolkit. It starts with one workspace
      tab on `folder`. */
  function NewWindowPlan(chosen: Option<WindowData>, storedWindow: Option<WindowInfo>, folder: Option<string>,
                         hideTitlebar: bool): WindowPlan
  {
    var config := if chosen.Some? then Config(chosen.value.size, Some(Offset(chosen.value.position, CascadeStep, CascadeStep)), hideTitlebar)
                  else if storedWindow.Some? then Config(storedWindow.value.size, Some(storedWindow.value.pos), hideTitlebar)
                  else Config(DefaultSize, None, hideTitlebar);
    WindowPlan(config, WindowInfo(ZeroSize, Origin, false, TabsInfo(0, [Workspace(Local, folder, 0)])), [])
  }

  /** A new window cascades from the active window when there is one and always opens
      exactly one local workspace tab on the requested folder. */
  lemma NewWindowPlacement(chosen: Option<WindowData>, storedWindow: Option<WindowInfo>, folder: Option<string>,
                           hideTitlebar: bool)
    ensures var p := NewWindowPlan(chosen, storedWindow, folder, hideTitlebar);
      p.info.tabs.workspaces == [Workspace(Local, folder, 0)] && p.info.tabs.activeTab == 0 && p.files == []
      && (chosen.Some? ==> p.config.size == chosen.value.size
                           && p.config.position == Some(Offset(chosen.value.position, CascadeStep, CascadeStep)))
      && (chosen.None? && storedWindow.Some? ==> p.config.position == Some(storedWindow.value.pos))
      && (chosen.None? && storedWindow.None? ==> p.config.size == DefaultSize && p.config.position.None?)
  {
  }

  /** Termination: the flag is set, then the session is recorded. */
  function Terminated(s: AppState): AppState {
    s.(appTerminated := true, log := s.log + [SnapshotInserted(s.windows)])
  }

  /** A window was closed. While running, the session is recorded first when it was the
      only window, the window is removed (and its scope disposed when it was open), and
      the remaining windows are saved; once terminating, nothing happens. */
  function Closed(s: AppState, id: WindowId): AppState {
    if s.appTerminated then s
    else
      var snapshot := if |s.windows| == 1 then [SnapshotInserted(s.windows)] else [];
      var remaining := s.windows - {id};
      var disposed := if id in s.windows then [ScopeDisposed(id)] else [];
      s.(windows := remaining, log := s.log + snapshot + disposed + [SessionSaved(remaining)])
  }

  /** The effect of one application command; `requested` is the window a `NewWindow`
      command asks for. */
  function Transition(s: AppState, cmd: AppCommand, requested: WindowPlan): AppState {
    match cmd
    case SaveApp => s.(log := s.log + [SessionSaved(s.windows)])
    case WindowClosed(id) => Closed(s, id)
    case CloseWindow(id) => s.(log := s.log + [CloseRequested(id)])
    case NewWindow(_) => s.(log := s.log + [WindowRequested(requested)])
    case WindowGotFocus(id) => s.(activeWindow := id)
  }

  /** Closing a window while running removes exactly that window; the session is
      recorded first when it was the only window, and the remaining windows are saved
      last. Once the application is terminating, closing changes nothing. */
  lemma WindowClosedEffect(s: AppState, id: WindowId, requested: WindowPlan)
    ensures s.appTerminated ==> Transition(s, WindowClosed(id), requested) == s
    ensures !s.appTerminated ==>
      var t := Transition(s, WindowClosed(id), requested);
      t.windows.Keys == s.windows.Keys - {id}
      && (forall w :: w in t.windows ==> t.windows[w] == s.windows[w])
      && t.activeWindow == s.activeWindow && !t.appTerminated
      && |t.log| == |s.log| + (if |s.windows| == 1 then 1 else 0) + (if id in s.windows then 1 else 0) + 1
      && t.log[|t.log| - 1] == SessionSaved(t.windows)
      && (|s.windows| == 1 ==> t.log[|s.log|] == SnapshotInserted(s.windows))
  {
  }

  /** Closing the only window records a session that still holds it. */
  lemma LastCloseRecordsWindow(s: AppState, id: WindowId, requested: WindowPlan)
    requires !s.appTerminated && s.windows.Keys == {id}
    ensures var t := Transition(s, WindowClosed(id), requested);
      t.windows == map[] && t.log == s.log + [SnapshotInserted(s.windows), ScopeDisposed(id), SessionSaved(map[])]
  {
    assert |s.windows| == |s.windows.Keys| == 1;
  }

  /** Commands never open a window by themselves: the set of windows only shrinks. */
  lemma CommandsOnlyShrinkWindows(s: AppState, cmd: AppCommand, requested: WindowPlan)
    ensures Transition(s, cmd, requested).windows.Keys <= s.windows.Keys
    ensures Transition(s, cmd, requested).appTerminated == s.appTerminated
  {
  }

  /** A run of commands, each `NewWindow` asking for `requested`. */
  function Run(s: AppState, cmds: seq<AppCommand>, requested: WindowPlan): AppState
    decreases cmds
  {
    if cmds == [] then s else Run(Transition(s, cmds[0], requested), cmds[1..], requested)
  }

  /** Once terminating, no command changes the windows or records a session any more. */
  lemma {:induction false} TerminationFreezesWindows(s: AppState, cmds: seq<AppCommand>, requested: WindowPlan)
    requires s.appTerminated
    ensures Run(s, cmds, requested).windows == s.windows && Run(s, cmds, requested).appTerminated
    ensures forall k :: |s.log| <= k < |Run(s, cmds, requested).log| ==> !Run(s, cmds, requested).log[k].SnapshotInserted?
    ensures |s.log| <= |Run(s, cmds, requested).log| && Run(s, cmds, requested).log[..|s.log|] == s.log
    decreases cmds
  {
    if cmds != [] {
      var t := Transition(s, cmds[0], requested);
      assert t.windows == s.windows && t.appTerminated;
      assert |s.log| <= |t.log| && t.log[..|s.log|] == s.log;
      assert forall k :: |s.log| <= k < |t.log| ==> !t.log[k].SnapshotInserted?;
      TerminationFreezesWindows(t, cmds[1..], requested);
    }
  }

  /** The application: its windows by id, the active window's id, the termination flag,
      and the log of store and toolkit calls. */
  class AppData {
    var windows: map<WindowId, WindowData>
    var activeWindow: WindowId
    var appTerminated: bool
    var log: seq<Effect>

    ghost function State(): AppState
      reads this
    {
      AppState(windows, activeWindow, appTerminated, log)
    }

    /** A fresh application: no window yet, active id zero, running. */
    constructor ()
      ensures State() == AppState(map[], 0, false, [])
    {
      windows, activeWindow, appTerminated, log := map[], 0, false, [];
    }

    /** The active window, or some other open window when the active id is not open. */
    method ActiveWindow() returns (w: Option<WindowData>)
      ensures ActiveChoice(windows, activeWindow, w)
    {
      if activeWindow in windows {
        return Some(windows[activeWindow]);
      }
      if windows == map[] {
        return None;
      }
      var id :| id in windows;
      return Some(windows[id]);
    }

    /** Asks the toolkit for a new window on `folder`, placed after the active window. */
    method NewWindowFor(folder: Option<string>, storedWindow: Option<WindowInfo>, hideTitlebar: bool)
      returns (chosen: Option<WindowData>)
      modifies this
      ensures ActiveChoice(old(windows), old(activeWindow), chosen)
      ensures State() == old(State()).(log := old(log) + [WindowRequested(NewWindowPlan(chosen, storedWindow, folder, hideTitlebar))])
    {
      chosen := ActiveWindow();
      log := log + [WindowRequested(NewWindowPlan(chosen, storedWindow, folder, hideTitlebar))];
    }

    /** Handles one application command. For `NewWindow`, `chosen` is the window the new
        one is placed after. */
    method RunAppCommand(cmd: AppCommand, storedWindow: Option<WindowInfo>, hideTitlebar: bool)
      returns (chosen: Option<WindowData>)
      modifies this
      ensures cmd.NewWindow? ==> ActiveChoice(old(windows), old(activeWindow), chosen)
      ensures State() == Transition(old(State()), cmd,
                                    NewWindowPlan(chosen, storedWindow, if cmd.NewWindow? then cmd.folder else None, hideTitlebar))
    {
      chosen := None;
      match cmd {
        case SaveApp =>
          log := log + [SessionSaved(windows)];
        case WindowClosed(id) =>
          WindowClosed(id);
        case CloseWindow(id) =>
          log := log + [CloseRequested(id)];
        case NewWindow(folder) =>
          chosen := NewWindowFor(folder, storedWindow, hideTitlebar);
        case WindowGotFocus(id) =>
          activeWindow := id;
      }
    }

    /** A window was closed. */
    method WindowClosed(id: WindowId)
      modifies this
      ensures State() == Closed(old(State()), id)
    {
      if appTerminated {
        return;
      }
      var snapshot := if |windows| == 1 then [SnapshotInserted(windows)] else [];
      var disposed := if id in windows then [ScopeDisposed(id)] else [];
      windows := windows - {id};
      log := log + snapshot + disposed + [SessionSaved(windows)];
    }

    /** A window the toolkit opened: it joins the windows, and every named file is
        opened in its active workspace tab, in order. */
    method WindowOpened(id: WindowId, data: WindowData, files: seq<PathObject>)
      returns (commands: seq<InternalCommand>)
      modifies this
      ensures State() == old(State()).(windows := old(windows)[id := data])
      ensures |commands| == |files| && forall k :: 0 <= k < |files| ==> commands[k] == OpenFileCommand(files[k])
    {
      commands := [];
      for k := 0 to |files|
        invariant |commands| == k && forall j :: 0 <= j < k ==> commands[j] == OpenFileCommand(files[j])
      {
        commands := commands + [OpenFileCommand(files[k])];
      }
      windows := windows[id := data];
    }

    /** The application is about to terminate. */
    method WillTerminate()
      modifies this
      ensures State() == Terminated(old(State()))
    {
      appTerminated := true;
      log := log + [SnapshotInserted(windows)];
    }

    /** The application is reopened (from the dock); a new window opens when none is visible. */
    method Reopen(hasVisibleWindows: bool, storedWindow: Option<WindowInfo>, hideTitlebar: bool)
      returns (chosen: Option<WindowData>)
      modifies this
      ensures hasVisibleWindows ==> State() == old(State())
      ensures !hasVisibleWindows ==> ActiveChoice(old(windows), old(activeWindow), chosen)
      ensures !hasVisibleWindows ==>
        State() == old(State()).(log := old(log) + [WindowRequested(NewWindowPlan(chosen, storedWindow, None, hideTitlebar))])
    {
      chosen := None;
      if !hasVisibleWindows {
        chosen := NewWindowFor(None, storedWindow, hideTitlebar);
      }
    }
  }
}

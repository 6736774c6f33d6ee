# Lapce application shell: a Dafny model

This project models the core of the Lapce editor's application shell (`lapce-app/src/app.rs`).
That core is made of the following parts:

- **the start-up sequence**: whether the process detaches into a waiting copy, hands
  its paths to an already running instance, or opens its own windows;
- **the window bookkeeping of `AppData`**: which windows are created at start-up from
  the command line and the stored session, where a new window is placed, and what each
  application command does to the window map and the session store;
- **the single-instance socket protocol**: sending `OpenPaths` and waiting for the
  literal reply `received` on one side, and serving connections on the other;
- **reading the login shell's environment**: one `key=value` per line, with a warning
  for every overwritten variable;
- **drag-and-drop of editor tabs and workspace tabs**: the five drop regions of an
  editor-tab group, and the left/right insertion index of a tab header;
- **resizing split children by dragging the border between two of them**;
- **the resync of the position signals** of editor-tab children and workspace tabs;
- **the index bookkeeping of the palette's fuzzy-match highlights** and of its
  virtualised lists;
- **the small lookups**: completion kind to icon letter, workspace title, and window
  title.

Each module holds one of these parts:

| module | part of the shell |
|---|---|
| `TabDrag` | drop zones and tab header items |
| `SplitLayout` | split border dragging |
| `Ordinals` | index resync |
| `Palette` | highlight index splitting, `VectorItems` |
| `Completion` | completion icon letters |
| `Workspaces` | workspace and window titles |
| `Session` | window creation, `AppData`, application commands |
| `SingleInstance` | socket hand-off, listener, launch decision |
| `ShellEnv` | the login-shell environment |

There are also shared modules:

- `Options`: the option type;
- `Geometry`: sizes, points and rectangles;
- `Strings`: the string operations the source relies on, namely `split`,
  `split_once` and `trim_matches`.

Some state is updated in place in the source. Such state is a Dafny class whose methods
change its fields:

- the drag signals;
- the drop zone;
- a split's size ratios, which are an `array`;
- the position signals, which are also an `array`;
- the vector behind a virtualised list;
- the process environment;
- the application's windows.

Each such method is stated against a specification function. Lemmas then state what
the source promises about that function. Pure computations are functions with lemmas.

Calls to the session store, and the requests to the windowing toolkit for a window to
be opened or closed, are not performed. Instead they are appended to an `Effect` log
that is part of the application state, so their order can be stated.

Two behaviours of the code are worth noting:

- A drop on an editor-tab group or an editor-tab header clears the highlight but not the
  shared `dragging` value. Only the drag-end event clears that value
  (`lapce-app/src/app.rs:930-951`, `1538-1593`).
- A drop on a workspace tab clears the dragged index only when the event is a pointer
  release (`lapce-app/src/app.rs:3466-3488`).

## Model

| member | source | states |
|---|---|---|
| TabDrag.Classify | lapce-app/src/app.rs:1516-1528 | the drop region in each direction of the iff: Left exactly when the pointer is in the left quarter; Right exactly when it is in the right quarter and not the left; Top and Bottom only within the middle half of the width |
| TabDrag.MiddleIsCentre | lapce-app/src/app.rs:1516-1528 | a drop joins the group (Middle) exactly when the pointer lies in the central rectangle spanning the middle half of both axes |
| TabDrag.CornersAreSides | lapce-app/src/app.rs:1518-1521 | the left and right bands are tested first, so the corners are horizontal moves |
| TabDrag.SplitSide | lapce-app/src/app.rs:1543-1586 | only the Middle region creates no new split |
| TabDrag.SplitSideInjective | lapce-app/src/app.rs:1543-1575 | different edge regions create splits on different sides |
| TabDrag.DropCall | lapce-app/src/app.rs:1542-1586 | a drop in the middle moves the child into the group after its active child (`active + 1`); any other region moves it to a new split on that region's side, keeping the source group, source index and target |
| TabDrag.HeaderDropIndex | lapce-app/src/app.rs:935-939 | the insertion index is the item's index when the pointer is left of its middle, and the next index otherwise |
| TabDrag.IndicatorAgreesWithDrop | lapce-app/src/app.rs:919-939 | the half that is highlighted while dragging at `x` is the side that a drop at `x` inserts on |
| TabDrag.HeaderDropIndexMonotone | lapce-app/src/app.rs:935-939 | moving the pointer to the right never moves the insertion point to the left |
| TabDrag.QuadrantExamples | lapce-app/src/app.rs:1516-1528 | the five regions on a 400 by 300 group at concrete points |
| TabDrag.EditorTabDragging.DragStart | lapce-app/src/app.rs:913-915 | the drag starts by recording the child's position and its group |
| TabDrag.EditorTabDragging.DragEnd | lapce-app/src/app.rs:916-918 | the end of a drag clears the shared value |
| TabDrag.DropZone.Resized | lapce-app/src/app.rs:1594-1596 | the stored size becomes the new layout size, and the highlight stays as it was |
| TabDrag.DropZone.DragOver | lapce-app/src/app.rs:1513-1534 | while something is dragged and the pointer moves, the highlight becomes the pointer's region; it is written exactly when it changes; otherwise nothing changes |
| TabDrag.DropZone.DragLeave | lapce-app/src/app.rs:1535-1537 | leaving clears the highlight |
| TabDrag.DropZone.Drop | lapce-app/src/app.rs:1538-1593 | with nothing dragged the event passes on and nothing changes; otherwise the event stops, the highlight is cleared, and the highlighted region (if any) decides the main-split call |
| TabDrag.HeaderItem.Resized | lapce-app/src/app.rs:955-957 | the item's width becomes the width of the new layout size |
| TabDrag.HeaderItem.DragOver | lapce-app/src/app.rs:919-929 | while something is dragged and the pointer moves, the indicator becomes the pointer's half; it is written exactly when it changes |
| TabDrag.HeaderItem.DragLeave | lapce-app/src/app.rs:952-954 | leaving clears the indicator |
| TabDrag.HeaderItem.Drop | lapce-app/src/app.rs:930-951 | with nothing dragged the event passes on; otherwise the indicator is cleared and the event stops, and a pointer release moves the dragged child to the insertion index of this item |
| TabDrag.WorkspaceTabDragging.DragStart | lapce-app/src/app.rs:3525-3527 | the drag records the dragged tab's index |
| TabDrag.WorkspaceTabDragging.DragEnd | lapce-app/src/app.rs:3528-3530 | the end of a drag clears the dragged index |
| TabDrag.WorkspaceTabItem.DragOver | lapce-app/src/app.rs:3455-3465 | while a tab is dragged and the pointer moves, the indicator becomes the pointer's half of the tab width; it is written exactly when it changes |
| TabDrag.WorkspaceTabItem.DragLeave | lapce-app/src/app.rs:3489-3491 | leaving clears the indicator |
| TabDrag.WorkspaceTabItem.Drop | lapce-app/src/app.rs:3466-3488 | with nothing dragged the event passes on; otherwise the indicator is cleared; on a pointer release the window is asked to move the dragged tab to the insertion index, and the drag ends |
| SplitLayout.Quotient | lapce-app/src/app.rs:1733-1737 | a ratio is finite exactly when the total it is divided by is not zero |
| SplitLayout.ResizedRatios | lapce-app/src/app.rs:1719-1764 | one ratio per child |
| SplitLayout.MovedKeepsTotal | lapce-app/src/app.rs:1719-1726 | growing one neighbour of the border by the shift and shrinking the other keeps the total extent |
| SplitLayout.RatiosSumToOne | lapce-app/src/app.rs:1719-1764 | when the total extent is not zero, every new ratio is finite and the ratios sum to one |
| SplitLayout.ResizedRatioValues | lapce-app/src/app.rs:1728-1738 | the child before the border gets `(extent + shift) / total`, the child after it `(extent - shift) / total`, and every other child `extent / total` |
| SplitLayout.PairShareKept | lapce-app/src/app.rs:1719-1738 | the two children beside the border keep their combined share |
| SplitLayout.ZeroTotalNonFinite | lapce-app/src/app.rs:1726-1738 | when all extents sum to zero, every ratio is non-finite |
| SplitLayout.ResizeBorder.PointerDown | lapce-app/src/app.rs:1698-1703 | pressing the border records where the pointer went down |
| SplitLayout.ResizeBorder.PointerUp | lapce-app/src/app.rs:1704-1706 | releasing forgets that point |
| SplitLayout.SetRatios | lapce-app/src/app.rs:1727-1738 | the loop over the children leaves in the ratio array exactly the resized ratios of the extents and the shift |
| SplitLayout.ResizeBorder.PointerMove | lapce-app/src/app.rs:1707-1766 | while the border is held, the split's ratio array becomes the resized ratios of the observed extents and the pointer's shift along the split's axis; otherwise it is unchanged |
| Ordinals.MismatchesUpToExact | lapce-app/src/app.rs:697-701 | the positions written while scanning the first `n` cells are exactly those whose value differs from their index, in increasing order |
| Ordinals.MismatchesExact | lapce-app/src/app.rs:697-701 | the positions written are exactly the cells whose value differs from their index, in increasing order |
| Ordinals.InStepNeedsNoWrite | lapce-app/src/app.rs:699-701 | when every position already matches, nothing is written |
| Ordinals.Resync | lapce-app/src/app.rs:697-701 | afterwards every cell holds its own index, and exactly the mismatched cells were written, in order |
| Ordinals.EditorTabData.Items | lapce-app/src/app.rs:696-704 | an editor-tab group's children come back unchanged, and every child's position signal holds its index |
| Ordinals.WindowTabs.Items | lapce-app/src/app.rs:3584-3591 | a window's workspace tabs come back unchanged, and every tab's position signal holds its index |
| Palette.SymbolSplitMembers | lapce-app/src/app.rs:2304-2326 | a matched index is highlighted in the symbol's name exactly when it is inside the name, and in the container name (shifted back) exactly when it is not |
| Palette.SymbolSplitCounts | lapce-app/src/app.rs:2304-2326 | every matched index lands in exactly one of the two parts |
| Palette.NoTextIndicesPastText | lapce-app/src/app.rs:2306-2315 | matches that all lie past the name highlight nothing in it |
| Palette.SymbolSplitRecombines | lapce-app/src/app.rs:2304-2326 | for increasing indices, the name indices followed by the container indices shifted forward give back the original indices |
| Palette.PathSplitMembers | lapce-app/src/app.rs:2240-2259 | a matched index is highlighted in the folder exactly when it is before the folder's end; in the file name (shifted past the separator) exactly when it is after the separator; with no folder, every index goes to the file name |
| Palette.NoFolderIndicesPastFolder | lapce-app/src/app.rs:2255-2259 | matches that all lie past the folder highlight nothing in it |
| Palette.PathSplitRecombines | lapce-app/src/app.rs:2240-2259 | for increasing indices, the folder indices followed by the file-name indices shifted forward give back every original index except one on the separator |
| Palette.PathSplitCounts | lapce-app/src/app.rs:2240-2259 | every matched index other than one on the separator lands in exactly one part |
| Palette.VectorItems.Slice | lapce-app/src/app.rs:2969-2976 | an empty or out-of-range start yields nothing and leaves the vector alone; a range running past the end aborts after truncating the vector at the start; otherwise the range's items come back numbered from the start and are removed from the vector |
| Palette.SliceNumbersPointBack | lapce-app/src/app.rs:2644-2656 | every returned number is the position of its item in the list before the slice |
| Completion.CompletionKindToStr | lapce-app/src/app.rs:2979-2997 | every kind is shown with one of the twelve icon letters |
| Completion.LetterAgreesWithTable | lapce-app/src/app.rs:2979-2997 | for every integer code, the letter is the one the table of fourteen lettered kinds gives, or "t" |
| Completion.TextLetterKinds | lapce-app/src/app.rs:2996 | the named kinds without a letter of their own, and every code outside 1 to 25, are shown as "t" |
| Completion.SharedLetters | lapce-app/src/app.rs:2979-2997 | the only distinct kinds that share a letter other than "t" are method and function, variable and field, and enum and enum member |
| Workspaces.FileName | lapce-app/src/app.rs:3373 | a path's name is a single plain component |
| Workspaces.FileNameOfChild | lapce-app/src/app.rs:3373 | the name of `dir/name` is `name` |
| Workspaces.FileNameTrailingSeparator | lapce-app/src/app.rs:3373 | a trailing separator does not change the name |
| Workspaces.NoFileNameForParent | lapce-app/src/app.rs:3373 | a path ending in `..` has no name, so the whole path is shown instead |
| Workspaces.NoFileNameForRoot | lapce-app/src/app.rs:3373 | the root has no name, so the whole path is shown instead |
| Workspaces.WorkspaceTitle | lapce-app/src/app.rs:3371-3380 | a workspace has a title exactly when it has a folder |
| Workspaces.WorkspaceTitleOfFolder | lapce-app/src/app.rs:3371-3380 | a local folder is titled by its name; a remote one by its name followed by the host in brackets |
| Workspaces.LocalTitleNonEmpty | lapce-app/src/app.rs:3371-3380 | a local workspace on a non-empty path has a non-empty title |
| Workspaces.WindowTitleSource | lapce-app/src/app.rs:3678-3689 | the window is titled after the active tab when it exists, otherwise after the last tab, and just "Lapce" without a tab or display text |
| Workspaces.WindowTitleRecoversDisplay | lapce-app/src/app.rs:3678-3689 | the display text can be read back from a title that carries one, as the text before the " - Lapce" suffix |
| Session.TruncateU32 | lapce-app/src/app.rs:473-474 | the `as u32` cast keeps the value modulo 2^32 |
| Session.PositionRoundTrip | lapce-app/src/app.rs:471-476 | a one-based line and column within the 32-bit range give back the zero-based position they came from |
| Session.PositionEdgeCases | lapce-app/src/app.rs:471-476 | line or column 0 maps to 0 like 1 does; 2^32 + 1 wraps to 0 |
| Session.Dirs | lapce-app/src/app.rs:310-311 | every path kept as a folder is one |
| Session.Files | lapce-app/src/app.rs:310-311 | no path kept as a file is a folder |
| Session.PartitionKeepsEverything | lapce-app/src/app.rs:310-311 | folders and files together account for every path |
| Session.PartitionKeepsOrder | lapce-app/src/app.rs:310-311 | partitioning distributes over concatenation, so each part keeps the command line's order |
| Session.DirsAppend | lapce-app/src/app.rs:310-311 | the folders of two concatenated path lists are the folders of the first followed by those of the second |
| Session.FilesAppend | lapce-app/src/app.rs:310-311 | the files of two concatenated path lists are the files of the first followed by those of the second |
| Session.FolderWindows | lapce-app/src/app.rs:316-375 | one window per folder, in order, window `i` placed `i` cascade steps from the stored window with its size; all named files go to the first window |
| Session.RestoredWindows | lapce-app/src/app.rs:378-400 | one window per stored window, in order, with its stored size, position and tabs, opening no file |
| Session.CreateWindows | lapce-app/src/app.rs:299-447 | at least one window opens; every named file is opened exactly once, in order; folders give folder windows; with no path named the stored session is restored; otherwise one fallback window on the default workspace |
| Session.FolderWindowsCascade | lapce-app/src/app.rs:341-355 | each folder window sits 50 points right of and below the one before, with the same size, and opens no file |
| Session.CascadeClosedForm | lapce-app/src/app.rs:341-355 | after `i` cascade steps a window sits `i` times 50 points right of and below the starting position |
| Session.NewWindowPlacement | lapce-app/src/app.rs:207-250 | a new window cascades 50 points from the active window and takes its size; without one it uses the stored window's position, and without that 800 by 600; it always opens exactly one local workspace tab on the requested folder |
| Session.WindowClosedEffect | lapce-app/src/app.rs:266-286 | while running, closing removes exactly that window and leaves the others untouched; the session is recorded first when it was the only window, and the remaining windows are saved last; once terminating, closing changes nothing |
| Session.LastCloseRecordsWindow | lapce-app/src/app.rs:266-286 | closing the only window records a session that still holds it, then disposes it and saves an empty window set |
| Session.AppData.WindowClosed | lapce-app/src/app.rs:266-286 | the new state is the effect of closing that window on the old state, as `WindowClosedEffect` describes it |
| Session.CommandsOnlyShrinkWindows | lapce-app/src/app.rs:258-297 | no application command adds a window or changes the termination flag |
| Session.TerminationFreezesWindows | lapce-app/src/app.rs:266-269 | after termination, any run of commands keeps the windows, records no further session and only appends to the log |
| Session.AppData.ActiveWindow | lapce-app/src/app.rs:192-199 | the active window when its id is open, otherwise some open window, and none only when no window is open |
| Session.AppData.NewWindowFor | lapce-app/src/app.rs:207-250 | the only change is a request for the window that is placed after the chosen active window |
| Session.AppData.RunAppCommand | lapce-app/src/app.rs:258-297 | the new state is the transition of the old state under the command |
| Session.AppData.WindowOpened | lapce-app/src/app.rs:449-493 | the window joins the map under its id, and one go-to-location command is issued per named file, in order |
| Session.AppData.WillTerminate | lapce-app/src/app.rs:4020-4025 | termination sets the flag and then records the session |
| Session.AppData.Reopen | lapce-app/src/app.rs:4026-4032 | a reopen with no visible window asks for a new window; otherwise nothing changes |
| SingleInstance.WholeRead | lapce-app/src/app.rs:4117-4119 | the read returning everything waiting up to the 100-byte buffer is one of the reads `PossibleRead` allows, which are a read error or any prefix of the waiting bytes that fits the buffer |
| SingleInstance.AcknowledgementIsExact | lapce-app/src/app.rs:4117-4122 | for any possible read: it acknowledges only once all of `received` has been written, a read of exactly eight bytes of it then acknowledges, and a read of another length or a read error does not; a short read is possible and is not accepted; a whole read of `received` is accepted and of two copies is not |
| SingleInstance.TryOpen | lapce-app/src/app.rs:4106-4131 | the hand-off succeeds exactly when the message was sent and an acknowledging reply came in time; a failed send and a missing reply are reported as such |
| SingleInstance.HandleConnection | lapce-app/src/app.rs:4149-4166 | the actions on one connection are those of the specification `Handled`: a read error ends it; each notification is forwarded while the application still receives them; every message gets `received` after it |
| SingleInstance.HandledStep | lapce-app/src/app.rs:4149-4166 | how the actions from one read on begin: a read error gives nothing else, a notification is forwarded (or ends the connection), anything else is logged |
| SingleInstance.EveryMessageAcknowledged | lapce-app/src/app.rs:4153-4165 | actions come in pairs, each a forward or a log entry followed by the acknowledgement |
| SingleInstance.ForwardsExactlyNotifications | lapce-app/src/app.rs:4149-4166 | when every read decodes and the application receives, exactly the notifications are forwarded, in order, with two actions per message |
| SingleInstance.NothingForwardedWithoutReceiver | lapce-app/src/app.rs:4153-4154 | when the application no longer receives, nothing is forwarded |
| SingleInstance.HandOffRoundTrip | lapce-app/src/app.rs:4106-4166 | the listener forwards the hand-off message's paths unchanged and acknowledges; for any possible read of that acknowledgement the hand-off completes exactly when the read returns all of `received`, which a whole read does |
| SingleInstance.LaunchDecision | lapce-app/src/app.rs:3765-3838 | windows are created exactly when the process waits, was asked for a new instance or found none running, and the store opened; a reachable running instance ends the launch whatever the hand-off's result; exit status 1 exactly on a failed respawn or a failed store |
| SingleInstance.RespawnAddsWait | lapce-app/src/app.rs:3765-3803 | the detached copy runs the same program with the same arguments followed by `--wait` |
| Strings.Split | lapce-app/src/app.rs:4085 | splitting gives at least one piece, and no piece contains the separator |
| Strings.JoinSplit | lapce-app/src/app.rs:4085 | joining the pieces with the separator gives the text back |
| Strings.SplitAppend | lapce-app/src/app.rs:4085 | splitting text around one separator is splitting each side |
| Strings.SplitOnce | lapce-app/src/app.rs:4086 | there is no split exactly when the character is absent; otherwise the key has no such character and key, character and value rebuild the line |
| Strings.TrimStart | lapce-app/src/app.rs:4088 | the result is a suffix of the text, not starting with the character, and everything cut is that character |
| Strings.TrimEnd | lapce-app/src/app.rs:4088 | the result is a prefix of the text, not ending with the character, and everything cut is that character |
| Strings.TrimMatchesClean | lapce-app/src/app.rs:4088 | the trimmed value neither starts nor ends with the character, and trimming again changes nothing |
| ShellEnv.EnvLine | lapce-app/src/app.rs:4086-4088 | a line sets nothing exactly when it has no `=` |
| ShellEnv.EnvLineWellFormed | lapce-app/src/app.rs:4085-4088 | a key never holds `=` or a line break, and a value holds no line break and no carriage return at either end |
| ShellEnv.EnvPairsWellFormed | lapce-app/src/app.rs:4085-4088 | every pair read from the output is well formed |
| ShellEnv.InvalidOutputSetsNothing | lapce-app/src/app.rs:4073 | output that is not valid UTF-8 reads as empty and sets nothing |
| ShellEnv.EnvPairsOfPrinted | lapce-app/src/app.rs:4085-4088 | reading back `key=value` lines printed from well-formed pairs gives exactly those pairs, in order, with or without a line break after the last line |
| ShellEnv.LastValue | lapce-app/src/app.rs:4085-4095 | a key has no last assignment exactly when no pair sets it |
| ShellEnv.LastAssignmentWins | lapce-app/src/app.rs:4089-4095 | after loading, a key set by the output holds its last value; a key it does not set is kept, or stays unset, as before |
| ShellEnv.OverwritesAreChanges | lapce-app/src/app.rs:4090-4094 | at most one warning per pair, and each warning reports differing old and new values |
| ShellEnv.ReloadWarnsNothing | lapce-app/src/app.rs:4090-4094 | loading output with distinct keys a second time warns about nothing |
| ShellEnv.LastOfDistinct | lapce-app/src/app.rs:4089-4095 | with distinct keys, each key's last value is the one its own line sets |
| ShellEnv.ProcessEnvironment.LoadShellEnv | lapce-app/src/app.rs:4043-4095 | with no shell or a failed run nothing changes; otherwise the variables become those applied from the output's pairs in order, and one warning is logged per overwrite that changes a value |

## Left out

- Views, styles, reactive signals, memos and effects of the toolkit are not modelled. Each signal is a field, and each event handler is a method.
- The tree surgery of the main split for a drop is not modelled. That is `move_editor_tab_child` and `move_editor_tab_child_to_new_split`, which live outside this file. The model records the call the drop makes.
- `WindowData::new` is not part of this model. An open window is reduced to its size and position.
- `LapceWorkspace::display` is not part of this model. The window title takes each workspace's display text as a parameter.
- The session store (`LapceDb`) is not part of this model. What it returns is a parameter, and what is written to it is recorded in the effect log.
- The sockets, the reader thread, the channel and the 500 ms timeout are not modelled. The hand-off takes the outcome of each as a parameter. So does removing a stale socket file before binding.
- The message framing of `read_msg` and `write_msg` is not part of this model. The listener takes the sequence of decoded reads. The end of a stream arrives as a read error.
- Spawning the detached copy is a parameter, and so is its redirection of output to log files; environment variables are only a map. A panic in `set_var` on a malformed key is not modelled.
- The WSL workspace kind that `create_windows` picks on Windows from environment variables is not modelled. Folder windows are local, as on other platforms.
- The workspace tab width formula is not modelled, and neither is the scope-disposal cleanup that guards dropped views. The width is a parameter.
- Floating-point rounding is not modelled: extents, positions and ratios are exact reals. A division by a zero total gives `NonFinite` for both infinity and not-a-number.
- TabDrag.EditorTabDragging.DragStart: the source stores the dragged child's position signal, to be read when the tab is dropped. The model stores the position the child has when the drag starts, so a child that moves during the drag is not modelled.
- TabDrag.DropZone.Drop: the source index of the call is the position taken at drag start, where the source reads the child's position signal at drop time.
- TabDrag.HeaderItem.Drop: the index of the moved child is the position taken at drag start, where the source reads the child's position signal at drop time.
- TabDrag.WorkspaceTabDragging.DragStart: the source stores the tab's position signal. The model stores the position the tab has when the drag starts.
- TabDrag.WorkspaceTabItem.Drop: the dragged tab is held in the source as a position signal that is read at drop time. The model takes its value at drag start, so a tab moved mid-drag is not modelled.
- Workspaces.FileName: paths are `/`-separated. On Windows, `Path::file_name` also separates at `\` and treats drive and UNC prefixes as part of the root; that is not modelled.
- SingleInstance.TryOpen: which prefix of the reply one `read` returns depends on the socket and is not determined by the model. The lemmas state the outcome for every possible read.
- The terminal check on standard input, the updater cleanup and registering the program's path are not modelled.
- Palette.VectorItems.Slice: the abort for a range past the end is a `RangeOutOfBounds` result followed by the truncated vector. The model does not stop the program.

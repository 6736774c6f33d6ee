/** Workspaces and the titles shown for them.

    A workspace is a root folder (or none) on the local machine or on a remote host.
    The title of a workspace tab is the last component of its folder, with the remote
    host in brackets for a remote workspace. A window is titled after the workspace of
    its active tab. Paths are `/`-separated strings. */
module Workspaces {
  import opened Options
  import opened Strings

  /** Where a workspace lives. */
  datatype WorkspaceKind = Local | RemoteSsh(sshHost: string) | RemoteWsl(wslHost: string)

  datatype Workspace = Workspace(kind: WorkspaceKind, path: Option<string>, lastOpen: nat)

  /** The default workspace: local, without a folder, never opened. */
  const DefaultWorkspace := Workspace(Local, None, 0)

  /** The pieces of a path that name something: the empty pieces that repeated or
      trailing separators leave, and the `.` pieces, are not components. */
  function Components(pieces: seq<string>): seq<string> {
    if pieces == [] then []
    else (if pieces[0] == "" || pieces[0] == "." then [] else [pieces[0]]) + Components(pieces[1..])
  }

  lemma {:induction false} ComponentsAppend(p: seq<string>, q: seq<string>)
    ensures Components(p + q) == Components(p) + Components(q)
  {
    if p != [] {
      assert (p + q)[0] == p[0];
      assert (p + q)[1..] == p[1..] + q;
      ComponentsAppend(p[1..], q);
      var head: seq<string> := if p[0] == "" || p[0] == "." then [] else [p[0]];
      assert Components(p + q) == head + (Components(p[1..]) + Components(q));
      assert head + (Components(p[1..]) + Components(q)) == (head + Components(p[1..])) + Components(q);
    } else {
      assert p + q == q;
    }
  }

  /** A single path component: not empty, not `.` or `..`, and free of separators. */
  predicate PlainName(name: string) {
    name != "" && name != "." && name != ".." && '/' !in name
  }

  /** The last component of a path, unless the path has none or ends in `..`. */
  function FileName(path: string): (r: Option<string>)
    ensures r.Some? ==> PlainName(r.value)
  {
    var c := Components(Split(path, '/'));
    if c == [] || c[|c| - 1] == ".." then None
    else
      ComponentsAreNames(Split(path, '/'));
      Some(c[|c| - 1])
  }

  lemma {:induction false} ComponentsAreNames(pieces: seq<string>)
    requires forall k :: 0 <= k < |pieces| ==> '/' !in pieces[k]
    ensures forall k :: 0 <= k < |Components(pieces)| ==>
      Components(pieces)[k] != "" && Components(pieces)[k] != "." && '/' !in Components(pieces)[k]
  {
    if pieces != [] {
      ComponentsAreNames(pieces[1..]);
    }
  }

  /** The name of an entry of a folder is the name of its path. */
  lemma FileNameOfChild(dir: string, name: string)
    requires PlainName(name)
    ensures FileName(dir + ['/'] + name) == Some(name)
  {
    SplitAppend(dir, name, '/');
    assert Split(name, '/') == [name];
    ComponentsAppend(Split(dir, '/'), [name]);
    assert Components([name]) == [name];
  }

  /** A trailing separator does not change the name of a path. */
  lemma FileNameTrailingSeparator(path: string)
    ensures FileName(path + ['/']) == FileName(path)
  {
    SplitAppend(path, "", '/');
    assert path + ['/'] == path + ['/'] + "";
    assert Split("", '/') == [""];
    ComponentsAppend(Split(path, '/'), [""]);
    assert Components([""]) == [];
  }

  /** A path that leads to the parent of something has no name. */
  lemma NoFileNameForParent(path: string)
    ensures FileName(path + "/..") == None
  {
    SplitAppend(path, "..", '/');
    assert path + "/.." == path + ['/'] + "..";
    assert Split("..", '/') == [".."];
    ComponentsAppend(Split(path, '/'), [".."]);
    assert Components([".."]) == [".."];
  }

  /** The root has no name. */
  lemma NoFileNameForRoot()
    ensures FileName("/") == None
  {
    SplitAppend("", "", '/');
    assert "/" == "" + ['/'] + "";
    assert Split("", '/') == [""];
    assert Split("/", '/') == ["", ""];
    assert Components(["", ""]) == [];
  }

  /** The title of a workspace tab: the folder's name (the whole path when it has no
      name), followed by the remote host in brackets for a remote workspace; a
      workspace without a folder has no title. */
  function WorkspaceTitle(w: Workspace): (r: Option<string>)
    ensures r.None? <==> w.path.None?
  {
    if w.path.None? then None
    else
      var p := w.path.value;
      var dir := if FileName(p).Some? then FileName(p).value else p;
      match w.kind
      case Local => Some(dir)
      case RemoteSsh(remote) => Some(dir + " [" + remote + "]")
      case RemoteWsl(remote) => Some(dir + " [" + remote + "]")
  }

  /** Titles of folders: a local folder is titled by its name alone, a remote one by its
      name and host. */
  lemma WorkspaceTitleOfFolder(dir: string, name: string, remote: string)
    requires PlainName(name)
    ensures WorkspaceTitle(Workspace(Local, Some(dir + ['/'] + name), 0)) == Some(name)
    ensures WorkspaceTitle(Workspace(RemoteSsh(remote), Some(dir + ['/'] + name), 0)) == Some(name + " [" + remote + "]")
  {
    FileNameOfChild(dir, name);
  }

  /** A local workspace's title names the folder, and it is never empty unless the path is. */
  lemma LocalTitleNonEmpty(w: Workspace)
    requires w.kind.Local? && w.path.Some? && w.path.value != ""
    ensures WorkspaceTitle(w).Some? && WorkspaceTitle(w).value != ""
  {
  }

  /** The window title: the display text of the active tab's workspace (of the last tab
      when the active index is out of range), followed by " - Lapce"; just "Lapce" when
      there is no tab or its workspace has no display text. `displays` holds, per
      workspace tab in order, the display text of its workspace. */
  function WindowTitle(displays: seq<Option<string>>, active: nat): string {
    var chosen := if active < |displays| then displays[active]
                  else if displays != [] then displays[|displays| - 1]
                  else None;
    if chosen.Some? then chosen.value + " - Lapce" else "Lapce"
  }

  /** The suffix added to a workspace's display text in a window title. */
  const TitleSuffix := " - Lapce"

  /** Which tab names the window: the active one when it exists, else the last one. */
  lemma WindowTitleSource(displays: seq<Option<string>>, active: nat)
    ensures active < |displays| && displays[active].Some? ==>
      WindowTitle(displays, active) == displays[active].value + TitleSuffix
    ensures active < |displays| && displays[active].None? ==> WindowTitle(displays, active) == "Lapce"
    ensures active >= |displays| && displays != [] ==>
      WindowTitle(displays, active) == WindowTitle(displays, |displays| - 1)
    ensures displays == [] ==> WindowTitle(displays, active) == "Lapce"
  {
  }

  /** The workspace's display text can be read back from any title that carries one. */
  lemma WindowTitleRecoversDisplay(displays: seq<Option<string>>, active: nat)
    requires active < |displays| && displays[active].Some?
    ensures var t := WindowTitle(displays, active);
      |t| >= |TitleSuffix| && t[..|t| - |TitleSuffix|] == displays[active].value
      && t[|t| - |TitleSuffix|..] == TitleSuffix
  {
  }
}

/** Keeping each tab's stored position in step with its place in the list.

    Every child of an editor-tab group, and every workspace tab of a window, carries a
    reactive cell holding its position. Whenever the list is read for display, each
    cell is set to the child's current place, and only the cells that hold a different
    value are written (a write wakes every observer of the cell). */
module Ordinals {

  /** The positions, in increasing order, among the first `n` of `s` whose stored
      value differs from the position itself. */
  function MismatchesUpTo(s: seq<nat>, n: nat): seq<nat>
    requires n <= |s|
  {
    if n == 0 then [] else MismatchesUpTo(s, n - 1) + (if s[n - 1] != n - 1 then [n - 1] else [])
  }

  /** The positions of `s` holding a value other than their position. */
  function Mismatches(s: seq<nat>): seq<nat> {
    MismatchesUpTo(s, |s|)
  }

  /** A position is listed exactly when it is in range and out of step, and the list
      is strictly increasing (so no cell is written twice). */
  lemma {:induction false} MismatchesUpToExact(s: seq<nat>, n: nat)
    requires n <= |s|
    ensures forall x: nat :: x in MismatchesUpTo(s, n) <==> x < n && s[x] != x
    ensures forall a, b :: 0 <= a < b < |MismatchesUpTo(s, n)| ==> MismatchesUpTo(s, n)[a] < MismatchesUpTo(s, n)[b]
  {
    if n > 0 {
      MismatchesUpToExact(s, n - 1);
      var prev := MismatchesUpTo(s, n - 1);
      var last: seq<nat> := if s[n - 1] != n - 1 then [n - 1] else [];
      assert MismatchesUpTo(s, n) == prev + last;
      assert forall a :: 0 <= a < |prev| ==> prev[a] < n - 1 by {
        forall a | 0 <= a < |prev| ensures prev[a] < n - 1 {
          assert prev[a] in prev;
        }
      }
    }
  }

  lemma MismatchesExact(s: seq<nat>)
    ensures forall x: nat :: x in Mismatches(s) <==> x < |s| && s[x] != x
    ensures forall a, b :: 0 <= a < b < |Mismatches(s)| ==> Mismatches(s)[a] < Mismatches(s)[b]
  {
    MismatchesUpToExact(s, |s|);
  }

  /** A list whose cells already hold their positions needs no write at all. */
  lemma {:induction false} InStepNeedsNoWrite(s: seq<nat>, n: nat)
    requires n <= |s|
    requires forall i :: 0 <= i < |s| ==> s[i] == i
    ensures MismatchesUpTo(s, n) == []
  {
    if n > 0 {
      InStepNeedsNoWrite(s, n - 1);
    }
  }

  /** Sets every cell to its position, writing only the cells that differ; `written`
      lists the written positions in order. */
  method Resync(cells: array<nat>) returns (written: seq<nat>)
    modifies cells
    ensures forall i :: 0 <= i < cells.Length ==> cells[i] == i
    ensures written == Mismatches(old(cells[..]))
  {
    written := [];
    for i := 0 to cells.Length
      invariant forall k :: 0 <= k < i ==> cells[k] == k
      invariant forall k :: i <= k < cells.Length ==> cells[k] == old(cells[k])
      invariant written == MismatchesUpTo(old(cells[..]), i)
    {
      if cells[i] != i {
        cells[i] := i;
        written := written + [i];
      }
    }
  }

  type EditorTabId = nat

  /** The kinds of item an editor-tab group can show, each identified by its own id. */
  datatype EditorTabChild =
    | Editor(editorId: nat)
    | DiffEditor(diffEditorId: nat)
    | Settings(settingsId: nat)
    | ThemeColorSettings(themeId: nat)
    | Keymap(keymapId: nat)
    | Volt(voltId: nat)

  /** An editor-tab group: its children, the position cell of each, and the active child. */
  class EditorTabData {
    const editorTabId: EditorTabId
    var children: seq<EditorTabChild>
    var positions: array<nat>
    var active: nat

    ghost predicate Valid()
      reads this
    {
      positions.Length == |children|
    }

    constructor (id: EditorTabId, cs: seq<EditorTabChild>)
      ensures Valid() && fresh(positions) && editorTabId == id && children == cs && active == 0
      ensures forall i :: 0 <= i < |cs| ==> positions[i] == i
    {
      editorTabId, children, active := id, cs, 0;
      positions := new nat[|cs|](i => i);
    }

    /** The children as the header lists them, after every position cell has been
        brought in step with its child's place. The children and their order are kept. */
    method Items() returns (items: seq<EditorTabChild>, written: seq<nat>)
      requires Valid()
      modifies positions
      ensures Valid() && items == children
      ensures forall i :: 0 <= i < |children| ==> positions[i] == i
      ensures written == Mismatches(old(positions[..]))
    {
      written := Resync(positions);
      items := children;
    }
  }

  type WindowTabId = nat

  /** The workspace tabs of one window and the position cell of each. */
  class WindowTabs {
    var tabs: seq<WindowTabId>
    var positions: array<nat>

    ghost predicate Valid()
      reads this
    {
      positions.Length == |tabs|
    }

    constructor (ts: seq<WindowTabId>)
      ensures Valid() && fresh(positions) && tabs == ts
      ensures forall i :: 0 <= i < |ts| ==> positions[i] == i
    {
      tabs := ts;
      positions := new nat[|ts|](i => i);
    }

    /** The workspace tabs as the window header lists them, with every position cell
        brought in step. */
    method Items() returns (items: seq<WindowTabId>, written: seq<nat>)
      requires Valid()
      modifies positions
      ensures Valid() && items == tabs
      ensures forall i :: 0 <= i < |tabs| ==> positions[i] == i
      ensures written == Mismatches(old(positions[..]))
    {
      written := Resync(positions);
      items := tabs;
    }
  }
}

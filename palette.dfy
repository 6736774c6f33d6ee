/** The list items of the palette and of other virtualised lists.

    The fuzzy matcher of the palette reports the matched character positions of an
    item's whole text. For display the text is drawn in two parts, and the matched
    positions are split between them: a document symbol is its name followed by its
    container's name; a file path is its folder, one separator, then its file name.
    Virtualised lists hand the view the items of a requested range, each paired with
    its position in the full list. */
module Palette {
  import Strings

  /** Every element of `s` raised by `k`. */
  function Shifted(s: seq<nat>, k: nat): (r: seq<nat>)
    ensures |r| == |s| && forall j :: 0 <= j < |s| ==> r[j] == s[j] + k
  {
    seq(|s|, j requires 0 <= j < |s| => s[j] + k)
  }

  predicate Increasing(s: seq<nat>) {
    forall a, b :: 0 <= a < b < |s| ==> s[a] < s[b]
  }

  /** `s` without any occurrence of `v`. */
  function Without(s: seq<nat>, v: nat): seq<nat> {
    if s == [] then [] else (if s[0] == v then [] else [s[0]]) + Without(s[1..], v)
  }

  // ---- document symbols: name, then container name ----

  /** The matched positions that fall in the symbol's name, of length `textLen`. */
  function SymbolTextIndices(indices: seq<nat>, textLen: nat): (r: seq<nat>)
  {
    if indices == [] then []
    else (if indices[0] < textLen then [indices[0]] else []) + SymbolTextIndices(indices[1..], textLen)
  }

  /** The matched positions that fall in the container name, relative to its start. */
  function SymbolHintIndices(indices: seq<nat>, textLen: nat): (r: seq<nat>)
  {
    if indices == [] then []
    else (if indices[0] >= textLen then [indices[0] - textLen] else []) + SymbolHintIndices(indices[1..], textLen)
  }

  /** A position is in the name part exactly when it was matched and lies inside the
      name; a position of the container part is one matched past the name, counted from
      the container's start. */
  lemma {:induction false} SymbolSplitMembers(indices: seq<nat>, textLen: nat)
    ensures forall x :: x in SymbolTextIndices(indices, textLen) <==> x in indices && x < textLen
    ensures forall y: nat :: y in SymbolHintIndices(indices, textLen) <==> y + textLen in indices
  {
    if indices != [] {
      SymbolSplitMembers(indices[1..], textLen);
      assert indices == [indices[0]] + indices[1..];
    }
  }

  /** Every matched position lands in exactly one of the two parts. */
  lemma {:induction false} SymbolSplitCounts(indices: seq<nat>, textLen: nat)
    ensures |SymbolTextIndices(indices, textLen)| + |SymbolHintIndices(indices, textLen)| == |indices|
  {
    if indices != [] {
      SymbolSplitCounts(indices[1..], textLen);
    }
  }

  lemma {:induction false} NoTextIndicesPastText(indices: seq<nat>, textLen: nat)
    requires forall j :: 0 <= j < |indices| ==> indices[j] >= textLen
    ensures SymbolTextIndices(indices, textLen) == []
  {
    if indices != [] {
      NoTextIndicesPastText(indices[1..], textLen);
    }
  }

  /** For the increasing positions the matcher reports, the name part followed by the
      container part, moved back to where it starts, gives back every position in order. */
  lemma {:induction false} SymbolSplitRecombines(indices: seq<nat>, textLen: nat)
    requires Increasing(indices)
    ensures SymbolTextIndices(indices, textLen) + Shifted(SymbolHintIndices(indices, textLen), textLen) == indices
  {
    if indices != [] {
      var x, rest := indices[0], indices[1..];
      SymbolSplitRecombines(rest, textLen);
      assert indices == [x] + rest;
      if x >= textLen {
        NoTextIndicesPastText(rest, textLen);
        SymbolStepPastText(x, rest, textLen);
      } else {
        SymbolStepInText(x, rest, textLen);
      }
    }
  }

  /** One step of the recombination when the first position falls in the name. */
  lemma SymbolStepInText(x: nat, rest: seq<nat>, textLen: nat)
    requires x < textLen
    requires SymbolTextIndices(rest, textLen) + Shifted(SymbolHintIndices(rest, textLen), textLen) == rest
    ensures SymbolTextIndices([x] + rest, textLen) + Shifted(SymbolHintIndices([x] + rest, textLen), textLen) == [x] + rest
  {
    var text, hint := SymbolTextIndices(rest, textLen), SymbolHintIndices(rest, textLen);
    assert ([x] + rest)[1..] == rest;
    assert SymbolTextIndices([x] + rest, textLen) == [x] + text;
    assert SymbolHintIndices([x] + rest, textLen) == hint;
    Strings.ConcatAssoc([x], text, Shifted(hint, textLen));
  }

  /** One step of the recombination when the first position, and so every later one,
      falls in the container name. */
  lemma SymbolStepPastText(x: nat, rest: seq<nat>, textLen: nat)
    requires x >= textLen
    requires SymbolTextIndices(rest, textLen) == []
    requires Shifted(SymbolHintIndices(rest, textLen), textLen) == rest
    ensures SymbolTextIndices([x] + rest, textLen) + Shifted(SymbolHintIndices([x] + rest, textLen), textLen) == [x] + rest
  {
    var hint := SymbolHintIndices(rest, textLen);
    var y: nat := x - textLen;
    assert ([x] + rest)[1..] == rest;
    assert SymbolTextIndices([x] + rest, textLen) == [];
    assert SymbolHintIndices([x] + rest, textLen) == [y] + hint;
    ShiftedCons(y, hint, textLen);
  }

  // ---- file paths: folder, one separator, then file name ----

  /** The matched positions that fall in the file name. With no folder the whole text is
      the file name; otherwise the separator position is skipped. */
  function FileNameIndices(indices: seq<nat>, folderLen: nat): (r: seq<nat>)
  {
    if indices == [] then []
    else
      var head := if folderLen > 0 then (if indices[0] > folderLen then [indices[0] - folderLen - 1] else [])
                  else [indices[0]];
      head + FileNameIndices(indices[1..], folderLen)
  }

  /** The matched positions that fall in the folder. */
  function FolderIndices(indices: seq<nat>, folderLen: nat): (r: seq<nat>)
  {
    if indices == [] then []
    else (if indices[0] < folderLen then [indices[0]] else []) + FolderIndices(indices[1..], folderLen)
  }

  /** A position is in the folder part exactly when it was matched inside the folder.
      With no folder every matched position is a file-name position; otherwise a
      file-name position is one matched past the separator, counted from the file
      name's start. */
  lemma {:induction false} PathSplitMembers(indices: seq<nat>, folderLen: nat)
    ensures forall x :: x in FolderIndices(indices, folderLen) <==> x in indices && x < folderLen
    ensures folderLen == 0 ==> FileNameIndices(indices, folderLen) == indices
    ensures folderLen > 0 ==> forall y: nat :: y in FileNameIndices(indices, folderLen) <==> y + folderLen + 1 in indices
  {
    if indices != [] {
      PathSplitMembers(indices[1..], folderLen);
      assert indices == [indices[0]] + indices[1..];
    }
  }

  lemma {:induction false} NoFolderIndicesPastFolder(indices: seq<nat>, folderLen: nat)
    requires forall j :: 0 <= j < |indices| ==> indices[j] >= folderLen
    ensures FolderIndices(indices, folderLen) == []
  {
    if indices != [] {
      NoFolderIndicesPastFolder(indices[1..], folderLen);
    }
  }

  /** For increasing positions and a nonempty folder, the folder part followed by the
      file-name part, moved back past the folder and the separator, gives back every
      position except the separator's. */
  lemma {:induction false} PathSplitRecombines(indices: seq<nat>, folderLen: nat)
    requires Increasing(indices) && folderLen > 0
    ensures FolderIndices(indices, folderLen) + Shifted(FileNameIndices(indices, folderLen), folderLen + 1)
            == Without(indices, folderLen)
  {
    if indices != [] {
      PathSplitRecombines(indices[1..], folderLen);
      if indices[0] < folderLen {
        PathStepInFolder(indices, folderLen);
      } else {
        PathStepPastFolder(indices, folderLen);
      }
    }
  }

  /** One step of the recombination when the first position falls in the folder. */
  lemma PathStepInFolder(indices: seq<nat>, folderLen: nat)
    requires indices != [] && folderLen > 0 && indices[0] < folderLen
    requires FolderIndices(indices[1..], folderLen) + Shifted(FileNameIndices(indices[1..], folderLen), folderLen + 1)
             == Without(indices[1..], folderLen)
    ensures FolderIndices(indices, folderLen) + Shifted(FileNameIndices(indices, folderLen), folderLen + 1)
            == Without(indices, folderLen)
  {
    var folder := FolderIndices(indices[1..], folderLen);
    var file := Shifted(FileNameIndices(indices[1..], folderLen), folderLen + 1);
    assert FolderIndices(indices, folderLen) == [indices[0]] + folder;
    assert FileNameIndices(indices, folderLen) == FileNameIndices(indices[1..], folderLen);
    assert Without(indices, folderLen) == [indices[0]] + Without(indices[1..], folderLen);
    Strings.ConcatAssoc([indices[0]], folder, file);
  }

  lemma ShiftedCons(x: nat, s: seq<nat>, k: nat)
    ensures Shifted([x] + s, k) == [x + k] + Shifted(s, k)
  {
  }

  /** One step of the recombination when the first position is the separator or past it;
      then, the positions being increasing, no later one falls in the folder. */
  lemma PathStepPastFolder(indices: seq<nat>, folderLen: nat)
    requires Increasing(indices) && indices != [] && folderLen > 0 && indices[0] >= folderLen
    requires FolderIndices(indices[1..], folderLen) + Shifted(FileNameIndices(indices[1..], folderLen), folderLen + 1)
             == Without(indices[1..], folderLen)
    ensures FolderIndices(indices, folderLen) + Shifted(FileNameIndices(indices, folderLen), folderLen + 1)
            == Without(indices, folderLen)
  {
    var rest := indices[1..];
    NoFolderIndicesPastFolder(rest, folderLen);
    assert FolderIndices(indices, folderLen) == [];
    if indices[0] == folderLen {
      assert FileNameIndices(indices, folderLen) == FileNameIndices(rest, folderLen);
      assert Without(indices, folderLen) == Without(rest, folderLen);
    } else {
      PathStepPastSeparator(indices, folderLen);
    }
  }

  lemma PathStepPastSeparator(indices: seq<nat>, folderLen: nat)
    requires indices != [] && folderLen > 0 && indices[0] > folderLen
    requires FolderIndices(indices[1..], folderLen) == []
    requires Shifted(FileNameIndices(indices[1..], folderLen), folderLen + 1) == Without(indices[1..], folderLen)
    ensures Shifted(FileNameIndices(indices, folderLen), folderLen + 1) == Without(indices, folderLen)
  {
    var rest := indices[1..];
    assert FileNameIndices(indices, folderLen) == [indices[0] - folderLen - 1] + FileNameIndices(rest, folderLen);
    ShiftedCons(indices[0] - folderLen - 1, FileNameIndices(rest, folderLen), folderLen + 1);
    assert Without(indices, folderLen) == [indices[0]] + Without(rest, folderLen);
  }

  /** The separator's position is the only one dropped: every other position lands in
      exactly one part. */
  lemma {:induction false} PathSplitCounts(indices: seq<nat>, folderLen: nat)
    requires folderLen > 0
    ensures |FolderIndices(indices, folderLen)| + |FileNameIndices(indices, folderLen)| == |Without(indices, folderLen)|
  {
    if indices != [] {
      PathSplitCounts(indices[1..], folderLen);
    }
  }

  // ---- virtualised lists ----

  /** The items of `s` paired with their positions, counted from `start`. */
  function Numbered<V>(s: seq<V>, start: nat): (r: seq<(nat, V)>)
    ensures |r| == |s|
    ensures forall k :: 0 <= k < |s| ==> r[k] == (start + k, s[k])
  {
    seq(|s|, k requires 0 <= k < |s| => (start + k, s[k]))
  }

  /** The outcome of taking a range out of a list: the numbered items, or a failure
      (the list type aborts the program) for a range that starts inside the list but
      ends past it. */
  datatype SliceResult<V> = Sliced(pairs: seq<(nat, V)>) | RangeOutOfBounds

  /** A virtualised list over a persistent vector. Taking a range out of it removes
      that range from the vector it holds. */
  class VectorItems<V> {
    var items: seq<V>

    constructor (s: seq<V>)
      ensures items == s
    {
      items := s;
    }

    function TotalLen(): (n: nat)
      reads this
      ensures n == |items|
    {
      |items|
    }

    method Slice(start: nat, end: nat) returns (r: SliceResult<V>)
      modifies this
      ensures start >= end || start >= |old(items)| ==> r == Sliced([]) && items == old(items)
      ensures start < end && start < |old(items)| && end > |old(items)| ==>
        r == RangeOutOfBounds && items == old(items)[..start]
      ensures start < end <= |old(items)| ==>
        r == Sliced(Numbered(old(items)[start..end], start)) && items == old(items)[..start] + old(items)[end..]
    {
      if start >= end || start >= |items| {
        r := Sliced([]);
      } else if end > |items| {
        items := items[..start];
        r := RangeOutOfBounds;
      } else {
        var middle := items[start..end];
        items := items[..start] + items[end..];
        r := Sliced(Numbered(middle, start));
      }
    }
  }

  /** Every returned pair holds the item found at its number in the list before the slice. */
  lemma SliceNumbersPointBack<V>(s: seq<V>, start: nat, end: nat)
    requires start < end <= |s|
    ensures forall k :: 0 <= k < end - start ==>
      Numbered(s[start..end], start)[k].0 < |s| && s[Numbered(s[start..end], start)[k].0] == Numbered(s[start..end], start)[k].1
  {
  }
}

/** The one-letter icon shown beside a completion item for its kind.

    Kinds are the integer codes of `CompletionItemKind` in the Language Server Protocol
    specification (3.17): any integer can arrive, the named ones are 1 to 25. */
module Completion {

  const Text := 1
  const Method := 2
  const Function := 3
  const Constructor := 4
  const Field := 5
  const Variable := 6
  const Class := 7
  const Interface := 8
  const Module := 9
  const Property := 10
  const Unit := 11
  const Value := 12
  const Enum := 13
  const Keyword := 14
  const Snippet := 15
  const Color := 16
  const File := 17
  const Reference := 18
  const Folder := 19
  const EnumMember := 20
  const Constant := 21
  const Struct := 22
  const Event := 23
  const Operator := 24
  const TypeParameter := 25

  /** The letters an item can be shown with. */
  const Letters: set<string> := {"f", "c", "s", "v", "i", "e", "p", "d", "m", "k", "n", "t"}

  /** The letter for a completion kind; every kind without a letter of its own is shown
      as text, "t". */
  function CompletionKindToStr(kind: int): (r: string)
    ensures r in Letters
  {
    if kind == Method then "f"
    else if kind == Function then "f"
    else if kind == Class then "c"
    else if kind == Struct then "s"
    else if kind == Variable then "v"
    else if kind == Interface then "i"
    else if kind == Enum then "e"
    else if kind == EnumMember then "e"
    else if kind == Field then "v"
    else if kind == Property then "p"
    else if kind == Constant then "d"
    else if kind == Module then "m"
    else if kind == Keyword then "k"
    else if kind == Snippet then "n"
    else "t"
  }

  /** The kinds that have a letter of their own, each with its letter. */
  const LetterTable: seq<(int, string)> := [
    (Method, "f"),
    (Function, "f"),
    (Class, "c"),
    (Struct, "s"),
    (Variable, "v"),
    (Interface, "i"),
    (Enum, "e"),
    (EnumMember, "e"),
    (Field, "v"),
    (Property, "p"),
    (Constant, "d"),
    (Module, "m"),
    (Keyword, "k"),
    (Snippet, "n")
  ]

  /** The letter of the first row of `table` from row `i` on for `kind`, or "t" when
      there is none. */
  function Lookup(table: seq<(int, string)>, i: nat, kind: int): string
    decreases |table| - i
  {
    if i >= |table| then "t"
    else if kind == table[i].0 then table[i].1
    else Lookup(table, i + 1, kind)
  }

  /** The letter matches the table of kinds for every code. */
  lemma LetterAgreesWithTable(kind: int)
    ensures CompletionKindToStr(kind) == Lookup(LetterTable, 0, kind)
  {
    assert Lookup(LetterTable, 0, kind) == if kind == LetterTable[0].0 then LetterTable[0].1 else Lookup(LetterTable, 1, kind);
    assert Lookup(LetterTable, 1, kind) == if kind == LetterTable[1].0 then LetterTable[1].1 else Lookup(LetterTable, 2, kind);
    assert Lookup(LetterTable, 2, kind) == if kind == LetterTable[2].0 then LetterTable[2].1 else Lookup(LetterTable, 3, kind);
    assert Lookup(LetterTable, 3, kind) == if kind == LetterTable[3].0 then LetterTable[3].1 else Lookup(LetterTable, 4, kind);
    assert Lookup(LetterTable, 4, kind) == if kind == LetterTable[4].0 then LetterTable[4].1 else Lookup(LetterTable, 5, kind);
    assert Lookup(LetterTable, 5, kind) == if kind == LetterTable[5].0 then LetterTable[5].1 else Lookup(LetterTable, 6, kind);
    assert Lookup(LetterTable, 6, kind) == if kind == LetterTable[6].0 then LetterTable[6].1 else Lookup(LetterTable, 7, kind);
    assert Lookup(LetterTable, 7, kind) == if kind == LetterTable[7].0 then LetterTable[7].1 else Lookup(LetterTable, 8, kind);
    assert Lookup(LetterTable, 8, kind) == if kind == LetterTable[8].0 then LetterTable[8].1 else Lookup(LetterTable, 9, kind);
    assert Lookup(LetterTable, 9, kind) == if kind == LetterTable[9].0 then LetterTable[9].1 else Lookup(LetterTable, 10, kind);
    assert Lookup(LetterTable, 10, kind) == if kind == LetterTable[10].0 then LetterTable[10].1 else Lookup(LetterTable, 11, kind);
    assert Lookup(LetterTable, 11, kind) == if kind == LetterTable[11].0 then LetterTable[11].1 else Lookup(LetterTable, 12, kind);
    assert Lookup(LetterTable, 12, kind) == if kind == LetterTable[12].0 then LetterTable[12].1 else Lookup(LetterTable, 13, kind);
    assert Lookup(LetterTable, 13, kind) == if kind == LetterTable[13].0 then LetterTable[13].1 else Lookup(LetterTable, 14, kind);
    assert Lookup(LetterTable, 14, kind) == "t";
  }

  /** No kind has two rows, so the order of the rows does not matter. */
  lemma TableRowsDistinct()
    ensures forall a, b :: 0 <= a < b < |LetterTable| ==> LetterTable[a].0 != LetterTable[b].0
  {
  }

  /** The named kinds without a letter of their own, and every unnamed code, show "t". */
  lemma TextLetterKinds(kind: int)
    ensures kind in {Text, Constructor, Unit, Value, Color, File, Reference, Folder, Event, Operator, TypeParameter}
            ==> CompletionKindToStr(kind) == "t"
    ensures (kind < Text || kind > TypeParameter) ==> CompletionKindToStr(kind) == "t"
  {
  }

  /** Which kinds share a letter: only methods with functions, variables with fields and
      enums with their members. */
  lemma SharedLetters(a: int, b: int)
    requires a != b && CompletionKindToStr(a) == CompletionKindToStr(b) && CompletionKindToStr(a) != "t"
    ensures {a, b} == {Method, Function} || {a, b} == {Variable, Field} || {a, b} == {Enum, EnumMember}
  {
  }
}

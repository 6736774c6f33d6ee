/** Resizing the children of a split by dragging the border between two of them.

    A split lays its children out along one axis and keeps, per child, a size ratio.
    The border in front of child `index` (every child but the first has one) remembers
    where the pointer went down; on every pointer move while it is held, all of the
    split's ratios are recomputed from the children's observed layout extents: the two
    children beside the border grow and shrink by the pointer's shift, every other child
    keeps its extent, and each extent is divided by the total extent. */
module SplitLayout {
  import opened Options
  import opened Geometry

  type EditorTabId = nat
  type SplitId = nat

  /** Vertical splits place their children side by side; horizontal ones stack them. */
  datatype SplitDirection = Vertical | Horizontal

  /** What a child of a split holds. */
  datatype SplitContent = EditorTab(tabId: EditorTabId) | Split(splitId: SplitId)

  /** A size ratio as the division produces it: a finite quotient, or a non-finite value
      (infinite or not-a-number) when the total extent it is divided by is zero. */
  datatype Ratio = Finite(value: real) | NonFinite

  function Quotient(a: real, b: real): (q: Ratio)
    ensures q.Finite? <==> b != 0.0

  {
    if b != 0.0 then Finite(a / b) else NonFinite
  }

  /** The last observed layout rectangle of a child; a child whose record is gone
      counts as an empty rectangle at the origin. */
  function ContentRect(c: SplitContent, tabRects: map<EditorTabId, Rect>, splitRects: map<SplitId, Rect>): Rect {
    match c
    case EditorTab(id) => if id in tabRects then tabRects[id] else ZeroRect
    case Split(id) => if id in splitRects then splitRects[id] else ZeroRect
  }

  /** The extent of a rectangle along the axis of a split. */
  function Extent(r: Rect, d: SplitDirection): real {
    match d
    case Vertical => r.Width()
    case Horizontal => r.Height()
  }

  /** The pointer's displacement along the axis of a split. */
  function Shift(start: Point, now: Point, d: SplitDirection): real {
    match d
    case Vertical => now.x - start.x
    case Horizontal => now.y - start.y
  }

  function Extents(children: seq<SplitContent>, tabRects: map<EditorTabId, Rect>, splitRects: map<SplitId, Rect>,
                   d: SplitDirection): (e: seq<real>)
    ensures |e| == |children|
    ensures forall i :: 0 <= i < |children| ==> e[i] == Extent(ContentRect(children[i], tabRects, splitRects), d)
  {
    seq(|children|, i requires 0 <= i < |children| => Extent(ContentRect(children[i], tabRects, splitRects), d))
  }

  function Sum(s: seq<real>): real {
    if s == [] then 0.0 else s[0] + Sum(s[1..])
  }

  /** The sum of the finite ratios of a sequence. */
  function RatioSum(r: seq<Ratio>): real {
    if r == [] then 0.0 else (if r[0].Finite? then r[0].value else 0.0) + RatioSum(r[1..])
  }

  /** How far the border in front of child `index` moving by `shift` changes the
      extent of child `i`: the child before the border grows by the shift, the child
      after it shrinks by the shift, every other child keeps its extent. */
  function Displacement(i: int, before: int, after: int, shift: real): real {
    if i == before then shift else if i == after then -shift else 0.0
  }

  /** The extents after the border in front of child `index` moved by `shift`. */
  function Moved(e: seq<real>, index: nat, shift: real): (m: seq<real>)
    ensures |m| == |e|
    ensures forall i :: 0 <= i < |e| ==> m[i] == e[i] + Displacement(i, index - 1, index, shift)
  {
    seq(|e|, i requires 0 <= i < |e| => e[i] + Displacement(i, index - 1, index, shift))
  }

  /** Every element divided by `t`. */
  function Quotients(m: seq<real>, t: real): (q: seq<Ratio>)
    ensures |q| == |m|
    ensures forall i :: 0 <= i < |m| ==> q[i] == Quotient(m[i], t)
  {
    seq(|m|, i requires 0 <= i < |m| => Quotient(m[i], t))
  }

  /** The new ratio of every child: its moved extent over the total extent before the move. */
  function ResizedRatios(e: seq<real>, index: nat, shift: real): (r: seq<Ratio>)
    requires 1 <= index < |e|
    ensures |r| == |e|
  {
    Quotients(Moved(e, index, shift), Sum(e))
  }

  /** Sets the ratio of every child from the extents `e` and the shift of the border in
      front of child `index`: the two neighbours of the border are moved, the others
      keep their extents, and each is divided by the total extent. */
  method SetRatios(sizes: array<Ratio>, e: seq<real>, index: nat, shift: real)
    requires sizes.Length == |e| && 1 <= index < |e|
    modifies sizes
    ensures sizes[..] == ResizedRatios(e, index, shift)
  {
    var left, right := e[index - 1] + shift, e[index] - shift;
    var total := Sum(e);
    ghost var r := ResizedRatios(e, index, shift);
    for i := 0 to sizes.Length
      invariant forall k :: 0 <= k < i ==> sizes[k] == r[k]
    {
      var v: Ratio;
      if i == index - 1 {
        v := Quotient(left, total);
      } else if i == index {
        v := Quotient(right, total);
      } else {
        v := Quotient(e[i], total);
      }
      assert v == r[i] by {
        assert r[i] == Quotient(Moved(e, index, shift)[i], total);
      }
      sizes[i] := v;
    }
    assert sizes[..] == r;
  }

  /** A displacement that adds to one element and takes the same amount from another keeps the sum. */
  lemma {:induction false} SumDisplaced(e: seq<real>, m: seq<real>, before: int, after: int, shift: real)
    requires before != after && |m| == |e|
    requires forall i :: 0 <= i < |e| ==> m[i] == e[i] + Displacement(i, before, after, shift)
    ensures Sum(m) == Sum(e) + (if 0 <= before < |e| then shift else 0.0) - (if 0 <= after < |e| then shift else 0.0)
  {
    if e != [] {
      assert m[0] == e[0] + Displacement(0, before, after, shift);
      SumDisplaced(e[1..], m[1..], before - 1, after - 1, shift);
    }
  }

  /** Moving a border shifts extent between its two neighbours and keeps the total. */
  lemma MovedKeepsTotal(e: seq<real>, index: nat, shift: real)
    requires 1 <= index < |e|
    ensures Sum(Moved(e, index, shift)) == Sum(e)
  {
    SumDisplaced(e, Moved(e, index, shift), index - 1, index, shift);
  }

  /** Division by a common nonzero divisor distributes over a sum. */
  lemma DivAdd(x: real, y: real, t: real)
    requires t != 0.0
    ensures x / t + y / t == (x + y) / t
  {
  }

  /** Dividing every element by the same nonzero total divides the sum by it. */
  lemma {:induction false} RatioSumOfQuotients(m: seq<real>, t: real)
    requires t != 0.0
    ensures RatioSum(Quotients(m, t)) == Sum(m) / t
  {
    var q := Quotients(m, t);
    if m != [] {
      assert q[1..] == Quotients(m[1..], t);
      RatioSumOfQuotients(m[1..], t);
      DivAdd(m[0], Sum(m[1..]), t);
    }
  }

  /** With a nonzero total extent every new ratio is finite and the ratios sum to one. */
  lemma RatiosSumToOne(e: seq<real>, index: nat, shift: real)
    requires 1 <= index < |e|
    requires Sum(e) != 0.0
    ensures forall i :: 0 <= i < |e| ==> ResizedRatios(e, index, shift)[i].Finite?
    ensures RatioSum(ResizedRatios(e, index, shift)) == 1.0
  {
    var t, m := Sum(e), Moved(e, index, shift);
    assert ResizedRatios(e, index, shift) == Quotients(m, t);
    assert RatioSum(Quotients(m, t)) == Sum(m) / t by {
      RatioSumOfQuotients(m, t);
    }
    assert Sum(m) == t by {
      MovedKeepsTotal(e, index, shift);
    }
    assert t / t == 1.0;
  }

  /** The two neighbours of the border take the shift; every other child keeps its extent. */
  lemma ResizedRatioValues(e: seq<real>, index: nat, shift: real)
    requires 1 <= index < |e|
    requires Sum(e) != 0.0
    ensures ResizedRatios(e, index, shift)[index - 1] == Finite((e[index - 1] + shift) / Sum(e))
    ensures ResizedRatios(e, index, shift)[index] == Finite((e[index] - shift) / Sum(e))
    ensures forall i :: 0 <= i < |e| && i != index - 1 && i != index ==>
      ResizedRatios(e, index, shift)[i] == Finite(e[i] / Sum(e))
  {
  }

  /** The pair beside the border keeps its combined share, whatever the shift. */
  lemma PairShareKept(e: seq<real>, index: nat, shift: real)
    requires 1 <= index < |e|
    requires Sum(e) != 0.0
    ensures ResizedRatios(e, index, shift)[index - 1].value + ResizedRatios(e, index, shift)[index].value
            == (e[index - 1] + e[index]) / Sum(e)
  {
    PairShareKeptFor(e, index, shift, Sum(e));
  }

  lemma PairShareKeptFor(e: seq<real>, index: nat, shift: real, t: real)
    requires 1 <= index < |e|
    requires t == Sum(e) && t != 0.0
    ensures ResizedRatios(e, index, shift)[index - 1].value + ResizedRatios(e, index, shift)[index].value
            == (e[index - 1] + e[index]) / t
  {
    ResizedRatioValues(e, index, shift);
    AdjacentQuotients(ResizedRatios(e, index, shift), index, e[index - 1] + shift, e[index] - shift,
                      e[index - 1] + e[index], t);
  }

  /** Two neighbouring ratios with a common divisor add up to the quotient of their sum `s`. */
  lemma AdjacentQuotients(r: seq<Ratio>, index: nat, x: real, y: real, s: real, t: real)
    requires 1 <= index < |r| && t != 0.0 && x + y == s
    requires r[index - 1] == Finite(x / t) && r[index] == Finite(y / t)
    ensures r[index - 1].value + r[index].value == s / t
  {
    DivAdd(x, y, t);
  }

  /** Before layout, when every extent is zero, the division yields no finite ratio. */
  lemma ZeroTotalNonFinite(e: seq<real>, index: nat, shift: real)
    requires 1 <= index < |e|
    requires Sum(e) == 0.0
    ensures forall i :: 0 <= i < |e| ==> ResizedRatios(e, index, shift)[i] == NonFinite
  {
  }

  /** A split: its axis, its children, and one size ratio per child. */
  class SplitData {
    var direction: SplitDirection
    var children: seq<SplitContent>
    var sizes: array<Ratio>

    ghost predicate Valid()
      reads this
    {
      sizes.Length == |children|
    }

    constructor (d: SplitDirection, cs: seq<SplitContent>, initial: Ratio)
      ensures Valid() && fresh(sizes)
      ensures direction == d && children == cs
      ensures forall i :: 0 <= i < |cs| ==> sizes[i] == initial
    {
      direction, children := d, cs;
      sizes := new Ratio[|cs|](_ => initial);
    }
  }

  /** The resize handle beside child `index` of a split. */
  class ResizeBorder {
    const index: nat
    /** Where the pointer went down, while the border is held. */
    var dragStart: Option<Point>

    constructor (i: nat)
      ensures index == i && dragStart == None
    {
      index := i;
      dragStart := None;
    }

    method PointerDown(pos: Point)
      modifies this
      ensures dragStart == Some(pos)
    {
      dragStart := Some(pos);
    }

    method PointerUp()
      modifies this
      ensures dragStart == None
    {
      dragStart := None;
    }

    /** A pointer move: while the border is held, every size ratio of `split` is set
        from the children's observed extents and the pointer's shift; otherwise nothing
        changes. Only the ratios change, never the children or their order. */
    method PointerMove(split: SplitData, tabRects: map<EditorTabId, Rect>, splitRects: map<SplitId, Rect>, pos: Point)
      requires split.Valid() && 1 <= index < |split.children|
      modifies split.sizes
      ensures split.Valid()
      ensures dragStart.None? ==> split.sizes[..] == old(split.sizes[..])
      ensures dragStart.Some? ==>
        split.sizes[..] == ResizedRatios(Extents(split.children, tabRects, splitRects, split.direction), index,
                                         Shift(dragStart.value, pos, split.direction))
    {
      if dragStart.Some? {
        var e := Extents(split.children, tabRects, splitRects, split.direction);
        var shift := Shift(dragStart.value, pos, split.direction);
        SetRatios(split.sizes, e, index, shift);
      }
    }
  }
}

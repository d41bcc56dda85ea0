/** The palette: three named colours and sixteen indexed ones. */
module Palette {
  import opened ColorData

  /** A position in the indexed part of the palette. */
  type Index = i: nat | i < 16

  /** The fixed-length indexed part: its length cannot vary. */
  type ColorArray = s: seq<Color> | |s| == 16 witness seq(16, _ => Color(0, 0, 0, 0))

  datatype Colors = Colors(background: Color, foreground: Color, cursor: Color, colors: ColorArray)

  /** One of the nineteen places a palette holds a colour. */
  datatype Slot = Background | Foreground | Cursor | Indexed(index: Index)

  const SlotCount: nat := 19

  function Get(p: Colors, slot: Slot): Color {
    match slot
    case Background => p.background
    case Foreground => p.foreground
    case Cursor => p.cursor
    case Indexed(i) => p.colors[i]
  }

  /** Overwrite one slot; every other slot keeps its colour. */
  function Set(p: Colors, slot: Slot, c: Color): (q: Colors)
    ensures Get(q, slot) == c
    ensures forall other :: other != slot ==> Get(q, other) == Get(p, other)
  {
    match slot
    case Background => p.(background := c)
    case Foreground => p.(foreground := c)
    case Cursor => p.(cursor := c)
    case Indexed(i) => p.(colors := p.colors[i := c])
  }

  /** The palette with `c` in every slot; `Uniform(crate.default)` is
      `Colors::default()`. */
  function Uniform(c: Color): (p: Colors)
    ensures forall slot :: Get(p, slot) == c
  {
    Colors(c, c, c, seq(16, _ => c))
  }

  /** Where a slot stands in declaration order: background, foreground,
      cursor, then the indexed colours. */
  function Position(slot: Slot): (k: nat)
    ensures k < SlotCount
  {
    match slot
    case Background => 0
    case Foreground => 1
    case Cursor => 2
    case Indexed(i) => 3 + i
  }

  /** The slot at position `k` of declaration order. */
  function SlotAt(k: nat): (slot: Slot)
    requires k < SlotCount
    ensures Position(slot) == k
  {
    if k == 0 then Background
    else if k == 1 then Foreground
    else if k == 2 then Cursor
    else Indexed(k - 3)
  }

  lemma SlotAtPosition()
    ensures forall slot :: SlotAt(Position(slot)) == slot
  {
  }

  /** All nineteen colours, in declaration order. */
  function Slots(p: Colors): (s: seq<Color>)
    ensures |s| == SlotCount
    ensures forall k :: 0 <= k < SlotCount ==> s[k] == Get(p, SlotAt(k))
  {
    [p.background, p.foreground, p.cursor] + p.colors
  }

  /** The derived equality compares all nineteen slots and nothing else. */
  lemma SlotwiseEquality(p: Colors, q: Colors)
    ensures p == q <==> forall slot :: Get(p, slot) == Get(q, slot)
  {
    if forall slot :: Get(p, slot) == Get(q, slot) {
      forall i | 0 <= i < 16
        ensures p.colors[i] == q.colors[i]
      {
        assert Get(p, Indexed(i)) == Get(q, Indexed(i));
      }
      assert p.colors == q.colors;
      assert Get(p, Background) == Get(q, Background);
      assert Get(p, Foreground) == Get(q, Foreground);
      assert Get(p, Cursor) == Get(q, Cursor);
    }
  }

  /** Lexicographic order of two colour sequences of the same length. */
  predicate LexLess(a: seq<Color>, b: seq<Color>)
    requires |a| == |b|
  {
    |a| > 0 && (ColorData.Less(a[0], b[0]) || (a[0] == b[0] && LexLess(a[1..], b[1..])))
  }

  /** The derived ordering of palettes. */
  predicate Less(p: Colors, q: Colors) {
    LexLess(Slots(p), Slots(q))
  }

  /** Lexicographic order is decided by the first position where the two
      sequences differ. */
  lemma {:induction false} LexLessFirstDifference(a: seq<Color>, b: seq<Color>, k: nat)
    requires |a| == |b| && k < |a|
    requires a[..k] == b[..k] && a[k] != b[k]
    ensures LexLess(a, b) <==> ColorData.Less(a[k], b[k])
    decreases k
  {
    if k > 0 {
      assert a[0] == a[..k][0] == b[..k][0] == b[0];
      assert a[1..][..k - 1] == a[..k][1..] == b[..k][1..] == b[1..][..k - 1];
      LexLessFirstDifference(a[1..], b[1..], k - 1);
    }
  }

  lemma {:induction false} LexLessIrreflexive(a: seq<Color>)
    ensures !LexLess(a, a)
    decreases |a|
  {
    if |a| > 0 {
      LexLessIrreflexive(a[1..]);
    }
  }

  lemma {:induction false} LexLessTransitive(a: seq<Color>, b: seq<Color>, c: seq<Color>)
    requires |a| == |b| == |c|
    requires LexLess(a, b) && LexLess(b, c)
    ensures LexLess(a, c)
    decreases |a|
  {
    if a[0] == b[0] && b[0] == c[0] {
      LexLessTransitive(a[1..], b[1..], c[1..]);
    }
  }

  lemma {:induction false} LexLessTotal(a: seq<Color>, b: seq<Color>)
    requires |a| == |b| && a != b
    ensures LexLess(a, b) || LexLess(b, a)
    decreases |a|
  {
    if a[0] == b[0] {
      assert a == [a[0]] + a[1..] && b == [b[0]] + b[1..];
      LexLessTotal(a[1..], b[1..]);
    }
  }

  lemma {:induction false} LexLessAsymmetric(a: seq<Color>, b: seq<Color>)
    requires |a| == |b| && LexLess(a, b)
    ensures !LexLess(b, a)
    decreases |a|
  {
    if a[0] == b[0] {
      LexLessAsymmetric(a[1..], b[1..]);
    }
  }

  /** Palettes are ordered by their first differing slot in declaration
      order: background, foreground, cursor, then colours 0 to 15. */
  lemma LessByFirstDifference(p: Colors, q: Colors, k: nat)
    requires k < SlotCount
    requires forall j :: 0 <= j < k ==> Get(p, SlotAt(j)) == Get(q, SlotAt(j))
    requires Get(p, SlotAt(k)) != Get(q, SlotAt(k))
    ensures Less(p, q) <==> ColorData.Less(Get(p, SlotAt(k)), Get(q, SlotAt(k)))
  {
    var a, b := Slots(p), Slots(q);
    assert a[..k] == b[..k] by {
      forall j | 0 <= j < k
        ensures a[..k][j] == b[..k][j]
      {
        assert a[j] == Get(p, SlotAt(j));
      }
    }
    LexLessFirstDifference(a, b, k);
  }

  /** The palette ordering is a strict total order. */
  lemma LessIsStrictTotalOrder(p: Colors, q: Colors, r: Colors)
    ensures !Less(p, p)
    ensures Less(p, q) ==> !Less(q, p)
    ensures Less(p, q) && Less(q, r) ==> Less(p, r)
    ensures p != q ==> Less(p, q) || Less(q, p)
  {
    LexLessIrreflexive(Slots(p));
    if Less(p, q) {
      LexLessAsymmetric(Slots(p), Slots(q));
      if Less(q, r) {
        LexLessTransitive(Slots(p), Slots(q), Slots(r));
      }
    }
    if p != q {
      if Slots(p) == Slots(q) {
        SlotwiseEquality(p, q);
        forall slot
          ensures Get(p, slot) == Get(q, slot)
        {
          SlotAtPosition();
          assert Slots(p)[Position(slot)] == Slots(q)[Position(slot)];
        }
        assert false;
      }
      LexLessTotal(Slots(p), Slots(q));
    }
  }
}

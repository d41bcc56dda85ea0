/** The scan loop of `Config::from_xresource_str` seen through the effect
    of each line: a write to one slot, nothing, or the panic that ends the
    scan. */
module EffectScan {
  import opened Outcomes
  import opened ColorData
  import opened Palette

  /** The effect of one line on the palette being built. `InvalidHex` is the
      `panic!` of the source: it ends the whole scan. */
  datatype Effect = NoMatch | Assign(slot: Slot, color: Color) | OutOfRange(index: nat) | InvalidHex

  /** The palette after a line with effect `e`; any other effect leaves it as
      it was. */
  function Apply(p: Colors, e: Effect): Colors {
    if e.Assign? then Set(p, e.slot, e.color) else p
  }

  /** The `for` loop over the lines, given the effect of each line: it stops
      at the first invalid token and reports that line's position; otherwise
      it applies every effect in order. */
  function ScanEffects(p: Colors, es: seq<Effect>): (r: Result<Colors, nat>)
    ensures r.Err? <==> exists i :: 0 <= i < |es| && es[i].InvalidHex?
    ensures r.Err? ==> && r.error < |es| && es[r.error].InvalidHex?
                       && forall j :: 0 <= j < r.error ==> !es[j].InvalidHex?
    decreases |es|
  {
    if |es| == 0 then Ok(p)
    else if es[0].InvalidHex? then Err(0)
    else
      match ScanEffects(Apply(p, es[0]), es[1..])
      case Ok(q) => Ok(q)
      case Err(k) =>
        assert es[1..][k] == es[k + 1];
        Err(k + 1)
  }

  /** `e` writes `slot`. */
  predicate Writes(e: Effect, slot: Slot) {
    e.Assign? && e.slot == slot
  }

  /** A slot that starts as `start` and ends as `v` after effects `es`: `v`
      is the colour of the last effect that writes the slot, or `start` if
      none does. */
  ghost predicate LastWrite(es: seq<Effect>, slot: Slot, start: Color, v: Color) {
    && (forall i :: 0 <= i < |es| && Writes(es[i], slot)
          && (forall j :: i < j < |es| ==> !Writes(es[j], slot))
          ==> v == es[i].color)
    && ((forall i :: 0 <= i < |es| ==> !Writes(es[i], slot)) ==> v == start)
  }

  /** Palette `q` holds, in every slot, the colour of the last effect that
      writes that slot, and the colour of `init` where none does. */
  ghost predicate LastWriteWinsFor(es: seq<Effect>, init: Colors, q: Colors) {
    forall slot :: LastWrite(es, slot, Get(init, slot), Get(q, slot))
  }

  /** One more effect in front: the slot after `es` is what it is after
      `es[1..]`, started from the slot after `es[0]`. */
  lemma LastWriteStep(es: seq<Effect>, slot: Slot, start: Color, v: Color)
    requires |es| > 0
    requires LastWrite(es[1..], slot, if Writes(es[0], slot) then es[0].color else start, v)
    ensures LastWrite(es, slot, start, v)
  {
    forall i | 0 <= i < |es| && Writes(es[i], slot)
        && (forall j :: i < j < |es| ==> !Writes(es[j], slot))
      ensures v == es[i].color
    {
      if i == 0 {
        LastWriteStepFirst(es, slot, start, v);
      } else {
        LastWriteStepLater(es, slot, start, v, i);
      }
    }
    if forall i :: 0 <= i < |es| ==> !Writes(es[i], slot) {
      LastWriteStepUnwritten(es, slot, start, v);
    }
  }

  lemma LastWriteStepFirst(es: seq<Effect>, slot: Slot, start: Color, v: Color)
    requires |es| > 0
    requires LastWrite(es[1..], slot, if Writes(es[0], slot) then es[0].color else start, v)
    requires Writes(es[0], slot) && forall j :: 0 < j < |es| ==> !Writes(es[j], slot)
    ensures v == es[0].color
  {
    assert forall j :: 0 <= j < |es[1..]| ==> !Writes(es[1..][j], slot);
  }

  lemma LastWriteStepLater(es: seq<Effect>, slot: Slot, start: Color, v: Color, i: nat)
    requires |es| > 0
    requires LastWrite(es[1..], slot, if Writes(es[0], slot) then es[0].color else start, v)
    requires 0 < i < |es| && Writes(es[i], slot) && forall j :: i < j < |es| ==> !Writes(es[j], slot)
    ensures v == es[i].color
  {
    assert es[1..][i - 1] == es[i];
    assert forall j :: i - 1 < j < |es[1..]| ==> !Writes(es[1..][j], slot);
  }

  lemma LastWriteStepUnwritten(es: seq<Effect>, slot: Slot, start: Color, v: Color)
    requires |es| > 0
    requires LastWrite(es[1..], slot, if Writes(es[0], slot) then es[0].color else start, v)
    requires forall j :: 0 <= j < |es| ==> !Writes(es[j], slot)
    ensures v == start
  {
    assert !Writes(es[0], slot);
    assert forall j :: 0 <= j < |es[1..]| ==> !Writes(es[1..][j], slot);
  }

  /** When several lines set the same slot, the last one is kept; a slot no
      line sets keeps its initial colour. */
  lemma {:induction false} LastWriteWins(p: Colors, es: seq<Effect>)
    requires ScanEffects(p, es).Ok?
    ensures LastWriteWinsFor(es, p, ScanEffects(p, es).value)
    decreases |es|
  {
    if |es| > 0 {
      var rest := es[1..];
      var p' := Apply(p, es[0]);
      assert ScanEffects(p, es) == ScanEffects(p', rest);
      LastWriteWins(p', rest);
      var q := ScanEffects(p, es).value;
      forall slot
        ensures LastWrite(es, slot, Get(p, slot), Get(q, slot))
      {
        assert Get(p', slot) == if Writes(es[0], slot) then es[0].color else Get(p, slot);
        LastWriteStep(es, slot, Get(p, slot), Get(q, slot));
      }
    }
  }

  /** An effect that writes nothing and is not an error can be dropped: the
      scan reaches the same palette, or fails at the same line. */
  lemma {:induction false} InertEffectRemovable(p: Colors, es: seq<Effect>, i: nat)
    requires i < |es| && (es[i].NoMatch? || es[i].OutOfRange?)
    ensures var r, r' := ScanEffects(p, es), ScanEffects(p, es[..i] + es[i + 1..]);
      && r.Ok? == r'.Ok?
      && (r.Ok? ==> r.value == r'.value)
      && (r.Err? ==> r.error == if r'.error < i then r'.error else r'.error + 1)
    decreases i
  {
    var shorter := es[..i] + es[i + 1..];
    if i == 0 {
      assert shorter == es[1..];
      ScanStep(p, es);
    } else if !es[0].InvalidHex? {
      var rest := es[1..];
      assert rest[i - 1] == es[i];
      InertEffectRemovable(Apply(p, es[0]), rest, i - 1);
      assert shorter[0] == es[0];
      assert shorter[1..] == rest[..i - 1] + rest[i..];
      ScanStep(p, es);
      ScanStep(p, shorter);
    } else {
      assert shorter[0] == es[0];
    }
  }

  /** The scan after a first effect that is not an error continues from the
      palette that effect leaves, and an error later on is one line further. */
  lemma ScanStep(p: Colors, es: seq<Effect>)
    requires |es| > 0 && !es[0].InvalidHex?
    ensures var r, r' := ScanEffects(p, es), ScanEffects(Apply(p, es[0]), es[1..]);
      && r.Ok? == r'.Ok?
      && (r.Ok? ==> r.value == r'.value)
      && (r.Err? ==> r.error == r'.error + 1)
  {
  }

  /** Element `k` of `ys`, which is `xs` with element `i` removed. */
  lemma DropAt<T>(xs: seq<T>, i: nat, ys: seq<T>)
    requires i < |xs| && ys == xs[..i] + xs[i + 1..]
    ensures |ys| == |xs| - 1
    ensures forall k :: 0 <= k < i ==> ys[k] == xs[k]
    ensures forall k :: i <= k < |ys| ==> ys[k] == xs[k + 1]
  {
  }

  /** Dropping an inert effect together with its line: the scan fails at
      the same line, or reaches the same palette. */
  lemma ScanWithoutInert<L>(p: Colors, es: seq<Effect>, lines: seq<L>, i: nat)
    requires |es| == |lines| && i < |es| && (es[i].NoMatch? || es[i].OutOfRange?)
    ensures var r, r' := ScanEffects(p, es), ScanEffects(p, es[..i] + es[i + 1..]);
      && r.Ok? == r'.Ok?
      && (r.Ok? ==> r.value == r'.value)
      && (r.Err? ==> lines[r.error] == (lines[..i] + lines[i + 1..])[r'.error])
  {
    InertEffectRemovable(p, es, i);
    var r' := ScanEffects(p, es[..i] + es[i + 1..]);
    if r'.Err? {
      var k := r'.error;
      var shorter := lines[..i] + lines[i + 1..];
      if k < i {
        assert shorter[k] == lines[k];
      } else {
        assert shorter[k] == lines[k + 1];
      }
    }
  }
}

/** `Config::from_xresource_str`: the line scanner for Xresources dumps. */
module XresourceScanner {
  import opened Outcomes
  import opened ColorData
  import opened Palette
  import opened ConfigModel
  import opened Patterns
  import opened EffectScan

  // ---------------------------------------------------------------------
  // Splitting on line feeds
  // ---------------------------------------------------------------------

  predicate NoLineFeed(lines: seq<string>) {
    forall i :: 0 <= i < |lines| ==> '\n' !in lines[i]
  }

  /** The lines joined back together with a line feed between each two. */
  function Join(lines: seq<string>): string
    requires |lines| >= 1
    decreases |lines|
  {
    if |lines| == 1 then lines[0] else lines[0] + "\n" + Join(lines[1..])
  }

  lemma JoinPrepend(c: char, lines: seq<string>)
    requires |lines| >= 1
    ensures Join([[c] + lines[0]] + lines[1..]) == [c] + Join(lines)
  {
    if |lines| == 1 {
      JoinPrependOne(c, lines);
    } else {
      JoinPrependMany(c, lines);
    }
  }

  lemma JoinPrependOne(c: char, lines: seq<string>)
    requires |lines| == 1
    ensures Join([[c] + lines[0]] + lines[1..]) == [c] + Join(lines)
  {
    assert [[c] + lines[0]] + lines[1..] == [[c] + lines[0]];
  }

  lemma JoinPrependMany(c: char, lines: seq<string>)
    requires |lines| > 1
    ensures Join([[c] + lines[0]] + lines[1..]) == [c] + Join(lines)
  {
    var ls := [[c] + lines[0]] + lines[1..];
    assert ls[0] == [c] + lines[0];
    assert ls[1..] == lines[1..];
  }

  /** `str::split('\n')`: the pieces between line feeds. There is always at
      least one piece (the empty text gives one empty line), no piece holds a
      line feed, and joining the pieces gives the text back. */
  function Split(s: string): (lines: seq<string>)
    ensures |lines| >= 1
    ensures NoLineFeed(lines)
    ensures Join(lines) == s
    decreases |s|
  {
    if |s| == 0 then [""]
    else
      var rest := Split(s[1..]);
      assert s == [s[0]] + s[1..];
      if s[0] == '\n' then
        assert ([""] + rest)[1..] == rest;
        [""] + rest
      else
        JoinPrepend(s[0], rest);
        [[s[0]] + rest[0]] + rest[1..]
  }

  lemma {:induction false} SplitPrefix(a: string, t: string)
    requires '\n' !in a
    ensures Split(a + t) == [a + Split(t)[0]] + Split(t)[1..]
    decreases |a|
  {
    if |a| > 0 {
      assert (a + t)[1..] == a[1..] + t;
      assert (a + t)[0] == a[0];
      SplitPrefix(a[1..], t);
      assert [a[0]] + (a[1..] + Split(t)[0]) == a + Split(t)[0];
    } else {
      assert a + t == t;
      assert a + Split(t)[0] == Split(t)[0];
      assert Split(t) == [Split(t)[0]] + Split(t)[1..];
    }
  }

  /** Splitting undoes joining, for lines without line feeds. */
  lemma {:induction false} SplitJoin(lines: seq<string>)
    requires |lines| >= 1 && NoLineFeed(lines)
    ensures Split(Join(lines)) == lines
    decreases |lines|
  {
    if |lines| == 1 {
      SplitPrefix(lines[0], "");
      assert lines[0] + "" == lines[0];
    } else {
      var rest := lines[1..];
      SplitJoin(rest);
      var t := "\n" + Join(rest);
      assert lines[0] + "\n" + Join(rest) == lines[0] + t;
      SplitPrefix(lines[0], t);
      assert t[1..] == Join(rest);
      assert Split(t) == [""] + rest;
      assert lines[0] + "" == lines[0];
    }
  }

  // ---------------------------------------------------------------------
  // The rule table
  // ---------------------------------------------------------------------

  /** A scanner rule: a named key that writes one named slot, or the indexed
      key `colorN`. */
  datatype ScanRule = SlotRule(keyword: string, slot: Slot) | IndexRule

  /** The rules in the order each line is tried against them. */
  const Rules: seq<ScanRule> := [
    SlotRule("background:", Background),
    SlotRule("foreground:", Foreground),
    SlotRule(CursorKeyword, Cursor),
    IndexRule
  ]

  function PatternOf(r: ScanRule): Rule {
    match r
    case SlotRule(kw, _) => Named(kw)
    case IndexRule => IndexedKey
  }

  /** The first rule, from position `from` of the table on, whose pattern
      matches the line. */
  datatype RuleHit = RuleHit(rule: nat, capture: Capture)

  function FirstMatch(line: string, from: nat): (h: Option<RuleHit>)
    requires '\n' !in line && from <= |Rules|
    ensures h.Some? ==>
      && from <= h.value.rule < |Rules|
      && Captures(PatternOf(Rules[h.value.rule]), line) == Some(h.value.capture)
    ensures h.Some? ==> forall k :: from <= k < h.value.rule ==> Captures(PatternOf(Rules[k]), line).None?
    ensures h.None? ==> forall k :: from <= k < |Rules| ==> Captures(PatternOf(Rules[k]), line).None?
    decreases |Rules| - from
  {
    if from == |Rules| then None
    else
      var c := Captures(PatternOf(Rules[from]), line);
      if c.Some? then Some(RuleHit(from, c.value)) else FirstMatch(line, from + 1)
  }

  // ---------------------------------------------------------------------
  // What one line does
  // ---------------------------------------------------------------------

  /** The dispatch on the length of the captured token (the `#` included).
      Named slots decode a 7-character token with `from_hex` and a
      9-character one with `from_hex8`; indexed slots decode both with
      `from_hex`. An 8-character token is invalid for both, and for an indexed
      key that is decided before the index is looked at. The arms for 4 and 5
      characters are kept as written, although no capture is that short. */
  function Dispatch(crate: ColorCrate, rule: ScanRule, cap: Capture): (e: Effect)
    ensures rule.SlotRule? && |cap.token| == 7 ==> e == Assign(rule.slot, crate.fromHex(cap.token))
    ensures rule.SlotRule? && |cap.token| == 9 ==> e == Assign(rule.slot, crate.fromHex8(cap.token))
    ensures |cap.token| == 8 ==> e == InvalidHex
    ensures rule.IndexRule? && (|cap.token| == 7 || |cap.token| == 9) ==>
      if DecimalValue(cap.digits) > 15 then e == OutOfRange(DecimalValue(cap.digits))
      else e == Assign(Indexed(DecimalValue(cap.digits)), crate.fromHex(cap.token))
    ensures e != NoMatch
  {
    var n := |cap.token|;
    match rule
    case SlotRule(_, slot) =>
      if n == 7 || n == 4 then Assign(slot, crate.fromHex(cap.token))
      else if n == 9 || n == 5 then Assign(slot, crate.fromHex8(cap.token))
      else InvalidHex
    case IndexRule =>
      if n == 7 || n == 4 then
        var index := DecimalValue(cap.digits);
        if index > 15 then OutOfRange(index) else Assign(Indexed(index), crate.fromHex(cap.token))
      else if n == 9 || n == 5 then
        var index := DecimalValue(cap.digits);
        if index > 15 then OutOfRange(index) else Assign(Indexed(index), crate.fromHex(cap.token))
      else InvalidHex
  }

  /** One pass of the loop body: the first matching rule decides, and the
      later rules are not tried. */
  function LineEffect(crate: ColorCrate, line: string): (e: Effect)
    requires '\n' !in line
    ensures e.NoMatch? <==> forall k :: 0 <= k < |Rules| ==> Captures(PatternOf(Rules[k]), line).None?
  {
    match FirstMatch(line, 0)
    case None => NoMatch
    case Some(h) => Dispatch(crate, Rules[h.rule], h.capture)
  }

  /** Rules are tried in table order and the first one that matches decides
      the effect of the line, whatever the later rules would match; a line
      that no rule matches has no effect. */
  lemma FirstRuleWins(crate: ColorCrate, line: string, k: nat)
    requires '\n' !in line && k < |Rules|
    requires Captures(PatternOf(Rules[k]), line).Some?
    requires forall j :: 0 <= j < k ==> Captures(PatternOf(Rules[j]), line).None?
    ensures LineEffect(crate, line) == Dispatch(crate, Rules[k], Captures(PatternOf(Rules[k]), line).value)
  {
    var h := FirstMatch(line, 0);
    assert h.Some? && h.value.rule == k;
  }

  /** Every captured token is `#` and six to eight hex digits, so the
      dispatch only ever sees lengths 7, 8 and 9. */
  lemma CapturedTokenLengths(line: string, k: nat)
    requires '\n' !in line && k < |Rules|
    requires Captures(PatternOf(Rules[k]), line).Some?
    ensures 7 <= |Captures(PatternOf(Rules[k]), line).value.token| <= 9
  {
  }

  // ---------------------------------------------------------------------
  // The scan
  // ---------------------------------------------------------------------

  datatype ScanError = InvalidHexIn(line: string)

  /** The effect of each line, in order. */
  function Effects(crate: ColorCrate, lines: seq<string>): (es: seq<Effect>)
    requires NoLineFeed(lines)
    ensures |es| == |lines|
    ensures forall i :: 0 <= i < |lines| ==> es[i] == LineEffect(crate, lines[i])
  {
    seq(|lines|, i requires 0 <= i < |lines| => LineEffect(crate, lines[i]))
  }

  /** The loop over `lines`, from palette `p`: it fails at the first line
      whose first matching rule captured an 8-character token, naming that
      line, and otherwise every slot ends with the colour of the last line
      that set it, or its colour in `p` where no line did. */
  function ScanLines(crate: ColorCrate, p: Colors, lines: seq<string>): (r: Result<Colors, ScanError>)
    requires NoLineFeed(lines)
    ensures r.Ok? ==> forall i :: 0 <= i < |lines| ==> !Effects(crate, lines)[i].InvalidHex?
    ensures r.Err? ==> exists i ::
      && 0 <= i < |lines| && Effects(crate, lines)[i].InvalidHex?
      && (forall j :: 0 <= j < i ==> !Effects(crate, lines)[j].InvalidHex?)
      && r.error == InvalidHexIn(lines[i])
    ensures r.Ok? ==> LastWriteWinsFor(Effects(crate, lines), p, r.value)
  {
    var es := Effects(crate, lines);
    match ScanEffects(p, es)
    case Ok(q) =>
      LastWriteWins(p, es);
      Ok(q)
    case Err(i) => Err(InvalidHexIn(lines[i]))
  }

  /** Deleting a line deletes its effect and leaves the others in order. */
  lemma EffectsWithoutLine(crate: ColorCrate, lines: seq<string>, i: nat)
    requires NoLineFeed(lines) && i < |lines|
    ensures NoLineFeed(lines[..i] + lines[i + 1..])
    ensures Effects(crate, lines[..i] + lines[i + 1..]) == Effects(crate, lines)[..i] + Effects(crate, lines)[i + 1..]
  {
    var shorter := lines[..i] + lines[i + 1..];
    var es := Effects(crate, lines);
    var gs := es[..i] + es[i + 1..];
    DropAt(lines, i, shorter);
    DropAt(es, i, gs);
    var fs := Effects(crate, shorter);
    forall k | 0 <= k < |fs|
      ensures fs[k] == gs[k]
    {
      if k < i {
        assert shorter[k] == lines[k];
      } else {
        assert shorter[k] == lines[k + 1];
      }
    }
  }

  /** A line that matches no rule, or only an indexed key above 15, has no
      effect at all: the scan gives the same outcome without it. */
  lemma InertLineRemovable(crate: ColorCrate, p: Colors, lines: seq<string>, i: nat)
    requires NoLineFeed(lines) && i < |lines|
    requires LineEffect(crate, lines[i]).NoMatch? || LineEffect(crate, lines[i]).OutOfRange?
    ensures NoLineFeed(lines[..i] + lines[i + 1..])
    ensures ScanLines(crate, p, lines) == ScanLines(crate, p, lines[..i] + lines[i + 1..])
  {
    EffectsWithoutLine(crate, lines, i);
    ScanWithoutInert(p, Effects(crate, lines), lines, i);
  }

  /** `Config::from_xresource_str`: the loop over the lines of `s`, from the
      default palette. A successful scan yields a palette and nothing else;
      the scan fails exactly when some line's first matching rule captured an
      8-character token, naming the first such line; and every slot holds
      the colour of the last line that set it, or the default colour where no
      line did. */
  function FromXresourceStr(crate: ColorCrate, s: string): (r: Result<Config, ScanError>)
    ensures r.Ok? ==> && r.value.colors.Some? && r.value.input.None?
                      && r.value.outputDirectory.None? && r.value.wallpaper.None?
    ensures r.Ok? ==> forall i :: 0 <= i < |Split(s)| ==> !Effects(crate, Split(s))[i].InvalidHex?
    ensures r.Err? ==> exists i ::
      && 0 <= i < |Split(s)| && Effects(crate, Split(s))[i].InvalidHex?
      && (forall j :: 0 <= j < i ==> !Effects(crate, Split(s))[j].InvalidHex?)
      && r.error == InvalidHexIn(Split(s)[i])
    ensures r.Ok? ==> LastWriteWinsFor(Effects(crate, Split(s)), Uniform(crate.default), r.value.colors.value)
  {
    var lines := Split(s);
    var scanned := ScanLines(crate, Uniform(crate.default), lines);
    if scanned.Ok? then Ok(Config(None, None, Some(scanned.value), None)) else Err(scanned.error)
  }
}

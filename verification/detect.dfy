/** `detect_string_type`: classifies a text as a TOML document (0), an
    Xresources dump (1) or unrecognised (9). Whether a text parses as TOML is
    the parser's verdict, passed in as `parse`. */
module Detector {
  import opened Outcomes
  import opened Patterns
  import opened TomlProjection
  import XresourceScanner

  const TomlDocument: nat := 0
  const XresourcesDocument: nat := 1
  const Unrecognized: nat := 9

  /** Any text the parser accepts is TOML, whatever else it contains. Other
      text is an Xresources dump exactly when the cursor pattern matches
      somewhere in it, and unrecognised otherwise. */
  function DetectStringType(parse: string -> Option<TomlValue>, s: string): (code: nat)
    ensures code == TomlDocument || code == XresourcesDocument || code == Unrecognized
    ensures code == TomlDocument <==> parse(s).Some?
    ensures code == XresourcesDocument <==>
      parse(s).None? && exists p: nat :: p <= |s| && CaptureAt(Named(CursorKeyword), s, p).Some?
  {
    if parse(s).Some? then TomlDocument
    else if IsMatch(Named(CursorKeyword), s) then XresourcesDocument
    else Unrecognized
  }

  /** The detector's pattern is the scanner's cursor pattern: on a single
      line of non-TOML text, the detector answers "Xresources" exactly when
      the scanner's cursor rule captures a token on that line. */
  lemma DetectorUsesCursorRule(parse: string -> Option<TomlValue>, line: string)
    requires '\n' !in line && parse(line).None?
    ensures XresourceScanner.PatternOf(XresourceScanner.Rules[2]) == Named(CursorKeyword)
    ensures DetectStringType(parse, line) == XresourcesDocument <==>
      Captures(XresourceScanner.PatternOf(XresourceScanner.Rules[2]), line).Some?
  {
  }

  /** The detector matches over the whole text, so the whitespace between the
      colon and the `#` may contain a line feed: `cursorColor:` at the end of
      one line and `#aabbcc` on the next is recognised as an Xresources dump,
      although on neither line does the scanner's cursor rule match. */
  lemma MatchMayCrossLineFeed(parse: string -> Option<TomlValue>)
    requires parse("cursorColor:\n#aabbcc").None?
    ensures DetectStringType(parse, "cursorColor:\n#aabbcc") == XresourcesDocument
    ensures XresourceScanner.Split("cursorColor:\n#aabbcc") == ["cursorColor:", "#aabbcc"]
    ensures Captures(Named(CursorKeyword), "cursorColor:").None?
    ensures Captures(Named(CursorKeyword), "#aabbcc").None?
  {
    CrossingMatch();
    CrossingSplit();
    KeywordAloneHasNoToken();
    TokenAloneHasNoKeyword();
  }

  lemma CrossingMatch()
    ensures CaptureAt(Named(CursorKeyword), "cursorColor:\n#aabbcc", 0).Some?
  {
    var s := "cursorColor:\n#aabbcc";
    assert s[0..12] == CursorKeyword;
    assert SpaceEnd(s, 13) == 13;
    assert SpaceEnd(s, 12) == 13;
    assert HexEnd(s, 20) == 20;
    assert HexEnd(s, 14) == 20;
  }

  lemma CrossingSplit()
    ensures XresourceScanner.Split("cursorColor:\n#aabbcc") == ["cursorColor:", "#aabbcc"]
  {
    XresourceScanner.SplitJoin(["cursorColor:", "#aabbcc"]);
    assert XresourceScanner.Join(["cursorColor:", "#aabbcc"]) == "cursorColor:\n#aabbcc";
  }

  lemma TokenAloneHasNoKeyword()
    ensures Captures(Named(CursorKeyword), "#aabbcc").None?
  {
    var second := "#aabbcc";
    forall p: nat | p <= |second|
      ensures CaptureAt(Named(CursorKeyword), second, p).None?
    {
    }
  }

  lemma KeywordAloneHasNoToken()
    ensures Captures(Named(CursorKeyword), "cursorColor:").None?
  {
    var first := "cursorColor:";
    forall p: nat | p <= |first|
      ensures CaptureAt(Named(CursorKeyword), first, p).None?
    {
      if p == 0 {
        assert SpaceEnd(first, 12) == 12;
      }
    }
  }

  /** An Xresources line setting the cursor colour is recognised, provided
      the text is not TOML. */
  lemma CursorLineRecognised(parse: string -> Option<TomlValue>)
    requires parse("*.cursorColor: #cac0a9").None?
    ensures DetectStringType(parse, "*.cursorColor: #cac0a9") == XresourcesDocument
  {
    var s := "*.cursorColor: #cac0a9";
    assert s[2..14] == CursorKeyword;
    assert SpaceEnd(s, 15) == 15;
    assert SpaceEnd(s, 14) == 15;
    assert HexEnd(s, 22) == 22;
    assert HexEnd(s, 16) == 22;
    assert CaptureAt(Named(CursorKeyword), s, 2).Some?;
  }
}

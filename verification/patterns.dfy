/** The four fixed regular expressions of the scanner and the detector,
    each stated as a plain matcher over strings.

    Every pattern has the shape `.*KEY:\s*?(#[a-fA-F0-9]{6,8})\s?`, where KEY
    is a literal keyword or `color([0-9]{1,2})`. Read against a single line:
    - the greedy `.*` makes the match use the LAST position where the rest of
      the pattern matches;
    - `\s*?` followed by `#` must consume exactly the whitespace that precedes
      the `#` (a `#` is not whitespace, so there is one way to do it);
    - `{6,8}` is greedy, so the token takes up to eight of the hex digits
      that follow;
    - the trailing `\s?` always matches and never changes the capture. */
module Patterns {
  import opened Outcomes

  /** `[a-fA-F0-9]` */
  predicate IsHexDigit(c: char) {
    '0' <= c <= '9' || 'a' <= c <= 'f' || 'A' <= c <= 'F'
  }

  /** `[0-9]` */
  predicate IsDigit(c: char) {
    '0' <= c <= '9'
  }

  /** `\s` in the regex engine's default Unicode mode: the White_Space
      property. It includes the line feed. */
  predicate IsSpace(c: char) {
    var n := c as int;
    || 0x09 <= n <= 0x0D
    || n == 0x20 || n == 0x85 || n == 0xA0 || n == 0x1680
    || 0x2000 <= n <= 0x200A
    || n == 0x2028 || n == 0x2029 || n == 0x202F || n == 0x205F || n == 0x3000
  }

  /** The end of the run of whitespace that starts at `i`. */
  function SpaceEnd(s: string, i: nat): (j: nat)
    requires i <= |s|
    ensures i <= j <= |s|
    ensures forall k :: i <= k < j ==> IsSpace(s[k])
    ensures j == |s| || !IsSpace(s[j])
    decreases |s| - i
  {
    if i < |s| && IsSpace(s[i]) then SpaceEnd(s, i + 1) else i
  }

  /** The end of the run of hex digits that starts at `i`. */
  function HexEnd(s: string, i: nat): (j: nat)
    requires i <= |s|
    ensures i <= j <= |s|
    ensures forall k :: i <= k < j ==> IsHexDigit(s[k])
    ensures j == |s| || !IsHexDigit(s[j])
    decreases |s| - i
  {
    if i < |s| && IsHexDigit(s[i]) then HexEnd(s, i + 1) else i
  }

  /** What a capture group `(#[a-fA-F0-9]{6,8})` can hold: `#` and six to
      eight hex digits. */
  predicate IsToken(t: string) {
    7 <= |t| <= 9 && t[0] == '#' && forall k :: 1 <= k < |t| ==> IsHexDigit(t[k])
  }

  /** `\s*?#` followed by `n` hex digits (six to eight) matches `s` from `i`,
      with the `#` at `j`. */
  ghost predicate TokenShape(s: string, i: nat, j: nat, n: nat) {
    && i <= j && j + 1 + n <= |s| && 6 <= n <= 8
    && (forall k :: i <= k < j ==> IsSpace(s[k]))
    && s[j] == '#'
    && (forall k :: j + 1 <= k < j + 1 + n ==> IsHexDigit(s[k]))
  }

  /** The greedy `{6,8}` took every digit it could. */
  ghost predicate Greedy(s: string, j: nat, n: nat) {
    n == 8 || j + 1 + n >= |s| || !IsHexDigit(s[j + 1 + n])
  }

  /** `\s*?(#[a-fA-F0-9]{6,8})` tried at position `i`: the captured token, if
      the pattern matches there. */
  function TokenAt(s: string, i: nat): (t: Option<string>)
    requires i <= |s|
    ensures t.Some? ==> IsToken(t.value)
    ensures t.Some? <==> exists j: nat, n: nat :: TokenShape(s, i, j, n)
    ensures t.Some? ==> exists j: nat, n: nat ::
      TokenShape(s, i, j, n) && Greedy(s, j, n) && t.value == s[j..j + 1 + n]
  {
    var j := SpaceEnd(s, i);
    if j < |s| && s[j] == '#' then
      var run := HexEnd(s, j + 1) - (j + 1);
      if run >= 6 then
        var n := if run < 8 then run else 8;
        assert TokenShape(s, i, j, n) && Greedy(s, j, n);
        Some(s[j..j + 1 + n])
      else
        NoTokenShape(s, i);
        None
    else
      NoTokenShape(s, i);
      None
  }

  /** A matching shape is anchored where the whitespace run from `i` ends,
      and its digits lie inside the hex run that follows the `#`. */
  lemma TokenShapeAnchored(s: string, i: nat, j: nat, n: nat)
    requires TokenShape(s, i, j, n)
    ensures j == SpaceEnd(s, i)
    ensures HexEnd(s, j + 1) >= j + 1 + n
  {
  }

  /** Where the whitespace run from `i` does not end in `#` and six hex
      digits, no shape matches. */
  lemma NoTokenShape(s: string, i: nat)
    requires i <= |s|
    requires var j := SpaceEnd(s, i);
      !(j < |s| && s[j] == '#' && HexEnd(s, j + 1) - (j + 1) >= 6)
    ensures forall j: nat, n: nat :: !TokenShape(s, i, j, n)
  {
    forall j: nat, n: nat | TokenShape(s, i, j, n)
      ensures j == SpaceEnd(s, i) && HexEnd(s, j + 1) >= j + 1 + n
    {
      TokenShapeAnchored(s, i, j, n);
    }
  }

  /** The keyword of the cursor pattern, shared by the scanner and the
      detector. */
  const CursorKeyword: string := "cursorColor:"

  /** The part of a pattern before `\s*?`: a literal keyword, or the indexed
      key `color([0-9]{1,2}):`. */
  datatype Rule = Named(keyword: string) | IndexedKey

  /** A key found at some position: its digits (empty for a named key) and
      where the `:` ends. */
  datatype Key = Key(digits: string, end: nat)

  /** The key of `rule` starting exactly at position `p`. For the indexed key
      the greedy `{1,2}` is tried with two digits first; the two shapes
      exclude each other because the second character after `color` is a
      digit in one and a colon in the other. */
  function KeyAt(rule: Rule, s: string, p: nat): (k: Option<Key>)
    requires p <= |s|
    ensures k.Some? ==> p <= k.value.end <= |s|
    ensures k.Some? && rule.Named? ==>
      k.value.end == p + |rule.keyword| && s[p..k.value.end] == rule.keyword
    ensures k.Some? && rule.IndexedKey? ==>
      && 1 <= |k.value.digits| <= 2
      && (forall d :: 0 <= d < |k.value.digits| ==> IsDigit(k.value.digits[d]))
      && s[p..k.value.end] == "color" + k.value.digits + ":"
    ensures rule.Named? && p + |rule.keyword| <= |s| && s[p..p + |rule.keyword|] == rule.keyword ==>
      k == Some(Key("", p + |rule.keyword|))
  {
    match rule
    case Named(kw) =>
      if p + |kw| <= |s| && s[p..p + |kw|] == kw then Some(Key("", p + |kw|)) else None
    case IndexedKey =>
      if p + 5 <= |s| && s[p..p + 5] == "color" then
        if p + 8 <= |s| && IsDigit(s[p + 5]) && IsDigit(s[p + 6]) && s[p + 7] == ':' then
          assert s[p..p + 8] == s[p..p + 5] + s[p + 5..p + 7] + [s[p + 7]];
          Some(Key(s[p + 5..p + 7], p + 8))
        else if p + 7 <= |s| && IsDigit(s[p + 5]) && s[p + 6] == ':' then
          assert s[p..p + 7] == s[p..p + 5] + s[p + 5..p + 6] + [s[p + 6]];
          Some(Key(s[p + 5..p + 6], p + 7))
        else None
      else None
  }

  /** The indexed key is found wherever its text is: `color`, one or two
      digits and `:` at `p` give exactly that key. */
  lemma IndexedKeyComplete(s: string, p: nat, d: string)
    requires 1 <= |d| <= 2 && forall i :: 0 <= i < |d| ==> IsDigit(d[i])
    requires p + 6 + |d| <= |s| && s[p..p + 6 + |d|] == "color" + d + ":"
    ensures KeyAt(IndexedKey, s, p) == Some(Key(d, p + 6 + |d|))
  {
    var key := "color" + d + ":";
    assert s[p..p + 5] == key[..5];
    assert forall i :: 0 <= i < |key| ==> s[p + i] == key[i];
    assert forall i :: 0 <= i < |d| ==> key[5 + i] == d[i];
    if |d| == 2 {
      assert s[p + 5..p + 7] == d;
      assert IsDigit(s[p + 5]) && IsDigit(s[p + 6]) && s[p + 7] == key[7] == ':';
    } else {
      assert s[p + 6] == key[6] == ':';
      assert !IsDigit(s[p + 6]);
      assert s[p + 5..p + 6] == d;
    }
  }

  /** What one successful match captures: the index digits (empty for a named
      key) and the colour token. */
  datatype Capture = Capture(digits: string, token: string)

  /** The whole pattern of `rule` with its key starting exactly at `p`. */
  function CaptureAt(rule: Rule, s: string, p: nat): (c: Option<Capture>)
    requires p <= |s|
    ensures c.Some? ==> IsToken(c.value.token)
  {
    match KeyAt(rule, s, p)
    case None => None
    case Some(k) =>
      match TokenAt(s, k.end)
      case None => None
      case Some(t) => Some(Capture(k.digits, t))
  }

  /** A match and the position of its key. */
  datatype Hit = Hit(pos: nat, capture: Capture)

  /** The last index below `hi` holding a value. */
  function LastSome<T>(xs: seq<Option<T>>, hi: nat): (k: Option<nat>)
    requires hi <= |xs|
    ensures k.Some? ==> k.value < hi && xs[k.value].Some?
    ensures k.Some? ==> forall q :: k.value < q < hi ==> xs[q].None?
    ensures k.None? ==> forall q :: 0 <= q < hi ==> xs[q].None?
    decreases hi
  {
    if hi == 0 then None
    else if xs[hi - 1].Some? then Some(hi - 1)
    else LastSome(xs, hi - 1)
  }

  /** The outcome of the pattern of `rule` at every position of `s`. */
  function CapturesAtEach(rule: Rule, s: string): (cs: seq<Option<Capture>>)
    ensures |cs| == |s| + 1
    ensures forall p :: 0 <= p <= |s| ==> cs[p] == CaptureAt(rule, s, p)
  {
    seq(|s| + 1, p requires 0 <= p <= |s| => CaptureAt(rule, s, p))
  }

  /** The last position below `hi` at which the pattern of `rule` matches. */
  function LastHitBelow(rule: Rule, s: string, hi: nat): (h: Option<Hit>)
    requires hi <= |s| + 1
    ensures h.Some? ==> h.value.pos < hi && CaptureAt(rule, s, h.value.pos) == Some(h.value.capture)
    ensures h.Some? ==> forall q: nat :: h.value.pos < q < hi ==> CaptureAt(rule, s, q).None?
    ensures h.None? ==> forall q: nat :: q < hi ==> CaptureAt(rule, s, q).None?
  {
    var cs := CapturesAtEach(rule, s);
    match LastSome(cs, hi)
    case None => None
    case Some(k) => Some(Hit(k, cs[k].value))
  }

  /** `Regex::captures` on one line. A line holds no line feed, so the
      leading `.*` can reach every position and the capture comes from the
      last position where the rest of the pattern matches. */
  function Captures(rule: Rule, line: string): (c: Option<Capture>)
    requires '\n' !in line
    ensures c.Some? <==> exists p: nat :: p <= |line| && CaptureAt(rule, line, p).Some?
    ensures c.Some? ==> exists p: nat ::
      && p <= |line| && CaptureAt(rule, line, p) == c
      && forall q: nat :: p < q <= |line| ==> CaptureAt(rule, line, q).None?
  {
    match LastHitBelow(rule, line, |line| + 1)
    case None => None
    case Some(h) => Some(h.capture)
  }

  /** `Regex::is_match` on a whole text: the pattern matches at some
      position. Only existence matters here, so the text may hold line feeds,
      and `\s*?` may consume them. */
  function IsMatch(rule: Rule, s: string): (b: bool)
    ensures b <==> exists p: nat :: p <= |s| && CaptureAt(rule, s, p).Some?
  {
    LastHitBelow(rule, s, |s| + 1).Some?
  }

  /** The value of a string of decimal digits, as `str::parse::<usize>` reads
      it. */
  function DecimalValue(d: string): (v: nat)
    ensures |d| == 1 && IsDigit(d[0]) ==> v == d[0] as int - '0' as int
    ensures |d| == 2 && IsDigit(d[0]) && IsDigit(d[1]) ==>
      v == 10 * (d[0] as int - '0' as int) + (d[1] as int - '0' as int)
    decreases |d|
  {
    if |d| == 0 then 0
    else DecimalValue(d[..|d| - 1]) * 10 + ((d[|d| - 1] as int - '0' as int) % 10)
  }

  function DigitChar(n: nat): (c: char)
    requires n < 10
    ensures IsDigit(c) && c as int - '0' as int == n
  {
    ('0' as int + n) as char
  }

  /** The decimal text of `n`: the digits after `color` in the literal keys
      `color0` to `color15`. */
  function DecimalText(n: nat): (d: string)
    ensures |d| >= 1 && forall k :: 0 <= k < |d| ==> IsDigit(d[k])
    ensures n < 10 ==> |d| == 1
    ensures 10 <= n < 100 ==> |d| == 2
    decreases n
  {
    if n < 10 then [DigitChar(n)] else DecimalText(n / 10) + [DigitChar(n % 10)]
  }

  /** Reading back the decimal text of a number gives the number. */
  lemma {:induction false} DecimalRoundTrip(n: nat)
    ensures DecimalValue(DecimalText(n)) == n
    decreases n
  {
    if n >= 10 {
      var d := DecimalText(n);
      assert d[..|d| - 1] == DecimalText(n / 10);
      DecimalRoundTrip(n / 10);
    } else {
      assert DecimalText(n)[..0] == [];
    }
  }
}

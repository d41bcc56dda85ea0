/** `Config::from_toml_str`: the projection of a parsed TOML document onto a
    configuration. The TOML parser itself is not part of this model; its
    output is the value tree below, and its verdict is a parameter. */
module TomlProjection {
  import opened Outcomes
  import opened ColorData
  import opened Palette
  import opened WallpaperSpec
  import opened ConfigModel
  import opened Patterns

  /** The parser's value tree. Floats and datetimes are left out: for this
      projection they behave like integers, being neither strings, booleans,
      arrays nor tables. */
  datatype TomlValue =
    | Str(text: string)
    | Integer(number: int)
    | Boolean(flag: bool)
    | Array(items: seq<TomlValue>)
    | Table(entries: map<string, TomlValue>)

  /** `Value::get(key)`: the entry of a table, and nothing for any other
      kind of value. */
  function Lookup(v: TomlValue, key: string): (r: Option<TomlValue>)
    ensures r.Some? <==> v.Table? && key in v.entries
    ensures r.Some? ==> r.value == v.entries[key]
  {
    if v.Table? && key in v.entries then Some(v.entries[key]) else None
  }

  /** Each failing `unwrap()` of the projection, named by the key it was
      reading. */
  datatype FieldError =
    | NotAString(key: string)
    | NotAnArray(key: string)
    | MissingKey(key: string)
    | InvalidColor(key: string)

  /** The panics of `Config::from_toml_str`: the text is not TOML, or a field
      of the parsed document is not what the projection expects. */
  datatype TomlError = Unparsable | BadField(field: FieldError)

  /** `v.get(key).map(|s| s.as_str().unwrap().to_string())` */
  function OptionalString(v: TomlValue, key: string): (r: Result<Option<string>, FieldError>)
    ensures r.Ok? <==> Lookup(v, key).None? || Lookup(v, key).value.Str?
    ensures r.Ok? ==> (r.value.Some? <==> Lookup(v, key).Some?)
    ensures r.Ok? && r.value.Some? ==> Lookup(v, key) == Some(Str(r.value.value))
    ensures r.Err? ==> r.error == NotAString(key)
  {
    match Lookup(v, key)
    case None => Ok(None)
    case Some(x) => if x.Str? then Ok(Some(x.text)) else Err(NotAString(key))
  }

  /** Every item as a string, in order; the first non-string fails. */
  function Strings(items: seq<TomlValue>, key: string): (r: Result<seq<string>, FieldError>)
    ensures r.Ok? <==> forall i :: 0 <= i < |items| ==> items[i].Str?
    ensures r.Ok? ==> |r.value| == |items| && forall i :: 0 <= i < |items| ==> items[i] == Str(r.value[i])
    ensures r.Err? ==> r.error == NotAString(key)
    decreases |items|
  {
    if |items| == 0 then Ok([])
    else if !items[0].Str? then Err(NotAString(key))
    else
      match Strings(items[1..], key)
      case Err(e) => Err(e)
      case Ok(rest) =>
        assert forall i :: 1 <= i < |items| ==> items[i] == items[1..][i - 1];
        Ok([items[0].text] + rest)
  }

  /** The `enable` field: a boolean entry is taken, and any other value, or
      none, gives no setting. It never fails. */
  function EnableFlag(f: TomlValue): (e: Option<bool>)
    ensures e.Some? <==> Lookup(f, "enable").Some? && Lookup(f, "enable").value.Boolean?
    ensures e.Some? ==> Lookup(f, "enable") == Some(Boolean(e.value))
  {
    match Lookup(f, "enable")
    case Some(Boolean(b)) => Some(b)
    case _ => None
  }

  /** The `command` field: an array of strings, kept in order. */
  function OptionalCommand(f: TomlValue): (r: Result<Option<seq<string>>, FieldError>)
    ensures r.Ok? <==>
      || Lookup(f, "command").None?
      || (&& Lookup(f, "command").value.Array?
          && forall i :: 0 <= i < |Lookup(f, "command").value.items| ==> Lookup(f, "command").value.items[i].Str?)
    ensures r.Ok? ==> (r.value.Some? <==> Lookup(f, "command").Some?)
    ensures r.Ok? && r.value.Some? ==>
      && Lookup(f, "command").value.Array?
      && |r.value.value| == |Lookup(f, "command").value.items|
      && forall i :: 0 <= i < |r.value.value| ==> Lookup(f, "command").value.items[i] == Str(r.value.value[i])
    ensures r.Err? ==>
      r.error == (if Lookup(f, "command").value.Array? then NotAString("command") else NotAnArray("command"))
  {
    match Lookup(f, "command")
    case None => Ok(None)
    case Some(x) =>
      if !x.Array? then Err(NotAnArray("command"))
      else
        var command :- Strings(x.items, "command");
        Ok(Some(command))
  }

  /** The `[wallpaper]` table. Only `path` and `command` can fail: whatever
      `enable` holds, it never turns success into failure. */
  function ProjectWallpaper(f: TomlValue): (r: Result<Wallpaper, FieldError>)
    ensures r.Ok? <==> OptionalString(f, "path").Ok? && OptionalCommand(f).Ok?
    ensures r.Ok? ==>
      && r.value.enable == EnableFlag(f)
      && r.value.path == OptionalString(f, "path").value
      && r.value.command == OptionalCommand(f).value
    ensures OptionalString(f, "path").Err? ==> r == Err(OptionalString(f, "path").error)
    ensures (OptionalString(f, "path").Ok? && OptionalCommand(f).Err?) ==> r == Err(OptionalCommand(f).error)
  {
    var path :- OptionalString(f, "path");
    var command :- OptionalCommand(f);
    Ok(Wallpaper(EnableFlag(f), path, command))
  }

  /** The key a palette slot is read from: `background`, `foreground`,
      `cursor`, and `color0` to `color15`. */
  function KeyOf(slot: Slot): string {
    match slot
    case Background => "background"
    case Foreground => "foreground"
    case Cursor => "cursor"
    case Indexed(i) => "color" + DecimalText(i)
  }

  /** The digits of an indexed key read back as its index, as the
      Xresources scanner reads the digits of `colorN`. */
  lemma IndexKeyDigits(i: Index)
    ensures KeyOf(Indexed(i))[..5] == "color"
    ensures 1 <= |KeyOf(Indexed(i))[5..]| <= 2
    ensures DecimalValue(KeyOf(Indexed(i))[5..]) == i
  {
    assert KeyOf(Indexed(i))[5..] == DecimalText(i);
    DecimalRoundTrip(i);
  }

  /** The nineteen keys are distinct, so no entry of the table feeds two
      slots. */
  lemma KeysDistinct(slot: Slot, other: Slot)
    requires slot != other
    ensures KeyOf(slot) != KeyOf(other)
  {
    if slot.Indexed? && other.Indexed? {
      if KeyOf(slot) == KeyOf(other) {
        IndexKeyDigits(slot.index);
        IndexKeyDigits(other.index);
        assert false;
      }
    } else if slot.Indexed? {
      assert KeyOf(slot)[0] == 'c';
      assert KeyOf(other) == "background" || KeyOf(other) == "foreground" || KeyOf(other) == "cursor";
      assert KeyOf(other)[0] != 'c' || KeyOf(other)[1] != 'o';
    } else if other.Indexed? {
      assert KeyOf(other)[0] == 'c';
      assert KeyOf(slot)[0] != 'c' || KeyOf(slot)[1] != 'o';
    }
  }

  /** `Color::from(f.get(key).unwrap().as_str().unwrap())` */
  function ColorEntry(crate: ColorCrate, f: TomlValue, key: string): (r: Result<Color, FieldError>)
    ensures r.Ok? <==> Lookup(f, key).Some? && Lookup(f, key).value.Str? && crate.fromText(Lookup(f, key).value.text).Some?
    ensures r.Ok? ==> r.value == crate.fromText(Lookup(f, key).value.text).value
    ensures Lookup(f, key).None? ==> r == Err(MissingKey(key))
    ensures Lookup(f, key).Some? && !Lookup(f, key).value.Str? ==> r == Err(NotAString(key))
    ensures Lookup(f, key).Some? && Lookup(f, key).value.Str? && crate.fromText(Lookup(f, key).value.text).None? ==>
      r == Err(InvalidColor(key))
  {
    match Lookup(f, key)
    case None => Err(MissingKey(key))
    case Some(v) =>
      if !v.Str? then Err(NotAString(key))
      else
        match crate.fromText(v.text)
        case None => Err(InvalidColor(key))
        case Some(c) => Ok(c)
  }

  /** The colours of `keys`, read in order; the first key that fails decides
      the error. */
  function ReadEntries(crate: ColorCrate, f: TomlValue, keys: seq<string>): (r: Result<seq<Color>, FieldError>)
    ensures r.Ok? <==> forall i :: 0 <= i < |keys| ==> ColorEntry(crate, f, keys[i]).Ok?
    ensures r.Ok? ==>
      && |r.value| == |keys|
      && forall i :: 0 <= i < |keys| ==> ColorEntry(crate, f, keys[i]) == Ok(r.value[i])
    ensures r.Err? ==> exists i ::
      && 0 <= i < |keys| && ColorEntry(crate, f, keys[i]) == Err(r.error)
      && forall j :: 0 <= j < i ==> ColorEntry(crate, f, keys[j]).Ok?
    decreases |keys|
  {
    if |keys| == 0 then Ok([])
    else
      match ColorEntry(crate, f, keys[0])
      case Err(e) => Err(e)
      case Ok(c) =>
        match ReadEntries(crate, f, keys[1..])
        case Err(e) =>
          var k :| 0 <= k < |keys[1..]| && ColorEntry(crate, f, keys[1..][k]) == Err(e)
            && forall j :: 0 <= j < k ==> ColorEntry(crate, f, keys[1..][j]).Ok?;
          assert ColorEntry(crate, f, keys[k + 1]) == Err(e);
          assert forall j :: 1 <= j < k + 1 ==> keys[j] == keys[1..][j - 1];
          Err(e)
        case Ok(rest) =>
          assert forall i :: 1 <= i < |keys| ==> keys[i] == keys[1..][i - 1];
          Ok([c] + rest)
  }

  /** The palette's keys in declaration order, the order the source reads
      them in. */
  function PaletteKeys(): (keys: seq<string>)
    ensures |keys| == SlotCount
    ensures forall slot :: keys[Position(slot)] == KeyOf(slot)
  {
    SlotAtPosition();
    seq(SlotCount, k requires 0 <= k < SlotCount => KeyOf(SlotAt(k)))
  }

  /** Reading the palette's keys succeeds exactly when every slot's key
      holds a colour, and then position `Position(slot)` holds that colour. */
  lemma ReadPaletteKeys(crate: ColorCrate, f: TomlValue)
    ensures ReadEntries(crate, f, PaletteKeys()).Ok? <==> forall slot :: ColorEntry(crate, f, KeyOf(slot)).Ok?
    ensures ReadEntries(crate, f, PaletteKeys()).Ok? ==> forall slot ::
      ColorEntry(crate, f, KeyOf(slot)) == Ok(ReadEntries(crate, f, PaletteKeys()).value[Position(slot)])
    ensures ReadEntries(crate, f, PaletteKeys()).Err? ==> exists slot ::
      && ColorEntry(crate, f, KeyOf(slot)) == Err(ReadEntries(crate, f, PaletteKeys()).error)
      && forall other :: Position(other) < Position(slot) ==> ColorEntry(crate, f, KeyOf(other)).Ok?
  {
    var keys := PaletteKeys();
    var r := ReadEntries(crate, f, keys);
    if forall slot :: ColorEntry(crate, f, KeyOf(slot)).Ok? {
      forall i | 0 <= i < |keys|
        ensures ColorEntry(crate, f, keys[i]).Ok?
      {
        assert keys[Position(SlotAt(i))] == KeyOf(SlotAt(i));
      }
    }
    if r.Err? {
      var k :| 0 <= k < |keys| && ColorEntry(crate, f, keys[k]) == Err(r.error)
        && forall j :: 0 <= j < k ==> ColorEntry(crate, f, keys[j]).Ok?;
      var slot := SlotAt(k);
      assert keys[Position(slot)] == KeyOf(slot);
      forall other | Position(other) < Position(slot)
        ensures ColorEntry(crate, f, KeyOf(other)).Ok?
      {
        assert keys[Position(other)] == KeyOf(other);
      }
    }
  }

  /** The palette whose slot at each position holds `vals` at that position. */
  function FromSlots(vals: seq<Color>): (p: Colors)
    requires |vals| == SlotCount
    ensures forall slot :: Get(p, slot) == vals[Position(slot)]
  {
    Colors(vals[0], vals[1], vals[2], vals[3..SlotCount])
  }

  /** The `[colors]` table: all nineteen keys must hold colour strings, and
      then every slot holds the colour of its own key. No partial palette is
      ever produced; the error names the first key, in declaration order,
      that fails. */
  function ProjectColors(crate: ColorCrate, f: TomlValue): (r: Result<Colors, FieldError>)
    ensures r.Ok? <==> forall slot :: ColorEntry(crate, f, KeyOf(slot)).Ok?
    ensures r.Ok? ==> forall slot :: ColorEntry(crate, f, KeyOf(slot)) == Ok(Get(r.value, slot))
    ensures r.Err? ==> exists slot ::
      && ColorEntry(crate, f, KeyOf(slot)) == Err(r.error)
      && forall other :: Position(other) < Position(slot) ==> ColorEntry(crate, f, KeyOf(other)).Ok?
  {
    ReadPaletteKeys(crate, f);
    var vals :- ReadEntries(crate, f, PaletteKeys());
    Ok(FromSlots(vals))
  }

  /** `conf.get("wallpaper").map(...)` */
  function OptionalWallpaper(conf: TomlValue): (r: Result<Option<Wallpaper>, FieldError>)
    ensures r.Ok? <==> Lookup(conf, "wallpaper").None? || ProjectWallpaper(Lookup(conf, "wallpaper").value).Ok?
    ensures r.Ok? ==> (r.value.Some? <==> Lookup(conf, "wallpaper").Some?)
    ensures r.Ok? && r.value.Some? ==> Ok(r.value.value) == ProjectWallpaper(Lookup(conf, "wallpaper").value)
    ensures r.Err? ==> r.error == ProjectWallpaper(Lookup(conf, "wallpaper").value).error
  {
    match Lookup(conf, "wallpaper")
    case None => Ok(None)
    case Some(f) =>
      var w :- ProjectWallpaper(f);
      Ok(Some(w))
  }

  /** `conf.get("colors").map(...)` */
  function OptionalColors(crate: ColorCrate, conf: TomlValue): (r: Result<Option<Colors>, FieldError>)
    ensures r.Ok? <==> Lookup(conf, "colors").None? || ProjectColors(crate, Lookup(conf, "colors").value).Ok?
    ensures r.Ok? ==> (r.value.Some? <==> Lookup(conf, "colors").Some?)
    ensures r.Ok? && r.value.Some? ==> Ok(r.value.value) == ProjectColors(crate, Lookup(conf, "colors").value)
    ensures r.Err? ==> r.error == ProjectColors(crate, Lookup(conf, "colors").value).error
  {
    match Lookup(conf, "colors")
    case None => Ok(None)
    case Some(f) =>
      var p :- ProjectColors(crate, f);
      Ok(Some(p))
  }

  /** The projection of a parsed document, reading `input`,
      `output_directory`, `[wallpaper]` and `[colors]` in that order; the
      first part that fails decides the error. */
  function ProjectToml(crate: ColorCrate, conf: TomlValue): (r: Result<Config, FieldError>)
    ensures r.Ok? <==> && OptionalString(conf, "input").Ok?
                       && OptionalString(conf, "output_directory").Ok?
                       && OptionalWallpaper(conf).Ok?
                       && OptionalColors(crate, conf).Ok?
    ensures r.Ok? ==> && r.value.input == OptionalString(conf, "input").value
                      && r.value.outputDirectory == OptionalString(conf, "output_directory").value
                      && r.value.wallpaper == OptionalWallpaper(conf).value
                      && r.value.colors == OptionalColors(crate, conf).value
    ensures OptionalString(conf, "input").Err? ==> r == Err(OptionalString(conf, "input").error)
    ensures (OptionalString(conf, "input").Ok? && OptionalString(conf, "output_directory").Err?) ==>
      r == Err(OptionalString(conf, "output_directory").error)
    ensures (&& OptionalString(conf, "input").Ok? && OptionalString(conf, "output_directory").Ok?
             && OptionalWallpaper(conf).Err?) ==>
      r == Err(OptionalWallpaper(conf).error)
    ensures (&& OptionalString(conf, "input").Ok? && OptionalString(conf, "output_directory").Ok?
             && OptionalWallpaper(conf).Ok? && OptionalColors(crate, conf).Err?) ==>
      r == Err(OptionalColors(crate, conf).error)
  {
    var input := OptionalString(conf, "input");
    var output := OptionalString(conf, "output_directory");
    var wallpaper := OptionalWallpaper(conf);
    var colors := OptionalColors(crate, conf);
    if input.Err? then Err(input.error)
    else if output.Err? then Err(output.error)
    else if wallpaper.Err? then Err(wallpaper.error)
    else if colors.Err? then Err(colors.error)
    else Ok(Config(input.value, output.value, colors.value, wallpaper.value))
  }

  /** `Config::from_toml_str`: text the parser rejects is the first panic. */
  function FromTomlStr(parse: string -> Option<TomlValue>, crate: ColorCrate, s: string): (r: Result<Config, TomlError>)
    ensures r == Err(Unparsable) <==> parse(s).None?
    ensures parse(s).Some? ==>
      && (r.Ok? <==> ProjectToml(crate, parse(s).value).Ok?)
      && (r.Ok? ==> r.value == ProjectToml(crate, parse(s).value).value)
      && (r.Err? ==> r.error == BadField(ProjectToml(crate, parse(s).value).error))
  {
    match parse(s)
    case None => Err(Unparsable)
    case Some(conf) =>
      match ProjectToml(crate, conf)
      case Ok(c) => Ok(c)
      case Err(e) => Err(BadField(e))
  }

  /** A present `[colors]` table yields the whole palette or fails: in a
      successful projection every slot holds the colour of its own key. */
  lemma NoPartialPalette(crate: ColorCrate, conf: TomlValue)
    requires ProjectToml(crate, conf).Ok?
    ensures ProjectToml(crate, conf).value.colors.Some? <==> Lookup(conf, "colors").Some?
    ensures ProjectToml(crate, conf).value.colors.Some? ==> forall slot ::
      ColorEntry(crate, Lookup(conf, "colors").value, KeyOf(slot)) == Ok(Get(ProjectToml(crate, conf).value.colors.value, slot))
  {
  }

  /** A `[colors]` table that lacks one key fails, with the error naming that
      key when every other part of the document is well formed. */
  lemma MissingColorKeyFails(crate: ColorCrate, conf: TomlValue, slot: Slot)
    requires Lookup(conf, "colors").Some? && Lookup(Lookup(conf, "colors").value, KeyOf(slot)).None?
    requires OptionalString(conf, "input").Ok? && OptionalString(conf, "output_directory").Ok?
    requires OptionalWallpaper(conf).Ok?
    requires forall other :: other != slot ==> ColorEntry(crate, Lookup(conf, "colors").value, KeyOf(other)).Ok?
    ensures ProjectToml(crate, conf) == Err(MissingKey(KeyOf(slot)))
  {
    var f := Lookup(conf, "colors").value;
    assert !ColorEntry(crate, f, KeyOf(slot)).Ok?;
    var r := ProjectColors(crate, f);
    var s' :| ColorEntry(crate, f, KeyOf(s')) == Err(r.error)
      && forall other :: Position(other) < Position(s') ==> ColorEntry(crate, f, KeyOf(other)).Ok?;
    assert s' == slot;
  }

  /** Whatever `enable` holds, it does not decide whether the wallpaper table
      projects: replacing or adding it changes nothing but `enable`, and a
      non-boolean value gives no setting. */
  lemma EnableNeverFails(m: map<string, TomlValue>, v: TomlValue)
    ensures ProjectWallpaper(Table(m["enable" := v])).Ok? == ProjectWallpaper(Table(m)).Ok?
    ensures ProjectWallpaper(Table(m["enable" := v])).Ok? && !v.Boolean? ==>
      ProjectWallpaper(Table(m["enable" := v])).value.enable.None?
  {
    var m' := m["enable" := v];
    assert Lookup(Table(m'), "path") == Lookup(Table(m), "path");
    assert Lookup(Table(m'), "command") == Lookup(Table(m), "command");
  }
}

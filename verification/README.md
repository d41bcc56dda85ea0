# colstract: colour-scheme ingestion, modelled in Dafny

colstract reads a colour scheme and renders templates with it. The scheme
comes either from a TOML configuration file or from an Xresources dump. This
project models the part of colstract that decides what the scheme is:

- **The format detector** (`detect_string_type`) classifies a text as TOML
  (0), as an Xresources dump (1) or as unrecognised (9).
- **The Xresources line scanner** (`Config::from_xresource_str`) splits the
  text on `\n`. On each line it tries four regular expressions in a fixed
  order: `background:`, `foreground:`, `cursorColor:`, then `color<N>:`.
  It decodes the captured `#hex` token by its length and writes the colour
  into a 19-slot palette, where the last write wins.
- **The TOML projection** (`Config::from_toml_str`) turns a parsed TOML value
  tree into a `Config`. Every `unwrap()` of the source becomes an error
  result.
- **The decisions in `main`** cover four steps:
  - the `--input`, `--output`, `--wallpaper` and `--wallpaper-command`
    overrides;
  - re-reading colours from an overridden input;
  - the "nothing to render" exit;
  - the gate that decides whether the wallpaper command runs.
- **The data types** are `Colors` (three named colours plus an array of
  exactly sixteen), `Wallpaper` (three independent optional fields) and
  `Config`.

The files are:

| file | module | contents |
|---|---|---|
| `outcomes.dfy` | `Outcomes` | `Option` and `Result` (a panic of the source is an `Err`) |
| `color.dfy` | `ColorData` | `Color` (four bytes) and `ColorCrate`, the colour constructors as parameters |
| `colors.dfy` | `Palette` | `Colors`, its 19 slots, slot-wise update, equality and the derived order |
| `wallpaper.dfy` | `WallpaperSpec` | `Wallpaper` and its default |
| `config.dfy` | `ConfigModel` | `Config` and its default |
| `patterns.dfy` | `Patterns` | the four regular expressions as string matchers |
| `effects.dfy` | `EffectScan` | the scan loop over the effect of each line: failure at the first invalid line, last write wins, inert lines |
| `xresources.dfy` | `XresourceScanner` | line splitting, the rule table, token-length dispatch, the scan |
| `toml.dfy` | `TomlProjection` | the TOML value tree and its projection into `Config` |
| `detect.dfy` | `Detector` | `detect_string_type` |
| `overrides.dfy` | `Overrides` | the override, re-read, exit and wallpaper-gate logic of `main` |

## External code as parameters

The colour crate `colordata` is not part of this model.

- `Color` is an opaque record of four bytes.
- `Color::default`, `Color::from_hex`, `Color::from_hex8` and
  `Color::from(&str)` are the fields of a `ColorCrate` value given to every
  operation. Every property here holds whatever colours those functions
  compute.
- `Color::from(&str)` yields an `Option`. `None` stands for the text it
  would panic on.
- **Assumption:** the order on `Color` is lexicographic over (r, g, b, a).
  The derived order on `Colors` is built on it.
- **Assumption:** `from_hex` and `from_hex8` never panic on the tokens the
  scanner passes them, including `from_hex` on a 9-character token for an
  indexed slot (src/config.rs:145). They are total functions here, so the
  scan fails only at an 8-character token.

The TOML parser `toml::from_str` is a parameter `parse: string ->
Option<TomlValue>`. `None` means the parser rejects the text. `TomlValue`
has string, integer, boolean, array and table values. `Value::get(key)` is
taken to mean the entry under `key` when the value is a table holding that
key, and nothing otherwise (`TomlProjection.Lookup`).

## The regular expressions as string matchers

Each pattern has the form `.*KEY:\s*?(#[a-fA-F0-9]{6,8})\s?`. It is modelled
as follows:

- The key is followed by a run of Unicode white space.
- Then comes `#`, then a run of hex digits. The token is `#` plus at most
  eight of those digits, and there must be at least six. Because `#` is not
  white space, the lazy `\s*?` always consumes the whole white-space run.
- The trailing `\s?` never decides whether the pattern matches.
- On one line the greedy `.*` means the captured token belongs to the *last*
  position where the rest of the pattern matches (`Patterns.Captures`).
- `color([0-9]{1,2}):` is anchored at the colon. A two-digit and a one-digit
  reading cannot both apply at the same place.
- The detector uses `is_match` on the whole text. It only asks whether some
  position matches, and there the white space may include a line feed
  (`Patterns.IsMatch`).

## Behaviour worth knowing

- **Re-read colours.** After `--input`, the new file's colours replace the
  loaded ones only when the re-read succeeds and has colours. A re-read that
  fails, or that finds no colours, keeps the colours already loaded
  (src/main.rs:149-151).
- **Invalid tokens.** Under the decoder assumption above, an 8-character
  token is the only thing that makes the scan panic
  (src/config.rs:101, 113, 125, 147). The whole scan then fails with
  `InvalidHexIn(line)`, naming the first such line.
- **Shorthand tokens.** The regular expressions demand six to eight hex
  digits, so the `4` and `5` arms of the length dispatch can never be reached
  (`XresourceScanner.CapturedTokenLengths`).
- **Whole-text detection.** The detector matches the whole text
  (src/utils.rs:11), so a match can cross a line feed
  (`Detector.MatchMayCrossLineFeed`).
- **8-digit indexed colours.** An 8-digit token for `color<N>` is decoded
  with `from_hex`, whereas the named slots use `from_hex8`
  (src/config.rs:145 against 99). The model keeps this.

## Model

| member | source | states |
|---|---|---|
| Palette.Set | src/structures/colors.rs:8-12 | writing one slot gives that slot the new colour and leaves each of the other 18 slots as it was |
| Palette.Uniform | src/structures/colors.rs:5-13 | the default palette: every one of the 19 slots holds the same colour |
| Palette.Slots | src/structures/colors.rs:8-12 | a palette is exactly 19 colours, read in declaration order (background, foreground, cursor, `colors[0..15]`) |
| Palette.SlotAtPosition | src/structures/colors.rs:8-12 | numbering the slots in declaration order is a bijection onto 0..18 |
| Palette.SlotwiseEquality | src/structures/colors.rs:6 | two palettes are equal exactly when they agree on all 19 slots |
| Palette.LessByFirstDifference | src/structures/colors.rs:6-12 | the derived `Ord` compares palettes at the first slot, in declaration order, where they differ |
| Palette.LessIsStrictTotalOrder | src/structures/colors.rs:6-12 | the derived order is irreflexive, asymmetric, transitive and total on distinct palettes |
| Palette.LexLessTransitive | src/structures/colors.rs:6 | lexicographic comparison of colour sequences is transitive |
| Palette.LexLessTotal | src/structures/colors.rs:6 | two different colour sequences of the same length are comparable |
| Patterns.TokenAt | src/config.rs:79-86 | the `#[a-fA-F0-9]{6,8}` group: a token exists exactly when `#` and at least six hex digits follow, and it is the longest such prefix of at most eight digits |
| Patterns.NoTokenShape | src/config.rs:79-86 | where no token is found, no way of reading `#` and six to eight hex digits exists at that position |
| Patterns.KeyAt | src/config.rs:79-86 | the key of each pattern: a key is found only where its literal keyword, or `color`, one or two digits and `:`, stands; a named keyword standing at the position is always found |
| Patterns.IndexedKeyComplete | src/config.rs:86 | `color`, one or two digits and `:` at a position are always found as that indexed key, with those digits |
| Patterns.Captures | src/config.rs:79-86 | `captures` on one line: a capture exists exactly when the pattern matches at some position, and it is taken from the last such position |
| Patterns.IsMatch | src/utils.rs:9-11 | `is_match` holds exactly when the pattern matches at some position of the whole text |
| Patterns.DecimalValue | src/config.rs:132 | `parse::<usize>` of one or two digits gives their decimal value |
| Patterns.DecimalRoundTrip | src/config.rs:132 | parsing the decimal text of an index gives the index back |
| XresourceScanner.Split | src/config.rs:92 | `split('\n')` gives at least one piece, no piece holds a line feed, and joining the pieces with `\n` gives back the text |
| XresourceScanner.SplitJoin | src/config.rs:92 | splitting the join of line-feed-free lines gives back those lines |
| XresourceScanner.FirstMatch | src/config.rs:93-150 | the rule found is the first in table order whose pattern captures, and no earlier rule captures |
| XresourceScanner.FirstRuleWins | src/config.rs:93-150 | once a rule captures on a line, the later rules do not affect that line's effect |
| XresourceScanner.CapturedTokenLengths | src/config.rs:79-86 | every captured token is 7 to 9 characters long, so the 4 and 5 arms are unreachable |
| XresourceScanner.LineEffect | src/config.rs:93-150 | a line has no effect exactly when no pattern captures on it |
| XresourceScanner.Dispatch | src/config.rs:94-148 | named slots: 7 characters use `from_hex`, 9 use `from_hex8`. Indexed slots: 7 and 9 both use `from_hex`, and an index above 15 changes nothing. Length 8 is invalid |
| EffectScan.ScanEffects | src/config.rs:92-151 | the scan fails exactly when some line is invalid, and it fails at the first invalid line |
| EffectScan.LastWriteWins | src/config.rs:88-151 | after a successful scan, each slot holds the colour of the last line that set it, or its starting colour if no line did |
| EffectScan.InertEffectRemovable | src/config.rs:129-150 | removing an effect that writes nothing leaves the outcome of the scan unchanged |
| XresourceScanner.ScanLines | src/config.rs:92-151 | each line is taken on its own, in line order (`Effects`); the loop succeeds only when no line is invalid, otherwise fails naming the first invalid line, and on success each slot holds its last write or its starting colour |
| XresourceScanner.InertLineRemovable | src/config.rs:132-136 | a line that matches nothing, or only a `color<N>` with N above 15, can be deleted without changing the outcome |
| XresourceScanner.FromXresourceStr | src/config.rs:78-164 | the result has colours and no input, output directory or wallpaper. It succeeds only when no line is invalid, and otherwise fails naming the first invalid line. Each slot holds its last write, or `Color::default()` |
| TomlProjection.OptionalString | src/config.rs:24-27 | an absent key gives `None`, a string gives that string, and any other value fails |
| TomlProjection.Strings | src/config.rs:38-45 | an array converts exactly when all its items are strings, keeping their number and order |
| TomlProjection.EnableFlag | src/config.rs:29-36 | `enable` is set exactly when the entry is a boolean, and then it has that value |
| TomlProjection.OptionalCommand | src/config.rs:38-45 | `command` is absent, or an array of strings kept in order; a non-array fails with `NotAnArray`, a non-string item with `NotAString` |
| TomlProjection.ProjectWallpaper | src/config.rs:28-46 | the wallpaper table projects exactly when `path` and `command` do, and its fields are their readings; on failure `path`'s error comes first, then `command`'s |
| TomlProjection.EnableNeverFails | src/config.rs:29-36 | whatever `enable` holds, it never decides whether the wallpaper table projects, and a non-boolean gives `None` |
| TomlProjection.IndexKeyDigits | src/config.rs:52-67 | the key of `colors[i]` is `color` followed by the decimal digits of i |
| TomlProjection.KeysDistinct | src/config.rs:48-67 | the 19 colour keys are distinct |
| TomlProjection.ColorEntry | src/config.rs:48-67 | a colour entry reads exactly when the key is present, holds a string, and `Color::from` accepts it; otherwise the error names the key: `MissingKey` for an absent key, `NotAString` for a non-string value, `InvalidColor` for rejected text |
| TomlProjection.ReadEntries | src/config.rs:47-69 | keys are read in order; all succeed and give one colour per key, or the first failing key decides the error |
| TomlProjection.ProjectColors | src/config.rs:47-69 | the colours table projects exactly when all 19 keys read, each slot comes from its own key, and the error comes from the first failing key |
| TomlProjection.OptionalWallpaper | src/config.rs:28-46 | an absent `[wallpaper]` gives `None`; a present one gives its projection, and fails exactly when that does, with the same error |
| TomlProjection.OptionalColors | src/config.rs:47-69 | an absent `[colors]` gives `None`; a present one gives its projection, and fails exactly when that does, with the same error (the first failing key) |
| TomlProjection.ProjectToml | src/config.rs:23-75 | the projection succeeds exactly when every part does, each field is its part's reading, and a failure carries the error of the first failing part in the order input, output_directory, wallpaper, colors |
| TomlProjection.FromTomlStr | src/config.rs:18-22 | text the parser rejects fails with `Unparsable`, and only such text does; any other outcome is the projection's, with a field error wrapped as `BadField` |
| TomlProjection.NoPartialPalette | src/config.rs:47-69 | a successful projection has colours exactly when the table is present, and then every slot holds its key's colour |
| TomlProjection.MissingColorKeyFails | src/config.rs:47-69 | a colours table lacking one key fails, naming that key |
| Detector.DetectStringType | src/utils.rs:5-17 | the code is 0, 1 or 9. It is 0 exactly when the text parses as TOML, and 1 exactly when it does not and the cursor pattern matches somewhere |
| Detector.DetectorUsesCursorRule | src/utils.rs:9-12 | on one line of non-TOML text, the detector says Xresources exactly when the scanner's cursor rule captures |
| Detector.MatchMayCrossLineFeed | src/utils.rs:9-12 | `cursorColor:` followed by `\n#aabbcc` is detected as Xresources, although the scanner's cursor rule matches neither line |
| Detector.CursorLineRecognised | src/utils.rs:9-12 | a non-TOML `*.cursorColor: #cac0a9` line is detected as Xresources |
| Overrides.OverridePath | src/main.rs:96-111 | on existing settings only `path` changes; without settings, enabled settings with that path and no command are created |
| Overrides.OverrideCommand | src/main.rs:113-130 | on existing settings only `command` changes; without settings, disabled settings with that command and no path are created |
| Overrides.ApplyOverrides | src/main.rs:88-130 | each override replaces only its own field, colours are untouched, and created wallpaper settings are enabled exactly when a path was given |
| Overrides.OverridesIdempotent | src/main.rs:88-130 | applying the same overrides twice is the same as applying them once |
| Overrides.PathAndCommandRunOnNoSettings | src/main.rs:96-130 | with no wallpaper settings, a path and a command together give enabled settings, and the command runs |
| Overrides.CommandAloneDoesNotRun | src/main.rs:113-130 | with no wallpaper settings, a command alone never runs |
| Overrides.OverrideOrderMatters | src/main.rs:96-130 | applying the command override before the path override would leave new settings disabled |
| Overrides.AbsentDiffersFromEmptySettings | src/main.rs:96-130 | absent settings and settings with all fields `None` react differently to the same overrides |
| Overrides.ResolveColors | src/main.rs:132-154 | an overridden input whose re-read has colours replaces the colours with them; otherwise the colours stay; nothing else changes |
| Overrides.OverriddenInputRendersItsColors | src/main.rs:132-160 | an overridden input whose re-read has colours is rendered with those colours and that input |
| Overrides.FailedRereadKeepsColors | src/main.rs:137-151 | a re-read that fails or finds no colours keeps the colours already loaded |
| Overrides.WallpaperGate | src/main.rs:218-230 | the command runs exactly when settings exist, `enable` is `Some(true)` and a command is present |
| Overrides.Plan | src/main.rs:88-160 | rendering happens exactly when the loaded configuration, or an overridden input's re-read, has colours. It renders the re-read colours when the input was overridden and they exist, and the loaded colours otherwise, with the overridden settings and the gate's decision |

## Left out

- src/render_template.rs: Handlebars rendering and file writes are a foreign
  engine and file I/O.
- src/command.rs: running the wallpaper command through `sh` is process I/O.
  `Overrides.WallpaperGate` only decides whether it would run.
- build.rs: copying assets at install time is file-system I/O.
- src/main.rs:17-85 is not modelled. It covers argument parsing, reading
  `HOME`, and reading the configuration file. Their results are parameters:
  the loaded `Config`, the `Options`, and the re-read configuration (`None`
  when reading fails).
- src/main.rs:162-217 and 233-243 are not modelled. They cover the template
  directories, `XDG_CONFIG_HOME`, `add_templates` and rendering each
  template. `Overrides.Plan` ends at the decision to render and does not
  model the second "no templates" exit.
- Printing and the process exit are left out; the exit is the `Exit`
  outcome of `Overrides.Plan`.
- `Config::from(&String)` and `Config::to_json()` are not defined in any
  file of this model. The configuration a re-read produces is a parameter.
  Wiring the detector to the two parsers is not modelled.
- `toml::from_str` is a parameter. TOML float and date-time values are not
  distinguished from the other non-string values.
- The internals of `colordata::Color` are left out: hex decoding, textual
  forms, alpha as a float or a percentage. Its constructors are parameters.
- Regex-engine internals are left out. The four patterns are modelled
  directly as string matchers.
- Patterns.Captures: requires a line without a line feed, which
  `split('\n')` guarantees for every line the scanner sees.
- XresourceScanner.FromXresourceStr: states "fails exactly when some line is
  invalid" as two one-way implications (success means no line is invalid;
  failure names the first invalid line). Together they are the same
  property. The same holds for XresourceScanner.ScanLines.
- Overrides.Plan: the wallpaper step is reached in the source only when every
  template renders. `render_template(...).unwrap()` panics on a render error,
  and `config.output_directory.as_ref().unwrap()` panics when no output
  directory is set (src/main.rs:209-215); the run also exits when there are
  no templates (src/main.rs:200-203). Templates are not modelled, so `Render`
  states only what would run if rendering completes.

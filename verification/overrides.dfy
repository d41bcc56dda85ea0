/** The decisions `main` takes once a configuration is loaded: command-line
    overrides, re-reading colours from an overridden input, the exit when
    there is nothing to render, and whether the wallpaper command runs.
    Reading files, rendering templates and running the command are not part
    of this model; their outcomes are parameters. */
module Overrides {
  import opened Outcomes
  import opened WallpaperSpec
  import opened ConfigModel

  /** The values given with `--input`, `--output`, `--wallpaper` and
      `--wallpaper-command`; `None` where the option is absent. */
  datatype Options = Options(
    input: Option<string>,
    output: Option<string>,
    wallpaperPath: Option<string>,
    wallpaperCommand: Option<seq<string>>)

  /** `--wallpaper`: on existing settings only the path changes; without
      settings it creates enabled settings with that path and no command. */
  function OverridePath(w: Option<Wallpaper>, path: string): (r: Wallpaper)
    ensures r.path == Some(path)
    ensures w.Some? ==> r.enable == w.value.enable && r.command == w.value.command
    ensures w.None? ==> r.enable == Some(true) && r.command.None?
  {
    match w
    case Some(wal) => wal.(path := Some(path))
    case None => Wallpaper(Some(true), Some(path), None)
  }

  /** `--wallpaper-command`: on existing settings only the command changes;
      without settings it creates DISABLED settings with that command and no
      path. */
  function OverrideCommand(w: Option<Wallpaper>, command: seq<string>): (r: Wallpaper)
    ensures r.command == Some(command)
    ensures w.Some? ==> r.enable == w.value.enable && r.path == w.value.path
    ensures w.None? ==> r.enable == Some(false) && r.path.None?
  {
    match w
    case Some(wal) => wal.(command := Some(command))
    case None => Wallpaper(Some(false), None, Some(command))
  }

  /** The four overrides, applied in the source's order: input, output,
      wallpaper path, wallpaper command. Each replaces exactly its own field;
      the colours are never touched. */
  function ApplyOverrides(c: Config, o: Options): (r: Config)
    ensures r.colors == c.colors
    ensures r.input == (if o.input.Some? then o.input else c.input)
    ensures r.outputDirectory == (if o.output.Some? then o.output else c.outputDirectory)
    ensures r.wallpaper.Some? <==> c.wallpaper.Some? || o.wallpaperPath.Some? || o.wallpaperCommand.Some?
    ensures o.wallpaperPath.None? && o.wallpaperCommand.None? ==> r.wallpaper == c.wallpaper
    ensures r.wallpaper.Some? ==>
      && r.wallpaper.value.path == (if o.wallpaperPath.Some? then o.wallpaperPath else if c.wallpaper.Some? then c.wallpaper.value.path else None)
      && r.wallpaper.value.command == (if o.wallpaperCommand.Some? then o.wallpaperCommand else if c.wallpaper.Some? then c.wallpaper.value.command else None)
      && r.wallpaper.value.enable == (if c.wallpaper.Some? then c.wallpaper.value.enable
                                      else Some(o.wallpaperPath.Some?))
  {
    var c1 := if o.input.Some? then c.(input := o.input) else c;
    var c2 := if o.output.Some? then c1.(outputDirectory := o.output) else c1;
    var c3 := if o.wallpaperPath.Some? then c2.(wallpaper := Some(OverridePath(c2.wallpaper, o.wallpaperPath.value))) else c2;
    if o.wallpaperCommand.Some? then c3.(wallpaper := Some(OverrideCommand(c3.wallpaper, o.wallpaperCommand.value))) else c3
  }

  /** Applying the same overrides twice is the same as applying them once. */
  lemma OverridesIdempotent(c: Config, o: Options)
    ensures ApplyOverrides(ApplyOverrides(c, o), o) == ApplyOverrides(c, o)
  {
  }

  /** After `--input`, the file at the new input is read again
      (`reread`: `None` when reading fails, which gives the default
      configuration), and its colours replace the current ones only when it
      has colours. Without `--input` nothing changes. */
  function ResolveColors(c: Config, inputOverridden: bool, reread: Option<Config>): (r: Config)
    ensures r.input == c.input && r.outputDirectory == c.outputDirectory && r.wallpaper == c.wallpaper
    ensures !inputOverridden ==> r == c
    ensures r.colors.Some? <==> c.colors.Some? || (inputOverridden && reread.Some? && reread.value.colors.Some?)
    ensures r.colors != c.colors ==> inputOverridden && reread.Some? && r.colors == reread.value.colors
    ensures inputOverridden && reread.Some? && reread.value.colors.Some? ==> r.colors == reread.value.colors
  {
    if inputOverridden then
      var loaded := reread.GetOr(Empty);
      if loaded.colors.Some? then c.(colors := loaded.colors) else c
    else c
  }

  /** What happens after rendering, from the wallpaper settings. */
  datatype WallpaperStep =
    | RunCommand(command: seq<string>)
    | EnabledWithoutCommand
    | NotEnabled
    | NoSettings

  /** The wallpaper command runs only for present settings with
      `enable == Some(true)` and a command; an absent `enable` counts as not
      enabled. */
  function WallpaperGate(c: Config): (s: WallpaperStep)
    ensures s.RunCommand? <==> && c.wallpaper.Some? && c.wallpaper.value.enable == Some(true)
                               && c.wallpaper.value.command.Some?
    ensures s.RunCommand? ==> s.command == c.wallpaper.value.command.value
    ensures s.NoSettings? <==> c.wallpaper.None?
    ensures s.NotEnabled? <==> c.wallpaper.Some? && c.wallpaper.value.enable != Some(true)
  {
    match c.wallpaper
    case None => NoSettings
    case Some(wal) =>
      if wal.enable == Some(true) then
        if wal.command.Some? then RunCommand(wal.command.value) else EnabledWithoutCommand
      else NotEnabled
  }

  /** `config.colors.is_none()`: nothing to render, and the run ends. */
  predicate NothingToRender(c: Config) {
    c.colors.None?
  }

  /** The outcome of one run once the configuration is loaded. */
  datatype Run = Exit | Render(config: Config, wallpaper: WallpaperStep)

  /** The run: overrides, colour re-resolution, the exit when there are no
      colours, and otherwise rendering with `config` and the wallpaper step
      that follows once every template has rendered. Rendering proceeds exactly when the loaded
      configuration has colours or an overridden input supplied some; the
      settings rendered with are the overridden ones. */
  function Plan(c: Config, o: Options, reread: Option<Config>): (r: Run)
    ensures r.Render? <==> c.colors.Some? || (o.input.Some? && reread.Some? && reread.value.colors.Some?)
    ensures r.Render? ==> && r.config.colors.Some?
                          && r.config.colors == (if o.input.Some? && reread.Some? && reread.value.colors.Some?
                                                 then reread.value.colors else c.colors)
                          && r.config.input == ApplyOverrides(c, o).input
                          && r.config.outputDirectory == ApplyOverrides(c, o).outputDirectory
                          && r.config.wallpaper == ApplyOverrides(c, o).wallpaper
                          && r.wallpaper == WallpaperGate(ApplyOverrides(c, o))
  {
    var resolved := ResolveColors(ApplyOverrides(c, o), o.input.Some?, reread);
    if NothingToRender(resolved) then Exit else Render(resolved, WallpaperGate(resolved))
  }

  /** An overridden input whose file cannot be read, or holds no colours,
      keeps the colours already loaded. */
  lemma FailedRereadKeepsColors(c: Config, o: Options, reread: Option<Config>)
    requires o.input.Some?
    requires reread.None? || reread.value.colors.None?
    ensures ResolveColors(ApplyOverrides(c, o), true, reread).colors == c.colors
  {
  }

  /** An overridden input whose file holds colours renders with those
      colours, whatever was loaded before, and with the overridden input. */
  lemma OverriddenInputRendersItsColors(c: Config, o: Options, reread: Option<Config>)
    requires o.input.Some? && reread.Some? && reread.value.colors.Some?
    ensures Plan(c, o, reread).Render?
    ensures Plan(c, o, reread).config.colors == reread.value.colors
    ensures Plan(c, o, reread).config.input == o.input
  {
  }

  /** With no wallpaper settings, `--wallpaper` and `--wallpaper-command`
      together run the command: the path override comes first and enables
      the settings. */
  lemma PathAndCommandRunOnNoSettings(c: Config, path: string, command: seq<string>, input: Option<string>, output: Option<string>)
    requires c.wallpaper.None?
    ensures var r := ApplyOverrides(c, Options(input, output, Some(path), Some(command)));
      && r.wallpaper == Some(Wallpaper(Some(true), Some(path), Some(command)))
      && WallpaperGate(r) == RunCommand(command)
  {
  }

  /** With no wallpaper settings, `--wallpaper-command` alone never runs the
      command: the settings it creates are disabled. */
  lemma CommandAloneDoesNotRun(c: Config, command: seq<string>, input: Option<string>, output: Option<string>)
    requires c.wallpaper.None?
    ensures WallpaperGate(ApplyOverrides(c, Options(input, output, None, Some(command)))) == NotEnabled
  {
  }

  /** The order of the two wallpaper overrides matters: applied the other
      way round, on no settings, they would leave the wallpaper disabled. */
  lemma OverrideOrderMatters(path: string, command: seq<string>)
    ensures OverrideCommand(Some(OverridePath(None, path)), command).enable == Some(true)
    ensures OverridePath(Some(OverrideCommand(None, command)), path).enable == Some(false)
  {
  }

  /** Absent settings and present settings with every field absent behave
      differently: given a path and a command, the first runs the command and
      the second does not, since an absent `enable` is not `Some(true)`. */
  lemma AbsentDiffersFromEmptySettings(c: Config, path: string, command: seq<string>)
    ensures var o := Options(None, None, Some(path), Some(command));
      && WallpaperGate(ApplyOverrides(c.(wallpaper := None), o)) == RunCommand(command)
      && WallpaperGate(ApplyOverrides(c.(wallpaper := Some(WallpaperSpec.Default)), o)) == NotEnabled
  {
  }
}

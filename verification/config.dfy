/** The configuration one run works on. */
module ConfigModel {
  import opened Outcomes
  import opened Palette
  import opened WallpaperSpec

  datatype Config = Config(
    input: Option<string>,
    outputDirectory: Option<string>,
    colors: Option<Colors>,
    wallpaper: Option<Wallpaper>)

  /** `Config::default()`: every field absent. */
  const Empty := Config(None, None, None, None)
}

/** The optional wallpaper settings of a configuration. */
module WallpaperSpec {
  import opened Outcomes

  /** Each field is independently optional. `enable` is three-valued: absent,
      `Some(false)` and `Some(true)` are distinct states. `command` is an
      argument vector whose order is significant. */
  datatype Wallpaper = Wallpaper(
    enable: Option<bool>,
    path: Option<string>,
    command: Option<seq<string>>)

  /** `Wallpaper::default()`: every field absent. */
  const Default := Wallpaper(None, None, None)
}

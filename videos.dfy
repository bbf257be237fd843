/**
 * The state of one `<video>` element that the scripts read and write.
 *
 * The browser's media machinery is not modelled: `load()` only counts how often
 * a reload was requested, and `play()` / `pause()` only set the `paused` flag.
 */
module Videos {

  /** The `preload` attribute: missing, "none", "metadata" or "auto". */
  datatype Preload = Unset | NoPreload | Metadata | Auto

  datatype Video = Video(preload: Preload, paused: bool, loads: nat, muted: bool, looping: bool, inline: bool)

  /** `v.preload = "auto"; v.load()`: the element is asked to fetch the whole media. */
  function Requested(v: Video): Video
  {
    v.(preload := Auto, loads := v.loads + 1)
  }

  /** `v.pause()`. */
  function Paused(v: Video): Video
  {
    v.(paused := true)
  }

  /** A successful `v.play()`. */
  function Playing(v: Video): Video
  {
    v.(paused := false)
  }
}

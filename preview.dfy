/**
 * The synchronized preview of a finished clip (`SynthesizedPlayer` in
 * components/ResultView.tsx): a playback window [startTime, endTime] that
 * loops, and the caption shown at each moment. With a local file the
 * `<video>` element reports its position; with the embedded player there is
 * no position, so a polled tick measures the time elapsed since an epoch.
 * Times are seconds, passed in as parameters.
 */
module Preview {
  import opened Wrappers
  import opened Types
  import Gemini

  /** The caption's closed interval holds `t`. */
  predicate Covers(s: SubtitleItem, t: real) {
    s.start <= t <= s.end
  }

  /** `subtitles.find(s => t >= s.start && t <= s.end)`, as an index: the first caption holding `t`. */
  function FindCaption(subs: seq<SubtitleItem>, t: real): (r: Option<nat>)
    ensures r.Some? ==> r.value < |subs| && Covers(subs[r.value], t)
    ensures r.Some? ==> forall j :: 0 <= j < r.value ==> !Covers(subs[j], t)
    ensures r.None? ==> forall j :: 0 <= j < |subs| ==> !Covers(subs[j], t)
  {
    if |subs| == 0 then None
    else if Covers(subs[0], t) then Some(0)
    else match FindCaption(subs[1..], t)
      case Some(k) => Some(k + 1)
      case None => None
  }

  /** `subtitles[0]?.text || ""`. */
  function FirstText(subs: seq<SubtitleItem>): string {
    if |subs| > 0 then subs[0].text else ""
  }

  /** Captions chained end to start cover every instant from the first start to the last end. */
  lemma {:induction false} ChainCovers(subs: seq<SubtitleItem>, t: real)
    requires |subs| >= 1
    requires forall k :: 0 <= k < |subs| - 1 ==> subs[k].end == subs[k + 1].start
    requires subs[0].start <= t <= subs[|subs| - 1].end
    ensures FindCaption(subs, t).Some?
  {
    if !Covers(subs[0], t) {
      ChainCovers(subs[1..], t);
      var k := FindCaption(subs[1..], t).value;
      assert Covers(subs[k + 1], t);
    }
  }

  /**
   * For captions tiling [0, duration] the lookup never misses inside the
   * window, and at a boundary two captions share, the earlier one is shown.
   */
  lemma TilingCaptionsFound(subs: seq<SubtitleItem>, duration: real, t: real)
    requires Gemini.Tiles(subs, duration) && 0.0 <= t <= duration
    ensures FindCaption(subs, t).Some?
    ensures forall k :: 0 <= k < |subs| - 1 && t == subs[k].end ==> FindCaption(subs, t).value <= k
  {
    ChainCovers(subs, t);
  }

  /** `max(0, pos - startTime)`: never negative, and 0 at or before the window start. */
  function RelativeTime(pos: real, startTime: real): (r: real)
    ensures r >= 0.0 && r >= pos - startTime
    ensures r == 0.0 || r == pos - startTime
    ensures pos <= startTime ==> r == 0.0
  {
    if pos - startTime > 0.0 then pos - startTime else 0.0
  }

  /**
   * The caption the local-file handler shows at relative time `t`: the matching
   * caption; with none, the first caption (or "") while `t < 0.5`; otherwise
   * whatever was shown before.
   */
  function LocalCaption(subs: seq<SubtitleItem>, t: real, shown: string): (r: string)
    ensures FindCaption(subs, t).Some? ==> r == subs[FindCaption(subs, t).value].text
    ensures FindCaption(subs, t).None? && t < 0.5 ==> r == FirstText(subs)
    ensures FindCaption(subs, t).None? && t >= 0.5 ==> r == shown
  {
    match FindCaption(subs, t)
    case Some(k) => subs[k].text
    case None => if t < 0.5 then FirstText(subs) else shown
  }

  /** The caption the embedded-player tick shows: the matching caption, else the first, else "". */
  function EmbeddedCaption(subs: seq<SubtitleItem>, t: real): (r: string)
    ensures FindCaption(subs, t).Some? ==> r == subs[FindCaption(subs, t).value].text
    ensures FindCaption(subs, t).None? ==> r == FirstText(subs)
  {
    match FindCaption(subs, t)
    case Some(k) => subs[k].text
    case None => FirstText(subs)
  }

  /**
   * The window ResultView hands the player: `highlights[0]?.start || 0` and
   * `highlights[0]?.end || 10`, so a missing highlight gives [0, 10] and an
   * end of 0 becomes 10.
   */
  function PreviewWindow(highlights: seq<HighlightSegment>): (w: (real, real))
    ensures |highlights| == 0 ==> w == (0.0, 10.0)
    ensures |highlights| > 0 ==> w.0 == highlights[0].start
    ensures |highlights| > 0 && highlights[0].end != 0.0 ==> w.1 == highlights[0].end
    ensures |highlights| > 0 && highlights[0].end == 0.0 ==> w.1 == 10.0
  {
    if |highlights| == 0 then (0.0, 10.0)
    else (highlights[0].start, if highlights[0].end != 0.0 then highlights[0].end else 10.0)
  }

  /**
   * The overlay captions built for a highlight (for `end - start` seconds)
   * fill the preview window: at every relative time of the window some caption
   * is found. This needs `start <= end` and a non-zero end.
   */
  lemma OverlayFillsWindow(h: HighlightSegment, script: string, t: real)
    requires h.start <= h.end && h.end != 0.0
    requires 0.0 <= t <= PreviewWindow([h]).1 - PreviewWindow([h]).0
    ensures FindCaption(Gemini.OverlaySubtitles(script, h.end - h.start), t).Some?
  {
    Gemini.OverlayTiles(script, h.end - h.start);
    TilingCaptionsFound(Gemini.OverlaySubtitles(script, h.end - h.start), h.end - h.start, t);
  }

  /** The two playback substrates: a local file in a `<video>` element, or the embedded player. */
  datatype Mode = LocalFile | Embedded

  /** Local-file mode exactly when the result carries a (non-empty) local file URL. */
  function ModeFor(localFileUrl: Option<string>): (m: Mode)
    ensures m == LocalFile <==> localFileUrl.Some? && localFileUrl.value != ""
  {
    if Truthy(localFileUrl) then LocalFile else Embedded
  }

  /** Where `handleTimeUpdate` leaves the video: back at the window start once it reaches the end. */
  function WrappedPosition(reported: real, startTime: real, endTime: real): (p: real)
    ensures reported >= endTime ==> p == startTime
    ensures reported < endTime ==> p == reported
  {
    if reported >= endTime then startTime else reported
  }

  class Player {
    const mode: Mode
    const startTime: real
    const endTime: real
    const subtitles: seq<SubtitleItem>
    /** `isPlaying`. */
    var playing: bool
    /** The `<video>` element's `currentTime` (local-file mode). */
    var position: real
    /** Whether the `<video>` element is paused (local-file mode). */
    var videoPaused: bool
    /** The time the embedded-mode loop started, the interval's `start` (embedded mode). */
    var epoch: real
    /** `currentSubtitleText`, the caption on screen. */
    var text: string

    /**
     * Mounting: not playing, no caption; then the effect's first run, which in
     * local-file mode seeks to the window start and shows the first caption.
     */
    constructor(mode: Mode, startTime: real, endTime: real, subtitles: seq<SubtitleItem>)
      ensures this.mode == mode && this.startTime == startTime && this.endTime == endTime
      ensures this.subtitles == subtitles
      ensures !playing
      ensures mode == LocalFile ==> position == startTime && videoPaused && text == FirstText(subtitles)
      ensures mode == Embedded ==> text == ""
    {
      this.mode := mode;
      this.startTime := startTime;
      this.endTime := endTime;
      this.subtitles := subtitles;
      playing := false;
      position := 0.0;
      videoPaused := true;
      epoch := 0.0;
      text := "";
      new;
      if mode == LocalFile {
        position := startTime;
        text := FirstText(subtitles);
      }
    }

    /**
     * `handleTimeUpdate`: the video reports position `reported`. At or past the
     * window end it seeks back to the start and plays on if playing (pauses
     * otherwise); then the caption for the relative time is shown.
     */
    method TimeUpdate(reported: real)
      requires mode == LocalFile
      modifies this
      ensures position == WrappedPosition(reported, startTime, endTime)
      ensures videoPaused == if reported >= endTime then !playing else old(videoPaused)
      ensures text == LocalCaption(subtitles, RelativeTime(position, startTime), old(text))
      ensures playing == old(playing) && epoch == old(epoch)
      ensures reported >= endTime && |subtitles| >= 1 && subtitles[0].start == 0.0 <= subtitles[0].end ==>
        text == subtitles[0].text
    {
      position := reported;
      if position >= endTime {
        position := startTime;
        if playing {
          videoPaused := false;
        } else {
          videoPaused := true;
        }
      }
      var relative := RelativeTime(position, startTime);
      var active := FindCaption(subtitles, relative);
      if active.Some? {
        text := subtitles[active.value].text;
      } else if relative < 0.5 {
        text := FirstText(subtitles);
      }
    }

    /**
     * One poll of the embedded-mode interval at time `now`: the elapsed time is
     * measured from the epoch, the epoch moves to `now` once the elapsed time
     * exceeds the window length, and the caption for the (unreset) elapsed
     * time is shown.
     */
    method Tick(now: real)
      requires mode == Embedded && playing
      modifies this
      ensures epoch == if now - old(epoch) > endTime - startTime then now else old(epoch)
      ensures text == EmbeddedCaption(subtitles, now - old(epoch))
      ensures playing && position == old(position) && videoPaused == old(videoPaused)
    {
      var elapsed := now - epoch;
      if elapsed > endTime - startTime {
        epoch := now;
      }
      var active := FindCaption(subtitles, elapsed);
      text := if active.Some? then subtitles[active.value].text else FirstText(subtitles);
    }

    /**
     * `handlePlayPreview` followed by the effect's re-run. Stopping pauses the
     * video, seeks it to the window start and shows the first caption (local
     * file) or just stops the ticks (embedded, caption left as it was).
     * Starting seeks to the window start and plays (local file) or sets the
     * epoch to `now` (embedded).
     */
    method PlayPreview(now: real)
      modifies this
      ensures playing == !old(playing)
      ensures mode == LocalFile ==> position == startTime && videoPaused == !playing
      ensures mode == LocalFile && !playing ==> text == FirstText(subtitles)
      ensures mode == LocalFile && playing ==> text == old(text)
      ensures mode == LocalFile ==> epoch == old(epoch)
      ensures mode == Embedded ==> text == old(text) && position == old(position) && videoPaused == old(videoPaused)
      ensures mode == Embedded ==> epoch == if playing then now else old(epoch)
    {
      if playing {
        playing := false;
        if mode == LocalFile {
          videoPaused := true;
          position := startTime;
          text := FirstText(subtitles);
        }
      } else {
        playing := true;
        if mode == LocalFile {
          position := startTime;
          videoPaused := false;
        } else {
          epoch := now;
        }
      }
    }

    /**
     * The narration's `onend`: playback stops and the video pauses; if it was
     * playing, the effect's re-run seeks back to the start and shows the first
     * caption (local file).
     */
    method SpeechEnded()
      modifies this
      ensures !playing && epoch == old(epoch)
      ensures mode == LocalFile ==> videoPaused
      ensures mode == LocalFile && old(playing) ==> position == startTime && text == FirstText(subtitles)
      ensures !(mode == LocalFile && old(playing)) ==> position == old(position) && text == old(text)
      ensures mode == Embedded ==> videoPaused == old(videoPaused)
    {
      if mode == LocalFile {
        videoPaused := true;
      }
      if playing {
        playing := false;
        if mode == LocalFile {
          position := startTime;
          text := FirstText(subtitles);
        }
      }
    }
  }

  /**
   * When the video reports a position at or past the window end, the handler
   * seeks back to the window start, the relative time is 0, and with captions
   * that start at 0 the first caption is shown again, whatever the window.
   */
  lemma LoopRestartsCaptions(subs: seq<SubtitleItem>, startTime: real, endTime: real, reported: real, shown: string)
    requires |subs| >= 1 && subs[0].start == 0.0 <= subs[0].end
    requires reported >= endTime
    ensures LocalCaption(subs, RelativeTime(WrappedPosition(reported, startTime, endTime), startTime), shown) == subs[0].text
  {
    var t := RelativeTime(WrappedPosition(reported, startTime, endTime), startTime);
    assert t == 0.0;
    assert Covers(subs[0], t);
  }

  /**
   * A local-file preview of the window [10, 40] with captions over [0, 10],
   * [10, 25] and [25, 30]: at position 32 the relative time is 22 and the
   * second caption is shown; a report of 41 loops back to 10 and the first
   * caption returns.
   */
  method WorkedExample() {
    var subs := [SubtitleItem(0.0, 10.0, "first"), SubtitleItem(10.0, 25.0, "second"), SubtitleItem(25.0, 30.0, "third")];
    var player := new Player(LocalFile, 10.0, 40.0, subs);
    player.PlayPreview(0.0);
    player.TimeUpdate(32.0);
    assert RelativeTime(32.0, 10.0) == 22.0;
    assert !Covers(subs[0], 22.0) && Covers(subs[1], 22.0);
    assert player.text == "second";
    player.TimeUpdate(41.0);
    assert player.position == 10.0 && !player.videoPaused;
    assert player.text == "first";
  }
}

/**
 The two `struct fosphor_render` records of the harness (the main view and
 the zoom view) and the way `_update_fosphor` derives them from the view
 state.
 */
module Render {
  import opened View

  /** Overlap, in pixels, of the zoom view onto the main view. */
  const ZOOM_OVERLAP := 10

  /** Fraction of the width given to the main view when zoom is on. */
  const MAIN_SPLIT: real := 0.65

  /** The `FRO_*` option bits; `OtherOption` stands for the bits the harness
      never touches. */
  datatype RenderOption = Channels | LabelPower | LabelTime | OtherOption(bit: nat)

  /** `channels[0]` of a render record: the zoom window drawn on the main view. */
  datatype Channel = Channel(enabled: int, center: real, width: real)

  /** The fields of `struct fosphor_render` that the harness reads or writes. */
  datatype RenderRecord = RenderRecord(
    posX: int, width: int, height: int,
    histoWfRatio: real,
    options: set<RenderOption>,
    channel0: Channel,
    freqStart: real, freqStop: real)

  /** C's conversion of a floating value to `int`: truncation toward zero. */
  function TruncToInt(x: real): (n: int)
    ensures 0.0 <= x ==> n as real <= x < n as real + 1.0
    ensures x < 0.0 ==> n as real - 1.0 < x <= n as real
  {
    if 0.0 <= x then x.Floor else -((-x).Floor)
  }

  /** `(int)(w * 0.65f)`: where the main view ends when zoom is on. */
  function SplitAt(w: int): (a: int)
    ensures 0 <= w ==> 0 <= a <= w
    ensures 0 <= w ==> a as real <= MAIN_SPLIT * w as real < a as real + 1.0
  {
    TruncToInt(w as real * MAIN_SPLIT)
  }

  /** The clamp of `_update_fosphor` into [0,1]: `f > 0 ? (f < 1 ? f : 1) : 0`. */
  function Clamp01(f: real): (c: real)
    ensures 0.0 <= c <= 1.0
    ensures 0.0 <= f <= 1.0 ==> c == f
    ensures f < 0.0 ==> c == 0.0
    ensures 1.0 < f ==> c == 1.0
  {
    if f > 0.0 then (if f < 1.0 then f else 1.0) else 0.0
  }

  /** The ratio of the view state as the descriptor's real number. */
  function RatioValue(tenths: int): (x: real)
    ensures x * 10.0 == tenths as real
    ensures RATIO_MIN_TENTHS <= tenths <= RATIO_MAX_TENTHS ==> 0.2 <= x <= 0.8
  {
    tenths as real / 10.0
  }

  /** `render_main` after `_update_fosphor`. */
  function DeriveMain(v: ViewState, prev: RenderRecord): (r: RenderRecord)
    ensures v.zoomEnable != 0 ==> r.width == SplitAt(v.w)
    ensures v.zoomEnable == 0 ==> r.width == v.w
    ensures r.height == v.h
    ensures r.histoWfRatio == RatioValue(v.ratio)
    ensures Channels in r.options <==> v.zoomEnable != 0
    ensures r.options - {Channels} == prev.options - {Channels}
    ensures r.channel0 == Channel(v.zoomEnable, v.zoomCenter, v.zoomWidth)
    ensures r.posX == prev.posX && r.freqStart == prev.freqStart && r.freqStop == prev.freqStop
  {
    var zoom := v.zoomEnable != 0;
    prev.(
      width := if zoom then SplitAt(v.w) else v.w,
      height := v.h,
      histoWfRatio := RatioValue(v.ratio),
      options := if zoom then prev.options + {Channels} else prev.options - {Channels},
      channel0 := Channel(v.zoomEnable, v.zoomCenter, v.zoomWidth))
  }

  /** `render_zoom` after `_update_fosphor`. Its geometry is only written
      when zoom is on; its frequency window is clamped into [0,1]. */
  function DeriveZoom(v: ViewState, prev: RenderRecord): (r: RenderRecord)
    ensures v.zoomEnable != 0 ==> r.posX == SplitAt(v.w) - ZOOM_OVERLAP && r.posX + r.width == v.w && r.height == v.h
    ensures v.zoomEnable == 0 ==> r.posX == prev.posX && r.width == prev.width && r.height == prev.height
    ensures r.histoWfRatio == RatioValue(v.ratio)
    ensures 0.0 <= r.freqStart <= 1.0 && 0.0 <= r.freqStop <= 1.0
    ensures r.freqStart == Clamp01(v.zoomCenter - v.zoomWidth / 2.0)
    ensures r.freqStop == Clamp01(v.zoomCenter + v.zoomWidth / 2.0)
    ensures r.options == prev.options && r.channel0 == prev.channel0
  {
    var a := SplitAt(v.w);
    var geometry :=
      if v.zoomEnable != 0 then prev.(posX := a - ZOOM_OVERLAP, width := v.w - a + ZOOM_OVERLAP, height := v.h)
      else prev;
    geometry.(
      histoWfRatio := RatioValue(v.ratio),
      freqStart := Clamp01(v.zoomCenter - v.zoomWidth / 2.0),
      freqStop := Clamp01(v.zoomCenter + v.zoomWidth / 2.0))
  }

  /** With zoom on, the main view takes the first floor(0.65 w) columns and
      the zoom view the rest, reaching 10 columns back over the main view. */
  lemma SplitGeometry(v: ViewState, prevMain: RenderRecord, prevZoom: RenderRecord)
    requires 0 <= v.w && v.zoomEnable != 0
    ensures var m, z := DeriveMain(v, prevMain), DeriveZoom(v, prevZoom);
      && m.width as real <= MAIN_SPLIT * v.w as real < m.width as real + 1.0
      && z.posX == m.width - ZOOM_OVERLAP
      && z.posX + z.width == v.w
      && m.width + z.width == v.w + ZOOM_OVERLAP
      && m.height == v.h && z.height == v.h
      && 0 <= m.width <= v.w
  {
  }

  /** With zoom off, the main view fills the window and the zoom view keeps
      its old geometry. */
  lemma FullWidthWithoutZoom(v: ViewState, prevMain: RenderRecord, prevZoom: RenderRecord)
    requires v.zoomEnable == 0
    ensures DeriveMain(v, prevMain).width == v.w && DeriveMain(v, prevMain).height == v.h
    ensures Channels !in DeriveMain(v, prevMain).options
    ensures DeriveZoom(v, prevZoom).(histoWfRatio := prevZoom.histoWfRatio, freqStart := prevZoom.freqStart, freqStop := prevZoom.freqStop) == prevZoom
  {
  }

  /** Deriving again from the same view state changes nothing. */
  lemma DeriveIdempotent(v: ViewState, prevMain: RenderRecord, prevZoom: RenderRecord)
    ensures DeriveMain(v, DeriveMain(v, prevMain)) == DeriveMain(v, prevMain)
    ensures DeriveZoom(v, DeriveZoom(v, prevZoom)) == DeriveZoom(v, prevZoom)
  {
  }

  /** A non-negative zoom width gives an ordered window; a negative one can
      invert it. */
  lemma FreqWindowOrdered(v: ViewState, prev: RenderRecord)
    ensures 0.0 <= v.zoomWidth ==> DeriveZoom(v, prev).freqStart <= DeriveZoom(v, prev).freqStop
    ensures v.zoomCenter == 0.5 && v.zoomWidth == -0.2 ==>
      DeriveZoom(v, prev).freqStart > DeriveZoom(v, prev).freqStop
  {
  }

  /** A window centred off the band is clamped to its edge: centre 2.0 and
      width 0.2 give start 1.0 and stop 1.0. */
  lemma FreqWindowClampedExample(v: ViewState, prev: RenderRecord)
    requires v.zoomCenter == 2.0 && v.zoomWidth == 0.2
    ensures DeriveZoom(v, prev).freqStart == 1.0 && DeriveZoom(v, prev).freqStop == 1.0
  {
  }
}

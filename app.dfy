/**
 The global `struct app_state` of the fosphor test harness and the code of
 `main.c` that works on it: the GLFW key and resize callbacks, the derivation
 of the render records (`_update_fosphor`) and the sample ingestion of one
 frame (`glfw_render`). Calls into the fosphor engine are recorded in ghost
 logs.
 */
module App {
  import opened View
  import opened Render
  import opened SampleSource

  /** FFT batches per `fosphor_process` call, and calls per frame. */
  const BATCH_LEN := 128
  const BATCH_COUNT := 4

  /** `sizeof(float)`; a complex sample is two floats. */
  const SIZEOF_FLOAT := 4

  /** Bytes filled before each `fosphor_process` call:
      `sizeof(float) * 2 * FOSPHOR_FFT_LEN * BATCH_LEN`. */
  function BatchBytes(fftLen: nat): (n: nat)
    ensures 0 < fftLen ==> 0 < n
  {
    SIZEOF_FLOAT * 2 * fftLen * BATCH_LEN
  }

  /** The bytes of consecutive batches, end to end. */
  function Concat(batches: seq<seq<bv8>>): (s: seq<bv8>)
    decreases |batches|
  {
    if batches == [] then [] else Concat(batches[..|batches| - 1]) + batches[|batches| - 1]
  }

  /** What the fill loop has done so far: the bytes `done` already in the
      buffer, followed by the `r` bytes still to come from position `pos`,
      are the bytes the looped source delivers from `p0`. */
  ghost predicate FillProgress(data: seq<bv8>, p0: nat, len: nat, done: seq<bv8>, pos: nat, r: nat)
    requires pos <= |data| && p0 <= |data|
  {
    0 < |data| ==>
      && done + Looped(data, pos, r) == Looped(data, p0, len)
      && LoopedEnd(data, pos, r) == LoopedEnd(data, p0, len)
  }

  /** A successful read of `rc` bytes moves them from the stream to the buffer. */
  lemma FillProgressRead(data: seq<bv8>, p0: nat, len: nat, done: seq<bv8>, pos: nat, r: nat, rc: nat)
    requires p0 <= |data| && pos + rc <= |data| && rc <= r
    requires FillProgress(data, p0, len, done, pos, r)
    ensures FillProgress(data, p0, len, done + data[pos..pos + rc], pos + rc, r - rc)
  {
    if 0 < |data| {
      LoopedPrefix(data, pos, r, rc);
    }
  }

  /** The rewind at end of file does not change what is still to come. */
  lemma FillProgressRewind(data: seq<bv8>, p0: nat, len: nat, done: seq<bv8>, r: nat)
    requires p0 <= |data| && 0 < r
    requires FillProgress(data, p0, len, done, |data|, r)
    ensures FillProgress(data, p0, len, done, 0, r)
  {
  }

  /** One more batch of `len` bytes, taken from where the earlier batches
      left the read position, extends the looped stream by `len` bytes. */
  lemma BatchAppend(data: seq<bv8>, p0: nat, c: nat, len: nat, batches: seq<seq<bv8>>, batch: seq<bv8>)
    requires 0 < |data| && p0 <= |data|
    requires Concat(batches) == Looped(data, p0, c * len)
    requires batch == Looped(data, LoopedEnd(data, p0, c * len), len)
    ensures Concat(batches + [batch]) == Looped(data, p0, (c + 1) * len)
    ensures LoopedEnd(data, LoopedEnd(data, p0, c * len), len) == LoopedEnd(data, p0, (c + 1) * len)
  {
    assert (batches + [batch])[..|batches|] == batches;
    assert c * len + len == (c + 1) * len;
    LoopedConcat(data, p0, c * len, len);
  }

  /** Once nothing remains, the buffer holds the whole batch. */
  lemma FillProgressDone(data: seq<bv8>, p0: nat, len: nat, done: seq<bv8>, pos: nat)
    requires 0 < |data| && p0 <= |data| && pos <= |data|
    requires FillProgress(data, p0, len, done, pos, 0)
    ensures done == Looped(data, p0, len) && pos == LoopedEnd(data, p0, len)
  {
    assert Looped(data, pos, 0) == [];
  }

  /** One pass of the body of the fill loop: `fread` into the buffer at
      offset `o`, and when that returns nothing, `fseek` back to the start
      of the file; `aborted` is the `abort()` of a failed rewind. The ghost
      parameters carry the loop's progress (see `FillProgress`). */
  method ReadOrRewind(src: Source, buf: array<bv8>, o: nat, r: nat, ghost p0: nat, ghost len: nat, ghost done: seq<bv8>)
    returns (rc: int, aborted: bool)
    requires src.Valid() && 0 < r && o + r <= buf.Length && p0 <= |src.data|
    requires FillProgress(src.data, p0, len, done, src.pos, r)
    modifies src, buf
    ensures src.Valid()
    ensures 0 <= rc <= r
    ensures aborted <==> rc == 0 && !src.seekable
    ensures rc == 0 <==> old(src.pos) == |src.data|
    ensures rc == 0 && !aborted ==> src.pos == 0 && buf[..o] == old(buf[..o])
    ensures rc == 0 && !aborted ==> FillProgress(src.data, p0, len, done, src.pos, r)
    ensures 0 < rc ==> src.pos == old(src.pos) + rc && buf[..o + rc] == old(buf[..o]) + src.data[old(src.pos)..src.pos]
    ensures 0 < rc ==> FillProgress(src.data, p0, len, done + src.data[old(src.pos)..src.pos], src.pos, r - rc)
    ensures forall i :: o + rc <= i < buf.Length ==> buf[i] == old(buf[i])
  {
    ghost var pos := src.pos;
    rc := src.Read(buf, o, r);
    aborted := false;
    if rc <= 0 {
      var failed := src.Rewind();
      aborted := failed;
      if !failed {
        FillProgressRewind(src.data, p0, len, done, r);
      }
      return;
    }
    assert buf[..o + rc] == buf[..o] + buf[o..o + rc];
    FillProgressRead(src.data, p0, len, done, pos, r, rc);
  }

  /** The `while (r)` loop of `glfw_render`: fills `buf[0..len)` from the
      source, rewinding it whenever a read returns nothing. A failed rewind
      is the `abort()` of the source and is reported as `aborted`. */
  method FillBatch(src: Source, buf: array<bv8>, len: nat) returns (aborted: bool)
    requires src.Valid() && len <= buf.Length
    // an empty seekable file makes the loop spin for ever
    requires src.seekable ==> 0 < |src.data|
    modifies src, buf
    ensures src.Valid()
    ensures aborted <==> !src.seekable && |src.data| < old(src.pos) + len
    ensures !aborted && 0 < len ==> 0 < |src.data|
    ensures !aborted && !src.seekable ==> src.pos == old(src.pos) + len
    ensures !aborted && 0 < |src.data| ==>
      && buf[..len] == Looped(src.data, old(src.pos), len)
      && src.pos == LoopedEnd(src.data, old(src.pos), len)
    ensures !aborted ==> buf[len..] == old(buf[len..])
  {
    ghost var p0 := src.pos;
    ghost var done: seq<bv8> := [];
    var r: int := len;
    var o: int := 0;
    while r != 0
      invariant src.Valid()
      invariant 0 <= o && 0 <= r && r + o == len
      invariant buf[..o] == done
      invariant forall i :: len <= i < buf.Length ==> buf[i] == old(buf[i])
      invariant FillProgress(src.data, p0, len, done, src.pos, r)
      invariant !src.seekable ==> src.pos == p0 + o
      decreases r, if src.pos < |src.data| then 0 else 1
    {
      ghost var pos := src.pos;
      var rc;
      rc, aborted := ReadOrRewind(src, buf, o, r, p0, len, done);
      if aborted {
        return;
      }
      if rc <= 0 {
        continue;
      }
      done := done + src.data[pos..src.pos];
      r := r - rc;
      o := o + rc;
    }
    if 0 < |src.data| {
      FillProgressDone(src.data, p0, len, done, src.pos);
    }
    assert buf[len..] == old(buf[len..]);
    return false;
  }

  class AppState {
    // g_as->src_fh and g_as->src_buf
    const src: Source
    const srcBuf: array<bv8>
    // FOSPHOR_FFT_LEN, from a header that is not part of this model
    const fftLen: nat

    // g_as->fosphor != NULL
    var engineReady: bool
    var renderMain: RenderRecord
    var renderZoom: RenderRecord

    var w: int
    var h: int
    var dbRef: int
    var dbPerDivIdx: int
    // tenths
    var ratio: int
    var zoomWidth: real
    var zoomCenter: real
    var zoomEnable: int

    // calls made into the engine: fosphor_set_power_range, fosphor_process
    // (the bytes of the buffer it is given) and fosphor_draw
    ghost var powerRanges: seq<(int, int)>
    ghost var processed: seq<seq<bv8>>
    ghost var drawn: seq<RenderRecord>

    function State(): ViewState
      reads this
    {
      ViewState(w, h, dbRef, dbPerDivIdx, ratio, zoomWidth, zoomCenter, zoomEnable)
    }

    ghost predicate Valid()
      reads this, src
    {
      && src.Valid()
      && Inv(State())
      && 0 < fftLen
      && BatchBytes(fftLen) <= srcBuf.Length
    }

    /** The render records are those `_update_fosphor` derives from the
        current view state and the records it started from. */
    ghost predicate Derived(oldMain: RenderRecord, oldZoom: RenderRecord)
      reads this
    {
      renderMain == DeriveMain(State(), oldMain) && renderZoom == DeriveZoom(State(), oldZoom)
    }

    /** The power range pushed to the engine, when there is one. */
    ghost function PowerRangeCall(): seq<(int, int)>
      reads this
      requires 0 <= dbPerDivIdx < |DB_PER_DIV|
    {
      if engineReady then [(dbRef, DbPerDiv(dbPerDivIdx))] else []
    }

    /** `main` up to the window creation: the zeroed static state, the
        allocated sample buffer, the initial view and the render defaults
        (`defaults`, what `fosphor_render_defaults` fills in). */
    constructor (src: Source, fftLen: nat, maxBatch: nat, defaults: RenderRecord)
      requires src.Valid()
      requires 0 < fftLen && BATCH_LEN <= maxBatch
      ensures Valid()
      ensures this.src == src && this.fftLen == fftLen && fresh(srcBuf)
      ensures srcBuf.Length == 2 * SIZEOF_FLOAT * fftLen * maxBatch
      ensures State() == Initial()
      ensures !engineReady
      ensures renderMain == defaults.(histoWfRatio := 0.35)
      ensures renderZoom == defaults.(options := defaults.options - {LabelPower, LabelTime}, histoWfRatio := 0.35)
      ensures powerRanges == [] && processed == [] && drawn == []
    {
      this.src := src;
      this.fftLen := fftLen;
      srcBuf := new bv8[2 * SIZEOF_FLOAT * fftLen * maxBatch];
      engineReady := false;
      w, h := 0, 0;
      zoomEnable := 0;
      dbPerDivIdx := 3;
      dbRef := 0;
      ratio := 5;
      zoomCenter := 0.5;
      zoomWidth := 0.2;
      renderMain := defaults.(histoWfRatio := 0.35);
      renderZoom := defaults.(options := defaults.options - {LabelPower, LabelTime}, histoWfRatio := 0.35);
      powerRanges, processed, drawn := [], [], [];
    }

    /** `g_as->fosphor = fosphor_init()` succeeding, then the first
        `fosphor_set_power_range`. */
    method AttachEngine()
      requires Valid()
      modifies this
      ensures Valid() && engineReady
      ensures State() == old(State()) && renderMain == old(renderMain) && renderZoom == old(renderZoom)
      ensures powerRanges == old(powerRanges) + [(dbRef, DB_PER_DIV[dbPerDivIdx])]
      ensures processed == old(processed) && drawn == old(drawn)
    {
      engineReady := true;
      powerRanges := powerRanges + [(dbRef, DbPerDiv(dbPerDivIdx))];
    }

    /** `_update_fosphor`: lays out the two views, copies the ratio, the
        channel marker and the clamped zoom window, and pushes the power
        range to the engine. `fosphor_render_refresh` is not modelled. */
    method UpdateFosphor()
      requires Valid()
      modifies this
      ensures Valid()
      ensures State() == old(State()) && engineReady == old(engineReady)
      ensures Derived(old(renderMain), old(renderZoom))
      ensures powerRanges == old(powerRanges) + PowerRangeCall()
      ensures processed == old(processed) && drawn == old(drawn)
    {
      // the two records are built in local copies and stored once
      var main, zoom := renderMain, renderZoom;
      if zoomEnable != 0 {
        var a := SplitAt(w);
        main := main.(width := a, height := h);
        zoom := zoom.(posX := a - ZOOM_OVERLAP, width := w - a + ZOOM_OVERLAP, height := h);
      } else {
        main := main.(width := w, height := h);
      }

      main := main.(histoWfRatio := RatioValue(ratio));
      zoom := zoom.(histoWfRatio := RatioValue(ratio));

      if zoomEnable != 0 {
        main := main.(options := main.options + {Channels});
      } else {
        main := main.(options := main.options - {Channels});
      }

      main := main.(channel0 := Channel(zoomEnable, zoomCenter, zoomWidth));

      var f := zoomCenter - zoomWidth / 2.0;
      zoom := zoom.(freqStart := Clamp01(f));
      f := zoomCenter + zoomWidth / 2.0;
      zoom := zoom.(freqStop := Clamp01(f));

      assert main == DeriveMain(State(), renderMain);
      assert zoom == DeriveZoom(State(), renderZoom);
      renderMain, renderZoom := main, zoom;

      if engineReady {
        powerRanges := powerRanges + [(dbRef, DbPerDiv(dbPerDivIdx))];
      }
    }

    /** `glfw_cb_reshape`: a negative size is replaced by the framebuffer
        size, which the windowing system reports as `fbWidth` x `fbHeight`. */
    method OnReshape(width: int, height: int, fbWidth: nat, fbHeight: nat)
      requires Valid()
      modifies this
      ensures Valid()
      ensures width < 0 || height < 0 ==> State() == Resize(old(State()), fbWidth, fbHeight)
      ensures 0 <= width && 0 <= height ==> State() == Resize(old(State()), width, height)
      ensures Derived(old(renderMain), old(renderZoom))
      ensures powerRanges == old(powerRanges) + PowerRangeCall()
      ensures engineReady == old(engineReady) && processed == old(processed) && drawn == old(drawn)
    {
      var nw, nh := width, height;
      if nw < 0 || nh < 0 {
        nw, nh := fbWidth, fbHeight;
      }
      w := nw;
      h := nh;
      UpdateFosphor();
    }

    /** The `switch` of `glfw_cb_key` for a PRESS or REPEAT of `key`: the
        view field bound to the key changes, nothing else does. ESCAPE is
        dealt with by `OnKey` before this point. */
    method StepView(key: Key)
      requires Valid()
      modifies this
      ensures Valid()
      ensures State() == ApplyKey(old(State()), key)
      ensures renderMain == old(renderMain) && renderZoom == old(renderZoom) && engineReady == old(engineReady)
      ensures powerRanges == old(powerRanges) && processed == old(processed) && drawn == old(drawn)
    {
      ghost var v := ApplyKey(State(), key);
      ApplyKeyKeepsInv(State(), key);
      match key {
        case Up =>
          dbRef := dbRef - DbPerDiv(dbPerDivIdx);
        case Down =>
          dbRef := dbRef + DbPerDiv(dbPerDivIdx);
        case Left =>
          if dbPerDivIdx > 0 {
            dbPerDivIdx := dbPerDivIdx - 1;
          }
        case Right =>
          if dbPerDivIdx < MAX_DB_PER_DIV_IDX {
            dbPerDivIdx := dbPerDivIdx + 1;
          }
        case W =>
          zoomWidth := zoomWidth * 2.0;
        case S =>
          zoomWidth := zoomWidth / 2.0;
        case A =>
          zoomCenter := zoomCenter - zoomWidth / 8.0;
        case D =>
          zoomCenter := zoomCenter + zoomWidth / 8.0;
        case Z =>
          zoomEnable := Toggle(zoomEnable);
        case Q =>
          if ratio < RATIO_MAX_TENTHS {
            ratio := ratio + 1;
          }
        case E =>
          if ratio > RATIO_MIN_TENTHS {
            ratio := ratio - 1;
          }
        case Escape =>
        case OtherKey(_) =>
      }
      assert State() == v;
    }

    /** `glfw_cb_key`. Only PRESS and REPEAT act; ESCAPE ends the process
        (`quit`) before anything changes; any other key changes at most its
        own field and then re-derives the render records. */
    method OnKey(key: Key, action: KeyAction) returns (quit: bool)
      requires Valid()
      modifies this
      ensures Valid()
      ensures quit <==> action != Release && key == Escape
      ensures action == Release || quit ==>
        && State() == old(State()) && renderMain == old(renderMain) && renderZoom == old(renderZoom)
        && powerRanges == old(powerRanges)
      ensures action != Release && !quit ==>
        && State() == ApplyKey(old(State()), key)
        && Derived(old(renderMain), old(renderZoom))
        && powerRanges == old(powerRanges) + PowerRangeCall()
      ensures engineReady == old(engineReady) && processed == old(processed) && drawn == old(drawn)
    {
      if action == Release {
        return false;
      }
      if key == Escape {
        return true;
      }
      StepView(key);
      UpdateFosphor();
      quit := false;
    }

    /** The engine work of `glfw_render`: BATCH_COUNT batches, each filled
        by `FillBatch` and handed to `fosphor_process`, then the main view
        drawn, and the zoom view too when zoom is on. */
    method RenderFrame() returns (aborted: bool)
      requires Valid() && engineReady
      requires src.seekable ==> 0 < |src.data|
      modifies this, src, srcBuf
      ensures Valid()
      ensures State() == old(State()) && renderMain == old(renderMain) && renderZoom == old(renderZoom)
      ensures engineReady && powerRanges == old(powerRanges)
      ensures aborted <==> !src.seekable && |src.data| < old(src.pos) + BATCH_COUNT * BatchBytes(fftLen)
      ensures !aborted ==>
        && 0 < |src.data|
        && |processed| == |old(processed)| + BATCH_COUNT
        && (forall j :: |old(processed)| <= j < |processed| ==> |processed[j]| == BatchBytes(fftLen))
        && Concat(processed[|old(processed)|..]) == Looped(src.data, old(src.pos), BATCH_COUNT * BatchBytes(fftLen))
        && src.pos == LoopedEnd(src.data, old(src.pos), BATCH_COUNT * BatchBytes(fftLen))
        && drawn == old(drawn) + [renderMain] + (if zoomEnable != 0 then [renderZoom] else [])
    {
      ghost var p0 := src.pos;
      ghost var batches: seq<seq<bv8>> := [];
      var len := BatchBytes(fftLen);
      var c := 0;
      while c < BATCH_COUNT
        invariant 0 <= c <= BATCH_COUNT
        invariant Valid() && engineReady
        invariant State() == old(State()) && renderMain == old(renderMain) && renderZoom == old(renderZoom)
        invariant powerRanges == old(powerRanges) && drawn == old(drawn)
        invariant processed == old(processed) + batches && |batches| == c
        invariant forall j :: 0 <= j < c ==> |batches[j]| == len
        invariant !src.seekable ==> src.pos == p0 + c * len && p0 + c * len <= |src.data|
        invariant 0 < c ==> 0 < |src.data|
        invariant 0 < |src.data| ==>
          && Concat(batches) == Looped(src.data, p0, c * len)
          && src.pos == LoopedEnd(src.data, p0, c * len)
      {
        aborted := FillBatch(src, srcBuf, len);
        if aborted {
          assert !src.seekable && |src.data| < p0 + c * len + len;
          assert c * len + len <= BATCH_COUNT * len;
          return;
        }
        var batch := srcBuf[..len];
        BatchAppend(src.data, p0, c, len, batches, batch);
        assert c * len + len == (c + 1) * len;
        batches := batches + [batch];
        processed := processed + [batch];
        c := c + 1;
      }

      drawn := drawn + [renderMain];
      if zoomEnable != 0 {
        drawn := drawn + [renderZoom];
      }
      aborted := false;
    }
  }

  /** The start-up sequence of `main` once the file is open: the initial
      state, the window's first reshape (with a negative size, so the
      framebuffer size `fbWidth` x `fbHeight` is used), then the engine and
      its first power range. */
  method Startup(src: Source, fftLen: nat, maxBatch: nat, defaults: RenderRecord, fbWidth: nat, fbHeight: nat)
    returns (app: AppState)
    requires src.Valid()
    requires 0 < fftLen && BATCH_LEN <= maxBatch
    ensures fresh(app) && app.Valid() && app.src == src && app.engineReady
    ensures app.State() == Resize(Initial(), fbWidth, fbHeight)
    ensures app.renderMain == DeriveMain(app.State(), defaults.(histoWfRatio := 0.35))
    ensures app.renderMain.width == fbWidth && Channels !in app.renderMain.options
    ensures app.renderZoom.freqStart == 0.4 && app.renderZoom.freqStop == 0.6
    ensures app.powerRanges == [(0, 10)]
  {
    app := new AppState(src, fftLen, maxBatch, defaults);
    app.OnReshape(-1, -1, fbWidth, fbHeight);
    app.AttachEngine();
  }
}

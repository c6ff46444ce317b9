# fosphor test harness — a Dafny model

This project models the control logic of `lib/fosphor/main.c` of gr-fosphor,
the stand-alone test program around the fosphor spectrum display engine:

- the global `struct app_state`, as the class `App.AppState`: window size,
  power reference `db_ref`, the index into the dB-per-division table
  `k_db_per_div = {1,2,5,10,20}`, the histogram/waterfall `ratio`, the zoom
  window (`zoom_center`, `zoom_width`, `zoom_enable`), the two render
  records `render_main` and `render_zoom`, the input file and the sample
  buffer;
- the key callback `glfw_cb_key` and the resize callback `glfw_cb_reshape`,
  each proved against the pure transition `View.ApplyKey` / `View.Resize`;
- `_update_fosphor`, proved against the pure derivations `Render.DeriveMain`
  and `Render.DeriveZoom` of the two render records (the 65 % split with a
  10-pixel overlap, the ratio, the `FRO_CHANNELS` bit, the channel-0 marker
  and the zoom window clamped into [0,1]);
- the ingestion part of `glfw_render`: the `while (r)` batch-fill loop, which
  rewinds the file whenever a read returns nothing so that a short file is
  played in a loop, and the four batches per frame handed to the engine.

Modules: `SampleSource` (the file as a byte sequence with a read position,
`fread`, `fseek` to 0, and `Looped`, the byte stream the fill loop sees),
`View` (view state, keys, transitions and their lemmas), `Render` (render
records and their derivation), `App` (the state class, the fill loop and
`main`'s start-up sequence).

Encoding choices:
- `ratio` is kept as an integer count of tenths (0.5 is 5), so the ±0.1
  steps are exact (`View.RatioKeyF32` models the single-precision steps as
  written, see "## Findings"); the records' `histo_wf_ratio` is a `real` (it starts at
  0.35).
- `zoom_center`/`zoom_width` and the frequency bounds are `real`s.
- `zoom_enable` is an `int` and `^= 1` is modelled exactly as flipping the
  lowest bit (`View.Toggle`).
- `(int)(w * 0.65f)` is the truncation toward zero of the real product
  `w * 0.65` (`Render.TruncToInt`, `Render.SplitAt`).
- The render records are embedded by value in `struct app_state`, so they
  are datatype values in fields of `AppState`, updated field by field.
- The calls into the fosphor engine (`fosphor_set_power_range`,
  `fosphor_process`, `fosphor_draw`) are recorded in ghost logs of
  `AppState`; `fosphor_render_defaults` is the `defaults` parameter of the
  constructor.
- `fread` on the file returns the smaller of the request and what is left;
  `fseek(fh, 0, SEEK_SET)` fails exactly for a source that cannot be rewound
  (`seekable == false`, e.g. a pipe on standard input), and the `abort()`
  that follows is the `aborted` result of `App.FillBatch`.
- `glfwGetFramebufferSize`, used by the reshape callback for a negative
  size, is the pair of parameters `fbWidth`, `fbHeight`.
- FOSPHOR_FFT_LEN and FOSPHOR_FFT_MAX_BATCH come from headers that are not
  part of this model; they are the parameters `fftLen` and `maxBatch` of the
  constructor, with `BATCH_LEN <= maxBatch` required.

The render records are not a function of the view state alone: `render_zoom`
keeps its old geometry while zoom is off, the option bits other than
`FRO_CHANNELS` and the main view's `pos_x` come from the previous record — so
the derivations take the previous record as an argument.

## Model

| member | source | states |
|---|---|---|
| SampleSource.Source.Read | lib/fosphor/main.c:171 | a read copies at most the requested count, exactly the next bytes of the file, returns 0 only at end of file, and touches no other byte of the buffer |
| SampleSource.Source.Rewind | lib/fosphor/main.c:173-174 | the rewind puts the position back to 0, and fails (leading to abort) exactly when the source cannot be rewound |
| SampleSource.Looped | lib/fosphor/main.c:168-180 | the stream the fill loop sees from a position delivers exactly the requested number of bytes |
| SampleSource.LoopedEnd | lib/fosphor/main.c:168-180 | the read position after a fill stays within the file, and is past its start once anything was read |
| SampleSource.LoopedAt | lib/fosphor/main.c:168-180 | the looped stream is the file repeated end to end: byte i from position p is byte (p+i) mod length |
| SampleSource.LoopedEndAt | lib/fosphor/main.c:168-180 | after k > 0 bytes the read position is (p + k - 1) mod length + 1: a fill that ends exactly at the end of the file leaves the position there |
| SampleSource.LoopedPrefix | lib/fosphor/main.c:171-179 | a read that stays inside the file delivers the next bytes of the stream and advances by that count |
| SampleSource.LoopedConcat | lib/fosphor/main.c:164-183 | successive batches continue the stream where the previous one stopped, so playback is seamless across batches |
| View.DbPerDiv | lib/fosphor/main.c:41 | every dB-per-division step is between 1 and 20 and the table is strictly ascending |
| View.Initial | lib/fosphor/main.c:403-408 | the initial view state (index 3, reference 0, ratio 0.5, centre 0.5, width 0.2, zoom off) satisfies the view invariant |
| View.Toggle | lib/fosphor/main.c:315-317 | `^= 1` flips the parity and keeps the value halved, so it moves to the other member of the pair {2j, 2j+1} |
| View.ApplyKey | lib/fosphor/main.c:275-328 | the switch of the key callback as a pure transition: every key keeps the dB-per-division index inside the table and the size unchanged, and ESCAPE and unbound keys change nothing |
| View.Resize | lib/fosphor/main.c:263-264 | the size becomes the new size and nothing else changes |
| View.RunKeys | lib/fosphor/main.c:269-331 | after any sequence of keys the dB-per-division index still indexes the table |
| View.ApplyKeyKeepsInv | lib/fosphor/main.c:281-327 | every key keeps index in [0,4], ratio in [0.2,0.8], zoom switch in {0,1} and a non-negative size |
| View.RunKeysKeepsInv | lib/fosphor/main.c:289-327 | any sequence of keys keeps that invariant, so every `k_db_per_div` lookup is in bounds |
| View.KeyChangesOnlyItsField | lib/fosphor/main.c:275-328 | a key changes only the field bound to it, and never the size |
| View.StepIndexSaturates | lib/fosphor/main.c:289-297 | LEFT and RIGHT move the index by one and leave it unchanged at 0 and 4 |
| View.RatioSaturates | lib/fosphor/main.c:319-327 | Q and E move the ratio by 0.1 and leave it unchanged at 0.8 and 0.2 |
| View.UpDownInverse | lib/fosphor/main.c:281-287 | UP subtracts exactly the current step from the reference, DOWN adds it, and each undoes the other |
| View.WidenNarrowInverse | lib/fosphor/main.c:299-305 | W sets the zoom width to twice and S to half its value, and each undoes the other |
| View.PanInverse | lib/fosphor/main.c:307-313 | A moves the zoom centre down and D up by an eighth of the width, and each undoes the other |
| View.ToggleZoom | lib/fosphor/main.c:315-317 | Z flips the zoom switch between 0 and 1; twice is no change |
| View.RepeatedUp | lib/fosphor/main.c:281-283 | n presses of UP lower the reference by n times the current step and change nothing else |
| View.ThreeUpsFromInitial | lib/fosphor/main.c:281-283 | from the initial state (step 10 dB, reference 0) three UPs give a reference of -30 |
| View.ZoomWidthScenario | lib/fosphor/main.c:299-305 | from width 0.2, W twice gives 0.8 and a further S gives 0.4 |
| View.RoundF32 | lib/fosphor/main.c:321 | single-precision rounding on [1/16, 1): the result is within 2^-25 of the exact sum and stays in [1/16, 1] |
| View.RatioKeyF32 | lib/fosphor/main.c:319-327 | the ratio keys on the `float` field as written: Q and E change nothing outside their guards, E lowers the ratio inside its guard, and the ratio stays in [0, 1) |
| View.RatioFloatLeavesBounds | lib/fosphor/main.c:324-326 | in single precision four E presses from 0.5 give 0.10000002, below 0.2, because the third leaves 0.20000002 which passes the guard; Q stops at 0.80000007 |
| Render.RatioValue | lib/fosphor/main.c:218-219 | the ratio copied into both records is the count of tenths over ten, in [0.2, 0.8] whenever the count is in [2, 8] |
| Render.TruncToInt | lib/fosphor/main.c:203 | conversion to int truncates toward zero: the result is within one of the value, on the side of zero |
| Render.SplitAt | lib/fosphor/main.c:203 | for a non-negative width the split point is floor(0.65 w), between 0 and w |
| Render.Clamp01 | lib/fosphor/main.c:232-236 | the clamp lands in [0,1], is the identity on [0,1], gives 0 below and 1 above |
| Render.DeriveMain | lib/fosphor/main.c:201-230 | the main view is 65 % wide with zoom and full width without, full height, carries the ratio, has FRO_CHANNELS iff zoom is on with other bits kept, and its channel 0 copies the unclamped zoom fields |
| Render.DeriveZoom | lib/fosphor/main.c:201-236 | with zoom the zoom view starts 10 pixels before the split and reaches the right edge; without, its geometry is kept; its frequency bounds are the clamped centre ± half width, always in [0,1] |
| Render.SplitGeometry | lib/fosphor/main.c:201-211 | with zoom: main width floor(0.65 w), zoom x = main width - 10, zoom x + zoom width = w, the widths add to w + 10, both heights are h |
| Render.FullWidthWithoutZoom | lib/fosphor/main.c:212-225 | without zoom the main view fills the window, loses FRO_CHANNELS, and the zoom geometry and options are left untouched |
| Render.DeriveIdempotent | lib/fosphor/main.c:195-236 | deriving the records twice from the same view state gives the same records |
| Render.FreqWindowOrdered | lib/fosphor/main.c:232-236 | a non-negative width gives start <= stop; a negative width can invert them |
| Render.FreqWindowClampedExample | lib/fosphor/main.c:232-236 | centre 2.0 and width 0.2 give start 1.0 and stop 1.0 |
| App.BatchBytes | lib/fosphor/main.c:165 | a batch is a positive number of bytes, 8 per complex sample |
| App.FillProgressRead | lib/fosphor/main.c:171-179 | after a successful read the filled prefix plus the remaining stream is still the whole batch |
| App.FillProgressRewind | lib/fosphor/main.c:172-175 | a read of 0 followed by a rewind leaves what is still to come unchanged |
| App.FillProgressDone | lib/fosphor/main.c:168-180 | when the loop's remaining count reaches 0 the filled bytes are exactly the batch of the looped stream and the position is where that batch ends |
| App.ReadOrRewind | lib/fosphor/main.c:171-175 | one pass of the loop body: a read that returns nothing (only at end of file) is followed by a rewind to 0, which aborts exactly when the source cannot be rewound; a read that returns bytes appends exactly the next bytes of the file to the buffer; either way the filled prefix plus what is still to come is the whole batch |
| App.FillBatch | lib/fosphor/main.c:164-180 | the loop ends with exactly the batch length written, equal to the looped stream from the old position, nothing past it touched; it aborts exactly when an unrewindable source runs out |
| App.AppState.constructor | lib/fosphor/main.c:397-416 | the initial view state, no engine, the defaults with ratio 0.35 and the zoom record without the power and time labels, a buffer of 8 x FFT length x max batch bytes |
| App.AppState.AttachEngine | lib/fosphor/main.c:427-434 | the engine is attached and receives the current reference and step |
| App.AppState.UpdateFosphor | lib/fosphor/main.c:195-246 | the records become the derivations of the view state; the view is unchanged; the power range is pushed only when the engine exists |
| App.AppState.OnReshape | lib/fosphor/main.c:248-267 | the new size (or the framebuffer size if either is negative) is stored, nothing else in the view changes, and the records are re-derived |
| App.AppState.StepView | lib/fosphor/main.c:279-328 | the switch of the key callback changes the view state exactly as the pure transition of the key, keeps the view invariant, and leaves the render records and engine logs alone |
| App.AppState.OnKey | lib/fosphor/main.c:269-331 | RELEASE changes nothing; ESCAPE quits with nothing changed; any other key applies its transition and re-derives the records, keeping the invariant |
| App.BatchAppend | lib/fosphor/main.c:164-183 | the concatenation of c+1 batches, each taken from where the previous left the position, is the first (c+1) x batch-length bytes of the looped stream |
| App.AppState.RenderFrame | lib/fosphor/main.c:163-189 | four full batches, consecutive in the looped stream, go to the engine, then the main view is drawn and the zoom view only when zoom is on; the view state is unchanged |
| App.Startup | lib/fosphor/main.c:403-434 | after start-up the window has the framebuffer size, the main view fills it without channel markers, the zoom window is [0.4,0.6], and the engine got reference 0 with step 10 |

## Findings

| source | as written | input that shows it | evidently intended | confidence | as-written member | corrected member |
|---|---|---|---|---|---|---|
| lib/fosphor/main.c:324-326 | `if (ratio > 0.2f) ratio -= 0.1f;` on a `float` that drifts above the decimal values | from the initial 0.5, E four times: 0.4, 0.3, 0.20000002 (passes the guard), then 0.10000002 | the ratio never drops below 0.2 (and never rises above 0.8 under Q) | high, derived from exact single-precision rounding; not executed | View.RatioFloatLeavesBounds | View.RatioSaturates |

## Left out

- The timing utilities (`gettimeofday` shim, `time_now`, `time_tic`, `time_toc`) and the 100-frame counter with its bandwidth estimate: clock reads, float arithmetic and console output used only for diagnostics.
- All OpenGL and GLFW calls (clear, projection and viewport set-up, buffer swap, window creation and clean-up, event polling, the close test of the main loop): external graphics I/O. The main loop itself is a repetition of `App.AppState.RenderFrame` driven by the window system.
- The bodies of `fosphor_init`, `fosphor_release`, `fosphor_process`, `fosphor_draw`, `fosphor_render_defaults`, `fosphor_render_refresh` and `fosphor_set_power_range`: engine code that is not part of this model; the calls that matter are logged, `fosphor_render_refresh` is a no-op and the defaults are a parameter.
- `main`'s argument handling, `fopen`, `malloc` and their failures, the exit codes, the failure of `fosphor_init`, and the `exit(0)` of ESCAPE (modelled as the `quit` result): process glue.
- App.FillBatch: requires a seekable source to be non-empty, because on an empty seekable file the loop of the source never ends (every read returns 0 and every rewind goes back to position 0, as the contracts of `Source.Read` and `Source.Rewind` show) and a Dafny method must terminate.
- App.FillBatch: reads from a pipe that return fewer bytes than are available, and read errors, are not modelled; a read returns all it can.
- IEEE floating point: the accumulated `0.1f` steps of `ratio` (modelled in exact tenths), `(int)(w * 0.65f)` (modelled with the exact 0.65, so the two can differ when 0.65 w is within a float rounding of an integer), the double-to-float casts of the channel marker and of the frequency bounds, NaN in the clamp, and rounding in the A/D pans (exact in reals, so `View.PanInverse` holds only for reals).
- View.RatioSaturates: the bounds [0.2, 0.8] of the ratio hold in exact tenths only; on the `float` field four E presses from the start reach 0.1 (`View.RatioFloatLeavesBounds`).
- View.ApplyKeyKeepsInv: its ratio bound [0.2, 0.8] holds in exact tenths only, for the same reason.
- View.RunKeysKeepsInv: its ratio bound [0.2, 0.8] holds in exact tenths only, for the same reason.
- View.UpDownInverse: `db_ref` is a C `int`; its overflow after some 10^8 key presses is not modelled.
- `lib/fosphor/cl_compat.h`: OpenCL prototypes and attribute macros only, no logic.

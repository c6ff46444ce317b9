/**
 The user-adjustable view parameters of the fosphor test harness (the scalar
 fields of `struct app_state`) and the key bindings that change them.
 */
module View {

  /** `k_db_per_div`: the dB-per-division steps, in ascending order. */
  const DB_PER_DIV: seq<int> := [1, 2, 5, 10, 20]

  /** Highest index of `DB_PER_DIV`, the bound tested by the RIGHT key. */
  const MAX_DB_PER_DIV_IDX := 4

  /** The `ratio` bounds, in tenths: Q steps only below 0.8, E only above 0.2. */
  const RATIO_MAX_TENTHS := 8
  const RATIO_MIN_TENTHS := 2

  /** Scalar state of `struct app_state`. `ratio` is counted in tenths; the
      zoom window is a pair of normalised frequencies that may leave [0,1]. */
  datatype ViewState = ViewState(
    w: int, h: int,
    dbRef: int, dbPerDivIdx: int,
    ratio: int,
    zoomWidth: real, zoomCenter: real,
    zoomEnable: int)

  /** The keys `glfw_cb_key` handles; any other key is `OtherKey`. */
  datatype Key = Escape | Up | Down | Left | Right | W | S | A | D | Z | Q | E | OtherKey(code: int)

  /** GLFW key actions. */
  datatype KeyAction = Release | Press | Repeat

  function DbPerDiv(idx: int): (step: int)
    requires 0 <= idx < |DB_PER_DIV|
    ensures 1 <= step <= 20
    ensures idx > 0 ==> step > DB_PER_DIV[idx - 1]
  {
    DB_PER_DIV[idx]
  }

  /** What holds of the view state from `main` on. */
  ghost predicate Inv(v: ViewState) {
    && 0 <= v.dbPerDivIdx <= MAX_DB_PER_DIV_IDX
    && RATIO_MIN_TENTHS <= v.ratio <= RATIO_MAX_TENTHS
    && (v.zoomEnable == 0 || v.zoomEnable == 1)
    && 0 <= v.w && 0 <= v.h
  }

  /** The state `main` sets before the window exists; the size and the zoom
      switch are still the zeroes of the static `_g_as`. */
  function Initial(): (v: ViewState)
    ensures Inv(v)
  {
    ViewState(0, 0, 0, 3, 5, 0.2, 0.5, 0)
  }

  /** `zoom_enable ^= 1` on a two's-complement int: flips the lowest bit. */
  function Toggle(z: int): (t: int)
    ensures t % 2 != z % 2
    ensures t / 2 == z / 2
    ensures t - z == 1 || z - t == 1
  {
    if z % 2 == 0 then z + 1 else z - 1
  }

  /** The field changes `glfw_cb_key` makes for one PRESS or REPEAT of `k`;
      ESCAPE ends the process and is handled by the caller. */
  function ApplyKey(v: ViewState, k: Key): (r: ViewState)
    requires 0 <= v.dbPerDivIdx < |DB_PER_DIV|
    ensures 0 <= r.dbPerDivIdx < |DB_PER_DIV|
    ensures r.w == v.w && r.h == v.h
    ensures k == Escape || k.OtherKey? ==> r == v
  {
    match k
    case Up => v.(dbRef := v.dbRef - DbPerDiv(v.dbPerDivIdx))
    case Down => v.(dbRef := v.dbRef + DbPerDiv(v.dbPerDivIdx))
    case Left => if v.dbPerDivIdx > 0 then v.(dbPerDivIdx := v.dbPerDivIdx - 1) else v
    case Right => if v.dbPerDivIdx < MAX_DB_PER_DIV_IDX then v.(dbPerDivIdx := v.dbPerDivIdx + 1) else v
    case W => v.(zoomWidth := v.zoomWidth * 2.0)
    case S => v.(zoomWidth := v.zoomWidth / 2.0)
    case A => v.(zoomCenter := v.zoomCenter - v.zoomWidth / 8.0)
    case D => v.(zoomCenter := v.zoomCenter + v.zoomWidth / 8.0)
    case Z => v.(zoomEnable := Toggle(v.zoomEnable))
    case Q => if v.ratio < RATIO_MAX_TENTHS then v.(ratio := v.ratio + 1) else v
    case E => if v.ratio > RATIO_MIN_TENTHS then v.(ratio := v.ratio - 1) else v
    case Escape => v
    case OtherKey(_) => v
  }

  /** `glfw_cb_reshape` with a usable size. */
  function Resize(v: ViewState, w: int, h: int): (r: ViewState)
    ensures r.w == w && r.h == h
    ensures r.(w := v.w, h := v.h) == v
  {
    v.(w := w, h := h)
  }

  /** The view state after a sequence of key presses. */
  function RunKeys(v: ViewState, keys: seq<Key>): (r: ViewState)
    requires 0 <= v.dbPerDivIdx < |DB_PER_DIV|
    ensures 0 <= r.dbPerDivIdx < |DB_PER_DIV|
    decreases |keys|
  {
    if keys == [] then v else RunKeys(ApplyKey(v, keys[0]), keys[1..])
  }

  /** Each key keeps the invariant: the index saturates at 0 and 4, the
      ratio at 2 and 8 tenths, and the zoom switch stays 0 or 1. */
  lemma ApplyKeyKeepsInv(v: ViewState, k: Key)
    requires Inv(v)
    ensures Inv(ApplyKey(v, k))
  {
  }

  /** Any sequence of keys keeps the invariant, so every later
      `k_db_per_div[db_per_div_idx]` lookup is in bounds. */
  lemma {:induction false} RunKeysKeepsInv(v: ViewState, keys: seq<Key>)
    requires Inv(v)
    ensures Inv(RunKeys(v, keys))
    decreases |keys|
  {
    if keys != [] {
      ApplyKeyKeepsInv(v, keys[0]);
      RunKeysKeepsInv(ApplyKey(v, keys[0]), keys[1..]);
    }
  }

  /** A key changes only the field it is bound to; the size never changes. */
  lemma KeyChangesOnlyItsField(v: ViewState, k: Key)
    requires 0 <= v.dbPerDivIdx < |DB_PER_DIV|
    ensures ApplyKey(v, k).w == v.w && ApplyKey(v, k).h == v.h
    ensures ApplyKey(v, k).dbRef != v.dbRef ==> k == Up || k == Down
    ensures ApplyKey(v, k).dbPerDivIdx != v.dbPerDivIdx ==> k == Left || k == Right
    ensures ApplyKey(v, k).ratio != v.ratio ==> k == Q || k == E
    ensures ApplyKey(v, k).zoomWidth != v.zoomWidth ==> k == W || k == S
    ensures ApplyKey(v, k).zoomCenter != v.zoomCenter ==> k == A || k == D
    ensures ApplyKey(v, k).zoomEnable != v.zoomEnable ==> k == Z
  {
  }

  /** LEFT and RIGHT move the index by one, and leave it unchanged at the
      ends of the table. */
  lemma StepIndexSaturates(v: ViewState)
    requires Inv(v)
    ensures ApplyKey(v, Left).dbPerDivIdx == if v.dbPerDivIdx == 0 then 0 else v.dbPerDivIdx - 1
    ensures ApplyKey(v, Right).dbPerDivIdx == if v.dbPerDivIdx == MAX_DB_PER_DIV_IDX then v.dbPerDivIdx else v.dbPerDivIdx + 1
    ensures v.dbPerDivIdx == 0 ==> ApplyKey(v, Left) == v
    ensures v.dbPerDivIdx == MAX_DB_PER_DIV_IDX ==> ApplyKey(v, Right) == v
  {
  }

  /** Q and E move the ratio by one tenth, and leave it unchanged at 0.8 and
      0.2 respectively. */
  lemma RatioSaturates(v: ViewState)
    requires Inv(v)
    ensures ApplyKey(v, Q).ratio == if v.ratio == RATIO_MAX_TENTHS then v.ratio else v.ratio + 1
    ensures ApplyKey(v, E).ratio == if v.ratio == RATIO_MIN_TENTHS then v.ratio else v.ratio - 1
  {
  }

  /** UP and DOWN move the reference by the current step, in opposite
      directions, so each undoes the other. */
  lemma UpDownInverse(v: ViewState)
    requires 0 <= v.dbPerDivIdx < |DB_PER_DIV|
    ensures ApplyKey(v, Up).dbRef == v.dbRef - DB_PER_DIV[v.dbPerDivIdx]
    ensures ApplyKey(ApplyKey(v, Up), Down) == v
    ensures ApplyKey(ApplyKey(v, Down), Up) == v
  {
  }

  /** W and S double and halve the zoom width, so each undoes the other. */
  lemma WidenNarrowInverse(v: ViewState)
    requires 0 <= v.dbPerDivIdx < |DB_PER_DIV|
    ensures ApplyKey(v, W).zoomWidth == 2.0 * v.zoomWidth && ApplyKey(v, S).zoomWidth == v.zoomWidth / 2.0
    ensures ApplyKey(ApplyKey(v, W), S) == v
    ensures ApplyKey(ApplyKey(v, S), W) == v
  {
  }

  /** A and D pan by an eighth of the width, so each undoes the other. */
  lemma PanInverse(v: ViewState)
    requires 0 <= v.dbPerDivIdx < |DB_PER_DIV|
    ensures ApplyKey(v, A).zoomCenter == v.zoomCenter - v.zoomWidth / 8.0
    ensures ApplyKey(v, D).zoomCenter == v.zoomCenter + v.zoomWidth / 8.0
    ensures ApplyKey(ApplyKey(v, A), D) == v
    ensures ApplyKey(ApplyKey(v, D), A) == v
  {
  }

  /** Z flips the zoom switch between 0 and 1, and twice is no change. */
  lemma ToggleZoom(v: ViewState)
    requires Inv(v)
    ensures ApplyKey(v, Z).zoomEnable == 1 - v.zoomEnable
    ensures ApplyKey(ApplyKey(v, Z), Z) == v
  {
  }

  /** `n` presses of UP lower the reference by `n` steps. */
  lemma {:induction false} RepeatedUp(v: ViewState, n: nat)
    requires 0 <= v.dbPerDivIdx < |DB_PER_DIV|
    ensures RunKeys(v, seq(n, _ => Up)) == v.(dbRef := v.dbRef - n * DB_PER_DIV[v.dbPerDivIdx])
    decreases n
  {
    if n > 0 {
      var keys := seq(n, _ => Up);
      assert keys[0] == Up;
      assert keys[1..] == seq(n - 1, _ => Up);
      RepeatedUp(ApplyKey(v, Up), n - 1);
    }
  }

  /** From the initial state (step 10 dB, reference 0) three UPs give -30. */
  lemma ThreeUpsFromInitial()
    ensures RunKeys(Initial(), [Up, Up, Up]).dbRef == -30
  {
    RepeatedUp(Initial(), 3);
    assert seq(3, _ => Up) == [Up, Up, Up];
  }

  /** From a zoom width of 0.2, W twice gives 0.8, then S gives 0.4. */
  lemma ZoomWidthScenario()
    ensures RunKeys(Initial(), [W, W]).zoomWidth == 0.8
    ensures RunKeys(Initial(), [W, W, S]).zoomWidth == 0.4
  {
  }

  /** The single-precision constants of the ratio keys, as exact rationals:
      `0.1f`, `0.2f` and `0.8f`. */
  const F32_TENTH: real := 13421773.0 / 134217728.0
  const F32_TWO_TENTHS: real := 13421773.0 / 67108864.0
  const F32_EIGHT_TENTHS: real := 13421773.0 / 16777216.0

  /** Rounding to the nearest integer, ties to even. */
  function RoundHalfEven(q: real): (m: int)
    ensures q.Floor <= m <= q.Floor + 1
    ensures -0.5 <= m as real - q <= 0.5
  {
    var n := q.Floor;
    var frac := q - n as real;
    if frac < 0.5 then n else if frac > 0.5 then n + 1 else if n % 2 == 0 then n else n + 1
  }

  /** Rounding of a real in [1/16, 1) to the nearest single-precision value
      (24-bit significand), ties to even: within half a unit in the last
      place, which is at most 2^-25 there. */
  function RoundF32(x: real): (y: real)
    requires 1.0 / 16.0 <= x < 1.0
    ensures 1.0 / 16.0 <= y <= 1.0
    ensures -1.0 / 33554432.0 <= y - x <= 1.0 / 33554432.0
  {
    if x >= 0.5 then RoundHalfEven(x * 16777216.0) as real / 16777216.0
    else if x >= 0.25 then RoundHalfEven(x * 33554432.0) as real / 33554432.0
    else if x >= 0.125 then RoundHalfEven(x * 67108864.0) as real / 67108864.0
    else RoundHalfEven(x * 134217728.0) as real / 134217728.0
  }

  /** The ratio keys as written, on the `float` field: Q adds `0.1f` while the
      ratio is below `0.8f`, E subtracts it while the ratio is above `0.2f`,
      each sum rounded to single precision. */
  function RatioKeyF32(ratio: real, k: Key): (r: real)
    requires 0.0 <= ratio < 1.0
    ensures 0.0 <= r < 1.0
    ensures k != Q && k != E ==> r == ratio
    ensures k == Q && ratio >= F32_EIGHT_TENTHS ==> r == ratio
    ensures k == E && ratio <= F32_TWO_TENTHS ==> r == ratio
    ensures k == E && ratio > F32_TWO_TENTHS ==> r < ratio
  {
    if k == Q && ratio < F32_EIGHT_TENTHS then RoundF32(ratio + F32_TENTH)
    else if k == E && ratio > F32_TWO_TENTHS then RoundF32(ratio - F32_TENTH)
    else ratio
  }

  /** On the `float` field the lower guard lets a fourth E through: from 0.5
      the ratio goes to 0.4, 0.3 and 0.20000002 (still above `0.2f`), then to
      0.10000002, below the 0.2 the guard is meant to keep. Q stops at
      0.80000007, just above 0.8. */
  lemma RatioFloatLeavesBounds()
    ensures RatioKeyF32(RatioKeyF32(RatioKeyF32(RatioKeyF32(0.5, E), E), E), E) == 13421775.0 / 134217728.0
    ensures 13421775.0 / 134217728.0 < 0.2 && 13421775.0 / 134217728.0 < F32_TWO_TENTHS
    ensures RatioKeyF32(RatioKeyF32(RatioKeyF32(0.5, Q), Q), Q) == 6710887.0 / 8388608.0
    ensures 6710887.0 / 8388608.0 > 0.8 && RatioKeyF32(6710887.0 / 8388608.0, Q) == 6710887.0 / 8388608.0
  {
  }
}

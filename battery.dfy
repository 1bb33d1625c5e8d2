/** The simulated charge of the mouse: the per-tick update of `currentBattery`
    performed by `TimerElapsed`, and what repeated ticks do to it. Single-precision
    `float` arithmetic is modelled with `real`. */
module Battery {

  /** Percentage points gained per tick while the mouse is wired (charging). */
  const BatteryIncreaseRate: real := 1.1
  /** Percentage points lost per tick while the mouse runs on its battery. */
  const BatteryDecreaseRate: real := 0.05

  /** The range the estimate is clamped to after every tick. */
  const Empty: real := 0.0
  const Full: real := 100.0

  function Min(a: real, b: real): real { if a <= b then a else b }
  function Max(a: real, b: real): real { if a <= b then b else a }
  function Abs(x: real): real { if x < 0.0 then -x else x }

  /** `Clamp(min, max, current)`: the upper bound is tested before the lower one,
      so when `min > max` a value above `max` still yields `max`. */
  function Clamp(min: real, max: real, current: real): (r: real)
    ensures r == current || r == min || r == max
    ensures current > max ==> r == max
    ensures current <= max && current < min ==> r == min
    ensures min <= max ==> min <= r <= max
    ensures min <= max ==> (r == current <==> min <= current <= max)
  {
    if current > max then max
    else if current < min then min
    else current
  }

  /** On a well-formed range, the clamped value is the point of [min, max]
      nearest to `current`. */
  lemma ClampIsNearest(min: real, max: real, current: real, y: real)
    requires min <= max
    requires min <= y <= max
    ensures Abs(Clamp(min, max, current) - current) <= Abs(y - current)
  {
  }

  /** The value `TimerElapsed` leaves in `currentBattery`: step by the rate the
      charging flag selects, then clamp to [Empty, Full]. Whatever the value
      before the tick (the value loaded at start-up is not clamped), the value
      after it is in range. */
  function TickValue(battery: real, charging: bool): (r: real)
    ensures Empty <= r <= Full
    ensures charging ==> r >= Min(battery, Full)
    ensures !charging ==> r <= Max(battery, Empty)
  {
    Clamp(Empty, Full, if charging then battery + BatteryIncreaseRate else battery - BatteryDecreaseRate)
  }

  /** From a value in range, a charging tick gives min(100, old + 1.1) and a
      discharging tick gives max(0, old - 0.05). */
  lemma TickFormula(battery: real, charging: bool)
    requires Empty <= battery <= Full
    ensures charging ==> TickValue(battery, charging) == Min(Full, battery + BatteryIncreaseRate)
    ensures !charging ==> TickValue(battery, charging) == Max(Empty, battery - BatteryDecreaseRate)
  {
  }

  /** The estimate after `n` consecutive ticks with the same charging flag. */
  function Ticks(battery: real, charging: bool, n: nat): (r: real)
    ensures n > 0 ==> Empty <= r <= Full
  {
    if n == 0 then battery else TickValue(Ticks(battery, charging, n - 1), charging)
  }

  /** Closed form of repeated charging ticks from a value in range. */
  lemma {:induction false} ChargingClosedForm(battery: real, n: nat)
    requires Empty <= battery <= Full
    ensures Ticks(battery, true, n) == Min(Full, battery + n as real * BatteryIncreaseRate)
  {
    if n > 0 {
      ChargingClosedForm(battery, n - 1);
    }
  }

  /** Closed form of repeated discharging ticks from a value in range. */
  lemma {:induction false} DischargingClosedForm(battery: real, n: nat)
    requires Empty <= battery <= Full
    ensures Ticks(battery, false, n) == Max(Empty, battery - n as real * BatteryDecreaseRate)
  {
    if n > 0 {
      DischargingClosedForm(battery, n - 1);
    }
  }

  /** Charging ticks never lower the estimate, reach Full once enough ticks
      have elapsed, and stay at Full from then on. */
  lemma ChargingRecovers(battery: real, n: nat, m: nat)
    requires Empty <= battery <= Full
    requires n <= m
    ensures Ticks(battery, true, n) <= Ticks(battery, true, m)
    ensures n as real * BatteryIncreaseRate >= Full - battery ==> Ticks(battery, true, n) == Full
    ensures Ticks(battery, true, n) == Full ==> Ticks(battery, true, m) == Full
  {
    ChargingClosedForm(battery, n);
    ChargingClosedForm(battery, m);
  }

  /** Discharging ticks never raise the estimate, reach Empty once enough
      ticks have elapsed, and stay at Empty from then on. */
  lemma DischargingDrains(battery: real, n: nat, m: nat)
    requires Empty <= battery <= Full
    requires n <= m
    ensures Ticks(battery, false, m) <= Ticks(battery, false, n)
    ensures n as real * BatteryDecreaseRate >= battery ==> Ticks(battery, false, n) == Empty
    ensures Ticks(battery, false, n) == Empty ==> Ticks(battery, false, m) == Empty
  {
    DischargingClosedForm(battery, n);
    DischargingClosedForm(battery, m);
  }

  /** 20 % on battery power becomes 19.95 %; 99.5 % while charging becomes 100 %. */
  lemma TickScenarios()
    ensures TickValue(20.0, false) == 19.95
    ensures TickValue(99.5, true) == Full
  {
  }
}

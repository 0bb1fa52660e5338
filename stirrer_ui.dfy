/** The stirrer control panel: a slider that sets the target in RPM or in
    mean shear rate, the commands it writes to the Arduino (`S <rpm>`,
    `START`, `STOP`, `T <seconds>`), and the lines it reads back (the time
    left of a timed run, or a `setpoint,rpm,pwm` sample). */
module Stirrer {
  import opened Wrappers
  import Text
  import opened ShearConversion
  import opened RpmTrace

  datatype Mode = RpmMode | ShearMode

  /** `int(x)` for a float: truncation toward zero. */
  function Trunc(x: real): (n: int)
    ensures x >= 0.0 ==> n as real <= x < n as real + 1.0
    ensures x < 0.0 ==> n as real - 1.0 < x <= n as real
  {
    if x >= 0.0 then x.Floor else -((-x).Floor)
  }

  /** `max(lo, min(hi, x))`. */
  function Clamp(lo: int, hi: int, x: int): (r: int)
    requires lo <= hi
    ensures lo <= r <= hi
    ensures lo <= x <= hi ==> r == x
    ensures x < lo ==> r == lo
    ensures x > hi ==> r == hi
  {
    if x < lo then lo else if x > hi then hi else x
  }

  /** The slider's `from_` in each mode. */
  function SliderMin(mode: Mode): int
  {
    if mode == RpmMode then RpmMin else ShearMin
  }

  /** The slider's `to` in each mode. */
  function SliderMax(mode: Mode): int
  {
    if mode == RpmMode then RpmMax else ShearMax
  }

  /** The slider's `resolution` in each mode. */
  function Resolution(mode: Mode): int
  {
    if mode == RpmMode then 100 else 50
  }

  /** Tk's rounding of a value to a scale's resolution: to the nearest step
      counted from `from_`, a half step rounding up. */
  function RoundToResolution(from: int, res: int, v: int): (r: int)
    requires res > 0
    ensures r - res / 2 <= v < r + (res - res / 2)
  {
    from + res * ((v - from + res / 2) / res)
  }

  /** What a Tk scale over `from_..to` leaves in its linked variable after
      the variable is set to `v`: `v` itself, unrounded, unless `v` rounded
      to the resolution falls outside the range, in which case the nearer
      end is written back. On a range that is a whole number of steps, the
      values kept are exactly those less than half a step outside it. */
  function Hold(from: int, to: int, res: int, v: int): (h: int)
    requires from <= to && res > 0
    ensures h == v || h == from || h == to
    ensures (to - from) % res == 0 ==>
      && (h == v <==> from - res / 2 <= v < to + (res - res / 2))
      && (v < from - res / 2 ==> h == from)
      && (v >= to + (res - res / 2) ==> h == to)
  {
    var r := RoundToResolution(from, res, v);
    StepsOutside(from, to, res, v);
    if r < from then from else if r > to then to else v
  }

  /** On a range of whole steps, `v` rounds below `from_` exactly when it is
      more than half a step below it, and above `to` exactly when it is at
      least half a step above it. */
  lemma StepsOutside(from: int, to: int, res: int, v: int)
    requires from <= to && res > 0
    ensures RoundToResolution(from, res, v) < from <==> v < from - res / 2
    ensures (to - from) % res == 0 ==>
      (RoundToResolution(from, res, v) > to <==> v >= to + (res - res / 2))
  {
    var q := (v - from + res / 2) / res;
    assert res * q <= v - from + res / 2 < res * q + res;
    if q < 0 {
      assert res * q <= -res by { MulMonotone(res, q, -1); }
    } else {
      assert res * q >= 0 by { MulMonotone(res, 0, q); }
    }
    if (to - from) % res == 0 {
      var k := (to - from) / res;
      assert to - from == res * k;
      if q > k {
        assert res * q >= res * (k + 1) by { MulMonotone(res, k + 1, q); }
      } else {
        assert res * q <= res * k by { MulMonotone(res, q, k); }
      }
    }
  }

  lemma MulMonotone(res: int, a: int, b: int)
    requires res > 0 && a <= b
    ensures res * a <= res * b
  {
    assert res * b - res * a == res * (b - a);
  }

  /** A value already on the resolution's grid rounds to itself. */
  lemma RoundOnGrid(from: int, res: int, k: int)
    requires res > 0
    ensures RoundToResolution(from, res, from + res * k) == from + res * k
  {
    var q := (res * k + res / 2) / res;
    assert RoundToResolution(from, res, from + res * k) == from + res * q;
    if q > k {
      MulMonotone(res, k + 1, q);
    } else if q < k {
      MulMonotone(res, q, k - 1);
    }
  }

  /** The position the slider of `mode` shows for the variable's value `v`:
      `v` rounded to the resolution and kept within the range. A value
      within the range is shown less than half a step from itself. */
  function Shown(mode: Mode, v: int): (p: int)
    ensures SliderMin(mode) <= p <= SliderMax(mode)
    ensures var res := Resolution(mode);
      SliderMin(mode) <= v <= SliderMax(mode) ==> p - res / 2 <= v < p + (res - res / 2)
  {
    StepsOutside(SliderMin(mode), SliderMax(mode), Resolution(mode), v);
    Clamp(SliderMin(mode), SliderMax(mode), RoundToResolution(SliderMin(mode), Resolution(mode), v))
  }

  /** A shown position is shown as itself, and the slider keeps it. */
  lemma {:induction false} ShownIsFixed(mode: Mode, v: int)
    ensures Shown(mode, Shown(mode, v)) == Shown(mode, v)
    ensures Held(mode, Shown(mode, v)) == Shown(mode, v)
  {
    var lo, hi, res := SliderMin(mode), SliderMax(mode), Resolution(mode);
    var p := Shown(mode, v);
    var q := (v - lo + res / 2) / res;
    var k := (hi - lo) / res;
    assert hi == lo + res * k;
    if p == lo {
      RoundOnGrid(lo, res, 0);
    } else if p == hi {
      RoundOnGrid(lo, res, k);
    } else {
      assert p == lo + res * q;
      RoundOnGrid(lo, res, q);
    }
  }

  /** The value 499 s⁻¹ that the shear slider keeps is shown at 500 s⁻¹. */
  lemma ShearBelowRangeShownAtMin()
    ensures Held(ShearMode, 499) == 499
    ensures Shown(ShearMode, 499) == ShearMin
  {
    assert RoundToResolution(ShearMin, 50, 499) == 500;
  }

  /** What the slider of `mode` keeps after `target_var.set(v)`: every value
      from 950 to 7549 in RPM mode, from 475 to 3824 s⁻¹ in shear mode, and
      otherwise the nearer end of the range. */
  function Held(mode: Mode, v: int): (h: int)
    ensures mode == RpmMode ==>
      && (h == v <==> 950 <= v < 7550) && (v < 950 ==> h == RpmMin) && (v >= 7550 ==> h == RpmMax)
    ensures mode == ShearMode ==>
      && (h == v <==> 475 <= v < 3825) && (v < 475 ==> h == ShearMin) && (v >= 3825 ==> h == ShearMax)
  {
    Hold(SliderMin(mode), SliderMax(mode), Resolution(mode), v)
  }

  /** The setting remembered in both units and the new slider value. */
  datatype Slider = Slider(lastRpm: real, lastShear: real, target: int)

  /** `update_slider_mode`: the slider value is read in the unit of the mode
      it was in and converted; the slider takes the range of the selected
      mode, and the truncated value set on it is held as a Tk scale holds
      its variable. The two remembered values always describe the same
      setting, and the slider keeps the new value if set to it again. */
  function SwitchSlider(previous: Mode, selected: Mode, target: int): (s: Slider)
    ensures s.lastShear == RpmToShear(LinearSegments, s.lastRpm)
    ensures previous == RpmMode ==> s.lastRpm == target as real
    ensures previous == ShearMode ==> s.lastShear == target as real
    ensures s.target == Held(selected, Trunc(if selected == RpmMode then s.lastRpm else s.lastShear))
    ensures Held(selected, s.target) == s.target
  {
    SimulationSegments();
    RpmOfShearInverts(LinearSegments, target as real);
    var rpm := if previous == RpmMode then target as real else ShearToRpm(LinearSegments, target as real);
    var shear := if previous == RpmMode then RpmToShear(LinearSegments, target as real) else target as real;
    var held := Held(selected, Trunc(if selected == RpmMode then rpm else shear));
    HeldIsKept(selected, Trunc(if selected == RpmMode then rpm else shear));
    Slider(rpm, shear, held)
  }

  /** A value the slider has held is kept if set again. */
  lemma HeldIsKept(mode: Mode, v: int)
    ensures Held(mode, Held(mode, v)) == Held(mode, v)
  {
    var h := Held(mode, v);
    assert h == v || h == SliderMin(mode) || h == SliderMax(mode);
  }

  /** Re-selecting the mode the slider is already in leaves a value the
      slider keeps alone and moves any other to the nearer end. */
  lemma SameModeKeepsTarget(m: Mode, target: int)
    ensures SwitchSlider(m, m, target).target == Held(m, target)
  {
  }

  /** `shear_to_rpm` is increasing too. */
  lemma ShearToRpmMonotone(g1: real, g2: real)
    requires g1 <= g2
    ensures WellFormed(LinearSegments)
    ensures ShearToRpm(LinearSegments, g1) <= ShearToRpm(LinearSegments, g2)
  {
    SimulationSegments();
    var r1, r2 := ShearToRpm(LinearSegments, g1), ShearToRpm(LinearSegments, g2);
    if r1 > r2 {
      RpmToShearIncreasing(LinearSegments, r2, r1);
      RpmOfShearInverts(LinearSegments, g1);
      RpmOfShearInverts(LinearSegments, g2);
    }
  }

  /** Every shear rate the shear slider keeps converts to a speed within
      the RPM slider's range, so switching to RPM mode lands in range. */
  lemma ShearSliderMapsIntoRpmRange(t: int)
    requires Held(ShearMode, t) == t
    ensures RpmMin <= SwitchSlider(ShearMode, RpmMode, t).target <= RpmMax
  {
    SimulationSegments();
    ShearToRpmMonotone(451.5, t as real);
    ShearOfRpmInverts(LinearSegments, 1000.0);
    ShearToRpmMonotone(t as real, 3869.5);
    ShearOfRpmInverts(LinearSegments, 7500.0);
  }

  /** From 1047 RPM up, switching from RPM to shear rate and back never
      raises the speed target: both conversions truncate, and the shear
      slider can only lower a value above its top. */
  lemma RoundTripNeverRaises(rpm: int)
    requires 1047 <= rpm <= RpmMax
    ensures var shear := SwitchSlider(RpmMode, ShearMode, rpm);
      SwitchSlider(ShearMode, RpmMode, shear.target).target <= rpm
  {
    SimulationSegments();
    var g := RpmToShear(LinearSegments, rpm as real);
    AboveShearSliderKeep(rpm);
    var t := SwitchSlider(RpmMode, ShearMode, rpm).target;
    HeldNotAbove(ShearMode, Trunc(g));
    ReadBackNoFaster(t, rpm);
  }

  /** A value no lower than the lowest the slider keeps is never raised. */
  lemma HeldNotAbove(mode: Mode, v: int)
    requires v >= SliderMin(mode) - Resolution(mode) / 2
    ensures Held(mode, v) <= v
  {
  }

  /** From 1047 RPM up the shear rate is at least 475 s⁻¹, the lowest value
      the shear slider keeps. */
  lemma AboveShearSliderKeep(rpm: int)
    requires 1047 <= rpm
    ensures WellFormed(LinearSegments)
    ensures RpmToShear(LinearSegments, rpm as real) >= 475.0
  {
    SimulationSegments();
    Extrapolation(LinearSegments, 1047.0);
    if rpm > 1047 {
      RpmToShearIncreasing(LinearSegments, 1047.0, rpm as real);
    }
  }

  /** A shear slider value no higher than the shear rate of `rpm` reads
      back as a speed no faster than `rpm`. */
  lemma ReadBackNoFaster(t: int, rpm: int)
    requires RpmMin <= rpm <= RpmMax
    requires t as real <= RpmToShear(LinearSegments, rpm as real)
    ensures SwitchSlider(ShearMode, RpmMode, t).target <= rpm
  {
    SimulationSegments();
    ShearToRpmMonotone(t as real, RpmToShear(LinearSegments, rpm as real));
    ShearOfRpmInverts(LinearSegments, rpm as real);
  }

  /** Below that the shear slider's `from_` of 500 s⁻¹ takes over: every
      speed from 1000 to 1046 RPM reads below 475 s⁻¹ and is held at
      500 s⁻¹, which reads back 1095 RPM, so the round trip raises it. */
  lemma LowSpeedsRaised(rpm: int)
    requires RpmMin <= rpm <= 1046
    ensures SwitchSlider(RpmMode, ShearMode, rpm).target == ShearMin
    ensures SwitchSlider(ShearMode, RpmMode, ShearMin).target == 1095
  {
    SimulationSegments();
    Extrapolation(LinearSegments, rpm as real);
    assert RpmToShear(LinearSegments, rpm as real) < 475.0;
    ShearAt500();
  }

  /** `shear_to_rpm(500)` lies between 1095 and 1096 RPM. */
  lemma ShearAt500()
    ensures WellFormed(LinearSegments)
    ensures 1095.0 <= ShearToRpm(LinearSegments, 500.0) < 1096.0
  {
    SimulationSegments();
    assert ShearSegmentFrom(LinearSegments, 500.0, 0) == 0;
    assert ShearToRpm(LinearSegments, 500.0) == 1110000.0 / 1013.0;
  }

  /** Between the two bands the shear slider keeps a value below its
      `from_`: 1095 RPM reads 499 s⁻¹, which stays on the slider and reads
      back 1093 RPM. */
  lemma ShearBelowRangeKept()
    ensures SwitchSlider(RpmMode, ShearMode, 1095).target == 499
    ensures SwitchSlider(ShearMode, RpmMode, 499).target == 1093
  {
    SimulationSegments();
    Extrapolation(LinearSegments, 1095.0);
    assert RpmToShear(LinearSegments, 1095.0) == 1109235.0 / 2000.0 - 55.0;
    assert ShearSegmentFrom(LinearSegments, 499.0, 0) == 0;
    assert ShearToRpm(LinearSegments, 499.0) == 1108000.0 / 1013.0;
  }

  /** The speed `apply_target` sends for the slider value: the value itself
      in RPM mode, its truncated conversion in shear mode, clamped to the
      motor's range either way. */
  function Setpoint(mode: Mode, target: int): (rpm: int)
    ensures RpmMin <= rpm <= RpmMax
    ensures mode == RpmMode ==> rpm == Clamp(RpmMin, RpmMax, target)
  {
    SimulationSegments();
    Clamp(RpmMin, RpmMax, if mode == RpmMode then target else Trunc(ShearToRpm(LinearSegments, target as real)))
  }

  /** In shear mode the speed sent is the fastest whole RPM whose shear rate
      does not exceed the target, whenever the exact speed is in range. */
  lemma ShearSetpointIsFloor(target: int)
    requires RpmMin as real <= ShearToRpm(LinearSegments, target as real) <= RpmMax as real
    ensures var rpm := Setpoint(ShearMode, target);
      RpmToShear(LinearSegments, rpm as real) <= target as real < RpmToShear(LinearSegments, rpm as real + 1.0)
  {
    SimulationSegments();
    var exact := ShearToRpm(LinearSegments, target as real);
    assert Setpoint(ShearMode, target) == Trunc(exact);
    RpmOfShearInverts(LinearSegments, target as real);
    StepBrackets(Trunc(exact) as real, exact);
  }

  /** A speed at most one below another, and one whole step above that,
      have shear rates on either side of the other's shear rate. */
  lemma StepBrackets(n: real, x: real)
    requires n <= x < n + 1.0
    ensures WellFormed(LinearSegments)
    ensures RpmToShear(LinearSegments, n) <= RpmToShear(LinearSegments, x) < RpmToShear(LinearSegments, n + 1.0)
  {
    SimulationWellFormed();
    if n < x {
      RpmToShearIncreasing(LinearSegments, n, x);
    }
    RpmToShearIncreasing(LinearSegments, x, n + 1.0);
  }

  /** `f"S {rpm}\n"` and `f"T {runtime}\n"`: a command letter, a space,
      the number and a newline; the Arduino reads the number back from
      between the space and the newline. */
  function Command(tag: char, n: int): (line: string)
    ensures |line| >= 4 && line[0] == tag && line[1] == ' ' && line[|line| - 1] == '\n'
    ensures n >= 0 ==> Text.ReadsAs(line[2..|line| - 1], n)
  {
    if n >= 0 then Text.FramedNat([tag, ' '], n, "\n"); [tag, ' '] + Text.IntToString(n) + "\n"
    else [tag, ' '] + Text.IntToString(n) + "\n"
  }

  const TimeLeftForever: string := "Time left: \U{221E}"

  /** `f"Time left: {s//60:02d}:{s%60:02d}"` with `s = int(v) // 1000`: a
      countdown, never the infinity sign. */
  function TimeLeftText(ms: int): (text: string)
    ensures Text.StartsWith(text, "Time left: ")
    ensures text != TimeLeftForever
  {
    var s := ms / 1000;
    var text := "Time left: " + Text.Pad2(s / 60) + ":" + Text.Pad2(s % 60);
    assert text[11] == Text.Pad2(s / 60)[0];
    text
  }

  /** A non-negative time left reads back as whole minutes and a two-digit
      count of seconds that together make `ms // 1000` seconds. */
  lemma TimeLeftReadsBack(ms: nat)
    ensures exists mm, ss ::
      && TimeLeftText(ms) == "Time left: " + mm + ":" + ss
      && |ss| == 2 && |mm| >= 2
      && (forall k :: 0 <= k < |mm| ==> Text.IsDigit(mm[k]))
      && (forall k :: 0 <= k < |ss| ==> Text.IsDigit(ss[k]))
      && Text.ParseDigits(ss) < 60
      && Text.ParseDigits(mm) * 60 + Text.ParseDigits(ss) == ms / 1000
  {
    var s := ms / 1000;
    Text.Pad2Digits(s / 60);
    Text.Pad2Digits(s % 60);
    var mm, ss := Text.Pad2(s / 60), Text.Pad2(s % 60);
    assert TimeLeftText(ms) == "Time left: " + mm + ":" + ss;
  }

  /** What one line read from the Arduino does. */
  datatype Reading = Ignored | TimeLeft(text: string) | Sample(rpm: real, pwm: string)

  /** The body of the `serial_reader` loop for one stripped line. A line
      that does not split into the expected fields, or whose number does
      not parse, raises inside the `try` and is dropped. */
  function ReadLine(line: string, parseInt: string -> Option<int>, parseReal: string -> Option<real>): (r: Reading)
    ensures r.Sample? ==>
      var fields := Text.Split(line, ',');
      && !Text.StartsWith(line, "TIME_LEFT")
      && |fields| == 3 && parseReal(fields[1]) == Some(r.rpm) && r.pwm == fields[2]
    ensures r.TimeLeft? ==> Text.StartsWith(line, "TIME_LEFT") && |Text.Split(line, ',')| == 2
  {
    if line == [] then Ignored
    else if Text.StartsWith(line, "TIME_LEFT") then
      var fields := Text.Split(line, ',');
      if |fields| != 2 then Ignored
      else if fields[1] == "INF" then TimeLeft(TimeLeftForever)
      else match parseInt(fields[1])
        case None => Ignored
        case Some(ms) => TimeLeft(TimeLeftText(ms))
    else
      var fields := Text.Split(line, ',');
      if |fields| != 3 then Ignored
      else match parseReal(fields[1])
        case None => Ignored
        case Some(rpm) => Sample(rpm, fields[2])
  }

  /** A well-formed sample line is read as its speed and PWM fields. */
  lemma ReadsSample(setpoint: string, speed: string, pwm: string, rpm: real,
                    parseInt: string -> Option<int>, parseReal: string -> Option<real>)
    requires setpoint == [] || setpoint[0] != 'T'
    requires ',' !in setpoint && ',' !in speed && ',' !in pwm
    requires parseReal(speed) == Some(rpm)
    ensures ReadLine(setpoint + "," + speed + "," + pwm, parseInt, parseReal) == Sample(rpm, pwm)
  {
    var line := setpoint + "," + speed + "," + pwm;
    Text.SplitJoin([setpoint, speed, pwm], ',');
    assert [setpoint, speed, pwm][1..] == [speed, pwm] && [speed, pwm][1..] == [pwm];
    assert Text.Join([speed, pwm], ',') == speed + "," + pwm;
    assert Text.Join([setpoint, speed, pwm], ',') == line;
    assert line[0] != 'T';
  }

  /** `TIME_LEFT,<ms>` sets the countdown, `TIME_LEFT,INF` the infinity sign. */
  lemma ReadsTimeLeft(value: string, parseInt: string -> Option<int>, parseReal: string -> Option<real>)
    requires ',' !in value
    ensures var r := ReadLine("TIME_LEFT," + value, parseInt, parseReal);
      && (value == "INF" ==> r == TimeLeft(TimeLeftForever))
      && (value != "INF" && parseInt(value).Some? ==> r == TimeLeft(TimeLeftText(parseInt(value).value)))
      && (value != "INF" && parseInt(value).None? ==> r == Ignored)
  {
    Text.SplitJoin(["TIME_LEFT", value], ',');
    assert Text.Join(["TIME_LEFT", value], ',') == "TIME_LEFT," + value;
    assert Text.StartsWith("TIME_LEFT," + value, "TIME_LEFT");
  }

  /** The controller window and the state behind it. */
  class StirrerUI {
    const simulation: bool
    var controlMode: Mode
    var previousMode: Mode
    var target: int
    var lastRpm: real
    var lastShear: real
    var runtime: int
    var timeBuffer: seq<real>
    var rpmBuffer: seq<real>
    var timeLeftText: string
    var speedShown: Option<real>
    var shearShown: Option<real>
    var pwmShown: Option<string>
    /** Everything written to the serial port, in order. */
    var sent: seq<string>

    /** The two buffers grow in lockstep within their bound, the slider
        is in the unit of the selected mode and within its range, and the
        remembered speed and shear rate describe the same setting. */
    predicate Valid()
      reads this
    {
      && |timeBuffer| == |rpmBuffer| <= BufferCapacity
      && previousMode == controlMode
      && Held(controlMode, target) == target
      && (controlMode == RpmMode ==> RpmMin <= target <= RpmMax)
      && lastShear == RpmToShear(LinearSegments, lastRpm)
    }

    /** `__init__`: RPM mode at `RPM_MIN`, then `update_slider_mode`. */
    constructor (simulation: bool)
      ensures this.simulation == simulation
      ensures controlMode == RpmMode && previousMode == RpmMode && target == RpmMin
      ensures lastRpm == 100.0 && lastShear == RpmToShear(LinearSegments, 100.0)
      ensures lastShear == -87.0 / 20.0
      ensures runtime == 0 && timeBuffer == [] && rpmBuffer == []
      ensures timeLeftText == TimeLeftForever
      ensures speedShown == None && shearShown == None && pwmShown == None
      ensures sent == []
      ensures Valid()
    {
      this.simulation := simulation;
      controlMode := RpmMode;
      previousMode := RpmMode;
      target := RpmMin;
      lastRpm := RpmMin as real;
      lastShear := ShearMin as real;
      runtime := 0;
      timeBuffer := [];
      rpmBuffer := [];
      timeLeftText := TimeLeftForever;
      speedShown := None;
      shearShown := None;
      pwmShown := None;
      sent := [];
      new;
      // The scale is built on Tk's default range 0..100 at resolution 1,
      // which holds the variable's 1000 at 100 before the mode is applied.
      target := Hold(0, 100, 1, RpmMin);
      SimulationSegments();
      Extrapolation(LinearSegments, 100.0);
      UpdateSliderMode();
    }

    /** `update_slider_mode`, run when a mode button is clicked. */
    method UpdateSliderMode()
      modifies this
      ensures var s := SwitchSlider(old(previousMode), old(controlMode), old(target));
        lastRpm == s.lastRpm && lastShear == s.lastShear && target == s.target
      ensures previousMode == controlMode
      ensures lastShear == RpmToShear(LinearSegments, lastRpm)
      ensures controlMode == old(controlMode) && runtime == old(runtime)
      ensures timeBuffer == old(timeBuffer) && rpmBuffer == old(rpmBuffer)
      ensures timeLeftText == old(timeLeftText) && speedShown == old(speedShown)
      ensures shearShown == old(shearShown) && pwmShown == old(pwmShown) && sent == old(sent)
    {
      var s := SwitchSlider(previousMode, controlMode, target);
      lastRpm := s.lastRpm;
      lastShear := s.lastShear;
      target := s.target;
      previousMode := controlMode;
    }

    /** A mode radio button: select the mode, then `update_slider_mode`. */
    method SelectMode(mode: Mode)
      requires Valid()
      modifies this
      ensures Valid()
      ensures controlMode == mode && previousMode == mode
      ensures var s := SwitchSlider(old(previousMode), mode, old(target));
        lastRpm == s.lastRpm && lastShear == s.lastShear && target == s.target
      ensures runtime == old(runtime) && timeBuffer == old(timeBuffer) && rpmBuffer == old(rpmBuffer)
      ensures timeLeftText == old(timeLeftText) && speedShown == old(speedShown)
      ensures shearShown == old(shearShown) && pwmShown == old(pwmShown) && sent == old(sent)
    {
      if previousMode == ShearMode && mode == RpmMode {
        ShearSliderMapsIntoRpmRange(target);
      }
      controlMode := mode;
      UpdateSliderMode();
    }

    /** Dragging the slider to `v`: Tk rounds the position to the
        resolution and keeps it within the range; it writes that to the
        variable only when it differs from the position already shown, so
        a drag back onto the shown position leaves a kept value such as
        499 s⁻¹ in place. Afterwards the slider shows the drop position. */
    method MoveSlider(v: int)
      requires Valid()
      modifies this
      ensures Valid()
      ensures Shown(controlMode, target) == Shown(controlMode, v)
      ensures var res := Resolution(controlMode);
        SliderMin(controlMode) <= v <= SliderMax(controlMode) ==>
          Shown(controlMode, target) - res / 2 <= v < Shown(controlMode, target) + (res - res / 2)
      ensures target == if Shown(controlMode, v) == Shown(controlMode, old(target)) then old(target)
                        else Shown(controlMode, v)
      ensures controlMode == old(controlMode) && previousMode == old(previousMode)
      ensures lastRpm == old(lastRpm) && lastShear == old(lastShear) && runtime == old(runtime)
      ensures timeBuffer == old(timeBuffer) && rpmBuffer == old(rpmBuffer)
      ensures timeLeftText == old(timeLeftText) && speedShown == old(speedShown)
      ensures shearShown == old(shearShown) && pwmShown == old(pwmShown) && sent == old(sent)
    {
      var p := Shown(controlMode, v);
      ShownIsFixed(controlMode, v);
      assert controlMode == RpmMode ==> RpmMin <= p <= RpmMax;
      if p != Shown(controlMode, target) {
        target := p;
      }
    }

    /** `apply_target`: nothing in simulation, otherwise one `S <rpm>` line
        with the clamped speed. */
    method ApplyTarget()
      requires Valid()
      modifies this
      ensures Valid()
      ensures sent == old(sent) + (if simulation then [] else [Command('S', Setpoint(controlMode, target))])
      ensures controlMode == RpmMode ==> sent == old(sent) + (if simulation then [] else [Command('S', target)])
      ensures controlMode == old(controlMode) && previousMode == old(previousMode) && target == old(target)
      ensures lastRpm == old(lastRpm) && lastShear == old(lastShear) && runtime == old(runtime)
      ensures timeBuffer == old(timeBuffer) && rpmBuffer == old(rpmBuffer)
      ensures timeLeftText == old(timeLeftText) && speedShown == old(speedShown)
      ensures shearShown == old(shearShown) && pwmShown == old(pwmShown)
    {
      if !simulation {
        var rpm := Setpoint(controlMode, target);
        sent := sent + [Command('S', rpm)];
      }
    }

    /** Typing a whole number into the runtime entry sets `runtime_var`;
        nothing is sent until the runtime is applied. */
    method TypeRuntime(n: int)
      requires Valid()
      modifies this
      ensures Valid()
      ensures runtime == n && sent == old(sent)
      ensures controlMode == old(controlMode) && previousMode == old(previousMode) && target == old(target)
      ensures lastRpm == old(lastRpm) && lastShear == old(lastShear)
      ensures timeBuffer == old(timeBuffer) && rpmBuffer == old(rpmBuffer)
      ensures timeLeftText == old(timeLeftText) && speedShown == old(speedShown)
      ensures shearShown == old(shearShown) && pwmShown == old(pwmShown)
    {
      runtime := n;
    }

    /** `start_motor`, `stop_motor` and `apply_runtime`: one line each,
        none in simulation. */
    method Send(command: string)
      requires Valid()
      modifies this
      ensures Valid()
      ensures sent == old(sent) + (if simulation then [] else [command])
      ensures controlMode == old(controlMode) && previousMode == old(previousMode) && target == old(target)
      ensures lastRpm == old(lastRpm) && lastShear == old(lastShear) && runtime == old(runtime)
      ensures timeBuffer == old(timeBuffer) && rpmBuffer == old(rpmBuffer)
      ensures timeLeftText == old(timeLeftText) && speedShown == old(speedShown)
      ensures shearShown == old(shearShown) && pwmShown == old(pwmShown)
    {
      if !simulation {
        sent := sent + [command];
      }
    }

    method StartMotor()
      requires Valid()
      modifies this
      ensures Valid()
      ensures sent == old(sent) + (if simulation then [] else ["START\n"])
      ensures controlMode == old(controlMode) && previousMode == old(previousMode) && target == old(target)
      ensures lastRpm == old(lastRpm) && lastShear == old(lastShear) && runtime == old(runtime)
      ensures timeBuffer == old(timeBuffer) && rpmBuffer == old(rpmBuffer)
      ensures timeLeftText == old(timeLeftText) && speedShown == old(speedShown)
      ensures shearShown == old(shearShown) && pwmShown == old(pwmShown)
    {
      Send("START\n");
    }

    method StopMotor()
      requires Valid()
      modifies this
      ensures Valid()
      ensures sent == old(sent) + (if simulation then [] else ["STOP\n"])
      ensures controlMode == old(controlMode) && previousMode == old(previousMode) && target == old(target)
      ensures lastRpm == old(lastRpm) && lastShear == old(lastShear) && runtime == old(runtime)
      ensures timeBuffer == old(timeBuffer) && rpmBuffer == old(rpmBuffer)
      ensures timeLeftText == old(timeLeftText) && speedShown == old(speedShown)
      ensures shearShown == old(shearShown) && pwmShown == old(pwmShown)
    {
      Send("STOP\n");
    }

    method ApplyRuntime()
      requires Valid()
      modifies this
      ensures Valid()
      ensures sent == old(sent) + (if simulation then [] else [Command('T', runtime)])
      ensures controlMode == old(controlMode) && previousMode == old(previousMode) && target == old(target)
      ensures lastRpm == old(lastRpm) && lastShear == old(lastShear) && runtime == old(runtime)
      ensures timeBuffer == old(timeBuffer) && rpmBuffer == old(rpmBuffer)
      ensures timeLeftText == old(timeLeftText) && speedShown == old(speedShown)
      ensures shearShown == old(shearShown) && pwmShown == old(pwmShown)
    {
      Send(Command('T', runtime));
    }

    /** One pass of `serial_reader` on a line received `elapsed` seconds
        after start: a sample is appended to both buffers and shown, a time
        left replaces the countdown, anything else changes nothing. */
    method ReceiveLine(line: string, elapsed: real,
                       parseInt: string -> Option<int>, parseReal: string -> Option<real>)
      requires Valid()
      modifies this
      ensures Valid()
      ensures var r := ReadLine(line, parseInt, parseReal);
        && timeLeftText == (if r.TimeLeft? then r.text else old(timeLeftText))
        && timeBuffer == (if r.Sample? then Push(old(timeBuffer), elapsed) else old(timeBuffer))
        && rpmBuffer == (if r.Sample? then Push(old(rpmBuffer), r.rpm) else old(rpmBuffer))
        && speedShown == (if r.Sample? then Some(r.rpm) else old(speedShown))
        && shearShown == (if r.Sample? then Some(RpmToShear(LinearSegments, r.rpm)) else old(shearShown))
        && pwmShown == (if r.Sample? then Some(r.pwm) else old(pwmShown))
      ensures controlMode == old(controlMode) && previousMode == old(previousMode) && target == old(target)
      ensures lastRpm == old(lastRpm) && lastShear == old(lastShear) && runtime == old(runtime)
      ensures sent == old(sent)
    {
      var r := ReadLine(line, parseInt, parseReal);
      if r.TimeLeft? {
        timeLeftText := r.text;
      } else if r.Sample? {
        Record(elapsed, r.rpm);
        Show(r.rpm, r.pwm);
      }
    }

    /** Both buffers take the new sample together. */
    method Record(elapsed: real, rpm: real)
      requires Valid()
      modifies this
      ensures Valid()
      ensures timeBuffer == Push(old(timeBuffer), elapsed) && rpmBuffer == Push(old(rpmBuffer), rpm)
      ensures controlMode == old(controlMode) && previousMode == old(previousMode) && target == old(target)
      ensures lastRpm == old(lastRpm) && lastShear == old(lastShear) && runtime == old(runtime)
      ensures sent == old(sent) && timeLeftText == old(timeLeftText)
      ensures speedShown == old(speedShown) && shearShown == old(shearShown) && pwmShown == old(pwmShown)
    {
      var times, speeds := Push(timeBuffer, elapsed), Push(rpmBuffer, rpm);
      assert |times| == |speeds| <= BufferCapacity;
      timeBuffer, rpmBuffer := times, speeds;
    }

    /** The speed, shear-rate and PWM readouts of a sample. */
    method Show(rpm: real, pwm: string)
      modifies this
      ensures speedShown == Some(rpm) && shearShown == Some(RpmToShear(LinearSegments, rpm))
      ensures pwmShown == Some(pwm)
      ensures controlMode == old(controlMode) && previousMode == old(previousMode) && target == old(target)
      ensures lastRpm == old(lastRpm) && lastShear == old(lastShear) && runtime == old(runtime)
      ensures sent == old(sent) && timeLeftText == old(timeLeftText)
      ensures timeBuffer == old(timeBuffer) && rpmBuffer == old(rpmBuffer)
    {
      speedShown := Some(rpm);
      shearShown := Some(RpmToShear(LinearSegments, rpm));
      pwmShown := Some(pwm);
    }
  }
}

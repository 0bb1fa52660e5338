/** The stand-alone motor speed controller: a typed-in RPM target that is
    refused unless it is an integer within the motor's range, START and
    STOP, and the `setpoint,rpm,pwm` samples read back into the bounded
    speed trace. */
module MotorPanel {
  import opened Wrappers
  import Text
  import opened RpmTrace
  import Stirrer
  import ShearConversion

  const InvalidTarget: string := "Enter an integer between 1000 and 7500"

  /** The validation in `apply_target`: `int(text)` must succeed and lie
      within `[RPM_MIN, RPM_MAX]`; otherwise the warning is shown. */
  function CheckTarget(text: string, parseInt: string -> Option<int>): (r: Result<int>)
    ensures r.Ok? <==> parseInt(text).Some? && ShearConversion.RpmMin <= parseInt(text).value <= ShearConversion.RpmMax
    ensures r.Ok? ==> r.value == parseInt(text).value
    ensures r.Err? ==> r.message == InvalidTarget
  {
    match parseInt(text)
    case None => Err(InvalidTarget)
    case Some(rpm) => if rpm < ShearConversion.RpmMin || rpm > ShearConversion.RpmMax then Err(InvalidTarget) else Ok(rpm)
  }

  /** Where the two controllers agree and differ on a speed target: a value
      this panel accepts is sent unchanged by the slider panel too; a value
      it refuses is clamped to the nearer bound by the slider panel. */
  lemma TargetHandlingComparedWithSlider(text: string, parseInt: string -> Option<int>)
    requires parseInt(text).Some?
    ensures var n := parseInt(text).value;
      && (CheckTarget(text, parseInt).Ok? ==> Stirrer.Setpoint(Stirrer.RpmMode, n) == n)
      && (CheckTarget(text, parseInt).Err? ==>
            Stirrer.Setpoint(Stirrer.RpmMode, n) == (if n < ShearConversion.RpmMin then ShearConversion.RpmMin else ShearConversion.RpmMax))
  {
  }

  /** One line from the Arduino: the raw speed field, its value and the PWM. */
  datatype Reading = Ignored | Sample(rpmText: string, rpm: real, pwm: string)

  /** The body of `serial_reader` for one stripped line: exactly three
      fields and a speed that parses, or nothing. */
  function ReadLine(line: string, parseReal: string -> Option<real>): (r: Reading)
    ensures r.Sample? ==>
      var fields := Text.Split(line, ',');
      && |fields| == 3 && r.rpmText == fields[1]
      && parseReal(fields[1]) == Some(r.rpm) && r.pwm == fields[2]
  {
    if line == [] then Ignored
    else
      var fields := Text.Split(line, ',');
      if |fields| != 3 then Ignored
      else match parseReal(fields[1])
        case None => Ignored
        case Some(rpm) => Sample(fields[1], rpm, fields[2])
  }

  /** A well-formed sample line is read as its speed and PWM fields. */
  lemma ReadsSample(setpoint: string, speed: string, pwm: string, rpm: real, parseReal: string -> Option<real>)
    requires ',' !in setpoint && ',' !in speed && ',' !in pwm
    requires parseReal(speed) == Some(rpm)
    ensures ReadLine(setpoint + "," + speed + "," + pwm, parseReal) == Sample(speed, rpm, pwm)
  {
    Text.SplitJoin([setpoint, speed, pwm], ',');
    assert [setpoint, speed, pwm][1..] == [speed, pwm] && [speed, pwm][1..] == [pwm];
    assert Text.Join([speed, pwm], ',') == speed + "," + pwm;
    assert Text.Join([setpoint, speed, pwm], ',') == setpoint + "," + speed + "," + pwm;
  }

  /** Except for the time-left lines only the slider panel knows, both
      controllers take the same samples from the same lines. */
  lemma SameSamplesAsSlider(line: string, parseInt: string -> Option<int>, parseReal: string -> Option<real>)
    requires !Text.StartsWith(line, "TIME_LEFT")
    ensures var mine, theirs := ReadLine(line, parseReal), Stirrer.ReadLine(line, parseInt, parseReal);
      && (mine.Sample? <==> theirs.Sample?)
      && (mine.Sample? ==> mine.rpm == theirs.rpm && mine.pwm == theirs.pwm)
  {
  }

  /** The module-level state of the controller window. */
  class MotorController {
    const simulation: bool
    /** The text of the target entry. */
    var target: string
    var timeBuffer: seq<real>
    var rpmBuffer: seq<real>
    var rpmShown: Option<string>
    var pwmShown: Option<string>
    /** Everything written to the serial port, in order. */
    var sent: seq<string>
    /** Every warning box shown, in order. */
    var warnings: seq<string>

    predicate Valid()
      reads this
    {
      |timeBuffer| == |rpmBuffer| <= BufferCapacity
    }

    constructor (simulation: bool)
      ensures this.simulation == simulation
      ensures target == "Speed"
      ensures timeBuffer == [] && rpmBuffer == []
      ensures rpmShown == None && pwmShown == None
      ensures sent == [] && warnings == []
      ensures Valid()
    {
      this.simulation := simulation;
      target := "Speed";
      timeBuffer := [];
      rpmBuffer := [];
      rpmShown := None;
      pwmShown := None;
      sent := [];
      warnings := [];
    }

    /** Typing into the entry replaces the text that the entry shares with
        `target_var`; nothing is sent until Return is pressed. */
    method TypeTarget(text: string)
      requires Valid()
      modifies this
      ensures Valid()
      ensures target == text && sent == old(sent)
      ensures timeBuffer == old(timeBuffer) && rpmBuffer == old(rpmBuffer)
      ensures rpmShown == old(rpmShown) && pwmShown == old(pwmShown) && warnings == old(warnings)
    {
      target := text;
    }

    /** `apply_target`: a valid target is sent as `S <rpm>`, anything else
        shows the warning and sends nothing; in simulation nothing happens. */
    method ApplyTarget(parseInt: string -> Option<int>)
      requires Valid()
      modifies this
      ensures Valid()
      ensures var r := CheckTarget(target, parseInt);
        && sent == old(sent) + (if !simulation && r.Ok? then [Stirrer.Command('S', r.value)] else [])
        && warnings == old(warnings) + (if !simulation && r.Err? then [r.message] else [])
      ensures target == old(target) && timeBuffer == old(timeBuffer) && rpmBuffer == old(rpmBuffer)
      ensures rpmShown == old(rpmShown) && pwmShown == old(pwmShown)
    {
      if !simulation {
        var r := CheckTarget(target, parseInt);
        if r.Ok? {
          sent := sent + [Stirrer.Command('S', r.value)];
        } else {
          warnings := warnings + [r.message];
        }
      }
    }

    /** `start_motor` and `stop_motor`. */
    method Send(command: string)
      requires Valid()
      modifies this
      ensures Valid()
      ensures sent == old(sent) + (if simulation then [] else [command])
      ensures target == old(target) && timeBuffer == old(timeBuffer) && rpmBuffer == old(rpmBuffer)
      ensures rpmShown == old(rpmShown) && pwmShown == old(pwmShown) && warnings == old(warnings)
    {
      if !simulation {
        sent := sent + [command];
      }
    }

    method StartMotor()
      requires Valid()
      modifies this
      ensures Valid()
      ensures sent == old(sent) + (if simulation then [] else ["START\n"])
      ensures target == old(target) && timeBuffer == old(timeBuffer) && rpmBuffer == old(rpmBuffer)
      ensures rpmShown == old(rpmShown) && pwmShown == old(pwmShown) && warnings == old(warnings)
    {
      Send("START\n");
    }

    method StopMotor()
      requires Valid()
      modifies this
      ensures Valid()
      ensures sent == old(sent) + (if simulation then [] else ["STOP\n"])
      ensures target == old(target) && timeBuffer == old(timeBuffer) && rpmBuffer == old(rpmBuffer)
      ensures rpmShown == old(rpmShown) && pwmShown == old(pwmShown) && warnings == old(warnings)
    {
      Send("STOP\n");
    }

    /** One pass of `serial_reader` on a line received `elapsed` seconds
        after start. */
    method ReceiveLine(line: string, elapsed: real, parseReal: string -> Option<real>)
      requires Valid()
      modifies this
      ensures Valid()
      ensures var r := ReadLine(line, parseReal);
        && timeBuffer == (if r.Sample? then Push(old(timeBuffer), elapsed) else old(timeBuffer))
        && rpmBuffer == (if r.Sample? then Push(old(rpmBuffer), r.rpm) else old(rpmBuffer))
        && rpmShown == (if r.Sample? then Some(r.rpmText) else old(rpmShown))
        && pwmShown == (if r.Sample? then Some(r.pwm) else old(pwmShown))
      ensures target == old(target) && sent == old(sent) && warnings == old(warnings)
    {
      var r := ReadLine(line, parseReal);
      if r.Sample? {
        Record(elapsed, r.rpm);
        rpmShown := Some(r.rpmText);
        pwmShown := Some(r.pwm);
      }
    }

    /** Both buffers take the new sample together. */
    method Record(elapsed: real, rpm: real)
      requires Valid()
      modifies this
      ensures Valid()
      ensures timeBuffer == Push(old(timeBuffer), elapsed) && rpmBuffer == Push(old(rpmBuffer), rpm)
      ensures target == old(target) && sent == old(sent) && warnings == old(warnings)
      ensures rpmShown == old(rpmShown) && pwmShown == old(pwmShown)
    {
      timeBuffer := Push(timeBuffer, elapsed);
      rpmBuffer := Push(rpmBuffer, rpm);
    }
  }
}

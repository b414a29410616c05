/** `sendCtrl`: the control message's mode selects one driver command, and
    the model is the list of byte sequences that command writes, in order.
    The sleeps between writes and the RTS pulse of WAKEUP carry no data and
    are not modelled.
 */
module Dispatch {
  import opened Bytes
  import opened Options
  import C = Constants
  import Commands
  import Flags
  import W = Wire

  /** The `RoombaCtrl` modes; any other value of the mode field is `Unknown`. */
  datatype Mode =
    | Spot | Safe | Clean | Power | Wakeup | Full | Max | Dock
    | Motors | MotorsOff | DriveDirect | DrivePwm | Song | Drive
    | Unknown(code: int)

  /** The fields of a control message that `sendCtrl` reads. The wheel values
      of DRIVE_DIRECT and DRIVE_PWM are the `short`s the driver computes from
      the message's floating-point fields. */
  datatype Ctrl = Ctrl(
    mode: Mode,
    velocity: int16, radius: int16,
    directRight: int16, directLeft: int16,
    pwmRight: int16, pwmLeft: int16)

  /** `MB_MAIN_BRUSH | MB_SIDE_BRUSH | MB_VACUUM`. */
  function AllMotors(h: C.Header): (b: byte)
  {
    h.motor.mainBrush | h.motor.sideBrush | h.motor.vacuum
  }

  /** The writes `sendCtrl` makes for a message: one per command, so two
      for WAKEUP and four for SONG, and none of them empty. */
  function SendCtrl(h: C.Header, ctrl: Ctrl): (writes: seq<seq<byte>>)
    ensures |writes| == if ctrl.mode.Song? then 4 else if ctrl.mode.Wakeup? then 2 else 1
    ensures forall k :: 0 <= k < |writes| ==> |writes[k]| > 0
  {
    match ctrl.mode
    case Spot => [Commands.Send(h, C.Spot)]
    case Safe => [Commands.Send(h, C.Safe)]
    case Clean => [Commands.Send(h, C.Clean)]
    case Power => [Commands.Send(h, C.Power)]
    case Wakeup => Commands.Startup(h)
    case Full => [Commands.Send(h, C.Full)]
    case Max => [Commands.Send(h, C.Max)]
    case Dock => [Commands.Dock(h)]
    case Motors => [Commands.SetMotorState(h, AllMotors(h))]
    case MotorsOff => [Commands.SetMotorState(h, 0)]
    case DriveDirect => [Commands.DriveDirect(h, ctrl.directRight, ctrl.directLeft)]
    case DrivePwm => [Commands.DrivePwm(h, ctrl.pwmRight, ctrl.pwmLeft)]
    case Song => [Commands.Send(h, C.Safe)] + Commands.Song(h, 1, 1) + [Commands.Playing(h, 1)]
    case Drive => [Commands.Drive(h, ctrl.velocity, ctrl.radius)]
    case Unknown(_) => [Commands.Drive(h, ctrl.velocity, ctrl.radius)]
  }

  /** The one note of the driver's song. */
  const Tune: seq<W.Note> := [W.Note(Commands.NotePitch, Commands.NoteDuration)]

  /** What each mode asks of the robot, as Open Interface commands: the
      reference the writes of `SendCtrl` are checked against. */
  function Intended(h: C.Header, ctrl: Ctrl): (cmds: seq<W.Command>)
  {
    match ctrl.mode
    case Spot => [W.Spot]
    case Safe => [W.Safe]
    case Clean => [W.Clean]
    case Power => [W.Power]
    case Wakeup => [W.Start, W.Control]
    case Full => [W.Full]
    case Max => [W.Max]
    case Dock => [W.Buttons(h.button.dock)]
    case Motors => [W.Motors(Flags.OrAll(h.motor.Masks()))]
    case MotorsOff => [W.Motors(0)]
    case DriveDirect => [W.DriveDirect(WordOf(ctrl.directRight), WordOf(ctrl.directLeft))]
    case DrivePwm => [W.DrivePwm(WordOf(ctrl.pwmRight), WordOf(ctrl.pwmLeft))]
    case Song => [W.Safe, W.Safe, W.Song(1, Tune), W.Play(1)]
    case Drive => [W.Drive(WordOf(ctrl.velocity), WordOf(ctrl.radius))]
    case Unknown(_) => [W.Drive(WordOf(ctrl.velocity), WordOf(ctrl.radius))]
  }

  /** Each of `writes` is a frame that carries the command at the same
      place of `cmds`. */
  predicate Carries(h: C.Header, writes: seq<seq<byte>>, cmds: seq<W.Command>)
  {
    |writes| == |cmds| && forall k :: 0 <= k < |writes| ==> W.Parse(h, writes[k]) == Some(cmds[k])
  }

  /** Every write `sendCtrl` makes is a well-formed command frame, and the
      frames carry exactly the intended commands, in order. */
  lemma SendCtrlMeansIntended(h: C.Header, ctrl: Ctrl)
    requires C.DistinctOpcodes(h)
    ensures Carries(h, SendCtrl(h, ctrl), Intended(h, ctrl))
  {
    match ctrl.mode
    case Wakeup => WakeupMeansIntended(h, ctrl);
    case Song => SongMeansIntended(h, ctrl);
    case Dock => DockMeansIntended(h, ctrl);
    case Motors => MotorsMeansIntended(h, ctrl);
    case MotorsOff => MotorsOffMeansIntended(h, ctrl);
    case DriveDirect => DriveDirectMeansIntended(h, ctrl);
    case DrivePwm => DrivePwmMeansIntended(h, ctrl);
    case Drive => DriveMeansIntended(h, ctrl);
    case Unknown(_) => DriveMeansIntended(h, ctrl);
    case _ => BareMeansIntended(h, ctrl);
  }

  /** The modes that send one data-less command. */
  predicate Bare(mode: Mode)
  {
    mode.Spot? || mode.Safe? || mode.Clean? || mode.Power? || mode.Full? || mode.Max?
  }

  /** The command a data-less mode sends. */
  function BareOp(mode: Mode): (op: C.Op)
    requires Bare(mode)
    ensures !W.Takes(op)
  {
    match mode
    case Spot => C.Spot
    case Safe => C.Safe
    case Clean => C.Clean
    case Power => C.Power
    case Full => C.Full
    case Max => C.Max
  }

  lemma BareMeansIntended(h: C.Header, ctrl: Ctrl)
    requires C.DistinctOpcodes(h) && Bare(ctrl.mode)
    ensures Carries(h, SendCtrl(h, ctrl), Intended(h, ctrl))
  {
    var op := BareOp(ctrl.mode);
    BareWrites(h, ctrl);
    W.ParseSend(h, op);
    CarriesOne(h, Commands.Send(h, op), W.BareCommand(op));
  }

  lemma BareWrites(h: C.Header, ctrl: Ctrl)
    requires Bare(ctrl.mode)
    ensures SendCtrl(h, ctrl) == [Commands.Send(h, BareOp(ctrl.mode))]
    ensures Intended(h, ctrl) == [W.BareCommand(BareOp(ctrl.mode))]
  {
  }

  lemma DockMeansIntended(h: C.Header, ctrl: Ctrl)
    requires C.DistinctOpcodes(h) && ctrl.mode.Dock?
    ensures Carries(h, SendCtrl(h, ctrl), Intended(h, ctrl))
  {
    assert SendCtrl(h, ctrl) == [Commands.Dock(h)];
    W.ParseDock(h);
    CarriesOne(h, Commands.Dock(h), W.Buttons(h.button.dock));
  }

  lemma MotorsMeansIntended(h: C.Header, ctrl: Ctrl)
    requires C.DistinctOpcodes(h) && ctrl.mode.Motors?
    ensures Carries(h, SendCtrl(h, ctrl), Intended(h, ctrl))
  {
    assert SendCtrl(h, ctrl) == [Commands.SetMotorState(h, AllMotors(h))];
    AllMotorsIsUnion(h);
    W.ParseSetMotorState(h, AllMotors(h));
    CarriesOne(h, Commands.SetMotorState(h, AllMotors(h)), W.Motors(AllMotors(h)));
  }

  lemma MotorsOffMeansIntended(h: C.Header, ctrl: Ctrl)
    requires C.DistinctOpcodes(h) && ctrl.mode.MotorsOff?
    ensures Carries(h, SendCtrl(h, ctrl), Intended(h, ctrl))
  {
    assert SendCtrl(h, ctrl) == [Commands.SetMotorState(h, 0)];
    W.ParseSetMotorState(h, 0);
    CarriesOne(h, Commands.SetMotorState(h, 0), W.Motors(0));
  }

  lemma DriveDirectMeansIntended(h: C.Header, ctrl: Ctrl)
    requires C.DistinctOpcodes(h) && ctrl.mode.DriveDirect?
    ensures Carries(h, SendCtrl(h, ctrl), Intended(h, ctrl))
  {
    DriveDirectWrites(h, ctrl);
    W.ParseDriveDirect(h, ctrl.directRight, ctrl.directLeft);
    CarriesOne(h, Commands.DriveDirect(h, ctrl.directRight, ctrl.directLeft),
      W.DriveDirect(WordOf(ctrl.directRight), WordOf(ctrl.directLeft)));
  }

  lemma DriveDirectWrites(h: C.Header, ctrl: Ctrl)
    requires ctrl.mode.DriveDirect?
    ensures SendCtrl(h, ctrl) == [Commands.DriveDirect(h, ctrl.directRight, ctrl.directLeft)]
    ensures Intended(h, ctrl) == [W.DriveDirect(WordOf(ctrl.directRight), WordOf(ctrl.directLeft))]
  {
  }

  lemma DrivePwmMeansIntended(h: C.Header, ctrl: Ctrl)
    requires C.DistinctOpcodes(h) && ctrl.mode.DrivePwm?
    ensures Carries(h, SendCtrl(h, ctrl), Intended(h, ctrl))
  {
    DrivePwmWrites(h, ctrl);
    W.ParseDrivePwm(h, ctrl.pwmRight, ctrl.pwmLeft);
    CarriesOne(h, Commands.DrivePwm(h, ctrl.pwmRight, ctrl.pwmLeft),
      W.DrivePwm(WordOf(ctrl.pwmRight), WordOf(ctrl.pwmLeft)));
  }

  lemma DrivePwmWrites(h: C.Header, ctrl: Ctrl)
    requires ctrl.mode.DrivePwm?
    ensures SendCtrl(h, ctrl) == [Commands.DrivePwm(h, ctrl.pwmRight, ctrl.pwmLeft)]
    ensures Intended(h, ctrl) == [W.DrivePwm(WordOf(ctrl.pwmRight), WordOf(ctrl.pwmLeft))]
  {
  }

  lemma DriveMeansIntended(h: C.Header, ctrl: Ctrl)
    requires C.DistinctOpcodes(h) && (ctrl.mode.Drive? || ctrl.mode.Unknown?)
    ensures Carries(h, SendCtrl(h, ctrl), Intended(h, ctrl))
  {
    DriveWrites(h, ctrl);
    W.ParseDrive(h, ctrl.velocity, ctrl.radius);
    CarriesOne(h, Commands.Drive(h, ctrl.velocity, ctrl.radius),
      W.Drive(WordOf(ctrl.velocity), WordOf(ctrl.radius)));
  }

  lemma DriveWrites(h: C.Header, ctrl: Ctrl)
    requires ctrl.mode.Drive? || ctrl.mode.Unknown?
    ensures SendCtrl(h, ctrl) == [Commands.Drive(h, ctrl.velocity, ctrl.radius)]
    ensures Intended(h, ctrl) == [W.Drive(WordOf(ctrl.velocity), WordOf(ctrl.radius))]
  {
  }

  lemma CarriesOne(h: C.Header, frame: seq<byte>, cmd: W.Command)
    requires W.Parse(h, frame) == Some(cmd)
    ensures Carries(h, [frame], [cmd])
  {
  }

  /** WAKEUP starts the Open Interface and takes control. */
  lemma WakeupMeansIntended(h: C.Header, ctrl: Ctrl)
    requires C.DistinctOpcodes(h) && ctrl.mode.Wakeup?
    ensures Carries(h, SendCtrl(h, ctrl), Intended(h, ctrl))
  {
    W.ParseSend(h, C.Start);
    W.ParseSend(h, C.Control);
    assert SendCtrl(h, ctrl) == [Commands.Send(h, C.Start), Commands.Send(h, C.Control)];
  }

  /** SONG enters Safe mode twice, defines song 1 as the one note and plays
      it. */
  lemma SongMeansIntended(h: C.Header, ctrl: Ctrl)
    requires C.DistinctOpcodes(h) && ctrl.mode.Song?
    ensures Carries(h, SendCtrl(h, ctrl), Intended(h, ctrl))
  {
    var song := Commands.Song(h, 1, 1);
    W.ParseSend(h, C.Safe);
    W.ParseSongSafe(h, 1, 1);
    W.ParseSongOne(h, 1);
    W.ParsePlaying(h, 1);
    Truncate8Value(1);
    assert SendCtrl(h, ctrl) == [Commands.Send(h, C.Safe), song[0], song[1], Commands.Playing(h, 1)];
  }

  /** The motors byte of MOTORS is exactly the union of the three motor
      masks. */
  lemma AllMotorsIsUnion(h: C.Header)
    ensures AllMotors(h) == Flags.OrAll(h.motor.Masks())
  {
    var m := h.motor.Masks();
    calc {
      Flags.OrAll(m);
      Flags.OrUpTo(m, 2) | m[2];
      (Flags.OrUpTo(m, 1) | m[1]) | m[2];
      ((Flags.OrUpTo(m, 0) | m[0]) | m[1]) | m[2];
      { ZeroOr(m[0]); }
      (m[0] | m[1]) | m[2];
    }
  }

  lemma ZeroOr(b: byte)
    ensures 0 | b == b
  {
  }

  /** MOTORS switches every motor on: each motor's flag reads set. */
  lemma MotorsSetsEach(h: C.Header, ctrl: Ctrl)
    requires ctrl.mode.Motors?
    ensures forall i :: 0 <= i < 3 ==> Flags.And(SendCtrl(h, ctrl)[0][1], h.motor.Masks()[i]) == h.motor.Masks()[i]
  {
    assert SendCtrl(h, ctrl)[0][1] == AllMotors(h);
    AllMotorsIsUnion(h);
    forall i | 0 <= i < 3
      ensures Flags.And(Flags.OrAll(h.motor.Masks()), h.motor.Masks()[i]) == h.motor.Masks()[i]
    {
      Flags.InUnion(h.motor.Masks(), i);
    }
  }

  /** With MOTORS_OFF no motor bit is set. */
  lemma MotorsOffClearsAll(h: C.Header, ctrl: Ctrl)
    requires ctrl.mode.MotorsOff?
    ensures forall i :: 0 <= i < 3 ==> Flags.And(SendCtrl(h, ctrl)[0][1], h.motor.Masks()[i]) == 0
  {
  }

  /** A mode value `sendCtrl` does not name is handled as DRIVE. */
  lemma UnknownModeDrives(h: C.Header, ctrl: Ctrl)
    requires ctrl.mode.Unknown?
    ensures SendCtrl(h, ctrl) == SendCtrl(h, ctrl.(mode := Drive))
    ensures Intended(h, ctrl) == [W.Drive(WordOf(ctrl.velocity), WordOf(ctrl.radius))]
  {
  }

  /** Only the fields of the selected mode matter: DRIVE reads the velocity
      and radius, DRIVE_DIRECT and DRIVE_PWM their wheel values, every other
      mode none. */
  lemma UnreadFieldsIgnored(h: C.Header, ctrl: Ctrl, other: Ctrl)
    requires ctrl.mode == other.mode
    requires (ctrl.mode.Drive? || ctrl.mode.Unknown?) ==> ctrl.velocity == other.velocity && ctrl.radius == other.radius
    requires ctrl.mode.DriveDirect? ==> ctrl.directRight == other.directRight && ctrl.directLeft == other.directLeft
    requires ctrl.mode.DrivePwm? ==> ctrl.pwmRight == other.pwmRight && ctrl.pwmLeft == other.pwmLeft
    ensures SendCtrl(h, ctrl) == SendCtrl(h, other)
  {
  }
}

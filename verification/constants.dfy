/** The symbolic constants the driver takes from its header: the Open
    Interface opcodes, the bit masks of the sensor flag bytes, the motor
    bits and the packet id of the all-sensors group. Their numeric values
    are not fixed here; every property of the model holds for any header
    that meets `Valid`: distinct opcodes, and masks that are single bits,
    pairwise distinct within the byte they test.
 */
module Constants {
  import opened Bytes
  import opened Flags
  import opened Options

  /** The Open Interface commands the driver sends. */
  datatype Op =
    | Start | Control | Safe | Full | Power | Spot | Clean | Max
    | Drive | DriveDirect | DrivePwm | Motors | Song | Play | Sensors
    | SeekDock | Buttons

  /** The `OC_*` opcode values. */
  datatype OpCodes = OpCodes(
    start: byte, control: byte, safe: byte, full: byte, power: byte,
    spot: byte, clean: byte, max: byte, drive: byte, driveDirect: byte,
    drivePwm: byte, motors: byte, song: byte, play: byte, sensors: byte,
    seekDock: byte, buttons: byte)

  /** `BUMP_RIGHT`, `BUMP_LEFT`, `WHEELDROP_RIGHT`, `WHEELDROP_LEFT` (sensor byte 0). */
  datatype BumpBits = BumpBits(bumpRight: byte, bumpLeft: byte, wheeldropRight: byte, wheeldropLeft: byte)
  {
    /** The masks in the order the record lists its flags. */
    function Masks(): (bs: seq<byte>)
    {
      [bumpRight, bumpLeft, wheeldropRight, wheeldropLeft]
    }

    predicate Valid()
    {
      FlagMasks(Masks())
    }

    /** All bits the flags of this byte can occupy. */
    function Mask(): (b: byte)
    {
      OrAll(Masks())
    }
  }

  /** `LEFT_WHEEL`, `RIGHT_WHEEL`, `MAIN_BRUSH`, `SIDE_BRUSH` (sensor byte 7). */
  datatype OvercurrentBits = OvercurrentBits(leftWheel: byte, rightWheel: byte, mainBrush: byte, sideBrush: byte)
  {
    /** The masks in the order the record lists its flags. */
    function Masks(): (bs: seq<byte>)
    {
      [leftWheel, rightWheel, mainBrush, sideBrush]
    }

    predicate Valid()
    {
      FlagMasks(Masks())
    }

    /** All bits the flags of this byte can occupy. */
    function Mask(): (b: byte)
    {
      OrAll(Masks())
    }
  }

  /** The `BB_*` button bits (sensor byte 11; `BB_DOCK` is also the data
      byte of the dock command). */
  datatype ButtonBits = ButtonBits(
    clean: byte, spot: byte, dock: byte, minute: byte,
    hour: byte, day: byte, schedule: byte, clock: byte)
  {
    /** The masks in the order the record lists its flags. */
    function Masks(): (bs: seq<byte>)
    {
      [clean, spot, dock, minute, hour, day, schedule, clock]
    }

    predicate Valid()
    {
      FlagMasks(Masks())
    }

    /** All bits the flags of this byte can occupy. */
    function Mask(): (b: byte)
    {
      OrAll(Masks())
    }
  }

  /** `HOME_BASE`, `INTERNAL_CHARGER` (sensor byte 39). */
  datatype ChargerBits = ChargerBits(homeBase: byte, internalCharger: byte)
  {
    /** The masks in the order the record lists its flags. */
    function Masks(): (bs: seq<byte>)
    {
      [homeBase, internalCharger]
    }

    predicate Valid()
    {
      FlagMasks(Masks())
    }

    /** All bits the flags of this byte can occupy. */
    function Mask(): (b: byte)
    {
      OrAll(Masks())
    }
  }

  /** The `LT_BUMPER_*` bits (sensor byte 56). */
  datatype LightBumperBits = LightBumperBits(
    left: byte, frontLeft: byte, centerLeft: byte,
    centerRight: byte, frontRight: byte, right: byte)
  {
    /** The masks in the order the record lists its flags. */
    function Masks(): (bs: seq<byte>)
    {
      [left, frontLeft, centerLeft, centerRight, frontRight, right]
    }

    predicate Valid()
    {
      FlagMasks(Masks())
    }

    /** All bits the flags of this byte can occupy. */
    function Mask(): (b: byte)
    {
      OrAll(Masks())
    }
  }

  /** `MB_MAIN_BRUSH`, `MB_SIDE_BRUSH`, `MB_VACUUM`: data bits of the motors command. */
  datatype MotorBits = MotorBits(mainBrush: byte, sideBrush: byte, vacuum: byte)
  {
    /** The masks in the order the record lists its flags. */
    function Masks(): (bs: seq<byte>)
    {
      [mainBrush, sideBrush, vacuum]
    }

    predicate Valid()
    {
      FlagMasks(Masks())
    }
  }

  /** Everything the driver's header defines that the protocol layer uses. */
  datatype Header = Header(
    oc: OpCodes,
    bump: BumpBits,
    overcurrent: OvercurrentBits,
    button: ButtonBits,
    charger: ChargerBits,
    lightBumper: LightBumperBits,
    motor: MotorBits,
    allPacket: byte)

  function OpCode(h: Header, op: Op): (b: byte)
  {
    match op
    case Start => h.oc.start
    case Control => h.oc.control
    case Safe => h.oc.safe
    case Full => h.oc.full
    case Power => h.oc.power
    case Spot => h.oc.spot
    case Clean => h.oc.clean
    case Max => h.oc.max
    case Drive => h.oc.drive
    case DriveDirect => h.oc.driveDirect
    case DrivePwm => h.oc.drivePwm
    case Motors => h.oc.motors
    case Song => h.oc.song
    case Play => h.oc.play
    case Sensors => h.oc.sensors
    case SeekDock => h.oc.seekDock
    case Buttons => h.oc.buttons
  }

  /** What any header of the driver satisfies: no two commands share an
      opcode, and every flag mask is one bit of its byte, distinct from
      the other masks of that byte. */
  predicate Valid(h: Header)
  {
    && DistinctOpcodes(h)
    && h.bump.Valid()
    && h.overcurrent.Valid()
    && h.button.Valid()
    && h.charger.Valid()
    && h.lightBumper.Valid()
    && h.motor.Valid()
  }

  /** No two commands share an opcode. */
  predicate DistinctOpcodes(h: Header)
  {
    forall a: Op, b: Op :: OpCode(h, a) == OpCode(h, b) ==> a == b
  }

  /** Every command, in the order a receiver tries their opcodes. */
  const AllOps: seq<Op> := [
    Start, Control, Safe, Full, Power, Spot, Clean, Max, Drive, DriveDirect,
    DrivePwm, Motors, Song, Play, Sensors, SeekDock, Buttons]

  /** The command a leading byte announces, if any: the first of `ops` whose
      opcode it is. */
  function OpOf(h: Header, b: byte, ops: seq<Op> := AllOps): (r: Option<Op>)
  {
    if |ops| == 0 then None
    else if OpCode(h, ops[0]) == b then Some(ops[0])
    else OpOf(h, b, ops[1..])
  }

  /** The command found is one of `ops` and has opcode `b`; when none is
      found, no command of `ops` has that opcode. */
  lemma {:induction false} OpOfSound(h: Header, b: byte, ops: seq<Op> := AllOps)
    ensures OpOf(h, b, ops).Some? ==> OpCode(h, OpOf(h, b, ops).value) == b && OpOf(h, b, ops).value in ops
    ensures OpOf(h, b, ops).None? ==> forall op :: op in ops ==> OpCode(h, op) != b
  {
    if |ops| > 0 && OpCode(h, ops[0]) != b {
      OpOfSound(h, b, ops[1..]);
    }
  }

  /** With distinct opcodes, the leading byte of a command identifies it. */
  lemma {:induction false} OpOfOpCode(h: Header, op: Op, ops: seq<Op> := AllOps)
    requires DistinctOpcodes(h) && op in ops
    ensures OpOf(h, OpCode(h, op), ops) == Some(op)
  {
    if ops[0] != op {
      OpOfOpCode(h, op, ops[1..]);
    }
  }
}

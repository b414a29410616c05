/** The sensor record and `convertState`, the decoder of the 80-byte
    packet of sensor group 100 (all sensors). Flag fields keep the packet
    byte under their mask (`Flags.And`); plain bytes are copied. A 16-bit
    field is the native load at its offset (see `Bytes.HostOrder`) read
    through the pointer type of its cast: `int16*` for the distance, the
    angle, the current, the requested motion and the motor currents,
    `uint16*` for the voltage, the charge, the capacity, the wall, cliff
    and light-bumper signals and the encoder counts. The temperature byte
    is read through `int8*`, so it is sign extended. Bytes 9 and 36 to 38
    are not read. `Load` models the loads and `Read` the casts, over one
    record type `Record` whose 16-bit and temperature fields are bit
    patterns in the first and values in the second.
 */
module Sensors {
  import opened Bytes
  import opened Constants
  import opened Flags

  /** The length of the packet of sensor group 100. */
  const PacketLength := 80

  datatype BumpsWheeldrops = BumpsWheeldrops(bumpRight: byte, bumpLeft: byte, wheeldropRight: byte, wheeldropLeft: byte)
  {
    /** The flags of sensor byte 0, in the order of `BumpBits.Masks`. */
    function Flags(): (bs: seq<byte>)
    {
      [bumpRight, bumpLeft, wheeldropRight, wheeldropLeft]
    }
  }
  datatype Wall<U> = Wall(wall: byte, vwall: byte, wallSignal: U)
  datatype Cliff<U> = Cliff(
    left: byte, frontLeft: byte, frontRight: byte, right: byte,
    leftSignal: U, frontLeftSignal: U, frontRightSignal: U, rightSignal: U)
  datatype WheelOvercurrents = WheelOvercurrents(leftWheel: byte, rightWheel: byte, mainBrush: byte, sideBrush: byte)
  {
    /** The flags of sensor byte 7, in the order of `OvercurrentBits.Masks`. */
    function Flags(): (bs: seq<byte>)
    {
      [leftWheel, rightWheel, mainBrush, sideBrush]
    }
  }
  datatype IrOpcodes = IrOpcodes(omni: byte, left: byte, right: byte)
  datatype ButtonState = ButtonState(
    clean: byte, spot: byte, dock: byte, minute: byte,
    hour: byte, day: byte, schedule: byte, clock: byte)
  {
    /** The flags of sensor byte 11, in the order of `ButtonBits.Masks`. */
    function Flags(): (bs: seq<byte>)
    {
      [clean, spot, dock, minute, hour, day, schedule, clock]
    }
  }
  datatype Travel<S> = Travel(distance: S, angle: S)
  datatype Battery<S, U, T> = Battery(
    chargingState: byte, voltage: U, current: S,
    temperature: T, charge: U, capacity: U)
  datatype ChargingSource = ChargingSource(homeBase: byte, internalCharger: byte)
  {
    /** The flags of sensor byte 39, in the order of `ChargerBits.Masks`. */
    function Flags(): (bs: seq<byte>)
    {
      [homeBase, internalCharger]
    }
  }
  datatype SongState = SongState(number: byte, playing: byte)
  datatype Request<S> = Request(velocity: S, radius: S, rightVelocity: S, leftVelocity: S)
  datatype EncoderCounts<U> = EncoderCounts(left: U, right: U)
  datatype LightBumper<U> = LightBumper(
    left: byte, frontLeft: byte, centerLeft: byte,
    centerRight: byte, frontRight: byte, right: byte,
    leftSignal: U, frontLeftSignal: U, centerLeftSignal: U,
    centerRightSignal: U, frontRightSignal: U, rightSignal: U)
  {
    /** The flags of sensor byte 56, in the order of `LightBumperBits.Masks`. */
    function Flags(): (bs: seq<byte>)
    {
      [left, frontLeft, centerLeft, centerRight, frontRight, right]
    }
  }
  datatype MotorCurrent<S> = MotorCurrent(leftWheel: S, rightWheel: S, mainBrush: S, sideBrush: S)

  /** The fields of the driver's `RoombaSensors` record, with the fields
      read through `int16*` of type `S`, those read through `uint16*` of
      type `U` and the temperature, read through `int8*`, of type `T`. */
  datatype Record<S, U, T> = Record(
    bumps: BumpsWheeldrops,
    wall: Wall<U>,
    cliff: Cliff<U>,
    overcurrents: WheelOvercurrents,
    dirtDetect: byte,
    ir: IrOpcodes,
    button: ButtonState,
    travel: Travel<S>,
    battery: Battery<S, U, T>,
    chargingSource: ChargingSource,
    oiMode: byte,
    song: SongState,
    streamPackets: byte,
    request: Request<S>,
    encoderCounts: EncoderCounts<U>,
    lightBumper: LightBumper<U>,
    motorCurrent: MotorCurrent<S>,
    stasis: byte)

  /** The driver's record: `short`, `unsigned short` and `int8` values. */
  type SensorState = Record<int16, uint16, int8>

  /** The record as the native loads leave it, before the casts give the
      loaded bits a type: the bit pattern of every 16-bit field and the
      byte of the temperature. */
  type Loads = Record<Word, Word, byte>

  /** The wall, cliff and virtual wall flags, each read from its own byte
      (1 to 6) with mask `0x01`. */
  function WallCliffFlags<U>(w: Wall<U>, c: Cliff<U>): (bs: seq<byte>)
  {
    [w.wall, c.left, c.frontLeft, c.frontRight, c.right, w.vwall]
  }

  const WallCliffMasks: seq<byte> := [0x01, 0x01, 0x01, 0x01, 0x01, 0x01]

  /** The shape of every record `convertState` produces: each flag field
      holds at most the bits of its mask (so the wall, virtual wall and
      cliff flags are 0 or 1). */
  predicate WellFormed<S, U, T>(h: Header, s: Record<S, U, T>)
  {
    && Within(s.bumps.Flags(), h.bump.Masks())
    && Within(WallCliffFlags(s.wall, s.cliff), WallCliffMasks)
    && Within(s.overcurrents.Flags(), h.overcurrent.Masks())
    && Within(s.button.Flags(), h.button.Masks())
    && Within(s.chargingSource.Flags(), h.charger.Masks())
    && Within(s.lightBumper.Flags(), h.lightBumper.Masks())
  }

  function DecodeBumps(h: Header, raw: seq<byte>): (r: BumpsWheeldrops)
    requires |raw| == PacketLength
  {
    BumpsWheeldrops(
      And(raw[0], h.bump.bumpRight),
      And(raw[0], h.bump.bumpLeft),
      And(raw[0], h.bump.wheeldropRight),
      And(raw[0], h.bump.wheeldropLeft))
  }

  function DecodeWall(raw: seq<byte>): (r: Wall<Word>)
    requires |raw| == PacketLength
  {
    Wall(And(raw[1], 0x01), And(raw[6], 0x01), WordAt(raw, 26))
  }

  function DecodeCliff(raw: seq<byte>): (r: Cliff<Word>)
    requires |raw| == PacketLength
  {
    Cliff(
      And(raw[2], 0x01), And(raw[3], 0x01), And(raw[4], 0x01), And(raw[5], 0x01),
      WordAt(raw, 28), WordAt(raw, 30), WordAt(raw, 32), WordAt(raw, 34))
  }

  function DecodeOvercurrents(h: Header, raw: seq<byte>): (r: WheelOvercurrents)
    requires |raw| == PacketLength
  {
    WheelOvercurrents(
      And(raw[7], h.overcurrent.leftWheel),
      And(raw[7], h.overcurrent.rightWheel),
      And(raw[7], h.overcurrent.mainBrush),
      And(raw[7], h.overcurrent.sideBrush))
  }

  /** The omni receiver sits at offset 10, the left and right receivers at
      69 and 70, far from it. */
  function DecodeIr(raw: seq<byte>): (r: IrOpcodes)
    requires |raw| == PacketLength
  {
    IrOpcodes(raw[10], raw[69], raw[70])
  }

  function DecodeButtons(h: Header, raw: seq<byte>): (r: ButtonState)
    requires |raw| == PacketLength
  {
    ButtonState(
      And(raw[11], h.button.clean), And(raw[11], h.button.spot),
      And(raw[11], h.button.dock), And(raw[11], h.button.minute),
      And(raw[11], h.button.hour), And(raw[11], h.button.day),
      And(raw[11], h.button.schedule), And(raw[11], h.button.clock))
  }

  function DecodeTravel(raw: seq<byte>): (r: Travel<Word>)
    requires |raw| == PacketLength
  {
    Travel(WordAt(raw, 12), WordAt(raw, 14))
  }

  function DecodeBattery(raw: seq<byte>): (r: Battery<Word, Word, byte>)
    requires |raw| == PacketLength
  {
    Battery(
      raw[16], WordAt(raw, 17), WordAt(raw, 19),
      raw[21], WordAt(raw, 22), WordAt(raw, 24))
  }

  function DecodeChargingSource(h: Header, raw: seq<byte>): (r: ChargingSource)
    requires |raw| == PacketLength
  {
    ChargingSource(And(raw[39], h.charger.homeBase), And(raw[39], h.charger.internalCharger))
  }

  function DecodeRequest(raw: seq<byte>): (r: Request<Word>)
    requires |raw| == PacketLength
  {
    Request(WordAt(raw, 44), WordAt(raw, 46), WordAt(raw, 48), WordAt(raw, 50))
  }

  function DecodeLightBumper(h: Header, raw: seq<byte>): (r: LightBumper<Word>)
    requires |raw| == PacketLength
  {
    LightBumper(
      And(raw[56], h.lightBumper.left), And(raw[56], h.lightBumper.frontLeft),
      And(raw[56], h.lightBumper.centerLeft), And(raw[56], h.lightBumper.centerRight),
      And(raw[56], h.lightBumper.frontRight), And(raw[56], h.lightBumper.right),
      WordAt(raw, 57), WordAt(raw, 59), WordAt(raw, 61),
      WordAt(raw, 63), WordAt(raw, 65), WordAt(raw, 67))
  }

  function DecodeMotorCurrent(raw: seq<byte>): (r: MotorCurrent<Word>)
    requires |raw| == PacketLength
  {
    MotorCurrent(WordAt(raw, 71), WordAt(raw, 73), WordAt(raw, 75), WordAt(raw, 77))
  }

  /** The native loads of `convertState`: every field of the record from
      its own bytes of the packet, the 16-bit fields as the pattern a
      native load at their offset reads. */
  function Load(h: Header, raw: seq<byte>): (l: Loads)
    requires |raw| == PacketLength
  {
    Record(
      DecodeBumps(h, raw),
      DecodeWall(raw),
      DecodeCliff(raw),
      DecodeOvercurrents(h, raw),
      raw[8],
      DecodeIr(raw),
      DecodeButtons(h, raw),
      DecodeTravel(raw),
      DecodeBattery(raw),
      DecodeChargingSource(h, raw),
      raw[40],
      SongState(raw[41], raw[42]),
      raw[43],
      DecodeRequest(raw),
      EncoderCounts(WordAt(raw, 52), WordAt(raw, 54)),
      DecodeLightBumper(h, raw),
      DecodeMotorCurrent(raw),
      raw[79])
  }

  /** The record with `fs` applied to every field of type `S`, `fu` to
      every field of type `U` and `ft` to the temperature; the flags and
      plain bytes are kept. */
  function Map<S, U, T, S', U', T'>(r: Record<S, U, T>, fs: S -> S', fu: U -> U', ft: T -> T'): (r': Record<S', U', T'>)
  {
    var w, c, t, b := r.wall, r.cliff, r.travel, r.battery;
    var q, e, l, m := r.request, r.encoderCounts, r.lightBumper, r.motorCurrent;
    Record(
      r.bumps,
      Wall(w.wall, w.vwall, fu(w.wallSignal)),
      Cliff(c.left, c.frontLeft, c.frontRight, c.right,
        fu(c.leftSignal), fu(c.frontLeftSignal), fu(c.frontRightSignal), fu(c.rightSignal)),
      r.overcurrents,
      r.dirtDetect,
      r.ir,
      r.button,
      Travel(fs(t.distance), fs(t.angle)),
      Battery(b.chargingState, fu(b.voltage), fs(b.current), ft(b.temperature), fu(b.charge), fu(b.capacity)),
      r.chargingSource,
      r.oiMode,
      r.song,
      r.streamPackets,
      Request(fs(q.velocity), fs(q.radius), fs(q.rightVelocity), fs(q.leftVelocity)),
      EncoderCounts(fu(e.left), fu(e.right)),
      LightBumper(l.left, l.frontLeft, l.centerLeft, l.centerRight, l.frontRight, l.right,
        fu(l.leftSignal), fu(l.frontLeftSignal), fu(l.centerLeftSignal),
        fu(l.centerRightSignal), fu(l.frontRightSignal), fu(l.rightSignal)),
      MotorCurrent(fs(m.leftWheel), fs(m.rightWheel), fs(m.mainBrush), fs(m.sideBrush)),
      r.stasis)
  }

  /** The casts of `convertState`: a pattern loaded through `int16*` is
      read as a `short`, one loaded through `uint16*` as an `unsigned
      short`, and the temperature byte loaded through `int8*` is sign
      extended. */
  function Read(l: Loads): (s: SensorState)
  {
    Map(l, Signed16, Unsigned16, ToInt8)
  }

  /** The patterns a record's values are stored as: the inverse of `Read`. */
  function Patterns(s: SensorState): (l: Loads)
  {
    Map(s, WordOf, UnsignedWordOf, Int8Byte)
  }

  /** `convertState`: every field of the record is computed from the packet
      alone, so nothing of the previous record survives a conversion, and
      every flag it sets lies within its mask. */
  function ConvertState(h: Header, raw: seq<byte>): (s: SensorState)
    requires |raw| == PacketLength
    ensures WellFormed(h, s)
  {
    BumpsRead(h, raw);
    OvercurrentsRead(h, raw);
    ButtonsRead(h, raw);
    ChargerRead(h, raw);
    LightBumperRead(h, raw);
    WallCliffRead(raw);
    ReadKeepsFlags(h, Load(h, raw));
    Read(Load(h, raw))
  }

  /** Mapping a record with functions and then with their left inverses
      gives the record back. */
  lemma MapInverse<S, U, T, S', U', T'>(r: Record<S, U, T>, fs: S -> S', fu: U -> U', ft: T -> T', gs: S' -> S, gu: U' -> U, gt: T' -> T)
    requires forall x :: gs(fs(x)) == x
    requires forall x :: gu(fu(x)) == x
    requires forall x :: gt(ft(x)) == x
    ensures Map(Map(r, fs, fu, ft), gs, gu, gt) == r
  {
  }

  /** Reading the patterns of a record gives the record: every value of
      every field survives its store and load. */
  lemma ReadPatterns(s: SensorState)
    ensures Read(Patterns(s)) == s
  {
    forall v: int16
      ensures Signed16(WordOf(v)) == v
    {
      WordOfRoundTrip(v);
    }
    MapInverse(s, WordOf, UnsignedWordOf, Int8Byte, Signed16, Unsigned16, ToInt8);
  }

  /** Storing the values read from some patterns gives the patterns: the
      casts lose nothing, so two loads read the same values exactly when
      they hold the same patterns. */
  lemma PatternsRead(l: Loads, l': Loads)
    ensures Patterns(Read(l)) == l
    ensures Read(l) == Read(l') <==> l == l'
  {
    forall w: Word
      ensures WordOf(Signed16(w)) == w && UnsignedWordOf(Unsigned16(w)) == w
    {
      WordOfSigned(w);
      UnsignedWordOfUnsigned(w);
    }
    forall b: byte
      ensures Int8Byte(ToInt8(b)) == b
    {
      Int8ByteOfToInt8(b);
    }
    MapInverse(l, Signed16, Unsigned16, ToInt8, WordOf, UnsignedWordOf, Int8Byte);
    MapInverse(l', Signed16, Unsigned16, ToInt8, WordOf, UnsignedWordOf, Int8Byte);
  }

  /** The casts keep every flag, so a record is well formed exactly when
      its patterns are. */
  lemma ReadKeepsFlags(h: Header, l: Loads)
    ensures Read(l).bumps == l.bumps && Read(l).overcurrents == l.overcurrents
    ensures Read(l).button == l.button && Read(l).chargingSource == l.chargingSource
    ensures Read(l).lightBumper.Flags() == l.lightBumper.Flags()
    ensures WallCliffFlags(Read(l).wall, Read(l).cliff) == WallCliffFlags(l.wall, l.cliff)
    ensures WellFormed(h, Read(l)) <==> WellFormed(h, l)
  {
  }

  /** Which reading `convertState` gives each offset: a `short` at 12, 14,
      19 and 44 to 50 and 71 to 77, an `unsigned short` at 17, 22, 24, 26
      to 34, 52, 54 and 57 to 67, and the sign extension of byte 21, which
      is negative exactly when its top bit is set. */
  lemma ConvertStateReadings(h: Header, raw: seq<byte>)
    requires |raw| == PacketLength
    ensures var s := ConvertState(h, raw);
      && s.travel == Travel(SignedAt(raw, 12), SignedAt(raw, 14))
      && s.battery == Battery(raw[16], UnsignedAt(raw, 17), SignedAt(raw, 19),
                              ToInt8(raw[21]), UnsignedAt(raw, 22), UnsignedAt(raw, 24))
      && (s.battery.temperature < 0 <==> raw[21] >= 0x80)
      && s.wall.wallSignal == UnsignedAt(raw, 26)
      && s.cliff.leftSignal == UnsignedAt(raw, 28) && s.cliff.frontLeftSignal == UnsignedAt(raw, 30)
      && s.cliff.frontRightSignal == UnsignedAt(raw, 32) && s.cliff.rightSignal == UnsignedAt(raw, 34)
      && s.request == Request(SignedAt(raw, 44), SignedAt(raw, 46), SignedAt(raw, 48), SignedAt(raw, 50))
      && s.encoderCounts == EncoderCounts(UnsignedAt(raw, 52), UnsignedAt(raw, 54))
      && s.lightBumper.leftSignal == UnsignedAt(raw, 57) && s.lightBumper.frontLeftSignal == UnsignedAt(raw, 59)
      && s.lightBumper.centerLeftSignal == UnsignedAt(raw, 61) && s.lightBumper.centerRightSignal == UnsignedAt(raw, 63)
      && s.lightBumper.frontRightSignal == UnsignedAt(raw, 65) && s.lightBumper.rightSignal == UnsignedAt(raw, 67)
      && s.motorCurrent == MotorCurrent(SignedAt(raw, 71), SignedAt(raw, 73), SignedAt(raw, 75), SignedAt(raw, 77))
  {
  }

  /** Every flag group of a converted record is its packet byte under each
      of the group's masks; hence the record is well formed. */
  lemma ConvertStateFlags(h: Header, raw: seq<byte>)
    requires |raw| == PacketLength
    ensures var s := ConvertState(h, raw);
      && s.bumps.Flags() == MaskEach(raw[0], h.bump.Masks())
      && WallCliffFlags(s.wall, s.cliff) == [And(raw[1], 0x01), And(raw[2], 0x01), And(raw[3], 0x01), And(raw[4], 0x01), And(raw[5], 0x01), And(raw[6], 0x01)]
      && s.overcurrents.Flags() == MaskEach(raw[7], h.overcurrent.Masks())
      && s.button.Flags() == MaskEach(raw[11], h.button.Masks())
      && s.chargingSource.Flags() == MaskEach(raw[39], h.charger.Masks())
      && s.lightBumper.Flags() == MaskEach(raw[56], h.lightBumper.Masks())
    ensures WellFormed(h, ConvertState(h, raw))
  {
    BumpsRead(h, raw);
    OvercurrentsRead(h, raw);
    ButtonsRead(h, raw);
    ChargerRead(h, raw);
    LightBumperRead(h, raw);
    WallCliffRead(raw);
  }

  /** The IR opcodes are the bytes at offsets 10, 69 and 70, unchanged, and
      no other byte of the packet affects them. */
  lemma IrOpcodesRead(h: Header, raw: seq<byte>, raw': seq<byte>)
    requires |raw| == PacketLength && |raw'| == PacketLength
    ensures ConvertState(h, raw).ir == IrOpcodes(raw[10], raw[69], raw[70])
    ensures ConvertState(h, raw).ir == ConvertState(h, raw').ir
        <==> raw[10] == raw'[10] && raw[69] == raw'[69] && raw[70] == raw'[70]
  {
  }

  lemma BumpsRead(h: Header, raw: seq<byte>)
    requires |raw| == PacketLength
    ensures DecodeBumps(h, raw).Flags() == MaskEach(raw[0], h.bump.Masks())
    ensures Within(DecodeBumps(h, raw).Flags(), h.bump.Masks())
  {
    MaskEachWithin(raw[0], h.bump.Masks());
  }

  lemma OvercurrentsRead(h: Header, raw: seq<byte>)
    requires |raw| == PacketLength
    ensures DecodeOvercurrents(h, raw).Flags() == MaskEach(raw[7], h.overcurrent.Masks())
    ensures Within(DecodeOvercurrents(h, raw).Flags(), h.overcurrent.Masks())
  {
    MaskEachWithin(raw[7], h.overcurrent.Masks());
  }

  lemma ButtonsRead(h: Header, raw: seq<byte>)
    requires |raw| == PacketLength
    ensures DecodeButtons(h, raw).Flags() == MaskEach(raw[11], h.button.Masks())
    ensures Within(DecodeButtons(h, raw).Flags(), h.button.Masks())
  {
    MaskEachWithin(raw[11], h.button.Masks());
  }

  lemma ChargerRead(h: Header, raw: seq<byte>)
    requires |raw| == PacketLength
    ensures DecodeChargingSource(h, raw).Flags() == MaskEach(raw[39], h.charger.Masks())
    ensures Within(DecodeChargingSource(h, raw).Flags(), h.charger.Masks())
  {
    MaskEachWithin(raw[39], h.charger.Masks());
  }

  lemma LightBumperRead(h: Header, raw: seq<byte>)
    requires |raw| == PacketLength
    ensures DecodeLightBumper(h, raw).Flags() == MaskEach(raw[56], h.lightBumper.Masks())
    ensures Within(DecodeLightBumper(h, raw).Flags(), h.lightBumper.Masks())
  {
    MaskEachWithin(raw[56], h.lightBumper.Masks());
  }

  lemma WallCliffRead(raw: seq<byte>)
    requires |raw| == PacketLength
    ensures WallCliffFlags(DecodeWall(raw), DecodeCliff(raw)) == [And(raw[1], 0x01), And(raw[2], 0x01), And(raw[3], 0x01), And(raw[4], 0x01), And(raw[5], 0x01), And(raw[6], 0x01)]
    ensures Within(WallCliffFlags(DecodeWall(raw), DecodeCliff(raw)), WallCliffMasks)
  {
    MaskTwice(raw[1], 0x01);
    MaskTwice(raw[2], 0x01);
    MaskTwice(raw[3], 0x01);
    MaskTwice(raw[4], 0x01);
    MaskTwice(raw[5], 0x01);
    MaskTwice(raw[6], 0x01);
  }

  lemma MaskTwice(x: byte, m: byte)
    ensures And(And(x, m), m) == And(x, m)
  {
  }

  /** A button record is determined by its flags. */
  lemma ButtonsFromFlags(a: ButtonState, b: ButtonState)
    requires a.Flags() == b.Flags()
    ensures a == b
  {
    assert a.Flags()[0] == b.Flags()[0] && a.Flags()[1] == b.Flags()[1];
    assert a.Flags()[2] == b.Flags()[2] && a.Flags()[3] == b.Flags()[3];
    assert a.Flags()[4] == b.Flags()[4] && a.Flags()[5] == b.Flags()[5];
    assert a.Flags()[6] == b.Flags()[6] && a.Flags()[7] == b.Flags()[7];
  }
}

/** The packet layout seen from the other side: `Packet` writes a sensor
    record back into the 80 bytes `convertState` reads, field by field at
    the same offsets, storing each value as the type its field is read as
    (`Sensors.Patterns`) and each pattern as the host's native store does. The round trips between the two show that the
    decoder reads every field from its own bytes, loses nothing but the
    bits outside the flag masks and the unused bytes 9 and 36 to 38, and
    depends on nothing else.
 */
module SensorLayout {
  import opened Bytes
  import opened Constants
  import opened Flags
  import opened Sensors

  /** Byte `j` (0 or 1, in address order) of the host's 16-bit store of `w`. */
  function Stored(w: Word, j: int): (b: byte)
    requires 0 <= j < 2
  {
    NativeBytes(HostOrder, w)[j]
  }

  /** Byte `i` of the packet that describes `s`: the byte at offset `i` that
      `convertState` reads the field from, the flags of one byte or-ed
      together, the unused bytes zero. */
  function PacketByte(s: Loads, i: nat): (b: byte)
    requires i < PacketLength
  {
    if i < 12 then HeadByte(s, i)
    else if i < 26 then MotionByte(s, i)
    else if i < 39 then SignalByte(s, i)
    else if i < 56 then StatusByte(s, i)
    else if i < 69 then LightBumperByte(s.lightBumper, i)
    else TailByte(s, i)
  }

  /** Bytes 0 to 11: contact sensors, dirt, omni receiver, buttons. */
  function HeadByte(s: Loads, i: nat): (b: byte)
    requires i < 12
  {
    if i == 0 then OrAll(s.bumps.Flags())
    else if i == 1 then s.wall.wall
    else if i == 2 then s.cliff.left
    else if i == 3 then s.cliff.frontLeft
    else if i == 4 then s.cliff.frontRight
    else if i == 5 then s.cliff.right
    else if i == 6 then s.wall.vwall
    else if i == 7 then OrAll(s.overcurrents.Flags())
    else if i == 8 then s.dirtDetect
    else if i == 9 then 0
    else if i == 10 then s.ir.omni
    else OrAll(s.button.Flags())
  }

  /** Bytes 12 to 25: odometry and battery. */
  function MotionByte(s: Loads, i: nat): (b: byte)
    requires 12 <= i < 26
  {
    if i < 14 then Stored(s.travel.distance, i - 12)
    else if i < 16 then Stored(s.travel.angle, i - 14)
    else if i == 16 then s.battery.chargingState
    else if i < 19 then Stored(s.battery.voltage, i - 17)
    else if i < 21 then Stored(s.battery.current, i - 19)
    else if i == 21 then s.battery.temperature
    else if i < 24 then Stored(s.battery.charge, i - 22)
    else Stored(s.battery.capacity, i - 24)
  }

  /** Bytes 26 to 38: wall and cliff signals, three unused bytes. */
  function SignalByte(s: Loads, i: nat): (b: byte)
    requires 26 <= i < 39
  {
    if i < 28 then Stored(s.wall.wallSignal, i - 26)
    else if i < 30 then Stored(s.cliff.leftSignal, i - 28)
    else if i < 32 then Stored(s.cliff.frontLeftSignal, i - 30)
    else if i < 34 then Stored(s.cliff.frontRightSignal, i - 32)
    else if i < 36 then Stored(s.cliff.rightSignal, i - 34)
    else 0
  }

  /** Bytes 39 to 55: charger, interface state, requested motion, encoders. */
  function StatusByte(s: Loads, i: nat): (b: byte)
    requires 39 <= i < 56
  {
    if i == 39 then OrAll(s.chargingSource.Flags())
    else if i == 40 then s.oiMode
    else if i == 41 then s.song.number
    else if i == 42 then s.song.playing
    else if i == 43 then s.streamPackets
    else if i < 46 then Stored(s.request.velocity, i - 44)
    else if i < 48 then Stored(s.request.radius, i - 46)
    else if i < 50 then Stored(s.request.rightVelocity, i - 48)
    else if i < 52 then Stored(s.request.leftVelocity, i - 50)
    else if i < 54 then Stored(s.encoderCounts.left, i - 52)
    else Stored(s.encoderCounts.right, i - 54)
  }

  /** Bytes 56 to 68: the light bumper. */
  function LightBumperByte(l: LightBumper<Word>, i: nat): (b: byte)
    requires 56 <= i < 69
  {
    if i == 56 then OrAll(l.Flags())
    else if i < 59 then Stored(l.leftSignal, i - 57)
    else if i < 61 then Stored(l.frontLeftSignal, i - 59)
    else if i < 63 then Stored(l.centerLeftSignal, i - 61)
    else if i < 65 then Stored(l.centerRightSignal, i - 63)
    else if i < 67 then Stored(l.frontRightSignal, i - 65)
    else Stored(l.rightSignal, i - 67)
  }

  /** Bytes 69 to 79: side receivers, motor currents, stasis. */
  function TailByte(s: Loads, i: nat): (b: byte)
    requires 69 <= i < 80
  {
    if i == 69 then s.ir.left
    else if i == 70 then s.ir.right
    else if i < 73 then Stored(s.motorCurrent.leftWheel, i - 71)
    else if i < 75 then Stored(s.motorCurrent.rightWheel, i - 73)
    else if i < 77 then Stored(s.motorCurrent.mainBrush, i - 75)
    else if i < 79 then Stored(s.motorCurrent.sideBrush, i - 77)
    else s.stasis
  }

  /** The 80-byte packet that describes the patterns `s`. */
  function LoadsPacket(s: Loads): (raw: seq<byte>)
    ensures |raw| == PacketLength
  {
    seq(PacketLength, i requires 0 <= i < PacketLength => PacketByte(s, i))
  }

  /** Byte `i` of `raw` with every bit the decoder ignores cleared: a flag
      byte under the union of its masks, bit 0 of bytes 1 to 6, the unused
      bytes as zero, every other byte whole. */
  function MaskedByte(h: Header, raw: seq<byte>, i: nat): (b: byte)
    requires |raw| == PacketLength && i < PacketLength
  {
    if i < 12 then MaskedHeadByte(h, raw, i)
    else if 36 <= i <= 38 then 0
    else if i == 39 then And(raw[39], h.charger.Mask())
    else if i == 56 then And(raw[56], h.lightBumper.Mask())
    else raw[i]
  }

  function MaskedHeadByte(h: Header, raw: seq<byte>, i: nat): (b: byte)
    requires |raw| == PacketLength && i < 12
  {
    if i == 0 then And(raw[0], h.bump.Mask())
    else if i <= 6 then And(raw[i], 0x01)
    else if i == 7 then And(raw[7], h.overcurrent.Mask())
    else if i == 9 then 0
    else if i == 11 then And(raw[11], h.button.Mask())
    else raw[i]
  }

  /** The packet with every bit the decoder ignores cleared. */
  function Masked(h: Header, raw: seq<byte>): (m: seq<byte>)
    requires |raw| == PacketLength
    ensures |m| == PacketLength
  {
    seq(PacketLength, i requires 0 <= i < PacketLength => MaskedByte(h, raw, i))
  }

  /** Storing a word loaded at `k` writes back the bytes at `k` and `k + 1`. */
  lemma RepackWord(raw: seq<byte>, k: nat)
    requires k + 1 < |raw|
    ensures Stored(WordAt(raw, k), 0) == raw[k] && Stored(WordAt(raw, k), 1) == raw[k + 1]
  {
    NativeBytesRoundTrip(HostOrder, raw[k], raw[k + 1]);
  }

  /** A word written with `Stored` at `k` loads back as the same pattern. */
  lemma LoadStored(raw: seq<byte>, k: nat, w: Word)
    requires k + 1 < |raw| && raw[k] == Stored(w, 0) && raw[k + 1] == Stored(w, 1)
    ensures WordAt(raw, k) == w
  {
    NativeWordRoundTrip(HostOrder, w);
  }

  /** The or of the flags decoded from a flag byte is the byte under the
      union of their masks. */
  lemma RepackFlags(h: Header, raw: seq<byte>)
    requires |raw| == PacketLength
    ensures var c := Load(h, raw);
      && OrAll(c.bumps.Flags()) == And(raw[0], h.bump.Mask())
      && OrAll(c.overcurrents.Flags()) == And(raw[7], h.overcurrent.Mask())
      && OrAll(c.button.Flags()) == And(raw[11], h.button.Mask())
      && OrAll(c.chargingSource.Flags()) == And(raw[39], h.charger.Mask())
      && OrAll(c.lightBumper.Flags()) == And(raw[56], h.lightBumper.Mask())
  {
    BumpsRead(h, raw);
    OrMaskEach(raw[0], h.bump.Masks());
    OvercurrentsRead(h, raw);
    OrMaskEach(raw[7], h.overcurrent.Masks());
    ButtonsRead(h, raw);
    OrMaskEach(raw[11], h.button.Masks());
    ChargerRead(h, raw);
    OrMaskEach(raw[39], h.charger.Masks());
    LightBumperRead(h, raw);
    OrMaskEach(raw[56], h.lightBumper.Masks());
  }

  /** Decoding a packet and writing the record back gives the packet with
      exactly the ignored bits cleared: no used bit is lost or moved. */
  lemma RepackLoads(h: Header, raw: seq<byte>)
    requires |raw| == PacketLength
    ensures LoadsPacket(Load(h, raw)) == Masked(h, raw)
  {
    forall i | 0 <= i < PacketLength
      ensures PacketByte(Load(h, raw), i) == MaskedByte(h, raw, i)
    {
      if i < 39 {
        RepackFront(h, raw, i);
      } else {
        RepackBack(h, raw, i);
      }
    }
  }

  lemma RepackFront(h: Header, raw: seq<byte>, i: nat)
    requires |raw| == PacketLength && i < 39
    ensures PacketByte(Load(h, raw), i) == MaskedByte(h, raw, i)
  {
    var c := Load(h, raw);
    if i < 12 {
      RepackFlags(h, raw);
      RepackHead(h, c, raw, i);
    } else if i < 26 {
      RepackTravelBattery(c, raw, i);
    } else {
      RepackSignals(h, c, raw, i);
    }
  }

  lemma RepackBack(h: Header, raw: seq<byte>, i: nat)
    requires |raw| == PacketLength && 39 <= i < PacketLength
    ensures PacketByte(Load(h, raw), i) == MaskedByte(h, raw, i)
  {
    var c := Load(h, raw);
    RepackFlags(h, raw);
    if i < 56 {
      RepackStatus(h, c, raw, i);
    } else if i < 69 {
      RepackLightBumper(h, c, raw, i);
    } else {
      RepackTail(c, raw, i);
    }
  }

  lemma RepackHead(h: Header, s: Loads, raw: seq<byte>, i: nat)
    requires |raw| == PacketLength && i < 12
    requires OrAll(s.bumps.Flags()) == And(raw[0], h.bump.Mask())
    requires OrAll(s.overcurrents.Flags()) == And(raw[7], h.overcurrent.Mask())
    requires OrAll(s.button.Flags()) == And(raw[11], h.button.Mask())
    requires s.wall == DecodeWall(raw) && s.cliff == DecodeCliff(raw)
    requires s.dirtDetect == raw[8] && s.ir == DecodeIr(raw)
    ensures HeadByte(s, i) == MaskedHeadByte(h, raw, i)
  {
    if 1 <= i <= 6 {
      RepackContacts(h, s, raw, i);
    }
  }

  lemma RepackContacts(h: Header, s: Loads, raw: seq<byte>, i: nat)
    requires |raw| == PacketLength && 1 <= i <= 6
    requires s.wall == DecodeWall(raw) && s.cliff == DecodeCliff(raw)
    ensures HeadByte(s, i) == And(raw[i], 0x01)
  {
  }

  lemma RepackTravelBattery(s: Loads, raw: seq<byte>, i: nat)
    requires |raw| == PacketLength && 12 <= i < 26
    requires s.travel == DecodeTravel(raw) && s.battery == DecodeBattery(raw)
    ensures MotionByte(s, i) == raw[i]
  {
    RepackWord(raw, 12);
    RepackWord(raw, 14);
    RepackWord(raw, 17);
    RepackWord(raw, 19);
    RepackWord(raw, 22);
    RepackWord(raw, 24);
  }

  lemma RepackSignals(h: Header, s: Loads, raw: seq<byte>, i: nat)
    requires |raw| == PacketLength && 26 <= i < 39
    requires s.wall == DecodeWall(raw) && s.cliff == DecodeCliff(raw)
    ensures SignalByte(s, i) == if i < 36 then raw[i] else 0
  {
    RepackWord(raw, 26);
    RepackWord(raw, 28);
    RepackWord(raw, 30);
    RepackWord(raw, 32);
    RepackWord(raw, 34);
  }

  lemma RepackStatus(h: Header, s: Loads, raw: seq<byte>, i: nat)
    requires |raw| == PacketLength && 39 <= i < 56
    requires OrAll(s.chargingSource.Flags()) == And(raw[39], h.charger.Mask())
    requires s.oiMode == raw[40] && s.song == SongState(raw[41], raw[42]) && s.streamPackets == raw[43]
    requires s.request == DecodeRequest(raw)
    requires s.encoderCounts == EncoderCounts(WordAt(raw, 52), WordAt(raw, 54))
    ensures StatusByte(s, i) == if i == 39 then And(raw[39], h.charger.Mask()) else raw[i]
  {
    RepackWord(raw, 44);
    RepackWord(raw, 46);
    RepackWord(raw, 48);
    RepackWord(raw, 50);
    RepackWord(raw, 52);
    RepackWord(raw, 54);
  }

  lemma RepackLightBumper(h: Header, s: Loads, raw: seq<byte>, i: nat)
    requires |raw| == PacketLength && 56 <= i < 69
    requires OrAll(s.lightBumper.Flags()) == And(raw[56], h.lightBumper.Mask())
    requires s.lightBumper == DecodeLightBumper(h, raw)
    ensures LightBumperByte(s.lightBumper, i) == if i == 56 then And(raw[56], h.lightBumper.Mask()) else raw[i]
  {
    RepackWord(raw, 57);
    RepackWord(raw, 59);
    RepackWord(raw, 61);
    RepackWord(raw, 63);
    RepackWord(raw, 65);
    RepackWord(raw, 67);
  }

  lemma RepackTail(s: Loads, raw: seq<byte>, i: nat)
    requires |raw| == PacketLength && 69 <= i < 80
    requires s.ir == DecodeIr(raw) && s.motorCurrent == DecodeMotorCurrent(raw) && s.stasis == raw[79]
    ensures TailByte(s, i) == raw[i]
  {
    RepackWord(raw, 71);
    RepackWord(raw, 73);
    RepackWord(raw, 75);
    RepackWord(raw, 77);
  }

  /** Clearing the ignored bits does not change the decoded record. */
  lemma LoadMasked(h: Header, raw: seq<byte>)
    requires |raw| == PacketLength
    ensures Load(h, Masked(h, raw)) == Load(h, raw)
  {
    MaskedFlags(h, raw);
    MaskedWallCliff(h, raw);
    MaskedMotion(h, raw);
    MaskedStatus(h, raw);
    MaskedLightBumper(h, raw);
  }

  lemma MaskedFlags(h: Header, raw: seq<byte>)
    requires |raw| == PacketLength
    ensures DecodeBumps(h, Masked(h, raw)) == DecodeBumps(h, raw)
    ensures DecodeOvercurrents(h, Masked(h, raw)) == DecodeOvercurrents(h, raw)
    ensures DecodeButtons(h, Masked(h, raw)) == DecodeButtons(h, raw)
    ensures DecodeChargingSource(h, Masked(h, raw)) == DecodeChargingSource(h, raw)
  {
    var m := Masked(h, raw);
    BumpsRead(h, raw);
    BumpsRead(h, m);
    MaskEachUnder(raw[0], h.bump.Masks());
    OvercurrentsRead(h, raw);
    OvercurrentsRead(h, m);
    MaskEachUnder(raw[7], h.overcurrent.Masks());
    ButtonsRead(h, raw);
    ButtonsRead(h, m);
    MaskEachUnder(raw[11], h.button.Masks());
    ChargerRead(h, raw);
    ChargerRead(h, m);
    MaskEachUnder(raw[39], h.charger.Masks());
  }

  lemma MaskedWallCliff(h: Header, raw: seq<byte>)
    requires |raw| == PacketLength
    ensures DecodeWall(Masked(h, raw)) == DecodeWall(raw)
    ensures DecodeCliff(Masked(h, raw)) == DecodeCliff(raw)
  {
    MaskTwice(raw[1], 0x01);
    MaskTwice(raw[2], 0x01);
    MaskTwice(raw[3], 0x01);
    MaskTwice(raw[4], 0x01);
    MaskTwice(raw[5], 0x01);
    MaskTwice(raw[6], 0x01);
  }

  lemma MaskedMotion(h: Header, raw: seq<byte>)
    requires |raw| == PacketLength
    ensures var m := Masked(h, raw);
      && m[8] == raw[8] && DecodeIr(m) == DecodeIr(raw)
      && DecodeTravel(m) == DecodeTravel(raw) && DecodeBattery(m) == DecodeBattery(raw)
  {
  }

  lemma MaskedStatus(h: Header, raw: seq<byte>)
    requires |raw| == PacketLength
    ensures var m := Masked(h, raw);
      && m[40] == raw[40] && m[41] == raw[41] && m[42] == raw[42] && m[43] == raw[43]
      && DecodeRequest(m) == DecodeRequest(raw)
      && WordAt(m, 52) == WordAt(raw, 52) && WordAt(m, 54) == WordAt(raw, 54)
      && DecodeMotorCurrent(m) == DecodeMotorCurrent(raw) && m[79] == raw[79]
  {
  }

  lemma MaskedLightBumper(h: Header, raw: seq<byte>)
    requires |raw| == PacketLength
    ensures DecodeLightBumper(h, Masked(h, raw)) == DecodeLightBumper(h, raw)
  {
    LightBumperRead(h, raw);
    LightBumperRead(h, Masked(h, raw));
    MaskEachUnder(raw[56], h.lightBumper.Masks());
  }

  /** The loads depend on exactly the used bits of the packet. */
  lemma LoadDeterminedBy(h: Header, raw: seq<byte>, raw': seq<byte>)
    requires |raw| == PacketLength && |raw'| == PacketLength
    ensures Load(h, raw) == Load(h, raw') <==> Masked(h, raw) == Masked(h, raw')
  {
    RepackLoads(h, raw);
    RepackLoads(h, raw');
    LoadMasked(h, raw);
    LoadMasked(h, raw');
  }

  /** Writing well-formed patterns into a packet and loading them gives
      them back. */
  lemma LoadsPacketRoundTrip(h: Header, s: Loads)
    requires Valid(h) && WellFormed(h, s)
    ensures Load(h, LoadsPacket(s)) == s
  {
    UnpackBumps(h, s);
    UnpackOvercurrents(h, s);
    UnpackButtons(h, s);
    UnpackCharger(h, s);
    UnpackLightBumper(h, s);
    UnpackWallCliff(s);
    UnpackMotion(s);
    UnpackStatus(s);
  }

  lemma UnpackBumps(h: Header, s: Loads)
    requires h.bump.Valid() && Within(s.bumps.Flags(), h.bump.Masks())
    ensures DecodeBumps(h, LoadsPacket(s)) == s.bumps
  {
    assert LoadsPacket(s)[0] == OrAll(s.bumps.Flags());
    BumpsFrom(h, s.bumps, LoadsPacket(s));
  }

  lemma BumpsFrom(h: Header, b: BumpsWheeldrops, raw: seq<byte>)
    requires |raw| == PacketLength && raw[0] == OrAll(b.Flags())
    requires h.bump.Valid() && Within(b.Flags(), h.bump.Masks())
    ensures DecodeBumps(h, raw) == b
  {
    BumpsRead(h, raw);
    MaskEachOrAll(b.Flags(), h.bump.Masks());
  }

  lemma UnpackOvercurrents(h: Header, s: Loads)
    requires h.overcurrent.Valid() && Within(s.overcurrents.Flags(), h.overcurrent.Masks())
    ensures DecodeOvercurrents(h, LoadsPacket(s)) == s.overcurrents
  {
    assert LoadsPacket(s)[7] == OrAll(s.overcurrents.Flags());
    OvercurrentsFrom(h, s.overcurrents, LoadsPacket(s));
  }

  lemma OvercurrentsFrom(h: Header, o: WheelOvercurrents, raw: seq<byte>)
    requires |raw| == PacketLength && raw[7] == OrAll(o.Flags())
    requires h.overcurrent.Valid() && Within(o.Flags(), h.overcurrent.Masks())
    ensures DecodeOvercurrents(h, raw) == o
  {
    OvercurrentsRead(h, raw);
    MaskEachOrAll(o.Flags(), h.overcurrent.Masks());
  }

  lemma UnpackButtons(h: Header, s: Loads)
    requires h.button.Valid() && Within(s.button.Flags(), h.button.Masks())
    ensures DecodeButtons(h, LoadsPacket(s)) == s.button
  {
    assert LoadsPacket(s)[11] == OrAll(s.button.Flags());
    ButtonsFrom(h, s.button, LoadsPacket(s));
  }

  lemma ButtonsFrom(h: Header, b: ButtonState, raw: seq<byte>)
    requires |raw| == PacketLength && raw[11] == OrAll(b.Flags())
    requires h.button.Valid() && Within(b.Flags(), h.button.Masks())
    ensures DecodeButtons(h, raw) == b
  {
    ButtonsRead(h, raw);
    MaskEachOrAll(b.Flags(), h.button.Masks());
    ButtonsFromFlags(DecodeButtons(h, raw), b);
  }

  lemma UnpackCharger(h: Header, s: Loads)
    requires h.charger.Valid() && Within(s.chargingSource.Flags(), h.charger.Masks())
    ensures DecodeChargingSource(h, LoadsPacket(s)) == s.chargingSource
  {
    assert LoadsPacket(s)[39] == OrAll(s.chargingSource.Flags());
    ChargerFrom(h, s.chargingSource, LoadsPacket(s));
  }

  lemma ChargerFrom(h: Header, c: ChargingSource, raw: seq<byte>)
    requires |raw| == PacketLength && raw[39] == OrAll(c.Flags())
    requires h.charger.Valid() && Within(c.Flags(), h.charger.Masks())
    ensures DecodeChargingSource(h, raw) == c
  {
    ChargerRead(h, raw);
    MaskEachOrAll(c.Flags(), h.charger.Masks());
  }

  lemma UnpackLightBumper(h: Header, s: Loads)
    requires h.lightBumper.Valid() && Within(s.lightBumper.Flags(), h.lightBumper.Masks())
    ensures DecodeLightBumper(h, LoadsPacket(s)) == s.lightBumper
  {
    assert LoadsPacket(s)[56] == OrAll(s.lightBumper.Flags());
    UnpackLightBumperSignals(s);
    LightBumperFrom(h, s.lightBumper, LoadsPacket(s));
  }

  lemma LightBumperFrom(h: Header, l: LightBumper<Word>, raw: seq<byte>)
    requires |raw| == PacketLength && raw[56] == OrAll(l.Flags())
    requires h.lightBumper.Valid() && Within(l.Flags(), h.lightBumper.Masks())
    requires WordAt(raw, 57) == l.leftSignal && WordAt(raw, 59) == l.frontLeftSignal
    requires WordAt(raw, 61) == l.centerLeftSignal && WordAt(raw, 63) == l.centerRightSignal
    requires WordAt(raw, 65) == l.frontRightSignal && WordAt(raw, 67) == l.rightSignal
    ensures DecodeLightBumper(h, raw) == l
  {
    LightBumperRead(h, raw);
    MaskEachOrAll(l.Flags(), h.lightBumper.Masks());
  }

  lemma UnpackLightBumperSignals(s: Loads)
    ensures var raw := LoadsPacket(s);
      && WordAt(raw, 57) == s.lightBumper.leftSignal && WordAt(raw, 59) == s.lightBumper.frontLeftSignal
      && WordAt(raw, 61) == s.lightBumper.centerLeftSignal && WordAt(raw, 63) == s.lightBumper.centerRightSignal
      && WordAt(raw, 65) == s.lightBumper.frontRightSignal && WordAt(raw, 67) == s.lightBumper.rightSignal
  {
    var raw := LoadsPacket(s);
    LoadStored(raw, 57, s.lightBumper.leftSignal);
    LoadStored(raw, 59, s.lightBumper.frontLeftSignal);
    LoadStored(raw, 61, s.lightBumper.centerLeftSignal);
    LoadStored(raw, 63, s.lightBumper.centerRightSignal);
    LoadStored(raw, 65, s.lightBumper.frontRightSignal);
    LoadStored(raw, 67, s.lightBumper.rightSignal);
  }

  lemma UnpackWallCliff(s: Loads)
    requires Within(WallCliffFlags(s.wall, s.cliff), WallCliffMasks)
    ensures DecodeWall(LoadsPacket(s)) == s.wall && DecodeCliff(LoadsPacket(s)) == s.cliff
  {
    var raw := LoadsPacket(s);
    var t := WallCliffFlags(s.wall, s.cliff);
    assert And(t[0], 0x01) == t[0] && And(t[1], 0x01) == t[1] && And(t[2], 0x01) == t[2];
    assert And(t[3], 0x01) == t[3] && And(t[4], 0x01) == t[4] && And(t[5], 0x01) == t[5];
    LoadStored(raw, 26, s.wall.wallSignal);
    LoadStored(raw, 28, s.cliff.leftSignal);
    LoadStored(raw, 30, s.cliff.frontLeftSignal);
    LoadStored(raw, 32, s.cliff.frontRightSignal);
    LoadStored(raw, 34, s.cliff.rightSignal);
  }

  lemma UnpackMotion(s: Loads)
    ensures var raw := LoadsPacket(s);
      && raw[8] == s.dirtDetect && DecodeIr(raw) == s.ir
      && DecodeTravel(raw) == s.travel && DecodeBattery(raw) == s.battery
  {
    UnpackTravel(s);
    UnpackBattery(s);
  }

  lemma UnpackTravel(s: Loads)
    ensures DecodeTravel(LoadsPacket(s)) == s.travel
  {
    LoadStored(LoadsPacket(s), 12, s.travel.distance);
    LoadStored(LoadsPacket(s), 14, s.travel.angle);
  }

  lemma UnpackBattery(s: Loads)
    ensures DecodeBattery(LoadsPacket(s)) == s.battery
  {
    var raw := LoadsPacket(s);
    LoadStored(raw, 17, s.battery.voltage);
    LoadStored(raw, 19, s.battery.current);
    LoadStored(raw, 22, s.battery.charge);
    LoadStored(raw, 24, s.battery.capacity);
  }

  lemma UnpackStatus(s: Loads)
    ensures var raw := LoadsPacket(s);
      && raw[40] == s.oiMode && raw[41] == s.song.number && raw[42] == s.song.playing && raw[43] == s.streamPackets
      && DecodeRequest(raw) == s.request
      && WordAt(raw, 52) == s.encoderCounts.left && WordAt(raw, 54) == s.encoderCounts.right
      && DecodeMotorCurrent(raw) == s.motorCurrent && raw[79] == s.stasis
  {
    UnpackRequest(s);
    UnpackEncoders(s);
    UnpackMotorCurrent(s);
  }

  lemma UnpackRequest(s: Loads)
    ensures DecodeRequest(LoadsPacket(s)) == s.request
  {
    var raw := LoadsPacket(s);
    LoadStored(raw, 44, s.request.velocity);
    LoadStored(raw, 46, s.request.radius);
    LoadStored(raw, 48, s.request.rightVelocity);
    LoadStored(raw, 50, s.request.leftVelocity);
  }

  lemma UnpackEncoders(s: Loads)
    ensures WordAt(LoadsPacket(s), 52) == s.encoderCounts.left && WordAt(LoadsPacket(s), 54) == s.encoderCounts.right
  {
    LoadStored(LoadsPacket(s), 52, s.encoderCounts.left);
    LoadStored(LoadsPacket(s), 54, s.encoderCounts.right);
  }

  lemma UnpackMotorCurrent(s: Loads)
    ensures DecodeMotorCurrent(LoadsPacket(s)) == s.motorCurrent
  {
    var raw := LoadsPacket(s);
    LoadStored(raw, 71, s.motorCurrent.leftWheel);
    LoadStored(raw, 73, s.motorCurrent.rightWheel);
    LoadStored(raw, 75, s.motorCurrent.mainBrush);
    LoadStored(raw, 77, s.motorCurrent.sideBrush);
  }

  /** The 80-byte packet that describes the record `s`: every value stored
      at its offset as the type its field is read as. */
  function Packet(s: SensorState): (raw: seq<byte>)
    ensures |raw| == PacketLength
  {
    LoadsPacket(Patterns(s))
  }

  /** Writing a well-formed record into a packet and decoding it gives the
      record back: `Packet` is a right inverse of `convertState` on the
      records it can produce. */
  lemma PacketRoundTrip(h: Header, s: SensorState)
    requires Valid(h) && WellFormed(h, s)
    ensures ConvertState(h, Packet(s)) == s
  {
    ReadPatterns(s);
    ReadKeepsFlags(h, Patterns(s));
    LoadsPacketRoundTrip(h, Patterns(s));
  }

  /** Decoding a packet and writing the record back gives the packet with
      exactly the ignored bits cleared: no used bit is lost or moved. */
  lemma RepackPacket(h: Header, raw: seq<byte>)
    requires |raw| == PacketLength
    ensures Packet(ConvertState(h, raw)) == Masked(h, raw)
  {
    PatternsRead(Load(h, raw), Load(h, raw));
    RepackLoads(h, raw);
  }

  /** Clearing the ignored bits does not change the decoded record. */
  lemma DecodeMasked(h: Header, raw: seq<byte>)
    requires |raw| == PacketLength
    ensures ConvertState(h, Masked(h, raw)) == ConvertState(h, raw)
  {
    LoadMasked(h, raw);
  }

  /** `convertState` depends on exactly the used bits of the packet: two
      packets decode to the same record if and only if they agree once the
      ignored bits are cleared. */
  lemma ConvertStateDeterminedBy(h: Header, raw: seq<byte>, raw': seq<byte>)
    requires |raw| == PacketLength && |raw'| == PacketLength
    ensures ConvertState(h, raw) == ConvertState(h, raw') <==> Masked(h, raw) == Masked(h, raw')
  {
    PatternsRead(Load(h, raw), Load(h, raw'));
    LoadDeterminedBy(h, raw, raw');
  }

  /** In particular the unused bytes 9 and 36 to 38 never matter. */
  lemma UnusedBytesIgnored(h: Header, raw: seq<byte>, raw': seq<byte>)
    requires |raw| == PacketLength && |raw'| == PacketLength
    requires forall i :: 0 <= i < PacketLength && i != 9 && !(36 <= i <= 38) ==> raw[i] == raw'[i]
    ensures ConvertState(h, raw) == ConvertState(h, raw')
  {
    assert Masked(h, raw) == Masked(h, raw');
    ConvertStateDeterminedBy(h, raw, raw');
  }
}

/** The byte sequences the driver writes to the serial link, one `write`
    call per sequence, for each Open Interface command it issues. The
    sleeps after each write carry no data and are not modelled.
 */
module Commands {
  import opened Bytes
  import opened Constants
  import opened Options

  /** `sendOpCode(oc, dataBytes, nDataBytes)`: one message of the opcode
      followed by the first `n` data bytes, copied unchanged. A null
      `dataBytes` is `None`; every caller passes it with `n == 0`. */
  function SendOpCode(oc: byte, data: Option<seq<byte>>, n: nat): (msg: seq<byte>)
    requires data.Some? ==> n <= |data.value|
    requires data.None? ==> n == 0
    ensures |msg| == n + 1 && msg[0] == oc
    ensures data.Some? ==> forall i :: 0 <= i < n ==> msg[i + 1] == data.value[i]
    ensures data.None? ==> msg == [oc]
  {
    [oc] + (if data.Some? then data.value[..n] else [])
  }

  /** `sendOpCode(OC_x)` with the default arguments, taken to be a null
      data pointer and a count of 0: the bare opcode. */
  function Send(h: Header, op: Op): (msg: seq<byte>)
    ensures msg == [OpCode(h, op)]
  {
    SendOpCode(OpCode(h, op), None, 0)
  }

  /** `startup`: Start, then Control. */
  function Startup(h: Header): (writes: seq<seq<byte>>)
    ensures writes == [[OpCode(h, Start)], [OpCode(h, Control)]]
  {
    [Send(h, Start), Send(h, Control)]
  }

  /** An opcode followed by two `short`s, each high byte first: the frame
      `drive`, `driveDirect` and `drivePWM` all build. */
  function ShortsFrame(oc: byte, first: int16, second: int16): (frame: seq<byte>)
    ensures |frame| == 5 && frame[0] == oc
  {
    [oc, HighByte(first), LowByte(first), HighByte(second), LowByte(second)]
  }

  /** `drive(velocity, radius)`: the Drive opcode, then the velocity and
      the radius, each read back high byte first as the `short` passed. */
  function Drive(h: Header, velocity: int16, radius: int16): (frame: seq<byte>)
    ensures |frame| == 5 && frame[0] == OpCode(h, Op.Drive)
    ensures Signed16(Word(frame[1], frame[2])) == velocity && Signed16(Word(frame[3], frame[4])) == radius
  {
    WordOfRoundTrip(velocity);
    WordOfRoundTrip(radius);
    ShortsFrame(h.oc.drive, velocity, radius)
  }

  /** The bytes `driveDirect` writes once it has computed the wheel speeds:
      the right wheel before the left, each read back high byte first as
      the `short` passed. */
  function DriveDirect(h: Header, right: int16, left: int16): (frame: seq<byte>)
    ensures |frame| == 5 && frame[0] == OpCode(h, Op.DriveDirect)
    ensures Signed16(Word(frame[1], frame[2])) == right && Signed16(Word(frame[3], frame[4])) == left
  {
    WordOfRoundTrip(right);
    WordOfRoundTrip(left);
    ShortsFrame(h.oc.driveDirect, right, left)
  }

  /** The bytes `drivePWM` writes once it has computed the duty cycles: the
      right wheel before the left, each read back high byte first as the
      `short` passed. */
  function DrivePwm(h: Header, right: int16, left: int16): (frame: seq<byte>)
    ensures |frame| == 5 && frame[0] == OpCode(h, Op.DrivePwm)
    ensures Signed16(Word(frame[1], frame[2])) == right && Signed16(Word(frame[3], frame[4])) == left
  {
    WordOfRoundTrip(right);
    WordOfRoundTrip(left);
    ShortsFrame(h.oc.drivePwm, right, left)
  }

  /** `dock`: the Buttons command pressing the dock button. */
  function Dock(h: Header): (msg: seq<byte>)
    ensures msg == [OpCode(h, Buttons), h.button.dock]
  {
    [h.oc.buttons, h.button.dock]
  }

  /** `setMotorState(state)`. */
  function SetMotorState(h: Header, state: byte): (msg: seq<byte>)
    ensures msg == [OpCode(h, Motors), state]
  {
    [h.oc.motors, state]
  }

  /** `seekDock`. */
  function SeekDock(h: Header): (msg: seq<byte>)
    ensures msg == [OpCode(h, Op.SeekDock)]
  {
    [h.oc.seekDock]
  }

  /** The note `song` always sends. */
  const NotePitch: byte := 60
  const NoteDuration: byte := 126

  /** `song(number, length)`: Safe, then the first `2 * length + 3` bytes
      of the five-byte array holding the opcode, the number, the length and
      one note. The array bounds the length to at most 1; a length of -1
      writes the bare opcode. */
  function Song(h: Header, number: int, length: int): (writes: seq<seq<byte>>)
    requires -1 <= length <= 1
    ensures |writes| == 2 && writes[0] == Send(h, Safe)
    ensures |writes[1]| == 2 * length + 3 && writes[1][0] == h.oc.song
  {
    var commandSeq := [h.oc.song, Truncate8(number), Truncate8(length), NotePitch, NoteDuration];
    [Send(h, Safe), commandSeq[..2 * length + 3]]
  }

  /** `playing(number)`: the Play command with the song number narrowed
      to a byte, that is taken modulo 256. */
  function Playing(h: Header, number: int): (msg: seq<byte>)
    ensures |msg| == 2 && msg[0] == OpCode(h, Play) && msg[1] as int == number % 256
  {
    Truncate8Value(number);
    [h.oc.play, Truncate8(number)]
  }

  /** The request `updateSensorState` sends: Sensors with the packet id of
      the all-sensors group as its one data byte. */
  function SensorsRequest(h: Header): (msg: seq<byte>)
    ensures msg == [OpCode(h, Sensors), h.allPacket]
  {
    SendOpCode(h.oc.sensors, Some([h.allPacket]), 1)
  }
}

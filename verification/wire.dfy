/** The robot's side of the command link: how a receiver following the Open
    Interface reads one written byte sequence as a command. A frame is a
    known opcode followed by exactly the data bytes that command takes;
    a 16-bit argument arrives high byte first and is kept as its bit
    pattern, whose value the robot reads as a signed `short`
    (`Bytes.Signed16`). This grammar is the reference the driver's encoders
    are proved against.
 */
module Wire {
  import opened Bytes
  import opened Options
  import C = Constants
  import Commands

  /** One note of a song: a MIDI pitch and a duration in 1/64 s. */
  datatype Note = Note(pitch: byte, duration: byte)

  /** The commands the driver sends, with their arguments. */
  datatype Command =
    | Start | Control | Safe | Full | Power | Spot | Clean | Max | SeekDock
    | Drive(velocity: Word, radius: Word)
    | DriveDirect(right: Word, left: Word)
    | DrivePwm(right: Word, left: Word)
    | Motors(bits: byte)
    | Song(number: byte, notes: seq<Note>)
    | Play(number: byte)
    | Sensors(packet: byte)
    | Buttons(bits: byte)

  /** The notes of a song: consecutive pitch, duration pairs. */
  function Notes(args: seq<byte>): (notes: seq<Note>)
    requires |args| % 2 == 0
    ensures |notes| * 2 == |args|
    ensures forall i :: 0 <= i < |notes| ==> notes[i] == Note(args[2 * i], args[2 * i + 1])
  {
    seq(|args| / 2, i requires 0 <= i < |args| / 2 => Note(args[2 * i], args[2 * i + 1]))
  }

  /** The command a frame carries, or `None` when its first byte is no
      known opcode or its length differs from what that command takes. */
  function Parse(h: C.Header, frame: seq<byte>): (r: Option<Command>)
  {
    if |frame| == 0 then None
    else match C.OpOf(h, frame[0])
      case None => None
      case Some(op) => ParseArgs(op, frame[1..])
  }

  /** The command `op` with data bytes `args`. */
  function ParseArgs(op: C.Op, args: seq<byte>): (r: Option<Command>)
  {
    if TakesShorts(op) then
      if |args| == 4 then Some(ShortsCommand(op, Word(args[0], args[1]), Word(args[2], args[3]))) else None
    else if TakesByte(op) then
      if |args| == 1 then Some(ByteCommand(op, args[0])) else None
    else if op.Song? then
      if 2 <= |args| && |args| == 2 + 2 * (args[1] as int) then Some(Song(args[0], Notes(args[2..]))) else None
    else
      if |args| == 0 then Some(BareCommand(op)) else None
  }

  predicate TakesShorts(op: C.Op)
  {
    op.Drive? || op.DriveDirect? || op.DrivePwm?
  }

  predicate TakesByte(op: C.Op)
  {
    op.Motors? || op.Play? || op.Sensors? || op.Buttons?
  }

  /** Whether `op` is followed by data bytes. */
  predicate Takes(op: C.Op)
  {
    TakesShorts(op) || TakesByte(op) || op.Song?
  }

  /** The command with two `short` arguments that `op` announces. */
  function ShortsCommand(op: C.Op, first: Word, second: Word): (c: Command)
    requires TakesShorts(op)
  {
    match op
    case Drive => Drive(first, second)
    case DriveDirect => DriveDirect(first, second)
    case DrivePwm => DrivePwm(first, second)
  }

  /** The command with one data byte that `op` announces. */
  function ByteCommand(op: C.Op, b: byte): (c: Command)
    requires TakesByte(op)
  {
    match op
    case Motors => Motors(b)
    case Play => Play(b)
    case Sensors => Sensors(b)
    case Buttons => Buttons(b)
  }

  /** The command without data that `op` announces. */
  function BareCommand(op: C.Op): (c: Command)
    requires !Takes(op)
  {
    match op
    case Start => Start
    case Control => Control
    case Safe => Safe
    case Full => Full
    case Power => Power
    case Spot => Spot
    case Clean => Clean
    case Max => Max
    case SeekDock => SeekDock
  }

  /** The opcode that announces each command. */
  function OpOfCommand(c: Command): (r: C.Op)
  {
    match c
    case Start => C.Start
    case Control => C.Control
    case Safe => C.Safe
    case Full => C.Full
    case Power => C.Power
    case Spot => C.Spot
    case Clean => C.Clean
    case Max => C.Max
    case SeekDock => C.SeekDock
    case Drive(_, _) => C.Drive
    case DriveDirect(_, _) => C.DriveDirect
    case DrivePwm(_, _) => C.DrivePwm
    case Motors(_) => C.Motors
    case Song(_, _) => C.Song
    case Play(_) => C.Play
    case Sensors(_) => C.Sensors
    case Buttons(_) => C.Buttons
  }

  /** A frame whose first byte is the opcode of `op` carries `op` applied to
      the rest of the frame. */
  lemma ParseKnownOpcode(h: C.Header, op: C.Op, frame: seq<byte>)
    requires C.DistinctOpcodes(h) && |frame| > 0 && frame[0] == C.OpCode(h, op)
    ensures Parse(h, frame) == ParseArgs(op, frame[1..])
  {
    C.OpOfOpCode(h, op);
  }

  /** Data bytes read as `op` give a command of `op`. */
  lemma ParseArgsOp(op: C.Op, args: seq<byte>)
    requires ParseArgs(op, args).Some?
    ensures OpOfCommand(ParseArgs(op, args).value) == op
  {
    if TakesShorts(op) {
    } else if TakesByte(op) {
    } else if op.Song? {
    } else {
      assert |args| == 0;
    }
  }

  /** A message built by `sendOpCode` from the opcode of `op` parses as the
      command `op` applied to the data bytes it copied. */
  lemma ParseSendOpCode(h: C.Header, op: C.Op, data: Option<seq<byte>>, n: nat)
    requires C.DistinctOpcodes(h)
    requires data.Some? ==> n <= |data.value|
    requires data.None? ==> n == 0
    ensures Parse(h, Commands.SendOpCode(C.OpCode(h, op), data, n))
         == ParseArgs(op, if data.Some? then data.value[..n] else [])
  {
    var msg := Commands.SendOpCode(C.OpCode(h, op), data, n);
    ParseKnownOpcode(h, op, msg);
    assert msg[1..] == if data.Some? then data.value[..n] else [];
  }

  /** Every data-less command the driver sends arrives as that command. */
  lemma ParseSend(h: C.Header, op: C.Op)
    requires C.DistinctOpcodes(h) && !Takes(op)
    ensures Parse(h, Commands.Send(h, op)) == Some(BareCommand(op))
  {
    var msg := Commands.Send(h, op);
    assert msg == [C.OpCode(h, op)];
    ParseKnownOpcode(h, op, msg);
    assert msg[1..] == [];
    BareArgs(op);
  }

  lemma BareArgs(op: C.Op)
    requires !Takes(op)
    ensures ParseArgs(op, []) == Some(BareCommand(op))
  {
  }

  /** `drive(velocity, radius)` arrives as Drive carrying the bit patterns
      of the two `short`s, which the robot reads back as exactly those. */
  lemma ParseDrive(h: C.Header, velocity: int16, radius: int16)
    requires C.DistinctOpcodes(h)
    ensures Parse(h, Commands.Drive(h, velocity, radius)) == Some(Drive(WordOf(velocity), WordOf(radius)))
    ensures Signed16(WordOf(velocity)) == velocity && Signed16(WordOf(radius)) == radius
  {
    ParseShortsFrame(h, C.Drive, h.oc.drive, velocity, radius);
  }

  /** The wheel speeds `driveDirect` computed arrive right wheel first, and
      the robot reads back exactly those. */
  lemma ParseDriveDirect(h: C.Header, right: int16, left: int16)
    requires C.DistinctOpcodes(h)
    ensures Parse(h, Commands.DriveDirect(h, right, left)) == Some(DriveDirect(WordOf(right), WordOf(left)))
    ensures Signed16(WordOf(right)) == right && Signed16(WordOf(left)) == left
  {
    ParseShortsFrame(h, C.DriveDirect, h.oc.driveDirect, right, left);
  }

  /** The duty cycles `drivePWM` computed arrive right wheel first, and the
      robot reads back exactly those. */
  lemma ParseDrivePwm(h: C.Header, right: int16, left: int16)
    requires C.DistinctOpcodes(h)
    ensures Parse(h, Commands.DrivePwm(h, right, left)) == Some(DrivePwm(WordOf(right), WordOf(left)))
    ensures Signed16(WordOf(right)) == right && Signed16(WordOf(left)) == left
  {
    ParseShortsFrame(h, C.DrivePwm, h.oc.drivePwm, right, left);
  }

  lemma ParseShortsFrame(h: C.Header, op: C.Op, oc: byte, first: int16, second: int16)
    requires C.DistinctOpcodes(h) && TakesShorts(op) && oc == C.OpCode(h, op)
    ensures Parse(h, Commands.ShortsFrame(oc, first, second))
         == Some(ShortsCommand(op, WordOf(first), WordOf(second)))
    ensures Signed16(WordOf(first)) == first && Signed16(WordOf(second)) == second
  {
    var sent := Commands.ShortsFrame(oc, first, second);
    WordOfRoundTrip(first);
    WordOfRoundTrip(second);
    ParseKnownOpcode(h, op, sent);
    assert sent[1..] == [sent[1], sent[2], sent[3], sent[4]];
  }

  /** Only one frame carries a given command with two 16-bit arguments: the
      opcode followed by both patterns, high byte first, as `drive`,
      `driveDirect` and `drivePWM` write them. */
  lemma ShortsFrameUnique(h: C.Header, op: C.Op, first: Word, second: Word, frame: seq<byte>)
    requires TakesShorts(op)
    requires Parse(h, frame) == Some(ShortsCommand(op, first, second))
    ensures frame == [C.OpCode(h, op), first.hi, first.lo, second.hi, second.lo]
  {
    ShortsFrameParts(h, op, first, second, frame);
    FrameOfFive(frame, C.OpCode(h, op), first.hi, first.lo, second.hi, second.lo);
  }

  lemma ShortsFrameParts(h: C.Header, op: C.Op, first: Word, second: Word, frame: seq<byte>)
    requires TakesShorts(op)
    requires Parse(h, frame) == Some(ShortsCommand(op, first, second))
    ensures |frame| > 0 && frame[0] == C.OpCode(h, op)
    ensures frame[1..] == [first.hi, first.lo, second.hi, second.lo]
  {
    ParseSplits(h, frame);
    ShortsArgsUnique(C.OpOf(h, frame[0]).value, op, first, second, frame[1..]);
  }

  lemma ShortsArgsUnique(read: C.Op, op: C.Op, first: Word, second: Word, args: seq<byte>)
    requires TakesShorts(op) && ParseArgs(read, args) == Some(ShortsCommand(op, first, second))
    ensures read == op && args == [first.hi, first.lo, second.hi, second.lo]
  {
    ParseArgsOp(read, args);
    assert |args| == 4;
  }

  /** A frame that parses is a known opcode followed by that command's data. */
  lemma ParseSplits(h: C.Header, frame: seq<byte>)
    requires Parse(h, frame).Some?
    ensures |frame| > 0 && C.OpOf(h, frame[0]).Some?
    ensures frame[0] == C.OpCode(h, C.OpOf(h, frame[0]).value)
    ensures Parse(h, frame) == ParseArgs(C.OpOf(h, frame[0]).value, frame[1..])
  {
    C.OpOfSound(h, frame[0]);
  }

  lemma FrameOfFive(frame: seq<byte>, oc: byte, a: byte, b: byte, c: byte, d: byte)
    requires |frame| > 0 && frame[0] == oc && frame[1..] == [a, b, c, d]
    ensures frame == [oc, a, b, c, d]
  {
    assert frame == [frame[0]] + frame[1..];
  }

  /** `dock` presses the dock button through the Buttons command. */
  lemma ParseDock(h: C.Header)
    requires C.DistinctOpcodes(h)
    ensures Parse(h, Commands.Dock(h)) == Some(Buttons(h.button.dock))
  {
    ParseKnownOpcode(h, C.Buttons, Commands.Dock(h));
    assert Commands.Dock(h)[1..] == [h.button.dock];
  }

  /** `setMotorState(state)` arrives as Motors carrying `state` unchanged. */
  lemma ParseSetMotorState(h: C.Header, state: byte)
    requires C.DistinctOpcodes(h)
    ensures Parse(h, Commands.SetMotorState(h, state)) == Some(Motors(state))
  {
    var sent := Commands.SetMotorState(h, state);
    ParseKnownOpcode(h, C.Motors, sent);
    assert sent[1..] == [state];
  }

  /** The driver's frame is the only one that carries a given Motors command. */
  lemma MotorsFrameUnique(h: C.Header, state: byte, frame: seq<byte>)
    requires Parse(h, frame) == Some(Motors(state))
    ensures frame == Commands.SetMotorState(h, state)
  {
    ByteFrameUnique(h, C.Motors, state, frame);
  }

  /** Only one frame carries a given command with one data byte: the opcode
      followed by that byte. */
  lemma ByteFrameUnique(h: C.Header, op: C.Op, b: byte, frame: seq<byte>)
    requires TakesByte(op) && Parse(h, frame) == Some(ByteCommand(op, b))
    ensures frame == [C.OpCode(h, op), b]
  {
    ByteFrameParts(h, op, b, frame);
    assert frame == [frame[0]] + frame[1..];
  }

  lemma ByteFrameParts(h: C.Header, op: C.Op, b: byte, frame: seq<byte>)
    requires TakesByte(op) && Parse(h, frame) == Some(ByteCommand(op, b))
    ensures |frame| > 0 && frame[0] == C.OpCode(h, op) && frame[1..] == [b]
  {
    ParseSplits(h, frame);
    ByteArgsUnique(C.OpOf(h, frame[0]).value, op, b, frame[1..]);
  }

  lemma ByteArgsUnique(read: C.Op, op: C.Op, b: byte, args: seq<byte>)
    requires TakesByte(op) && ParseArgs(read, args) == Some(ByteCommand(op, b))
    ensures read == op && args == [b]
  {
    ParseArgsOp(read, args);
    assert |args| == 1;
  }

  /** `seekDock` arrives as SeekDock. */
  lemma ParseSeekDock(h: C.Header)
    requires C.DistinctOpcodes(h)
    ensures Parse(h, Commands.SeekDock(h)) == Some(SeekDock)
  {
    ParseKnownOpcode(h, C.SeekDock, Commands.SeekDock(h));
  }

  /** `playing(number)` arrives as Play of song `number` modulo 256. */
  lemma ParsePlaying(h: C.Header, number: int)
    requires C.DistinctOpcodes(h)
    ensures Parse(h, Commands.Playing(h, number)) == Some(Play(Truncate8(number)))
    ensures Truncate8(number) as int == number % 256
  {
    Truncate8Value(number);
    ParseKnownOpcode(h, C.Play, Commands.Playing(h, number));
    assert Commands.Playing(h, number)[1..] == [Truncate8(number)];
  }

  /** `song(number, length)` first switches to Safe mode. */
  lemma ParseSongSafe(h: C.Header, number: int, length: int)
    requires C.DistinctOpcodes(h) && -1 <= length <= 1
    ensures Parse(h, Commands.Song(h, number, length)[0]) == Some(Safe)
  {
    ParseSend(h, C.Safe);
  }

  /** With a length of 1, `song` defines song `number` modulo 256 as its
      one note. */
  lemma ParseSongOne(h: C.Header, number: int)
    requires C.DistinctOpcodes(h)
    ensures Parse(h, Commands.Song(h, number, 1)[1]) == Some(Song(Truncate8(number), [Note(Commands.NotePitch, Commands.NoteDuration)]))
  {
    var frame := Commands.Song(h, number, 1)[1];
    Truncate8Value(1);
    assert frame == [h.oc.song, Truncate8(number), Truncate8(1), Commands.NotePitch, Commands.NoteDuration];
    SongOneNote(h, Truncate8(number), Truncate8(1), frame);
  }

  /** With a length of 0, the second write of `song` reads under `Parse` as
      a Song command for song `number` modulo 256 with no notes. */
  lemma ParseSongEmpty(h: C.Header, number: int)
    requires C.DistinctOpcodes(h)
    ensures Parse(h, Commands.Song(h, number, 0)[1]) == Some(Song(Truncate8(number), []))
  {
    var frame := Commands.Song(h, number, 0)[1];
    Truncate8Value(0);
    assert frame == [h.oc.song, Truncate8(number), Truncate8(0)];
    SongNoNotes(h, Truncate8(number), Truncate8(0), frame);
  }

  /** With a length of -1, `song` sends the Song opcode without the data
      the command needs, which the per-write grammar `Parse` rejects; on the
      byte stream the robot would take the next write's bytes as the song
      number and length. */
  lemma ParseSongTruncated(h: C.Header, number: int)
    requires C.DistinctOpcodes(h)
    ensures Parse(h, Commands.Song(h, number, -1)[1]) == None
  {
    var frame := Commands.Song(h, number, -1)[1];
    assert frame == [h.oc.song];
    SongLoneOpcode(h, frame);
  }

  lemma SongLoneOpcode(h: C.Header, frame: seq<byte>)
    requires C.DistinctOpcodes(h) && frame == [h.oc.song]
    ensures Parse(h, frame) == None
  {
    ParseKnownOpcode(h, C.Song, frame);
    assert frame[1..] == [];
  }

  lemma SongNoNotes(h: C.Header, n: byte, l: byte, frame: seq<byte>)
    requires C.DistinctOpcodes(h) && l as int == 0 && frame == [h.oc.song, n, l]
    ensures Parse(h, frame) == Some(Song(n, []))
  {
    ParseKnownOpcode(h, C.Song, frame);
    assert frame[1..] == [n, l];
    SongArgsEmpty(n, l);
  }

  lemma SongOneNote(h: C.Header, n: byte, l: byte, frame: seq<byte>)
    requires C.DistinctOpcodes(h) && l as int == 1
    requires frame == [h.oc.song, n, l, Commands.NotePitch, Commands.NoteDuration]
    ensures Parse(h, frame) == Some(Song(n, [Note(Commands.NotePitch, Commands.NoteDuration)]))
  {
    ParseKnownOpcode(h, C.Song, frame);
    assert frame[1..] == [n, l, Commands.NotePitch, Commands.NoteDuration];
    SongArgsOne(n, l);
  }

  lemma SongArgsEmpty(n: byte, l: byte)
    requires l as int == 0
    ensures ParseArgs(C.Song, [n, l]) == Some(Song(n, []))
  {
  }

  lemma SongArgsOne(n: byte, l: byte)
    requires l as int == 1
    ensures ParseArgs(C.Song, [n, l, Commands.NotePitch, Commands.NoteDuration])
         == Some(Song(n, [Note(Commands.NotePitch, Commands.NoteDuration)]))
  {
    var args := [n, l, Commands.NotePitch, Commands.NoteDuration];
    assert args[2..] == [Commands.NotePitch, Commands.NoteDuration];
    assert Notes(args[2..]) == [Note(Commands.NotePitch, Commands.NoteDuration)];
  }

  /** The request `updateSensorState` sends asks for the all-sensors group. */
  lemma ParseSensorsRequest(h: C.Header)
    requires C.DistinctOpcodes(h)
    ensures Parse(h, Commands.SensorsRequest(h)) == Some(Sensors(h.allPacket))
  {
    ParseSendOpCode(h, C.Sensors, Some([h.allPacket]), 1);
  }
}

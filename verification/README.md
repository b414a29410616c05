# Roomba 500 driver: protocol layer

This project models the protocol layer of the `Roomba` class of the
`roomba_500driver_meiji` ROS driver (`roomba500sci.cpp`). That layer turns
driver commands into the byte sequences written to the iRobot Roomba 500
Open Interface serial link, and decodes the robot's 80-byte all-sensors
packet (sensor group 100) into a sensor record. Byte sequences are
`seq<bv8>`, every operation is a pure function, and each write is one
element of a list of writes.

The modules follow the structure of the source:

- `Bytes`: bytes, the 16-bit bit pattern `Word` and its signed and unsigned
  readings, C's `(uint8)` narrowing (`Truncate8`), the high/low split that
  `drive` uses, and the host's native 16-bit load.
- `Flags`: flag bytes read by masking (`raw & MASK`) and packed by or-ing.
- `Constants`: the header's symbolic constants as a `Header` record. These
  are the `OC_*` opcodes, the `BB_*` and `MB_*` bits, the sensor masks and
  `ALL_PACKET`. `Valid` states what the model assumes of them: distinct
  opcodes, and single-bit masks that are pairwise disjoint within one byte.
- `Commands`: `sendOpCode`, `startup`, `powerOff` and the other data-less
  commands, `dock`, `setMotorState`, `seekDock`, the byte packing of `drive`,
  `driveDirect` and `drivePWM`, `song`, `playing`, and the sensor request.
- `Wire`: the robot's side of the link. `Parse` reads a frame (a known
  opcode followed by exactly the data bytes that command takes) as an Open
  Interface command. It is the independent reference every encoder is proved
  against. The uniqueness lemmas give the converse: the driver's frame is the
  only frame that carries its command.
- `Dispatch`: `sendCtrl`. `SendCtrl` maps a control message to the writes it
  makes. `Intended` states, per mode, which Open Interface commands the
  message asks for. `SendCtrlMeansIntended` proves the two agree for every
  message.
- `Sensors` and `SensorLayout`: `convertState` and its inverse. `Packet`
  writes a record back into the 80 bytes at the same offsets. Round trips in
  both directions show that the decoder reads every field from its own
  bytes. They also show it loses only two things: bits outside the flag
  masks, and the unused bytes 9 and 36 to 38.
- `Driver`: the guard of `updateSensorState`. The packet is converted only
  when the read returned all 80 bytes.

Sixteen-bit sensor fields are modelled as the source reads them, in two
steps. `Sensors.Load` is the native load at the field's offset, under the
named assumption `Bytes.HostOrder == LittleEndian` (an x86 host); it leaves
a record of bit patterns. `Sensors.Read` is the cast: a field loaded through
`int16*` (distance, angle, current, the requested velocities and radius, the
motor currents) becomes an `int16` by `Bytes.Signed16`, one loaded through
`uint16*` (voltage, charge, capacity, the wall, cliff and light bumper
signals, the encoder counts) becomes a `uint16` by `Bytes.Unsigned16`, and
the temperature loaded through `int8*` becomes an `int8` by `Bytes.ToInt8`.
`Sensors.ConvertState` is the two together, so the record holds typed values.
The Open Interface sends these values high byte first.
`Bytes.HostLoadSwapsWireBytes` states the consequence: the loaded pattern is
the wire pattern byte-swapped. `Sensors.Patterns` stores typed values back as
their patterns, and the packet round trips are proved over patterns and
carried to typed values by `Sensors.ReadPatterns` and `Sensors.PatternsRead`.

## Model

| member | source | states |
|---|---|---|
| `Bytes.WordOfRoundTrip` | src/roomba_500driver_meiji/roomba500sci.cpp:194-201 | Splitting a `short` into `(uint8)(v >> 8)` and `(uint8)(v & 0xff)`, then reading the two bytes back high byte first as two's complement, gives `v` again, for every `short`. |
| `Bytes.WordOfSigned` | src/roomba_500driver_meiji/roomba500sci.cpp:194-201 | Every pair of bytes is the split of exactly one `short`: the pair's signed reading. The split is a bijection. |
| `Bytes.Truncate8Value` | src/roomba_500driver_meiji/roomba500sci.cpp:247 | The `(uint8)` narrowing of any integer is that integer modulo 256. |
| `Bytes.ValueDeterminesWord` | src/roomba_500driver_meiji/roomba500sci.cpp:379-433 | Two 16-bit patterns have the same signed, or the same unsigned, reading exactly when they are the same pattern. |
| `Bytes.HostLoadSwapsWireBytes` | src/roomba_500driver_meiji/roomba500sci.cpp:379-380 | On the assumed little-endian host, a native load of the bytes `hi, lo` reads the pattern `lo, hi`. The load agrees with the wire value only when both bytes are equal. |
| `Constants.OpOfOpCode` | src/roomba_500driver_meiji/roomba500sci.cpp:58-63 | With distinct opcodes, the leading byte `(uint8)oc` of a message identifies its command. |
| `Constants.OpOfSound` | src/roomba_500driver_meiji/roomba500sci.cpp:58-63 | The command a leading byte is read as has that byte as its opcode. When no command is found, no command has that opcode. |
| `Commands.Send` | src/roomba_500driver_meiji/roomba500sci.cpp:146-174 | `powerOff`, `clean`, `safe`, `full`, `spot` and `max` each write the one byte that is the opcode of their command. |
| `Commands.Startup` | src/roomba_500driver_meiji/roomba500sci.cpp:141-144 | `startup` makes two one-byte writes: the Start opcode, then the Control opcode. |
| `Commands.Drive` | src/roomba_500driver_meiji/roomba500sci.cpp:194-203 | The `drive` frame is five bytes led by the Drive opcode, and bytes 1-2 and 3-4, read high byte first as `short`s, are the velocity and the radius passed. |
| `Commands.DriveDirect` | src/roomba_500driver_meiji/roomba500sci.cpp:209-216 | The `driveDirect` frame is five bytes led by the Drive Direct opcode, and its two high-first `short`s are the right and then the left wheel speed passed. |
| `Commands.DrivePwm` | src/roomba_500driver_meiji/roomba500sci.cpp:223-230 | The `drivePWM` frame is five bytes led by the Drive PWM opcode, and its two high-first `short`s are the right and then the left duty cycle passed. |
| `Commands.Dock` | src/roomba_500driver_meiji/roomba500sci.cpp:176-180 | `dock` writes the opcode of the Buttons command followed by the dock button's bit. |
| `Commands.SetMotorState` | src/roomba_500driver_meiji/roomba500sci.cpp:182-186 | `setMotorState(state)` writes the opcode of the Motors command followed by `state`, unchanged. |
| `Commands.SeekDock` | src/roomba_500driver_meiji/roomba500sci.cpp:188-192 | `seekDock` writes the one byte that is the opcode of Seek Dock. |
| `Commands.Playing` | src/roomba_500driver_meiji/roomba500sci.cpp:252-256 | `playing(number)` writes two bytes: the Play opcode and the song number modulo 256. |
| `Commands.SensorsRequest` | src/roomba_500driver_meiji/roomba500sci.cpp:262-263 | The poll request is the opcode of the Sensors command followed by the all-sensors packet id. |
| `Commands.SendOpCode` | src/roomba_500driver_meiji/roomba500sci.cpp:58-66 | The message has length `n + 1`. Its first byte is the opcode and its next `n` bytes are the data bytes, unchanged. Without data the message is the opcode alone. |
| `Commands.Song` | src/roomba_500driver_meiji/roomba500sci.cpp:242-250 | `song` makes two writes: the Safe opcode, then `2 * length + 3` bytes of the song command starting with the Song opcode. |
| `Wire.ParseSendOpCode` | src/roomba_500driver_meiji/roomba500sci.cpp:58-66 | A message `sendOpCode` builds from a command's opcode is read as that command applied to the copied data bytes. |
| `Wire.ParseSend` | src/roomba_500driver_meiji/roomba500sci.cpp:141-174 | Every data-less command the driver sends through `sendOpCode` (start, control, power, clean, safe, full, spot, max) arrives as that command. |
| `Wire.ParseDrive` | src/roomba_500driver_meiji/roomba500sci.cpp:194-203 | `drive(velocity, radius)` arrives as Drive carrying both `short`s high byte first, and the robot reads back exactly `velocity` and `radius`. |
| `Wire.ParseDriveDirect` | src/roomba_500driver_meiji/roomba500sci.cpp:209-216 | The packed right and left wheel speeds arrive as Drive Direct, right wheel first, and read back as exactly those values. |
| `Wire.ParseDrivePwm` | src/roomba_500driver_meiji/roomba500sci.cpp:223-230 | The packed right and left duty cycles arrive as Drive PWM, right wheel first, and read back as exactly those values. |
| `Wire.ShortsFrameUnique` | src/roomba_500driver_meiji/roomba500sci.cpp:194-230 | The only frame carrying a Drive, Drive Direct or Drive PWM command is the opcode followed by the two patterns, high byte first, as the driver packs them. |
| `Wire.ParseDock` | src/roomba_500driver_meiji/roomba500sci.cpp:176-180 | `dock` arrives as the Buttons command pressing `BB_DOCK`. |
| `Wire.ParseSetMotorState` | src/roomba_500driver_meiji/roomba500sci.cpp:182-186 | `setMotorState(state)` arrives as Motors carrying `state` unchanged. |
| `Wire.MotorsFrameUnique` | src/roomba_500driver_meiji/roomba500sci.cpp:182-186 | The only frame carrying a given Motors command is the one `setMotorState` writes. |
| `Wire.ByteFrameUnique` | src/roomba_500driver_meiji/roomba500sci.cpp:176-186 | The only frame carrying a command with one data byte is its opcode followed by that byte. |
| `Wire.ParseSeekDock` | src/roomba_500driver_meiji/roomba500sci.cpp:188-192 | `seekDock` arrives as Seek Dock. |
| `Wire.ParsePlaying` | src/roomba_500driver_meiji/roomba500sci.cpp:252-256 | `playing(number)` arrives as Play of song `number` modulo 256. |
| `Wire.ParseSongSafe` | src/roomba_500driver_meiji/roomba500sci.cpp:242-244 | The first write of `song` switches the robot to Safe mode. |
| `Wire.ParseSongOne` | src/roomba_500driver_meiji/roomba500sci.cpp:247-248 | With length 1, the second write of `song` defines song `number` modulo 256 as the single note of pitch 60 and duration 126. |
| `Wire.ParseSongEmpty` | src/roomba_500driver_meiji/roomba500sci.cpp:247-248 | With length 0, the second write reads under `Parse` as a Song command for song `number` modulo 256 with no notes. |
| `Wire.ParseSongTruncated` | src/roomba_500driver_meiji/roomba500sci.cpp:247-248 | With length -1, the second write is the Song opcode alone, which is not a complete Song command. Read per write, it carries no command; on the byte stream the robot would take the bytes of the next write as the song's number and length. |
| `Wire.ParseSensorsRequest` | src/roomba_500driver_meiji/roomba500sci.cpp:262-263 | The request `updateSensorState` writes asks for sensor group `ALL_PACKET`. |
| `Dispatch.SendCtrl` | src/roomba_500driver_meiji/roomba500sci.cpp:286-339 | `sendCtrl` makes one non-empty write for each mode, except two for WAKEUP (Start, Control) and four for SONG (Safe, Safe, Song, Play). |
| `Dispatch.SendCtrlMeansIntended` | src/roomba_500driver_meiji/roomba500sci.cpp:286-339 | For every control message, each write of `sendCtrl` is a well-formed frame, and the frames carry exactly the commands the message's mode asks for, in order. |
| `Dispatch.BareMeansIntended` | src/roomba_500driver_meiji/roomba500sci.cpp:290-311 | SPOT, SAFE, CLEAN, POWER, FULL and MAX each send their one data-less command. |
| `Dispatch.WakeupMeansIntended` | src/roomba_500driver_meiji/roomba500sci.cpp:302-305 | WAKEUP writes Start, then Control. The RTS pulse of `wakeup` writes no bytes. |
| `Dispatch.DockMeansIntended` | src/roomba_500driver_meiji/roomba500sci.cpp:312-314 | DOCK presses the dock button. |
| `Dispatch.MotorsMeansIntended` | src/roomba_500driver_meiji/roomba500sci.cpp:315-320 | MOTORS sends Motors with the union of the main brush, side brush and vacuum bits. |
| `Dispatch.MotorsOffMeansIntended` | src/roomba_500driver_meiji/roomba500sci.cpp:321-323 | MOTORS_OFF sends Motors with no bit set. |
| `Dispatch.DriveDirectMeansIntended` | src/roomba_500driver_meiji/roomba500sci.cpp:324-326 | DRIVE_DIRECT sends Drive Direct with the message's right and left wheel values. |
| `Dispatch.DrivePwmMeansIntended` | src/roomba_500driver_meiji/roomba500sci.cpp:327-329 | DRIVE_PWM sends Drive PWM with the message's right and left duty cycles. |
| `Dispatch.SongMeansIntended` | src/roomba_500driver_meiji/roomba500sci.cpp:330-334 | SONG enters Safe mode twice (once in `safe`, once in `song`), defines song 1 as the one note, and plays song 1. |
| `Dispatch.DriveMeansIntended` | src/roomba_500driver_meiji/roomba500sci.cpp:335-337 | DRIVE and every mode value `sendCtrl` does not name send Drive with the message's velocity and radius. |
| `Dispatch.AllMotorsIsUnion` | src/roomba_500driver_meiji/roomba500sci.cpp:317-319 | The byte MOTORS sends is the or of the three motor masks. |
| `Dispatch.MotorsSetsEach` | src/roomba_500driver_meiji/roomba500sci.cpp:315-320 | In the byte MOTORS sends, each of the three motors reads as switched on. |
| `Dispatch.MotorsOffClearsAll` | src/roomba_500driver_meiji/roomba500sci.cpp:321-323 | In the byte MOTORS_OFF sends, each of the three motors reads as switched off. |
| `Dispatch.UnknownModeDrives` | src/roomba_500driver_meiji/roomba500sci.cpp:335-337 | An unknown mode value makes the same writes as DRIVE. |
| `Dispatch.UnreadFieldsIgnored` | src/roomba_500driver_meiji/roomba500sci.cpp:286-339 | The writes depend only on the mode and on the fields that mode reads. |
| `Flags.MaskEachOrAll` | src/roomba_500driver_meiji/roomba500sci.cpp:343-346 | Packing flags that lie within disjoint masks into one byte and reading the byte back under each mask gives every flag back. |
| `Flags.OrMaskEach` | src/roomba_500driver_meiji/roomba500sci.cpp:343-346 | Or-ing the flags read under each mask equals masking the byte with the union of the masks. |
| `Bytes.LoadsAt` | src/roomba_500driver_meiji/roomba500sci.cpp:379-433 | A native 16-bit load at offset `k` read as unsigned is `256 * raw[k+1] + raw[k]`; read as signed it is that value less 65536 when `raw[k+1]` has its top bit set, and it is negative exactly then. |
| `Bytes.UnsignedWordOf` | src/roomba_500driver_meiji/roomba500sci.cpp:383 | Every `unsigned short` has a 16-bit pattern whose unsigned reading is that value. |
| `Bytes.UnsignedWordOfUnsigned` | src/roomba_500driver_meiji/roomba500sci.cpp:383 | Storing the unsigned reading of a pattern gives the pattern back, so the unsigned cast loses no bit. |
| `Bytes.Int8Byte` | src/roomba_500driver_meiji/roomba500sci.cpp:385 | Every `int8` is the sign extension of some byte. |
| `Bytes.Int8ByteOfToInt8` | src/roomba_500driver_meiji/roomba500sci.cpp:385 | Sign extending a byte and narrowing it back gives the byte, so the `int8*` read loses no bit. |
| `Sensors.ConvertState` | src/roomba_500driver_meiji/roomba500sci.cpp:341-436 | Every record `convertState` produces is well formed: each flag field holds only bits of its mask. |
| `Sensors.ConvertStateReadings` | src/roomba_500driver_meiji/roomba500sci.cpp:379-433 | Each 16-bit field is the signed reading of the load at its offset (12, 14, 19, 44-50, 71-77) or the unsigned one (17, 22, 24, 26-34, 52, 54, 57-67), as the source's pointer type says; the temperature is byte 21 sign extended, negative exactly when its top bit is set. |
| `Sensors.ReadPatterns` | src/roomba_500driver_meiji/roomba500sci.cpp:379-433 | Storing every typed value of a record as its pattern and casting the patterns back gives the record. |
| `Sensors.PatternsRead` | src/roomba_500driver_meiji/roomba500sci.cpp:379-433 | The casts lose nothing: storing cast patterns gives the patterns back, and two loads cast to the same record exactly when their patterns agree. |
| `Sensors.ConvertStateFlags` | src/roomba_500driver_meiji/roomba500sci.cpp:343-421 | Every flag group of the record is its packet byte under each of the group's masks, and the wall, cliff and virtual wall flags are bytes 1 to 6 under `0x01`. So every converted record is well formed. |
| `Sensors.IrOpcodesRead` | src/roomba_500driver_meiji/roomba500sci.cpp:366-368 | The IR opcodes are bytes 10, 69 and 70, unchanged, and two packets give the same IR opcodes exactly when they agree on those three bytes. |
| `SensorLayout.PacketRoundTrip` | src/roomba_500driver_meiji/roomba500sci.cpp:341-436 | Converting the packet that describes a well-formed record gives that record back. |
| `SensorLayout.RepackPacket` | src/roomba_500driver_meiji/roomba500sci.cpp:341-436 | Writing a converted record back into a packet gives the original packet, with every bit the decoder ignores cleared. |
| `SensorLayout.DecodeMasked` | src/roomba_500driver_meiji/roomba500sci.cpp:341-436 | Clearing the bits the decoder ignores does not change the record. |
| `SensorLayout.ConvertStateDeterminedBy` | src/roomba_500driver_meiji/roomba500sci.cpp:341-436 | Two packets give the same record exactly when they agree on every bit the decoder reads. |
| `SensorLayout.UnusedBytesIgnored` | src/roomba_500driver_meiji/roomba500sci.cpp:362-363 | Packets that differ only in bytes 9 and 36 to 38 give the same record. |
| `Driver.UpdateSensorState` | src/roomba_500driver_meiji/roomba500sci.cpp:264-270 | When the read returned 80 bytes the record becomes the conversion of the buffer; after any other count it stays the previous record. |
| `Driver.PollKeepsWellFormed` | src/roomba_500driver_meiji/roomba500sci.cpp:264-270 | A well-formed record stays well formed after a poll, whether or not the read was complete. |
| `Driver.PollRequestsAllSensors` | src/roomba_500driver_meiji/roomba500sci.cpp:262-263 | Every poll writes a request for the all-sensors group, whatever the read returns. |
| `Driver.CompletePollRecovers` | src/roomba_500driver_meiji/roomba500sci.cpp:264-266 | A complete read of the packet that describes a well-formed record leaves exactly that record, whatever was kept before. |
| `Driver.PollDependsOnReadBits` | src/roomba_500driver_meiji/roomba500sci.cpp:264-270 | A short read keeps the previous record and ignores the buffer. After a complete read, two buffers give the same record exactly when they agree on every bit the decoder reads. |

## Left out

- The header `roomba500sci.hpp` is not part of this model. Its constants are the parameters of a `Header` record, and no numeric value is assumed. The default arguments of `sendOpCode` declared there are taken to be a null data pointer and a count of 0, which is what `Commands.Send` writes.
- Serial I/O is left out: opening the port, `write` and `read`. A poll's read is a parameter: the count it returned and the buffer afterwards. A `write` whose count differs from the message length is ignored by the source, so the model is not affected.
- The RTS pulse of `wakeup` is left out. It changes a modem line and writes no bytes.
- Delays (`sleep_for_sec`, `COMMAND_WAIT`, `sleep`) are left out. They carry no data.
- The state-updater thread, its start and stop, and the mutex locks are left out. They concern concurrency only.
- Floating-point arithmetic is left out: the wheel speeds of `driveDirect`, the duty-cycle scaling of `drivePWM`, and `velToPWM`. A control message carries the already-computed `short`s.
- The block-commented encoder and travel corrections in `updateState` are left out. They are not live code.
- The `printf` diagnostics, `getSensorState`, `getCtrlLinearX`, `getCtrlAngleZ` and the ROS message types beyond the fields `sendCtrl` reads are left out. They do not touch the protocol.
- Commands.Song: requires `-1 <= length <= 1`, the lengths for which the count `2 * length + 3` lies within the five-byte array. A length of 2 or more makes the source read past the end of the array. A length of -2 or less makes the count negative, and what `write` does then depends on the serial class, which is not part of this model. The driver only ever calls `song(1, 1)`.
- Wire.Parse reads each write as one self-delimited frame. The serial link is a byte stream, so a write that is not a complete command (the lone Song opcode of `song` with length -1) would take its missing bytes from the next write; the model does not join writes.
- Wire.Parse accepts a Song command of any length byte whose notes follow, including 0 and lengths above 16; the Open Interface documents song lengths 1 to 16, and what the robot does with other lengths is not modelled.
- The store `ctrl_ = *msg` in `sendCtrl` (roomba500sci.cpp:288) is left out. It only feeds `getCtrlLinearX` and `getCtrlAngleZ`, which are left out as well.
- Commands.SendOpCode: requires `n == 0` when there is no data. The source would send uninitialised bytes in that case, and no caller does so.
- Bytes.HostLoadSwapsWireBytes: rests on the named assumption that the host is little-endian. The 16-bit fields hold the signed or unsigned reading of the host-order load, not swapped to the wire's high-first order, as the driver does.

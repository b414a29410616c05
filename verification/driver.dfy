/** `updateSensorState`: one poll of the robot's sensors. The driver asks
    for the all-sensors group, reads into its 80-byte buffer and converts
    the buffer only when the read returned all 80 bytes; after a short read
    the previous record stays. The serial read is a parameter: the count it
    returned and the buffer's contents afterwards.
 */
module Driver {
  import opened Bytes
  import opened Options
  import C = Constants
  import Commands
  import S = Sensors
  import L = SensorLayout
  import W = Wire

  /** One poll: the bytes written to the robot and the record kept. */
  datatype Poll = Poll(request: seq<byte>, state: S.SensorState)

  /** `updateSensorState`, given what the read returned (`count`) and the
      buffer after the read. A complete read replaces the record with the
      conversion of the buffer; any other count keeps the previous one. */
  function UpdateSensorState(h: C.Header, previous: S.SensorState, count: int, buffer: seq<byte>): (p: Poll)
    requires |buffer| == S.PacketLength
    ensures count == S.PacketLength ==> p.state == S.ConvertState(h, buffer)
    ensures count != S.PacketLength ==> p.state == previous
  {
    var request := Commands.SensorsRequest(h);
    if count == S.PacketLength then Poll(request, S.ConvertState(h, buffer))
    else Poll(request, previous)
  }

  /** Polling keeps the sensor record well formed, whatever the read
      returns. */
  lemma PollKeepsWellFormed(h: C.Header, previous: S.SensorState, count: int, buffer: seq<byte>)
    requires |buffer| == S.PacketLength && S.WellFormed(h, previous)
    ensures S.WellFormed(h, UpdateSensorState(h, previous, count, buffer).state)
  {
  }

  /** Every poll asks the robot for the all-sensors group, whatever the read
      returns. */
  lemma PollRequestsAllSensors(h: C.Header, previous: S.SensorState, count: int, buffer: seq<byte>)
    requires C.DistinctOpcodes(h) && |buffer| == S.PacketLength
    ensures W.Parse(h, UpdateSensorState(h, previous, count, buffer).request) == Some(W.Sensors(h.allPacket))
  {
    W.ParseSensorsRequest(h);
  }

  /** A complete read of the packet that describes a well-formed record
      leaves exactly that record, whatever was kept before. */
  lemma CompletePollRecovers(h: C.Header, previous: S.SensorState, s: S.SensorState)
    requires C.Valid(h) && S.WellFormed(h, s)
    ensures UpdateSensorState(h, previous, S.PacketLength, L.Packet(s)).state == s
  {
    L.PacketRoundTrip(h, s);
  }

  /** A short read ignores the buffer and keeps the previous record; after a
      complete read two buffers give the same record exactly when they agree
      on every bit the decoder reads. */
  lemma PollDependsOnReadBits(h: C.Header, previous: S.SensorState, count: int, buffer: seq<byte>, buffer': seq<byte>)
    requires |buffer| == S.PacketLength && |buffer'| == S.PacketLength
    ensures count != S.PacketLength ==> UpdateSensorState(h, previous, count, buffer).state == previous
    ensures count == S.PacketLength ==>
      (UpdateSensorState(h, previous, count, buffer).state == UpdateSensorState(h, previous, count, buffer').state
       <==> L.Masked(h, buffer) == L.Masked(h, buffer'))
  {
    L.ConvertStateDeterminedBy(h, buffer, buffer');
  }
}

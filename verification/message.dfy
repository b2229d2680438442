/** The fixed 90-byte report exchanged with the device (`RazerMessage`),
    its explicit serialisation, the length-checked parse of a response, the
    builder that fills the constant fields, and the XOR checksum. */
module Message {
  import opened Bytes
  import opened Wrappers
  import opened Errors

  /** `RAZER_REPORT_SIZE` */
  const ReportSize: nat := 90
  /** `RAZER_REPORT_ARGUMENT_SIZE` */
  const ArgumentSize: nat := 80
  /** Wire offset of the first argument byte. */
  const ArgumentOffset: nat := 8
  /** The checksum covers the wire bytes [ChecksumStart, ChecksumEnd). */
  const ChecksumStart: nat := 2
  const ChecksumEnd: nat := ReportSize - 2

  /** The 80-byte argument block of a report. */
  type Arguments = s: seq<byte> | |s| == ArgumentSize witness Zeros(ArgumentSize)

  datatype RazerMessage = RazerMessage(
    status: byte,
    transactionId: byte,
    remainingPackets: u16,
    protocolType: byte,
    dataSize: byte,
    commandClass: byte,
    commandId: byte,
    arguments: Arguments,
    crc: byte,
    reserved: byte)

  /** A `u16` field in little-endian host order: low byte first. */
  function HostOrderU16(v: u16): (r: seq<byte>)
    ensures |r| == 2 && r[1] as int * 256 + r[0] as int == v
  {
    var e := EncodeU16(v);
    [e[1], e[0]]
  }

  /** The report as it travels on the wire. Field order and widths follow the
      `repr(C)` struct, which has no padding; `remaining_packets` is stored in
      little-endian host order. */
  function Serialize(m: RazerMessage): (r: seq<byte>)
    ensures |r| == ReportSize
    ensures r[0] == m.status && r[1] == m.transactionId
    ensures r[2..4] == HostOrderU16(m.remainingPackets)
    ensures r[4] == m.protocolType && r[5] == m.dataSize
    ensures r[6] == m.commandClass && r[7] == m.commandId
    ensures r[ArgumentOffset..ArgumentOffset + ArgumentSize] == m.arguments
    ensures r[88] == m.crc && r[89] == m.reserved
  {
    [m.status, m.transactionId]
    + HostOrderU16(m.remainingPackets)
    + [m.protocolType, m.dataSize, m.commandClass, m.commandId]
    + m.arguments
    + [m.crc, m.reserved]
  }

  /** `RazerMessage::read_from_bytes` on a response: any byte string of exactly
      the report size is accepted, whatever its checksum; any other length is
      an error. */
  function Parse(bytes: seq<byte>): (r: Result<RazerMessage, Error>)
    ensures r.Ok? <==> |bytes| == ReportSize
    ensures r.Ok? ==> Serialize(r.value) == bytes
    ensures r.Ok? ==> r.value.arguments == bytes[ArgumentOffset..ArgumentOffset + ArgumentSize]
    ensures r.Err? ==> r.error == InvalidResponseSize
  {
    if |bytes| != ReportSize then Err(InvalidResponseSize)
    else
      EncodeDecodeU16([bytes[3], bytes[2]]);
      var m := RazerMessage(bytes[0], bytes[1], DecodeU16([bytes[3], bytes[2]]),
                            bytes[4], bytes[5], bytes[6], bytes[7],
                            bytes[ArgumentOffset..ArgumentOffset + ArgumentSize],
                            bytes[88], bytes[89]);
      assert Serialize(m) == bytes by {
        var s := Serialize(m);
        assert s[2..4] == bytes[2..4];
        assert s[..8] == bytes[..8];
        assert s[8..88] == bytes[8..88];
        assert s[88..] == bytes[88..];
        assert s == s[..8] + s[8..88] + s[88..];
        assert bytes == bytes[..8] + bytes[8..88] + bytes[88..];
      }
      Ok(m)
  }

  /** Serialisation is injective: parsing the bytes of a message gives it back. */
  lemma ParseSerialize(m: RazerMessage)
    ensures Parse(Serialize(m)) == Ok(m)
  {
    var r := Parse(Serialize(m));
    assert Serialize(r.value) == Serialize(m);
    assert r.value.arguments == Serialize(m)[ArgumentOffset..ArgumentOffset + ArgumentSize];
  }

  /** Argument byte `i` of a parsed response is wire byte 8 + i. */
  lemma ParsedArgument(bytes: seq<byte>, i: nat)
    requires |bytes| == ReportSize && i < ArgumentSize
    ensures Parse(bytes).value.arguments[i] == bytes[ArgumentOffset + i]
  {
    var s := Serialize(Parse(bytes).value);
    assert s[ArgumentOffset..ArgumentOffset + ArgumentSize][i] == s[ArgumentOffset + i];
  }

  /** `calculate_crc` over a serialised report: XOR of the wire bytes 2..87,
      which leaves out status, transaction id, crc and reserved. */
  function ChecksumOf(bytes: seq<byte>): byte
    requires |bytes| == ReportSize
  {
    XorAll(bytes[ChecksumStart..ChecksumEnd])
  }

  function Checksum(m: RazerMessage): byte {
    ChecksumOf(Serialize(m))
  }

  /** The checksum reads only the fields between the transaction id and the
      crc: messages that agree on those have the same checksum, whatever
      their status, transaction id, crc and reserved bytes. */
  lemma ChecksumIgnoresFraming(m: RazerMessage, m': RazerMessage)
    requires m.remainingPackets == m'.remainingPackets
    requires m.protocolType == m'.protocolType && m.dataSize == m'.dataSize
    requires m.commandClass == m'.commandClass && m.commandId == m'.commandId
    requires m.arguments == m'.arguments
    ensures Checksum(m) == Checksum(m')
  {
    var s, s' := Serialize(m), Serialize(m');
    assert s[ChecksumStart..ChecksumEnd] == s'[ChecksumStart..ChecksumEnd] by {
      assert s[2..8] == s'[2..8];
      assert s[8..88] == s'[8..88];
      assert s[2..88] == s[2..8] + s[8..88];
      assert s'[2..88] == s'[2..8] + s'[8..88];
    }
  }

  /** Changing any single wire byte inside the checksummed range changes the
      checksum. */
  lemma ChecksumDetectsByteChange(a: seq<byte>, b: seq<byte>, k: nat)
    requires |a| == ReportSize && |b| == ReportSize
    requires ChecksumStart <= k < ChecksumEnd
    requires a[k] != b[k]
    requires forall j :: 0 <= j < ReportSize && j != k ==> a[j] == b[j]
    ensures ChecksumOf(a) != ChecksumOf(b)
  {
    var a', b' := a[ChecksumStart..ChecksumEnd], b[ChecksumStart..ChecksumEnd];
    forall j | 0 <= j < |a'| && j != k - ChecksumStart
      ensures a'[j] == b'[j]
    {
      assert a'[j] == a[j + ChecksumStart] && b'[j] == b[j + ChecksumStart];
    }
    XorAllDetectsOneByte(a', b', k - ChecksumStart);
  }

  /** `RazerMessageBuilder`: the fields a command chooses. */
  datatype Builder = Builder(
    transactionId: byte,
    dataSize: byte,
    commandClass: byte,
    commandId: byte,
    arguments: Arguments)

  /** `RazerMessageBuilder::default()`: everything zero. */
  const EmptyBuilder: Builder := Builder(0, 0, 0, 0, Zeros(ArgumentSize))

  /** `with_transaction_id`: only the transaction id changes. */
  function WithTransactionId(b: Builder, transactionId: byte): (r: Builder)
    ensures r.transactionId == transactionId
    ensures r.(transactionId := b.transactionId) == b
  {
    b.(transactionId := transactionId)
  }

  /** `build`: the fixed fields are zero, the chosen fields are copied, and
      the crc byte is the checksum of the finished report. */
  function Build(b: Builder): (m: RazerMessage)
    ensures m.status == 0 && m.remainingPackets == 0 && m.protocolType == 0 && m.reserved == 0
    ensures m.transactionId == b.transactionId && m.dataSize == b.dataSize
    ensures m.commandClass == b.commandClass && m.commandId == b.commandId
    ensures m.arguments == b.arguments
    ensures m.crc == Checksum(m)
  {
    var m := RazerMessage(0, b.transactionId, 0, 0, b.dataSize, b.commandClass, b.commandId,
                          b.arguments, 0, 0);
    ChecksumIgnoresFraming(m, m.(crc := Checksum(m)));
    m.(crc := Checksum(m))
  }

  /** The transaction id is not covered by the checksum: re-stamping a
      builder leaves the built crc unchanged. */
  lemma BuildCrcIgnoresTransactionId(b: Builder, t: byte)
    ensures Build(WithTransactionId(b, t)).crc == Build(b).crc
  {
    ChecksumIgnoresFraming(Build(WithTransactionId(b, t)), Build(b));
  }
}

/** The device layer: response decoders, the product-id registry, and the
    capability facade through which every operation reaches the device.
    The device itself is an oracle from transfers to raw responses. */
module Devices {
  import opened Bytes
  import opened Wrappers
  import opened Errors
  import opened Message
  import opened Polling
  import opened Chroma
  import opened Commands

  /** Every request of this device family is stamped with 0x3F. */
  const TransactionId: byte := 0x3F

  /* ---------------- response decoders ---------------- */

  /** The `get_dpi` response: x at arguments 1..2 and y at 3..4, big-endian. */
  function DecodeDpi(a: Arguments): Dpi {
    Dpi(DecodeU16(a[1..3]), DecodeU16(a[3..5]))
  }

  /** Reading back the arguments `set_dpi` wrote gives the clamped values. */
  lemma DpiRoundTrip(vs: VarStoreId, d: Dpi)
    ensures DecodeDpi(Commands.SetDpi(vs, d).arguments) == ClampDpi(d)
  {
  }

  /** The `get_dpi_stages` response: the active stage at argument 1, the
      count at 2, and as many 7-byte records from argument 3 as the count
      says, but no more than the 11 that fit. The table is built directly,
      not through `DpiStages::new`. */
  function DecodeDpiStages(a: Arguments): (r: DpiStages)
    ensures r.active == a[1]
    ensures |r.stages| == Min(a[2] as int, MaxStageChunks)
    ensures forall i :: 0 <= i < |r.stages| ==> r.stages[i] == ChunkDpi(a, i)
  {
    var n := Min(a[2] as int, MaxStageChunks);
    DpiStages(a[1], seq(n, i requires 0 <= i < n => ChunkDpi(a, i)))
  }

  /** An argument block holding a valid table's head and records decodes to
      that table. */
  lemma DecodeStagesFrom(a: Arguments, s: DpiStages)
    requires ValidStages(s)
    requires a[1] == s.active && a[2] as int == |s.stages| % 256
    requires forall i :: 0 <= i < |s.stages| ==> ChunkDpi(a, i) == s.stages[i]
    ensures DecodeDpiStages(a) == s
  {
    var r := DecodeDpiStages(a);
    assert |r.stages| == |s.stages|;
    assert r.stages == s.stages;
  }

  /** Decoding the arguments `set_dpi_stages` wrote for a valid table gives
      the table back: the records' index bytes are not read. */
  lemma {:induction false} DpiStagesRoundTrip(vs: VarStoreId, s: DpiStages)
    requires ValidStages(s)
    ensures DecodeDpiStages(Commands.SetDpiStages(vs, s).arguments) == s
  {
    var a := Commands.SetDpiStages(vs, s).arguments;
    SetDpiStagesHead(vs, s);
    forall i | 0 <= i < |s.stages|
      ensures ChunkDpi(a, i) == s.stages[i]
    {
      SetDpiStagesRecord(vs, s, i);
    }
    DecodeStagesFrom(a, s);
  }

  /** A decoded table need not satisfy the constructor's invariant: an
      all-zero response decodes to no stages with active stage 0, and a
      count byte of 200 decodes to 11 stages. */
  lemma DecodedStagesMayBeInvalid()
    ensures DecodeDpiStages(Zeros(ArgumentSize)) == DpiStages(0, [])
    ensures !ValidStages(DecodeDpiStages(Zeros(ArgumentSize)))
    ensures |DecodeDpiStages(Zeros(2) + [200] + Zeros(ArgumentSize - 3)).stages| == 11
  {
    var z := Zeros(ArgumentSize);
    assert DecodeDpiStages(z).stages == [];
    var a: Arguments := Zeros(2) + [200] + Zeros(ArgumentSize - 3);
    assert a[2] == 200;
  }

  /** The `get_polling_rate` response: argument 0 holds a normal-rate code;
      any other byte is an error. A decoded rate is a normal rate whose code
      is the byte read. */
  function DecodePollingRate(a: Arguments): (r: Result<u16, Error>)
    ensures r.Ok? <==> a[0] in {0x01, 0x02, 0x08}
    ensures r.Ok? ==> NormalFromHz(r.value).Some? && NormalCode(NormalFromHz(r.value).value) == a[0]
    ensures r.Err? ==> r.error == InvalidPollingRateResponse
  {
    match a[0]
    case 0x01 => Ok(1000)
    case 0x02 => Ok(500)
    case 0x08 => Ok(125)
    case _ => Err(InvalidPollingRateResponse)
  }

  /** The decoder inverts the normal-rate encoder. */
  lemma PollingRateRoundTrip(n: NormalPollingRate)
    ensures DecodePollingRate(Commands.SetPollingRate(n).arguments) == Ok(NormalHz(n))
  {
  }

  /** The `get_charging_status` response: charging iff argument 1 is non-zero. */
  function DecodeChargingStatus(a: Arguments): bool {
    a[1] > 0
  }

  /** The `get_battery_level` response byte (argument 1); the source scales
      it to a percentage in floating point. */
  function DecodeBatteryLevel(a: Arguments): byte {
    a[1]
  }

  /* ---------------- registry ---------------- */

  /** The operations of `FeatureSet`. `SetPollingRate` is the operation the
      batched writer calls; no profile provides it. */
  datatype Feature =
    | GetDpi | SetDpi | GetDpiStages | SetDpiStages | GetPollingRate | SetPollingRate
    | GetBatteryLevel | GetChargingStatus | ChromaLogoMatrixEffect

  /** A device profile: the product id, the operations it overrides (all
      others answer "Unimplemented"), and the polling-rate kinds it accepts. */
  datatype Profile = Profile(productId: u16, features: set<Feature>, pollingKinds: set<PollingKind>)

  /** `DEATHADDER_V2_PRO_WIRELESS` */
  const DeathAdderV2ProWireless: u16 := 0x007D

  const DeathAdderV2ProWirelessFeatures: set<Feature> :=
    {GetDpi, SetDpi, GetDpiStages, SetDpiStages, GetPollingRate,
     GetBatteryLevel, GetChargingStatus, ChromaLogoMatrixEffect}

  /** `get_device_impl`: only product 0x007D has a profile; every other id is
      an unsupported device. */
  function GetDeviceImpl(productId: u16): (r: Result<Profile, Error>)
    ensures r.Ok? <==> productId == DeathAdderV2ProWireless
    ensures r.Ok? ==> r.value.productId == productId
    ensures r.Err? ==> r.error == UnsupportedDevice
  {
    if productId == DeathAdderV2ProWireless then
      Ok(Profile(DeathAdderV2ProWireless, DeathAdderV2ProWirelessFeatures, {NormalKind}))
    else Err(UnsupportedDevice)
  }

  /* ---------------- facade ---------------- */

  /** One call on the facade, with its argument. */
  datatype Call =
    | ReadDpi
    | WriteDpi(dpi: Dpi)
    | ReadDpiStages
    | WriteDpiStages(stages: DpiStages)
    | ReadPollingRate
    | WritePollingRate(rate: PollingRate)
    | ReadBatteryLevel
    | ReadChargingStatus
    | WriteLogoEffect(effect: ExtendedMatrixEffect)

  function FeatureOf(c: Call): Feature {
    match c
    case ReadDpi => GetDpi
    case WriteDpi(_) => SetDpi
    case ReadDpiStages => GetDpiStages
    case WriteDpiStages(_) => SetDpiStages
    case ReadPollingRate => GetPollingRate
    case WritePollingRate(_) => SetPollingRate
    case ReadBatteryLevel => GetBatteryLevel
    case ReadChargingStatus => GetChargingStatus
    case WriteLogoEffect(_) => ChromaLogoMatrixEffect
  }

  predicate IsRead(c: Call) {
    c.ReadDpi? || c.ReadDpiStages? || c.ReadPollingRate? || c.ReadBatteryLevel? || c.ReadChargingStatus?
  }

  /** One USB exchange: `send_razer_message` (a write), or
      `send_razer_message_and_wait_response` (a write, a wait, a read). */
  datatype Transfer = Send(request: RazerMessage) | Query(request: RazerMessage)

  /** The device: what each transfer yields. `None` is a failed control
      transfer; otherwise, for a query, the raw response bytes, and for a
      send, bytes that are ignored. */
  type Device = Transfer -> Option<seq<byte>>

  /** What a successful call yields. */
  datatype Reply =
    | Done
    | DpiReply(dpi: Dpi)
    | StagesReply(stages: DpiStages)
    | RateReply(hz: u16)
    | BatteryReply(raw: byte)
    | ChargingReply(charging: bool)

  /** The reply has the shape the call promises. */
  predicate Answers(c: Call, r: Reply) {
    match c
    case ReadDpi => r.DpiReply?
    case ReadDpiStages => r.StagesReply?
    case ReadPollingRate => r.RateReply? && NormalFromHz(r.hz).Some?
    case ReadBatteryLevel => r.BatteryReply?
    case ReadChargingStatus => r.ChargingReply?
    case _ => r.Done?
  }

  /** `.with_transaction_id(0x3F).build()` */
  function Stamp(b: Builder): (m: RazerMessage)
    ensures m.transactionId == TransactionId && m.crc == Checksum(m)
    ensures m.dataSize == b.dataSize && m.commandClass == b.commandClass
    ensures m.commandId == b.commandId && m.arguments == b.arguments
  {
    Build(WithTransactionId(b, TransactionId))
  }

  /** The transfer each device function performs. DPI uses the no-store
      target; stages and lighting use the variable store; lighting goes to
      the logo LED. */
  function RequestFor(c: Call): Transfer {
    match c
    case ReadDpi => Query(Stamp(Commands.GetDpi(NoStore)))
    case WriteDpi(d) => Send(Stamp(Commands.SetDpi(NoStore, d)))
    case ReadDpiStages => Query(Stamp(Commands.GetDpiStages(VarStore)))
    case WriteDpiStages(s) => Send(Stamp(Commands.SetDpiStages(VarStore, s)))
    case ReadPollingRate => Query(Stamp(Commands.GetPollingRate()))
    case WritePollingRate(Normal(n)) => Send(Stamp(Commands.SetPollingRate(n)))
    case WritePollingRate(Extended(e)) => Send(Stamp(SetPollingRateExtended(e)))
    case ReadBatteryLevel => Query(Stamp(Commands.GetBatteryLevel()))
    case ReadChargingStatus => Query(Stamp(Commands.GetChargingStatus()))
    case WriteLogoEffect(e) => Send(Stamp(ChromaExtendedMatrixEffect(VarStore, Logo, e)))
  }

  /** Reads wait for a response, writes do not; every request carries the
      family's transaction id and a consistent checksum. */
  lemma RequestShape(c: Call)
    ensures RequestFor(c).Query? <==> IsRead(c)
    ensures RequestFor(c).request.transactionId == TransactionId
    ensures RequestFor(c).request.crc == Checksum(RequestFor(c).request)
  {
  }

  /** The store byte of each request: no-store for DPI, variable store for
      stages and lighting, and the logo LED id for lighting. */
  lemma RequestStores(c: Call)
    ensures (c.ReadDpi? || c.WriteDpi?) ==> RequestFor(c).request.arguments[0] == 0x00
    ensures (c.ReadDpiStages? || c.WriteDpiStages? || c.WriteLogoEffect?) ==>
      RequestFor(c).request.arguments[0] == 0x01
    ensures c.WriteLogoEffect? ==> RequestFor(c).request.arguments[1] == 0x04
  {
    if c.WriteDpiStages? {
      SetDpiStagesHead(VarStore, c.stages);
    }
  }

  /** Whether the facade reaches the device at all: the profile must provide
      the operation, and a polling rate must be of a kind it accepts. These
      checks are local; a refused call performs no transfer. */
  function Plan(p: Profile, c: Call): (r: Result<Transfer, Error>)
    ensures r.Ok? <==>
      FeatureOf(c) in p.features && (c.WritePollingRate? ==> KindOf(c.rate) in p.pollingKinds)
    ensures r.Ok? ==> r.value == RequestFor(c)
    ensures FeatureOf(c) !in p.features ==> r == Err(Unimplemented)
    ensures r.Err? && FeatureOf(c) in p.features ==> r.error == PollingRateKindMismatch
  {
    if FeatureOf(c) !in p.features then Err(Unimplemented)
    else if c.WritePollingRate? && KindOf(c.rate) !in p.pollingKinds then Err(PollingRateKindMismatch)
    else Ok(RequestFor(c))
  }

  /** The decoding step of a read: the response must be one whole report;
      its checksum is not checked. The reply is the read's decoder applied
      to the response's argument bytes 8..87. */
  function Interpret(c: Call, response: seq<byte>): (r: Result<Reply, Error>)
    requires IsRead(c)
    ensures r.Ok? ==> Answers(c, r.value)
    ensures r.Ok? ==> |response| == ReportSize
    ensures |response| != ReportSize ==> r == Err(InvalidResponseSize)
    ensures |response| == ReportSize ==>
      var a: Arguments := response[ArgumentOffset..ArgumentOffset + ArgumentSize];
      && (c.ReadDpi? ==> r == Ok(DpiReply(DecodeDpi(a))))
      && (c.ReadDpiStages? ==> r == Ok(StagesReply(DecodeDpiStages(a))))
      && (c.ReadPollingRate? ==>
            && (r.Ok? <==> DecodePollingRate(a).Ok?)
            && (r.Ok? ==> r.value == RateReply(DecodePollingRate(a).value))
            && (r.Err? ==> r.error == DecodePollingRate(a).error))
      && (c.ReadBatteryLevel? ==> r == Ok(BatteryReply(DecodeBatteryLevel(a))))
      && (c.ReadChargingStatus? ==> r == Ok(ChargingReply(DecodeChargingStatus(a))))
  {
    match Parse(response)
    case Err(e) => Err(e)
    case Ok(m) =>
      match c
      case ReadDpi => Ok(DpiReply(DecodeDpi(m.arguments)))
      case ReadDpiStages => Ok(StagesReply(DecodeDpiStages(m.arguments)))
      case ReadPollingRate =>
        (match DecodePollingRate(m.arguments)
         case Err(e) => Err(e)
         case Ok(hz) => Ok(RateReply(hz)))
      case ReadBatteryLevel => Ok(BatteryReply(DecodeBatteryLevel(m.arguments)))
      case ReadChargingStatus => Ok(ChargingReply(DecodeChargingStatus(m.arguments)))
  }

  /** One facade call against a device. A refused call never reaches the
      device; a failed transfer is the transport error; a write succeeds
      when its send does; a read decodes the response. */
  function Invoke(p: Profile, c: Call, device: Device): (r: Result<Reply, Error>)
    ensures Plan(p, c).Err? ==> r == Err(Plan(p, c).error)
    ensures Plan(p, c).Ok? && device(RequestFor(c)).None? ==> r == Err(TransportFailure)
    ensures r.Ok? ==> Plan(p, c).Ok? && device(RequestFor(c)).Some? && Answers(c, r.value)
    ensures !IsRead(c) ==> (r.Ok? <==> Plan(p, c).Ok? && device(RequestFor(c)).Some?)
    ensures IsRead(c) && Plan(p, c).Ok? && device(RequestFor(c)).Some? ==>
      r == Interpret(c, device(RequestFor(c)).value)
  {
    match Plan(p, c)
    case Err(e) => Err(e)
    case Ok(t) =>
      match device(t)
      case None => Err(TransportFailure)
      case Some(response) =>
        if IsRead(c) then Interpret(c, response) else Ok(Done)
  }

  /** The transfers one call performs: none when refused, else its request. */
  function Traffic(p: Profile, c: Call): (ts: seq<Transfer>)
    ensures |ts| <= 1
    ensures |ts| == 1 <==> Plan(p, c).Ok?
    ensures |ts| == 1 ==> ts[0] == RequestFor(c)
  {
    match Plan(p, c)
    case Err(_) => []
    case Ok(t) => [t]
  }

  /** Every operation the profile does not provide answers "Unimplemented"
      and touches no device. */
  lemma UnimplementedByDefault(p: Profile, c: Call, device: Device)
    requires FeatureOf(c) !in p.features
    ensures Invoke(p, c, device) == Err(Unimplemented)
    ensures Traffic(p, c) == []
  {
  }

  /** The 0x007D profile provides exactly the eight device functions it
      lists; the polling-rate write is not among them. */
  lemma DeathAdderProfile(device: Device, rate: PollingRate)
    ensures GetDeviceImpl(DeathAdderV2ProWireless).Ok?
    ensures var p := GetDeviceImpl(DeathAdderV2ProWireless).value;
      && |p.features| == 8
      && (forall f: Feature :: f in p.features <==> f != SetPollingRate)
      && Invoke(p, WritePollingRate(rate), device) == Err(Unimplemented)
  {
    var p := GetDeviceImpl(DeathAdderV2ProWireless).value;
    assert p.features == DeathAdderV2ProWirelessFeatures;
    assert forall f: Feature :: f in p.features <==> f != SetPollingRate by {
      forall f: Feature ensures f in p.features <==> f != SetPollingRate {
        match f
        case GetDpi =>
        case SetDpi =>
        case GetDpiStages =>
        case SetDpiStages =>
        case GetPollingRate =>
        case SetPollingRate =>
        case GetBatteryLevel =>
        case GetChargingStatus =>
        case ChromaLogoMatrixEffect =>
      }
    }
  }

  /** An extended rate on a profile that accepts only normal rates is a
      validation error raised before any transfer. */
  lemma ExtendedRateRefused(p: Profile, e: ExtendedPollingRate, device: Device)
    requires SetPollingRate in p.features && ExtendedKind !in p.pollingKinds
    ensures Invoke(p, WritePollingRate(Extended(e)), device) == Err(PollingRateKindMismatch)
    ensures Traffic(p, WritePollingRate(Extended(e))) == []
  {
  }

  /** A read whose response is not exactly one report fails with the size
      error, whatever the bytes. */
  lemma ResponseSizeChecked(p: Profile, c: Call, device: Device)
    requires IsRead(c) && Plan(p, c).Ok?
    requires device(RequestFor(c)).Some? && |device(RequestFor(c)).value| != ReportSize
    ensures Invoke(p, c, device) == Err(InvalidResponseSize)
  {
  }

  /** The charging flag is wire byte 9 (argument 1) of the response, non-zero
      meaning charging; the battery level reads the same byte. */
  lemma ChargingAndBatteryFromWire(p: Profile, device: Device)
    requires GetChargingStatus in p.features && GetBatteryLevel in p.features
    requires device(RequestFor(ReadChargingStatus)).Some?
    requires |device(RequestFor(ReadChargingStatus)).value| == ReportSize
    requires device(RequestFor(ReadBatteryLevel)).Some?
    requires |device(RequestFor(ReadBatteryLevel)).value| == ReportSize
    ensures Invoke(p, ReadChargingStatus, device)
         == Ok(ChargingReply(device(RequestFor(ReadChargingStatus)).value[9] != 0))
    ensures Invoke(p, ReadBatteryLevel, device)
         == Ok(BatteryReply(device(RequestFor(ReadBatteryLevel)).value[9]))
  {
    ParsedArgument(device(RequestFor(ReadChargingStatus)).value, 1);
    ParsedArgument(device(RequestFor(ReadBatteryLevel)).value, 1);
  }

  /** Set, then get: when the device answers the DPI query with the argument
      block the DPI write carried, the read returns the clamped values. */
  lemma SetThenGetDpi(p: Profile, d: Dpi, device: Device)
    requires GetDpi in p.features
    requires device(RequestFor(ReadDpi)).Some?
    requires var bytes := device(RequestFor(ReadDpi)).value;
      |bytes| == ReportSize
      && bytes[ArgumentOffset..ArgumentOffset + ArgumentSize] == RequestFor(WriteDpi(d)).request.arguments
    ensures Invoke(p, ReadDpi, device) == Ok(DpiReply(ClampDpi(d)))
  {
    DpiRoundTrip(NoStore, d);
  }

  /** Set, then get, for a valid stage table: the read returns the table
      exactly. */
  lemma SetThenGetDpiStages(p: Profile, s: DpiStages, device: Device)
    requires ValidStages(s)
    requires GetDpiStages in p.features
    requires device(RequestFor(ReadDpiStages)).Some?
    requires var bytes := device(RequestFor(ReadDpiStages)).value;
      |bytes| == ReportSize
      && bytes[ArgumentOffset..ArgumentOffset + ArgumentSize] == RequestFor(WriteDpiStages(s)).request.arguments
    ensures Invoke(p, ReadDpiStages, device) == Ok(StagesReply(s))
  {
    DpiStagesRoundTrip(VarStore, s);
  }
}

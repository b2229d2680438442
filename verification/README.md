# ruzer driver protocol, modelled in Dafny

This project models the protocol layer of the `ruzer` Razer mouse driver.

- **Wire message.** A fixed 90-byte HID feature report (`RazerMessage`): an
  8-byte header, 80 argument bytes, an XOR checksum and a reserved byte.
- **Builders.** The message builder, plus one builder per device command:
  DPI, DPI stage table, normal and extended polling rate, and the lighting
  effect on the logo LED.
- **Decoders.** The pure response decoders that the device functions apply to
  a response's argument block.
- **Registry and facade.** The product-id registry, and the capability
  facade. Every operation of the facade defaults to "Unimplemented" unless the
  device profile provides it.
- **Batched orchestrator.** A snapshot read and an ordered bulk write.

Modules, one per file, follow the crate:

| module | file | what it holds |
|---|---|---|
| `Wrappers` | wrappers.dfy | `Option`, `Result` |
| `Errors` | errors.dfy | the error cases the driver reports |
| `Bytes` | bytes.dfy | `clamp`, the big-endian `u16` codec, the XOR fold |
| `Message` | message.dfy | the report layout, `Serialize`/`Parse`, `build` and the checksum |
| `Polling` | polling.dfy | the polling-rate enums and their number conversions |
| `Chroma` | chroma.dfy | effect codes, LED id, colour |
| `Commands` | commands.dfy | `DpiStages::new` and every request layout |
| `Devices` | devices.dfy | decoders, registry, facade over an abstract device |
| `Batched` | batched.dfy | `get_batched` / `set_batched` producing event traces |

How the source's terms are modelled:

- **Bytes.** A byte is the integer it denotes, in [0, 256), and `u16` is
  the subset of `int` below 2^16. Exclusive or is defined on naturals, bit
  by bit from the lowest.
- **Serialisation.** A message is serialised explicitly, field by field. The
  `remaining_packets` field is written little-endian, as on the hosts the
  crate runs on. It is always 0.
- **The device.** The device is a pure function from a transfer to its
  outcome: no value when the control transfer fails, which the facade
  reports as the transport error. A transfer is either a send (a write) or a query (a write, a wait
  and a read). For a query the outcome is the raw response bytes.
- **Results.** Each operation of the facade returns a `Result`. The
  orchestrator returns its result together with a trace. The trace begins
  with the settle wait, followed by every transfer in order.

## Model

| member | source | states |
|---|---|---|
| Bytes.Clamp | crates/driver/src/common.rs:485-487 | the result lies in [lo, hi] when lo <= hi, is v itself when v is in range, and is the nearer bound otherwise; crossed bounds give hi |
| Bytes.EncodeU16 | crates/driver/src/common.rs:494-497 | two bytes, high byte first: r[0]*256 + r[1] is the value |
| Bytes.DecodeU16 | crates/driver/src/common.rs:489-492 | the first byte is the high byte and the second the low byte of the result |
| Bytes.DecodeEncodeU16 | crates/driver/src/common.rs:489-497 | decoding an encoded u16 gives it back |
| Bytes.EncodeDecodeU16 | crates/driver/src/common.rs:489-497 | encoding a decoded pair gives the same two bytes, so the codec is a bijection |
| Bytes.XorAllAppend | crates/driver/src/common.rs:307-315 | the XOR of two sequences back to back is the exclusive or of their XORs, so the fold can be split anywhere |
| Bytes.XorAllDetectsOneByte | crates/driver/src/common.rs:307-315 | changing exactly one byte of a sequence changes its XOR |
| Message.HostOrderU16 | crates/driver/src/common.rs:29 | the remaining-packets count in two bytes, low byte first: r[1]*256 + r[0] is the value |
| Message.Serialize | crates/driver/src/common.rs:24-37 | 90 bytes: status@0, transaction id@1, remaining packets@2..3, protocol@4, size@5, class@6, id@7, arguments@8..87, crc@88, reserved@89 |
| Message.Parse | crates/driver/src/common.rs:458-459 | reading a response succeeds exactly when it is 90 bytes long, yields the message that serialises to those bytes, whose arguments are bytes 8..87, and fails with the size error otherwise |
| Message.ParseSerialize | crates/driver/src/common.rs:24-37 | reading back a serialised message gives that message |
| Message.ParsedArgument | crates/driver/src/common.rs:39-43 | argument i of a read response is wire byte 8 + i |
| Message.ChecksumIgnoresFraming | crates/driver/src/common.rs:307-315 | messages that differ only in transaction id, crc or reserved byte have the same checksum |
| Message.ChecksumDetectsByteChange | crates/driver/src/common.rs:307-315 | changing one serialised byte inside 2..87 changes the checksum |
| Message.WithTransactionId | crates/driver/src/common.rs:111-114 | sets the transaction id and changes nothing else |
| Message.Build | crates/driver/src/common.rs:94-109 | status, remaining packets, protocol type and reserved are 0; the builder's fields are copied; the crc is the XOR of serialised bytes 2..87 of the built message |
| Message.BuildCrcIgnoresTransactionId | crates/driver/src/common.rs:94-109 | re-stamping the transaction id does not change the built crc |
| Polling.NormalFromHz | crates/driver/src/common.rs:380-391 | succeeds exactly for 1000, 500 and 125, and the rate found converts back to the number |
| Polling.ExtendedFromHz | crates/driver/src/common.rs:418-433 | succeeds exactly for the seven extended frequencies, and the rate found converts back to the number |
| Polling.NormalHzRoundTrip | crates/driver/src/common.rs:370-391 | converting a normal rate to hertz and back gives that rate |
| Polling.ExtendedHzRoundTrip | crates/driver/src/common.rs:404-433 | converting an extended rate to hertz and back gives that rate |
| Polling.NormalRatesAreExtended | crates/driver/src/common.rs:370-433 | every normal frequency is also an extended frequency |
| Chroma.EffectCode | crates/driver/src/chroma.rs:32-42 | the effect code is at most 0x05 and never 0x04 |
| Chroma.EffectCodeIdentifiesVariant | crates/driver/src/chroma.rs:32-42 | two effects have the same code exactly when they are the same variant, whatever their colours, speed or breathing sub-effect |
| Chroma.ColorFromTuple | crates/driver/src/chroma.rs:51-58 | as written: all three channels take the tuple's first component |
| Chroma.ColorFromTupleLosesChannels | crates/driver/src/chroma.rs:51-58 | the tuple (0x0C, 0xFF, 0x1D) does not convert to the colour with those channels |
| Chroma.ColorFromTupleIntended | crates/driver/src/chroma.rs:51-58 | the corrected conversion: the colour's channels are the tuple's components in order |
| Chroma.ColorTupleRoundTrip | crates/driver/src/chroma.rs:51-58 | converting a colour to a tuple and back with the corrected conversion gives that colour |
| Commands.ClampDpi | crates/driver/src/common.rs:153-154 | each axis ends up in [100, 35000]: an axis in range is unchanged, one below becomes 100 and one above becomes 35000 |
| Commands.NewDpiStages | crates/driver/src/common.rs:73-81 | succeeds exactly when 1 <= count <= 5 and 1 <= active <= count, keeping the inputs; a bad count is reported before a bad active index |
| Commands.NewDpiStagesBoundaries | crates/driver/src/common.rs:73-81 | counts 0 and 6 and active indices 0 and count + 1 are refused; counts 1 and 5 with active at either end are accepted |
| Commands.Args | crates/driver/src/common.rs:318-328 | an argument block starts with the written prefix and stays zero after it, as the default builder's is |
| Commands.GetBatteryLevel | crates/driver/src/common.rs:117-124 | class 0x07, id 0x80, size 0x02, all arguments zero |
| Commands.GetChargingStatus | crates/driver/src/common.rs:126-133 | class 0x07, id 0x84, size 0x02, all arguments zero |
| Commands.GetDpi | crates/driver/src/common.rs:135-144 | class 0x04, id 0x85, size 0x07, the store at argument 0, the rest zero |
| Commands.SetDpi | crates/driver/src/common.rs:146-164 | class 0x04, id 0x05, size 0x07; the store at 0; arguments 1..2 and 3..4 decode to the clamped x and y; zero from 5 on |
| Commands.GetDpiStages | crates/driver/src/common.rs:166-175 | class 0x04, id 0x86, size 0x26, the store at argument 0, the rest zero |
| Commands.StageChunk | crates/driver/src/common.rs:191-206 | a 7-byte record: the 0-based index, x and y big-endian, two zero bytes |
| Commands.SetDpiStages | crates/driver/src/common.rs:177-183 | class 0x04, id 0x06, size 0x26 |
| Commands.SetDpiStagesHead | crates/driver/src/common.rs:185-189 | the store at argument 0, the active stage at 1, the stage count modulo 256 at 2 |
| Commands.SetDpiStagesRecord | crates/driver/src/common.rs:196-207 | for each of the first min(count, 11) stages, the record at 3 + 7i holds i, that stage's x and y, and two zeros |
| Commands.SetDpiStagesTail | crates/driver/src/common.rs:196-208 | every argument after the last record written is zero |
| Commands.GetPollingRate | crates/driver/src/common.rs:211-218 | class 0x00, id 0x85, size 0x01, all arguments zero |
| Commands.NormalCodeInjective | crates/driver/src/common.rs:227-231 | distinct normal rates have distinct codes (0x01, 0x02, 0x08) |
| Commands.SetPollingRate | crates/driver/src/common.rs:220-233 | class 0x00, id 0x05, size 0x01, the rate code at argument 0, the rest zero |
| Commands.ExtendedCode | crates/driver/src/common.rs:244-252 | the extended flag has exactly one bit set, below bit 7 |
| Commands.ExtendedCodeOrder | crates/driver/src/common.rs:244-252 | a faster extended rate has a lower flag, and the flag determines the rate |
| Commands.SetPollingRateExtended | crates/driver/src/common.rs:236-254 | class 0x00, id 0x40, size 0x02; argument 0 is zero and argument 1 the flag; the rest zero |
| Commands.ReactiveSpeed | crates/driver/src/common.rs:297 | the speed sent lies in [1, 4]: a speed in range is sent as is, 0 is sent as 1, and anything above 4 as 4 |
| Commands.ChromaExtendedMatrixEffect | crates/driver/src/common.rs:256-305 | class 0x0F, id 0x02; store, LED id and effect code at arguments 0..2; the effect's payload from 3; zero after it |
| Commands.EffectLayout | crates/driver/src/common.rs:270-303 | off, spectrum and random breathing have size 0x06 and no payload; static puts [1,r,g,b] at 5..8; single breathing puts [1,0,1,r,g,b] at 3..8; dual puts nine bytes at 3..11 with size 0x0C; reactive puts [speed,1,r,g,b] at 4..8 |
| Commands.EffectRoundTrip | crates/driver/src/common.rs:256-305 | every lighting request reads back as the effect it encodes, with the reactive speed clamped, so distinct transmitted effects give distinct requests |
| Devices.DpiRoundTrip | crates/driver/src/devices.rs:77-79 | decoding the arguments of a DPI write gives the clamped DPI |
| Devices.DecodeDpiStages | crates/driver/src/devices.rs:112-127 | active is argument 1; the table has min(argument 2, 11) stages, stage i read from the record at 3 + 7i |
| Devices.DecodeStagesFrom | crates/driver/src/devices.rs:112-127 | an argument block holding a valid table's head and records decodes to exactly that table |
| Devices.DpiStagesRoundTrip | crates/driver/src/devices.rs:112-127 | decoding the arguments of a stage-table write gives back any valid table exactly |
| Devices.DecodedStagesMayBeInvalid | crates/driver/src/devices.rs:124-127 | decoding bypasses the constructor: an all-zero block gives an invalid empty table, and a count byte of 200 gives 11 stages |
| Devices.DecodePollingRate | crates/driver/src/devices.rs:143-148 | succeeds exactly for 0x01, 0x02 and 0x08, with a normal rate whose code is the byte read; any other byte is the polling-rate error |
| Devices.PollingRateRoundTrip | crates/driver/src/devices.rs:143-148 | decoding the arguments of a normal polling write gives that rate's frequency |
| Devices.GetDeviceImpl | crates/driver/src/devices.rs:186-191 | only product 0x007D resolves, to a profile for that id; every other id is the unsupported-device error |
| Devices.Stamp | crates/driver/src/devices.rs:72-74 | every request carries transaction id 0x3F and a consistent crc, with the builder's header and arguments |
| Devices.RequestShape | crates/driver/src/devices.rs:71-184 | reads are queries and writes are sends; every request has transaction id 0x3F and a consistent crc |
| Devices.RequestStores | crates/driver/src/devices.rs:72-180 | DPI requests target no store; stage and lighting requests target the variable store; lighting goes to LED 0x04 |
| Devices.Interpret | crates/driver/src/devices.rs:71-168 | a read yields a reply only from a whole 90-byte report, and any other length is the size error; from a whole report the reply is that read's decoder applied to response bytes 8..87, where the polling read succeeds exactly when its decoder does and otherwise reports the decoder's error |
| Devices.Plan | crates/driver/src/devices.rs:16-42 | a call reaches the device exactly when the profile provides it and its polling rate is of an accepted kind; otherwise it fails with Unimplemented or the kind error |
| Devices.Invoke | crates/driver/src/devices.rs:16-42 | a refused call fails with the refusal, and a failed transfer with the transport error; a write succeeds exactly when its send does; a read whose transfer succeeds is the response decoded as Interpret states |
| Devices.Traffic | crates/driver/src/devices.rs:16-42 | a call performs one transfer, its own request, exactly when it is not refused |
| Devices.UnimplementedByDefault | crates/driver/src/devices.rs:16-42 | an operation the profile does not provide fails with Unimplemented and performs no transfer |
| Devices.DeathAdderProfile | crates/driver/src/devices.rs:193-202 | the 0x007D profile provides exactly the eight listed operations; the polling-rate write is not one of them |
| Devices.ExtendedRateRefused | crates/driver/src/batched.rs:59-61 | an extended rate on a profile that accepts only normal rates fails with the kind error and performs no transfer |
| Devices.ResponseSizeChecked | crates/driver/src/common.rs:458-459 | a read whose response is not 90 bytes fails with the size error |
| Devices.ChargingAndBatteryFromWire | crates/driver/src/devices.rs:157-168 | the charging flag is wire byte 9 being non-zero; the battery level reads the same byte |
| Devices.SetThenGetDpi | crates/driver/src/devices.rs:71-87 | when the device echoes the written arguments, reading the DPI gives the clamped DPI that was written |
| Devices.SetThenGetDpiStages | crates/driver/src/devices.rs:89-135 | when the device echoes the written arguments, reading the stages gives back the valid table that was written |
| Batched.GetDpiRange | crates/driver/src/batched.rs:34 | the reported range is ordered, and it contains every clamped DPI |
| Batched.GetBatched | crates/driver/src/batched.rs:30-48 | never fails; the settle wait comes first and the five queries follow in order, whatever their outcomes; each field is present exactly when its query succeeded, holding its answer |
| Batched.SnapshotTraffic | crates/driver/src/batched.rs:33-38 | a snapshot's transfers are those of the DPI, stages, polling, battery and charging queries, in that order |
| Batched.DpiField | crates/driver/src/batched.rs:41 | the DPI field is present exactly when the DPI query succeeded, holding its answer |
| Batched.StagesField | crates/driver/src/batched.rs:43 | the stages field is present exactly when the stages query succeeded, holding its answer |
| Batched.RateField | crates/driver/src/batched.rs:44 | the polling field is present exactly when the polling query succeeded, holding the normal rate of the frequency read |
| Batched.BatteryField | crates/driver/src/batched.rs:45 | the battery field is present exactly when the battery query succeeded, holding its answer |
| Batched.ChargingField | crates/driver/src/batched.rs:46 | the charging field is present exactly when the charging query succeeded, holding its answer |
| Batched.Writes | crates/driver/src/batched.rs:53-61 | one write per present field, in the order DPI, stages, polling rate |
| Batched.FirstFailure | crates/driver/src/batched.rs:53-62 | every call before the index succeeds, and the call at the index, if there is one, fails |
| Batched.ApplyInOrder | crates/driver/src/batched.rs:53-62 | the calls are made in order up to and including the first failure, which is returned; success exactly when none fails |
| Batched.SetBatched | crates/driver/src/batched.rs:50-63 | after the settle wait, the present writes are made in order up to the first failure, which is returned; later writes are not attempted; with no field present the result is Ok and only the wait happens |
| Batched.PollingWriteFailsBatch | crates/driver/src/batched.rs:59-61 | on a profile without the polling write, a batch with a polling rate always fails, and fails with Unimplemented when it reaches that write |

## Left out

- USB transport: the control transfers, the request constants and the tokio
  sleeps (crates/driver/src/common.rs:441-483). The device is an abstract
  function. The post-write wait of a query is part of the query transfer,
  and the orchestrator's settle wait is a trace event. The check that a
  response is exactly 90 bytes is kept.
- Responses carry a checksum, but the source never checks it, so the model
  does not either.
- `get_battery_level` scales argument 1 to a percentage in `f32`
  (crates/driver/src/devices.rs:157). Floating point is not modelled.
  `DeviceInfo.battery_level` therefore holds the raw byte.
- The `zerocopy` layout derivations. The model serialises the 90 bytes
  explicitly. `remaining_packets` is always 0, so its byte order is
  immaterial; it is written little-endian.
- The `device_impl!` procedural macro (crates/driver_macros/src/lib.rs). A
  device profile is data: a product id, the set of operations it provides,
  and the polling-rate kinds it accepts.
- `RazerDevice::claim` and the `Deref` plumbing (crates/driver/src/devices.rs:44-69).
  They open and claim a USB interface, then call the registry, which is
  modelled.
- `Dpi::from(u16)` and `Dpi::from((u16, u16))` (crates/driver/src/common.rs:51-64)
  are field-for-field constructors. In the model they are the `Dpi`
  constructor itself.
- `PollingRate`'s `Display` (crates/driver/src/common.rs:357-361) is
  printing. Its number is `Polling.PollingRateHz`.
- The CLI and the GUI crates.
- Batched.GetDpiRange: the source calls `get_dpi_range` and `set_polling_rate`,
  but `FeatureSet` declares neither. The model uses their evident intent:
  - the DPI range is the encoder's clamp range (100, 35000) and takes no
    transfer;
  - the polling-rate write is a facade operation that defaults to
    Unimplemented. It applies the normal or extended encoder when the
    profile accepts that kind of rate, and fails with a kind error otherwise.
  - The 0x007D profile does not provide this write.
- Batched.RateField: `DeviceInfo.polling_rate` holds a `PollingRate`, but
  `get_polling_rate` yields a number. The model converts the number with
  `NormalPollingRate::try_from`. The decoder only yields 1000, 500 or 125,
  so the conversion always succeeds.
- `devices.rs:83` passes a tuple where `set_dpi` takes a `Dpi`, and
  `chroma.rs` names `EffectBreathing` where `common.rs` imports
  `BreathingEffect`. The model uses one `Dpi` type and one
  `BreathingEffect` type.
- `ExtendedMatrixEffect::None` is named `Off` in the model, so that it does
  not clash with `Option.None`.

## Findings

| source | as written | input that shows it | evidently intended | confidence | as-written member | corrected member |
|---|---|---|---|---|---|---|
| crates/driver/src/chroma.rs:51-58 | `Color::from((a, b, c))` sets r, g and b all to `a` | `(0x0C, 0xFF, 0x1D)` gives `Color(0x0C, 0x0C, 0x0C)` | r = a, g = b, b = c | not executed; high, since the second and third components are never read | Chroma.ColorFromTuple, Chroma.ColorFromTupleLosesChannels | Chroma.ColorFromTupleIntended, Chroma.ColorTupleRoundTrip |

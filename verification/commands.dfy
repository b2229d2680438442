/** The per-command request layouts of `RazerMessageBuilder`, the DPI value
    and stage-table types they carry, and the `DpiStages::new` constructor. */
module Commands {
  import opened Bytes
  import opened Wrappers
  import opened Errors
  import opened Message
  import opened Polling
  import opened Chroma

  /** Bounds every transmitted DPI value is clamped into. */
  const MinDpi: int := 100
  const MaxDpi: int := 35000
  /** `RAZER_MOUSE_MAX_DPI_STAGES` */
  const MaxDpiStages: nat := 5
  /** Stage records start at argument 3 and are 7 bytes each; 11 whole
      records fit in the remaining 77 argument bytes. */
  const StagesOffset: nat := 3
  const StageChunkSize: nat := 7
  const MaxStageChunks: nat := 11

  /** `VarStoreId`: whether a setting goes to the persistent store. */
  datatype VarStoreId = NoStore | VarStore

  function VarStoreByte(v: VarStoreId): byte {
    match v
    case NoStore => 0x00
    case VarStore => 0x01
  }

  /** `Dpi` */
  datatype Dpi = Dpi(x: u16, y: u16)

  /** Both axes clamped into [MinDpi, MaxDpi], as `set_dpi` transmits them. */
  function ClampDpi(d: Dpi): (r: Dpi)
    ensures MinDpi <= r.x <= MaxDpi && MinDpi <= r.y <= MaxDpi
    ensures MinDpi <= d.x <= MaxDpi ==> r.x == d.x
    ensures MinDpi <= d.y <= MaxDpi ==> r.y == d.y
    ensures d.x < MinDpi ==> r.x == MinDpi
    ensures d.y < MinDpi ==> r.y == MinDpi
    ensures d.x > MaxDpi ==> r.x == MaxDpi
    ensures d.y > MaxDpi ==> r.y == MaxDpi
  {
    Dpi(Clamp(d.x, MinDpi, MaxDpi), Clamp(d.y, MinDpi, MaxDpi))
  }

  /** `DpiStages`: the 1-based active stage and the stage values. The fields
      are crate-visible, so values that bypass `DpiStages::new` exist. */
  datatype DpiStages = DpiStages(active: byte, stages: seq<Dpi>)

  /** The invariant `DpiStages::new` establishes. */
  predicate ValidStages(s: DpiStages) {
    && 1 <= |s.stages| <= MaxDpiStages
    && 1 <= s.active as int <= |s.stages|
  }

  /** `DpiStages::new`: succeeds exactly for a valid table; the count is
      checked before the active index. */
  function NewDpiStages(active: byte, stages: seq<Dpi>): (r: Result<DpiStages, Error>)
    ensures r.Ok? <==> ValidStages(DpiStages(active, stages))
    ensures r.Ok? ==> r.value == DpiStages(active, stages)
    ensures r.Err? && (|stages| == 0 || |stages| > MaxDpiStages) ==> r.error == InvalidStageCount
    ensures r.Err? && 1 <= |stages| <= MaxDpiStages ==> r.error == InvalidActiveStage
  {
    if |stages| == 0 || |stages| > MaxDpiStages then Err(InvalidStageCount)
    else if active < 1 || active as int > |stages| then Err(InvalidActiveStage)
    else Ok(DpiStages(active, stages))
  }

  /** The boundary cases of the constructor: counts 0 and 6 and active
      indices 0 and count + 1 are refused; counts 1 and 5 with the active
      index at either end are accepted. */
  lemma NewDpiStagesBoundaries(d: Dpi)
    ensures NewDpiStages(1, []) == Err(InvalidStageCount)
    ensures NewDpiStages(1, [d, d, d, d, d, d]) == Err(InvalidStageCount)
    ensures NewDpiStages(0, [d]) == Err(InvalidActiveStage)
    ensures NewDpiStages(2, [d]) == Err(InvalidActiveStage)
    ensures NewDpiStages(1, [d]).Ok?
    ensures NewDpiStages(1, [d, d, d, d, d]).Ok?
    ensures NewDpiStages(5, [d, d, d, d, d]).Ok?
    ensures NewDpiStages(6, [d, d, d, d, d]) == Err(InvalidActiveStage)
  {
  }

  /** An argument block that starts with `prefix` and is zero after it; every
      builder starts from the zeroed default block. */
  function Args(prefix: seq<byte>): (a: Arguments)
    requires |prefix| <= ArgumentSize
    ensures a[..|prefix|] == prefix
    ensures forall i :: |prefix| <= i < ArgumentSize ==> a[i] == 0
  {
    prefix + Zeros(ArgumentSize - |prefix|)
  }

  /** The header fields of a builder: data size, command class, command id. */
  predicate Header(b: Builder, dataSize: byte, commandClass: byte, commandId: byte) {
    b.dataSize == dataSize && b.commandClass == commandClass && b.commandId == commandId
  }

  /** Every argument byte from `from` on is zero. */
  predicate ZeroFrom(a: Arguments, from: nat) {
    forall i :: from <= i < ArgumentSize ==> a[i] == 0
  }

  /** `get_battery_level`: 0x07/0x80, size 0x02, no arguments. */
  function GetBatteryLevel(): (b: Builder)
    ensures Header(b, 0x02, 0x07, 0x80) && ZeroFrom(b.arguments, 0)
  {
    EmptyBuilder.(dataSize := 0x02, commandClass := 0x07, commandId := 0x80,
                  arguments := Args([]))
  }

  /** `get_charging_status`: 0x07/0x84, size 0x02, no arguments. */
  function GetChargingStatus(): (b: Builder)
    ensures Header(b, 0x02, 0x07, 0x84) && ZeroFrom(b.arguments, 0)
  {
    EmptyBuilder.(dataSize := 0x02, commandClass := 0x07, commandId := 0x84,
                  arguments := Args([]))
  }

  /** `get_dpi`: 0x04/0x85, size 0x07, the store at argument 0. */
  function GetDpi(vs: VarStoreId): (b: Builder)
    ensures Header(b, 0x07, 0x04, 0x85)
    ensures b.arguments[0] == VarStoreByte(vs) && ZeroFrom(b.arguments, 1)
  {
    EmptyBuilder.(dataSize := 0x07, commandClass := 0x04, commandId := 0x85,
                  arguments := Args([VarStoreByte(vs)]))
  }

  /** `set_dpi`: 0x04/0x05, size 0x07; the store at argument 0, then the
      clamped x and y big-endian at 1..2 and 3..4, and zeros from 5 on. */
  function SetDpi(vs: VarStoreId, dpi: Dpi): (b: Builder)
    ensures Header(b, 0x07, 0x04, 0x05)
    ensures b.arguments[0] == VarStoreByte(vs)
    ensures DecodeU16(b.arguments[1..3]) == Clamp(dpi.x, MinDpi, MaxDpi)
    ensures DecodeU16(b.arguments[3..5]) == Clamp(dpi.y, MinDpi, MaxDpi)
    ensures ZeroFrom(b.arguments, 5)
  {
    var c := ClampDpi(dpi);
    var prefix := [VarStoreByte(vs)] + EncodeU16(c.x) + EncodeU16(c.y) + [0, 0];
    var a := Args(prefix);
    assert a[1..3] == EncodeU16(c.x) && a[3..5] == EncodeU16(c.y) by {
      assert a[..7] == prefix;
    }
    DecodeEncodeU16(c.x);
    DecodeEncodeU16(c.y);
    EmptyBuilder.(dataSize := 0x07, commandClass := 0x04, commandId := 0x05,
                  arguments := a)
  }

  /** `get_dpi_stages`: 0x04/0x86, size 0x26, the store at argument 0. */
  function GetDpiStages(vs: VarStoreId): (b: Builder)
    ensures Header(b, 0x26, 0x04, 0x86)
    ensures b.arguments[0] == VarStoreByte(vs) && ZeroFrom(b.arguments, 1)
  {
    EmptyBuilder.(dataSize := 0x26, commandClass := 0x04, commandId := 0x86,
                  arguments := Args([VarStoreByte(vs)]))
  }

  /** Offset of stage record `i` inside the argument block. */
  function ChunkStart(i: nat): nat {
    3 + 7 * i
  }

  /** The DPI pair stored in stage record `i`: x at record bytes 1..2 and y at
      3..4, big-endian; the record's index byte is not read. */
  function ChunkDpi(a: Arguments, i: nat): Dpi
    requires i < MaxStageChunks
  {
    Dpi(DecodeU16(a[ChunkStart(i) + 1..ChunkStart(i) + 3]),
        DecodeU16(a[ChunkStart(i) + 3..ChunkStart(i) + 5]))
  }

  /** One stage record: `[i, x_hi, x_lo, y_hi, y_lo, 0, 0]`. */
  function StageChunk(i: nat, d: Dpi): (r: seq<byte>)
    requires i < MaxStageChunks
    ensures |r| == StageChunkSize
    ensures r[0] as int == i && r[5] == 0 && r[6] == 0
    ensures DecodeU16(r[1..3]) == d.x && DecodeU16(r[3..5]) == d.y
  {
    var r := [i as byte] + EncodeU16(d.x) + EncodeU16(d.y) + [0, 0];
    assert r[1..3] == EncodeU16(d.x) && r[3..5] == EncodeU16(d.y);
    DecodeEncodeU16(d.x);
    DecodeEncodeU16(d.y);
    r
  }

  /** The blocks of `blocks`, back to back. */
  function Flatten(blocks: seq<seq<byte>>): seq<byte> {
    if |blocks| == 0 then [] else Flatten(blocks[..|blocks| - 1]) + blocks[|blocks| - 1]
  }

  /** With 7-byte blocks, block `i` of the flattening starts at 7 * i. */
  lemma {:induction false} FlattenAt(blocks: seq<seq<byte>>, i: nat)
    requires i < |blocks|
    requires forall j :: 0 <= j < |blocks| ==> |blocks[j]| == 7
    ensures |Flatten(blocks)| == 7 * |blocks|
    ensures Flatten(blocks)[7 * i..7 * i + 7] == blocks[i]
  {
    var n := |blocks| - 1;
    var front := Flatten(blocks[..n]);
    if n > 0 {
      FlattenAt(blocks[..n], if i < n then i else 0);
    } else {
      assert front == [];
    }
    if i < n {
      assert (front + blocks[n])[7 * i..7 * i + 7] == front[7 * i..7 * i + 7];
    } else {
      assert (front + blocks[n])[7 * n..7 * n + 7] == blocks[n];
    }
  }

  /** The records of the given stages, numbered from 0, back to back. */
  function StageChunks(stages: seq<Dpi>): seq<byte>
    requires |stages| <= MaxStageChunks
  {
    Flatten(seq(|stages|, i requires 0 <= i < |stages| => StageChunk(i, stages[i])))
  }

  /** The stage records occupy 7 bytes each, record `i` at offset 7 * i. */
  lemma StageChunksAt(stages: seq<Dpi>, i: nat)
    requires i < |stages| <= MaxStageChunks
    ensures |StageChunks(stages)| == 7 * |stages|
    ensures StageChunks(stages)[7 * i..7 * i + 7] == StageChunk(i, stages[i])
  {
    var blocks := seq(|stages|, i requires 0 <= i < |stages| => StageChunk(i, stages[i]));
    FlattenAt(blocks, i);
  }

  /** Record `i` of an argument block built from a 3-byte head and the
      records. */
  lemma ArgsChunkAt(head: seq<byte>, stages: seq<Dpi>, i: nat)
    requires |head| == StagesOffset && i < |stages| <= MaxStageChunks
    ensures |head + StageChunks(stages)| <= ArgumentSize
    ensures Args(head + StageChunks(stages))[ChunkStart(i)..ChunkStart(i) + 7] == StageChunk(i, stages[i])
  {
    var chunks := StageChunks(stages);
    StageChunksAt(stages, i);
    var a := Args(head + chunks);
    assert a[..|head + chunks|] == head + chunks;
    assert a[ChunkStart(i)..ChunkStart(i) + 7] == (head + chunks)[ChunkStart(i)..ChunkStart(i) + 7];
    assert (head + chunks)[ChunkStart(i)..ChunkStart(i) + 7] == chunks[7 * i..7 * i + 7];
  }

  /** How many stage records `set_dpi_stages` writes: one per stage, up to
      the 11 that fit. */
  function EncodedStageCount(s: DpiStages): nat {
    Min(|s.stages|, MaxStageChunks)
  }

  /** The argument block of `set_dpi_stages`: the store, the active stage,
      the stage count truncated to a byte, then the stage records. */
  function StagesArguments(vs: VarStoreId, s: DpiStages): Arguments {
    var n := EncodedStageCount(s);
    StageChunksLength(s.stages[..n]);
    Args([VarStoreByte(vs), s.active, (|s.stages| % 256) as byte] + StageChunks(s.stages[..n]))
  }

  lemma StageChunksLength(stages: seq<Dpi>)
    requires |stages| <= MaxStageChunks
    ensures |StageChunks(stages)| == 7 * |stages|
  {
    if |stages| > 0 {
      StageChunksAt(stages, 0);
    }
  }

  /** `set_dpi_stages`: 0x04/0x06, size 0x26, with the stage arguments. The
      table is not validated here. */
  function SetDpiStages(vs: VarStoreId, s: DpiStages): (b: Builder)
    ensures Header(b, 0x26, 0x04, 0x06)
  {
    EmptyBuilder.(dataSize := 0x26, commandClass := 0x04, commandId := 0x06,
                  arguments := StagesArguments(vs, s))
  }

  /** The head of the `set_dpi_stages` arguments: the store at 0, the active
      stage at 1 and the stage count modulo 256 at 2. */
  lemma SetDpiStagesHead(vs: VarStoreId, s: DpiStages)
    ensures var a := SetDpiStages(vs, s).arguments;
      && a[0] == VarStoreByte(vs) && a[1] == s.active
      && a[2] as int == |s.stages| % 256
  {
    var n := EncodedStageCount(s);
    StageChunksLength(s.stages[..n]);
    var head := [VarStoreByte(vs), s.active, (|s.stages| % 256) as byte];
    var a := SetDpiStages(vs, s).arguments;
    assert a[..|head + StageChunks(s.stages[..n])|] == head + StageChunks(s.stages[..n]);
    assert a[2] == (|s.stages| % 256) as byte;
  }

  /** The fields of a stage record in place in an argument block. */
  lemma RecordFields(a: Arguments, i: nat, d: Dpi)
    requires i < MaxStageChunks
    requires a[ChunkStart(i)..ChunkStart(i) + 7] == StageChunk(i, d)
    ensures a[ChunkStart(i)] as int == i && ChunkDpi(a, i) == d
    ensures a[ChunkStart(i) + 5] == 0 && a[ChunkStart(i) + 6] == 0
  {
    var k := ChunkStart(i);
    var c := a[k..k + 7];
    assert a[k] == c[0] && a[k + 5] == c[5] && a[k + 6] == c[6];
    SliceOfSlice(a, k, k + 7, 1, 3);
    SliceOfSlice(a, k, k + 7, 3, 5);
  }

  /** Record `i` of the `set_dpi_stages` arguments, for each of the first
      min(count, 11) stages: its 0-based index, the stage's x and y
      big-endian, and two zero bytes. */
  lemma SetDpiStagesRecord(vs: VarStoreId, s: DpiStages, i: nat)
    requires i < EncodedStageCount(s)
    ensures var a := SetDpiStages(vs, s).arguments;
      && a[ChunkStart(i)] as int == i
      && ChunkDpi(a, i) == s.stages[i]
      && a[ChunkStart(i) + 5] == 0
      && a[ChunkStart(i) + 6] == 0
  {
    var n := EncodedStageCount(s);
    var head := [VarStoreByte(vs), s.active, (|s.stages| % 256) as byte];
    var a := SetDpiStages(vs, s).arguments;
    ArgsChunkAt(head, s.stages[..n], i);
    assert a == Args(head + StageChunks(s.stages[..n]));
    assert s.stages[..n][i] == s.stages[i];
    RecordFields(a, i, s.stages[i]);
  }

  /** Every argument byte after the last record is zero. */
  lemma SetDpiStagesTail(vs: VarStoreId, s: DpiStages)
    ensures ZeroFrom(SetDpiStages(vs, s).arguments, ChunkStart(EncodedStageCount(s)))
  {
    StageChunksLength(s.stages[..EncodedStageCount(s)]);
  }

  /** `get_polling_rate`: 0x00/0x85, size 0x01, no arguments. */
  function GetPollingRate(): (b: Builder)
    ensures Header(b, 0x01, 0x00, 0x85) && ZeroFrom(b.arguments, 0)
  {
    EmptyBuilder.(dataSize := 0x01, commandClass := 0x00, commandId := 0x85,
                  arguments := Args([]))
  }

  /** The argument-0 code of a normal polling rate. */
  function NormalCode(n: NormalPollingRate): byte {
    match n
    case Rate1000 => 0x01
    case Rate500 => 0x02
    case Rate125 => 0x08
  }

  /** Distinct normal rates have distinct codes. */
  lemma NormalCodeInjective(a: NormalPollingRate, b: NormalPollingRate)
    ensures NormalCode(a) == NormalCode(b) <==> a == b
  {
  }

  /** `set_polling_rate`: 0x00/0x05, size 0x01, the rate code at argument 0. */
  function SetPollingRate(n: NormalPollingRate): (b: Builder)
    ensures Header(b, 0x01, 0x00, 0x05)
    ensures b.arguments[0] == NormalCode(n) && ZeroFrom(b.arguments, 1)
  {
    EmptyBuilder.(dataSize := 0x01, commandClass := 0x00, commandId := 0x05,
                  arguments := Args([NormalCode(n)]))
  }

  /** `x` is a power of two: exactly one bit is set. */
  predicate OneBit(x: nat) {
    x == 1 || (x > 1 && x % 2 == 0 && OneBit(x / 2))
  }

  /** The argument-1 flag of an extended polling rate: exactly one bit set,
      below bit 7. */
  function ExtendedCode(e: ExtendedPollingRate): (r: byte)
    ensures OneBit(r) && r < 0x80
  {
    match e
    case Hz8000 => 0x01
    case Hz4000 => 0x02
    case Hz2000 => 0x04
    case Hz1000 => 0x08
    case Hz500 => 0x10
    case Hz250 => 0x20
    case Hz125 => 0x40
  }

  /** The flags run opposite to the rates: a faster rate has a lower bit, so
      the flag determines the rate. */
  lemma ExtendedCodeOrder(a: ExtendedPollingRate, b: ExtendedPollingRate)
    ensures ExtendedHz(a) > ExtendedHz(b) <==> ExtendedCode(a) < ExtendedCode(b)
    ensures ExtendedCode(a) == ExtendedCode(b) <==> a == b
  {
  }

  /** `set_polling_rate_extended`: 0x00/0x40, size 0x02; argument 0 is zero
      and argument 1 the rate flag. */
  function SetPollingRateExtended(e: ExtendedPollingRate): (b: Builder)
    ensures Header(b, 0x02, 0x00, 0x40)
    ensures b.arguments[0] == 0 && b.arguments[1] == ExtendedCode(e)
    ensures ZeroFrom(b.arguments, 2)
  {
    EmptyBuilder.(dataSize := 0x02, commandClass := 0x00, commandId := 0x40,
                  arguments := Args([0x00, ExtendedCode(e)]))
  }

  /** The reactive speed as transmitted: clamped into [1, 4]. */
  function ReactiveSpeed(speed: byte): (r: byte)
    ensures 1 <= r <= 4
    ensures 1 <= speed <= 4 ==> r == speed
    ensures speed < 1 ==> r == 1
    ensures speed > 4 ==> r == 4
  {
    Clamp(speed as int, 1, 4) as byte
  }

  /** The effect-specific bytes written from argument 3 on. */
  function EffectPayload(e: ExtendedMatrixEffect): seq<byte> {
    match e
    case Off => []
    case Spectrum => []
    case Static(c) => [0x00, 0x00, 0x01, c.r, c.g, c.b]
    case Breathing(Single(c)) => [0x01, 0x00, 0x01, c.r, c.g, c.b]
    case Breathing(Dual(c, c')) => [0x02, 0x00, 0x02, c.r, c.g, c.b, c'.r, c'.g, c'.b]
    case Breathing(Random) => []
    case Reactive(c, speed) => [0x00, ReactiveSpeed(speed), 0x01, c.r, c.g, c.b]
  }

  /** The data size of a lighting request. */
  function EffectDataSize(e: ExtendedMatrixEffect): byte {
    match e
    case Off => 0x06
    case Spectrum => 0x06
    case Static(_) => 0x09
    case Breathing(Single(_)) => 0x09
    case Breathing(Dual(_, _)) => 0x0C
    case Breathing(Random) => 0x06
    case Reactive(_, _) => 0x09
  }

  /** `chroma_extended_matrix_effect`: 0x0F/0x02. The store, LED id and
      effect code at arguments 0..2, the effect's payload from argument 3,
      zeros after it. */
  function ChromaExtendedMatrixEffect(vs: VarStoreId, led: LedId, e: ExtendedMatrixEffect): (b: Builder)
    ensures Header(b, EffectDataSize(e), 0x0F, 0x02)
    ensures b.arguments[0] == VarStoreByte(vs)
    ensures b.arguments[1] == LedIdByte(led)
    ensures b.arguments[2] == EffectCode(e)
    ensures b.arguments[3..3 + |EffectPayload(e)|] == EffectPayload(e)
    ensures ZeroFrom(b.arguments, 3 + |EffectPayload(e)|)
  {
    var prefix := [VarStoreByte(vs), LedIdByte(led), EffectCode(e)] + EffectPayload(e);
    var a := Args(prefix);
    assert a[..|prefix|] == prefix;
    assert a[3..|prefix|] == prefix[3..];
    EmptyBuilder.(dataSize := EffectDataSize(e), commandClass := 0x0F, commandId := 0x02,
                  arguments := a)
  }

  /** The lighting layouts effect by effect: no payload and size 0x06 for
      off, spectrum and random breathing; `[1, r, g, b]` at 5..8 for static;
      `[1, 0, 1, r, g, b]` at 3..8 for single breathing; `[2, 0, 2, r1, g1,
      b1, r2, g2, b2]` at 3..11 for dual breathing; `[speed, 1, r, g, b]` at
      4..8 with the speed clamped into [1, 4] for reactive. */
  lemma EffectLayout(vs: VarStoreId, led: LedId, e: ExtendedMatrixEffect)
    ensures var b := ChromaExtendedMatrixEffect(vs, led, e);
      && ((e.Off? || e.Spectrum? || e == Breathing(Random)) ==>
            b.dataSize == 0x06 && ZeroFrom(b.arguments, 3))
      && (e.Static? ==>
            && b.dataSize == 0x09
            && b.arguments[3..9] == [0x00, 0x00, 0x01, e.color.r, e.color.g, e.color.b]
            && ZeroFrom(b.arguments, 9))
      && (e.Breathing? && e.breathing.Single? ==>
            var c := e.breathing.color;
            && b.dataSize == 0x09
            && b.arguments[3..9] == [0x01, 0x00, 0x01, c.r, c.g, c.b]
            && ZeroFrom(b.arguments, 9))
      && (e.Breathing? && e.breathing.Dual? ==>
            var c, c' := e.breathing.first, e.breathing.second;
            && b.dataSize == 0x0C
            && b.arguments[3..12] == [0x02, 0x00, 0x02, c.r, c.g, c.b, c'.r, c'.g, c'.b]
            && ZeroFrom(b.arguments, 12))
      && (e.Reactive? ==>
            && b.dataSize == 0x09
            && b.arguments[3..9] == [0x00, ReactiveSpeed(e.speed), 0x01, e.color.r, e.color.g, e.color.b]
            && ZeroFrom(b.arguments, 9))
  {
  }

  /** The effect as the device receives it: the reactive speed clamped. */
  function Transmitted(e: ExtendedMatrixEffect): ExtendedMatrixEffect {
    match e
    case Reactive(c, speed) => Reactive(c, ReactiveSpeed(speed))
    case _ => e
  }

  function ColorAt(a: Arguments, i: nat): Color
    requires i + 3 <= ArgumentSize
  {
    Color(a[i], a[i + 1], a[i + 2])
  }

  /** Reads a lighting request back: the effect code selects the variant, the
      first payload byte selects the breathing sub-effect, and the colours
      and speed are read from their offsets. */
  function ParseEffect(b: Builder): Option<ExtendedMatrixEffect> {
    var a := b.arguments;
    match a[2]
    case 0x00 => Some(Off)
    case 0x01 => Some(Static(ColorAt(a, 6)))
    case 0x02 =>
      if a[3] == 0x01 then Some(Breathing(Single(ColorAt(a, 6))))
      else if a[3] == 0x02 then Some(Breathing(Dual(ColorAt(a, 6), ColorAt(a, 9))))
      else if a[3] == 0x00 then Some(Breathing(Random))
      else None
    case 0x03 => Some(Spectrum)
    case 0x05 => Some(Reactive(ColorAt(a, 6), a[4]))
    case _ => None
  }

  /** Every lighting request can be read back into the effect it encodes, so
      distinct transmitted effects give distinct requests. */
  lemma EffectRoundTrip(vs: VarStoreId, led: LedId, e: ExtendedMatrixEffect)
    ensures ParseEffect(ChromaExtendedMatrixEffect(vs, led, e)) == Some(Transmitted(e))
  {
    var a := ChromaExtendedMatrixEffect(vs, led, e).arguments;
    var p := EffectPayload(e);
    assert forall i :: 3 <= i < 3 + |p| ==> a[i] == p[i - 3];
  }
}

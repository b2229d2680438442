/** The batched orchestrator: a snapshot read that degrades each failed
    field to "absent", and a bulk write that applies the present fields in
    order and stops at the first failure. Both first wait for the device to
    settle; the wait is recorded as the first event of the trace. */
module Batched {
  import opened Bytes
  import opened Wrappers
  import opened Errors
  import opened Polling
  import opened Commands
  import opened Devices

  /** What the orchestrator does, in order: the settle wait or one transfer. */
  datatype Event = Settle | Io(transfer: Transfer)

  function Events(ts: seq<Transfer>): (es: seq<Event>)
    ensures |es| == |ts|
    ensures forall i :: 0 <= i < |ts| ==> es[i] == Io(ts[i])
  {
    seq(|ts|, i requires 0 <= i < |ts| => Io(ts[i]))
  }

  /** `f` applied to each element in turn, the results back to back. */
  function FlatMap<A, B>(f: A -> seq<B>, xs: seq<A>): seq<B> {
    if |xs| == 0 then [] else f(xs[0]) + FlatMap(f, xs[1..])
  }

  lemma {:induction false} FlatMapSnoc<A, B>(f: A -> seq<B>, xs: seq<A>, x: A)
    ensures FlatMap(f, xs + [x]) == FlatMap(f, xs) + f(x)
  {
    if |xs| == 0 {
      assert xs + [x] == [x];
      assert FlatMap(f, [x]) == f(x) + FlatMap(f, []);
    } else {
      assert (xs + [x])[1..] == xs[1..] + [x];
      FlatMapSnoc(f, xs[1..], x);
    }
  }

  lemma FlatMapFive<A, B>(f: A -> seq<B>, a: A, b: A, c: A, d: A, e: A)
    ensures FlatMap(f, [a, b, c, d, e]) == [] + f(a) + f(b) + f(c) + f(d) + f(e)
  {
    var s1 := [] + [a];
    var s2 := s1 + [b];
    var s3 := s2 + [c];
    var s4 := s3 + [d];
    FlatMapSnoc(f, [], a);
    FlatMapSnoc(f, s1, b);
    FlatMapSnoc(f, s2, c);
    FlatMapSnoc(f, s3, d);
    FlatMapSnoc(f, s4, e);
    assert FlatMap(f, []) == [];
    assert s4 + [e] == [a, b, c, d, e];
  }

  /** The transfers of one call under profile `p`. */
  function TrafficFn(p: Profile): Call -> seq<Transfer> {
    c => Traffic(p, c)
  }

  /** The transfers of a sequence of calls, each call's in turn. */
  function TrafficOf(p: Profile, cs: seq<Call>): seq<Transfer> {
    FlatMap(TrafficFn(p), cs)
  }

  /** `DeviceInfo`: every field but the DPI range may be absent. The battery
      level is the raw response byte. */
  datatype DeviceInfo = DeviceInfo(
    dpi: Option<Dpi>,
    dpiRange: (u16, u16),
    dpiStages: Option<DpiStages>,
    pollingRate: Option<PollingRate>,
    batteryLevel: Option<byte>,
    chargingStatus: Option<bool>)

  /** `DeviceSettings`: the fields to write; absent ones are left alone. */
  datatype DeviceSettings = DeviceSettings(
    dpi: Option<Dpi>,
    dpiStages: Option<DpiStages>,
    pollingRate: Option<PollingRate>)

  /** The device queries of a snapshot, in the order they are issued. */
  const SnapshotReads: seq<Call> :=
    [ReadDpi, ReadDpiStages, ReadPollingRate, ReadBatteryLevel, ReadChargingStatus]

  /** The DPI range a profile reports, without any transfer: the range the
      encoder clamps into. */
  function GetDpiRange(p: Profile): (r: (u16, u16))
    ensures r.0 <= r.1
    ensures forall d: Dpi :: r.0 <= ClampDpi(d).x <= r.1 && r.0 <= ClampDpi(d).y <= r.1
  {
    (MinDpi, MaxDpi)
  }

  /** `get_batched`: never fails. After the settle wait it issues all five
      device queries in a fixed order whatever their outcomes, and each field
      is present exactly when its own query succeeded, holding that query's
      answer. */
  method GetBatched(p: Profile, device: Device) returns (info: DeviceInfo, trace: seq<Event>)
    ensures trace == [Settle] + Events(TrafficOf(p, SnapshotReads))
    ensures info.dpiRange == GetDpiRange(p)
    ensures info.dpi.Some? <==> Invoke(p, ReadDpi, device).Ok?
    ensures info.dpi.Some? ==> Invoke(p, ReadDpi, device) == Ok(DpiReply(info.dpi.value))
    ensures info.dpiStages.Some? <==> Invoke(p, ReadDpiStages, device).Ok?
    ensures info.dpiStages.Some? ==>
      Invoke(p, ReadDpiStages, device) == Ok(StagesReply(info.dpiStages.value))
    ensures info.pollingRate.Some? <==> Invoke(p, ReadPollingRate, device).Ok?
    ensures info.pollingRate.Some? ==>
      && info.pollingRate.value.Normal?
      && Invoke(p, ReadPollingRate, device) == Ok(RateReply(PollingRateHz(info.pollingRate.value)))
    ensures info.batteryLevel.Some? <==> Invoke(p, ReadBatteryLevel, device).Ok?
    ensures info.batteryLevel.Some? ==>
      Invoke(p, ReadBatteryLevel, device) == Ok(BatteryReply(info.batteryLevel.value))
    ensures info.chargingStatus.Some? <==> Invoke(p, ReadChargingStatus, device).Ok?
    ensures info.chargingStatus.Some? ==>
      Invoke(p, ReadChargingStatus, device) == Ok(ChargingReply(info.chargingStatus.value))
  {
    var sent: seq<Transfer> := [];
    var dpi := DpiField(p, device);
    sent := sent + Traffic(p, ReadDpi);
    var dpiRange := GetDpiRange(p);
    var dpiStages := StagesField(p, device);
    sent := sent + Traffic(p, ReadDpiStages);
    var pollingRate := RateField(p, device);
    sent := sent + Traffic(p, ReadPollingRate);
    var batteryLevel := BatteryField(p, device);
    sent := sent + Traffic(p, ReadBatteryLevel);
    var chargingStatus := ChargingField(p, device);
    sent := sent + Traffic(p, ReadChargingStatus);
    SnapshotTraffic(p);
    trace := [Settle] + Events(sent);
    info := DeviceInfo(dpi, dpiRange, dpiStages, pollingRate, batteryLevel, chargingStatus);
  }

  /* One snapshot field each: the query's answer, or absent when it failed. */

  function DpiField(p: Profile, device: Device): (o: Option<Dpi>)
    ensures o.Some? <==> Invoke(p, ReadDpi, device).Ok?
    ensures o.Some? ==> Invoke(p, ReadDpi, device) == Ok(DpiReply(o.value))
  {
    var r := Invoke(p, ReadDpi, device);
    if r.Ok? then Some(r.value.dpi) else None
  }

  function StagesField(p: Profile, device: Device): (o: Option<DpiStages>)
    ensures o.Some? <==> Invoke(p, ReadDpiStages, device).Ok?
    ensures o.Some? ==> Invoke(p, ReadDpiStages, device) == Ok(StagesReply(o.value))
  {
    var r := Invoke(p, ReadDpiStages, device);
    if r.Ok? then Some(r.value.stages) else None
  }

  /** The polling query answers in hertz; the field holds the normal rate
      with that frequency. */
  function RateField(p: Profile, device: Device): (o: Option<PollingRate>)
    ensures o.Some? <==> Invoke(p, ReadPollingRate, device).Ok?
    ensures o.Some? ==>
      && o.value.Normal?
      && Invoke(p, ReadPollingRate, device) == Ok(RateReply(PollingRateHz(o.value)))
  {
    var r := Invoke(p, ReadPollingRate, device);
    if r.Ok? then Some(Normal(NormalFromHz(r.value.hz).value)) else None
  }

  function BatteryField(p: Profile, device: Device): (o: Option<byte>)
    ensures o.Some? <==> Invoke(p, ReadBatteryLevel, device).Ok?
    ensures o.Some? ==> Invoke(p, ReadBatteryLevel, device) == Ok(BatteryReply(o.value))
  {
    var r := Invoke(p, ReadBatteryLevel, device);
    if r.Ok? then Some(r.value.raw) else None
  }

  function ChargingField(p: Profile, device: Device): (o: Option<bool>)
    ensures o.Some? <==> Invoke(p, ReadChargingStatus, device).Ok?
    ensures o.Some? ==> Invoke(p, ReadChargingStatus, device) == Ok(ChargingReply(o.value))
  {
    var r := Invoke(p, ReadChargingStatus, device);
    if r.Ok? then Some(r.value.charging) else None
  }

  /** The transfers of a snapshot are those of its five queries in order. */
  lemma SnapshotTraffic(p: Profile)
    ensures TrafficOf(p, SnapshotReads)
         == [] + Traffic(p, ReadDpi) + Traffic(p, ReadDpiStages) + Traffic(p, ReadPollingRate)
            + Traffic(p, ReadBatteryLevel) + Traffic(p, ReadChargingStatus)
  {
    FlatMapFive(TrafficFn(p), ReadDpi, ReadDpiStages, ReadPollingRate, ReadBatteryLevel, ReadChargingStatus);
  }

  /** The writes a settings value asks for: DPI, then stages, then polling
      rate, each only when present. */
  function Writes(s: DeviceSettings): (cs: seq<Call>)
    ensures |cs| == (if s.dpi.Some? then 1 else 0) + (if s.dpiStages.Some? then 1 else 0)
                    + (if s.pollingRate.Some? then 1 else 0)
    ensures s.dpi.Some? ==> cs[0] == WriteDpi(s.dpi.value)
    ensures s.dpiStages.Some? ==> cs[if s.dpi.Some? then 1 else 0] == WriteDpiStages(s.dpiStages.value)
    ensures s.pollingRate.Some? ==> cs[|cs| - 1] == WritePollingRate(s.pollingRate.value)
  {
    (if s.dpi.Some? then [WriteDpi(s.dpi.value)] else [])
    + (if s.dpiStages.Some? then [WriteDpiStages(s.dpiStages.value)] else [])
    + (if s.pollingRate.Some? then [WritePollingRate(s.pollingRate.value)] else [])
  }

  /** The index of the first error in a sequence of outcomes, or its length
      when there is none. */
  function FirstErr<T>(os: seq<Result<T, Error>>): (k: nat)
    ensures k <= |os|
    ensures forall j :: 0 <= j < k ==> os[j].Ok?
    ensures k < |os| ==> os[k].Err?
  {
    if |os| == 0 then 0
    else if os[0].Err? then 0
    else 1 + FirstErr(os[1..])
  }

  /** The index of the first call that fails, or the number of calls when
      none does. */
  function FirstFailure(p: Profile, cs: seq<Call>, device: Device): (k: nat)
    ensures k <= |cs|
    ensures forall j :: 0 <= j < k ==> Invoke(p, cs[j], device).Ok?
    ensures k < |cs| ==> Invoke(p, cs[k], device).Err?
  {
    var os := seq(|cs|, i requires 0 <= i < |cs| => Invoke(p, cs[i], device));
    assert forall j :: 0 <= j < |cs| ==> os[j] == Invoke(p, cs[j], device);
    FirstErr(os)
  }

  /** Extending a prefix by one element. */
  lemma PrefixSnoc<T>(w: seq<T>, i: nat)
    requires i < |w|
    ensures w[..i + 1] == w[..i] + [w[i]]
  {
  }

  lemma PrefixAll<T>(w: seq<T>)
    ensures w[..|w|] == w
  {
  }

  /** A call at or before the first failure fails exactly when it is the
      first failure. */
  lemma FirstFailureAt(p: Profile, w: seq<Call>, device: Device, i: nat)
    requires i < |w| && i <= FirstFailure(p, w, device)
    ensures Invoke(p, w[i], device).Err? <==> FirstFailure(p, w, device) == i
  {
  }

  /** `set_batched`: after the settle wait, the present fields are written in
      the order DPI, stages, polling rate. The first failing write ends the
      operation and is returned; no later write is attempted and earlier
      ones stay applied. */
  method SetBatched(p: Profile, settings: DeviceSettings, device: Device)
    returns (r: Result<(), Error>, trace: seq<Event>)
    ensures var w := Writes(settings); var k := FirstFailure(p, w, device);
      && trace == [Settle] + Events(TrafficOf(p, w[..Min(k + 1, |w|)]))
      && (r.Ok? <==> k == |w|)
      && (r.Err? ==> r.error == Invoke(p, w[k], device).error)
    ensures settings.dpi.None? && settings.dpiStages.None? && settings.pollingRate.None? ==>
      r.Ok? && trace == [Settle]
  {
    var sent;
    r, sent := ApplyInOrder(p, Writes(settings), device);
    trace := [Settle] + Events(sent);
    if settings.dpi.None? && settings.dpiStages.None? && settings.pollingRate.None? {
      assert Writes(settings)[..Min(0 + 1, 0)] == [];
      assert TrafficOf(p, []) == [] && Events([]) == [];
    }
  }

  /** Performs the calls one after another and stops at the first failure,
      which it returns; the transfers are those of every call attempted. */
  method ApplyInOrder(p: Profile, w: seq<Call>, device: Device)
    returns (r: Result<(), Error>, sent: seq<Transfer>)
    ensures var k := FirstFailure(p, w, device);
      && sent == TrafficOf(p, w[..Min(k + 1, |w|)])
      && (r.Ok? <==> k == |w|)
      && (r.Err? ==> r.error == Invoke(p, w[k], device).error)
  {
    ghost var k := FirstFailure(p, w, device);
    ghost var done: seq<Call> := [];
    sent := [];
    var i := 0;
    while i < |w|
      invariant i <= k
      invariant done == w[..i]
      invariant sent == TrafficOf(p, done)
    {
      var res := Invoke(p, w[i], device);
      FirstFailureAt(p, w, device, i);
      FlatMapSnoc(TrafficFn(p), done, w[i]);
      PrefixSnoc(w, i);
      done := done + [w[i]];
      sent := sent + Traffic(p, w[i]);
      if res.Err? {
        return Err(res.error), sent;
      }
      i := i + 1;
    }
    PrefixAll(w);
    return Ok(()), sent;
  }

  /** On a profile without the polling-rate write, a batch that asks for a
      polling rate never succeeds: when the DPI and stage writes go through,
      the batch ends on the polling write with "Unimplemented". */
  lemma PollingWriteFailsBatch(p: Profile, settings: DeviceSettings, device: Device)
    requires SetPollingRate !in p.features
    requires settings.pollingRate.Some?
    ensures var w := Writes(settings); var k := FirstFailure(p, w, device);
      && k < |w|
      && (k == |w| - 1 ==> Invoke(p, w[k], device) == Err(Unimplemented))
  {
    var w := Writes(settings);
    UnimplementedByDefault(p, w[|w| - 1], device);
  }
}

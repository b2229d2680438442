/** Report (polling) rates: the two families the device protocol knows and
    their conversions to and from a rate in Hz. */
module Polling {
  import opened Bytes
  import opened Wrappers

  datatype NormalPollingRate = Rate1000 | Rate500 | Rate125

  datatype ExtendedPollingRate = Hz8000 | Hz4000 | Hz2000 | Hz1000 | Hz500 | Hz250 | Hz125

  datatype PollingRate = Normal(normal: NormalPollingRate) | Extended(extended: ExtendedPollingRate)

  /** Which family a rate belongs to; a device profile accepts a set of them. */
  datatype PollingKind = NormalKind | ExtendedKind

  function KindOf(p: PollingRate): PollingKind {
    match p
    case Normal(_) => NormalKind
    case Extended(_) => ExtendedKind
  }

  /** `u16::from(NormalPollingRate)` */
  function NormalHz(n: NormalPollingRate): u16 {
    match n
    case Rate1000 => 1000
    case Rate500 => 500
    case Rate125 => 125
  }

  /** `NormalPollingRate::try_from(u16)`: accepts exactly the three normal
      rates, and maps each back to its variant. */
  function NormalFromHz(v: u16): (r: Option<NormalPollingRate>)
    ensures r.Some? <==> v in {1000, 500, 125}
    ensures r.Some? ==> NormalHz(r.value) == v
  {
    match v
    case 1000 => Some(Rate1000)
    case 500 => Some(Rate500)
    case 125 => Some(Rate125)
    case _ => None
  }

  /** `u16::from(ExtendedPollingRate)` */
  function ExtendedHz(e: ExtendedPollingRate): u16 {
    match e
    case Hz8000 => 8000
    case Hz4000 => 4000
    case Hz2000 => 2000
    case Hz1000 => 1000
    case Hz500 => 500
    case Hz250 => 250
    case Hz125 => 125
  }

  /** `ExtendedPollingRate::try_from(u16)`: accepts exactly the seven
      extended rates, and maps each back to its variant. */
  function ExtendedFromHz(v: u16): (r: Option<ExtendedPollingRate>)
    ensures r.Some? <==> v in {8000, 4000, 2000, 1000, 500, 250, 125}
    ensures r.Some? ==> ExtendedHz(r.value) == v
  {
    match v
    case 8000 => Some(Hz8000)
    case 4000 => Some(Hz4000)
    case 2000 => Some(Hz2000)
    case 1000 => Some(Hz1000)
    case 500 => Some(Hz500)
    case 250 => Some(Hz250)
    case 125 => Some(Hz125)
    case _ => None
  }

  /** `u16::from(PollingRate)` */
  function PollingRateHz(p: PollingRate): u16 {
    match p
    case Normal(n) => NormalHz(n)
    case Extended(e) => ExtendedHz(e)
  }

  /** The conversions are mutual inverses on the normal rates. */
  lemma NormalHzRoundTrip(n: NormalPollingRate)
    ensures NormalFromHz(NormalHz(n)) == Some(n)
  {
  }

  /** The conversions are mutual inverses on the extended rates. */
  lemma ExtendedHzRoundTrip(e: ExtendedPollingRate)
    ensures ExtendedFromHz(ExtendedHz(e)) == Some(e)
  {
  }

  /** Every normal rate is also an extended rate with the same frequency. */
  lemma NormalRatesAreExtended(n: NormalPollingRate)
    ensures ExtendedFromHz(NormalHz(n)).Some?
  {
  }
}

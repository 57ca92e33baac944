/**
 * Unit selection of the size and speed humanisers. Each humaniser picks a
 * unit by comparing the raw value with fixed thresholds and scales the value
 * into that unit; the two-decimal text rendering is not modelled.
 */
module Humanize {

  /** A size shown to the user, in megabytes or gigabytes. */
  datatype SizeReading = MB(mb: real) | GB(gb: real)

  /** A network speed shown to the user, in kbps, Mbps or Gbps. */
  datatype SpeedReading = Kbps(kbps: real) | Mbps(mbps: real) | Gbps(gbps: real)

  /** The size, in gigabytes, that a reading denotes (1 GB = 1024 MB here). */
  function SizeInGB(r: SizeReading): real {
    match r
    case MB(m) => m / 1024.0
    case GB(g) => g
  }

  /** The speed, in kbps, that a reading denotes (1 Mbps = 1000 kbps). */
  function SpeedInKbps(r: SpeedReading): real {
    match r
    case Kbps(k) => k
    case Mbps(m) => m * 1000.0
    case Gbps(g) => g * 1000000.0
  }

  /** A size reading whose amount lies in its unit's range. */
  predicate SizeNormalized(r: SizeReading) {
    match r
    case MB(m) => m < 1024.0
    case GB(g) => g >= 1.0
  }

  /** A speed reading whose amount lies in its unit's range. */
  predicate SpeedNormalized(r: SpeedReading) {
    match r
    case Kbps(k) => k < 1000.0
    case Mbps(m) => 1.0 <= m < 1000.0
    case Gbps(g) => g >= 1.0
  }

  /**
   * humanizeMemoryGB: below 1 GB the value is shown in MB, otherwise in GB.
   * The reading denotes the input quantity and is normalized.
   */
  function HumanizeMemoryGB(value: real): (r: SizeReading)
    ensures r.MB? <==> value < 1.0
    ensures SizeInGB(r) == value
    ensures SizeNormalized(r)
    ensures 0.0 <= value && r.MB? ==> 0.0 <= r.mb < 1024.0
  {
    if value < 1.0 then
      var mbValue := value * 1024.0;
      MB(mbValue)
    else
      GB(value)
  }

  /** humanizeDiskGB: a separate copy of the memory humaniser. */
  function HumanizeDiskGB(value: real): (r: SizeReading)
    ensures r.MB? <==> value < 1.0
    ensures SizeInGB(r) == value
    ensures SizeNormalized(r)
    ensures 0.0 <= value && r.MB? ==> 0.0 <= r.mb < 1024.0
  {
    if value < 1.0 then
      var mbValue := value * 1024.0;
      MB(mbValue)
    else
      GB(value)
  }

  /** The memory and disk humanisers agree on every input. */
  lemma MemoryAndDiskAgree(value: real)
    ensures HumanizeMemoryGB(value) == HumanizeDiskGB(value)
  {
  }

  /**
   * The humaniser's reading is the only normalized reading of the quantity:
   * unit selection is fixed by the thresholds alone.
   */
  lemma SizeReadingUnique(value: real, r: SizeReading)
    requires SizeNormalized(r) && SizeInGB(r) == value
    ensures r == HumanizeMemoryGB(value)
  {
  }

  /**
   * humanizeNetworkSpeed: below 1000 kbps in kbps, below 1000000 kbps in
   * Mbps (divided by 1000), otherwise in Gbps (divided by 1000000).
   */
  function HumanizeNetworkSpeed(kbps: real): (r: SpeedReading)
    ensures r.Kbps? <==> kbps < 1000.0
    ensures r.Mbps? <==> 1000.0 <= kbps < 1000000.0
    ensures r.Gbps? <==> 1000000.0 <= kbps
    ensures SpeedInKbps(r) == kbps
    ensures SpeedNormalized(r)
  {
    if kbps < 1000.0 then
      Kbps(kbps)
    else if kbps < 1000000.0 then
      var mbps := kbps / 1000.0;
      Mbps(mbps)
    else
      var gbps := kbps / 1000000.0;
      Gbps(gbps)
  }

  /** The speed humaniser's reading is the only normalized reading of the speed. */
  lemma SpeedReadingUnique(kbps: real, r: SpeedReading)
    requires SpeedNormalized(r) && SpeedInKbps(r) == kbps
    ensures r == HumanizeNetworkSpeed(kbps)
  {
  }

  /** Concrete cases a reader can check by hand. */
  lemma Examples()
    ensures HumanizeMemoryGB(0.5) == MB(512.0)
    ensures HumanizeMemoryGB(1.0) == GB(1.0)
    ensures HumanizeMemoryGB(2.0) == GB(2.0)
    ensures HumanizeNetworkSpeed(500.0) == Kbps(500.0)
    ensures HumanizeNetworkSpeed(1500.0) == Mbps(1.5)
    ensures HumanizeNetworkSpeed(2000000.0) == Gbps(2.0)
  {
  }
}

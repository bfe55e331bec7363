/** Colour tier of a rate, always judged on its megabit-per-second equivalent. */
module Colors {

  datatype Tier = Green | Amber | Red

  /** The colour string the label uses for each tier. */
  function Hex(t: Tier): string
  {
    match t
    case Green => "#46BE5A"
    case Amber => "#FFAA28"
    case Red => "#E64646"
  }

  /** The label colour identifies the tier: the three colour strings differ. */
  lemma HexIdentifiesTier(a: Tier, b: Tier)
    ensures Hex(a) == Hex(b) <==> a == b
  {
  }

  function Rank(t: Tier): nat
  {
    match t
    case Green => 0
    case Amber => 1
    case Red => 2
  }

  /** Green below 5 Mbps, amber from 5 up to 50, red at 50 and above. */
  function ColorForMbps(mbps: real): (t: Tier)
    ensures t == Green <==> mbps < 5.0
    ensures t == Red <==> mbps >= 50.0
  {
    if mbps < 5.0 then Green
    else if mbps < 50.0 then Amber
    else Red
  }

  /** A faster rate never gets a lower tier. */
  lemma ColorMonotone(a: real, b: real)
    requires a <= b
    ensures Rank(ColorForMbps(a)) <= Rank(ColorForMbps(b))
  {
  }

  /** Megabits per second for a bytes/s rate, whatever unit the label shows. */
  function MbpsOf(bytesPerSec: real): (m: real)
    ensures m * 125000.0 == bytesPerSec
  {
    bytesPerSec * 8.0 / 1000000.0
  }

  /** The tier thresholds expressed directly in bytes per second: 625,000 and 6,250,000 B/s. */
  lemma TierInBytesPerSecond(bytesPerSec: real)
    ensures ColorForMbps(MbpsOf(bytesPerSec)) == Green <==> bytesPerSec < 625000.0
    ensures ColorForMbps(MbpsOf(bytesPerSec)) == Red <==> bytesPerSec >= 6250000.0
  {
  }
}

/**
 * Throughput formatting: the unit ladders, the auto-scaling loop, the forced
 * unit override and the choice of decimals for the numeral.
 */
module Units {
  import opened Common

  const BitUnits: seq<string> := ["bps", "Kbps", "Mbps", "Gbps", "Tbps"]
  const ByteUnits: seq<string> := ["B/s", "KB/s", "MB/s", "GB/s", "TB/s"]

  /** Index of the largest unit of either ladder. */
  const TopIndex: nat := 4

  /** The active ladder: its labels and the step between neighbouring labels. */
  datatype Ladder = Ladder(units: seq<string>, step: real)

  /** Only the exact mode "bytes" selects the byte ladder; every other mode string means bits. */
  function LadderFor(mode: string): (l: Ladder)
    ensures |l.units| == TopIndex + 1 && l.step > 1.0
    ensures mode == "bytes" ==> l == Ladder(ByteUnits, 1024.0)
    ensures mode != "bytes" ==> l == Ladder(BitUnits, 1000.0)
  {
    if mode == "bytes" then Ladder(ByteUnits, 1024.0)
    else Ladder(BitUnits, 1000.0)
  }

  /** The rate in the ladder's base unit: bytes/s as is, or bits/s (times 8). */
  function BaseValue(bytesPerSec: real, mode: string): (v: real)
    ensures bytesPerSec <= 0.0 ==> v <= 0.0
    ensures mode == "bytes" ==> v == bytesPerSec
    ensures mode != "bytes" ==> v == 8.0 * bytesPerSec
  {
    if mode == "bytes" then bytesPerSec else bytesPerSec * 8.0
  }

  function Pow(b: real, n: nat): (p: real)
    ensures b > 0.0 ==> p > 0.0
  {
    if n == 0 then 1.0 else b * Pow(b, n - 1)
  }

  /** Position of the first occurrence of `u` (Python's `list.index`). */
  function IndexOf(units: seq<string>, u: string): (i: nat)
    requires u in units
    ensures i < |units| && units[i] == u && u !in units[..i]
  {
    if units[0] == u then 0
    else
      assert units == [units[0]] + units[1..];
      var j := IndexOf(units[1..], u);
      assert units[..j + 1] == [units[0]] + units[1..][..j];
      j + 1
  }

  /** The numeral part of a formatted rate: a literal "0", or a value printed with a fixed number of decimals. */
  datatype Numeral = Zero | Fixed(value: real, decimals: nat)

  /** Decimal count by magnitude; non-positive values print as "0". */
  function FmtValue(v: real): (n: Numeral)
    ensures n.Zero? <==> v <= 0.0
    ensures n.Fixed? ==> n.value == v && n.decimals <= 2
    ensures n.Fixed? ==> (n.decimals == 0 <==> v >= 100.0)
    ensures n.Fixed? ==> (n.decimals == 1 <==> 10.0 <= v < 100.0)
  {
    if v >= 100.0 then Fixed(v, 0)
    else if v >= 10.0 then Fixed(v, 1)
    else if v >= 1.0 then Fixed(v, 2)
    else if v > 0.0 then Fixed(v, 2)
    else Zero
  }

  /** Larger positive values never get more decimals than smaller ones. */
  lemma DecimalsNonIncreasing(a: real, b: real)
    requires 0.0 < a <= b
    ensures FmtValue(a).Fixed? && FmtValue(b).Fixed?
    ensures FmtValue(b).decimals <= FmtValue(a).decimals
    ensures b >= 100.0 ==> FmtValue(b).decimals == 0
    ensures 10.0 <= a < 100.0 ==> FmtValue(a).decimals == 1
    ensures a < 10.0 ==> FmtValue(a).decimals == 2
  {
  }

  /** A formatted rate: numeral, then a space, then the unit label. */
  datatype Rendered = Rendered(numeral: Numeral, unit: string)

  /**
   * The auto-scale loop as a function: divide by `step` while the value is at
   * least `step` and a larger unit remains. Returns (scaled value, unit index).
   */
  function AutoScale(value: real, step: real, idx: nat): (real, nat)
    requires step > 1.0 && idx <= TopIndex
    decreases TopIndex - idx
  {
    if value >= step && idx < TopIndex then AutoScale(value / step, step, idx + 1)
    else (value, idx)
  }

  /** `v` multiplied by `step`, `k` times over: undoes `k` divisions by `step`. */
  function Rescaled(v: real, step: real, k: nat): real
    decreases k
  {
    if k == 0 then v else Rescaled(v * step, step, k - 1)
  }

  lemma MulDivCancel(step: real, value: real)
    requires step > 0.0
    ensures (value / step) * step == value
  {
  }

  lemma MulAssoc(a: real, b: real, c: real)
    ensures (a * b) * c == a * (b * c)
  {
  }

  lemma DivMonotone(a: real, b: real, c: real)
    requires c > 0.0 && a <= b
    ensures a / c <= b / c
  {
  }

  lemma QuotientAtLeastOne(value: real, step: real)
    requires step > 0.0 && value >= step
    ensures value / step >= 1.0
  {
  }

  lemma {:induction false} RescaledLast(v: real, step: real, k: nat)
    ensures Rescaled(v, step, k + 1) == Rescaled(v, step, k) * step
    decreases k
  {
    if k > 0 {
      RescaledLast(v * step, step, k - 1);
    }
  }

  lemma RescaledStep(u: real, step: real, k: nat)
    ensures Rescaled(u, step, k + 1) == Rescaled(u * step, step, k)
  {
  }

  /** One more division by `step`, recorded as one more unit step, changes nothing. */
  lemma RescaledDivide(v: real, step: real, k: nat)
    requires step > 0.0
    ensures Rescaled(v / step, step, k + 1) == Rescaled(v, step, k)
  {
    var u := v / step;
    RescaledStep(u, step, k);
    MulDivCancel(step, v);
    assert u * step == v;
  }

  /** Multiplying `k` times by `step` is multiplying by step^k. */
  lemma {:induction false} RescaledIsPow(v: real, step: real, k: nat)
    ensures Rescaled(v, step, k) == v * Pow(step, k)
    decreases k
  {
    if k > 0 {
      RescaledIsPow(v * step, step, k - 1);
      MulAssoc(v, step, Pow(step, k - 1));
    }
  }

  /**
   * Auto-scaling stops at an index in idx..TopIndex, below the step unless at
   * the top unit, and never below 1 once it has divided at least once.
   */
  lemma {:induction false} AutoScaleBounds(value: real, step: real, idx: nat)
    requires step > 1.0 && idx <= TopIndex
    ensures var a := AutoScale(value, step, idx);
      && idx <= a.1 <= TopIndex
      && (a.0 < step || a.1 == TopIndex)
      && (a.1 > idx ==> a.0 >= 1.0)
    decreases TopIndex - idx
  {
    if value >= step && idx < TopIndex {
      var q := value / step;
      QuotientAtLeastOne(value, step);
      AutoScaleRecurses(value, step, idx);
      AutoScaleBounds(q, step, idx + 1);
      var a := AutoScale(q, step, idx + 1);
      assert a.1 > idx + 1 ==> a.0 >= 1.0;
      assert a.1 == idx + 1 ==> a.0 == q;
    } else {
      AutoScaleStops(value, step, idx);
    }
  }

  /** Auto-scaling loses nothing: scaled * step^(divisions made) is the starting value. */
  lemma {:induction false} AutoScaleExact(value: real, step: real, idx: nat)
    requires step > 1.0 && idx <= TopIndex
    ensures AutoScale(value, step, idx).1 >= idx
    ensures Rescaled(AutoScale(value, step, idx).0, step, AutoScale(value, step, idx).1 - idx) == value
    decreases TopIndex - idx
  {
    var r := AutoScale(value, step, idx);
    if value >= step && idx < TopIndex {
      var q := value / step;
      AutoScaleExact(q, step, idx + 1);
      assert r == AutoScale(q, step, idx + 1);
      assert Rescaled(r.0, step, r.1 - (idx + 1)) == q;
      RescaledLast(r.0, step, r.1 - (idx + 1));
      MulDivCancel(step, value);
    } else {
      assert r.1 - idx == 0;
    }
  }

  lemma AutoScaleStops(v: real, step: real, idx: nat)
    requires step > 1.0 && idx <= TopIndex && !(v >= step && idx < TopIndex)
    ensures AutoScale(v, step, idx) == (v, idx)
  {
  }

  lemma AutoScaleRecurses(v: real, step: real, idx: nat)
    requires step > 1.0 && idx < TopIndex && v >= step
    ensures AutoScale(v, step, idx) == AutoScale(v / step, step, idx + 1)
  {
  }

  /** The chosen unit index never decreases as the rate grows. */
  lemma {:induction false} AutoIndexMonotone(a: real, b: real, step: real, idx: nat)
    requires step > 1.0 && idx <= TopIndex && a <= b
    ensures AutoScale(a, step, idx).1 <= AutoScale(b, step, idx).1
    decreases TopIndex - idx
  {
    if a >= step && idx < TopIndex {
      DivMonotone(a, b, step);
      AutoIndexMonotone(a / step, b / step, step, idx + 1);
    } else {
      AutoScaleStops(a, step, idx);
      AutoScaleBounds(b, step, idx);
    }
  }

  /** Render a base-unit value in a ladder, honouring a forced unit only if the ladder has it. */
  function FormatIn(lad: Ladder, value: real, force: Option<string>): Rendered
    requires |lad.units| == TopIndex + 1 && lad.step > 1.0
  {
    if force.Some? && force.value in lad.units then
      Rendered(FmtValue(value / Pow(lad.step, IndexOf(lad.units, force.value))), force.value)
    else
      var (s, i) := AutoScale(value, lad.step, 0);
      Rendered(FmtValue(s), lad.units[i])
  }

  /** What `format_rate` returns, as a function of its arguments. */
  function FormatSpec(bytesPerSec: real, mode: string, force: Option<string>): Rendered
  {
    FormatIn(LadderFor(mode), BaseValue(bytesPerSec, mode), force)
  }

  /** Scale a bytes/s rate into the active ladder and render it. */
  method FormatRate(bytesPerSec: real, mode: string, force: Option<string>) returns (r: Rendered)
    ensures r == FormatSpec(bytesPerSec, mode, force)
  {
    var value: real;
    var units: seq<string>;
    var step: real;
    if mode == "bytes" {
      value := bytesPerSec;
      units := ByteUnits;
      step := 1024.0;
    } else {
      value := bytesPerSec * 8.0;
      units := BitUnits;
      step := 1000.0;
    }
    assert Ladder(units, step) == LadderFor(mode) && value == BaseValue(bytesPerSec, mode);

    if force.Some? && force.value in units {
      var idx := IndexOf(units, force.value);
      var scaled := value / Pow(step, idx);
      return Rendered(FmtValue(scaled), force.value);
    }

    var scaled, idx := ScaleDown(value, step);
    r := Rendered(FmtValue(scaled), units[idx]);
  }

  /**
   * The `while` loop of `format_rate`: divide by `step` while the value is at
   * least `step` and a larger unit remains.
   */
  method ScaleDown(value: real, step: real) returns (scaled: real, idx: nat)
    requires step > 1.0
    ensures (scaled, idx) == AutoScale(value, step, 0)
    ensures Rescaled(scaled, step, idx) == value
  {
    scaled, idx := value, 0;
    while scaled >= step && idx < TopIndex
      invariant idx <= TopIndex
      invariant AutoScale(scaled, step, idx) == AutoScale(value, step, 0)
      invariant Rescaled(scaled, step, idx) == value
      decreases TopIndex - idx
    {
      AutoScaleRecurses(scaled, step, idx);
      RescaledDivide(scaled, step, idx);
      scaled := scaled / step;
      idx := idx + 1;
    }
    AutoScaleStops(scaled, step, idx);
  }

  /**
   * Without a usable forced unit, the unit comes from the active ladder, the
   * numeral is the exact scaled value (scaled * step^idx, see RescaledIsPow,
   * is the rate in the ladder's base unit), below the step except at the top unit, and at least 1
   * whenever a unit above the base was chosen.
   */
  lemma AutoFormatBounds(bytesPerSec: real, mode: string, force: Option<string>)
    requires force.None? || force.value !in LadderFor(mode).units
    ensures var lad := LadderFor(mode);
      var a := AutoScale(BaseValue(bytesPerSec, mode), lad.step, 0);
      var r := FormatSpec(bytesPerSec, mode, force);
      && a.1 <= TopIndex
      && r.unit == lad.units[a.1]
      && r.numeral == FmtValue(a.0)
      && Rescaled(a.0, lad.step, a.1) == BaseValue(bytesPerSec, mode)
      && (a.0 < lad.step || a.1 == TopIndex)
      && (a.1 > 0 ==> a.0 >= 1.0)
  {
    AutoInLadder(LadderFor(mode), BaseValue(bytesPerSec, mode), force);
  }

  lemma AutoInLadder(lad: Ladder, value: real, force: Option<string>)
    requires |lad.units| == TopIndex + 1 && lad.step > 1.0
    requires force.None? || force.value !in lad.units
    ensures var a := AutoScale(value, lad.step, 0);
      var r := FormatIn(lad, value, force);
      && a.1 <= TopIndex
      && r.unit == lad.units[a.1]
      && r.numeral == FmtValue(a.0)
      && Rescaled(a.0, lad.step, a.1) == value
      && (a.0 < lad.step || a.1 == TopIndex)
      && (a.1 > 0 ==> a.0 >= 1.0)
  {
    var a := AutoScale(value, lad.step, 0);
    AutoScaleBounds(value, lad.step, 0);
    AutoScaleExact(value, lad.step, 0);
  }

  /** A forced unit of the active ladder is used as-is, whatever the magnitude. */
  lemma ForcedUnitHonoured(bytesPerSec: real, mode: string, u: string)
    requires u in LadderFor(mode).units
    ensures var lad := LadderFor(mode);
      var r := FormatSpec(bytesPerSec, mode, Some(u));
      r.unit == u && r.numeral == FmtValue(BaseValue(bytesPerSec, mode) / Pow(lad.step, IndexOf(lad.units, u)))
  {
  }

  /** A forced unit from the other ladder is ignored: the rate is auto-scaled. */
  lemma ForeignForcedUnitIgnored(bytesPerSec: real)
    ensures FormatSpec(bytesPerSec, "bits", Some("MB/s")) == FormatSpec(bytesPerSec, "bits", None)
    ensures FormatSpec(bytesPerSec, "bytes", Some("Mbps")) == FormatSpec(bytesPerSec, "bytes", None)
  {
    assert "MB/s" !in BitUnits by {
      assert forall k :: 0 <= k < |BitUnits| ==> |BitUnits[k]| != 4 || BitUnits[k][0] != 'M' || BitUnits[k][1] != 'B';
    }
    assert "Mbps" !in ByteUnits by {
      assert forall k :: 0 <= k < |ByteUnits| ==> BitUnits[k] != ByteUnits[k];
    }
  }

  /** Dividing by a positive number keeps the sign. */
  lemma QuotientSign(a: real, d: real)
    requires d > 0.0
    ensures a / d < 0.0 <==> a < 0.0
    ensures a / d == 0.0 <==> a == 0.0
  {
  }

  lemma NonPositiveInLadder(lad: Ladder, value: real, force: Option<string>)
    requires |lad.units| == TopIndex + 1 && lad.step > 1.0 && value <= 0.0
    ensures FormatIn(lad, value, force).numeral == Zero
    ensures force.None? ==> FormatIn(lad, value, force).unit == lad.units[0]
  {
    if force.Some? && force.value in lad.units {
      QuotientSign(value, Pow(lad.step, IndexOf(lad.units, force.value)));
    } else {
      AutoScaleStops(value, lad.step, 0);
    }
  }

  /** A zero or negative rate renders as "0", in the base unit when no unit is forced. */
  lemma NonPositiveRendersZero(bytesPerSec: real, mode: string, force: Option<string>)
    requires bytesPerSec <= 0.0
    ensures FormatSpec(bytesPerSec, mode, force).numeral == Zero
    ensures force.None? ==> FormatSpec(bytesPerSec, mode, force).unit == LadderFor(mode).units[0]
  {
    NonPositiveInLadder(LadderFor(mode), BaseValue(bytesPerSec, mode), force);
  }

  /** 1,000,000 bytes/s in bits mode is shown as 8 Mbps with two decimals. */
  lemma MegabitExample()
    ensures FormatSpec(1000000.0, "bits", None) == Rendered(Fixed(8.0, 2), "Mbps")
  {
    assert BaseValue(1000000.0, "bits") == 8000000.0;
    AutoScaleRecurses(8000000.0, 1000.0, 0);
    AutoScaleRecurses(8000.0, 1000.0, 1);
    AutoScaleStops(8.0, 1000.0, 2);
  }

  /** The mode flip of `toggle_units`: "bits" becomes "bytes", anything else "bits". */
  function ToggledMode(mode: string): (r: string)
    ensures r == "bytes" <==> mode == "bits"
    ensures r == "bits" || r == "bytes"
  {
    if mode == "bits" then "bytes" else "bits"
  }

  /** Two toggles restore a valid mode, and each toggle switches the ladder. */
  lemma ToggleTwice(mode: string)
    requires mode == "bits" || mode == "bytes"
    ensures ToggledMode(ToggledMode(mode)) == mode
    ensures LadderFor(ToggledMode(mode)) != LadderFor(mode)
  {
  }

  /** The module-global UNITS_MODE / FORCE_UNIT pair. */
  class UnitConfig {
    var mode: string
    var force: Option<string>

    constructor ()
      ensures mode == "bits" && force == None
    {
      mode := "bits";
      force := None;
    }

    method Toggle()
      modifies this
      ensures mode == ToggledMode(old(mode)) && force == old(force)
    {
      mode := if mode == "bits" then "bytes" else "bits";
    }
  }
}

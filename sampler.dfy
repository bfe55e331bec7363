/**
 * Rate sampling of `App.refresh`: cumulative byte counters are turned into
 * per-second rates against the previous snapshot, which every tick replaces.
 */
module Sampler {
  import opened Common
  import opened Units
  import opened Colors

  /** Cumulative bytes sent and received, and the wall-clock time they were read at (seconds). */
  datatype Snapshot = Snapshot(sent: int, recv: int, ts: real)

  /** Upload and download rates in bytes per second. */
  datatype RateSample = RateSample(up: real, down: real)

  /** What one tick puts on the two labels: rendered text and colour string per direction. */
  datatype Readout = Readout(up: Rendered, upColor: string, down: Rendered, downColor: string)

  /** The smallest interval used, so a repeated or backwards clock never divides by zero. */
  const MinDt: real := 0.000001

  /** `max(1e-6, now - prev.ts)`. */
  function Dt(prevTs: real, now: real): (d: real)
    ensures d >= MinDt && d >= now - prevTs
    ensures d == MinDt || d == now - prevTs
  {
    if MinDt >= now - prevTs then MinDt else now - prevTs
  }

  /** Counter deltas over the clamped interval; a falling counter gives a negative rate. */
  function Sample(prev: Snapshot, cur: Snapshot): (r: RateSample)
    ensures r.up * Dt(prev.ts, cur.ts) == (cur.sent - prev.sent) as real
    ensures r.down * Dt(prev.ts, cur.ts) == (cur.recv - prev.recv) as real
  {
    var dt := Dt(prev.ts, cur.ts);
    MulDivCancel(dt, (cur.sent - prev.sent) as real);
    MulDivCancel(dt, (cur.recv - prev.recv) as real);
    RateSample((cur.sent - prev.sent) as real / dt, (cur.recv - prev.recv) as real / dt)
  }

  /**
   * Negative deltas are not clamped: each rate has the sign of its counter
   * delta, and a rate that is not positive is rendered as "0".
   */
  lemma RateSignFollowsDelta(prev: Snapshot, cur: Snapshot, mode: string)
    ensures Sample(prev, cur).up < 0.0 <==> cur.sent < prev.sent
    ensures Sample(prev, cur).down < 0.0 <==> cur.recv < prev.recv
    ensures cur.sent <= prev.sent ==> FormatSpec(Sample(prev, cur).up, mode, None) == Rendered(Zero, LadderFor(mode).units[0])
    ensures cur.recv <= prev.recv ==> FormatSpec(Sample(prev, cur).down, mode, None) == Rendered(Zero, LadderFor(mode).units[0])
  {
    var dt := Dt(prev.ts, cur.ts);
    var r := Sample(prev, cur);
    QuotientSign((cur.sent - prev.sent) as real, dt);
    QuotientSign((cur.recv - prev.recv) as real, dt);
    if cur.sent <= prev.sent {
      NonPositiveRendersZero(r.up, mode, None);
    }
    if cur.recv <= prev.recv {
      NonPositiveRendersZero(r.down, mode, None);
    }
  }

  /** Text and colour for a pair of rates; the colour never depends on the unit mode. */
  function ReadoutOf(rates: RateSample, mode: string, force: Option<string>): Readout
  {
    Readout(FormatSpec(rates.up, mode, force), Hex(ColorForMbps(MbpsOf(rates.up))),
            FormatSpec(rates.down, mode, force), Hex(ColorForMbps(MbpsOf(rates.down))))
  }

  /**
   * Counters (sent=1000, recv=2000) at t=0 then (2000, 2500) at t=1 give 1000 and
   * 500 bytes/s, shown in bits mode as 8.00 Kbps and 4.00 Kbps, both green.
   */
  lemma OneSecondScenario()
    ensures Sample(Snapshot(1000, 2000, 0.0), Snapshot(2000, 2500, 1.0)) == RateSample(1000.0, 500.0)
    ensures ReadoutOf(RateSample(1000.0, 500.0), "bits", None)
         == Readout(Rendered(Fixed(8.0, 2), "Kbps"), "#46BE5A", Rendered(Fixed(4.0, 2), "Kbps"), "#46BE5A")
  {
    assert Dt(0.0, 1.0) == 1.0;
    AutoScaleRecurses(8000.0, 1000.0, 0);
    AutoScaleStops(8.0, 1000.0, 1);
    AutoScaleRecurses(4000.0, 1000.0, 0);
    AutoScaleStops(4.0, 1000.0, 1);
  }

  /** The `self.prev` baseline of the application object. */
  class RateSampler {
    var prev: Option<Snapshot>

    constructor ()
      ensures prev == None
    {
      prev := None;
    }

    /**
     * One tick with the counters and clock read for it. The first tick only
     * records the baseline; every later tick reports rates against the
     * previous baseline. Either way the baseline becomes this tick's snapshot.
     */
    method Refresh(sent: int, recv: int, now: real, mode: string, force: Option<string>) returns (out: Option<Readout>)
      modifies this
      ensures prev == Some(Snapshot(sent, recv, now))
      ensures old(prev).None? ==> out == None
      ensures old(prev).Some? ==> out == Some(ReadoutOf(Sample(old(prev).value, Snapshot(sent, recv, now)), mode, force))
    {
      if prev.None? {
        prev := Some(Snapshot(sent, recv, now));
        return None;
      }
      var dt := if MinDt >= now - prev.value.ts then MinDt else now - prev.value.ts;
      var upBps := (sent - prev.value.sent) as real / dt;
      var dnBps := (recv - prev.value.recv) as real / dt;
      assert dt == Dt(prev.value.ts, now);
      assert RateSample(upBps, dnBps) == Sample(prev.value, Snapshot(sent, recv, now));

      var upMbps := (upBps * 8.0) / 1000000.0;
      var dnMbps := (dnBps * 8.0) / 1000000.0;
      assert upMbps == MbpsOf(upBps) && dnMbps == MbpsOf(dnBps);

      var upTxt := FormatRate(upBps, mode, force);
      var dnTxt := FormatRate(dnBps, mode, force);

      out := Some(Readout(upTxt, Hex(ColorForMbps(upMbps)), dnTxt, Hex(ColorForMbps(dnMbps))));
      prev := Some(Snapshot(sent, recv, now));
    }
  }
}

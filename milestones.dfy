/** Milestone arithmetic: the next round-number goal above a stream count,
    the gap to it, and the time to reach it at a daily rate. Albums are
    projected to the next billion (`calculate_milestone_projection_1B`),
    songs to the next hundred million (`format_milestone_prediction`). */
module Milestones {
  import opened Wrappers
  import opened PyText
  import opened Cells

  const Billion: int := 1_000_000_000
  const HundredMillion: int := 100_000_000

  /** `((total // step) + 1) * step`. Python's `//` floors; for a positive
      step Dafny's `/` does the same. The result is the least multiple of
      `step` above `total`, at most one step away. */
  function NextMilestone(total: int, step: int): (m: int)
    requires step > 0
    ensures m % step == 0
    ensures total < m <= total + step
    ensures m == total + step <==> total % step == 0
  {
    var q := total / step;
    MultipleStep(q, step);
    (q + 1) * step
  }

  lemma MultipleStep(q: int, step: int)
    requires step > 0
    ensures (q + 1) * step == q * step + step
    ensures ((q + 1) * step) % step == 0
  {
    assert (q + 1) * step == q * step + step;
    MultipleMod(q + 1, step);
  }

  lemma MultipleMod(k: int, step: int)
    requires step > 0
    ensures (k * step) % step == 0 && (k * step) / step == k
  {
    var q, r := (k * step) / step, (k * step) % step;
    assert k * step == q * step + r && 0 <= r < step;
    assert (q - 1) * step == q * step - step && (q + 1) * step == q * step + step;
    MonotoneProduct(k, q - 1, step);
    MonotoneProduct(q + 1, k, step);
    assert k == q;
  }

  /** No multiple of the step lies strictly between the total and the next
      milestone. */
  lemma NextMilestoneLeast(total: int, step: int, other: int)
    requires step > 0 && other % step == 0 && other > total
    ensures NextMilestone(total, step) <= other
  {
    var q, k := total / step, other / step;
    assert other == k * step;
    assert q * step <= total;
    MonotoneProduct(k, q, step);
    assert q + 1 <= k;
    MonotoneProduct(q + 1, k, step);
  }

  lemma MonotoneProduct(a: int, b: int, step: int)
    requires step > 0
    ensures a <= b ==> a * step <= b * step
  {
  }

  /** The distance from the total to its next milestone: between 1 and one
      full step. */
  function Remaining(total: int, step: int): (r: int)
    requires step > 0
    ensures 1 <= r <= step
    ensures (total + r) % step == 0
  {
    NextMilestone(total, step) - total
  }

  /** When the milestone is reached: never at a rate that is not positive
      (`days = inf`, date "Unknown"), else after `days` days. */
  datatype Eta = Never | InDays(days: real)

  /** The dictionary `calculate_milestone_projection_1B` returns, less the
      calendar date. */
  datatype Projection = Projection(milestone: int, remaining: int, eta: Eta)

  /** `calculate_milestone_projection_1B(current_total, avg_daily)`. */
  function MilestoneProjection1B(total: int, avgDaily: real): (r: Option<Projection>)
    ensures r.None? <==> total <= 0
    ensures r.Some? ==> r.value.milestone % Billion == 0
    ensures r.Some? ==> r.value.milestone == total + r.value.remaining
    ensures r.Some? ==> 1 <= r.value.remaining <= Billion
    ensures r.Some? ==> (r.value.eta.Never? <==> avgDaily <= 0.0)
    ensures r.Some? && r.value.eta.InDays? ==>
              r.value.eta.days > 0.0 && r.value.eta.days * avgDaily == r.value.remaining as real
  {
    if total <= 0 then None
    else
      var milestone := NextMilestone(total, Billion);
      var remaining := milestone - total;
      if avgDaily <= 0.0 then Some(Projection(milestone, remaining, Never))
      else Some(Projection(milestone, remaining, InDays(remaining as real / avgDaily)))
  }

  /** An album already on a billion boundary is projected to the next one. */
  lemma ProjectionOnBoundary(k: int, avgDaily: real)
    requires k >= 1
    ensures var r := MilestoneProjection1B(k * Billion, avgDaily);
            r.Some? && r.value.milestone == (k + 1) * Billion && r.value.remaining == Billion
  {
    MultipleMod(k, Billion);
  }

  /** 700,000,000 streams at 10,000,000 a day: 300,000,000 to go, 30 days. */
  lemma ProjectionExample()
    ensures MilestoneProjection1B(700_000_000, 10_000_000.0)
            == Some(Projection(1_000_000_000, 300_000_000, InDays(30.0)))
  {
  }

  /** The whole days `int(gap / speed)` a positive rate needs for the gap. */
  function WholeDays(gap: nat, speed: real): (d: nat)
    requires speed > 0.0
    ensures (d as real) * speed <= gap as real < (d as real) * speed + speed
  {
    var days := gap as real / speed;
    assert days >= 0.0;
    DivisionBounds(gap as real, speed, days.Floor);
    days.Floor
  }

  lemma DivisionBounds(x: real, y: real, f: int)
    requires y > 0.0 && x >= 0.0 && f as real <= x / y < f as real + 1.0
    ensures f >= 0 && (f as real) * y <= x < (f as real) * y + y
  {
    var z, lo, hi := x / y, f as real, f as real + 1.0;
    assert z * y == x;
    RealMonotone(z, 0.0, y);
    RealMonotone(lo, z, y);
    RealMonotone(z, hi, y);
    calc {
      x;
    ==
      z * y;
    <
      hi * y;
    ==
      lo * y + y;
    }
  }

  lemma RealMonotone(a: real, b: real, y: real)
    requires y > 0.0
    ensures a <= b ==> a * y <= b * y
    ensures a < b ==> a * y < b * y
  {
  }

  /** The next-milestone label of a song (`format_milestone_prediction`):
      the gap to the next hundred million in `f"{gap:,}"` form, followed by
      the whole days needed when the rate is positive and the goal is less
      than 3650 days away. A rate that is `None` stands for NaN. */
  function MilestoneLabel(streams: int, speed: Option<real>): (r: string)
    ensures FormatThousands(Remaining(streams, HundredMillion)) <= r
  {
    var gap := Remaining(streams, HundredMillion);
    var goal := FormatThousands(gap);
    if speed.Some? && speed.value > 0.0 && (gap as real) / speed.value < 3650.0 then
      goal + " (Need " + NatToString(WholeDays(gap, speed.value)) + " Days)"
    else goal
  }

  /** Which of the two forms the label takes. */
  lemma MilestoneLabelForms(streams: int, speed: Option<real>)
    ensures var gap := Remaining(streams, HundredMillion);
            var text := MilestoneLabel(streams, speed);
      && 1 <= gap <= HundredMillion
      && (speed.Some? && speed.value > 0.0 && (gap as real) / speed.value < 3650.0
          ==> WholeDays(gap, speed.value) < 3650
              && text == FormatThousands(gap) + " (Need " + NatToString(WholeDays(gap, speed.value)) + " Days)")
      && (!(speed.Some? && speed.value > 0.0) ==> text == FormatThousands(gap))
      && (speed.Some? && speed.value > 0.0 && (gap as real) / speed.value >= 3650.0
          ==> text == FormatThousands(gap))
  {
    var gap := Remaining(streams, HundredMillion);
    if speed.Some? && speed.value > 0.0 && (gap as real) / speed.value < 3650.0 {
      var v := speed.value;
      var d := WholeDays(gap, v);
      assert (d as real) <= (gap as real) / v by {
        assert (d as real) * v <= gap as real;
        DivideBoth(d as real, gap as real, v);
      }
    }
  }

  lemma DivideBoth(a: real, b: real, v: real)
    requires v > 0.0 && a * v <= b
    ensures a <= b / v
  {
    assert (b / v) * v == b;
  }

  /** A label without a day count reads back, through `clean_number`, as
      the number of streams still missing. */
  lemma MilestoneLabelReadsBack(streams: int, speed: Option<real>)
    requires speed.None? || speed.value <= 0.0
    ensures CleanNumber(Str(MilestoneLabel(streams, speed))) == Remaining(streams, HundredMillion)
  {
    CleanNumberOfGrouped(Remaining(streams, HundredMillion));
  }
}

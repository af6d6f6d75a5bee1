/**
 * The sentiment donut of the trend section: `setDonutByCounts` (apps/service/static/main.js),
 * which splits the period's positive, neutral and negative article counts into percentages,
 * and `renderDonut` (apps/service/static/main_b.js), which shows a fixed sample split per
 * keyword. Percentages are computed in exact arithmetic.
 */
module SentimentDonut {
  import AdminRerun
  import Arith

  /** What the donut shows: nothing (an empty grey ring), or three percentages. */
  datatype Donut = NoData | Shares(pos: int, neu: int, neg: int)

  function Max0(x: int): int { if x < 0 then 0 else x }

  /**
   * `setDonutByCounts`: no data when the total is not positive; otherwise the positive and
   * neutral shares rounded down, and the negative share taking what is left of 100.
   */
  function DonutByCounts(pos: int, neu: int, neg: int): (r: Donut)
    ensures r.NoData? <==> pos + neu + neg <= 0
    ensures r.Shares? ==> r.neg >= 0
  {
    var total := pos + neu + neg;
    if total <= 0 then NoData
    else
      var pPos := (pos * 100) / total;
      var pNeu := (neu * 100) / total;
      Shares(pPos, pNeu, Max0(100 - pPos - pNeu))
  }

  /** `q` is `x * 100 / total` rounded down. */
  predicate FloorShare(q: int, x: int, total: int) {
    q * total <= x * 100 < q * total + total
  }

  lemma FloorShareOf(x: int, total: int)
    requires total > 0
    ensures FloorShare((x * 100) / total, x, total)
  {
  }

  /**
   * For counts that are not negative and not all zero, the three shares add up to 100: the
   * positive and neutral shares are their exact shares rounded down, and the negative share is
   * at least its exact share and less than two points above it.
   */
  lemma DonutSumsTo100(pos: nat, neu: nat, neg: nat)
    requires pos + neu + neg > 0
    ensures var r := DonutByCounts(pos, neu, neg);
      r.Shares? && r.pos + r.neu + r.neg == 100
      && 0 <= r.pos && 0 <= r.neu && 0 <= r.neg
      && FloorShare(r.pos, pos, pos + neu + neg) && FloorShare(r.neu, neu, pos + neu + neg)
      && neg * 100 <= r.neg * (pos + neu + neg) < neg * 100 + 2 * (pos + neu + neg)
  {
    var total := pos + neu + neg;
    FloorShareOf(pos, total);
    FloorShareOf(neu, total);
    ShareBounds((pos * 100) / total, (neu * 100) / total, pos, neu, neg);
  }

  /** Two shares rounded down leave between the third's exact share and two points more. */
  lemma ShareBounds(q1: int, q2: int, a: nat, b: nat, c: nat)
    requires a + b + c > 0
    requires FloorShare(q1, a, a + b + c) && FloorShare(q2, b, a + b + c)
    ensures 0 <= q1 && 0 <= q2 && q1 + q2 <= 100
    ensures c * 100 <= (100 - q1 - q2) * (a + b + c) < c * 100 + 2 * (a + b + c)
  {
    var t := a + b + c;
    if q1 < 0 {
      Arith.MulMono(q1, -1, t);
    }
    if q2 < 0 {
      Arith.MulMono(q2, -1, t);
    }
    assert (q1 + q2) * t == q1 * t + q2 * t;
    if q1 + q2 > 100 {
      Arith.MulMono(101, q1 + q2, t);
    }
    assert (100 - q1 - q2) * t == 100 * t - q1 * t - q2 * t;
  }

  // ---------------------------------------------------------------------------------------
  // The sample split

  /** The sample split for the three sample keywords, 주식 for any other. */
  function SampleSent(keyword: string): (r: (nat, nat, nat))
    ensures r.0 + r.1 + r.2 == 100
  {
    if keyword == "부동산" then (35, 40, 25)
    else if keyword == "고용" then (45, 35, 20)
    else (40, 30, 30)
  }

  /**
   * `renderDonut`: the sample's positive and neutral shares rounded half up, and the negative
   * share taking what is left of 100.
   */
  function RenderDonut(keyword: string): Donut {
    var (pos, neu, neg) := SampleSent(keyword);
    var total := if pos + neu + neg != 0 then pos + neu + neg else 1;
    var p1 := AdminRerun.RoundPct(pos, total);
    var p2 := AdminRerun.RoundPct(neu, total);
    Shares(p1, p2, Max0(100 - p1 - p2))
  }

  /** A count out of 100 is its own percentage. */
  lemma RoundPctOf100(x: nat)
    ensures AdminRerun.RoundPct(x, 100) == x
  {
    Arith.DivExact(200 * x + 100, 200, x);
  }

  /**
   * Every keyword's donut shows its sample split exactly, so the shares add up to 100; a
   * keyword without a sample shows the 주식 split.
   */
  lemma RenderDonutShowsSample(keyword: string)
    ensures var (pos, neu, neg) := SampleSent(keyword);
      RenderDonut(keyword) == Shares(pos, neu, neg)
    ensures keyword != "부동산" && keyword != "고용" ==> RenderDonut(keyword) == RenderDonut("주식")
  {
    var (pos, neu, neg) := SampleSent(keyword);
    RoundPctOf100(pos);
    RoundPctOf100(neu);
  }
}

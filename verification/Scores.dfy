/**
 Election scores: the threshold comparison of the election library, the submission
 strategies built on it, and the two gates a mined solution passes before registration.
 */
module Scores {
  import opened Common

  type Balance = x: int | 0 <= x <= U128_MAX

  /** Parts per billion. */
  type Perbill = p: int | 0 <= p <= 1_000_000_000

  /** Higher `minimalStake`, then higher `sumStake`, then lower `sumStakeSquared` is better. */
  datatype Score = Score(minimalStake: Balance, sumStake: Balance, sumStakeSquared: Balance)

  datatype Strategy =
    | Always
    | IfLeading
    | ClaimNoWorseThan(epsilon: Perbill)
    | ClaimBetterThan(epsilon: Perbill)

  datatype Ordering = Less | Equal | Greater

  /** `Perbill * x`, rounded up. */
  function MulCeil(p: Perbill, x: Balance): (r: int)
    ensures 0 <= r
    ensures p == 0 ==> r == 0
  {
    (p * x + 999_999_999) / 1_000_000_000
  }

  function Compare(a: int, b: int): Ordering {
    if a < b then Less else if a == b then Equal else Greater
  }

  /** Three-way comparison that treats values within `threshold` of `b` as equal (saturating u128). */
  function ThresholdCompare(a: Balance, b: Balance, threshold: nat): Ordering {
    if threshold == 0 then Compare(a, b) else
      var upper := if b + threshold > U128_MAX then U128_MAX else b + threshold;
      var lower := if b < threshold then 0 else b - threshold;
      if upper <= lower then Compare(a, b)
      else if a > upper then Greater
      else if a < lower then Less
      else Equal
  }

  predicate StrictThresholdBetter(a: Score, b: Score, epsilon: Perbill) {
    var minimal := ThresholdCompare(a.minimalStake, b.minimalStake, MulCeil(epsilon, b.minimalStake));
    var sum := ThresholdCompare(a.sumStake, b.sumStake, MulCeil(epsilon, b.sumStake));
    var squared := ThresholdCompare(a.sumStakeSquared, b.sumStakeSquared, MulCeil(epsilon, b.sumStakeSquared));
    || minimal == Greater
    || (a.minimalStake >= b.minimalStake && minimal == Equal && sum == Greater)
    || (a.minimalStake >= b.minimalStake && minimal == Equal
        && a.sumStake >= b.sumStake && sum == Equal && squared == Less)
  }

  predicate PassesStrategy(ours: Score, other: Score, strategy: Strategy) {
    match strategy
    case Always => true
    case IfLeading => StrictThresholdBetter(ours, other, 0)
    case ClaimBetterThan(epsilon) => StrictThresholdBetter(ours, other, epsilon)
    case ClaimNoWorseThan(epsilon) => !StrictThresholdBetter(other, ours, epsilon)
  }

  predicate MeetsMinimum(score: Score, minimum: Option<Score>) {
    minimum.None? || StrictThresholdBetter(score, minimum.value, 0)
  }

  /** The list gate of the competitiveness check: no registered score may fail the strategy. */
  predicate PassesAll(ours: Score, scores: seq<Score>, strategy: Strategy) {
    forall i :: 0 <= i < |scores| ==> PassesStrategy(ours, scores[i], strategy)
  }

  /** Reference order: plain lexicographic comparison, with the third axis reversed. */
  predicate Beats(a: Score, b: Score) {
    || a.minimalStake > b.minimalStake
    || (a.minimalStake == b.minimalStake
        && (|| a.sumStake > b.sumStake
            || (a.sumStake == b.sumStake && a.sumStakeSquared < b.sumStakeSquared)))
  }

  /** With a zero threshold the library comparison is the lexicographic order, a strict total one. */
  lemma {:induction false} StrictBetterIsLexicographic(a: Score, b: Score, c: Score)
    ensures StrictThresholdBetter(a, b, 0) <==> Beats(a, b)
    ensures !Beats(a, a)
    ensures Beats(a, b) && Beats(b, c) ==> Beats(a, c)
    ensures a == b || Beats(a, b) || Beats(b, a)
  {
  }

  lemma {:induction false} MulCeilMonotone(p: Perbill, q: Perbill, x: Balance)
    requires p <= q
    ensures MulCeil(p, x) <= MulCeil(q, x)
  {
    assert p * x <= q * x;
  }

  /** The margin is the least integer not below the exact product. */
  lemma {:induction false} MulCeilIsCeiling(p: Perbill, x: Balance)
    ensures MulCeil(p, x) * 1_000_000_000 >= p * x > (MulCeil(p, x) - 1) * 1_000_000_000
  {
    var n := p * x + 999_999_999;
    assert n == MulCeil(p, x) * 1_000_000_000 + n % 1_000_000_000;
  }

  /**
   Better by a margin: by more than the margin in the minimal stake; or at least as good in it and
   by more than the margin in the sum; or at least as good in both and lower by more than the
   margin in the sum of squares. The margins are taken of the other score, and saturation of the
   bounds makes no difference.
   */
  lemma {:induction false} MarginsMean(a: Score, b: Score, e: Perbill)
    ensures StrictThresholdBetter(a, b, e) <==>
      || a.minimalStake > b.minimalStake + MulCeil(e, b.minimalStake)
      || (a.minimalStake >= b.minimalStake && a.sumStake > b.sumStake + MulCeil(e, b.sumStake))
      || (a.minimalStake >= b.minimalStake && a.sumStake >= b.sumStake
          && a.sumStakeSquared < b.sumStakeSquared - MulCeil(e, b.sumStakeSquared))
  {
    Compares(a.minimalStake, b.minimalStake, e);
    Compares(a.sumStake, b.sumStake, e);
    Compares(a.sumStakeSquared, b.sumStakeSquared, e);
  }

  lemma {:induction false} Compares(x: Balance, y: Balance, e: Perbill)
    ensures var t := MulCeil(e, y);
            ThresholdCompare(x, y, t) == if x > y + t then Greater else if x < y - t then Less else Equal
  {
    if y == 0 {
      assert MulCeil(e, y) == 0;
    }
  }

  /** Two percent of a hundred is two: 103 is better by it and 102 is not, 98 is no worse and 97 is. */
  lemma {:induction false} TwoPercent(x: Balance)
    ensures var two, s, hundred := 20_000_000, Score(x, 0, 0), Score(100, 0, 0);
            && (PassesStrategy(s, hundred, ClaimBetterThan(two)) <==> x >= 103)
            && (PassesStrategy(s, hundred, ClaimNoWorseThan(two)) <==> x >= 98)
  {
    assert MulCeil(20_000_000, 100) == 2;
    MarginsMean(Score(x, 0, 0), Score(100, 0, 0), 20_000_000);
    MarginsMean(Score(100, 0, 0), Score(x, 0, 0), 20_000_000);
    MulCeilIsCeiling(20_000_000, x);
  }

  /** A demand by a larger margin implies the demand by a smaller one. */
  lemma {:induction false} BetterIsAntitone(a: Score, b: Score, d: Perbill, e: Perbill)
    requires d <= e
    ensures StrictThresholdBetter(a, b, e) ==> StrictThresholdBetter(a, b, d)
  {
    MulCeilMonotone(d, e, b.minimalStake);
    MulCeilMonotone(d, e, b.sumStake);
    MulCeilMonotone(d, e, b.sumStakeSquared);
  }

  /**
   The strategies form one chain, from the strictest margin down to no demand at all:
   better by e, better by d, leading, no worse than d, no worse than e, always (d <= e).
   */
  lemma {:induction false} StrategiesNest(ours: Score, other: Score, d: Perbill, e: Perbill)
    requires d <= e
    ensures PassesStrategy(ours, other, ClaimBetterThan(e)) ==> PassesStrategy(ours, other, ClaimBetterThan(d))
    ensures PassesStrategy(ours, other, ClaimBetterThan(d)) ==> PassesStrategy(ours, other, IfLeading)
    ensures PassesStrategy(ours, other, IfLeading) ==> PassesStrategy(ours, other, ClaimNoWorseThan(d))
    ensures PassesStrategy(ours, other, ClaimNoWorseThan(d)) ==> PassesStrategy(ours, other, ClaimNoWorseThan(e))
    ensures PassesStrategy(ours, other, ClaimNoWorseThan(e)) ==> PassesStrategy(ours, other, Always)
  {
    BetterIsAntitone(ours, other, d, e);
    BetterIsAntitone(ours, other, 0, d);
    BetterIsAntitone(other, ours, d, e);
    BetterIsAntitone(other, ours, 0, d);
    StrictBetterIsLexicographic(ours, other, ours);
    StrictBetterIsLexicographic(other, ours, other);
  }

  /** The best of the floor and the registered scores, if there is any at all. */
  function Best(floor: Option<Score>, scores: seq<Score>): (best: Option<Score>)
    ensures best.None? <==> floor.None? && scores == []
    ensures best.Some? ==> best == floor || best.value in scores
    decreases |scores|
  {
    if scores == [] then floor else
      var rest := Best(floor, scores[..|scores| - 1]);
      var last := scores[|scores| - 1];
      if rest.Some? && Beats(rest.value, last) then rest else Some(last)
  }

  /**
   Under `IfLeading` the floor gate followed by the list gate is one comparison: beat the best
   of floor and list in the lexicographic order.
   */
  lemma {:induction false} LeadingGatesAreOneComparison(score: Score, floor: Option<Score>, scores: seq<Score>)
    ensures MeetsMinimum(score, floor) && PassesAll(score, scores, IfLeading)
       <==> (Best(floor, scores).None? || Beats(score, Best(floor, scores).value))
    decreases |scores|
  {
    if scores == [] {
      if floor.Some? {
        StrictBetterIsLexicographic(score, floor.value, score);
      }
    } else {
      var init, last := scores[..|scores| - 1], scores[|scores| - 1];
      LeadingGatesAreOneComparison(score, floor, init);
      StrictBetterIsLexicographic(score, last, score);
      assert scores == init + [last];
      assert PassesAll(score, scores, IfLeading)
        <==> PassesAll(score, init, IfLeading) && PassesStrategy(score, last, IfLeading);
      var rest := Best(floor, init);
      if rest.Some? {
        StrictBetterIsLexicographic(score, rest.value, last);
        StrictBetterIsLexicographic(score, last, rest.value);
        StrictBetterIsLexicographic(rest.value, last, score);
      }
    }
  }

  /** Passing against the leading score settles the list gate for every score behind it. */
  ghost predicate LeaderDecides(strategy: Strategy) {
    forall ours: Score, leader: Score, trailer: Score ::
      Beats(leader, trailer) && PassesStrategy(ours, leader, strategy) ==> PassesStrategy(ours, trailer, strategy)
  }

  /**
   Comparing with the leader alone would do without a margin, and never with one: for every
   positive epsilon some score passes against the leader and fails against a score behind it.
   This is why the gate has to visit the whole list.
   */
  lemma {:induction false} LeaderDecidesOnlyWithoutMargin(e: Perbill)
    ensures LeaderDecides(IfLeading)
    ensures LeaderDecides(ClaimBetterThan(e)) <==> e == 0
    ensures LeaderDecides(ClaimNoWorseThan(e)) <==> e == 0
  {
    forall ours: Score, leader: Score, trailer: Score | Beats(leader, trailer)
      ensures PassesStrategy(ours, leader, IfLeading) ==> PassesStrategy(ours, trailer, IfLeading)
      ensures PassesStrategy(ours, leader, ClaimNoWorseThan(0)) ==> PassesStrategy(ours, trailer, ClaimNoWorseThan(0))
    {
      StrictBetterIsLexicographic(ours, leader, trailer);
      StrictBetterIsLexicographic(ours, trailer, leader);
      StrictBetterIsLexicographic(leader, trailer, ours);
      StrictBetterIsLexicographic(leader, ours, trailer);
      StrictBetterIsLexicographic(trailer, ours, leader);
    }
    assert LeaderDecides(IfLeading);
    if e > 0 {
      var leader, trailer := Score(2, 0, 0), Score(1, 1, 0);
      assert Beats(leader, trailer);
      assert PassesStrategy(Score(2, 1, 0), leader, ClaimBetterThan(e));
      assert !PassesStrategy(Score(2, 1, 0), trailer, ClaimBetterThan(e));
      assert PassesStrategy(Score(1, 0, 0), leader, ClaimNoWorseThan(e));
      assert !PassesStrategy(Score(1, 0, 0), trailer, ClaimNoWorseThan(e));
    }
  }
}

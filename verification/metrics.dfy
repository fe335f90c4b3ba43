/**
 * The `Accuracy` metric over a batch of positive and a batch of negative
 * samples. Each row of a score batch is one `fc6` output: column 0 scores
 * the background, column 1 the target.
 *
 * Scores are floats: a number or NaN, and NaN compares false with
 * everything. The comparison mask is a `uint8` tensor, and in the PyTorch
 * releases this code is written for (`Variable`, `.data[0]`) its `.sum()`
 * stays `uint8`: the count is taken modulo 256 before `.float()` sees it.
 */
module Metrics {
  /** A float score: a (finite) number or NaN. */
  datatype Float = Num(v: real) | NaN

  /** `a < b` on floats: false whenever either side is NaN. */
  predicate Less(a: Float, b: Float)
  {
    a.Num? && b.Num? && a.v < b.v
  }

  datatype Score = Score(bg: Float, fg: Float)

  /**
   * A positive sample is classified correctly when its target score is
   * strictly above its background score, a negative one when it is strictly
   * below.
   */
  predicate Correct(s: Score, positive: bool)
  {
    if positive then Less(s.bg, s.fg) else Less(s.fg, s.bg)
  }

  /** Both scores are numbers and equal. */
  predicate Tie(s: Score)
  {
    s.bg.Num? && s.fg.Num? && s.bg.v == s.fg.v
  }

  /** One of the scores is NaN, so the row compares neither way. */
  predicate Unordered(s: Score)
  {
    s.bg.NaN? || s.fg.NaN?
  }

  /** The number of rows of the comparison mask that are set, as an unbounded integer. */
  function HitCount(rows: seq<Score>, positive: bool): (n: nat)
    ensures n <= |rows|
  {
    if |rows| == 0 then 0
    else HitCount(rows[..|rows| - 1], positive) + (if Correct(rows[|rows| - 1], positive) then 1 else 0)
  }

  /** The number of values a `uint8` holds. */
  const ByteRange: nat := 256

  /**
   * `(score[:,1] > score[:,0]).sum()` (positives) or
   * `(score[:,1] < score[:,0]).sum()` (negatives): the mask summed in `uint8`.
   */
  function ByteSum(rows: seq<Score>, positive: bool): (n: nat)
    ensures n < ByteRange && n <= |rows|
  {
    HitCount(rows, positive) % ByteRange
  }

  /** The indices of the correctly classified rows. */
  ghost function Hits(rows: seq<Score>, positive: bool): set<nat>
  {
    set i: nat | i < |rows| && Correct(rows[i], positive)
  }

  /** The indices of the rows whose two scores are equal numbers. */
  ghost function Ties(rows: seq<Score>): set<nat>
  {
    set i: nat | i < |rows| && Tie(rows[i])
  }

  /** The indices of the rows with a NaN score. */
  ghost function NaNs(rows: seq<Score>): set<nat>
  {
    set i: nat | i < |rows| && Unordered(rows[i])
  }

  /**
   * The mask has a set entry for each row that compares the right way; the
   * `uint8` sum is that number modulo 256.
   */
  lemma {:induction false} CountIsHits(rows: seq<Score>, positive: bool)
    ensures HitCount(rows, positive) == |Hits(rows, positive)|
    ensures ByteSum(rows, positive) == |Hits(rows, positive)| % ByteRange
    decreases |rows|
  {
    if |rows| > 0 {
      var n := |rows| - 1;
      var init := rows[..n];
      CountIsHits(init, positive);
      if Correct(rows[n], positive) {
        assert Hits(rows, positive) == Hits(init, positive) + {n};
      } else {
        assert Hits(rows, positive) == Hits(init, positive);
      }
    }
  }

  /** Below 256 rows the `uint8` sum is the exact number of correct rows. */
  lemma ByteSumExact(rows: seq<Score>, positive: bool)
    requires |rows| < ByteRange
    ensures ByteSum(rows, positive) == |Hits(rows, positive)|
  {
    CountIsHits(rows, positive);
  }

  /**
   * Every row is a hit for the positive rule, a hit for the negative rule,
   * a tie, or has a NaN score, and exactly one of the four: the two counts,
   * the ties and the NaN rows add up to the number of rows.
   */
  lemma {:induction false} CountsPartitionRows(rows: seq<Score>)
    ensures HitCount(rows, true) + HitCount(rows, false) + |Ties(rows)| + |NaNs(rows)| == |rows|
    decreases |rows|
  {
    if |rows| > 0 {
      var n := |rows| - 1;
      var init := rows[..n];
      CountsPartitionRows(init);
      if Tie(rows[n]) {
        assert Ties(rows) == Ties(init) + {n};
      } else {
        assert Ties(rows) == Ties(init);
      }
      if Unordered(rows[n]) {
        assert NaNs(rows) == NaNs(init) + {n};
      } else {
        assert NaNs(rows) == NaNs(init);
      }
    }
  }

  /** The `1e-8` that keeps the division defined on an empty batch. */
  const Eps: real := 0.00000001

  /** The share of a batch classified correctly, `correct.float() / (rows + 1e-8)`. */
  function Rate(rows: seq<Score>, positive: bool): (a: real)
    ensures 0.0 <= a <= 1.0
    ensures a == 0.0 <==> ByteSum(rows, positive) == 0
  {
    ByteSum(rows, positive) as real / (|rows| as real + Eps)
  }

  /** `Accuracy()(pos_score, neg_score)`: the positive and the negative rate. */
  function Accuracy(pos: seq<Score>, neg: seq<Score>): (r: (real, real))
    ensures 0.0 <= r.0 <= 1.0 && 0.0 <= r.1 <= 1.0
  {
    (Rate(pos, true), Rate(neg, false))
  }

  /** Below 256 rows, a rate is 0 exactly when no row is correct. */
  lemma RateZeroIffNoHits(rows: seq<Score>, positive: bool)
    requires |rows| < ByteRange
    ensures Rate(rows, positive) == 0.0 <==> Hits(rows, positive) == {}
  {
    ByteSumExact(rows, positive);
  }

  lemma {:induction false} AllCorrect(rows: seq<Score>, positive: bool)
    requires forall i :: 0 <= i < |rows| ==> Correct(rows[i], positive)
    ensures HitCount(rows, positive) == |rows|
    decreases |rows|
  {
    if |rows| > 0 {
      AllCorrect(rows[..|rows| - 1], positive);
    }
  }

  /**
   * At 256 rows the `uint8` sum wraps: a positive batch of 256 rows that are
   * all classified correctly reports accuracy 0.
   */
  lemma ByteSumWraps()
    ensures var rows := seq(ByteRange, _ => Score(Num(0.0), Num(1.0)));
      |Hits(rows, true)| == ByteRange && Rate(rows, true) == 0.0
  {
    var rows := seq(ByteRange, _ => Score(Num(0.0), Num(1.0)));
    AllCorrect(rows, true);
    CountIsHits(rows, true);
  }

  /**
   * A positive batch with one row won and one row tied, and a negative batch
   * with one row won and one row lost: one correct row in each. A NaN row
   * is correct for neither rule.
   */
  lemma SmallBatch()
    ensures HitCount([Score(Num(0.1), Num(0.9)), Score(Num(0.5), Num(0.5))], true) == 1
    ensures HitCount([Score(Num(0.8), Num(0.2)), Score(Num(0.3), Num(0.7))], false) == 1
    ensures HitCount([Score(NaN, Num(0.7))], true) == 0 && HitCount([Score(NaN, Num(0.7))], false) == 0
  {
    assert [Score(Num(0.1), Num(0.9)), Score(Num(0.5), Num(0.5))][..1] == [Score(Num(0.1), Num(0.9))];
    assert [Score(Num(0.8), Num(0.2)), Score(Num(0.3), Num(0.7))][..1] == [Score(Num(0.8), Num(0.2))];
  }
}

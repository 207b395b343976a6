/** The z-score vector against the league (views/skaters_xg.py lines
    185-215): for each tracked statistic whose `suffix_1` column exists, the
    player's value standardised by the population's mean and standard
    deviation, with 0.0 as the neutral fallback. */
module ZScores {
  import opened Wrappers
  import opened Frame
  import opened Stats
  import opened Subsequences

  /** The keys of `stats`, in insertion order. */
  const Tracked: seq<string> := ["iCorsiF", "iFenwickF", "iSOGF", "iGF", "ixGF", "iGFaX"]

  /** One z-score: `val = row.get(col, nan)`; 0.0 when `val` is NaN, or
      when `sd` is 0 or NaN (no non-missing value in the population);
      otherwise `(val - mu) / sd`. */
  function ZScore(pop: seq<Row>, row: Row, col: string, root: real -> real): real {
    var xs := Values(pop, col);
    var val := Get(row, col, Missing);
    if val.Missing? || |xs| == 0 || root(Variance(xs)) == 0.0 then 0.0
    else (val.value - Mean(xs)) / root(Variance(xs))
  }

  /** The neutral fallback: a missing player value, an empty population, or
      a population whose values are all equal (one member, for instance)
      gives exactly 0.0. */
  lemma ZScoreNeutral(pop: seq<Row>, row: Row, col: string, root: real -> real)
    requires IsRoot(root)
    requires || Get(row, col, Missing).Missing?
             || |Values(pop, col)| == 0
             || AllEqual(Values(pop, col))
    ensures ZScore(pop, row, col, root) == 0.0
  {
    var xs := Values(pop, col);
    if |xs| > 0 && AllEqual(xs) {
      VarianceZeroIff(xs);
    }
  }

  /** Otherwise the z-score is a genuine standardisation: the standard
      deviation is positive, `z * sd == val - mu`, and the sign of z is the
      sign of `val - mu`. */
  lemma ZScoreStandardizes(pop: seq<Row>, row: Row, col: string, root: real -> real)
    requires IsRoot(root)
    requires Get(row, col, Missing).Num?
    requires |Values(pop, col)| > 0 && !AllEqual(Values(pop, col))
    ensures var xs := Values(pop, col);
      var sd := root(Variance(xs));
      var z := ZScore(pop, row, col, root);
      var d := Get(row, col, Missing).value - Mean(xs);
      && sd > 0.0
      && z * sd == d
      && (z > 0.0 <==> d > 0.0)
      && (z < 0.0 <==> d < 0.0)
  {
    var xs := Values(pop, col);
    VarianceZeroIff(xs);
    var sd := root(Variance(xs));
    var d := Get(row, col, Missing).value - Mean(xs);
    var z := d / sd;
    assert z == ZScore(pop, row, col, root);
    QuotientSign(d, sd);
  }

  lemma QuotientSign(d: real, sd: real)
    requires sd > 0.0
    ensures (d / sd) * sd == d
    ensures d / sd > 0.0 <==> d > 0.0
    ensures d / sd < 0.0 <==> d < 0.0
  {
    var z := d / sd;
    if z > 0.0 {
      ProductPositive(z, sd, z * sd);
    } else if z < 0.0 {
      ProductPositive(-z, sd, (-z) * sd);
    }
  }

  /** The tracked statistics whose `{stat}{suffix}` column the population
      has, in the order of `stats`. */
  function Present(stats: seq<string>, columns: seq<string>, suffix: string): seq<string> {
    if stats == [] then []
    else
      var front := Present(stats[..|stats| - 1], columns, suffix);
      var stat := stats[|stats| - 1];
      if stat + suffix in columns then front + [stat] else front
  }

  /** A statistic is listed exactly when its column exists; the list keeps
      the fixed order, so it has at most six entries. */
  lemma {:induction false} PresentSpec(stats: seq<string>, columns: seq<string>, suffix: string)
    ensures forall s :: s in Present(stats, columns, suffix) <==> s in stats && s + suffix in columns
    ensures IsSubsequence(Present(stats, columns, suffix), stats)
    ensures |Present(stats, columns, suffix)| <= |stats|
    decreases |stats|
  {
    if stats != [] {
      var front := stats[..|stats| - 1];
      var stat := stats[|stats| - 1];
      PresentSpec(front, columns, suffix);
      assert stats == front + [stat];
      assert forall s :: s in stats <==> s in front || s == stat;
      if stat + suffix in columns {
        ExtendBoth(Present(front, columns, suffix), front, stat);
      } else {
        ExtendRight(Present(front, columns, suffix), front, stat);
      }
      SubsequenceLength(Present(stats, columns, suffix), stats);
    }
  }

  /** The loop over `stats.items()`: a statistic whose column is absent is
      skipped with `continue`; otherwise its label and z-score are appended
      to `z_labels` and `z_vals`. */
  method ZScoreVector(columns: seq<string>, pop: seq<Row>, row: Row, suffix1: string, root: real -> real)
    returns (labels: seq<string>, vals: seq<real>)
    ensures labels == Present(Tracked, columns, suffix1)
    ensures |vals| == |labels| <= |Tracked|
    ensures forall i :: 0 <= i < |labels| ==> vals[i] == ZScore(pop, row, labels[i] + suffix1, root)
  {
    labels, vals := [], [];
    for k := 0 to |Tracked|
      invariant labels == Present(Tracked[..k], columns, suffix1)
      invariant |vals| == |labels|
      invariant forall i :: 0 <= i < |labels| ==> vals[i] == ZScore(pop, row, labels[i] + suffix1, root)
    {
      var stat := Tracked[k];
      var col := stat + suffix1;
      assert Tracked[..k + 1][..k] == Tracked[..k] && Tracked[..k + 1][k] == stat;
      assert Present(Tracked[..k + 1], columns, suffix1)
        == if col in columns then labels + [stat] else labels;
      if col !in columns {
        continue;
      }
      var xs := Values(pop, col);
      var mu := SeriesMean(xs);
      var sd := SeriesStd(xs, root);
      var val := Get(row, col, Missing);
      var z: real;
      if val.Missing? || sd == Some(0.0) || sd.None? {
        z := 0.0;
      } else {
        z := (val.value - mu.value) / sd.value;
      }
      assert z == ZScore(pop, row, col, root);
      labels := labels + [stat];
      vals := vals + [z];
    }
    assert Tracked[..|Tracked|] == Tracked;
    PresentSpec(Tracked, columns, suffix1);
  }
}

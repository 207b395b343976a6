/** The shot funnel (views/skaters_xg.py lines 128-135): Corsi, Fenwick,
    shots on goal and goals for the selected suffix, clamped so that each
    stage is at most the one before it. */
module ShotFunnel {
  import opened Wrappers
  import opened Frame
  import opened Suffixes

  datatype Funnel = Funnel(corsi: real, fenwick: real, shots: real, goals: real)

  /** Every goal is a shot on goal, every shot on goal unblocked, every
      unblocked attempt an attempt. */
  predicate Nested(f: Funnel) {
    f.goals <= f.shots <= f.fenwick <= f.corsi
  }

  /** `f` is the clamp of `raw`: Corsi is kept, and every later stage is the
      least of its raw value and the raw values of all earlier stages. */
  ghost predicate IsClampOf(f: Funnel, raw: Funnel) {
    && f.corsi == raw.corsi
    && f.fenwick <= raw.fenwick && f.fenwick <= raw.corsi
    && (f.fenwick == raw.fenwick || f.fenwick == raw.corsi)
    && f.shots <= raw.shots && f.shots <= raw.fenwick && f.shots <= raw.corsi
    && (f.shots == raw.shots || f.shots == raw.fenwick || f.shots == raw.corsi)
    && f.goals <= raw.goals && f.goals <= raw.shots && f.goals <= raw.fenwick && f.goals <= raw.corsi
    && (f.goals == raw.goals || f.goals == raw.shots || f.goals == raw.fenwick || f.goals == raw.corsi)
  }

  /** Python's two-argument `min(a, b)`: `b` only when it is smaller. */
  function Min(a: real, b: real): (m: real)
    ensures m <= a && m <= b
    ensures m == a || m == b
    ensures a <= b ==> m == a
  {
    if b < a then b else a
  }

  /** The sequential clamp `fenwick = min(fenwick, corsi)`,
      `shots = min(shots, fenwick)`, `goals = min(goals, shots)`. */
  method Clamp(corsi: real, fenwick: real, shots: real, goals: real) returns (f: Funnel)
    ensures IsClampOf(f, Funnel(corsi, fenwick, shots, goals))
    ensures Nested(f)
    ensures Nested(Funnel(corsi, fenwick, shots, goals)) ==> f == Funnel(corsi, fenwick, shots, goals)
  {
    var fen, sog, g := fenwick, shots, goals;
    fen := Min(fen, corsi);
    sog := Min(sog, fen);
    g := Min(g, sog);
    f := Funnel(corsi, fen, sog, g);
  }

  /** The clamp is a function of the raw values: at most one funnel is the
      clamp of a given raw funnel. */
  lemma ClampUnique(f: Funnel, g: Funnel, raw: Funnel)
    requires IsClampOf(f, raw) && IsClampOf(g, raw)
    ensures f == g
  {
  }

  /** Raw (40, 50, 45, 8) clamps to (40, 40, 40, 8), and raw
      (120, 95, 110, 8) clamps to (120, 95, 95, 8). */
  lemma ClampExamples(f: Funnel, g: Funnel)
    requires IsClampOf(f, Funnel(40.0, 50.0, 45.0, 8.0))
    requires IsClampOf(g, Funnel(120.0, 95.0, 110.0, 8.0))
    ensures f == Funnel(40.0, 40.0, 40.0, 8.0)
    ensures g == Funnel(120.0, 95.0, 95.0, 8.0)
  {
  }

  /** A raw funnel input: `float(row.get(col, 0))`, so an absent column
      reads as 0; `None` for a present NaN cell, whose propagation through
      `min` is not modelled. */
  function FunnelInput(r: Row, col: string): (v: Option<real>)
    ensures col !in r.cells ==> v == Some(0.0)
    ensures col in r.cells ==> v == Scalar(r, col)
  {
    match Get(r, col, Num(0.0))
    case Num(x) => Some(x)
    case Missing => None
  }

  /** The four raw funnel values for `suffix_1`; goals are read from the
      same `iGF` column as the displayed iGF, but with default 0. */
  function RawFunnel(r: Row, suffix1: string): (raw: Option<Funnel>)
    ensures raw.Some? <==> (forall stat :: stat in ["iCorsiF", "iFenwickF", "iSOGF", "iGF"] ==> FunnelInput(r, stat + suffix1).Some?)
    ensures raw.Some? ==> raw.value == Funnel(FunnelInput(r, "iCorsiF" + suffix1).value, FunnelInput(r, "iFenwickF" + suffix1).value,
                                              FunnelInput(r, "iSOGF" + suffix1).value, FunnelInput(r, "iGF" + suffix1).value)
  {
    match (FunnelInput(r, "iCorsiF" + suffix1), FunnelInput(r, "iFenwickF" + suffix1),
           FunnelInput(r, "iSOGF" + suffix1), FunnelInput(r, "iGF" + suffix1))
    case (Some(c), Some(f), Some(s), Some(g)) => Some(Funnel(c, f, s, g))
    case _ => None
  }

  /** Where the row lacks the iGF column the funnel counts zero goals while
      the displayed iGF is "no data" rather than 0. */
  lemma GoalsDefaultDiffers(r: Row, suffix1: string)
    requires "iGF" + suffix1 !in r.cells
    ensures FunnelInput(r, "iGF" + suffix1) == Some(0.0)
    ensures Scalar(r, "iGF" + suffix1) == None
  {
  }

  /** The four funnel cells of the example row, read with suffix
      `_20242025_2`. */
  lemma ExampleRowFunnel(r: Row)
    requires r.cells == map["iCorsiF_20242025_2" := Num(120.0), "iFenwickF_20242025_2" := Num(95.0),
                            "iSOGF_20242025_2" := Num(110.0), "iGF_20242025_2" := Num(8.0)]
    ensures RawFunnel(r, "_20242025_2") == Some(Funnel(120.0, 95.0, 110.0, 8.0))
  {
    assert "iCorsiF" + "_20242025_2" == "iCorsiF_20242025_2";
    assert "iFenwickF" + "_20242025_2" == "iFenwickF_20242025_2";
    assert "iSOGF" + "_20242025_2" == "iSOGF_20242025_2";
    assert "iGF" + "_20242025_2" == "iGF_20242025_2";
  }

  /** A single-row example: for player 8478402 with Actual, 20242025,
      regular-season values iCorsiF 120, iFenwickF 95, iSOGF 110 and iGF 8,
      the selection gives the suffix `_20242025_2`, the row is found, the raw
      funnel is (120, 95, 110, 8) and it clamps to (120, 95, 95, 8). */
  lemma SingleRowExample(r: Row, f: Funnel)
    requires r.playerId == 8478402
    requires r.cells == map["iCorsiF_20242025_2" := Num(120.0), "iFenwickF_20242025_2" := Num(95.0),
                            "iSOGF_20242025_2" := Num(110.0), "iGF_20242025_2" := Num(8.0)]
    requires IsClampOf(f, Funnel(120.0, 95.0, 110.0, 8.0))
    ensures FetchRow(Table(["iCorsiF_20242025_2", "iFenwickF_20242025_2", "iSOGF_20242025_2", "iGF_20242025_2"], [r]), 8478402) == Some(r)
    ensures StatSuffix("Actual", "20242025", GameType("Regular Season")) == Some("_20242025_2")
    ensures RawFunnel(r, StatSuffix("Actual", "20242025", GameType("Regular Season")).value) == Some(Funnel(120.0, 95.0, 110.0, 8.0))
    ensures f == Funnel(120.0, 95.0, 95.0, 8.0)
  {
    SuffixExamples();
    ExampleRowFunnel(r);
  }
}

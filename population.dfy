/** The league population for z-scores (views/skaters_xg.py lines 196-197):
    `pop[(pop[gp_col].fillna(0) > 0) & (pop[toi_col].fillna(0) > 0)]`. */
module Population {
  import opened Wrappers
  import opened Frame
  import opened Subsequences

  /** `pop[col]` raises KeyError for a column the table does not have. */
  datatype Error = KeyError(column: string)

  /** The row has played: games played and time on ice both positive, a
      missing value counting as 0. */
  predicate Active(r: Row, gpCol: string, toiCol: string) {
    FillNa(Get(r, gpCol, Missing)) > 0.0 && FillNa(Get(r, toiCol, Missing)) > 0.0
  }

  /** The boolean mask applied to the rows, in table order. */
  function Keep(rows: seq<Row>, gpCol: string, toiCol: string): (p: seq<Row>)
    ensures forall r :: r in p <==> r in rows && Active(r, gpCol, toiCol)
    ensures |p| <= |rows|
  {
    if rows == [] then []
    else
      var last := rows[|rows| - 1];
      var front := Keep(rows[..|rows| - 1], gpCol, toiCol);
      assert forall r :: r in rows <==> r in rows[..|rows| - 1] || r == last;
      if Active(last, gpCol, toiCol) then front + [last] else front
  }

  /** The population for `suffix_2`, or the KeyError raised by indexing a
      column that is absent (the games-played column is indexed first). */
  function LeaguePopulation(t: Table, suffix2: string): (p: Result<seq<Row>, Error>)
    ensures p.Err? <==> "gamesPlayed" + suffix2 !in t.columns || "timeOnIce" + suffix2 !in t.columns
    ensures p.Err? ==> p.error == KeyError(if "gamesPlayed" + suffix2 !in t.columns then "gamesPlayed" + suffix2 else "timeOnIce" + suffix2)
    ensures p.Ok? ==> forall r :: r in p.value <==> r in t.rows && Active(r, "gamesPlayed" + suffix2, "timeOnIce" + suffix2)
  {
    var gpCol, toiCol := "gamesPlayed" + suffix2, "timeOnIce" + suffix2;
    if gpCol !in t.columns then Err(KeyError(gpCol))
    else if toiCol !in t.columns then Err(KeyError(toiCol))
    else Ok(Keep(t.rows, gpCol, toiCol))
  }

  /** The population keeps the table's order: it is a subsequence of it. */
  lemma {:induction false} KeepIsSubsequence(rows: seq<Row>, gpCol: string, toiCol: string)
    ensures IsSubsequence(Keep(rows, gpCol, toiCol), rows)
    decreases |rows|
  {
    if rows != [] {
      var front := rows[..|rows| - 1];
      var last := rows[|rows| - 1];
      KeepIsSubsequence(front, gpCol, toiCol);
      assert rows == front + [last];
      if Active(last, gpCol, toiCol) {
        ExtendBoth(Keep(front, gpCol, toiCol), front, last);
      } else {
        ExtendRight(Keep(front, gpCol, toiCol), front, last);
      }
    }
  }

  /** Filtering a concatenation filters each part, so the relative order of
      the kept rows is the table's. */
  lemma {:induction false} KeepAppend(a: seq<Row>, b: seq<Row>, gpCol: string, toiCol: string)
    ensures Keep(a + b, gpCol, toiCol) == Keep(a, gpCol, toiCol) + Keep(b, gpCol, toiCol)
    decreases |b|
  {
    if b != [] {
      var b' := b[..|b| - 1];
      assert (a + b)[..|a + b| - 1] == a + b';
      assert (a + b)[|a + b| - 1] == b[|b| - 1];
      KeepAppend(a, b', gpCol, toiCol);
    } else {
      assert a + b == a;
    }
  }

  /** Filtering twice changes nothing. */
  lemma {:induction false} KeepIdempotent(rows: seq<Row>, gpCol: string, toiCol: string)
    ensures Keep(Keep(rows, gpCol, toiCol), gpCol, toiCol) == Keep(rows, gpCol, toiCol)
    decreases |rows|
  {
    if rows != [] {
      var front := rows[..|rows| - 1];
      var last := rows[|rows| - 1];
      KeepIdempotent(front, gpCol, toiCol);
      if Active(last, gpCol, toiCol) {
        KeepAppend(Keep(front, gpCol, toiCol), [last], gpCol, toiCol);
        assert Keep([last], gpCol, toiCol) == [last] by {
          assert [last][..0] == [];
        }
      }
    }
  }

  /** A row that has not played (games played or time on ice 0 or missing)
      never affects the population, wherever it sits in the table and
      whatever its other statistics are. */
  lemma InactiveRowIgnored(a: seq<Row>, r: Row, b: seq<Row>, gpCol: string, toiCol: string)
    requires !Active(r, gpCol, toiCol)
    ensures Keep(a + [r] + b, gpCol, toiCol) == Keep(a + b, gpCol, toiCol)
  {
    KeepAppend(a + [r], b, gpCol, toiCol);
    KeepAppend(a, [r], gpCol, toiCol);
    KeepAppend(a, b, gpCol, toiCol);
    assert Keep([r], gpCol, toiCol) == [] by {
      assert [r][..0] == [];
    }
  }
}

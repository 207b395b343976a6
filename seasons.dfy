/** Season discovery and labelling (views/skaters_xg.py lines 23-26): the
    seasons offered are the 8-digit ids found in the table's column names by
    `re.findall(r'_(\d{8})_(?:2|3)\b', ' '.join(columns))`, deduplicated and
    sorted; each is shown as `s[:4] + '-' + s[6:]`. */
module Seasons {
  import opened StringOrder

  /** Python's `s[:n]`. */
  function Take(s: string, n: nat): string {
    if n <= |s| then s[..n] else s
  }

  /** Python's `s[n:]`. */
  function Drop(s: string, n: nat): string {
    if n <= |s| then s[n..] else []
  }

  /** `season_label`: "20242025" is shown as "2024-25". */
  function SeasonLabel(s: string): (r: string)
    ensures |s| == 8 ==> |r| == 7 && r[..4] == s[..4] && r[4] == '-' && r[5..] == s[6..]
    ensures |r| == (if |s| < 4 then |s| else 4) + 1 + (if |s| < 6 then 0 else |s| - 6)
  {
    Take(s, 4) + "-" + Drop(s, 6)
  }

  lemma SeasonLabelExample()
    ensures SeasonLabel("20242025") == "2024-25"
  {
    assert Take("20242025", 4) == "2024";
    assert Drop("20242025", 6) == "25";
  }

  /** The label keeps the starting year and the last two digits of the
      ending year of an 8-character id, so those can be read back from it. */
  lemma SeasonLabelRecovers(s: string, t: string)
    requires |s| == 8 && |t| == 8
    requires SeasonLabel(s) == SeasonLabel(t)
    ensures s[..4] == t[..4] && s[6..] == t[6..]
  {
    var r := SeasonLabel(s);
    assert s[..4] == r[..4] == t[..4];
    assert s[6..] == r[5..] == t[6..];
  }

  /** `\d` and `\w`, for ASCII text. */
  predicate IsDigit(c: char) {
    '0' <= c <= '9'
  }

  predicate IsWordChar(c: char) {
    IsDigit(c) || 'a' <= c <= 'z' || 'A' <= c <= 'Z' || c == '_'
  }

  predicate IsSeasonId(s: string) {
    |s| == 8 && forall k :: 0 <= k < 8 ==> IsDigit(s[k])
  }

  /** The pattern `_(\d{8})_(?:2|3)\b` matches `text` starting at `i`. The
      game-type digit is a word character, so the boundary after it holds
      exactly at the end of the text or before a non-word character. */
  predicate MatchAt(text: string, i: nat) {
    && i + 11 <= |text|
    && text[i] == '_'
    && (forall m :: i + 1 <= m < i + 9 ==> IsDigit(text[m]))
    && text[i + 9] == '_'
    && (text[i + 10] == '2' || text[i + 10] == '3')
    && (i + 11 == |text| || !IsWordChar(text[i + 11]))
  }

  /** The captured group of a match is an 8-digit season id. */
  lemma CapturedIsSeasonId(text: string, i: nat, s: string)
    requires SeasonAt(text, i, s)
    ensures IsSeasonId(s)
  {
    forall k | 0 <= k < 8 ensures IsDigit(s[k]) {
      assert s[k] == text[i + 1 + k];
    }
  }

  /** A match at `i` whose captured group is `s`. */
  predicate SeasonAt(text: string, i: nat, s: string) {
    MatchAt(text, i) && text[i + 1..i + 9] == s
  }

  ghost predicate Occurs(text: string, s: string) {
    exists i: nat :: SeasonAt(text, i, s)
  }

  /** No match starts strictly inside another: the characters at offsets
      1 to 10 of a match are digits or an underscore followed by a single
      digit and a non-word character. */
  lemma {:induction false} MatchesDoNotOverlap(text: string, i: nat, k: nat)
    requires MatchAt(text, i) && i < k < i + 11
    ensures !MatchAt(text, k)
  {
    assert k < i + 9 ==> IsDigit(text[k]);
    assert i + 11 < |text| ==> !IsDigit(text[i + 11]);
  }

  /** `re.findall` from position `i`: the left-to-right, non-overlapping
      matches, each contributing its captured 8-digit group. */
  function FindAll(text: string, i: nat): (r: seq<string>)
    ensures forall s :: s in r ==> exists k: nat :: i <= k && SeasonAt(text, k, s)
    ensures forall k: nat, s :: i <= k && SeasonAt(text, k, s) ==> s in r
    decreases |text| - i
  {
    if |text| < i + 11 then
      []
    else if MatchAt(text, i) then
      var rest := FindAll(text, i + 11);
      forall k: nat, s | i < k < i + 11 ensures !SeasonAt(text, k, s) {
        MatchesDoNotOverlap(text, i, k);
      }
      assert SeasonAt(text, i, text[i + 1..i + 9]);
      [text[i + 1..i + 9]] + rest
    else
      FindAll(text, i + 1)
  }

  /** `' '.join(columns)`. */
  function Join(columns: seq<string>): string {
    if |columns| == 0 then ""
    else if |columns| == 1 then columns[0]
    else columns[0] + " " + Join(columns[1..])
  }

  /** A match in `a` is a match at the same place in `a + " " + b`: the
      space that follows `a` is not a word character. */
  lemma MatchBeforeSpace(a: string, b: string, i: nat, s: string)
    requires SeasonAt(a, i, s)
    ensures SeasonAt(a + " " + b, i, s)
  {
    var text := a + " " + b;
    assert forall m :: 0 <= m < |a| ==> text[m] == a[m];
    assert text[|a|] == ' ';
    assert text[i + 1..i + 9] == a[i + 1..i + 9];
  }

  /** A match in `b` is a match in `a + " " + b`, shifted by `|a| + 1`. */
  lemma MatchAfterSpace(a: string, b: string, j: nat, s: string)
    requires SeasonAt(b, j, s)
    ensures SeasonAt(a + " " + b, j + |a| + 1, s)
  {
    var text := a + " " + b;
    assert forall m :: 0 <= m < |b| ==> text[m + |a| + 1] == b[m];
    assert text[j + |a| + 2..j + |a| + 10] == b[j + 1..j + 9];
  }

  /** A match in `a + " " + b` lies wholly in `a` or wholly in `b`: none of
      its characters is a space. */
  lemma MatchAroundSpace(a: string, b: string, i: nat, s: string)
    requires SeasonAt(a + " " + b, i, s)
    ensures || (i + 11 <= |a| && SeasonAt(a, i, s))
            || (|a| < i && SeasonAt(b, i - |a| - 1, s))
  {
    var text := a + " " + b;
    assert text[|a|] == ' ';
    assert i + 11 <= |a| || |a| < i;
    if i + 11 <= |a| {
      assert forall m :: 0 <= m < |a| ==> text[m] == a[m];
      assert text[i + 1..i + 9] == a[i + 1..i + 9];
    } else {
      var j: nat := i - |a| - 1;
      assert forall m :: 0 <= m < |b| ==> text[m + |a| + 1] == b[m];
      assert text[i + 1..i + 9] == b[j + 1..j + 9];
    }
  }

  /** A season id is found in the joined names exactly when one column name
      alone contains it as `_<season>_2` or `_<season>_3` before a non-word
      character or the end of the name. */
  lemma {:induction false} OccursInJoin(columns: seq<string>, s: string)
    ensures Occurs(Join(columns), s) <==> exists c :: c in columns && Occurs(c, s)
    decreases |columns|
  {
    if |columns| > 1 {
      var rest := Join(columns[1..]);
      assert Join(columns) == columns[0] + " " + rest;
      OccursInJoin(columns[1..], s);
      if Occurs(Join(columns), s) {
        var i: nat :| SeasonAt(Join(columns), i, s);
        MatchAroundSpace(columns[0], rest, i, s);
        if i + 11 <= |columns[0]| && SeasonAt(columns[0], i, s) {
          assert columns[0] in columns && Occurs(columns[0], s);
        } else {
          assert Occurs(rest, s);
          var c :| c in columns[1..] && Occurs(c, s);
          assert c in columns;
        }
      }
      if c :| c in columns && Occurs(c, s) {
        var i: nat :| SeasonAt(c, i, s);
        if c == columns[0] {
          MatchBeforeSpace(columns[0], rest, i, s);
        } else {
          assert c in columns[1..];
          var j: nat :| SeasonAt(rest, j, s);
          MatchAfterSpace(columns[0], rest, j, s);
        }
      }
    }
  }

  /** `seasons = sorted(set(season_matches))`. */
  function SeasonOptions(columns: seq<string>): seq<string> {
    SortedSet(FindAll(Join(columns), 0))
  }

  /** The options are strictly increasing, each is an 8-digit id, and an id
      is offered exactly when some column name carries it with game type 2
      or 3 and a word boundary after. Any other strictly increasing list of
      those ids is equal to the options. */
  lemma SeasonOptionsSpec(columns: seq<string>)
    ensures StrictlyIncreasing(SeasonOptions(columns))
    ensures forall s :: s in SeasonOptions(columns) ==> IsSeasonId(s)
    ensures forall s :: s in SeasonOptions(columns) <==> exists c :: c in columns && Occurs(c, s)
    ensures forall other: seq<string> ::
      StrictlyIncreasing(other) && (forall s :: s in other <==> s in SeasonOptions(columns))
      ==> other == SeasonOptions(columns)
  {
    var text := Join(columns);
    forall s ensures s in SeasonOptions(columns) <==> exists c :: c in columns && Occurs(c, s) {
      OccursInJoin(columns, s);
    }
    forall other: seq<string> |
      StrictlyIncreasing(other) && (forall s :: s in other <==> s in SeasonOptions(columns))
      ensures other == SeasonOptions(columns)
    {
      StrictlyIncreasingUnique(other, SeasonOptions(columns));
    }
  }
}

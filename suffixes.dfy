/** Column-name suffixes (views/skaters_xg.py lines 50 and 61-63). Every
    statistic column is named `{stat}{token}_{season}_{gameType}`. */
module Suffixes {
  import opened Wrappers

  /** `cat_to_suffix`: the category label shown in the segmented control
      and the token it contributes to rate-scaled column names. */
  const CatToSuffix: map<string, string> := map["Actual" := "", "Per 82" := "per82", "Per 60" := "per60"]

  /** `2 if game_type_label == 'Regular Season' else 3`. */
  function GameType(choice: string): (g: int)
    ensures g == 2 || g == 3
    ensures g == 2 <==> choice == "Regular Season"
  {
    if choice == "Regular Season" then 2 else 3
  }

  /** Python's `str(d)` for a single decimal digit. */
  function DigitText(d: int): (s: string)
    requires 0 <= d <= 9
    ensures |s| == 1 && '0' <= s[0] <= '9' && s[0] as int - '0' as int == d
  {
    [('0' as int + d) as char]
  }

  /** `suffix_2`: the suffix of the count columns (games played, time on
      ice), which are not scaled by category. */
  function BaseSuffix(season: string, gameType: int): (s: string)
    requires gameType == 2 || gameType == 3
    ensures |s| == |season| + 3 && s[0] == '_' && s[|s| - 2] == '_'
    ensures s[1..|s| - 2] == season && s[|s| - 1] == (if gameType == 2 then '2' else '3')
  {
    "_" + season + "_" + DigitText(gameType)
  }

  /** `suffix_1`: the category token before `suffix_2`; `None` where the
      dictionary lookup `cat_to_suffix[category]` raises KeyError (a label
      outside the three, such as the `None` of a deselected control). */
  function StatSuffix(category: string, season: string, gameType: int): (s: Option<string>)
    requires gameType == 2 || gameType == 3
    ensures s.Some? <==> category in CatToSuffix
    ensures s.Some? ==> s.value == CatToSuffix[category] + BaseSuffix(season, gameType)
  {
    if category in CatToSuffix then Some(CatToSuffix[category] + BaseSuffix(season, gameType))
    else None
  }

  /** For `Actual` the two suffixes coincide; for the rate categories the
      stat suffix is five characters longer and starts with `per`. */
  lemma ActualSuffixesCoincide(category: string, season: string, gameType: int)
    requires gameType == 2 || gameType == 3
    requires category in CatToSuffix
    ensures var s := StatSuffix(category, season, gameType).value;
      (category == "Actual" <==> s == BaseSuffix(season, gameType))
      && (category != "Actual" ==> |s| == |season| + 8 && s[..3] == "per")
  {
    var s := StatSuffix(category, season, gameType).value;
    if category != "Actual" {
      assert |CatToSuffix[category]| == 5;
      assert s[..3] == CatToSuffix[category][..3];
    }
  }

  /** Distinct selections read distinct columns: the stat suffix determines
      the category, the season and the game type. */
  lemma StatSuffixInjective(c1: string, s1: string, g1: int, c2: string, s2: string, g2: int)
    requires g1 == 2 || g1 == 3
    requires g2 == 2 || g2 == 3
    requires c1 in CatToSuffix && c2 in CatToSuffix
    requires StatSuffix(c1, s1, g1) == StatSuffix(c2, s2, g2)
    ensures c1 == c2 && s1 == s2 && g1 == g2
  {
    var t1, t2 := CatToSuffix[c1], CatToSuffix[c2];
    var b1, b2 := BaseSuffix(s1, g1), BaseSuffix(s2, g2);
    assert t1 + b1 == t2 + b2;
    assert (t1 + b1)[0] == (t2 + b2)[0];
    // A rate token starts with 'p' and a base suffix with '_'; the two rate
    // tokens differ at index 3.
    if t1 != "" && t2 != "" {
      assert (t1 + b1)[3] == (t2 + b2)[3];
    }
    assert t1 == t2;
    assert b1 == (t1 + b1)[|t1|..] == (t2 + b2)[|t2|..] == b2;
    assert s1 == b1[1..|b1| - 2];
  }

  /** Per 60, season 20242025, regular season; and Actual in both game types. */
  lemma SuffixExamples()
    ensures StatSuffix("Per 60", "20242025", GameType("Regular Season")) == Some("per60_20242025_2")
    ensures BaseSuffix("20242025", GameType("Regular Season")) == "_20242025_2"
    ensures StatSuffix("Actual", "20242025", GameType("Stanley Cup Playoffs")) == Some("_20242025_3")
    ensures StatSuffix("Actual", "20242025", GameType("Regular Season")) == Some("_20242025_2")
  {
    assert DigitText(2) == "2" && DigitText(3) == "3";
    assert "Per 60" in CatToSuffix && CatToSuffix["Per 60"] == "per60";
    assert "Actual" in CatToSuffix && CatToSuffix["Actual"] == "";
    assert GameType("Regular Season") == 2;
    assert BaseSuffix("20242025", 2) == "_20242025_2";
    assert BaseSuffix("20242025", 3) == "_20242025_3";
    assert "per60" + "_20242025_2" == "per60_20242025_2";
    assert GameType("Stanley Cup Playoffs") == 3;
    assert "" + "_20242025_3" == "_20242025_3";
    assert "" + "_20242025_2" == "_20242025_2";
  }
}

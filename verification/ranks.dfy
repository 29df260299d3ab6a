/** The panelist ranking labels shared by the statistics pages. */
module Ranks {

  const PanelistRanks: map<string, string> := map[
    "1" := "First",
    "1t" := "First Tied",
    "2" := "Second",
    "2t" := "Second Tied",
    "3" := "Third"
  ]

  /** Exactly three places and two ties; there is no tie for third. */
  lemma RankKeys()
    ensures PanelistRanks.Keys == {"1", "1t", "2", "2t", "3"}
    ensures "3t" !in PanelistRanks
  {
  }

  lemma PlaceLabels()
    ensures PanelistRanks["1"] == "First"
    ensures PanelistRanks["2"] == "Second"
    ensures PanelistRanks["3"] == "Third"
  {
  }

  /** A tied rank is the place's label followed by " Tied". */
  lemma TiedLabels(k: string)
    requires k == "1" || k == "2"
    ensures k + "t" in PanelistRanks
    ensures PanelistRanks[k + "t"] == PanelistRanks[k] + " Tied"
  {
    if k == "1" {
      assert k + "t" == "1t";
    } else {
      assert k + "t" == "2t";
    }
  }

  /** No two ranks share a label. */
  lemma LabelsDistinct(a: string, b: string)
    requires a in PanelistRanks && b in PanelistRanks && a != b
    ensures PanelistRanks[a] != PanelistRanks[b]
  {
  }
}

/** The template filters of the web application. */
module Filters {
  import opened Results
  import Ranks

  /** The table inside the `rankify` filter; it is its own literal in the
      application, next to `Ranks.PanelistRanks`. */
  const RankLabel: map<string, string> := map[
    "1" := "First",
    "1t" := "First Tied",
    "2" := "Second",
    "2t" := "Second Tied",
    "3" := "Third"
  ]

  /** `rankify`: the label of a rank, or `None` where the lookup raises
      `KeyError`. It agrees with `Ranks.PanelistRanks` on every key. */
  function Rankify(rank: string): (r: Option<string>)
    ensures r.Some? <==> rank in Ranks.PanelistRanks
    ensures r.Some? ==> r.value == Ranks.PanelistRanks[rank]
  {
    if rank in RankLabel then Some(RankLabel[rank]) else None
  }

  lemma RankLabelIsPanelistRanks()
    ensures RankLabel == Ranks.PanelistRanks
  {
  }
}

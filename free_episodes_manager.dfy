/** The free-episodes screen: the search and campaign filter over the free
    markers, and the distinct campaign ids of its dropdown. */
module FreeEpisodesManager {
  import opened Common

  /** A row of `contents_series_episodes_free` (the columns the screen reads). */
  datatype FreeEpisode = FreeEpisode(episodeId: int, campaignId: string)

  /** The search box: the lower-cased term occurs in the episode id or the
      campaign id. */
  predicate MatchesSearch(e: FreeEpisode, search: string)
  {
    var q := ToLower(search);
    Includes(IntToString(e.episodeId), q) || Includes(ToLower(e.campaignId), q)
  }

  predicate Matches(e: FreeEpisode, search: string, campaignFilter: string)
  {
    MatchesSearch(e, search) && MatchesChoice(campaignFilter, e.campaignId)
  }

  /** filteredFreeEpisodes: the markers, in order, that match the search and
      the campaign filter; an empty search under "all" keeps every one. */
  function FilteredFreeEpisodes(markers: seq<FreeEpisode>, search: string, campaignFilter: string): (r: seq<FreeEpisode>)
    ensures IsSubsequence(r, markers)
    ensures forall e :: e in r <==> e in markers && Matches(e, search, campaignFilter)
    ensures search == "" && campaignFilter == "all" ==> r == markers
  {
    FilterIsSubsequence(markers, (e: FreeEpisode) => Matches(e, search, campaignFilter));
    Filter(markers, (e: FreeEpisode) => Matches(e, search, campaignFilter))
  }

  function CampaignOf(e: FreeEpisode): string { e.campaignId }

  /** uniqueCampaigns: the markers' campaign ids, each once, in order of
      first appearance. */
  function UniqueCampaigns(markers: seq<FreeEpisode>): (r: seq<string>)
    ensures NoDuplicates(r)
    ensures IsSubsequence(r, MapSeq(markers, CampaignOf))
    ensures forall c :: c in r <==> exists e :: e in markers && e.campaignId == c
  {
    DistinctIsSubsequence(MapSeq(markers, CampaignOf));
    forall c ensures c in MapSeq(markers, CampaignOf) <==> exists e :: e in markers && e.campaignId == c {
      MapSeqMembers(markers, CampaignOf, c);
    }
    Distinct(MapSeq(markers, CampaignOf))
  }

  /** Every campaign the dropdown offers keeps at least one marker under an
      empty search, and any other campaign keeps none under any search. */
  lemma CampaignChoiceSelects(markers: seq<FreeEpisode>, c: string, search: string)
    requires c != "all"
    ensures c in UniqueCampaigns(markers) ==> FilteredFreeEpisodes(markers, "", c) != []
    ensures c !in UniqueCampaigns(markers) ==> FilteredFreeEpisodes(markers, search, c) == []
  {
    if c in UniqueCampaigns(markers) {
      var e :| e in markers && e.campaignId == c;
      IncludesEmpty(ToLower(e.campaignId));
      assert Matches(e, "", c);
      assert e in FilteredFreeEpisodes(markers, "", c);
    } else {
      FilterNone(markers, (e: FreeEpisode) => Matches(e, search, c));
    }
  }
}

/** The series-rubrics screen: the search and campaign filter over the
    series-rubric links, and the campaigns its dropdown offers, labelled as
    on the content-series screen. */
module SeriesRubricsManager {
  import opened Common
  import opened ContentSeriesManager

  /** A row of `contents_series_rubrics`. */
  datatype SeriesRubric = SeriesRubric(serieId: int, rubricId: int, campaignId: string)

  // ---------------------------------------------------------------------
  // filteredSeriesRubrics

  /** The search box: the lower-cased term occurs in the series id, the
      rubric id or the campaign id. */
  predicate MatchesSearch(sr: SeriesRubric, search: string)
  {
    var q := ToLower(search);
    || Includes(IntToString(sr.serieId), q)
    || Includes(IntToString(sr.rubricId), q)
    || Includes(ToLower(sr.campaignId), q)
  }

  predicate Matches(sr: SeriesRubric, search: string, campaignFilter: string)
  {
    MatchesSearch(sr, search) && MatchesChoice(campaignFilter, sr.campaignId)
  }

  /** filteredSeriesRubrics: the links, in order, that match the search and
      the campaign filter; an empty search under "all" keeps every one. */
  function FilteredSeriesRubrics(links: seq<SeriesRubric>, search: string, campaignFilter: string): (r: seq<SeriesRubric>)
    ensures IsSubsequence(r, links)
    ensures forall sr :: sr in r <==> sr in links && Matches(sr, search, campaignFilter)
    ensures search == "" && campaignFilter == "all" ==> r == links
  {
    FilterIsSubsequence(links, (sr: SeriesRubric) => Matches(sr, search, campaignFilter));
    Filter(links, (sr: SeriesRubric) => Matches(sr, search, campaignFilter))
  }

  // ---------------------------------------------------------------------
  // The campaign dropdown

  /** `seriesRubrics.some(sr => sr.campaign_countries_languages_id === id)`. */
  predicate LinkedCampaign(links: seq<SeriesRubric>, id: string)
  {
    exists sr :: sr in links && sr.campaignId == id
  }

  /** The dropdown's options: the loaded campaigns, in order, that at least
      one series-rubric link belongs to. */
  function RubricCampaignOptions(campaigns: seq<CampaignInfo>, links: seq<SeriesRubric>): (r: seq<CampaignInfo>)
    ensures IsSubsequence(r, campaigns)
    ensures forall c :: c in r <==> c in campaigns && LinkedCampaign(links, c.id)
  {
    FilterIsSubsequence(campaigns, (c: CampaignInfo) => LinkedCampaign(links, c.id));
    Filter(campaigns, (c: CampaignInfo) => LinkedCampaign(links, c.id))
  }

  /** The text of each option, through getCampaignDisplay. */
  function OptionLabels(campaigns: seq<CampaignInfo>, links: seq<SeriesRubric>): (r: seq<string>)
    ensures |r| == |RubricCampaignOptions(campaigns, links)|
  {
    MapSeq(RubricCampaignOptions(campaigns, links), (c: CampaignInfo) => CampaignDisplay(campaigns, c.id))
  }

  /** An option's campaign is one of the loaded campaigns, so its label is
      the known-campaign label of the first campaign with that id and never
      the truncated-id fallback. */
  lemma OptionLabelsAreKnown(campaigns: seq<CampaignInfo>, links: seq<SeriesRubric>, k: nat)
    requires k < |RubricCampaignOptions(campaigns, links)|
    ensures var opt := RubricCampaignOptions(campaigns, links)[k];
            exists i :: 0 <= i < |campaigns| && campaigns[i].id == opt.id &&
                        (forall j :: 0 <= j < i ==> campaigns[j].id != opt.id) &&
                        OptionLabels(campaigns, links)[k] == KnownLabel(campaigns[i])
  {
    var opt := RubricCampaignOptions(campaigns, links)[k];
    assert opt in RubricCampaignOptions(campaigns, links);
    var f := FindCampaign(campaigns, opt.id);
    assert f.Some?;
    var i :| 0 <= i < |campaigns| && campaigns[i] == f.value && campaigns[i].id == opt.id &&
             forall j :: 0 <= j < i ==> campaigns[j].id != opt.id;
    assert OptionLabels(campaigns, links)[k] == CampaignDisplay(campaigns, opt.id);
  }

  /** Choosing an offered campaign with an empty search keeps at least one
      link, and every link it keeps belongs to that campaign. */
  lemma OptionSelectsLinks(campaigns: seq<CampaignInfo>, links: seq<SeriesRubric>, c: CampaignInfo)
    requires c in RubricCampaignOptions(campaigns, links) && c.id != "all"
    ensures FilteredSeriesRubrics(links, "", c.id) != []
    ensures forall sr :: sr in FilteredSeriesRubrics(links, "", c.id) ==> sr.campaignId == c.id
  {
    var sr :| sr in links && sr.campaignId == c.id;
    IncludesEmpty(IntToString(sr.serieId));
    assert Matches(sr, "", c.id);
    assert sr in FilteredSeriesRubrics(links, "", c.id);
  }
}

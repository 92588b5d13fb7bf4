/** The content-series screen: how a campaign is labelled, the search and
    campaign filter over the loaded series, and the campaigns its dropdown
    offers. */
module ContentSeriesManager {
  import opened Common

  /** A row of `contents_series` (the columns the screen reads). */
  datatype ContentSeries = ContentSeries(
    serieId: int,
    title: string,
    description: Option<string>,
    campaignId: string)

  /** A campaign-country-language row as the screen loads it. */
  datatype CampaignInfo = CampaignInfo(id: string, campaignId: int, countryCode: Option<string>)

  // ---------------------------------------------------------------------
  // getCampaignDisplay

  /** The first campaign whose id is the given one, if any. */
  function FindCampaign(campaigns: seq<CampaignInfo>, id: string): (r: Option<CampaignInfo>)
    ensures r.None? <==> forall c :: c in campaigns ==> c.id != id
    ensures r.Some? ==> exists i :: 0 <= i < |campaigns| && campaigns[i] == r.value && campaigns[i].id == id &&
                                    forall j :: 0 <= j < i ==> campaigns[j].id != id
  {
    var k := FirstIndex(campaigns, (c: CampaignInfo) => c.id == id);
    if k.None? then
      assert forall c :: c in campaigns ==> c.id != id;
      None
    else
      Some(campaigns[k.value])
  }

  /** The label of a known campaign: its numeric campaign id, followed by
      " - " and the upper-cased country when the country is non-empty. */
  function KnownLabel(c: CampaignInfo): string
  {
    IntToString(c.campaignId) + (if OrEmpty(c.countryCode) != "" then " - " + ToUpper(OrEmpty(c.countryCode)) else "")
  }

  /** getCampaignDisplay: the label of the first campaign with the id, or,
      for an unknown id, its first eight characters and "...". */
  function CampaignDisplay(campaigns: seq<CampaignInfo>, id: string): (r: string)
    ensures (forall c :: c in campaigns ==> c.id != id) ==> r == Prefix(id, 8) + "..."
    ensures forall i :: 0 <= i < |campaigns| && campaigns[i].id == id && (forall j :: 0 <= j < i ==> campaigns[j].id != id)
              ==> r == KnownLabel(campaigns[i])
  {
    match FindCampaign(campaigns, id)
    case None => Prefix(id, 8) + "..."
    case Some(c) => KnownLabel(c)
  }

  /** The label of an unknown campaign is never longer than eleven
      characters and always ends in "...". */
  lemma UnknownCampaignLabel(campaigns: seq<CampaignInfo>, id: string)
    requires forall c :: c in campaigns ==> c.id != id
    ensures var r := CampaignDisplay(campaigns, id);
            3 <= |r| <= 11 && r[|r| - 3..] == "..." && IsPrefix(r[..|r| - 3], id)
  {
    var p := Prefix(id, 8);
    assert CampaignDisplay(campaigns, id) == p + "...";
    assert (p + "...")[..|p|] == p;
  }

  // ---------------------------------------------------------------------
  // filteredSeries

  /** The search box: the lower-cased term occurs in the title, the
      description, the series id or the campaign id. */
  predicate MatchesSearch(s: ContentSeries, search: string)
  {
    var q := ToLower(search);
    || Includes(ToLower(s.title), q)
    || Includes(ToLower(OrEmpty(s.description)), q)
    || Includes(IntToString(s.serieId), q)
    || Includes(ToLower(s.campaignId), q)
  }

  predicate Matches(s: ContentSeries, search: string, campaignFilter: string)
  {
    MatchesSearch(s, search) && MatchesChoice(campaignFilter, s.campaignId)
  }

  /** filteredSeries: the series, in order, that match the search and the
      campaign filter; an empty search under "all" keeps every one. */
  function FilteredSeries(series: seq<ContentSeries>, search: string, campaignFilter: string): (r: seq<ContentSeries>)
    ensures IsSubsequence(r, series)
    ensures forall s :: s in r <==> s in series && Matches(s, search, campaignFilter)
    ensures search == "" && campaignFilter == "all" ==> r == series
  {
    FilterIsSubsequence(series, (s: ContentSeries) => Matches(s, search, campaignFilter));
    Filter(series, (s: ContentSeries) => Matches(s, search, campaignFilter))
  }

  // ---------------------------------------------------------------------
  // The campaign dropdown

  /** `series.some(s => s.campaign_countries_languages_id === id)`. */
  predicate Referenced(series: seq<ContentSeries>, id: string)
  {
    exists s :: s in series && s.campaignId == id
  }

  /** The dropdown's options: the loaded campaigns, in order, that at least
      one series belongs to. */
  function CampaignOptions(campaigns: seq<CampaignInfo>, series: seq<ContentSeries>): (r: seq<CampaignInfo>)
    ensures IsSubsequence(r, campaigns)
    ensures forall c :: c in r <==> c in campaigns && Referenced(series, c.id)
  {
    FilterIsSubsequence(campaigns, (c: CampaignInfo) => Referenced(series, c.id));
    Filter(campaigns, (c: CampaignInfo) => Referenced(series, c.id))
  }

  /** Choosing an offered campaign with an empty search keeps at least one
      series, and every series it keeps belongs to that campaign. */
  lemma OptionSelectsSeries(campaigns: seq<CampaignInfo>, series: seq<ContentSeries>, c: CampaignInfo)
    requires c in CampaignOptions(campaigns, series) && c.id != "all"
    ensures FilteredSeries(series, "", c.id) != []
    ensures forall s :: s in FilteredSeries(series, "", c.id) ==> s.campaignId == c.id
  {
    var s :| s in series && s.campaignId == c.id;
    IncludesEmpty(ToLower(s.title));
    assert Matches(s, "", c.id);
    assert s in FilteredSeries(series, "", c.id);
  }
}

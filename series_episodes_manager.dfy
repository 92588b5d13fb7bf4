/** The series-episodes screen: the duration column, the search and
    campaign filter over the loaded episodes, and the campaign dropdown's
    distinct ids. */
module SeriesEpisodesManager {
  import opened Common

  /** A row of `contents_series_episodes` (the columns the screen reads). */
  datatype SeriesEpisode = SeriesEpisode(
    seriesId: int,
    episodeId: int,
    seasonId: int,
    episodePosition: int,
    campaignId: string,
    title: Option<string>,
    description: Option<string>,
    duration: Option<int>)

  // ---------------------------------------------------------------------
  // formatDuration

  /** JavaScript's `a % b` for a positive b: truncated toward zero, with the
      sign of a. */
  function JsRem(a: int, b: int): (r: int)
    requires b > 0
    ensures -b < r < b
    ensures a >= 0 ==> r >= 0
    ensures a <= 0 ==> r <= 0
    ensures a >= 0 ==> r == a % b
  {
    if a >= 0 then a % b else -((-a) % b)
  }

  /** formatDuration: "-" for a missing or zero duration, otherwise hours
      (Math.floor), minutes and seconds, leaving out leading zero units. */
  function FormatDuration(seconds: Option<int>): (r: string)
    ensures seconds.None? || seconds == Some(0) ==> r == "-"
    ensures seconds.Some? && seconds.value != 0 ==> |r| >= 2 && r[|r| - 1] == 's'
  {
    if seconds.None? || seconds.value == 0 then "-"
    else
      var s := seconds.value;
      var hours := s / 3600;
      var minutes := JsRem(s, 3600) / 60;
      var rest := JsRem(s, 60);
      if hours > 0 then
        IntToString(hours) + "h " + IntToString(minutes) + "m " + IntToString(rest) + "s"
      else if minutes > 0 then
        IntToString(minutes) + "m " + IntToString(rest) + "s"
      else
        IntToString(rest) + "s"
  }

  /** For a positive duration the three units add back up to it, minutes and
      seconds stay below 60, and the text starts at the largest unit that
      the duration reaches. */
  lemma FormatDurationPositive(s: int)
    requires s > 0
    ensures var h, m, sec := s / 3600, (s % 3600) / 60, s % 60;
            && h * 3600 + m * 60 + sec == s
            && 0 <= m < 60 && 0 <= sec < 60
            && FormatDuration(Some(s)) ==
                 if s >= 3600 then NatToString(h) + "h " + NatToString(m) + "m " + NatToString(sec) + "s"
                 else if s >= 60 then NatToString(m) + "m " + NatToString(sec) + "s"
                 else NatToString(sec) + "s"
  {
    DurationParts(s);
  }

  /** The division facts behind FormatDurationPositive. */
  lemma DurationParts(s: int)
    requires s > 0
    ensures var h, m, sec := s / 3600, (s % 3600) / 60, s % 60;
            && h * 3600 + m * 60 + sec == s
            && 0 <= h && 0 <= m < 60 && 0 <= sec < 60
            && JsRem(s, 3600) == s % 3600 && JsRem(s, 60) == sec
            && (h > 0 <==> s >= 3600)
            && (h == 0 ==> (m > 0 <==> s >= 60))
  {
    var h, q, m := s / 3600, s % 3600, (s % 3600) / 60;
    assert s == 3600 * h + q;
    assert q == 60 * m + q % 60;
    assert q % 60 == s % 60;
  }

  /** A negative duration has no positive hour or minute part, so only the
      truncated seconds remainder is shown, with its minus sign. */
  lemma FormatDurationNegative(s: int)
    requires s < 0
    ensures FormatDuration(Some(s)) == IntToString(-((-s) % 60)) + "s"
  {
    assert s / 3600 < 0;
    assert JsRem(s, 3600) / 60 <= 0;
  }

  // ---------------------------------------------------------------------
  // filteredEpisodes and uniqueCampaigns

  /** The search box: the lower-cased term occurs in the title, the
      description, one of the three ids or the campaign id. */
  predicate MatchesSearch(e: SeriesEpisode, search: string)
  {
    var q := ToLower(search);
    || Includes(ToLower(OrEmpty(e.title)), q)
    || Includes(ToLower(OrEmpty(e.description)), q)
    || Includes(IntToString(e.seriesId), q)
    || Includes(IntToString(e.episodeId), q)
    || Includes(IntToString(e.seasonId), q)
    || Includes(ToLower(e.campaignId), q)
  }

  predicate Matches(e: SeriesEpisode, search: string, campaignFilter: string)
  {
    MatchesSearch(e, search) && MatchesChoice(campaignFilter, e.campaignId)
  }

  /** filteredEpisodes: the episodes, in order, that match the search and
      the campaign filter; an empty search under "all" keeps every one. */
  function FilteredEpisodes(episodes: seq<SeriesEpisode>, search: string, campaignFilter: string): (r: seq<SeriesEpisode>)
    ensures IsSubsequence(r, episodes)
    ensures forall e :: e in r <==> e in episodes && Matches(e, search, campaignFilter)
    ensures search == "" && campaignFilter == "all" ==> r == episodes
  {
    FilterIsSubsequence(episodes, (e: SeriesEpisode) => Matches(e, search, campaignFilter));
    Filter(episodes, (e: SeriesEpisode) => Matches(e, search, campaignFilter))
  }

  function CampaignOf(e: SeriesEpisode): string { e.campaignId }

  /** uniqueCampaigns: the campaign ids of the episodes, each once, in order
      of first appearance. */
  function UniqueCampaigns(episodes: seq<SeriesEpisode>): (r: seq<string>)
    ensures NoDuplicates(r)
    ensures IsSubsequence(r, MapSeq(episodes, CampaignOf))
    ensures forall c :: c in r <==> exists e :: e in episodes && e.campaignId == c
  {
    DistinctIsSubsequence(MapSeq(episodes, CampaignOf));
    forall c ensures c in MapSeq(episodes, CampaignOf) <==> exists e :: e in episodes && e.campaignId == c {
      MapSeqMembers(episodes, CampaignOf, c);
    }
    Distinct(MapSeq(episodes, CampaignOf))
  }

  /** Every campaign the dropdown offers keeps at least one episode when it
      is chosen with an empty search, and a campaign it does not offer keeps
      none under any search. */
  lemma CampaignChoiceSelects(episodes: seq<SeriesEpisode>, c: string, search: string)
    requires c != "all"
    ensures c in UniqueCampaigns(episodes) ==> FilteredEpisodes(episodes, "", c) != []
    ensures c !in UniqueCampaigns(episodes) ==> FilteredEpisodes(episodes, search, c) == []
  {
    if c in UniqueCampaigns(episodes) {
      var e :| e in episodes && e.campaignId == c;
      IncludesEmpty(ToLower(e.campaignId));
      assert Matches(e, "", c);
      assert e in FilteredEpisodes(episodes, "", c);
    } else {
      FilterNone(episodes, (e: SeriesEpisode) => Matches(e, search, c));
    }
  }
}

/** The `galaxy-import-3` edge function: for every campaign-country-language
    it fetches the series the Galaxy content API lists for it, upserts each
    series, its episodes and its rubric links, marks the episodes whose
    position is at most the configured count as free, and then cleans the
    free markers up. Failures are isolated per episode, per rubric link and
    per campaign; the statistics count what the Galaxy API listed. */
module GalaxyImport {
  import opened Common

  // ---------------------------------------------------------------------
  // The free-episodes configuration

  const DefaultFreeEpisodes: int := 3
  const FreeEpisodesKey: string := "free_episodes_count"

  /** A row of `app_settings`: its key and the `count` member of its JSON
      value (None when the member is absent or null). */
  datatype SettingRow = SettingRow(key: string, count: Option<int>)

  /** The rows the `.eq('setting_key', key)` filter selects. */
  function WithKey(rows: seq<SettingRow>, key: string): seq<SettingRow>
  {
    Filter(rows, (r: SettingRow) => r.key == key)
  }

  /** getFreeEpisodesConfig on the rows `.single()` saw (None when the query
      returned an error or threw): the stored count unless the read failed,
      did not find exactly one row, or the count is missing or zero. */
  function FreeEpisodesCount(read: Option<seq<SettingRow>>): (n: int)
    ensures n != 0
    ensures n == DefaultFreeEpisodes || (read.Some? && |read.value| == 1 && read.value[0].count == Some(n))
    ensures read.Some? && |read.value| == 1 && read.value[0].count.Some? && read.value[0].count.value != 0 ==>
              n == read.value[0].count.value
  {
    if read.None? || |read.value| != 1 then DefaultFreeEpisodes
    else match read.value[0].count
      case None => DefaultFreeEpisodes
      case Some(c) => if c == 0 then DefaultFreeEpisodes else c
  }

  /** The eligibility rule: an episode is free when its position is at most
      the configured count. */
  predicate IsFree(position: int, threshold: int)
  {
    position <= threshold
  }

  // ---------------------------------------------------------------------
  // What the Galaxy API returns (an opaque input)

  datatype GalaxyEpisode = GalaxyEpisode(
    id: int, seriesId: int, seasonId: int, title: Option<string>, description: Option<string>,
    duration: Option<int>, position: int, seasonPosition: Option<int>, productYear: Option<int>,
    streamingUrl: Option<string>)

  /** A listed series; `episodes` and `rubrics` are None when the member is
      missing from the JSON. */
  datatype GalaxySeries = GalaxySeries(
    id: int, title: string, description: Option<string>, coverUrl: Option<string>,
    episodes: Option<seq<GalaxyEpisode>>, rubrics: Option<seq<int>>)

  /** The fetch for one campaign: it throws (a missing token, a non-ok status,
      a network error), or returns a body whose `data` member is an array
      (Some) or is absent or not an array (None). */
  datatype GalaxyResponse = FetchFailed | Response(data: Option<seq<GalaxySeries>>)

  // ---------------------------------------------------------------------
  // The content tables and the writes the function sends them

  datatype SeriesRow = SeriesRow(
    serieId: int, campaignId: string, title: string, description: Option<string>, urlCovers: Option<string>)

  datatype EpisodeRow = EpisodeRow(
    seriesId: int, episodeId: int, seasonId: int, episodePosition: int, seasonPosition: Option<int>,
    campaignId: string, urlStreamingNoDrm: Option<string>, description: Option<string>,
    title: Option<string>, duration: Option<int>, productYear: Option<int>)

  datatype FreeMarker = FreeMarker(episodeId: int, campaignId: string)

  datatype RubricLink = RubricLink(serieId: int, rubricId: int, campaignId: string)

  /** The four tables the import writes, each upsert keyed by the row's
      natural key; a marker and a rubric link are their own key. */
  datatype Content = Content(
    series: map<(int, string), SeriesRow>,
    episodes: map<(int, int, int, string), EpisodeRow>,
    free: set<FreeMarker>,
    rubrics: set<RubricLink>)

  datatype Write =
    | UpsertSeries(seriesRow: SeriesRow)
    | UpsertEpisode(episodeRow: EpisodeRow)
    | UpsertFree(marker: FreeMarker)
    | UpsertRubric(link: RubricLink)
      /** The cleanup request as written: every marker of the campaign with a
          positive episode id. */
    | DeleteFree(campaign: string)
      /** The cleanup request as intended: the markers of the campaign whose
          episode no longer qualifies under the threshold. */
    | DeleteUnqualified(campaign: string, threshold: int)

  /** One request and whether the table accepted it. */
  datatype Attempt = Attempt(write: Write, ok: bool)

  /** `value || null` on an optional string: the empty string becomes null. */
  function StringOrNull(s: Option<string>): (r: Option<string>)
    ensures r.Some? <==> s.Some? && s.value != ""
    ensures r.Some? ==> r == s
  {
    if s.Some? && s.value != "" then s else None
  }

  /** `value || null` on an optional number: zero becomes null. */
  function NumberOrNull(n: Option<int>): (r: Option<int>)
    ensures r.Some? <==> n.Some? && n.value != 0
    ensures r.Some? ==> r == n
  {
    if n.Some? && n.value != 0 then n else None
  }

  function SeriesRowOf(s: GalaxySeries, campaign: string): SeriesRow
  {
    SeriesRow(s.id, campaign, s.title, StringOrNull(s.description), StringOrNull(s.coverUrl))
  }

  function EpisodeRowOf(ep: GalaxyEpisode, campaign: string): EpisodeRow
  {
    EpisodeRow(ep.seriesId, ep.id, ep.seasonId, ep.position, NumberOrNull(ep.seasonPosition), campaign,
               StringOrNull(ep.streamingUrl), StringOrNull(ep.description), StringOrNull(ep.title),
               NumberOrNull(ep.duration), NumberOrNull(ep.productYear))
  }

  function EpisodeKey(r: EpisodeRow): (int, int, int, string)
  {
    (r.seriesId, r.episodeId, r.seasonId, r.campaignId)
  }

  /** Some episode row of the marker's campaign with the marker's episode id
      is free under the threshold. */
  predicate Qualifies(episodes: map<(int, int, int, string), EpisodeRow>, m: FreeMarker, threshold: int)
  {
    exists k :: k in episodes && episodes[k].campaignId == m.campaignId &&
                episodes[k].episodeId == m.episodeId && IsFree(episodes[k].episodePosition, threshold)
  }

  /** What an accepted request does to the tables. */
  function Effect(c: Content, w: Write): Content
  {
    match w
    case UpsertSeries(r) => c.(series := c.series[(r.serieId, r.campaignId) := r])
    case UpsertEpisode(r) => c.(episodes := c.episodes[EpisodeKey(r) := r])
    case UpsertFree(m) => c.(free := c.free + {m})
    case UpsertRubric(l) => c.(rubrics := c.rubrics + {l})
    case DeleteFree(id) => c.(free := set m | m in c.free && !(m.campaignId == id && m.episodeId > 0))
    case DeleteUnqualified(id, t) =>
      c.(free := set m | m in c.free && !(m.campaignId == id && m.episodeId > 0 && !Qualifies(c.episodes, m, t)))
  }

  /** A refused request changes nothing. */
  function Apply(c: Content, a: Attempt): Content
  {
    if a.ok then Effect(c, a.write) else c
  }

  /** The tables after a sequence of requests, in order. */
  function Replay(c: Content, log: seq<Attempt>): Content
  {
    if log == [] then c else Apply(Replay(c, log[..|log| - 1]), log[|log| - 1])
  }

  lemma ReplaySnoc(c: Content, log: seq<Attempt>, a: Attempt)
    ensures Replay(c, log + [a]) == Apply(Replay(c, log), a)
  {
    SnocPrefix(log, a);
  }

  lemma {:induction false} ReplayAppend(c: Content, a: seq<Attempt>, b: seq<Attempt>)
    ensures Replay(c, a + b) == Replay(Replay(c, a), b)
    decreases |b|
  {
    if b == [] {
      assert a + b == a;
    } else {
      var init := b[..|b| - 1];
      ReplayAppend(c, a, init);
      assert (a + b)[..|a + b| - 1] == a + init;
    }
  }

  /** From log L0 and tables C0 to L and C, the store served exactly the
      requests `writes`, in order. */
  ghost predicate Did(L0: seq<Attempt>, C0: Content, L: seq<Attempt>, C: Content, writes: seq<Attempt>)
  {
    L == L0 + writes && C == Replay(C0, writes)
  }

  lemma DidNothing(L: seq<Attempt>, C: Content)
    ensures Did(L, C, L, C, [])
  {
    assert L + [] == L;
  }

  lemma DidOne(L: seq<Attempt>, C: Content, a: Attempt)
    ensures Did(L, C, L + [a], Apply(C, a), [a])
  {
    assert [a][..0] == [];
  }

  lemma DidTrans(L0: seq<Attempt>, C0: Content, L1: seq<Attempt>, C1: Content, L2: seq<Attempt>, C2: Content,
                 w1: seq<Attempt>, w2: seq<Attempt>)
    requires Did(L0, C0, L1, C1, w1) && Did(L1, C1, L2, C2, w2)
    ensures Did(L0, C0, L2, C2, w1 + w2)
  {
    AppendAssoc(L0, w1, w2);
    ReplayAppend(C0, w1, w2);
  }

  /** The tables of the import, as the function sees them through the
      Supabase client. Every write may be refused; `log` records each
      request and its fate. */
  class ContentStore {
    var campaigns: seq<string>
    var settings: seq<SettingRow>
    var content: Content
    ghost var log: seq<Attempt>

    constructor (campaigns: seq<string>, settings: seq<SettingRow>, content: Content)
      ensures this.campaigns == campaigns && this.settings == settings && this.content == content && log == []
    {
      this.campaigns := campaigns;
      this.settings := settings;
      this.content := content;
      log := [];
    }

    /** `select('id')` on campaign_countries_languages: the ids, or an error. */
    method SelectCampaigns() returns (r: Option<seq<string>>)
      ensures r.Some? ==> r.value == campaigns
    {
      var ok: bool :| true;
      r := if ok then Some(campaigns) else None;
    }

    /** The settings rows with the given key, or an error. */
    method SelectSetting(key: string) returns (r: Option<seq<SettingRow>>)
      ensures r.Some? ==> r.value == WithKey(settings, key)
    {
      var ok: bool :| true;
      r := if ok then Some(WithKey(settings, key)) else None;
    }

    /** One upsert or delete request. */
    method Perform(w: Write) returns (ok: bool)
      modifies this
      ensures campaigns == old(campaigns) && settings == old(settings)
      ensures log == old(log) + [Attempt(w, ok)]
      ensures content == Apply(old(content), Attempt(w, ok))
    {
      ok :| true;
      log := log + [Attempt(w, ok)];
      content := Apply(content, Attempt(w, ok));
    }
  }

  // ---------------------------------------------------------------------
  // The requests of one import, given the fate of each

  /** What happened to one episode's upsert and, when one was sent, to its
      free marker's upsert (false when none was sent). */
  datatype EpisodeRun = EpisodeRun(ok: bool, markerOk: bool)

  /** What happened to a series: its upsert, its episodes and its rubric
      links. */
  datatype SeriesRun = SeriesRun(seriesOk: bool, episodes: seq<EpisodeRun>, rubricOks: seq<bool>)

  function EpisodeWrites(ep: GalaxyEpisode, campaign: string, t: int, r: EpisodeRun): seq<Attempt>
  {
    [Attempt(UpsertEpisode(EpisodeRowOf(ep, campaign)), r.ok)] +
    (if r.ok && IsFree(ep.position, t) then [Attempt(UpsertFree(FreeMarker(ep.id, campaign)), r.markerOk)] else [])
  }

  /** The requests for the first |runs| episodes, episode after episode. */
  function EpisodesWrites(eps: seq<GalaxyEpisode>, campaign: string, t: int, runs: seq<EpisodeRun>): seq<Attempt>
    requires |runs| <= |eps|
  {
    if runs == [] then []
    else EpisodesWrites(eps, campaign, t, runs[..|runs| - 1]) + EpisodeWrites(eps[|runs| - 1], campaign, t, runs[|runs| - 1])
  }

  /** The requests for the first |oks| rubric links of a series. */
  function RubricWrites(serieId: int, rubrics: seq<int>, campaign: string, oks: seq<bool>): seq<Attempt>
    requires |oks| <= |rubrics|
  {
    if oks == [] then []
    else RubricWrites(serieId, rubrics, campaign, oks[..|oks| - 1]) +
         [Attempt(UpsertRubric(RubricLink(serieId, rubrics[|oks| - 1], campaign)), oks[|oks| - 1])]
  }

  /** A series run has one outcome per episode and per rubric link that was
      reached: a refused series upsert throws before the episodes, missing
      episodes throw before any episode, missing rubrics throw after the
      episodes. */
  predicate SeriesFits(s: GalaxySeries, run: SeriesRun)
  {
    && (if run.seriesOk && s.episodes.Some? then |run.episodes| == |s.episodes.value| else run.episodes == [])
    && (if run.seriesOk && s.episodes.Some? && s.rubrics.Some? then |run.rubricOks| == |s.rubrics.value|
        else run.rubricOks == [])
  }

  /** importSeriesData returned without throwing. */
  predicate SeriesCompleted(s: GalaxySeries, run: SeriesRun)
  {
    run.seriesOk && s.episodes.Some? && s.rubrics.Some?
  }

  function SeriesWrites(s: GalaxySeries, campaign: string, t: int, run: SeriesRun): seq<Attempt>
    requires SeriesFits(s, run)
  {
    [Attempt(UpsertSeries(SeriesRowOf(s, campaign)), run.seriesOk)] +
    (if run.seriesOk && s.episodes.Some? then
       EpisodesWrites(s.episodes.value, campaign, t, run.episodes) +
       (if s.rubrics.Some? then RubricWrites(s.id, s.rubrics.value, campaign, run.rubricOks) else [])
     else [])
  }

  predicate SeriesRunsFit(list: seq<GalaxySeries>, runs: seq<SeriesRun>)
  {
    && |runs| <= |list|
    && (forall i :: 0 <= i < |runs| ==> SeriesFits(list[i], runs[i]))
  }

  /** The series of a campaign are imported in order until the first one
      that throws; the exception ends the campaign. */
  predicate StopsAtFirstThrow(list: seq<GalaxySeries>, runs: seq<SeriesRun>)
    requires |runs| <= |list|
  {
    && (forall i :: 0 <= i < |runs| - 1 ==> SeriesCompleted(list[i], runs[i]))
    && (|runs| < |list| ==> runs != [] && !SeriesCompleted(list[|runs| - 1], runs[|runs| - 1]))
  }

  function SeriesListWrites(list: seq<GalaxySeries>, campaign: string, t: int, runs: seq<SeriesRun>): seq<Attempt>
    requires SeriesRunsFit(list, runs)
  {
    if runs == [] then []
    else SeriesListWrites(list, campaign, t, runs[..|runs| - 1]) + SeriesWrites(list[|runs| - 1], campaign, t, runs[|runs| - 1])
  }

  // ---------------------------------------------------------------------
  // The statistics

  datatype Totals = Totals(series: nat, episodes: nat, free: nat)

  function Add(a: Totals, b: Totals): Totals
  {
    Totals(a.series + b.series, a.episodes + b.episodes, a.free + b.free)
  }

  /** `seriesData.episodes?.length || 0`. */
  function EpisodeCount(s: GalaxySeries): nat
  {
    if s.episodes.Some? then |s.episodes.value| else 0
  }

  /** The episodes of a list eligible under the threshold. */
  function FreeEpisodes(eps: seq<GalaxyEpisode>, t: int): seq<GalaxyEpisode>
  {
    Filter(eps, (ep: GalaxyEpisode) => IsFree(ep.position, t))
  }

  /** `(seriesData.episodes || []).filter(ep => ep.position <= count).length`. */
  function FreeCount(s: GalaxySeries, t: int): nat
  {
    if s.episodes.Some? then |FreeEpisodes(s.episodes.value, t)| else 0
  }

  /** The counts the loop adds for the first n series. */
  function SeriesTotals(list: seq<GalaxySeries>, t: int, n: nat): Totals
    requires n <= |list|
  {
    if n == 0 then Totals(0, 0, 0)
    else Add(SeriesTotals(list, t, n - 1), Totals(1, EpisodeCount(list[n - 1]), FreeCount(list[n - 1], t)))
  }

  /** How many series of the campaign completed: all that were reached but a
      last one that threw. */
  function CompletedCount(list: seq<GalaxySeries>, runs: seq<SeriesRun>): nat
    requires |runs| <= |list|
  {
    if runs != [] && !SeriesCompleted(list[|runs| - 1], runs[|runs| - 1]) then |runs| - 1 else |runs|
  }

  // ---------------------------------------------------------------------
  // One campaign, all campaigns, the cleanup

  /** No series is reached when the fetch threw or returned no array. */
  predicate CampaignFits(resp: GalaxyResponse, runs: seq<SeriesRun>)
  {
    if resp.Response? && resp.data.Some? then SeriesRunsFit(resp.data.value, runs) && StopsAtFirstThrow(resp.data.value, runs)
    else runs == []
  }

  function CampaignWrites(resp: GalaxyResponse, campaign: string, t: int, runs: seq<SeriesRun>): seq<Attempt>
    requires CampaignFits(resp, runs)
  {
    if resp.Response? && resp.data.Some? then SeriesListWrites(resp.data.value, campaign, t, runs) else []
  }

  function CampaignTotals(resp: GalaxyResponse, t: int, runs: seq<SeriesRun>): Totals
    requires CampaignFits(resp, runs)
  {
    if resp.Response? && resp.data.Some? then SeriesTotals(resp.data.value, t, CompletedCount(resp.data.value, runs))
    else Totals(0, 0, 0)
  }

  predicate RunsFit(campaigns: seq<string>, galaxy: string -> GalaxyResponse, cruns: seq<seq<SeriesRun>>)
  {
    |cruns| <= |campaigns| && forall i :: 0 <= i < |cruns| ==> CampaignFits(galaxy(campaigns[i]), cruns[i])
  }

  /** The requests of the campaign loop over the first |cruns| campaigns. */
  function ImportWrites(campaigns: seq<string>, galaxy: string -> GalaxyResponse, t: int, cruns: seq<seq<SeriesRun>>): seq<Attempt>
    requires RunsFit(campaigns, galaxy, cruns)
  {
    if cruns == [] then []
    else
      var n := |cruns| - 1;
      ImportWrites(campaigns, galaxy, t, cruns[..n]) + CampaignWrites(galaxy(campaigns[n]), campaigns[n], t, cruns[n])
  }

  function ImportTotals(campaigns: seq<string>, galaxy: string -> GalaxyResponse, t: int, cruns: seq<seq<SeriesRun>>): Totals
    requires RunsFit(campaigns, galaxy, cruns)
  {
    if cruns == [] then Totals(0, 0, 0)
    else
      var n := |cruns| - 1;
      Add(ImportTotals(campaigns, galaxy, t, cruns[..n]), CampaignTotals(galaxy(campaigns[n]), t, cruns[n]))
  }

  /** The cleanup requests as written, one per campaign. */
  function CleanupAsWrittenWrites(campaigns: seq<string>, oks: seq<bool>): seq<Attempt>
    requires |oks| <= |campaigns|
  {
    if oks == [] then []
    else CleanupAsWrittenWrites(campaigns, oks[..|oks| - 1]) + [Attempt(DeleteFree(campaigns[|oks| - 1]), oks[|oks| - 1])]
  }

  /** The corrected cleanup requests, one per campaign. */
  function CleanupWrites(campaigns: seq<string>, t: int, oks: seq<bool>): seq<Attempt>
    requires |oks| <= |campaigns|
  {
    if oks == [] then []
    else CleanupWrites(campaigns, t, oks[..|oks| - 1]) + [Attempt(DeleteUnqualified(campaigns[|oks| - 1], t), oks[|oks| - 1])]
  }

  // ---------------------------------------------------------------------
  // The handler

  datatype Stats = Stats(campaignsProcessed: nat, seriesImported: nat, episodesImported: nat,
                         freeEpisodesMarked: nat, freeEpisodesConfig: int)

  datatype Outcome =
    | MissingToken
    | NoCampaigns
    | Success(message: string, stats: Stats)

  const SuccessMessage: string := "Galaxy import completed successfully"

  // ---------------------------------------------------------------------
  // How the request sequences grow, one element at a time

  lemma EpisodesStep(eps: seq<GalaxyEpisode>, campaign: string, t: int, runs: seq<EpisodeRun>, r: EpisodeRun)
    requires |runs| < |eps|
    ensures EpisodesWrites(eps, campaign, t, runs + [r]) ==
            EpisodesWrites(eps, campaign, t, runs) + EpisodeWrites(eps[|runs|], campaign, t, r)
  {
    SnocPrefix(runs, r);
  }

  lemma RubricStep(serieId: int, rubrics: seq<int>, campaign: string, oks: seq<bool>, ok: bool)
    requires |oks| < |rubrics|
    ensures RubricWrites(serieId, rubrics, campaign, oks + [ok]) ==
            RubricWrites(serieId, rubrics, campaign, oks) + [Attempt(UpsertRubric(RubricLink(serieId, rubrics[|oks|], campaign)), ok)]
  {
    SnocPrefix(oks, ok);
  }

  lemma SeriesListStep(list: seq<GalaxySeries>, campaign: string, t: int, runs: seq<SeriesRun>, r: SeriesRun)
    requires SeriesRunsFit(list, runs) && |runs| < |list| && SeriesFits(list[|runs|], r)
    ensures SeriesRunsFit(list, runs + [r])
    ensures SeriesListWrites(list, campaign, t, runs + [r]) ==
            SeriesListWrites(list, campaign, t, runs) + SeriesWrites(list[|runs|], campaign, t, r)
  {
    SnocPrefix(runs, r);
  }

  lemma ImportStep(campaigns: seq<string>, galaxy: string -> GalaxyResponse, t: int, cruns: seq<seq<SeriesRun>>,
                   runs: seq<SeriesRun>)
    requires RunsFit(campaigns, galaxy, cruns) && |cruns| < |campaigns| && CampaignFits(galaxy(campaigns[|cruns|]), runs)
    ensures RunsFit(campaigns, galaxy, cruns + [runs])
    ensures ImportWrites(campaigns, galaxy, t, cruns + [runs]) ==
            ImportWrites(campaigns, galaxy, t, cruns) + CampaignWrites(galaxy(campaigns[|cruns|]), campaigns[|cruns|], t, runs)
    ensures ImportTotals(campaigns, galaxy, t, cruns + [runs]) ==
            Add(ImportTotals(campaigns, galaxy, t, cruns), CampaignTotals(galaxy(campaigns[|cruns|]), t, runs))
  {
    SnocPrefix(cruns, runs);
    forall i | 0 <= i < |cruns| + 1
      ensures CampaignFits(galaxy(campaigns[i]), (cruns + [runs])[i])
    {
      if i < |cruns| {
        assert (cruns + [runs])[i] == cruns[i];
      }
    }
  }

  lemma CleanupStep(campaigns: seq<string>, t: int, oks: seq<bool>, ok: bool)
    requires |oks| < |campaigns|
    ensures CleanupWrites(campaigns, t, oks + [ok]) ==
            CleanupWrites(campaigns, t, oks) + [Attempt(DeleteUnqualified(campaigns[|oks|], t), ok)]
  {
    SnocPrefix(oks, ok);
  }

  // ---------------------------------------------------------------------
  // The import, step by step

  /** importEpisodesData: one upsert per episode; a refused upsert skips the
      episode, an accepted one of a free episode is followed by the upsert of
      its free marker, whose failure is only logged. */
  method ImportEpisodes(store: ContentStore, eps: seq<GalaxyEpisode>, campaign: string, t: int)
    returns (ghost runs: seq<EpisodeRun>)
    modifies store
    ensures |runs| == |eps|
    ensures store.campaigns == old(store.campaigns) && store.settings == old(store.settings)
    ensures Did(old(store.log), old(store.content), store.log, store.content, EpisodesWrites(eps, campaign, t, runs))
  {
    runs := [];
    DidNothing(store.log, store.content);
    for i := 0 to |eps|
      invariant |runs| == i
      invariant store.campaigns == old(store.campaigns) && store.settings == old(store.settings)
      invariant Did(old(store.log), old(store.content), store.log, store.content, EpisodesWrites(eps, campaign, t, runs))
    {
      var ep := eps[i];
      ghost var L1, C1 := store.log, store.content;
      ghost var before := EpisodesWrites(eps, campaign, t, runs);
      var upsert := Attempt(UpsertEpisode(EpisodeRowOf(ep, campaign)), false);
      var ok := store.Perform(upsert.write);
      upsert := upsert.(ok := ok);
      DidOne(L1, C1, upsert);
      var markerOk := false;
      if ok && IsFree(ep.position, t) {
        ghost var L2, C2 := store.log, store.content;
        markerOk := store.Perform(UpsertFree(FreeMarker(ep.id, campaign)));
        DidOne(L2, C2, Attempt(UpsertFree(FreeMarker(ep.id, campaign)), markerOk));
        DidTrans(L1, C1, L2, C2, store.log, store.content, [upsert], [Attempt(UpsertFree(FreeMarker(ep.id, campaign)), markerOk)]);
      } else {
        assert [upsert] + [] == [upsert];
      }
      assert Did(L1, C1, store.log, store.content, EpisodeWrites(ep, campaign, t, EpisodeRun(ok, markerOk)));
      DidTrans(old(store.log), old(store.content), L1, C1, store.log, store.content,
               before, EpisodeWrites(ep, campaign, t, EpisodeRun(ok, markerOk)));
      EpisodesStep(eps, campaign, t, runs, EpisodeRun(ok, markerOk));
      runs := runs + [EpisodeRun(ok, markerOk)];
    }
  }

  /** importSeriesRubrics: one upsert per rubric id; a refused one is skipped. */
  method ImportRubrics(store: ContentStore, serieId: int, rubrics: seq<int>, campaign: string)
    returns (ghost oks: seq<bool>)
    modifies store
    ensures |oks| == |rubrics|
    ensures store.campaigns == old(store.campaigns) && store.settings == old(store.settings)
    ensures Did(old(store.log), old(store.content), store.log, store.content, RubricWrites(serieId, rubrics, campaign, oks))
  {
    oks := [];
    DidNothing(store.log, store.content);
    for i := 0 to |rubrics|
      invariant |oks| == i
      invariant store.campaigns == old(store.campaigns) && store.settings == old(store.settings)
      invariant Did(old(store.log), old(store.content), store.log, store.content, RubricWrites(serieId, rubrics, campaign, oks))
    {
      ghost var L1, C1 := store.log, store.content;
      var link := RubricLink(serieId, rubrics[i], campaign);
      var ok := store.Perform(UpsertRubric(link));
      DidOne(L1, C1, Attempt(UpsertRubric(link), ok));
      DidTrans(old(store.log), old(store.content), L1, C1, store.log, store.content,
               RubricWrites(serieId, rubrics, campaign, oks), [Attempt(UpsertRubric(link), ok)]);
      RubricStep(serieId, rubrics, campaign, oks, ok);
      oks := oks + [ok];
    }
  }

  /** importSeriesData: the series upsert (a refusal throws), then its
      episodes (missing episodes throw), then its rubric links (missing
      rubrics throw). */
  method ImportSeries(store: ContentStore, s: GalaxySeries, campaign: string, t: int)
    returns (completed: bool, ghost run: SeriesRun)
    modifies store
    ensures SeriesFits(s, run) && completed == SeriesCompleted(s, run)
    ensures store.campaigns == old(store.campaigns) && store.settings == old(store.settings)
    ensures Did(old(store.log), old(store.content), store.log, store.content, SeriesWrites(s, campaign, t, run))
  {
    ghost var L0, C0 := store.log, store.content;
    var seriesOk := store.Perform(UpsertSeries(SeriesRowOf(s, campaign)));
    ghost var first := [Attempt(UpsertSeries(SeriesRowOf(s, campaign)), seriesOk)];
    DidOne(L0, C0, first[0]);
    if !seriesOk {
      run, completed := SeriesRun(false, [], []), false;
      assert first + [] == first;
      return;
    }
    if s.episodes.None? {
      run, completed := SeriesRun(true, [], []), false;
      assert first + [] == first;
      return;
    }
    ghost var L1, C1 := store.log, store.content;
    ghost var episodeRuns := ImportEpisodes(store, s.episodes.value, campaign, t);
    ghost var episodeWrites := EpisodesWrites(s.episodes.value, campaign, t, episodeRuns);
    DidTrans(L0, C0, L1, C1, store.log, store.content, first, episodeWrites);
    if s.rubrics.None? {
      run, completed := SeriesRun(true, episodeRuns, []), false;
      assert episodeWrites + [] == episodeWrites;
      return;
    }
    ghost var L2, C2 := store.log, store.content;
    ghost var rubricOks := ImportRubrics(store, s.id, s.rubrics.value, campaign);
    DidTrans(L0, C0, L2, C2, store.log, store.content, first + episodeWrites,
             RubricWrites(s.id, s.rubrics.value, campaign, rubricOks));
    AppendAssoc(first, episodeWrites, RubricWrites(s.id, s.rubrics.value, campaign, rubricOks));
    run, completed := SeriesRun(true, episodeRuns, rubricOks), true;
  }

  /** One campaign of the main loop: fetch its series and import them in
      order; a fetch that throws or returns no array imports nothing, and a
      series that throws ends the campaign. Returns the counts the loop adds
      for it. */
  method ImportCampaign(store: ContentStore, campaign: string, resp: GalaxyResponse, t: int)
    returns (totals: Totals, ghost runs: seq<SeriesRun>)
    modifies store
    ensures CampaignFits(resp, runs) && totals == CampaignTotals(resp, t, runs)
    ensures store.campaigns == old(store.campaigns) && store.settings == old(store.settings)
    ensures Did(old(store.log), old(store.content), store.log, store.content, CampaignWrites(resp, campaign, t, runs))
  {
    runs, totals := [], Totals(0, 0, 0);
    DidNothing(store.log, store.content);
    if resp.FetchFailed? || resp.data.None? {
      return;
    }
    var list := resp.data.value;
    var i := 0;
    while i < |list|
      invariant 0 <= i <= |list| && |runs| == i
      invariant SeriesRunsFit(list, runs)
      invariant forall k :: 0 <= k < i ==> SeriesCompleted(list[k], runs[k])
      invariant totals == SeriesTotals(list, t, i)
      invariant store.campaigns == old(store.campaigns) && store.settings == old(store.settings)
      invariant Did(old(store.log), old(store.content), store.log, store.content, SeriesListWrites(list, campaign, t, runs))
    {
      ghost var L1, C1 := store.log, store.content;
      var completed, run := ImportSeries(store, list[i], campaign, t);
      SeriesListStep(list, campaign, t, runs, run);
      DidTrans(old(store.log), old(store.content), L1, C1, store.log, store.content,
               SeriesListWrites(list, campaign, t, runs), SeriesWrites(list[i], campaign, t, run));
      runs := runs + [run];
      if !completed {
        return;
      }
      totals := Add(totals, Totals(1, EpisodeCount(list[i]), FreeCount(list[i], t)));
      i := i + 1;
    }
  }

  /** cleanupOldFreeEpisodes as intended: per campaign, one delete of the
      markers that no longer qualify; a refused delete is ignored. */
  method Cleanup(store: ContentStore, campaigns: seq<string>, t: int) returns (ghost oks: seq<bool>)
    modifies store
    ensures |oks| == |campaigns|
    ensures store.campaigns == old(store.campaigns) && store.settings == old(store.settings)
    ensures Did(old(store.log), old(store.content), store.log, store.content, CleanupWrites(campaigns, t, oks))
  {
    oks := [];
    DidNothing(store.log, store.content);
    for i := 0 to |campaigns|
      invariant |oks| == i
      invariant store.campaigns == old(store.campaigns) && store.settings == old(store.settings)
      invariant Did(old(store.log), old(store.content), store.log, store.content, CleanupWrites(campaigns, t, oks))
    {
      ghost var L1, C1 := store.log, store.content;
      var ok := store.Perform(DeleteUnqualified(campaigns[i], t));
      DidOne(L1, C1, Attempt(DeleteUnqualified(campaigns[i], t), ok));
      DidTrans(old(store.log), old(store.content), L1, C1, store.log, store.content,
               CleanupWrites(campaigns, t, oks), [Attempt(DeleteUnqualified(campaigns[i], t), ok)]);
      CleanupStep(campaigns, t, oks, ok);
      oks := oks + [ok];
    }
  }

  /** The handler: check the token, read the campaigns, read the threshold,
      import every campaign (a campaign that throws is skipped), clean up,
      and report the statistics. */
  method Run(store: ContentStore, tokenSet: bool, galaxy: string -> GalaxyResponse)
    returns (out: Outcome, ghost threshold: int, ghost cruns: seq<seq<SeriesRun>>, ghost cleanupOks: seq<bool>)
    modifies store
    ensures store.campaigns == old(store.campaigns) && store.settings == old(store.settings)
    ensures !tokenSet <==> out == MissingToken
    ensures tokenSet && old(store.campaigns) == [] ==> out == NoCampaigns
    ensures !out.Success? ==> store.log == old(store.log) && store.content == old(store.content)
    ensures out.Success? ==>
      var ids := old(store.campaigns);
      && ids != []
      && (threshold == FreeEpisodesCount(None) ||
          threshold == FreeEpisodesCount(Some(WithKey(old(store.settings), FreeEpisodesKey))))
      && RunsFit(ids, galaxy, cruns) && |cruns| == |ids| && |cleanupOks| == |ids|
      && Did(old(store.log), old(store.content), store.log, store.content,
             ImportWrites(ids, galaxy, threshold, cruns) + CleanupWrites(ids, threshold, cleanupOks))
      && var totals := ImportTotals(ids, galaxy, threshold, cruns);
         out == Success(SuccessMessage, Stats(|ids|, totals.series, totals.episodes, totals.free, threshold))
  {
    threshold, cruns, cleanupOks := DefaultFreeEpisodes, [], [];
    if !tokenSet {
      out := MissingToken;
      return;
    }
    var read := store.SelectCampaigns();
    var ids := if read.Some? then read.value else [];
    if ids == [] {
      out := NoCampaigns;
      return;
    }
    var config := store.SelectSetting(FreeEpisodesKey);
    var t := FreeEpisodesCount(config);
    threshold := t;
    var totals := Totals(0, 0, 0);
    DidNothing(store.log, store.content);
    for i := 0 to |ids|
      invariant |cruns| == i && RunsFit(ids, galaxy, cruns)
      invariant totals == ImportTotals(ids, galaxy, t, cruns)
      invariant store.campaigns == old(store.campaigns) && store.settings == old(store.settings)
      invariant Did(old(store.log), old(store.content), store.log, store.content, ImportWrites(ids, galaxy, t, cruns))
    {
      ghost var L1, C1 := store.log, store.content;
      var campaignTotals, runs := ImportCampaign(store, ids[i], galaxy(ids[i]), t);
      ImportStep(ids, galaxy, t, cruns, runs);
      DidTrans(old(store.log), old(store.content), L1, C1, store.log, store.content,
               ImportWrites(ids, galaxy, t, cruns), CampaignWrites(galaxy(ids[i]), ids[i], t, runs));
      cruns := cruns + [runs];
      totals := Add(totals, campaignTotals);
    }
    ghost var L2, C2 := store.log, store.content;
    cleanupOks := Cleanup(store, ids, t);
    DidTrans(old(store.log), old(store.content), L2, C2, store.log, store.content,
             ImportWrites(ids, galaxy, t, cruns), CleanupWrites(ids, t, cleanupOks));
    out := Success(SuccessMessage, Stats(|ids|, totals.series, totals.episodes, totals.free, t));
  }

  // ---------------------------------------------------------------------
  // The free-marker rule

  /** Some request of the sequence is the upsert of marker m. */
  predicate RequestsMarker(writes: seq<Attempt>, m: FreeMarker)
  {
    exists k :: 0 <= k < |writes| && writes[k].write == UpsertFree(m)
  }

  lemma RequestsMarkerAppend(a: seq<Attempt>, b: seq<Attempt>, m: FreeMarker)
    ensures RequestsMarker(a + b, m) <==> RequestsMarker(a, m) || RequestsMarker(b, m)
  {
    if RequestsMarker(a + b, m) {
      var k :| 0 <= k < |a + b| && (a + b)[k].write == UpsertFree(m);
      if k >= |a| {
        assert b[k - |a|].write == UpsertFree(m);
      }
    }
    if RequestsMarker(a, m) {
      var k :| 0 <= k < |a| && a[k].write == UpsertFree(m);
      assert (a + b)[k] == a[k];
    }
    if RequestsMarker(b, m) {
      var k :| 0 <= k < |b| && b[k].write == UpsertFree(m);
      assert (a + b)[|a| + k] == b[k];
    }
  }

  /** The episode at index i of the list earns a marker for m. */
  predicate EarnsMarker(eps: seq<GalaxyEpisode>, campaign: string, t: int, runs: seq<EpisodeRun>, i: int, m: FreeMarker)
    requires 0 <= i < |runs| <= |eps|
  {
    m == FreeMarker(eps[i].id, campaign) && runs[i].ok && IsFree(eps[i].position, t)
  }

  /** importEpisodesData requests a free marker exactly for the episodes
      whose own upsert was accepted and whose position is within the
      threshold, and for no other marker. */
  lemma {:induction false} MarkerRequestedIff(eps: seq<GalaxyEpisode>, campaign: string, t: int, runs: seq<EpisodeRun>, m: FreeMarker)
    requires |runs| <= |eps|
    ensures RequestsMarker(EpisodesWrites(eps, campaign, t, runs), m) <==>
            exists i :: 0 <= i < |runs| && EarnsMarker(eps, campaign, t, runs, i, m)
  {
    if runs != [] {
      var n := |runs| - 1;
      var init := runs[..n];
      MarkerRequestedIff(eps, campaign, t, init, m);
      var last := EpisodeWrites(eps[n], campaign, t, runs[n]);
      RequestsMarkerAppend(EpisodesWrites(eps, campaign, t, init), last, m);
      assert RequestsMarker(last, m) <==> EarnsMarker(eps, campaign, t, runs, n, m) by {
        if RequestsMarker(last, m) {
          var k :| 0 <= k < |last| && last[k].write == UpsertFree(m);
          assert k == 1;
        }
        if EarnsMarker(eps, campaign, t, runs, n, m) {
          assert last[1].write == UpsertFree(m);
        }
      }
      if exists i :: 0 <= i < |runs| && EarnsMarker(eps, campaign, t, runs, i, m) {
        var i :| 0 <= i < |runs| && EarnsMarker(eps, campaign, t, runs, i, m);
        if i < n {
          assert EarnsMarker(eps, campaign, t, init, i, m);
        }
      }
      if exists i :: 0 <= i < |init| && EarnsMarker(eps, campaign, t, init, i, m) {
        var i :| 0 <= i < |init| && EarnsMarker(eps, campaign, t, init, i, m);
        assert EarnsMarker(eps, campaign, t, runs, i, m);
      }
    }
  }

  // ---------------------------------------------------------------------
  // The order of the requests of one series

  /** Every request of the sequence satisfies p. */
  predicate AllWrites(writes: seq<Attempt>, p: Write -> bool)
  {
    forall k :: 0 <= k < |writes| ==> p(writes[k].write)
  }

  lemma AllWritesAppend(a: seq<Attempt>, b: seq<Attempt>, p: Write -> bool)
    requires AllWrites(a, p) && AllWrites(b, p)
    ensures AllWrites(a + b, p)
  {
    forall k | 0 <= k < |a + b|
      ensures p((a + b)[k].write)
    {
      if k >= |a| {
        assert (a + b)[k] == b[k - |a|];
      }
    }
  }

  predicate EpisodeLevel(w: Write)
  {
    w.UpsertEpisode? || w.UpsertFree?
  }

  predicate RubricLevel(w: Write)
  {
    w.UpsertRubric?
  }

  lemma {:induction false} EpisodesWritesLevel(eps: seq<GalaxyEpisode>, campaign: string, t: int, runs: seq<EpisodeRun>)
    requires |runs| <= |eps|
    ensures AllWrites(EpisodesWrites(eps, campaign, t, runs), EpisodeLevel)
  {
    if runs != [] {
      var n := |runs| - 1;
      EpisodesWritesLevel(eps, campaign, t, runs[..n]);
      AllWritesAppend(EpisodesWrites(eps, campaign, t, runs[..n]), EpisodeWrites(eps[n], campaign, t, runs[n]), EpisodeLevel);
    }
  }

  lemma {:induction false} RubricWritesLevel(serieId: int, rubrics: seq<int>, campaign: string, oks: seq<bool>)
    requires |oks| <= |rubrics|
    ensures AllWrites(RubricWrites(serieId, rubrics, campaign, oks), RubricLevel)
  {
    if oks != [] {
      var n := |oks| - 1;
      RubricWritesLevel(serieId, rubrics, campaign, oks[..n]);
      AllWritesAppend(RubricWrites(serieId, rubrics, campaign, oks[..n]),
                      [Attempt(UpsertRubric(RubricLink(serieId, rubrics[n], campaign)), oks[n])], RubricLevel);
    }
  }

  /** importSeriesData writes the series row first, and only once; nothing
      follows a refused series upsert; after the first rubric link only
      rubric links follow. */
  lemma SeriesWritesOrder(s: GalaxySeries, campaign: string, t: int, run: SeriesRun)
    requires SeriesFits(s, run)
    ensures var w := SeriesWrites(s, campaign, t, run);
      && w[0] == Attempt(UpsertSeries(SeriesRowOf(s, campaign)), run.seriesOk)
      && (!run.seriesOk ==> |w| == 1)
      && (forall k :: 1 <= k < |w| ==> !w[k].write.UpsertSeries?)
      && (forall j, k :: 0 <= j < k < |w| && RubricLevel(w[j].write) ==> RubricLevel(w[k].write))
  {
    if run.seriesOk && s.episodes.Some? {
      var e := EpisodesWrites(s.episodes.value, campaign, t, run.episodes);
      var r := if s.rubrics.Some? then RubricWrites(s.id, s.rubrics.value, campaign, run.rubricOks) else [];
      assert AllWrites(r, RubricLevel) by {
        if s.rubrics.Some? {
          RubricWritesLevel(s.id, s.rubrics.value, campaign, run.rubricOks);
        }
      }
      EpisodesWritesLevel(s.episodes.value, campaign, t, run.episodes);
      var first := Attempt(UpsertSeries(SeriesRowOf(s, campaign)), run.seriesOk);
      assert SeriesWrites(s, campaign, t, run) == [first] + (e + r);
      LayeredWrites(first, e, r);
    }
  }

  /** A series request, then episode-level requests, then rubric links. */
  lemma LayeredWrites(first: Attempt, e: seq<Attempt>, r: seq<Attempt>)
    requires first.write.UpsertSeries? && AllWrites(e, EpisodeLevel) && AllWrites(r, RubricLevel)
    ensures var w := [first] + (e + r);
      && (forall k :: 1 <= k < |w| ==> !w[k].write.UpsertSeries?)
      && (forall j, k :: 0 <= j < k < |w| && RubricLevel(w[j].write) ==> RubricLevel(w[k].write))
  {
    var w := [first] + (e + r);
    forall k | 1 <= k < |w|
      ensures !w[k].write.UpsertSeries?
      ensures k <= |e| ==> EpisodeLevel(w[k].write)
      ensures k > |e| ==> RubricLevel(w[k].write)
    {
      assert w[k] == (e + r)[k - 1];
      if k <= |e| {
        assert (e + r)[k - 1] == e[k - 1];
      } else {
        assert (e + r)[k - 1] == r[k - 1 - |e|];
      }
    }
  }

  // ---------------------------------------------------------------------
  // Each campaign writes only its own rows

  /** The campaign whose rows a request touches. */
  function WriteCampaign(w: Write): string
  {
    match w
    case UpsertSeries(r) => r.campaignId
    case UpsertEpisode(r) => r.campaignId
    case UpsertFree(m) => m.campaignId
    case UpsertRubric(l) => l.campaignId
    case DeleteFree(c) => c
    case DeleteUnqualified(c, _) => c
  }

  predicate AllFor(writes: seq<Attempt>, campaign: string)
  {
    forall k :: 0 <= k < |writes| ==> WriteCampaign(writes[k].write) == campaign
  }

  lemma AllForAppend(a: seq<Attempt>, b: seq<Attempt>, campaign: string)
    requires AllFor(a, campaign) && AllFor(b, campaign)
    ensures AllFor(a + b, campaign)
  {
    forall k | 0 <= k < |a + b|
      ensures WriteCampaign((a + b)[k].write) == campaign
    {
      if k >= |a| {
        assert (a + b)[k] == b[k - |a|];
      }
    }
  }

  lemma {:induction false} EpisodesWritesFor(eps: seq<GalaxyEpisode>, campaign: string, t: int, runs: seq<EpisodeRun>)
    requires |runs| <= |eps|
    ensures AllFor(EpisodesWrites(eps, campaign, t, runs), campaign)
  {
    if runs != [] {
      var n := |runs| - 1;
      EpisodesWritesFor(eps, campaign, t, runs[..n]);
      AllForAppend(EpisodesWrites(eps, campaign, t, runs[..n]), EpisodeWrites(eps[n], campaign, t, runs[n]), campaign);
    }
  }

  lemma {:induction false} RubricWritesFor(serieId: int, rubrics: seq<int>, campaign: string, oks: seq<bool>)
    requires |oks| <= |rubrics|
    ensures AllFor(RubricWrites(serieId, rubrics, campaign, oks), campaign)
  {
    if oks != [] {
      var n := |oks| - 1;
      RubricWritesFor(serieId, rubrics, campaign, oks[..n]);
      AllForAppend(RubricWrites(serieId, rubrics, campaign, oks[..n]),
                   [Attempt(UpsertRubric(RubricLink(serieId, rubrics[n], campaign)), oks[n])], campaign);
    }
  }

  lemma SeriesWritesFor(s: GalaxySeries, campaign: string, t: int, run: SeriesRun)
    requires SeriesFits(s, run)
    ensures AllFor(SeriesWrites(s, campaign, t, run), campaign)
  {
    var first := [Attempt(UpsertSeries(SeriesRowOf(s, campaign)), run.seriesOk)];
    if run.seriesOk && s.episodes.Some? {
      var e := EpisodesWrites(s.episodes.value, campaign, t, run.episodes);
      var r := if s.rubrics.Some? then RubricWrites(s.id, s.rubrics.value, campaign, run.rubricOks) else [];
      EpisodesWritesFor(s.episodes.value, campaign, t, run.episodes);
      if s.rubrics.Some? {
        RubricWritesFor(s.id, s.rubrics.value, campaign, run.rubricOks);
      }
      AllForAppend(e, r, campaign);
      AllForAppend(first, e + r, campaign);
    }
  }

  lemma {:induction false} SeriesListWritesFor(list: seq<GalaxySeries>, campaign: string, t: int, runs: seq<SeriesRun>)
    requires SeriesRunsFit(list, runs)
    ensures AllFor(SeriesListWrites(list, campaign, t, runs), campaign)
  {
    if runs != [] {
      var n := |runs| - 1;
      SeriesListWritesFor(list, campaign, t, runs[..n]);
      SeriesWritesFor(list[n], campaign, t, runs[n]);
      AllForAppend(SeriesListWrites(list, campaign, t, runs[..n]), SeriesWrites(list[n], campaign, t, runs[n]), campaign);
    }
  }

  /** Every request sent while importing a campaign carries that campaign's
      id. */
  lemma CampaignWritesFor(resp: GalaxyResponse, campaign: string, t: int, runs: seq<SeriesRun>)
    requires CampaignFits(resp, runs)
    ensures AllFor(CampaignWrites(resp, campaign, t, runs), campaign)
  {
    if resp.Response? && resp.data.Some? {
      SeriesListWritesFor(resp.data.value, campaign, t, runs);
    }
  }

  // ---------------------------------------------------------------------
  // The cleanup pass

  /** Marker m lies in the range of an accepted cleanup request: a positive
      episode id and a campaign whose delete was accepted. */
  predicate InDeletedRange(campaigns: seq<string>, oks: seq<bool>, m: FreeMarker)
    requires |oks| <= |campaigns|
  {
    m.episodeId > 0 && exists i :: 0 <= i < |oks| && oks[i] && campaigns[i] == m.campaignId
  }

  lemma InDeletedRangeSnoc(campaigns: seq<string>, oks: seq<bool>, ok: bool, m: FreeMarker)
    requires |oks| < |campaigns|
    ensures InDeletedRange(campaigns, oks + [ok], m) <==>
            InDeletedRange(campaigns, oks, m) || (ok && m.episodeId > 0 && campaigns[|oks|] == m.campaignId)
  {
    var o := oks + [ok];
    if InDeletedRange(campaigns, o, m) {
      var i :| 0 <= i < |o| && o[i] && campaigns[i] == m.campaignId;
      if i < |oks| {
        assert oks[i];
      }
    }
    if InDeletedRange(campaigns, oks, m) {
      var i :| 0 <= i < |oks| && oks[i] && campaigns[i] == m.campaignId;
      assert o[i];
    }
    if ok && m.episodeId > 0 && campaigns[|oks|] == m.campaignId {
      assert o[|oks|];
    }
  }

  lemma InDeletedRangeCampaign(campaigns: seq<string>, oks: seq<bool>, m: FreeMarker)
    requires |oks| <= |campaigns|
    ensures InDeletedRange(campaigns, oks, m) ==> m.campaignId in campaigns
  {
    if InDeletedRange(campaigns, oks, m) {
      var i :| 0 <= i < |oks| && oks[i] && campaigns[i] == m.campaignId;
      assert campaigns[i] in campaigns;
    }
  }

  /** One as-written delete request. */
  lemma DeleteFreeStep(c: Content, id: string, ok: bool, m: FreeMarker)
    ensures var d := Apply(c, Attempt(DeleteFree(id), ok));
      && d.series == c.series && d.episodes == c.episodes && d.rubrics == c.rubrics
      && (m in d.free <==> m in c.free && !(ok && m.episodeId > 0 && id == m.campaignId))
  {
  }

  /** cleanupOldFreeEpisodes as written removes every marker with a positive
      episode id of each campaign whose delete was accepted, whatever the
      episode's position; the markers of other campaigns and the other
      tables are untouched. */
  lemma {:induction false} CleanupAsWrittenEffect(c: Content, campaigns: seq<string>, oks: seq<bool>, m: FreeMarker)
    requires |oks| <= |campaigns|
    ensures var d := Replay(c, CleanupAsWrittenWrites(campaigns, oks));
      && d.series == c.series && d.episodes == c.episodes && d.rubrics == c.rubrics
      && (m in d.free <==> m in c.free && !InDeletedRange(campaigns, oks, m))
      && (m.campaignId !in campaigns ==> (m in d.free <==> m in c.free))
  {
    if oks != [] {
      var n := |oks| - 1;
      var init := oks[..n];
      CleanupAsWrittenEffect(c, campaigns, init, m);
      assert oks == init + [oks[n]];
      InDeletedRangeSnoc(campaigns, init, oks[n], m);
      var before := CleanupAsWrittenWrites(campaigns, init);
      ReplaySnoc(c, before, Attempt(DeleteFree(campaigns[n]), oks[n]));
      DeleteFreeStep(Replay(c, before), campaigns[n], oks[n], m);
    }
    InDeletedRangeCampaign(campaigns, oks, m);
  }

  /** The cleanup as written removes a marker the import has just upserted
      for an episode at position 1, with the default threshold of 3. */
  lemma CleanupAsWrittenDropsFreeEpisode()
    ensures var row := EpisodeRow(1, 7, 1, 1, None, "c", None, None, None, None, None);
            var m := FreeMarker(7, "c");
            var c := Content(map[], map[EpisodeKey(row) := row], {m}, {});
            && Qualifies(c.episodes, m, DefaultFreeEpisodes)
            && m !in Replay(c, CleanupAsWrittenWrites(["c"], [true])).free
  {
    var row := EpisodeRow(1, 7, 1, 1, None, "c", None, None, None, None, None);
    var m := FreeMarker(7, "c");
    var c := Content(map[], map[EpisodeKey(row) := row], {m}, {});
    assert c.episodes[EpisodeKey(row)] == row;
    CleanupAsWrittenEffect(c, ["c"], [true], m);
    assert [true][0];
  }

  /** One corrected delete request. */
  lemma DeleteUnqualifiedStep(c: Content, id: string, t: int, ok: bool, m: FreeMarker)
    ensures var d := Apply(c, Attempt(DeleteUnqualified(id, t), ok));
      && d.series == c.series && d.episodes == c.episodes && d.rubrics == c.rubrics
      && (m in d.free <==> m in c.free && !(ok && m.episodeId > 0 && id == m.campaignId && !Qualifies(c.episodes, m, t)))
  {
  }

  /** The corrected cleanup removes a marker of an accepted campaign's range
      only when its episode no longer qualifies under the threshold, so
      every qualifying marker is kept; other campaigns and the other tables
      are untouched. */
  lemma {:induction false} CleanupEffect(c: Content, campaigns: seq<string>, t: int, oks: seq<bool>, m: FreeMarker)
    requires |oks| <= |campaigns|
    ensures var d := Replay(c, CleanupWrites(campaigns, t, oks));
      && d.series == c.series && d.episodes == c.episodes && d.rubrics == c.rubrics
      && (m in d.free <==> m in c.free && !(InDeletedRange(campaigns, oks, m) && !Qualifies(c.episodes, m, t)))
      && (m in c.free && Qualifies(c.episodes, m, t) ==> m in d.free)
      && (m.campaignId !in campaigns ==> (m in d.free <==> m in c.free))
  {
    if oks != [] {
      var n := |oks| - 1;
      var init := oks[..n];
      CleanupEffect(c, campaigns, t, init, m);
      assert oks == init + [oks[n]];
      InDeletedRangeSnoc(campaigns, init, oks[n], m);
      var before := CleanupWrites(campaigns, t, init);
      ReplaySnoc(c, before, Attempt(DeleteUnqualified(campaigns[n], t), oks[n]));
      DeleteUnqualifiedStep(Replay(c, before), campaigns[n], t, oks[n], m);
    }
    InDeletedRangeCampaign(campaigns, oks, m);
  }

  // ---------------------------------------------------------------------
  // The statistics

  /** A campaign's counts depend only on which of its series completed. */
  lemma CampaignTotalsIgnoreOutcomes(resp: GalaxyResponse, t: int, r1: seq<SeriesRun>, r2: seq<SeriesRun>)
    requires CampaignFits(resp, r1) && CampaignFits(resp, r2) && |r1| == |r2|
    requires r1 != [] ==> r1[|r1| - 1].seriesOk == r2[|r2| - 1].seriesOk
    ensures CampaignTotals(resp, t, r1) == CampaignTotals(resp, t, r2)
  {
  }

  /** The counts depend on which series completed and on what the Galaxy API
      listed, not on the fate of the episode, marker or rubric upserts. */
  lemma {:induction false} TotalsIgnoreEpisodeOutcomes(campaigns: seq<string>, galaxy: string -> GalaxyResponse, t: int,
                                                       cruns: seq<seq<SeriesRun>>, cruns2: seq<seq<SeriesRun>>)
    requires RunsFit(campaigns, galaxy, cruns) && RunsFit(campaigns, galaxy, cruns2) && |cruns| == |cruns2|
    requires forall i :: 0 <= i < |cruns| ==> |cruns[i]| == |cruns2[i]|
    requires forall i, k :: 0 <= i < |cruns| && 0 <= k < |cruns[i]| && k < |cruns2[i]| ==> cruns[i][k].seriesOk == cruns2[i][k].seriesOk
    ensures ImportTotals(campaigns, galaxy, t, cruns) == ImportTotals(campaigns, galaxy, t, cruns2)
  {
    if cruns != [] {
      var n := |cruns| - 1;
      var i1, i2 := cruns[..n], cruns2[..n];
      assert RunsFit(campaigns, galaxy, i1) && RunsFit(campaigns, galaxy, i2);
      TotalsIgnoreEpisodeOutcomes(campaigns, galaxy, t, i1, i2);
      var r1, r2 := cruns[n], cruns2[n];
      if r1 != [] {
        assert r1[|r1| - 1].seriesOk == r2[|r2| - 1].seriesOk;
      }
      CampaignTotalsIgnoreOutcomes(galaxy(campaigns[n]), t, r1, r2);
    }
  }

  /** The loop counts one series per completed series, and never more free
      episodes than episodes. */
  lemma {:induction false} SeriesTotalsBounds(list: seq<GalaxySeries>, t: int, n: nat)
    requires n <= |list|
    ensures SeriesTotals(list, t, n).series == n
    ensures SeriesTotals(list, t, n).free <= SeriesTotals(list, t, n).episodes
  {
    if n > 0 {
      SeriesTotalsBounds(list, t, n - 1);
    }
  }
}

# A verified model of the backoffice's logic

The repository is the back office of a streaming and gamification
platform: React screens over a Supabase database, and three Supabase edge
functions. This project models in Dafny the parts of it that hold logic
rather than plumbing, and proves properties of that model:

- **`gamification-translation`** fills in translations from the rows that
  already exist. It groups the rows by event and picks a source row per
  event (French, else English, else the first row seen). It generates mock
  translations for the missing target languages and inserts them in slices
  of 50, stopping at the first refused slice (`GamificationTranslation`).
- **`event-gamification-translation`** works from the event list. For every
  event and target language whose "event-language" key is absent, it
  inserts a mock translation of French text built from the event type. One
  request is sent per row, and a refused insert is passed over
  (`EventGamificationTranslation`, over the shared table of
  `TranslationStore`).
- **`galaxy-import-3`** imports series, episodes and series-rubric links for
  every campaign. It marks an episode as free when its position is at most
  the configured count (3 by default), isolates failures per episode, rubric
  and campaign, counts statistics and runs a cleanup pass over the free
  markers (`GalaxyImport`).
- **The trouple screen** runs an ordered cascade of deletes across five
  content tables and then the campaign-country-language row, stopping at
  the first refusal. It lower-cases codes on save and looks up country and
  language names (`TroupleManager`).
- **The event-translations screen** has a sort state machine and its
  comparator, four conjunctive filters, grouping by category, a bulk delete
  of English rows and name lookups (`EventTranslationsManager`).
- **The translation service** provides mock translation, a batch of
  translations, language names, the supported codes and a singleton
  accessor (`TranslationService`).
- **The other screens** show list filters, duplicate-free option lists,
  campaign and role display rules, duration formatting, dashboard counts,
  the free-episodes setting (load, clamp, save), and the save payloads of
  events, admin users (hashing passwords; a blank password on edit leaves
  the hash alone) and product features.

Database tables are fields of classes (of type `seq` or `map`). Every remote
request is a method whose success is chosen nondeterministically; it
changes the state only when it succeeds. Where the order of requests or the
point of abort matters, a ghost log records every request sent and whether
it was accepted. `Common` holds the models of the JavaScript built-ins the
code relies on:
- `toLowerCase` and `toUpperCase` on ASCII;
- the white space that `trim` and `parseInt` skip;
- `includes`, `trim`, `slice`, `parseInt`, `String(n)`, `filter`, `map`,
  `find` and `new Set`;
- `localeCompare` and `sort`.

## Model

| member | source | states |
|---|---|---|
| GamificationTranslation.TargetCodesDistinct | supabase/functions/gamification-translation/index.ts:8-39 | the function's table has 30 codes, pairwise distinct |
| GamificationTranslation.TranslateBatch | supabase/functions/gamification-translation/index.ts:60-79 | one mock translation per text, in input order, each starting with its input text |
| GamificationTranslation.GroupLanguages | supabase/functions/gamification-translation/index.ts:127-134 | the map built in the first pass has exactly the events of the rows as keys, each with the set of its language codes |
| GamificationTranslation.ChooseSources | supabase/functions/gamification-translation/index.ts:136-147 | the second pass yields the events in order of first appearance and, per event, the source row chosen by preference |
| GamificationTranslation.SourcePreference | supabase/functions/gamification-translation/index.ts:136-147 | the chosen source is a French row if the event has one, else an English row, else its first row; an event has a source exactly when it has a row |
| GamificationTranslation.MissingLanguagesSpec | supabase/functions/gamification-translation/index.ts:162-168 | the languages to translate are exactly the target codes the event lacks, in table order |
| GamificationTranslation.TranslateEvent | supabase/functions/gamification-translation/index.ts:179-212 | the inner loop appends one translated row per missing language, in order |
| GamificationTranslation.GenerateMissing | supabase/functions/gamification-translation/index.ts:157-213 | the loop over events yields the generated rows, a created counter equal to their number, and the count of events skipped because nothing was missing |
| GamificationTranslation.PlanTranslations | supabase/functions/gamification-translation/index.ts:127-213 | everything before the inserts produces the specified new rows and statistics |
| GamificationTranslation.NewTranslationsExactly | supabase/functions/gamification-translation/index.ts:157-195 | a row is generated iff its event has rows, its language is a target the event lacks, and it is the translation of the event's source row |
| GamificationTranslation.NewTranslationsAreNew | supabase/functions/gamification-translation/index.ts:162-168 | no generated row repeats an (event, language) pair of the table |
| GamificationTranslation.NewTranslationsComplete | supabase/functions/gamification-translation/index.ts:157-195 | after a run every event of the table has every target language |
| GamificationTranslation.NewTranslationsDistinct | supabase/functions/gamification-translation/index.ts:157-195 | one run never generates two rows for the same pair |
| GamificationTranslation.RunKeepsPairsUnique | supabase/functions/gamification-translation/index.ts:157-249 | a table with unique pairs keeps unique pairs after a run |
| GamificationTranslation.RerunCreatesNothing | supabase/functions/gamification-translation/index.ts:162-176 | rerunning on the completed table generates nothing and skips every event |
| GamificationTranslation.RerunStats | supabase/functions/gamification-translation/index.ts:252-263 | the statistics of that rerun: every event processed and skipped, nothing created, no batch |
| GamificationTranslation.SlicesShape | supabase/functions/gamification-translation/index.ts:217-223 | the rows are cut into ceil(n/50) slices of 1 to 50 rows |
| GamificationTranslation.SlicesFlatten | supabase/functions/gamification-translation/index.ts:222-223 | the slices concatenate back to the generated rows |
| GamificationTranslation.InsertInBatches | supabase/functions/gamification-translation/index.ts:217-249 | one insert per slice in order; on a refusal the earlier slices stay inserted and later ones are not attempted |
| GamificationTranslation.Run | supabase/functions/gamification-translation/index.ts:101-263 | missing configuration or a failed read writes nothing; success inserts exactly the new rows, slice by slice, with the specified statistics and message; a refused slice leaves a prefix of whole slices inserted |
| TranslationStore.Table.Insert | supabase/functions/gamification-translation/index.ts:227-245 | an insert request adds all rows of its batch or none, and is logged with its outcome |
| TranslationStore.Table.Select | supabase/functions/event-gamification-translation/index.ts:126-134 | a successful read returns every row of the table |
| EventGamificationTranslation.BatchTranslate | supabase/functions/event-gamification-translation/index.ts:56-66 | one translation per text, in order |
| EventGamificationTranslation.BuildRow | supabase/functions/event-gamification-translation/index.ts:150-187 | the row for an event and language is built from French text synthesised from the event type, never from existing rows |
| EventGamificationTranslation.TranslateEvent | supabase/functions/event-gamification-translation/index.ts:159-207 | the language loop sends one insert per absent key, in target order, counts accepted inserts as created and counts present keys |
| EventGamificationTranslation.TranslateEvents | supabase/functions/event-gamification-translation/index.ts:145-215 | the event loop sends the inserts of every event in order, with the same counts over all events |
| EventGamificationTranslation.Run | supabase/functions/event-gamification-translation/index.ts:83-232 | missing configuration or a failed read of events or translations aborts before any insert; no events gives the no-events answer; otherwise every candidate is sent once, the accepted ones are added, every event is processed and created counts the accepted inserts; skippedExisting is reported as written, events × languages − created, which is the present keys plus the failed inserts (see Findings) |
| EventGamificationTranslation.CandidatesExactly | supabase/functions/event-gamification-translation/index.ts:136-187 | a row is attempted iff its event-language key was absent at the start, and it is that event's French-based row |
| EventGamificationTranslation.CandidatesAreNew | supabase/functions/event-gamification-translation/index.ts:136-166 | no attempted row repeats the pair of a row read at the start |
| EventGamificationTranslation.CandidatesCount | supabase/functions/event-gamification-translation/index.ts:159-207 | attempted plus present equals events times target languages |
| EventGamificationTranslation.CandidatesNone | supabase/functions/event-gamification-translation/index.ts:160-166 | when every key is present nothing is attempted |
| EventGamificationTranslation.RerunAttemptsNothing | supabase/functions/event-gamification-translation/index.ts:136-187 | once every attempted insert succeeded, a second run attempts nothing |
| EventGamificationTranslation.SkippedAsWrittenCountsFailures | supabase/functions/event-gamification-translation/index.ts:217-222 | the stat as written equals the present keys plus the failed inserts, and exceeds the present keys iff an insert failed |
| EventGamificationTranslation.SkippedAsWrittenExample | supabase/functions/event-gamification-translation/index.ts:217-222 | with no existing row and every insert failing, the stat as written reports every language as skipped |
| EventGamificationTranslation.SkippedCorrected | supabase/functions/event-gamification-translation/index.ts:217-222 | the corrected stat, the number of present keys, equals events times languages minus the attempted inserts |
| GalaxyImport.FreeEpisodesCount | supabase/functions/galaxy-import-3/index.ts:44-67 | the threshold is the stored count when one row holds a non-zero count, and 3 on a read error, a missing row or a missing or zero count |
| GalaxyImport.StringOrNull | supabase/functions/galaxy-import-3/index.ts:117-118 | `|| null` turns a missing or empty string into null and keeps any other |
| GalaxyImport.NumberOrNull | supabase/functions/galaxy-import-3/index.ts:154-160 | `|| null` turns a missing or zero number into null and keeps any other |
| GalaxyImport.ContentStore.Perform | supabase/functions/galaxy-import-3/index.ts:111-226 | one upsert or delete request, logged with its outcome, changes the content only when accepted |
| GalaxyImport.ImportEpisodes | supabase/functions/galaxy-import-3/index.ts:136-190 | one upsert per episode, in order; a refused episode is skipped; an accepted free episode is followed by its marker upsert, whose refusal changes nothing else |
| GalaxyImport.ImportRubrics | supabase/functions/galaxy-import-3/index.ts:192-212 | one link upsert per rubric, in order; a refused one is skipped |
| GalaxyImport.ImportSeries | supabase/functions/galaxy-import-3/index.ts:107-134 | the series upsert, then its episodes, then its rubric links; a refused series upsert, missing episodes or missing rubrics end the series as not completed |
| GalaxyImport.ImportCampaign | supabase/functions/galaxy-import-3/index.ts:286-313 | a failed fetch or a response without a list imports nothing; otherwise series in order until one does not complete; the totals are those of the completed series |
| GalaxyImport.Cleanup | supabase/functions/galaxy-import-3/index.ts:214-230 | one delete per campaign (corrected rule, see Findings); a refused delete is passed over |
| GalaxyImport.Run | supabase/functions/galaxy-import-3/index.ts:232-329 | a missing token answers with an error and writes nothing; no campaigns answers with failure and writes nothing; otherwise one threshold is read, every campaign is imported in turn, then the corrected cleanup (see Findings) runs |
| GalaxyImport.MarkerRequestedIff | supabase/functions/galaxy-import-3/index.ts:164-173 | a free marker is requested iff the episode's own upsert was accepted and its position is at most the threshold |
| GalaxyImport.SeriesWritesOrder | supabase/functions/galaxy-import-3/index.ts:111-133 | the series row is written first and once, nothing follows its refusal, and after the first rubric link only rubric links follow |
| GalaxyImport.CampaignWritesFor | supabase/functions/galaxy-import-3/index.ts:107-212 | every request sent for a campaign carries that campaign's id |
| GalaxyImport.CampaignTotalsIgnoreOutcomes | supabase/functions/galaxy-import-3/index.ts:295-304 | a campaign's counts depend only on which series completed |
| GalaxyImport.TotalsIgnoreEpisodeOutcomes | supabase/functions/galaxy-import-3/index.ts:286-304 | the run's counts do not depend on episode, marker or rubric upsert outcomes |
| GalaxyImport.SeriesTotalsBounds | supabase/functions/galaxy-import-3/index.ts:295-304 | one series counted per completed series, and never more free episodes than episodes |
| GalaxyImport.CleanupAsWrittenEffect | supabase/functions/galaxy-import-3/index.ts:219-226 | the cleanup as written removes every marker with a positive episode id of each accepted campaign, whatever its position; other campaigns and tables are untouched |
| GalaxyImport.CleanupAsWrittenDropsFreeEpisode | supabase/functions/galaxy-import-3/index.ts:219-226 | the cleanup as written removes the marker of an episode at position 1 under the default threshold |
| GalaxyImport.CleanupEffect | supabase/functions/galaxy-import-3/index.ts:214-226 | the corrected cleanup removes only markers whose episode no longer qualifies, keeps every qualifying marker, and touches nothing else |
| TroupleManager.DeleteCampaignRowsEffect | src/components/trouple/TroupleManager.tsx:385-433 | one step removes from its table exactly the rows of the campaign, keeps the rest in order, and leaves the other tables alone |
| TroupleManager.Database.DeleteContentRows | src/components/trouple/TroupleManager.tsx:382-439 | a content delete is logged with its outcome and applied only when accepted |
| TroupleManager.DeleteCampaignContent | src/components/trouple/TroupleManager.tsx:382-439 | the five content deletes in fixed order; the first refusal ends the sequence and earlier deletions remain |
| TroupleManager.HandleDelete | src/components/trouple/TroupleManager.tsx:371-457 | nothing happens without confirmation; otherwise the cascade runs and the parent row is removed only when all five content deletes were accepted |
| TroupleManager.CascadeLogShape | src/components/trouple/TroupleManager.tsx:382-447 | the log of a cascade holds the accepted steps in order, then the one refused request if there was one |
| TroupleManager.ParentDeletedLast | src/components/trouple/TroupleManager.tsx:442-447 | an accepted parent delete comes last, after five accepted content deletes, and a refusal is always the last request |
| TroupleManager.SavePayload | src/components/trouple/TroupleManager.tsx:330-350 | both codes are stored lower-cased and otherwise equal ignoring case; the campaign id passes unchanged |
| TroupleManager.SavePayloadIdempotent | src/components/trouple/TroupleManager.tsx:330-350 | saving a saved payload again stores the same codes |
| TroupleManager.HandleSave | src/components/trouple/TroupleManager.tsx:322-369 | an edit updates the row with the payload, a create inserts it, each only when accepted |
| TroupleManager.CountryName | src/components/trouple/TroupleManager.tsx:479-483 | '-' for null or empty; else the name of the first country matching the lower-cased code; else the upper-cased code |
| TroupleManager.LanguageName | src/components/trouple/TroupleManager.tsx:485-489 | '-' for null or empty; else the name of the first language matching the code as written; else the upper-cased code |
| TroupleManager.CountryNameIgnoresCase | src/components/trouple/TroupleManager.tsx:479-483 | codes equal ignoring case give the same country name |
| TroupleManager.LanguageNameIsCaseSensitive | src/components/trouple/TroupleManager.tsx:485-489 | a code missing from the table is shown upper-cased even when its lower-cased form is in the table, and that form is shown by its first entry's name |
| TroupleManager.LanguageNameCaseExample | src/components/trouple/TroupleManager.tsx:485-489 | on the screen's table "en" is English while "EN" is shown as "EN" |
| TroupleManager.FilteredTrouples | src/components/trouple/TroupleManager.tsx:491-500 | a subsequence holding exactly the rows matching the search; an empty search keeps every row |
| EventTranslationsManager.SortState.HandleSort | src/components/gamification/EventTranslationsManager.tsx:103-110 | a click on the sorted column flips the direction; on another column it sorts by that column ascending |
| EventTranslationsManager.SortDataSpec | src/components/gamification/EventTranslationsManager.tsx:112-158 | sortData returns a permutation of its input ordered by the comparator; the sort is stable, so rows that tie keep their input order, and an unknown column keeps the whole input order |
| EventTranslationsManager.DescendingIsNegatedAscending | src/components/gamification/EventTranslationsManager.tsx:146-156 | for every column the descending comparison is the negated ascending one |
| EventTranslationsManager.CompareIsTotalPreorder | src/components/gamification/EventTranslationsManager.tsx:112-158 | the comparator is a total preorder in every column and direction |
| EventTranslationsManager.SortValueKinds | src/components/gamification/EventTranslationsManager.tsx:114-141 | both values of a known column are of the same kind (text or time) |
| EventTranslationsManager.FilteredTranslationsSpec | src/components/gamification/EventTranslationsManager.tsx:375-392 | a subsequence of exactly the rows passing the search, event, language and category filters; no filter keeps every row |
| EventTranslationsManager.CategoryFilterNeedsEvent | src/components/gamification/EventTranslationsManager.tsx:388-389 | a category filter excludes rows of unknown events, and '' never matches an event without category |
| EventTranslationsManager.EventTitle | src/components/gamification/EventTranslationsManager.tsx:331-334 | the type of the first event with the id, or "Unknown Event" |
| EventTranslationsManager.CategoryName | src/components/gamification/EventTranslationsManager.tsx:336-340 | "Uncategorized" for null, the first matching category's name, or "Unknown Category" |
| EventTranslationsManager.LanguageName | src/components/gamification/EventTranslationsManager.tsx:342-345 | the table name of the code, or the upper-cased code |
| EventTranslationsManager.GroupEventsByCategory | src/components/gamification/EventTranslationsManager.tsx:348-360 | the groups are keyed by the category names of the events, each holding the events with that name in order |
| EventTranslationsManager.GroupsPartitionEvents | src/components/gamification/EventTranslationsManager.tsx:348-360 | every event lies in exactly one group, the one named by its category |
| EventTranslationsManager.TranslationsByCategory | src/components/gamification/EventTranslationsManager.tsx:363-373 | per group, the rows of the group's events |
| EventTranslationsManager.TranslationsByCategorySound | src/components/gamification/EventTranslationsManager.tsx:363-373 | a row under a group belongs to an event of that group; rows of unknown events are under none |
| EventTranslationsManager.UsedLanguages | src/components/gamification/EventTranslationsManager.tsx:394 | each language code of the rows once, and no other |
| EventTranslationsManager.UsedLanguagesFirstAppearance | src/components/gamification/EventTranslationsManager.tsx:394 | the languages of the first k rows lead the list in the same order, so each language is listed where it first appears |
| EventTranslationsManager.HandleBulkDeleteEnglish | src/components/gamification/EventTranslationsManager.tsx:270-291 | no English row loaded gives a notice and no request; otherwise a confirmed, accepted delete removes the English rows and reports the loaded count |
| EventTranslationsManager.DeleteEnglishEffect | src/components/gamification/EventTranslationsManager.tsx:285-291 | the delete removes exactly the English rows, keeps the others in order, and leaves no English row |
| TranslationService.ServiceRegistry.GetInstance | src/lib/translationService.ts:78-85 | the first call creates the service; every later call returns that object |
| TranslationService.GetInstanceTwice | src/lib/translationService.ts:80-85 | two calls give the same object |
| TranslationService.SupportedCodesDistinct | src/lib/translationService.ts:17-48 | the 30 supported codes, pairwise distinct |
| TranslationService.LanguageCodes | src/lib/translationService.ts:153-155 | the codes of the table, in table order |
| TranslationService.LanguageName | src/lib/translationService.ts:147-150 | the name of the first language with the code, or else the upper-cased code |
| TranslationService.MockLookup | src/lib/translationService.ts:95-96 | a canned translation is found only under an entry for the text and the target; none when the text has no entry |
| TranslationService.GenerateMockTranslation | src/lib/translationService.ts:132-144 | a text with '_' gets "_" and the target appended; any other gets the "[DeepL-name] " prefix, name being the name of the first table entry with the code when that name is non-empty, else the raw code |
| TranslationService.TranslateText | src/lib/translationService.ts:88-112 | the canned translation when there is a non-empty one, otherwise the generated mock, with its confidence |
| TranslationService.TranslateBatch | src/lib/translationService.ts:114-130 | one result per request, in request order |
| TranslationService.TranslateBatchSplits | src/lib/translationService.ts:114-130 | requests are translated independently: a batch split in two gives the results of the halves, one after the other |
| SeriesEpisodesManager.JsRem | src/components/content/SeriesEpisodesManager.tsx:70-71 | JavaScript's `%`: the remainder takes the sign of the dividend and is Euclidean for non-negative ones |
| SeriesEpisodesManager.FormatDuration | src/components/content/SeriesEpisodesManager.tsx:67-80 | '-' for null or 0; any other duration ends in "s" |
| SeriesEpisodesManager.FormatDurationPositive | src/components/content/SeriesEpisodesManager.tsx:69-79 | hours, minutes and seconds recompose the duration, minutes and seconds are below 60, and the text is "Hh Mm Ss", "Mm Ss" or "Ss" by threshold |
| SeriesEpisodesManager.FormatDurationNegative | src/components/content/SeriesEpisodesManager.tsx:69-79 | a negative duration shows only its truncated seconds |
| SeriesEpisodesManager.FilteredEpisodes | src/components/content/SeriesEpisodesManager.tsx:49-63 | a subsequence of exactly the episodes matching the search and the campaign choice; empty search and "all" keep every one |
| SeriesEpisodesManager.UniqueCampaigns | src/components/content/SeriesEpisodesManager.tsx:65 | duplicate-free, and holds exactly the episodes' campaign ids |
| SeriesEpisodesManager.CampaignChoiceSelects | src/components/content/SeriesEpisodesManager.tsx:60-65 | an offered campaign selects at least one episode; any other value selects none |
| ContentSeriesManager.FindCampaign | src/components/content/ContentSeriesManager.tsx:66 | no campaign iff none has the id, else the first with it |
| ContentSeriesManager.CampaignDisplay | src/components/content/ContentSeriesManager.tsx:65-71 | a known campaign gives its number and, when it has a country, " - " and the upper-cased country; an unknown id gives its first 8 characters and "..." |
| ContentSeriesManager.UnknownCampaignLabel | src/components/content/ContentSeriesManager.tsx:70 | that label is 3 to 11 characters, ends in "..." and starts with a prefix of the id |
| ContentSeriesManager.FilteredSeries | src/components/content/ContentSeriesManager.tsx:72-84 | a subsequence of exactly the series matching the search and the campaign choice; empty search and "all" keep every one |
| ContentSeriesManager.CampaignOptions | src/components/content/ContentSeriesManager.tsx:137-139 | the dropdown lists, in order, exactly the campaigns some series refers to |
| ContentSeriesManager.OptionSelectsSeries | src/components/content/ContentSeriesManager.tsx:137-139 | choosing a listed campaign keeps a non-empty list, all of that campaign |
| SeriesRubricsManager.FilteredSeriesRubrics | src/components/content/SeriesRubricsManager.tsx:70-81 | a subsequence of exactly the links matching the search over series, rubric and campaign and the campaign choice; empty search and "all" keep every one |
| SeriesRubricsManager.RubricCampaignOptions | src/components/content/SeriesRubricsManager.tsx:134-136 | the dropdown lists exactly the campaigns some link refers to |
| SeriesRubricsManager.OptionLabels | src/components/content/SeriesRubricsManager.tsx:134-138 | one label per option, in order |
| SeriesRubricsManager.OptionLabelsAreKnown | src/components/content/SeriesRubricsManager.tsx:63-69 | every option is labelled by the known-campaign rule, never the unknown-id one |
| SeriesRubricsManager.OptionSelectsLinks | src/components/content/SeriesRubricsManager.tsx:134-136 | choosing a listed campaign keeps a non-empty list, all of that campaign |
| ContentRubricsManager.FilteredRubrics | src/components/content/ContentRubricsManager.tsx:41-52 | a subsequence of exactly the rubrics matching the search over name, id and campaign and the campaign choice; empty search and "all" keep every one |
| ContentRubricsManager.UniqueCampaigns | src/components/content/ContentRubricsManager.tsx:54 | duplicate-free, and holds exactly the rubrics' campaign ids |
| ContentRubricsManager.CampaignChoiceSelects | src/components/content/ContentRubricsManager.tsx:41-54 | an offered campaign selects at least one rubric; any other value selects none |
| FreeEpisodesManager.FilteredFreeEpisodes | src/components/content/FreeEpisodesManager.tsx:40-50 | a subsequence of exactly the markers matching the search over episode and campaign and the campaign choice; empty search and "all" keep every one |
| FreeEpisodesManager.UniqueCampaigns | src/components/content/FreeEpisodesManager.tsx:52 | duplicate-free, and holds exactly the markers' campaign ids |
| FreeEpisodesManager.CampaignChoiceSelects | src/components/content/FreeEpisodesManager.tsx:40-52 | an offered campaign selects at least one marker; any other value selects none |
| ProductTable.FilteredProducts | src/components/products/ProductTable.tsx:18-25 | a subsequence of exactly the products matching the search, the status and the category; empty search and "all"/"all" keep every one |
| ProductTable.Categories | src/components/products/ProductTable.tsx:27 | duplicate-free, and holds exactly the products' categories |
| FreeEpisodesSettings.SettingsScreen.constructor | src/components/settings/FreeEpisodesSettings.tsx:10 | the count starts at 3 |
| FreeEpisodesSettings.LoadedCount | src/components/settings/FreeEpisodesSettings.tsx:27-35 | a failed read keeps the count; a truthy stored count replaces it; a missing or zero one keeps it |
| FreeEpisodesSettings.SettingsScreen.LoadSettings | src/components/settings/FreeEpisodesSettings.tsx:19-41 | the count after loading follows the rule above on the single settings row read |
| FreeEpisodesSettings.ClampInput | src/components/settings/FreeEpisodesSettings.tsx:133 | the count is at least 1: the parsed value when it is at least 1, else 1 |
| FreeEpisodesSettings.ClampInputOfShownCount | src/components/settings/FreeEpisodesSettings.tsx:133 | a positive count shown in the input reads back as itself |
| FreeEpisodesSettings.SetCount | src/components/settings/FreeEpisodesSettings.tsx:48-54 | `{count: n}` goes to every row with the key; other rows are unchanged |
| FreeEpisodesSettings.SettingsScreen.HandleSave | src/components/settings/FreeEpisodesSettings.tsx:43-56 | an accepted save writes the current count to the free-episodes row only |
| FreeEpisodesSettings.SaveThenRead | src/components/settings/FreeEpisodesSettings.tsx:27-54 | a saved non-zero count is what the screen loads next and what the import reads as its threshold |
| Dashboard.StatsOf | src/components/dashboard/Dashboard.tsx:32-35 | total is the number of events, active plus inactive is the total, and the reward total is the sum of the rewards |
| Dashboard.LoadDashboard | src/components/dashboard/Dashboard.tsx:8-48 | a failed load keeps zero statistics and no recent events; otherwise the statistics and the first min(5, n) events in order |
| Dashboard.RewardsSplitByStatus | src/components/dashboard/Dashboard.tsx:32-35 | the reward total is the active events' total plus the inactive events' total |
| Dashboard.RecentIgnoresOlderRows | src/components/dashboard/Dashboard.tsx:45 | rows after the first five do not change the recent list |
| GamificationEventsManager.EventDataOf | src/components/gamification/GamificationEventsManager.tsx:108-113 | every form field kept and an empty category stored as null |
| GamificationEventsManager.FormOf | src/components/gamification/GamificationEventsManager.tsx:159-171 | the form shows the event's fields, a null category as '' |
| GamificationEventsManager.EditAndSaveUnchanged | src/components/gamification/GamificationEventsManager.tsx:108-113 | opening an event and saving it unchanged leaves the row as it was, except that a '' category becomes null |
| GamificationEventsManager.HandleSave | src/components/gamification/GamificationEventsManager.tsx:93-138 | unparsable metadata aborts with no write; otherwise an edit updates and a create inserts the normalised data, each only when accepted |
| GamificationEventsManager.ToggleEventStatus | src/components/gamification/GamificationEventsManager.tsx:187-199 | an accepted toggle writes the negated status to that event only |
| GamificationEventsManager.ToggleTwiceRestores | src/components/gamification/GamificationEventsManager.tsx:187-192 | toggling twice restores the table |
| GamificationEventsManager.CategoryName | src/components/gamification/GamificationEventsManager.tsx:87-91 | '-' for null or empty, the first matching category's name, or the raw id |
| GamificationEventsManager.FilteredEvents | src/components/gamification/GamificationEventsManager.tsx:201-214 | a subsequence of exactly the events passing search, status and category; no filter keeps every one |
| GamificationEventsManager.StatusFilterSplits | src/components/gamification/GamificationEventsManager.tsx:206-208 | "active" keeps only active events, "inactive" only inactive ones, and their sizes add up to "all" |
| GamificationEventsManager.Categories | src/components/gamification/GamificationEventsManager.tsx:216 | duplicate-free, without null or '', holding exactly the categories some event has |
| GamificationEventsManager.CoinsInput | src/components/gamification/GamificationEventsManager.tsx:441 | the parsed value, or 1 when parsing gives 0 or nothing |
| GamificationEventsManager.PositionInput | src/components/gamification/GamificationEventsManager.tsx:456 | the parsed value, or 0 when parsing gives nothing |
| GamificationEventsManager.InputsReadBackShownValues | src/components/gamification/GamificationEventsManager.tsx:441-456 | a shown non-zero reward and any shown position read back as themselves |
| AdminUserManager.NullIfEmpty | src/components/settings/AdminUserManager.tsx:81 | an empty full name is stored as null, any other as itself |
| AdminUserManager.FormOf | src/components/settings/AdminUserManager.tsx:162-172 | the form shows the user's fields with an empty password |
| AdminUserManager.EditAndSaveUnchanged | src/components/settings/AdminUserManager.tsx:76-102 | opening a user and saving unchanged never touches the hash and leaves the row as it was, except that '' as full name becomes null |
| AdminUserManager.HandleSave | src/components/settings/AdminUserManager.tsx:70-136 | an edit with a blank password calls no hash and sends no hash field; a non-blank one is hashed once and a hash error writes nothing; a create always hashes first and inserts only after a successful hash |
| AdminUserManager.ToggleUserStatus | src/components/settings/AdminUserManager.tsx:174-186 | an accepted toggle writes the negated status to that user only |
| AdminUserManager.ToggleTwiceRestores | src/components/settings/AdminUserManager.tsx:174-179 | toggling twice restores the table |
| AdminUserManager.FilteredUsers | src/components/settings/AdminUserManager.tsx:201-208 | a subsequence of exactly the users matching the search in email, name or role; an empty search keeps every one |
| AdminUserManager.RoleColor | src/components/settings/AdminUserManager.tsx:221-232 | admin and moderator have their own classes; every other role has the default |
| AdminUserManager.RoleColorDistinguishes | src/components/settings/AdminUserManager.tsx:221-232 | two roles share a badge iff they are equal or neither is admin or moderator |
| FeatureManager.FeatureDataOf | src/components/features/FeatureManager.tsx:72-106 | nothing without a selected product; otherwise the form for that product, a display order of 0 replaced by the number of listed features |
| FeatureManager.DisplayOrderOnSave | src/components/features/FeatureManager.tsx:78-82 | a new feature goes after the listed ones; an edited one keeps its non-zero order |
| FeatureManager.RenderFeatureValue | src/components/features/FeatureManager.tsx:151-170 | a boolean shows Yes iff its value is exactly 'true'; text shows as written; dates and numbers go to locale formatting |
| FeatureManager.YesNoLabel | src/components/features/FeatureManager.tsx:153-161 | "Yes" exactly for true and "No" exactly for false |
| FeatureManager.ChangeType | src/components/features/FeatureManager.tsx:329-333 | a type change sets the type, empties the value and keeps every other field |
| FeatureManager.ChangeToBooleanShowsNo | src/components/features/FeatureManager.tsx:329-333 | a form switched to boolean shows "No" |

## Left out

- I/O and transport: HTTP status codes, CORS, response bodies beyond
  the outcome and statistics, timestamps, console logs, alerts and
  notification timers are not modelled.
- Asynchronous scheduling: `setTimeout` delays, random delays and
  `Promise.all` are modelled as sequential, order-preserving loops.
- The Galaxy API fetch is a parameter giving each campaign's response,
  since its JSON shape is unknown. The campaigns, settings and content
  tables are the store's fields. Upserts replace the row with the same
  composite key.
- GalaxyImport.Run: runs the corrected cleanup. The source's as-written
  cleanup, which removes every marker with a positive episode id, is
  modelled only by GalaxyImport.CleanupAsWrittenEffect.
- GalaxyImport.Run reads the threshold once per run, whereas the code
  calls getFreeEpisodesConfig again for every series and once more for
  the statistics. All of those calls see the same settings table here.
- Database-generated ids and creation times are parameters of the save
  methods.
- The reloads after each change (`loadData`) and the sort orders of
  the queries are not modelled. The dashboard's rows arrive already in
  query order.
- The country and language name tables are parameters, with the actual
  tables as constants.
- Case mapping is ASCII only. White space for `trim` and `parseInt` is
  JavaScript's full set of white-space and line-terminator characters.
- `localeCompare` is code-point order on the lower-cased strings.
- `updated_at` is an integer time; an unparsable date (NaN) is not
  covered.
- JSON handling:
  - `JSON.parse` of event metadata is a parameter (None when it throws);
  - metadata is an uninterpreted string.
- GamificationTranslation.Run: the catch around a mock translation
  cannot fire, because the mock never throws, so it is not modelled.
- TranslationService.TranslateText: the confidence is in hundredths
  (95, 85) instead of the floats 0.95 and 0.85.
- The `hash_password` database function is a method that may fail and
  returns an unknown hash. The real DeepL API call is not modelled.
- SeriesEpisodesManager.FormatDuration: non-integer durations are not
  covered; the duration is an integer.
- Locale formatting of dates, numbers and prices is out of scope.
  FeatureManager.RenderFeatureValue returns uninterpreted LocaleDate and
  LocaleNumber values for it.
- Loading and saving spinners and other UI state are not modelled. The
  free-episodes input's `max=10` is an HTML attribute the code does not
  enforce, so it is absent from the model too.
- The plain single-row deletes of events, users, features and
  translations, and `formatDate`, are left out: each is one request with
  no logic.
- getCampaignDisplay in SeriesRubricsManager.tsx is the same expression
  as in ContentSeriesManager.tsx, so it is modelled once as
  ContentSeriesManager.CampaignDisplay and used by both modules.
- Confirmation dialogs are a boolean parameter (`confirmed`).

## Findings

EventGamificationTranslation.Run reports the skipped count as the code
computes it, since that count is part of its answer. SkippedCorrected
states the intended count beside it. GalaxyImport.Run runs the corrected
cleanup.

| source | as written | input that shows it | evidently intended | confidence | as-written member | corrected member |
|---|---|---|---|---|---|---|
| supabase/functions/event-gamification-translation/index.ts:221 | `skippedExisting` is events × languages − created, so failed inserts are reported as existing rows | one event, no existing translation, every insert refused: every language is reported as "skipped existing" | the number of (event, language) keys that already existed | not executed | EventGamificationTranslation.SkippedAsWrittenExample | EventGamificationTranslation.SkippedCorrected |
| supabase/functions/galaxy-import-3/index.ts:219-226 | cleanupOldFreeEpisodes deletes every free marker with `episode_id > 0` of each campaign, including markers the run has just created | an episode at position 1 with the default threshold 3: its marker is removed by the cleanup | delete only markers whose episode no longer qualifies (position above the threshold), as the comment before the call says | not executed | GalaxyImport.CleanupAsWrittenDropsFreeEpisode | GalaxyImport.CleanupEffect |

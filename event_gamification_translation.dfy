/** The `event-gamification-translation` edge function: for every
    gamification event, in the order of its position, and every target
    language, it inserts a French-based mock translation unless a row with
    the same "event-language" key existed when the run began. Each insert is
    its own request; a failed one is passed over. */
module EventGamificationTranslation {
  import opened Common
  import opened TranslationStore

  /** The codes of the thirty target languages of this function, in order;
      Filipino is "fil" here. */
  const TargetCodes: seq<string> := [
    "af", "am", "ar", "bn", "nl", "en", "fil", "fr", "de", "gu",
    "ha", "hi", "id", "ja", "kn", "ms", "ml", "mr", "pt-BR", "pt-PT",
    "pa", "si", "so", "es", "sw", "ta", "te", "th", "ur", "vi"
  ]

  /** The columns of `gamification_events` the function reads. */
  datatype GamificationEvent = GamificationEvent(id: string, eventType: string)

  /** The key the function uses to recognise an existing translation. */
  function Key(eventId: string, code: string): string
  {
    eventId + "-" + code
  }

  /** The keys of the rows read at the start of the run. */
  function KeysOf(rows: seq<Translation>): set<string>
  {
    set t | t in rows :: Key(t.eventId, t.languageCode)
  }

  function FrenchTitle(eventType: string): string
  {
    "\U{C9}v\U{E9}nement " + eventType
  }

  function FrenchDescription(eventType: string): string
  {
    "Description pour l'\U{E9}v\U{E9}nement " + eventType
  }

  function FrenchMessage(eventType: string): string
  {
    "Message pour l'\U{E9}v\U{E9}nement " + eventType
  }

  /** The row the function builds for an event in one language. */
  function FrenchRow(ev: GamificationEvent, code: string): Translation
  {
    Translation(ev.id, code,
                TranslateText(FrenchTitle(ev.eventType), code),
                TranslateText(FrenchDescription(ev.eventType), code),
                TranslateText(FrenchMessage(ev.eventType), code))
  }

  /** The rows the function tries to insert for one event over the first n
      target languages: one per language whose key was not there, in
      target order. */
  function EventCandidates(targets: seq<string>, ev: GamificationEvent, keys: set<string>, n: nat): seq<Translation>
    requires n <= |targets|
  {
    if n == 0 then []
    else EventCandidates(targets, ev, keys, n - 1) + (if Key(ev.id, targets[n - 1]) in keys then [] else [FrenchRow(ev, targets[n - 1])])
  }

  /** How many of the first n target languages of one event were there. */
  function EventPresent(targets: seq<string>, ev: GamificationEvent, keys: set<string>, n: nat): nat
    requires n <= |targets|
  {
    if n == 0 then 0
    else EventPresent(targets, ev, keys, n - 1) + (if Key(ev.id, targets[n - 1]) in keys then 1 else 0)
  }

  /** The rows tried for the first n events, event after event. */
  function Candidates(targets: seq<string>, events: seq<GamificationEvent>, keys: set<string>, n: nat): seq<Translation>
    requires n <= |events|
  {
    if n == 0 then []
    else Candidates(targets, events, keys, n - 1) + EventCandidates(targets, events[n - 1], keys, |targets|)
  }

  /** How many (event, language) keys of the first n events were there. */
  function Present(targets: seq<string>, events: seq<GamificationEvent>, keys: set<string>, n: nat): nat
    requires n <= |events|
  {
    if n == 0 then 0
    else Present(targets, events, keys, n - 1) + EventPresent(targets, events[n - 1], keys, |targets|)
  }

  // ---------------------------------------------------------------------
  // The handler

  datatype Env = Env(supabaseUrl: Option<string>, serviceRoleKey: Option<string>)

  predicate Configured(env: Env)
  {
    env.supabaseUrl.Some? && env.supabaseUrl.value != "" &&
    env.serviceRoleKey.Some? && env.serviceRoleKey.value != ""
  }

  datatype Stats = Stats(eventsProcessed: nat, translationsCreated: nat, targetLanguages: nat, skippedExisting: nat)

  datatype Failure = MissingEnvironment | EventsFetchFailed | TranslationsFetchFailed

  datatype Outcome =
    | NoEvents
    | Success(message: string, stats: Stats)
    | Failed(reason: Failure)

  function SuccessMessage(stats: Stats): string
  {
    "Successfully processed " + NatToString(stats.eventsProcessed) + " events and created " +
    NatToString(stats.translationsCreated) + " translations"
  }

  /** The sequential mock batch translation: one translation per text, in order. */
  method BatchTranslate(texts: seq<string>, target: string) returns (out: seq<string>)
    ensures |out| == |texts|
    ensures forall i :: 0 <= i < |texts| ==> out[i] == TranslateText(texts[i], target)
  {
    out := [];
    for i := 0 to |texts|
      invariant |out| == i
      invariant forall k :: 0 <= k < i ==> out[k] == TranslateText(texts[k], target)
    {
      out := out + [TranslateText(texts[i], target)];
    }
  }

  /** The body of the language loop: the French base content of the event,
      translated into one language. */
  method BuildRow(ev: GamificationEvent, code: string) returns (row: Translation)
    ensures row == FrenchRow(ev, code)
  {
    var out := BatchTranslate([FrenchTitle(ev.eventType), FrenchDescription(ev.eventType), FrenchMessage(ev.eventType)], code);
    row := Translation(ev.id, code, out[0], out[1], out[2]);
  }

  /** The loop over the target languages of one event. */
  method TranslateEvent(targets: seq<string>, ev: GamificationEvent, keys: set<string>, table: Table)
    returns (created: nat, ghost oks: seq<bool>)
    modifies table
    ensures SentOneByOne(old(table.attempts), old(table.rows), old(table.outcomes),
                         table.attempts, table.rows, table.outcomes, EventCandidates(targets, ev, keys, |targets|), oks)
    ensures created == |table.rows| - |old(table.rows)|
    ensures created <= |EventCandidates(targets, ev, keys, |targets|)|
  {
    created, oks := 0, [];
    SentNothing(table.attempts, table.rows, table.outcomes);
    for j := 0 to |targets|
      invariant SentOneByOne(old(table.attempts), old(table.rows), old(table.outcomes),
                             table.attempts, table.rows, table.outcomes, EventCandidates(targets, ev, keys, j), oks)
      invariant created == |table.rows| - |old(table.rows)|
      invariant created <= |EventCandidates(targets, ev, keys, j)|
    {
      var code := targets[j];
      if Key(ev.id, code) in keys {
        assert EventCandidates(targets, ev, keys, j + 1) == EventCandidates(targets, ev, keys, j);
      } else {
        var row := BuildRow(ev, code);
        ghost var a1, r1, o1 := table.attempts, table.rows, table.outcomes;
        var ok := table.Insert([row]);
        SentOne(a1, r1, o1, row, ok);
        SentOneByOneTrans(old(table.attempts), old(table.rows), old(table.outcomes), a1, r1, o1,
                          table.attempts, table.rows, table.outcomes, EventCandidates(targets, ev, keys, j), oks, [row], [ok]);
        oks := oks + [ok];
        created := created + if ok then 1 else 0;
      }
    }
  }

  /** The loop over the events, each with its loop over the languages;
      `processed` counts the events whose language loop has finished. */
  method TranslateEvents(targets: seq<string>, events: seq<GamificationEvent>, keys: set<string>, table: Table)
    returns (processed: nat, created: nat, ghost oks: seq<bool>)
    modifies table
    ensures SentOneByOne(old(table.attempts), old(table.rows), old(table.outcomes),
                         table.attempts, table.rows, table.outcomes, Candidates(targets, events, keys, |events|), oks)
    ensures processed == |events|
    ensures created == |table.rows| - |old(table.rows)|
    ensures created <= |Candidates(targets, events, keys, |events|)|
  {
    processed, created, oks := 0, 0, [];
    SentNothing(table.attempts, table.rows, table.outcomes);
    for i := 0 to |events|
      invariant processed == i
      invariant SentOneByOne(old(table.attempts), old(table.rows), old(table.outcomes),
                             table.attempts, table.rows, table.outcomes, Candidates(targets, events, keys, i), oks)
      invariant created == |table.rows| - |old(table.rows)|
      invariant created <= |Candidates(targets, events, keys, i)|
    {
      ghost var a1, r1, o1 := table.attempts, table.rows, table.outcomes;
      var c, added := TranslateEvent(targets, events[i], keys, table);
      SentOneByOneTrans(old(table.attempts), old(table.rows), old(table.outcomes), a1, r1, o1,
                        table.attempts, table.rows, table.outcomes,
                        Candidates(targets, events, keys, i), oks, EventCandidates(targets, events[i], keys, |targets|), added);
      oks := oks + added;
      created := created + c;
      processed := processed + 1;
    }
  }

  /** One request to the function. The events read (None when the read
      failed) are in the order of their position. */
  method Run(env: Env, eventsRead: Option<seq<GamificationEvent>>, table: Table) returns (out: Outcome)
    modifies table
    ensures !Configured(env) ==> out == Failed(MissingEnvironment)
    ensures Configured(env) && eventsRead.None? ==> out == Failed(EventsFetchFailed)
    ensures out == NoEvents <==> Configured(env) && eventsRead == Some([])
    ensures !out.Success? ==> table.rows == old(table.rows) && table.attempts == old(table.attempts)
    ensures out.Success? ==>
              Configured(env) && eventsRead.Some? &&
              var events := eventsRead.value;
              var c := Candidates(TargetCodes, events, KeysOf(old(table.rows)), |events|);
              && table.attempts == old(table.attempts) + Singletons(c)
              && |table.outcomes| == |old(table.outcomes)| + |c|
              && table.rows == old(table.rows) + Accepted(Singletons(c), table.outcomes[|old(table.outcomes)|..])
              && out.stats.eventsProcessed == |events|
              && out.stats.translationsCreated == |table.rows| - |old(table.rows)|
              && out.stats.targetLanguages == |TargetCodes|
              && out.stats.translationsCreated <= |c|
              && out.stats.skippedExisting == SkippedAsWritten(|events|, |TargetCodes|, out.stats.translationsCreated)
              && out.stats.skippedExisting == Present(TargetCodes, events, KeysOf(old(table.rows)), |events|) +
                                              (|c| - out.stats.translationsCreated)
              && out.message == SuccessMessage(out.stats)
  {
    if !Configured(env) {
      return Failed(MissingEnvironment);
    }
    if eventsRead.None? {
      return Failed(EventsFetchFailed);
    }
    var events := eventsRead.value;
    if |events| == 0 {
      return NoEvents;
    }
    var existing := table.Select();
    if existing.None? {
      return Failed(TranslationsFetchFailed);
    }
    var keys := KeysOf(existing.value);
    var processed, created, oks := TranslateEvents(TargetCodes, events, keys, table);
    SkippedAsWrittenCountsFailures(TargetCodes, events, keys, created);
    assert table.outcomes[|old(table.outcomes)|..] == oks;
    assert table.attempts == old(table.attempts) + Singletons(Candidates(TargetCodes, events, keys, |events|));
    var stats := Stats(processed, created, |TargetCodes|, SkippedAsWritten(processed, |TargetCodes|, created));
    out := Success(SuccessMessage(stats), stats);
  }

  // ---------------------------------------------------------------------
  // What a run attempts

  /** Every target language of an event is either attempted or counted as
      present, never both. */
  lemma {:induction false} EventCandidatesCount(targets: seq<string>, ev: GamificationEvent, keys: set<string>, n: nat)
    requires n <= |targets|
    ensures |EventCandidates(targets, ev, keys, n)| + EventPresent(targets, ev, keys, n) == n
  {
    if n > 0 {
      EventCandidatesCount(targets, ev, keys, n - 1);
    }
  }

  lemma {:induction false} CandidatesCount(targets: seq<string>, events: seq<GamificationEvent>, keys: set<string>, n: nat)
    requires n <= |events|
    ensures |Candidates(targets, events, keys, n)| + Present(targets, events, keys, n) == n * |targets|
  {
    if n > 0 {
      CandidatesCount(targets, events, keys, n - 1);
      EventCandidatesCount(targets, events[n - 1], keys, |targets|);
      assert n * |targets| == (n - 1) * |targets| + |targets|;
    }
  }

  lemma {:induction false} EventCandidatesSound(targets: seq<string>, ev: GamificationEvent, keys: set<string>, n: nat, r: Translation)
    requires n <= |targets| && r in EventCandidates(targets, ev, keys, n)
    ensures exists j :: 0 <= j < n && Key(ev.id, targets[j]) !in keys && r == FrenchRow(ev, targets[j])
  {
    if n > 0 {
      var prev := EventCandidates(targets, ev, keys, n - 1);
      if r in prev {
        EventCandidatesSound(targets, ev, keys, n - 1, r);
        var j :| 0 <= j < n - 1 && Key(ev.id, targets[j]) !in keys && r == FrenchRow(ev, targets[j]);
        assert 0 <= j < n && Key(ev.id, targets[j]) !in keys && r == FrenchRow(ev, targets[j]);
      } else {
        var j := n - 1;
        assert 0 <= j < n && Key(ev.id, targets[j]) !in keys && r == FrenchRow(ev, targets[j]);
      }
    }
  }

  lemma {:induction false} EventCandidatesComplete(targets: seq<string>, ev: GamificationEvent, keys: set<string>, n: nat, j: nat)
    requires j < n <= |targets| && Key(ev.id, targets[j]) !in keys
    ensures FrenchRow(ev, targets[j]) in EventCandidates(targets, ev, keys, n)
  {
    var prev := EventCandidates(targets, ev, keys, n - 1);
    var row := FrenchRow(ev, targets[j]);
    if j < n - 1 {
      EventCandidatesComplete(targets, ev, keys, n - 1, j);
      assert row in prev;
    } else {
      assert EventCandidates(targets, ev, keys, n) == prev + [row];
    }
  }

  lemma {:induction false} CandidatesSound(targets: seq<string>, events: seq<GamificationEvent>, keys: set<string>, n: nat, r: Translation)
    requires n <= |events| && r in Candidates(targets, events, keys, n)
    ensures exists i, j :: 0 <= i < n && 0 <= j < |targets| && Key(events[i].id, targets[j]) !in keys && r == FrenchRow(events[i], targets[j])
  {
    if n > 0 {
      var prev := Candidates(targets, events, keys, n - 1);
      if r in prev {
        CandidatesSound(targets, events, keys, n - 1, r);
        var i, j :| 0 <= i < n - 1 && 0 <= j < |targets| && Key(events[i].id, targets[j]) !in keys && r == FrenchRow(events[i], targets[j]);
        assert 0 <= i < n && 0 <= j < |targets| && Key(events[i].id, targets[j]) !in keys && r == FrenchRow(events[i], targets[j]);
      } else {
        var i := n - 1;
        EventCandidatesSound(targets, events[i], keys, |targets|, r);
        var j :| 0 <= j < |targets| && Key(events[i].id, targets[j]) !in keys && r == FrenchRow(events[i], targets[j]);
        assert 0 <= i < n && 0 <= j < |targets| && Key(events[i].id, targets[j]) !in keys && r == FrenchRow(events[i], targets[j]);
      }
    }
  }

  lemma {:induction false} CandidatesComplete(targets: seq<string>, events: seq<GamificationEvent>, keys: set<string>, n: nat, i: nat, j: nat)
    requires i < n <= |events| && j < |targets| && Key(events[i].id, targets[j]) !in keys
    ensures FrenchRow(events[i], targets[j]) in Candidates(targets, events, keys, n)
  {
    var prev := Candidates(targets, events, keys, n - 1);
    var last := EventCandidates(targets, events[n - 1], keys, |targets|);
    assert Candidates(targets, events, keys, n) == prev + last;
    if i < n - 1 {
      assert FrenchRow(events[i], targets[j]) in prev by {
        CandidatesComplete(targets, events, keys, n - 1, i, j);
      }
    } else {
      assert FrenchRow(events[i], targets[j]) in last by {
        EventCandidatesComplete(targets, events[i], keys, |targets|, j);
      }
    }
  }

  /** A run attempts exactly one row per (event, target language) whose key
      was absent, built from the event's French base content. */
  lemma CandidatesExactly(targets: seq<string>, events: seq<GamificationEvent>, keys: set<string>, n: nat, r: Translation)
    requires n <= |events|
    ensures r in Candidates(targets, events, keys, n) <==>
            exists i, j :: 0 <= i < n && 0 <= j < |targets| && Key(events[i].id, targets[j]) !in keys && r == FrenchRow(events[i], targets[j])
  {
    if r in Candidates(targets, events, keys, n) {
      CandidatesSound(targets, events, keys, n, r);
    } else {
      forall i, j | 0 <= i < n && 0 <= j < |targets| && Key(events[i].id, targets[j]) !in keys
        ensures r != FrenchRow(events[i], targets[j])
      {
        CandidatesComplete(targets, events, keys, n, i, j);
      }
    }
  }

  /** No attempted row repeats the event and language of a row read at the
      start of the run. */
  lemma CandidatesAreNew(targets: seq<string>, events: seq<GamificationEvent>, existing: seq<Translation>)
    ensures forall r, t :: r in Candidates(targets, events, KeysOf(existing), |events|) && t in existing ==>
              (r.eventId, r.languageCode) != (t.eventId, t.languageCode)
  {
    forall r, t | r in Candidates(targets, events, KeysOf(existing), |events|) && t in existing
      ensures (r.eventId, r.languageCode) != (t.eventId, t.languageCode)
    {
      CandidatesExactly(targets, events, KeysOf(existing), |events|, r);
    }
  }

  /** When every key is already there, nothing is attempted. */
  lemma {:induction false} EventCandidatesNone(targets: seq<string>, ev: GamificationEvent, keys: set<string>, n: nat)
    requires n <= |targets|
    requires forall j :: 0 <= j < n ==> Key(ev.id, targets[j]) in keys
    ensures EventCandidates(targets, ev, keys, n) == []
  {
    if n > 0 {
      EventCandidatesNone(targets, ev, keys, n - 1);
    }
  }

  lemma {:induction false} CandidatesNone(targets: seq<string>, events: seq<GamificationEvent>, keys: set<string>, n: nat)
    requires n <= |events|
    requires forall i, j :: 0 <= i < n && 0 <= j < |targets| ==> Key(events[i].id, targets[j]) in keys
    ensures Candidates(targets, events, keys, n) == []
  {
    if n > 0 {
      CandidatesNone(targets, events, keys, n - 1);
      EventCandidatesNone(targets, events[n - 1], keys, |targets|);
    }
  }

  /** Once every attempted insert of a run has succeeded, running again over
      the same events attempts nothing. */
  lemma RerunAttemptsNothing(targets: seq<string>, events: seq<GamificationEvent>, existing: seq<Translation>)
    ensures var first := Candidates(targets, events, KeysOf(existing), |events|);
            Candidates(targets, events, KeysOf(existing + first), |events|) == []
  {
    var keys := KeysOf(existing);
    var after := existing + Candidates(targets, events, keys, |events|);
    forall i, j | 0 <= i < |events| && 0 <= j < |targets|
      ensures Key(events[i].id, targets[j]) in KeysOf(after)
    {
      if Key(events[i].id, targets[j]) !in keys {
        CandidatesExactly(targets, events, keys, |events|, FrenchRow(events[i], targets[j]));
        assert FrenchRow(events[i], targets[j]) in after;
      } else {
        var t :| t in existing && Key(t.eventId, t.languageCode) == Key(events[i].id, targets[j]);
        assert t in after;
      }
    }
    CandidatesNone(targets, events, KeysOf(after), |events|);
  }

  // ---------------------------------------------------------------------
  // The skipped count

  /** The skipped count as the function reports it, and as Run reports it:
      every (event, language) that did not produce a row, including those
      whose insert failed. */
  function SkippedAsWritten(eventsProcessed: nat, targetLanguages: nat, created: nat): int
  {
    eventsProcessed * targetLanguages - created
  }

  /** The reported count is the number of keys already present plus the
      number of failed inserts, so it exceeds the present count exactly when
      an insert failed. */
  lemma SkippedAsWrittenCountsFailures(targets: seq<string>, events: seq<GamificationEvent>, keys: set<string>, created: nat)
    requires created <= |Candidates(targets, events, keys, |events|)|
    ensures SkippedAsWritten(|events|, |targets|, created) ==
            Present(targets, events, keys, |events|) + (|Candidates(targets, events, keys, |events|)| - created)
    ensures SkippedAsWritten(|events|, |targets|, created) > Present(targets, events, keys, |events|) <==>
            created < |Candidates(targets, events, keys, |events|)|
  {
    CandidatesCount(targets, events, keys, |events|);
  }

  lemma {:induction false} EventNothingPresent(targets: seq<string>, ev: GamificationEvent, n: nat)
    requires n <= |targets|
    ensures EventPresent(targets, ev, {}, n) == 0
  {
    if n > 0 {
      EventNothingPresent(targets, ev, n - 1);
    }
  }

  /** One event, no existing rows, every insert failing: nothing existed,
      yet every language is reported as skipped for existing. */
  lemma SkippedAsWrittenExample(targets: seq<string>, ev: GamificationEvent)
    requires targets != []
    ensures Present(targets, [ev], {}, 1) == 0
    ensures SkippedAsWritten(1, |targets|, 0) == |targets| > 0
  {
    EventNothingPresent(targets, ev, |targets|);
  }

  /** The corrected count, kept by the run: the number of (event, language)
      keys present when the run began, which is all pairs minus the rows
      attempted. */
  lemma SkippedCorrected(targets: seq<string>, events: seq<GamificationEvent>, keys: set<string>)
    ensures Present(targets, events, keys, |events|) == |events| * |targets| - |Candidates(targets, events, keys, |events|)|
    ensures Present(targets, events, keys, |events|) <= |events| * |targets|
  {
    CandidatesCount(targets, events, keys, |events|);
  }
}

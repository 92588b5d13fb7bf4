/** The `gamification-translation` edge function: it reads every row of the
    translation table, picks one source row per event (French first, then
    English, then the first row seen), generates a mock translation for every
    target language the event does not have yet, and inserts the new rows in
    batches of fifty. */
module GamificationTranslation {
  import opened Common
  import opened TranslationStore

  /** The codes of the thirty target languages, in the order the function
      walks them. Their display names appear only in log lines. */
  const TargetCodes: seq<string> := [
    "af", "am", "ar", "bn", "nl", "en", "tl", "fr", "de", "gu",
    "ha", "hi", "id", "ja", "kn", "ms", "ml", "mr", "pt-BR", "pt-PT",
    "pa", "si", "so", "es", "sw", "ta", "te", "th", "ur", "vi"
  ]

  const BatchSize: nat := 50

  // The table is checked a few rows at a time to keep each proof small.

  lemma CodesDistinctFrom0(i: nat)
    requires 0 <= i < 3
    ensures forall j :: i < j < 30 ==> TargetCodes[i] != TargetCodes[j]
  {
    match i
    case 0 => assert forall j :: 0 < j < 30 ==> TargetCodes[0] != TargetCodes[j];
    case 1 => assert forall j :: 1 < j < 30 ==> TargetCodes[1] != TargetCodes[j];
    case 2 => assert forall j :: 2 < j < 30 ==> TargetCodes[2] != TargetCodes[j];
  }

  lemma CodesDistinctFrom3(i: nat)
    requires 3 <= i < 6
    ensures forall j :: i < j < 30 ==> TargetCodes[i] != TargetCodes[j]
  {
    match i
    case 3 => assert forall j :: 3 < j < 30 ==> TargetCodes[3] != TargetCodes[j];
    case 4 => assert forall j :: 4 < j < 30 ==> TargetCodes[4] != TargetCodes[j];
    case 5 => assert forall j :: 5 < j < 30 ==> TargetCodes[5] != TargetCodes[j];
  }

  lemma CodesDistinctFrom6(i: nat)
    requires 6 <= i < 9
    ensures forall j :: i < j < 30 ==> TargetCodes[i] != TargetCodes[j]
  {
    match i
    case 6 => assert forall j :: 6 < j < 30 ==> TargetCodes[6] != TargetCodes[j];
    case 7 => assert forall j :: 7 < j < 30 ==> TargetCodes[7] != TargetCodes[j];
    case 8 => assert forall j :: 8 < j < 30 ==> TargetCodes[8] != TargetCodes[j];
  }

  lemma CodesDistinctFrom9(i: nat)
    requires 9 <= i < 12
    ensures forall j :: i < j < 30 ==> TargetCodes[i] != TargetCodes[j]
  {
    match i
    case 9 => assert forall j :: 9 < j < 30 ==> TargetCodes[9] != TargetCodes[j];
    case 10 => assert forall j :: 10 < j < 30 ==> TargetCodes[10] != TargetCodes[j];
    case 11 => assert forall j :: 11 < j < 30 ==> TargetCodes[11] != TargetCodes[j];
  }

  lemma CodesDistinctFrom12(i: nat)
    requires 12 <= i < 15
    ensures forall j :: i < j < 30 ==> TargetCodes[i] != TargetCodes[j]
  {
    match i
    case 12 => assert forall j :: 12 < j < 30 ==> TargetCodes[12] != TargetCodes[j];
    case 13 => assert forall j :: 13 < j < 30 ==> TargetCodes[13] != TargetCodes[j];
    case 14 => assert forall j :: 14 < j < 30 ==> TargetCodes[14] != TargetCodes[j];
  }

  lemma CodesDistinctFrom15(i: nat)
    requires 15 <= i < 19
    ensures forall j :: i < j < 30 ==> TargetCodes[i] != TargetCodes[j]
  {
    match i
    case 15 => assert forall j :: 15 < j < 30 ==> TargetCodes[15] != TargetCodes[j];
    case 16 => assert forall j :: 16 < j < 30 ==> TargetCodes[16] != TargetCodes[j];
    case 17 => assert forall j :: 17 < j < 30 ==> TargetCodes[17] != TargetCodes[j];
    case 18 => assert forall j :: 18 < j < 30 ==> TargetCodes[18] != TargetCodes[j];
  }

  lemma CodesDistinctFrom19(i: nat)
    requires 19 <= i < 24
    ensures forall j :: i < j < 30 ==> TargetCodes[i] != TargetCodes[j]
  {
    match i
    case 19 => assert forall j :: 19 < j < 30 ==> TargetCodes[19] != TargetCodes[j];
    case 20 => assert forall j :: 20 < j < 30 ==> TargetCodes[20] != TargetCodes[j];
    case 21 => assert forall j :: 21 < j < 30 ==> TargetCodes[21] != TargetCodes[j];
    case 22 => assert forall j :: 22 < j < 30 ==> TargetCodes[22] != TargetCodes[j];
    case 23 => assert forall j :: 23 < j < 30 ==> TargetCodes[23] != TargetCodes[j];
  }

  lemma CodesDistinctFrom24(i: nat)
    requires 24 <= i < 29
    ensures forall j :: i < j < 30 ==> TargetCodes[i] != TargetCodes[j]
  {
    match i
    case 24 => assert forall j :: 24 < j < 30 ==> TargetCodes[24] != TargetCodes[j];
    case 25 => assert forall j :: 25 < j < 30 ==> TargetCodes[25] != TargetCodes[j];
    case 26 => assert forall j :: 26 < j < 30 ==> TargetCodes[26] != TargetCodes[j];
    case 27 => assert forall j :: 27 < j < 30 ==> TargetCodes[27] != TargetCodes[j];
    case 28 => assert forall j :: 28 < j < 30 ==> TargetCodes[28] != TargetCodes[j];
  }

  /** No two target languages share a code, so one run gives an event at
      most one row per code. */
  lemma TargetCodesDistinct()
    ensures |TargetCodes| == 30
    ensures NoDuplicates(TargetCodes)
  {
    forall i | 0 <= i < 29
      ensures forall j :: i < j < 30 ==> TargetCodes[i] != TargetCodes[j]
    {
      if i < 3 {
        CodesDistinctFrom0(i);
      } else if i < 6 {
        CodesDistinctFrom3(i);
      } else if i < 9 {
        CodesDistinctFrom6(i);
      } else if i < 12 {
        CodesDistinctFrom9(i);
      } else if i < 15 {
        CodesDistinctFrom12(i);
      } else if i < 19 {
        CodesDistinctFrom15(i);
      } else if i < 24 {
        CodesDistinctFrom19(i);
      } else {
        CodesDistinctFrom24(i);
      }
    }
  }

  // ---------------------------------------------------------------------
  // The mock translation service

  /** One translation per input text, in input order. */
  function TranslateBatch(texts: seq<string>, target: string): (r: seq<string>)
    ensures |r| == |texts|
    ensures forall i :: 0 <= i < |texts| ==> r[i] == TranslateText(texts[i], target)
    ensures forall i :: 0 <= i < |texts| ==> IsPrefix(texts[i], r[i])
  {
    seq(|texts|, i requires 0 <= i < |texts| => TranslateText(texts[i], target))
  }

  // ---------------------------------------------------------------------
  // What the function computes from the rows it read

  /** The event id of every row, in row order. */
  function EventIds(rows: seq<Translation>): (r: seq<string>)
    ensures |r| == |rows|
    ensures forall i :: 0 <= i < |rows| ==> r[i] == rows[i].eventId
  {
    if rows == [] then [] else EventIds(rows[..|rows| - 1]) + [rows[|rows| - 1].eventId]
  }

  /** The events in order of first appearance: the iteration order of the
      map from event to source row. */
  function EventOrder(rows: seq<Translation>): seq<string>
  {
    Distinct(EventIds(rows))
  }

  /** The language codes an event already has. */
  function LanguagesOf(rows: seq<Translation>, e: string): set<string>
  {
    if rows == [] then {}
    else LanguagesOf(rows[..|rows| - 1], e) + (if rows[|rows| - 1].eventId == e then {rows[|rows| - 1].languageCode} else {})
  }

  /** c is a language of e exactly when some row pairs e with c. */
  lemma {:induction false} LanguagesOfMembers(rows: seq<Translation>, e: string, c: string)
    ensures c in LanguagesOf(rows, e) <==> exists i :: 0 <= i < |rows| && rows[i].eventId == e && rows[i].languageCode == c
  {
    if rows != [] {
      var init := rows[..|rows| - 1];
      LanguagesOfMembers(init, e, c);
      assert forall i :: 0 <= i < |init| ==> init[i] == rows[i];
    }
  }

  /** Whether row t takes over as the source of its event from `current`. */
  predicate Replaces(t: Translation, current: Option<Translation>)
  {
    current.None? || t.languageCode == "fr" || (t.languageCode == "en" && current.value.languageCode != "fr")
  }

  /** The source row of event e after visiting the rows in order. */
  function Source(rows: seq<Translation>, e: string): (r: Option<Translation>)
    ensures r.Some? ==> r.value.eventId == e
  {
    if rows == [] then None
    else
      var current := Source(rows[..|rows| - 1], e);
      var t := rows[|rows| - 1];
      if t.eventId == e && Replaces(t, current) then Some(t) else current
  }

  /** The target languages an event still lacks, in the order of `targets`.
      The definitions below take the target list as a parameter; the handler
      passes `TargetCodes`. */
  function MissingLanguages(targets: seq<string>, have: set<string>): seq<string>
  {
    Filter(targets, (c: string) => c !in have)
  }

  /** The missing languages are the target languages whose code the event
      lacks, in table order. */
  lemma MissingLanguagesSpec(targets: seq<string>, have: set<string>)
    ensures forall c :: c in MissingLanguages(targets, have) <==> c in targets && c !in have
    ensures IsSubsequence(MissingLanguages(targets, have), targets)
  {
    FilterIsSubsequence(targets, (c: string) => c !in have);
  }

  /** The row generated for event e in one language from its source row. */
  function Translated(e: string, src: Translation, code: string): (r: Translation)
    ensures r.eventId == e && r.languageCode == code
  {
    var out := TranslateBatch([src.title, src.description, src.message], code);
    Translation(e, code, out[0], out[1], out[2])
  }

  function TranslatedAll(e: string, src: Translation, codes: seq<string>): (r: seq<Translation>)
    ensures |r| == |codes|
    ensures forall i :: 0 <= i < |codes| ==> r[i] == Translated(e, src, codes[i])
  {
    if codes == [] then []
    else TranslatedAll(e, src, codes[..|codes| - 1]) + [Translated(e, src, codes[|codes| - 1])]
  }

  lemma TranslatedAllSnoc(e: string, src: Translation, codes: seq<string>, code: string)
    ensures TranslatedAll(e, src, codes + [code]) == TranslatedAll(e, src, codes) + [Translated(e, src, code)]
  {
    assert (codes + [code])[..|codes|] == codes;
  }

  /** The rows generated for one event. */
  function EventRows(targets: seq<string>, rows: seq<Translation>, e: string): seq<Translation>
  {
    match Source(rows, e)
    case None => []
    case Some(src) => TranslatedAll(e, src, MissingLanguages(targets, LanguagesOf(rows, e)))
  }

  /** The rows generated for the events of `order`, event after event. */
  function RowsFor(targets: seq<string>, rows: seq<Translation>, order: seq<string>): seq<Translation>
  {
    FlatMap((e: string) => EventRows(targets, rows, e), order)
  }

  /** How many events of `order` lack no target language. */
  function SkippedFor(targets: seq<string>, rows: seq<Translation>, order: seq<string>): nat
  {
    if order == [] then 0
    else SkippedFor(targets, rows, order[..|order| - 1]) + (if MissingLanguages(targets, LanguagesOf(rows, order[|order| - 1])) == [] then 1 else 0)
  }

  /** Every row one run generates from the table `rows`. */
  function NewTranslations(targets: seq<string>, rows: seq<Translation>): seq<Translation>
  {
    RowsFor(targets, rows, EventOrder(rows))
  }

  // Appending one row or one event unfolds each definition by one step.

  lemma EventIdsSnoc(rows: seq<Translation>, t: Translation)
    ensures EventIds(rows + [t]) == EventIds(rows) + [t.eventId]
  {
    assert (rows + [t])[..|rows|] == rows;
  }

  lemma LanguagesOfSnoc(rows: seq<Translation>, t: Translation, e: string)
    ensures LanguagesOf(rows + [t], e) == LanguagesOf(rows, e) + (if t.eventId == e then {t.languageCode} else {})
  {
    assert (rows + [t])[..|rows|] == rows;
  }

  lemma SourceSnoc(rows: seq<Translation>, t: Translation, e: string)
    ensures Source(rows + [t], e) == if t.eventId == e && Replaces(t, Source(rows, e)) then Some(t) else Source(rows, e)
  {
    assert (rows + [t])[..|rows|] == rows;
  }

  lemma EventSnoc(targets: seq<string>, rows: seq<Translation>, order: seq<string>, e: string)
    ensures RowsFor(targets, rows, order + [e]) == RowsFor(targets, rows, order) + EventRows(targets, rows, e)
    ensures SkippedFor(targets, rows, order + [e]) == SkippedFor(targets, rows, order) + (if MissingLanguages(targets, LanguagesOf(rows, e)) == [] then 1 else 0)
  {
    FlatMapSnoc((e: string) => EventRows(targets, rows, e), order, e);
    assert (order + [e])[..|order|] == order;
  }

  // ---------------------------------------------------------------------
  // Which row becomes the source of an event

  /** The last row of event e in language `lang`, if any. */
  function LastIn(rows: seq<Translation>, e: string, lang: string): (r: Option<Translation>)
    ensures r.Some? ==> r.value in rows && r.value.eventId == e && r.value.languageCode == lang
    ensures r.None? ==> forall t :: t in rows ==> !(t.eventId == e && t.languageCode == lang)
  {
    if rows == [] then None
    else if rows[|rows| - 1].eventId == e && rows[|rows| - 1].languageCode == lang then Some(rows[|rows| - 1])
    else
      assert forall t :: t in rows ==> t in rows[..|rows| - 1] || t == rows[|rows| - 1];
      LastIn(rows[..|rows| - 1], e, lang)
  }

  /** The first row of event e, if any. */
  function FirstOf(rows: seq<Translation>, e: string): (r: Option<Translation>)
    ensures r.Some? ==> r.value in rows && r.value.eventId == e
    ensures r.None? ==> forall t :: t in rows ==> t.eventId != e
  {
    if rows == [] then None
    else if rows[0].eventId == e then Some(rows[0])
    else
      assert forall t :: t in rows ==> t == rows[0] || t in rows[1..];
      FirstOf(rows[1..], e)
  }

  lemma {:induction false} FirstOfSnoc(rows: seq<Translation>, t: Translation, e: string)
    ensures FirstOf(rows + [t], e) == if FirstOf(rows, e).Some? then FirstOf(rows, e) else if t.eventId == e then Some(t) else None
  {
    if rows != [] {
      assert (rows + [t])[1..] == rows[1..] + [t];
      FirstOfSnoc(rows[1..], t, e);
    }
  }

  /** The row the source selection is meant to pick: the last French row of
      the event, else its last English row, else its first row. */
  function Preferred(rows: seq<Translation>, e: string): Option<Translation>
  {
    if LastIn(rows, e, "fr").Some? then LastIn(rows, e, "fr")
    else if LastIn(rows, e, "en").Some? then LastIn(rows, e, "en")
    else FirstOf(rows, e)
  }

  /** The map built by the second pass holds, for every event, the last
      French row, else the last English row, else the first row of that
      event; an event has a source exactly when it has a row. */
  lemma {:induction false} SourcePreference(rows: seq<Translation>, e: string)
    ensures Source(rows, e) == Preferred(rows, e)
    ensures Source(rows, e).Some? <==> e in EventIds(rows)
  {
    if rows != [] {
      var init := rows[..|rows| - 1];
      var t := rows[|rows| - 1];
      SourcePreference(init, e);
      assert rows == init + [t];
      assert EventIds(rows) == EventIds(init) + [t.eventId];
      var current := Source(init, e);
      if t.eventId != e {
        FirstOfSnoc(init, t, e);
        assert LastIn(rows, e, "fr") == LastIn(init, e, "fr");
        assert LastIn(rows, e, "en") == LastIn(init, e, "en");
      } else if t.languageCode == "fr" {
        assert Source(rows, e) == Some(t) == LastIn(rows, e, "fr");
      } else if t.languageCode == "en" {
        assert LastIn(rows, e, "fr") == LastIn(init, e, "fr");
        if LastIn(init, e, "fr").None? {
          if current.Some? {
            assert current.value in init;
          }
          assert Source(rows, e) == Some(t) == LastIn(rows, e, "en");
        }
      } else {
        FirstOfSnoc(init, t, e);
        assert LastIn(rows, e, "fr") == LastIn(init, e, "fr");
        assert LastIn(rows, e, "en") == LastIn(init, e, "en");
      }
    }
  }

  // ---------------------------------------------------------------------
  // What one run generates

  lemma TranslatedAllMembers(e: string, src: Translation, codes: seq<string>, r: Translation)
    ensures r in TranslatedAll(e, src, codes) <==> r.languageCode in codes && r == Translated(e, src, r.languageCode)
  {
    var rs := TranslatedAll(e, src, codes);
    if r.languageCode in codes && r == Translated(e, src, r.languageCode) {
      var i :| 0 <= i < |codes| && codes[i] == r.languageCode;
      assert rs[i] == r;
    }
  }

  lemma EventRowsMembers(targets: seq<string>, rows: seq<Translation>, e: string, r: Translation)
    ensures r in EventRows(targets, rows, e) <==>
              Source(rows, e).Some? && r.eventId == e && r.languageCode in targets &&
              r.languageCode !in LanguagesOf(rows, e) && r == Translated(e, Source(rows, e).value, r.languageCode)
  {
    MissingLanguagesSpec(targets, LanguagesOf(rows, e));
    if Source(rows, e).Some? {
      TranslatedAllMembers(e, Source(rows, e).value, MissingLanguages(targets, LanguagesOf(rows, e)), r);
    }
  }

  lemma RowsForMembers(targets: seq<string>, rows: seq<Translation>, order: seq<string>, r: Translation)
    ensures r in RowsFor(targets, rows, order) <==> exists e :: e in order && r in EventRows(targets, rows, e)
  {
    FlatMapMembers((e: string) => EventRows(targets, rows, e), order, r);
  }

  /** The rows generated by one run are exactly one per event of the table
      and target language the event lacks, each translated from the event's
      source row. */
  lemma NewTranslationsExactly(targets: seq<string>, rows: seq<Translation>, r: Translation)
    ensures r in NewTranslations(targets, rows) <==>
              r.eventId in EventIds(rows) && r.languageCode in targets &&
              r.languageCode !in LanguagesOf(rows, r.eventId) &&
              Source(rows, r.eventId).Some? &&
              r == Translated(r.eventId, Source(rows, r.eventId).value, r.languageCode)
  {
    RowsForMembers(targets, rows, EventOrder(rows), r);
    EventRowsMembers(targets, rows, r.eventId, r);
    SourcePreference(rows, r.eventId);
    if r in NewTranslations(targets, rows) {
      var e :| e in EventOrder(rows) && r in EventRows(targets, rows, e);
      EventRowsMembers(targets, rows, e, r);
    }
  }

  /** A run never generates a row for an (event, language) pair the table
      already has. */
  lemma NewTranslationsAreNew(targets: seq<string>, rows: seq<Translation>)
    ensures forall r, t :: r in NewTranslations(targets, rows) && t in rows ==>
              (r.eventId, r.languageCode) != (t.eventId, t.languageCode)
  {
    forall r, t | r in NewTranslations(targets, rows) && t in rows
      ensures (r.eventId, r.languageCode) != (t.eventId, t.languageCode)
    {
      NewTranslationsExactly(targets, rows, r);
      var i :| 0 <= i < |rows| && rows[i] == t;
      LanguagesOfMembers(rows, t.eventId, t.languageCode);
    }
  }

  /** After a run every event of the table has every target language. */
  lemma NewTranslationsComplete(targets: seq<string>, rows: seq<Translation>, e: string, c: string)
    requires e in EventIds(rows) && c in targets
    ensures c in LanguagesOf(rows + NewTranslations(targets, rows), e)
  {
    var all := rows + NewTranslations(targets, rows);
    if c in LanguagesOf(rows, e) {
      LanguagesOfMembers(rows, e, c);
      var i :| 0 <= i < |rows| && rows[i].eventId == e && rows[i].languageCode == c;
      assert all[i] == rows[i];
      LanguagesOfMembers(all, e, c);
    } else {
      SourcePreference(rows, e);
      var r := Translated(e, Source(rows, e).value, c);
      NewTranslationsExactly(targets, rows, r);
      var k :| 0 <= k < |NewTranslations(targets, rows)| && NewTranslations(targets, rows)[k] == r;
      assert all[|rows| + k] == r;
      LanguagesOfMembers(all, e, c);
    }
  }

  lemma {:induction false} PairsAppend(a: seq<Translation>, b: seq<Translation>)
    ensures Pairs(a + b) == Pairs(a) + Pairs(b)
  {
  }

  /** The generated rows of one event, as (event, language) pairs: all for
      that event, and distinct when the targets are. */
  lemma EventRowsPairs(targets: seq<string>, rows: seq<Translation>, e: string)
    requires NoDuplicates(targets)
    ensures forall i :: 0 <= i < |EventRows(targets, rows, e)| ==> Pairs(EventRows(targets, rows, e))[i].0 == e
    ensures NoDuplicates(Pairs(EventRows(targets, rows, e)))
  {
    if Source(rows, e).Some? {
      var codes := MissingLanguages(targets, LanguagesOf(rows, e));
      MissingLanguagesSpec(targets, LanguagesOf(rows, e));
      NoDuplicatesOfSubsequence(codes, targets);
      var pb := Pairs(EventRows(targets, rows, e));
      assert forall i :: 0 <= i < |pb| ==> pb[i] == (e, codes[i]);
    }
  }

  lemma {:induction false} RowsForEvents(targets: seq<string>, rows: seq<Translation>, order: seq<string>)
    ensures forall i :: 0 <= i < |RowsFor(targets, rows, order)| ==> Pairs(RowsFor(targets, rows, order))[i].0 in order
  {
    if order != [] {
      var init, e := order[..|order| - 1], order[|order| - 1];
      RowsForEvents(targets, rows, init);
      assert order == init + [e];
      EventSnoc(targets, rows, init, e);
      var a, b := RowsFor(targets, rows, init), EventRows(targets, rows, e);
      PairsAppend(a, b);
      forall i | 0 <= i < |a + b| ensures Pairs(a + b)[i].0 in order {
        if i < |a| {
          assert Pairs(a + b)[i] == Pairs(a)[i];
        } else {
          assert Pairs(a + b)[i] == Pairs(b)[i - |a|];
          assert b[i - |a|] in b;
          EventRowsMembers(targets, rows, e, b[i - |a|]);
        }
      }
    }
  }

  lemma {:induction false} RowsForDistinct(targets: seq<string>, rows: seq<Translation>, order: seq<string>)
    requires NoDuplicates(targets) && NoDuplicates(order)
    ensures NoDuplicates(Pairs(RowsFor(targets, rows, order)))
  {
    if order != [] {
      var init, e := order[..|order| - 1], order[|order| - 1];
      assert order == init + [e];
      assert NoDuplicates(init);
      RowsForDistinct(targets, rows, init);
      RowsForEvents(targets, rows, init);
      EventRowsPairs(targets, rows, e);
      EventSnoc(targets, rows, init, e);
      var a, b := RowsFor(targets, rows, init), EventRows(targets, rows, e);
      PairsAppend(a, b);
      assert e !in init;
      assert forall i, j :: 0 <= i < |Pairs(a)| && 0 <= j < |Pairs(b)| ==> Pairs(a)[i] != Pairs(b)[j];
      NoDuplicatesAppend(Pairs(a), Pairs(b));
    }
  }

  /** One run never generates two rows for the same (event, language) pair. */
  lemma NewTranslationsDistinct(targets: seq<string>, rows: seq<Translation>)
    requires NoDuplicates(targets)
    ensures NoDuplicates(Pairs(NewTranslations(targets, rows)))
  {
    RowsForDistinct(targets, rows, EventOrder(rows));
  }

  /** Together with the rows it started from, one run leaves at most one row
      per (event, language) pair when the table had at most one. */
  lemma RunKeepsPairsUnique(rows: seq<Translation>)
    requires NoDuplicates(Pairs(rows))
    ensures NoDuplicates(Pairs(rows + NewTranslations(TargetCodes, rows)))
  {
    var n := NewTranslations(TargetCodes, rows);
    TargetCodesDistinct();
    NewTranslationsDistinct(TargetCodes, rows);
    NewTranslationsAreNew(TargetCodes, rows);
    PairsAppend(rows, n);
    var pa, pb := Pairs(rows), Pairs(n);
    forall i, j | 0 <= i < |pa| && 0 <= j < |pb|
      ensures pa[i] != pb[j]
    {
      assert rows[i] in rows && n[j] in n;
    }
  }

  // ---------------------------------------------------------------------
  // Running again

  lemma EventIdsAppend(a: seq<Translation>, b: seq<Translation>)
    ensures EventIds(a + b) == EventIds(a) + EventIds(b)
  {
  }

  lemma NoMissingLanguages(targets: seq<string>, have: set<string>)
    requires forall c :: c in targets ==> c in have
    ensures MissingLanguages(targets, have) == []
  {
    FilterNone(targets, (c: string) => c !in have);
  }

  lemma {:induction false} RowsForNothingMissing(targets: seq<string>, rows: seq<Translation>, order: seq<string>)
    requires forall e :: e in order ==> MissingLanguages(targets, LanguagesOf(rows, e)) == []
    ensures RowsFor(targets, rows, order) == []
    ensures SkippedFor(targets, rows, order) == |order|
  {
    if order != [] {
      var init, e := order[..|order| - 1], order[|order| - 1];
      assert order == init + [e];
      assert forall e :: e in init ==> e in order;
      RowsForNothingMissing(targets, rows, init);
      EventSnoc(targets, rows, init, e);
    }
  }

  /** Running the function again on the table a successful run left behind
      creates nothing: the same events are processed and every one of them
      is skipped. */
  lemma RerunCreatesNothing(targets: seq<string>, rows: seq<Translation>)
    ensures var after := rows + NewTranslations(targets, rows);
            && EventOrder(after) == EventOrder(rows)
            && NewTranslations(targets, after) == []
            && SkippedFor(targets, after, EventOrder(after)) == |EventOrder(rows)|
  {
    var n := NewTranslations(targets, rows);
    var after := rows + n;
    forall x | x in EventIds(n)
      ensures x in EventIds(rows)
    {
      var i :| 0 <= i < |n| && EventIds(n)[i] == x;
      NewTranslationsExactly(targets, rows, n[i]);
    }
    EventIdsAppend(rows, n);
    DistinctAppendKnown(EventIds(rows), EventIds(n));
    forall e | e in EventOrder(after)
      ensures MissingLanguages(targets, LanguagesOf(after, e)) == []
    {
      forall c | c in targets
        ensures c in LanguagesOf(after, e)
      {
        NewTranslationsComplete(targets, rows, e, c);
      }
      NoMissingLanguages(targets, LanguagesOf(after, e));
    }
    RowsForNothingMissing(targets, after, EventOrder(after));
  }

  /** The statistics of that second run. */
  lemma RerunStats(rows: seq<Translation>)
    ensures var n := |EventOrder(rows)|;
            ExpectedStats(rows + NewTranslations(TargetCodes, rows)) == Stats(n, 0, n, 30, 0)
  {
    RerunCreatesNothing(TargetCodes, rows);
  }

  // ---------------------------------------------------------------------
  // Batches

  function Min(a: int, b: int): int { if a <= b then a else b }

  function CeilDiv(n: nat, d: nat): nat
    requires d > 0
  {
    (n + d - 1) / d
  }

  /** `rows.slice(i, i + 50)` for i = 0, 50, 100, ... below |rows|. */
  function Slices(rows: seq<Translation>): seq<seq<Translation>>
  {
    seq(CeilDiv(|rows|, BatchSize), k requires 0 <= k < CeilDiv(|rows|, BatchSize) =>
      rows[BatchSize * k..Min(BatchSize * k + BatchSize, |rows|)])
  }

  function Flatten(ss: seq<seq<Translation>>): seq<Translation>
  {
    if ss == [] then [] else Flatten(ss[..|ss| - 1]) + ss[|ss| - 1]
  }

  /** Every slice holds between one and fifty rows, and there are
      ceil(|rows| / 50) of them. */
  lemma SlicesShape(rows: seq<Translation>)
    ensures |Slices(rows)| == CeilDiv(|rows|, BatchSize)
    ensures forall k :: 0 <= k < |Slices(rows)| ==> 0 < |Slices(rows)[k]| <= BatchSize
  {
    forall k | 0 <= k < |Slices(rows)|
      ensures 0 < |Slices(rows)[k]| <= BatchSize
    {
      assert BatchSize * k < |rows|;
    }
  }

  lemma {:induction false} SlicesPrefix(rows: seq<Translation>, k: nat)
    requires k <= |Slices(rows)|
    ensures Flatten(Slices(rows)[..k]) == rows[..Min(BatchSize * k, |rows|)]
  {
    if k > 0 {
      SlicesPrefix(rows, k - 1);
      assert Slices(rows)[..k][..k - 1] == Slices(rows)[..k - 1];
      assert BatchSize * (k - 1) < |rows|;
      assert rows[..BatchSize * (k - 1)] + rows[BatchSize * (k - 1)..Min(BatchSize * k, |rows|)]
          == rows[..Min(BatchSize * k, |rows|)];
    }
  }

  /** The slices, put back together, are the rows in their original order. */
  /** The slice starting at row 50k, while that row exists. */
  lemma SliceStep(rows: seq<Translation>, k: nat)
    requires BatchSize * k < |rows|
    ensures k < |Slices(rows)|
    ensures Slices(rows)[k] == rows[BatchSize * k..Min(BatchSize * k + BatchSize, |rows|)]
    ensures rows[..BatchSize * k] + Slices(rows)[k] == rows[..Min(BatchSize * k + BatchSize, |rows|)]
    ensures Slices(rows)[..k] + [Slices(rows)[k]] == Slices(rows)[..k + 1]
  {
    var n := |rows|;
    assert k < CeilDiv(n, BatchSize) by {
      assert BatchSize * k + BatchSize <= n + BatchSize - 1;
      assert (n + BatchSize - 1) / BatchSize >= (BatchSize * k + BatchSize) / BatchSize == k + 1;
    }
    var b := Min(BatchSize * k + BatchSize, |rows|);
    assert rows[..BatchSize * k] + rows[BatchSize * k..b] == rows[..b];
  }

  /** One request of the insert loop, on the values the table holds before
      and after it. */
  lemma InsertStep(rows: seq<Translation>, k: nat, r0: seq<Translation>, a0: seq<seq<Translation>>,
                   r1: seq<Translation>, a1: seq<seq<Translation>>, ok: bool,
                   r2: seq<Translation>, a2: seq<seq<Translation>>)
    requires BatchSize * k < |rows|
    requires r1 == r0 + rows[..BatchSize * k] && a1 == a0 + Slices(rows)[..k]
    requires k < |Slices(rows)| ==> a2 == a1 + [Slices(rows)[k]] && r2 == if ok then r1 + Slices(rows)[k] else r1
    ensures k + 1 <= |Slices(rows)|
    ensures a2 == a0 + Slices(rows)[..k + 1]
    ensures ok ==> r2 == r0 + rows[..Min(BatchSize * k + BatchSize, |rows|)]
    ensures (BatchSize * k) % BatchSize == 0 && (BatchSize * k) / BatchSize == k
  {
    SliceStep(rows, k);
    AppendAssoc(a0, Slices(rows)[..k], [Slices(rows)[k]]);
    AppendAssoc(r0, rows[..BatchSize * k], Slices(rows)[k]);
  }

  /** Once the slices have reached the end of the rows, they are all sent. */
  lemma SlicesDone(rows: seq<Translation>, k: nat)
    requires BatchSize * k >= |rows| && k <= |Slices(rows)|
    ensures k == |Slices(rows)|
  {
    var n := |rows|;
    assert (n + BatchSize - 1) / BatchSize <= (BatchSize * k + BatchSize - 1) / BatchSize == k;
  }

  lemma SlicesFlatten(rows: seq<Translation>)
    ensures Flatten(Slices(rows)) == rows
  {
    SlicesPrefix(rows, |Slices(rows)|);
    assert Slices(rows)[..|Slices(rows)|] == Slices(rows);
  }

  // ---------------------------------------------------------------------
  // The handler

  datatype Env = Env(supabaseUrl: Option<string>, serviceRoleKey: Option<string>)

  /** Both variables set and non-empty. */
  predicate Configured(env: Env)
  {
    env.supabaseUrl.Some? && env.supabaseUrl.value != "" &&
    env.serviceRoleKey.Some? && env.serviceRoleKey.value != ""
  }

  datatype Stats = Stats(
    eventsProcessed: nat,
    translationsCreated: nat,
    translationsSkipped: nat,
    targetLanguages: nat,
    batchesProcessed: nat)

  datatype Failure = MissingEnvironment | FetchFailed | InsertFailed

  datatype Outcome = Success(message: string, stats: Stats) | Failed(reason: Failure)

  /** The statistics a successful run reports for the table `rows`. */
  function ExpectedStats(rows: seq<Translation>): Stats
  {
    var created := NewTranslations(TargetCodes, rows);
    Stats(|EventOrder(rows)|, |created|, SkippedFor(TargetCodes, rows, EventOrder(rows)),
          |TargetCodes|, CeilDiv(|created|, BatchSize))
  }

  function SuccessMessage(stats: Stats): string
  {
    "Successfully processed " + NatToString(stats.eventsProcessed) + " events and created " +
    NatToString(stats.translationsCreated) + " translations"
  }

  /** What the first pass keeps after visiting `rows`. */
  ghost predicate GroupedAfter(rows: seq<Translation>, byEvent: map<string, set<string>>)
  {
    && (forall e :: e in byEvent <==> e in EventIds(rows))
    && (forall e :: e in byEvent ==> byEvent[e] == LanguagesOf(rows, e))
  }

  /** An event seen for the first time has no language yet. */
  lemma NoLanguagesYet(rows: seq<Translation>, e: string)
    requires e !in EventIds(rows)
    ensures LanguagesOf(rows, e) == {}
  {
    forall c | c in LanguagesOf(rows, e)
      ensures false
    {
      LanguagesOfMembers(rows, e, c);
    }
  }

  lemma GroupStep(pre: seq<Translation>, t: Translation, byEvent: map<string, set<string>>)
    requires GroupedAfter(pre, byEvent)
    ensures var have := if t.eventId in byEvent then byEvent[t.eventId] else {};
            GroupedAfter(pre + [t], byEvent[t.eventId := have + {t.languageCode}])
  {
    EventIdsSnoc(pre, t);
    forall e {
      LanguagesOfSnoc(pre, t, e);
    }
    if t.eventId !in byEvent {
      NoLanguagesYet(pre, t.eventId);
    }
  }

  /** The first pass: the set of language codes of every event. */
  method GroupLanguages(existing: seq<Translation>) returns (byEvent: map<string, set<string>>)
    ensures forall e :: e in byEvent <==> e in EventIds(existing)
    ensures forall e :: e in byEvent ==> byEvent[e] == LanguagesOf(existing, e)
  {
    byEvent := map[];
    var i := 0;
    while i < |existing|
      invariant 0 <= i <= |existing|
      invariant GroupedAfter(existing[..i], byEvent)
    {
      var t := existing[i];
      GroupStep(existing[..i], t, byEvent);
      PrefixSnoc(existing, i);
      if t.eventId !in byEvent {
        byEvent := byEvent[t.eventId := {}];
      }
      byEvent := byEvent[t.eventId := byEvent[t.eventId] + {t.languageCode}];
      i := i + 1;
    }
    assert existing[..i] == existing;
  }

  function Lookup(m: map<string, Translation>, e: string): Option<Translation>
  {
    if e in m then Some(m[e]) else None
  }

  /** What the second pass keeps after visiting `rows`. */
  ghost predicate SourcesAfter(rows: seq<Translation>, order: seq<string>, sources: map<string, Translation>)
  {
    && order == Distinct(EventIds(rows))
    && (forall e :: e in sources <==> e in order)
    && (forall e :: Source(rows, e) == Lookup(sources, e))
  }

  lemma ChooseStep(pre: seq<Translation>, t: Translation, order: seq<string>, sources: map<string, Translation>,
                   order': seq<string>, sources': map<string, Translation>)
    requires SourcesAfter(pre, order, sources)
    requires Replaces(t, Lookup(sources, t.eventId)) ==>
               sources' == sources[t.eventId := t] &&
               order' == if t.eventId in sources then order else order + [t.eventId]
    requires !Replaces(t, Lookup(sources, t.eventId)) ==> sources' == sources && order' == order
    ensures SourcesAfter(pre + [t], order', sources')
  {
    EventIdsSnoc(pre, t);
    DistinctSnoc(EventIds(pre), t.eventId);
    forall e
      ensures Source(pre + [t], e) == Lookup(sources', e)
    {
      SourceSnoc(pre, t, e);
    }
  }

  /** The second pass: the source row of every event, and the events in the
      order the map holds them. */
  method ChooseSources(existing: seq<Translation>) returns (order: seq<string>, sources: map<string, Translation>)
    ensures order == EventOrder(existing)
    ensures forall e :: e in sources <==> e in order
    ensures forall e :: Source(existing, e) == Lookup(sources, e)
  {
    order, sources := [], map[];
    var i := 0;
    while i < |existing|
      invariant 0 <= i <= |existing|
      invariant SourcesAfter(existing[..i], order, sources)
    {
      var t := existing[i];
      ghost var pre := existing[..i];
      ghost var order0, sources0 := order, sources;
      if Replaces(t, Lookup(sources, t.eventId)) {
        order := if t.eventId in sources then order else order + [t.eventId];
        sources := sources[t.eventId := t];
      }
      ChooseStep(pre, t, order0, sources0, order, sources);
      PrefixSnoc(existing, i);
      i := i + 1;
    }
    assert existing[..i] == existing;
  }

  /** The inner loop: one generated row per missing language, appended in
      the order of `toTranslate`. */
  method TranslateEvent(rows: seq<Translation>, e: string, src: Translation, toTranslate: seq<string>)
    returns (rows': seq<Translation>)
    ensures rows' == rows + TranslatedAll(e, src, toTranslate)
  {
    rows' := rows;
    ghost var done: seq<string> := [];
    var j := 0;
    while j < |toTranslate|
      invariant 0 <= j <= |toTranslate| && done == toTranslate[..j]
      invariant rows' == rows + TranslatedAll(e, src, done)
    {
      var code := toTranslate[j];
      var out := TranslateBatch([src.title, src.description, src.message], code);
      var row := Translation(e, code, out[0], out[1], out[2]);
      assert row == Translated(e, src, code);
      TranslatedAllSnoc(e, src, done, code);
      AppendAssoc(rows, TranslatedAll(e, src, done), [row]);
      PrefixSnoc(toTranslate, j);
      rows' := rows' + [row];
      done := done + [code];
      j := j + 1;
    }
    assert done == toTranslate;
  }

  /** One step of the generation loop, on values. */
  lemma GenerateStep(targets: seq<string>, existing: seq<Translation>, done: seq<string>, e: string,
                     src: Translation, rows: seq<Translation>, skipped: nat, rows': seq<Translation>, skipped': nat)
    requires Source(existing, e) == Some(src)
    requires rows == RowsFor(targets, existing, done) && skipped == SkippedFor(targets, existing, done)
    requires var missing := MissingLanguages(targets, LanguagesOf(existing, e));
             if missing == [] then rows' == rows && skipped' == skipped + 1
             else rows' == rows + TranslatedAll(e, src, missing) && skipped' == skipped
    ensures rows' == RowsFor(targets, existing, done + [e])
    ensures skipped' == SkippedFor(targets, existing, done + [e])
  {
    EventSnoc(targets, existing, done, e);
  }

  /** The loop over events and the languages each one lacks. */
  method GenerateMissing(targets: seq<string>, ghost existing: seq<Translation>, order: seq<string>,
                         byEvent: map<string, set<string>>, sources: map<string, Translation>)
    returns (rows: seq<Translation>, created: nat, skipped: nat)
    requires forall e :: e in order ==> (if e in byEvent then byEvent[e] else {}) == LanguagesOf(existing, e)
    requires forall e :: e in order ==> e in sources && Source(existing, e) == Some(sources[e])
    ensures rows == RowsFor(targets, existing, order)
    ensures created == |rows|
    ensures skipped == SkippedFor(targets, existing, order)
  {
    rows, created, skipped := [], 0, 0;
    ghost var done: seq<string> := [];
    var i := 0;
    while i < |order|
      invariant 0 <= i <= |order| && done == order[..i]
      invariant rows == RowsFor(targets, existing, done)
      invariant created == |rows|
      invariant skipped == SkippedFor(targets, existing, done)
    {
      var e := order[i];
      var src := sources[e];
      var have := if e in byEvent then byEvent[e] else {};
      var toTranslate := MissingLanguages(targets, have);
      ghost var rows0, skipped0 := rows, skipped;
      if |toTranslate| == 0 {
        skipped := skipped + 1;
      } else {
        rows := TranslateEvent(rows, e, src, toTranslate);
        created := created + |toTranslate|;
      }
      GenerateStep(targets, existing, done, e, src, rows0, skipped0, rows, skipped);
      PrefixSnoc(order, i);
      done := done + [e];
      i := i + 1;
    }
    assert order[..i] == order;
  }

  /** The insert loop: one request per slice, stopping at the first failure. */
  method InsertInBatches(table: Table, rows: seq<Translation>) returns (ok: bool, inserted: nat)
    modifies table
    ensures ok ==> inserted == |rows| && table.attempts == old(table.attempts) + Slices(rows)
    ensures !ok ==> inserted < |rows| && inserted % BatchSize == 0 &&
                    table.attempts == old(table.attempts) + Slices(rows)[..inserted / BatchSize + 1]
    ensures table.rows == old(table.rows) + rows[..inserted]
  {
    ok, inserted := true, 0;
    if |rows| > 0 {
      var i := 0;
      ghost var k := 0;
      while i < |rows|
        invariant i == BatchSize * k && 0 <= k <= |Slices(rows)|
        invariant inserted == Min(i, |rows|)
        invariant table.rows == old(table.rows) + rows[..inserted]
        invariant table.attempts == old(table.attempts) + Slices(rows)[..k]
      {
        SliceStep(rows, k);
        var batch := rows[i..Min(i + BatchSize, |rows|)];
        ghost var r1, a1 := table.rows, table.attempts;
        var success := table.Insert(batch);
        InsertStep(rows, k, old(table.rows), old(table.attempts), r1, a1, success, table.rows, table.attempts);
        if !success {
          ok := false;
          return;
        }
        inserted := inserted + |batch|;
        i := i + BatchSize;
        k := k + 1;
      }
      SlicesDone(rows, k);
      assert Slices(rows)[..k] == Slices(rows);
    }
    assert rows[..inserted] == rows;
  }

  /** Everything between the read and the first insert: both passes over the
      rows read and the generation loop, with the counters they keep. */
  method PlanTranslations(existing: seq<Translation>) returns (rows: seq<Translation>, stats: Stats)
    ensures rows == NewTranslations(TargetCodes, existing)
    ensures stats == ExpectedStats(existing)
  {
    var byEvent := GroupLanguages(existing);
    var order, sources := ChooseSources(existing);
    var created, skipped;
    rows, created, skipped := GenerateMissing(TargetCodes, existing, order, byEvent, sources);
    stats := Stats(|order|, created, skipped, |TargetCodes|, CeilDiv(|rows|, BatchSize));
  }

  /** One request to the function. */
  method Run(env: Env, table: Table) returns (out: Outcome)
    modifies table
    ensures !Configured(env) ==> out == Failed(MissingEnvironment)
    ensures out.Failed? && out.reason != InsertFailed ==>
              table.rows == old(table.rows) && table.attempts == old(table.attempts)
    ensures out.Success? ==>
              Configured(env) &&
              out.stats == ExpectedStats(old(table.rows)) &&
              out.message == SuccessMessage(out.stats) &&
              table.rows == old(table.rows) + NewTranslations(TargetCodes, old(table.rows)) &&
              table.attempts == old(table.attempts) + Slices(NewTranslations(TargetCodes, old(table.rows)))
    ensures out == Failed(InsertFailed) ==>
              var all := NewTranslations(TargetCodes, old(table.rows));
              exists m :: 0 <= m < |all| && m % BatchSize == 0 &&
                table.rows == old(table.rows) + all[..m] &&
                table.attempts == old(table.attempts) + Slices(all)[..m / BatchSize + 1]
  {
    if !Configured(env) {
      return Failed(MissingEnvironment);
    }
    var fetched := table.Select();
    if fetched.None? {
      return Failed(FetchFailed);
    }
    var rows, stats := PlanTranslations(fetched.value);
    var ok, inserted := InsertInBatches(table, rows);
    if !ok {
      assert 0 <= inserted < |rows| && inserted % BatchSize == 0 &&
             table.rows == old(table.rows) + rows[..inserted] &&
             table.attempts == old(table.attempts) + Slices(rows)[..inserted / BatchSize + 1];
      return Failed(InsertFailed);
    }
    out := Success(SuccessMessage(stats), stats);
  }
}

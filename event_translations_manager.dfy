/** The event translations screen: the sort state and the comparator of the
    table, the four filters, the grouping of events and translations by
    category, the name lookups, the list of languages in use and the bulk
    delete of the English rows. */
module EventTranslationsManager {
  import opened Common

  /** A gamification event as the screen loads it. */
  datatype GamificationEvent = GamificationEvent(id: string, eventType: string, isActive: bool, category: Option<string>)

  /** A translation row; `updated_at` is kept as the time it denotes. */
  datatype EventTranslation = EventTranslation(
    id: string, eventId: string, languageCode: string, title: string, description: string, message: string,
    updatedAt: int)

  datatype EventCategory = EventCategory(id: string, name: string)

  // ---------------------------------------------------------------------
  // Name lookups

  /** The screen's ten language names; the functions below take the table as
      a parameter. */
  const CommonLanguages: seq<(string, string)> := [
    ("en", "English"), ("es", "Spanish"), ("fr", "French"), ("de", "German"), ("it", "Italian"),
    ("pt", "Portuguese"), ("ru", "Russian"), ("ja", "Japanese"), ("ko", "Korean"), ("zh", "Chinese")]

  /** The first event with the id, as `events.find`. */
  function FindEvent(events: seq<GamificationEvent>, eventId: string): Option<GamificationEvent>
  {
    match FirstIndex(events, (e: GamificationEvent) => e.id == eventId)
    case None => None
    case Some(i) => Some(events[i])
  }

  /** FindEvent finds nothing exactly when no event has the id, and
      otherwise the first event that has it. */
  lemma FindEventSpec(events: seq<GamificationEvent>, eventId: string)
    ensures FindEvent(events, eventId).None? <==> forall e :: e in events ==> e.id != eventId
    ensures FindEvent(events, eventId).Some? ==>
              exists i :: 0 <= i < |events| && events[i] == FindEvent(events, eventId).value &&
                          events[i].id == eventId && forall j :: 0 <= j < i ==> events[j].id != eventId
  {
    var p := (e: GamificationEvent) => e.id == eventId;
    var k := FirstIndex(events, p);
    if k.None? {
      forall e | e in events ensures e.id != eventId {
        var i :| 0 <= i < |events| && events[i] == e;
        assert !p(events[i]);
      }
    } else {
      assert p(events[k.value]);
      assert forall j :: 0 <= j < k.value ==> !p(events[j]);
    }
  }

  /** getEventTitle: the event type of the first event with the id, or
      "Unknown Event". */
  function EventTitle(events: seq<GamificationEvent>, eventId: string): (r: string)
    ensures (forall e :: e in events ==> e.id != eventId) ==> r == "Unknown Event"
    ensures forall i :: 0 <= i < |events| && events[i].id == eventId && (forall j :: 0 <= j < i ==> events[j].id != eventId)
              ==> r == events[i].eventType
  {
    FindEventSpec(events, eventId);
    match FindEvent(events, eventId)
    case None => "Unknown Event"
    case Some(e) => e.eventType
  }

  /** getCategoryName: "Uncategorized" for a missing or empty id, the name of
      the first category with the id, or "Unknown Category". */
  function CategoryName(categories: seq<EventCategory>, categoryId: Option<string>): (r: string)
    ensures categoryId.None? || categoryId == Some("") ==> r == "Uncategorized"
    ensures (categoryId.Some? && categoryId.value != "" && forall c :: c in categories ==> c.id != categoryId.value) ==>
              r == "Unknown Category"
    ensures categoryId.Some? && categoryId.value != "" ==>
              forall i :: (0 <= i < |categories| && categories[i].id == categoryId.value &&
                           forall j :: 0 <= j < i ==> categories[j].id != categoryId.value) ==> r == categories[i].name
  {
    if categoryId.None? || categoryId.value == "" then "Uncategorized"
    else
      var k := FirstIndex(categories, (c: EventCategory) => c.id == categoryId.value);
      if k.None? then
        assert forall c :: c in categories ==> c.id != categoryId.value;
        "Unknown Category"
      else
        categories[k.value].name
  }

  /** getLanguageName: the name of the code in the ten-language table, which
      is matched as written, or else the upper-cased code. */
  function LanguageName(languages: seq<(string, string)>, code: string): (r: string)
    ensures (forall i :: 0 <= i < |languages| ==> languages[i].0 != code) ==> r == ToUpper(code)
    ensures forall i :: (0 <= i < |languages| && languages[i].0 == code &&
                         forall j :: 0 <= j < i ==> languages[j].0 != code) ==> r == languages[i].1
  {
    match Find(languages, code)
    case None => ToUpper(code)
    case Some(name) => name
  }

  // ---------------------------------------------------------------------
  // Sorting

  datatype Direction = Asc | Desc

  /** The column and the direction the table is sorted by; a click on a
      column header is handleSort. */
  class SortState {
    var column: string
    var direction: Direction

    /** The table starts sorted by update time, newest first. */
    constructor ()
      ensures column == "updated_at" && direction == Desc
    {
      column := "updated_at";
      direction := Desc;
    }

    /** A click on the sorted column reverses the direction; a click on
        another column sorts by it, ascending. */
    method HandleSort(c: string)
      modifies this
      ensures column == c
      ensures old(column) == c ==> direction != old(direction)
      ensures old(column) != c ==> direction == Asc
    {
      if column == c {
        direction := if direction == Asc then Desc else Asc;
      } else {
        column := c;
        direction := Asc;
      }
    }
  }

  /** The value a row is compared by: lower-cased text, or a time. */
  datatype SortValue = Text(text: string) | Time(time: int)

  /** The value of a row in a column, or None for a column the comparator
      does not know. */
  function SortValueOf(events: seq<GamificationEvent>, languages: seq<(string, string)>, column: string,
                       t: EventTranslation): Option<SortValue>
  {
    if column == "event" then Some(Text(ToLower(EventTitle(events, t.eventId))))
    else if column == "language" then Some(Text(ToLower(LanguageName(languages, t.languageCode))))
    else if column == "title" then Some(Text(ToLower(t.title)))
    else if column == "description" then Some(Text(ToLower(t.description)))
    else if column == "message" then Some(Text(ToLower(t.message)))
    else if column == "updated_at" then Some(Time(t.updatedAt))
    else None
  }

  /** The comparator of sortData: text by localeCompare, times by < and >,
      each turned around for the descending direction, and 0 for an unknown
      column. */
  function Compare(events: seq<GamificationEvent>, languages: seq<(string, string)>, column: string,
                   direction: Direction, a: EventTranslation, b: EventTranslation): int
  {
    match (SortValueOf(events, languages, column, a), SortValueOf(events, languages, column, b))
    case (Some(Text(x)), Some(Text(y))) => if direction == Asc then CompareStrings(x, y) else CompareStrings(y, x)
    case (Some(Time(x)), Some(Time(y))) =>
      if direction == Asc then (if x < y then -1 else if x > y then 1 else 0)
      else (if x > y then -1 else if x < y then 1 else 0)
    case _ => 0
  }

  /** The comparator sortData passes to sort. */
  function Comparator(events: seq<GamificationEvent>, languages: seq<(string, string)>, column: string,
                      direction: Direction): (EventTranslation, EventTranslation) -> int
  {
    (a, b) => Compare(events, languages, column, direction, a, b)
  }

  /** sortData: a sorted copy of the rows. */
  function SortData(events: seq<GamificationEvent>, languages: seq<(string, string)>, column: string,
                    direction: Direction, data: seq<EventTranslation>): seq<EventTranslation>
  {
    SortBy(data, Comparator(events, languages, column, direction))
  }

  /** Both values of a known column have the same kind. */
  lemma SortValueKinds(events: seq<GamificationEvent>, languages: seq<(string, string)>, column: string, a: EventTranslation, b: EventTranslation)
    ensures SortValueOf(events, languages, column, a).None? <==> SortValueOf(events, languages, column, b).None?
    ensures SortValueOf(events, languages, column, a).Some? ==>
              SortValueOf(events, languages, column, a).value.Text? == SortValueOf(events, languages, column, b).value.Text?
  {
  }

  /** For every column, the descending comparator is the ascending one
      negated. */
  lemma DescendingIsNegatedAscending(events: seq<GamificationEvent>, languages: seq<(string, string)>, column: string, a: EventTranslation, b: EventTranslation)
    ensures Compare(events, languages, column, Desc, a, b) == -Compare(events, languages, column, Asc, a, b)
  {
    SortValueKinds(events, languages, column, a, b);
    match (SortValueOf(events, languages, column, a), SortValueOf(events, languages, column, b))
    case (Some(Text(x)), Some(Text(y))) => CompareStringsAntisymmetric(x, y);
    case _ =>
  }

  /** The comparator orders the rows totally in every column and direction. */
  lemma CompareIsTotalPreorder(events: seq<GamificationEvent>, languages: seq<(string, string)>, column: string, direction: Direction)
    ensures TotalPreorder(Comparator(events, languages, column, direction))
  {
    var cmp := Comparator(events, languages, column, direction);
    forall a, b ensures cmp(a, b) <= 0 || cmp(b, a) <= 0 {
      SortValueKinds(events, languages, column, a, b);
      if SortValueOf(events, languages, column, a).Some? && SortValueOf(events, languages, column, a).value.Text? {
        CompareStringsAntisymmetric(SortValueOf(events, languages, column, a).value.text, SortValueOf(events, languages, column, b).value.text);
      }
    }
    forall a, b, c | cmp(a, b) <= 0 && cmp(b, c) <= 0 ensures cmp(a, c) <= 0 {
      SortValueKinds(events, languages, column, a, b);
      SortValueKinds(events, languages, column, b, c);
      if SortValueOf(events, languages, column, a).Some? && SortValueOf(events, languages, column, a).value.Text? {
        var x, y, z := SortValueOf(events, languages, column, a).value.text, SortValueOf(events, languages, column, b).value.text,
                       SortValueOf(events, languages, column, c).value.text;
        if direction == Asc {
          CompareStringsTransitive(x, y, z);
        } else {
          CompareStringsTransitive(z, y, x);
        }
      }
    }
  }

  /** sortData returns its rows rearranged, ordered by the comparator; for a
      column the comparator does not know, in their input order. */
  lemma SortDataSpec(events: seq<GamificationEvent>, languages: seq<(string, string)>, column: string, direction: Direction, data: seq<EventTranslation>)
    ensures multiset(SortData(events, languages, column, direction, data)) == multiset(data)
    ensures SortedBy(SortData(events, languages, column, direction, data), Comparator(events, languages, column, direction))
    ensures forall x :: Ties(SortData(events, languages, column, direction, data), x, Comparator(events, languages, column, direction)) ==
                        Ties(data, x, Comparator(events, languages, column, direction))
    ensures SortValueOf(events, languages, column, EventTranslation("", "", "", "", "", "", 0)).None? ==>
              SortData(events, languages, column, direction, data) == data
  {
    var cmp := Comparator(events, languages, column, direction);
    CompareIsTotalPreorder(events, languages, column, direction);
    SortBySorted(data, cmp);
    forall x ensures Ties(SortBy(data, cmp), x, cmp) == Ties(data, x, cmp) {
      SortByStable(data, x, cmp);
    }
    if SortValueOf(events, languages, column, EventTranslation("", "", "", "", "", "", 0)).None? {
      forall a, b ensures cmp(a, b) == 0 {
        SortValueKinds(events, languages, column, a, EventTranslation("", "", "", "", "", "", 0));
      }
      SortByAllEqual(data, cmp);
    }
  }

  // ---------------------------------------------------------------------
  // Filtering

  /** The search box and the three drop-downs; "all" selects everything. */
  datatype TranslationFilters = TranslationFilters(search: string, event: string, language: string, category: string)

  const NoFilters := TranslationFilters("", "all", "all", "all")

  /** The search term occurs, ignoring case, in the title, the description,
      the message, the event's type ("" for an unknown event) or the
      language code. */
  predicate MatchesSearch(events: seq<GamificationEvent>, t: EventTranslation, search: string)
  {
    var ev := FindEvent(events, t.eventId);
    var eventTitle := if ev.Some? then ev.value.eventType else "";
    var term := ToLower(search);
    || Includes(ToLower(t.title), term)
    || Includes(ToLower(t.description), term)
    || Includes(ToLower(t.message), term)
    || Includes(ToLower(eventTitle), term)
    || Includes(ToLower(t.languageCode), term)
  }

  /** The category drop-down matches only a known event whose category is
      exactly the selected value. */
  predicate MatchesCategory(events: seq<GamificationEvent>, t: EventTranslation, category: string)
  {
    var ev := FindEvent(events, t.eventId);
    category == "all" || (ev.Some? && ev.value.category == Some(category))
  }

  predicate Matches(events: seq<GamificationEvent>, f: TranslationFilters, t: EventTranslation)
  {
    && MatchesSearch(events, t, f.search)
    && (f.event == "all" || t.eventId == f.event)
    && (f.language == "all" || t.languageCode == f.language)
    && MatchesCategory(events, t, f.category)
  }

  /** filteredTranslations. */
  function FilteredTranslations(events: seq<GamificationEvent>, translations: seq<EventTranslation>,
                                f: TranslationFilters): seq<EventTranslation>
  {
    Filter(translations, t => Matches(events, f, t))
  }

  /** The filtered list is a subsequence holding exactly the rows that pass
      all four filters; with no filter set it is the whole list. */
  lemma FilteredTranslationsSpec(events: seq<GamificationEvent>, translations: seq<EventTranslation>,
                                 f: TranslationFilters, t: EventTranslation)
    ensures IsSubsequence(FilteredTranslations(events, translations, f), translations)
    ensures t in FilteredTranslations(events, translations, f) <==>
              t in translations && MatchesSearch(events, t, f.search) && (f.event == "all" || t.eventId == f.event) &&
              (f.language == "all" || t.languageCode == f.language) && MatchesCategory(events, t, f.category)
    ensures FilteredTranslations(events, translations, NoFilters) == translations
  {
    FilterIsSubsequence(translations, t => Matches(events, f, t));
    forall i | 0 <= i < |translations| ensures Matches(events, NoFilters, translations[i]) {
      IncludesEmpty(ToLower(translations[i].title));
    }
  }

  /** Under a category filter, a row of an unknown event is never shown, and
      the "Uncategorized" value "" never matches an event without a
      category. */
  lemma CategoryFilterNeedsEvent(events: seq<GamificationEvent>, t: EventTranslation, category: string)
    ensures category != "all" && (forall e :: e in events ==> e.id != t.eventId) ==> !MatchesCategory(events, t, category)
    ensures FindEvent(events, t.eventId).Some? && FindEvent(events, t.eventId).value.category.None? ==>
              !MatchesCategory(events, t, "")
  {
    FindEventSpec(events, t.eventId);
  }

  // ---------------------------------------------------------------------
  // Grouping by category

  /** The events whose category name is k, in event order. */
  function Group(categories: seq<EventCategory>, events: seq<GamificationEvent>, k: string): seq<GamificationEvent>
  {
    Filter(events, (e: GamificationEvent) => CategoryName(categories, e.category) == k)
  }

  /** The category names of the events. */
  function GroupNames(categories: seq<EventCategory>, events: seq<GamificationEvent>): set<string>
  {
    set e | e in events :: CategoryName(categories, e.category)
  }

  /** grouped holds, for each category name of the events seen so far, those
      events in order. */
  ghost predicate GroupedAs(categories: seq<EventCategory>, events: seq<GamificationEvent>,
                            grouped: map<string, seq<GamificationEvent>>)
  {
    && grouped.Keys == GroupNames(categories, events)
    && forall k :: k in grouped ==> grouped[k] == Group(categories, events, k)
  }

  lemma GroupSnoc(categories: seq<EventCategory>, done: seq<GamificationEvent>, e: GamificationEvent, j: string)
    ensures Group(categories, done + [e], j) ==
            Group(categories, done, j) + if CategoryName(categories, e.category) == j then [e] else []
  {
    FilterAppend(done, [e], (x: GamificationEvent) => CategoryName(categories, x.category) == j);
  }

  lemma GroupNamesSnoc(categories: seq<EventCategory>, done: seq<GamificationEvent>, e: GamificationEvent)
    ensures GroupNames(categories, done + [e]) == GroupNames(categories, done) + {CategoryName(categories, e.category)}
  {
  }

  /** A name that no event has yet names an empty group. */
  lemma GroupNew(categories: seq<EventCategory>, done: seq<GamificationEvent>, j: string)
    requires j !in GroupNames(categories, done)
    ensures Group(categories, done, j) == []
  {
    FilterNone(done, (x: GamificationEvent) => CategoryName(categories, x.category) == j);
  }

  lemma GroupStep(categories: seq<EventCategory>, done: seq<GamificationEvent>, e: GamificationEvent,
                  grouped: map<string, seq<GamificationEvent>>)
    requires GroupedAs(categories, done, grouped)
    ensures var k := CategoryName(categories, e.category);
            GroupedAs(categories, done + [e],
                      grouped[k := (if k in grouped then grouped[k] else []) + [e]])
  {
    var k := CategoryName(categories, e.category);
    var g := grouped[k := (if k in grouped then grouped[k] else []) + [e]];
    GroupNamesSnoc(categories, done, e);
    forall j | j in g ensures g[j] == Group(categories, done + [e], j) {
      GroupSnoc(categories, done, e, j);
      if j == k && k !in grouped {
        GroupNew(categories, done, j);
      }
    }
  }

  /** groupEventsByCategory. */
  method GroupEventsByCategory(categories: seq<EventCategory>, events: seq<GamificationEvent>)
    returns (grouped: map<string, seq<GamificationEvent>>)
    ensures grouped.Keys == GroupNames(categories, events)
    ensures forall k :: k in grouped ==> grouped[k] == Group(categories, events, k)
  {
    grouped := map[];
    ghost var done: seq<GamificationEvent> := [];
    for i := 0 to |events|
      invariant done == events[..i]
      invariant GroupedAs(categories, done, grouped)
    {
      var e := events[i];
      var k := CategoryName(categories, e.category);
      GroupStep(categories, done, e, grouped);
      if k !in grouped {
        grouped := grouped[k := []];
      }
      grouped := grouped[k := grouped[k] + [e]];
      PrefixSnoc(events, i);
      done := done + [e];
    }
    assert events[..|events|] == events;
  }

  /** Every event is in exactly one group, the one named by its category. */
  lemma GroupsPartitionEvents(categories: seq<EventCategory>, events: seq<GamificationEvent>,
                              grouped: map<string, seq<GamificationEvent>>, e: GamificationEvent, k: string)
    requires grouped.Keys == GroupNames(categories, events)
    requires forall k :: k in grouped ==> grouped[k] == Group(categories, events, k)
    requires e in events
    ensures CategoryName(categories, e.category) in grouped
    ensures k in grouped ==> (e in grouped[k] <==> k == CategoryName(categories, e.category))
  {
  }

  /** The rows whose event is among the group's events. */
  function RowsOfEvents(translations: seq<EventTranslation>, group: seq<GamificationEvent>): seq<EventTranslation>
  {
    Filter(translations, (t: EventTranslation) => HasEvent(group, t.eventId))
  }

  predicate HasEvent(group: seq<GamificationEvent>, eventId: string)
  {
    exists e :: e in group && e.id == eventId
  }

  /** getTranslationsByCategory: for each group, the rows of its events. */
  method TranslationsByCategory(categories: seq<EventCategory>, events: seq<GamificationEvent>,
                                translations: seq<EventTranslation>)
    returns (result: map<string, seq<EventTranslation>>)
    ensures result.Keys == GroupNames(categories, events)
    ensures forall k :: k in result ==> result[k] == RowsOfEvents(translations, Group(categories, events, k))
  {
    var grouped := GroupEventsByCategory(categories, events);
    result := RowsPerGroup(grouped, translations);
  }

  /** The loop over the groups' entries of getTranslationsByCategory. */
  method RowsPerGroup(grouped: map<string, seq<GamificationEvent>>, translations: seq<EventTranslation>)
    returns (result: map<string, seq<EventTranslation>>)
    ensures result.Keys == grouped.Keys
    ensures forall k :: k in result ==> result[k] == RowsOfEvents(translations, grouped[k])
  {
    result := map[];
    var pending := grouped.Keys;
    while pending != {}
      invariant pending <= grouped.Keys
      invariant result.Keys == grouped.Keys - pending
      invariant forall k :: k in result ==> result[k] == RowsOfEvents(translations, grouped[k])
      decreases |pending|
    {
      var k :| k in pending;
      result := result[k := RowsOfEvents(translations, grouped[k])];
      pending := pending - {k};
    }
  }

  /** A row under a category belongs to an event of that category; rows of
      unknown events are under none. */
  lemma TranslationsByCategorySound(categories: seq<EventCategory>, events: seq<GamificationEvent>,
                                    translations: seq<EventTranslation>, k: string, t: EventTranslation)
    requires t in RowsOfEvents(translations, Group(categories, events, k))
    ensures t in translations
    ensures exists e :: e in events && e.id == t.eventId && CategoryName(categories, e.category) == k
  {
    assert HasEvent(Group(categories, events, k), t.eventId);
    var e :| e in Group(categories, events, k) && e.id == t.eventId;
    assert e in events;
  }

  // ---------------------------------------------------------------------
  // Languages in use and the bulk delete of English rows

  function LanguageCodes(translations: seq<EventTranslation>): (r: seq<string>)
    ensures |r| == |translations| && forall i :: 0 <= i < |r| ==> r[i] == translations[i].languageCode
  {
    seq(|translations|, i requires 0 <= i < |translations| => translations[i].languageCode)
  }

  /** usedLanguages: each language code of the rows once, in order of first
      appearance. */
  function UsedLanguages(translations: seq<EventTranslation>): (r: seq<string>)
    ensures NoDuplicates(r)
    ensures forall c :: c in r <==> exists t :: t in translations && t.languageCode == c
  {
    var codes := LanguageCodes(translations);
    assert forall c :: c in codes <==> exists t :: t in translations && t.languageCode == c by {
      forall c | c in codes ensures exists t :: t in translations && t.languageCode == c {
        var i :| 0 <= i < |codes| && codes[i] == c;
        assert translations[i] in translations;
      }
      forall c | exists t :: t in translations && t.languageCode == c ensures c in codes {
        var t :| t in translations && t.languageCode == c;
        var i :| 0 <= i < |translations| && translations[i] == t;
        assert codes[i] == c;
      }
    }
    Distinct(codes)
  }

  /** The languages of the first k rows lead the list, in the same order:
      each language is listed where it first appears. */
  lemma UsedLanguagesFirstAppearance(translations: seq<EventTranslation>, k: nat)
    requires k <= |translations|
    ensures UsedLanguages(translations[..k]) <= UsedLanguages(translations)
  {
    assert LanguageCodes(translations[..k]) == LanguageCodes(translations)[..k];
    DistinctPrefix(LanguageCodes(translations), k);
  }

  predicate IsEnglish(t: EventTranslation) { t.languageCode == "en" }

  datatype BulkDeleteOutcome = NothingToDelete | Cancelled | Deleted(count: nat) | DeleteFailed

  /** The server's translation table. */
  class TranslationTable {
    var rows: seq<EventTranslation>

    constructor (rows: seq<EventTranslation>)
      ensures this.rows == rows
    {
      this.rows := rows;
    }

    /** `.delete().eq('language_code', 'en')`, which may be refused. */
    method DeleteEnglish() returns (ok: bool)
      modifies this
      ensures rows == if ok then Filter(old(rows), t => !IsEnglish(t)) else old(rows)
    {
      ok :| true;
      if ok {
        rows := Filter(rows, t => !IsEnglish(t));
      }
    }
  }

  /** handleBulkDeleteEnglish: nothing when the loaded list has no English
      row or the user does not confirm; otherwise one delete of every
      English row on the server, reported with the loaded list's count. */
  method HandleBulkDeleteEnglish(table: TranslationTable, loaded: seq<EventTranslation>, confirmed: bool)
    returns (out: BulkDeleteOutcome)
    modifies table
    ensures Count(loaded, IsEnglish) == 0 ==> out == NothingToDelete
    ensures Count(loaded, IsEnglish) > 0 && !confirmed ==> out == Cancelled
    ensures out.Deleted? ==> out.count == Count(loaded, IsEnglish) && confirmed
    ensures table.rows == if out.Deleted? then Filter(old(table.rows), t => !IsEnglish(t)) else old(table.rows)
  {
    var english := Filter(loaded, IsEnglish);
    CountIsFilterLength(loaded, IsEnglish);
    if |english| == 0 {
      return NothingToDelete;
    }
    if !confirmed {
      return Cancelled;
    }
    var ok := table.DeleteEnglish();
    out := if ok then Deleted(|english|) else DeleteFailed;
  }

  /** The bulk delete removes exactly the English rows, keeps the others in
      order, and leaves no English row behind. */
  lemma DeleteEnglishEffect(rows: seq<EventTranslation>, t: EventTranslation)
    ensures t in Filter(rows, t => !IsEnglish(t)) <==> t in rows && t.languageCode != "en"
    ensures IsSubsequence(Filter(rows, t => !IsEnglish(t)), rows)
    ensures Count(Filter(rows, t => !IsEnglish(t)), IsEnglish) == 0
  {
    var kept := Filter(rows, t => !IsEnglish(t));
    FilterIsSubsequence(rows, t => !IsEnglish(t));
    CountIsFilterLength(kept, IsEnglish);
    FilterNone(kept, IsEnglish);
  }
}

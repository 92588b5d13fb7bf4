/** The gamification-events screen: the event form and how it is saved,
    toggling an event on or off, the search/status/category filters, the
    category dropdown and labels, and the numeric inputs of the form. */
module GamificationEventsManager {
  import opened Common

  /** A row of `gamification_events`. The metadata JSON object is kept as
      an uninterpreted value (its canonical text). */
  datatype GamificationEvent = GamificationEvent(
    id: string,
    eventType: string,
    coinsReward: int,
    isActive: bool,
    metadata: string,
    category: Option<string>,
    position: int)

  datatype EventCategory = EventCategory(id: string, name: string)

  /** The form; the category select holds '' for "no category". */
  datatype EventForm = EventForm(eventType: string, coinsReward: int, category: string, isActive: bool, position: int)

  /** What handleSave writes: the form, the parsed metadata, and the
      category with '' turned into null. */
  datatype EventData = EventData(
    eventType: string,
    coinsReward: int,
    isActive: bool,
    metadata: string,
    category: Option<string>,
    position: int)

  /** The form after resetForm (and when the screen opens). */
  const EmptyForm: EventForm := EventForm("", 1, "", true, 0)

  // ---------------------------------------------------------------------
  // The form

  /** handleEdit: the form filled from an event; a null category shows as ''. */
  function FormOf(e: GamificationEvent): (f: EventForm)
    ensures f.category == OrEmpty(e.category)
    ensures f.eventType == e.eventType && f.coinsReward == e.coinsReward && f.isActive == e.isActive && f.position == e.position
  {
    EventForm(e.eventType, e.coinsReward, OrEmpty(e.category), e.isActive, e.position)
  }

  /** eventData: every form field kept, the parsed metadata, and an empty
      category stored as null. */
  function EventDataOf(form: EventForm, metadata: string): (d: EventData)
    ensures d.category.None? <==> form.category == ""
    ensures d.category.Some? ==> d.category.value == form.category
    ensures d.eventType == form.eventType && d.coinsReward == form.coinsReward
    ensures d.isActive == form.isActive && d.position == form.position && d.metadata == metadata
  {
    EventData(form.eventType, form.coinsReward, form.isActive, metadata,
              if form.category == "" then None else Some(form.category), form.position)
  }

  /** The row an update with `d` leaves behind: the id is kept, every other
      column comes from d. */
  function Updated(e: GamificationEvent, d: EventData): GamificationEvent
  {
    GamificationEvent(e.id, d.eventType, d.coinsReward, d.isActive, d.metadata, d.category, d.position)
  }

  /** `.update(d).eq('id', id)` on the rows. */
  function UpdateRows(rows: seq<GamificationEvent>, id: string, d: EventData): (r: seq<GamificationEvent>)
    ensures |r| == |rows|
    ensures forall i :: 0 <= i < |rows| && rows[i].id != id ==> r[i] == rows[i]
    ensures forall i :: 0 <= i < |rows| && rows[i].id == id ==> r[i] == Updated(rows[i], d)
  {
    MapSeq(rows, (e: GamificationEvent) => if e.id == id then Updated(e, d) else e)
  }

  /** `.update({is_active: active}).eq('id', id)` on the rows. */
  function SetActiveRows(rows: seq<GamificationEvent>, id: string, active: bool): (r: seq<GamificationEvent>)
    ensures |r| == |rows|
    ensures forall i :: 0 <= i < |rows| && rows[i].id != id ==> r[i] == rows[i]
    ensures forall i :: 0 <= i < |rows| && rows[i].id == id ==> r[i] == rows[i].(isActive := active)
  {
    MapSeq(rows, (e: GamificationEvent) => if e.id == id then e.(isActive := active) else e)
  }

  /** Opening an event in the form and saving it unchanged writes the event
      back as it was, unless its category was the empty string, which comes
      back as null. */
  lemma EditAndSaveUnchanged(e: GamificationEvent)
    ensures e.category != Some("") ==> Updated(e, EventDataOf(FormOf(e), e.metadata)) == e
    ensures e.category == Some("") ==> Updated(e, EventDataOf(FormOf(e), e.metadata)) == e.(category := None)
  {
  }

  // ---------------------------------------------------------------------
  // The events table

  /** The `gamification_events` table behind the Supabase client; each
      request may be refused. */
  class EventsTable {
    var rows: seq<GamificationEvent>

    constructor (rows: seq<GamificationEvent>)
      ensures this.rows == rows
    {
      this.rows := rows;
    }

    method Update(id: string, d: EventData) returns (ok: bool)
      modifies this
      ensures rows == if ok then UpdateRows(old(rows), id, d) else old(rows)
    {
      ok :| true;
      if ok {
        rows := UpdateRows(rows, id, d);
      }
    }

    /** An insert; the new row's id is the one the database generates. */
    method Insert(newId: string, d: EventData) returns (ok: bool)
      modifies this
      ensures rows == if ok then old(rows) + [Updated(GamificationEvent(newId, "", 0, false, "", None, 0), d)] else old(rows)
    {
      ok :| true;
      if ok {
        rows := rows + [Updated(GamificationEvent(newId, "", 0, false, "", None, 0), d)];
      }
    }

    method SetActive(id: string, active: bool) returns (ok: bool)
      modifies this
      ensures rows == if ok then SetActiveRows(old(rows), id, active) else old(rows)
    {
      ok :| true;
      if ok {
        rows := SetActiveRows(rows, id, active);
      }
    }
  }

  datatype SaveOutcome = InvalidMetadata | Saved | SaveFailed

  /** handleSave. `parsed` is what JSON.parse made of the metadata text
      (None when it threw), `editing` the event being edited, and `newId`
      the id the database gives an inserted row. Unparsable metadata writes
      nothing; otherwise an edit updates that event and a new event is
      inserted, each only if the store accepts it. */
  method HandleSave(table: EventsTable, editing: Option<GamificationEvent>, form: EventForm,
                    parsed: Option<string>, newId: string) returns (outcome: SaveOutcome)
    modifies table
    ensures parsed.None? ==> outcome == InvalidMetadata && table.rows == old(table.rows)
    ensures parsed.Some? ==> outcome != InvalidMetadata
    ensures parsed.Some? && editing.Some? ==>
              table.rows == if outcome == Saved then UpdateRows(old(table.rows), editing.value.id, EventDataOf(form, parsed.value))
                            else old(table.rows)
    ensures parsed.Some? && editing.None? ==>
              table.rows == if outcome == Saved
                            then old(table.rows) + [Updated(GamificationEvent(newId, "", 0, false, "", None, 0), EventDataOf(form, parsed.value))]
                            else old(table.rows)
  {
    if parsed.None? {
      return InvalidMetadata;
    }
    var d := EventDataOf(form, parsed.value);
    var ok: bool;
    if editing.Some? {
      ok := table.Update(editing.value.id, d);
    } else {
      ok := table.Insert(newId, d);
    }
    outcome := if ok then Saved else SaveFailed;
  }

  /** toggleEventStatus: writes the negation of the shown is_active to the
      rows with that id. */
  method ToggleEventStatus(table: EventsTable, event: GamificationEvent) returns (ok: bool)
    modifies table
    ensures table.rows == if ok then SetActiveRows(old(table.rows), event.id, !event.isActive) else old(table.rows)
  {
    ok := table.SetActive(event.id, !event.isActive);
  }

  /** Toggling a freshly loaded event and then toggling the reloaded event
      again restores the table. */
  lemma ToggleTwiceRestores(rows: seq<GamificationEvent>, event: GamificationEvent)
    requires forall i :: 0 <= i < |rows| && rows[i].id == event.id ==> rows[i].isActive == event.isActive
    ensures SetActiveRows(SetActiveRows(rows, event.id, !event.isActive), event.id, event.isActive) == rows
  {
    var once := SetActiveRows(rows, event.id, !event.isActive);
    var twice := SetActiveRows(once, event.id, event.isActive);
    assert forall i :: 0 <= i < |rows| ==> twice[i] == rows[i];
  }

  // ---------------------------------------------------------------------
  // Labels, filters and the category dropdown

  /** getCategoryName: '-' for a missing or empty id, the name of the first
      category with the id, or the raw id. */
  function CategoryName(categories: seq<EventCategory>, categoryId: Option<string>): (r: string)
    ensures OrEmpty(categoryId) == "" ==> r == "-"
    ensures (OrEmpty(categoryId) != "" && forall c :: c in categories ==> c.id != categoryId.value) ==> r == categoryId.value
    ensures OrEmpty(categoryId) != "" ==>
              forall i :: (0 <= i < |categories| && categories[i].id == categoryId.value &&
                           forall j :: 0 <= j < i ==> categories[j].id != categoryId.value) ==> r == categories[i].name
  {
    if OrEmpty(categoryId) == "" then "-"
    else
      var k := FirstIndex(categories, (c: EventCategory) => c.id == categoryId.value);
      if k.None? then
        assert forall c :: c in categories ==> c.id != categoryId.value;
        categoryId.value
      else
        categories[k.value].name
  }

  /** The search box: the lower-cased term occurs in the event type or the
      category id. */
  predicate MatchesSearch(e: GamificationEvent, search: string)
  {
    var q := ToLower(search);
    Includes(ToLower(e.eventType), q) || Includes(ToLower(OrEmpty(e.category)), q)
  }

  /** The status select: "all", "active" or "inactive"; any other value
      keeps nothing. */
  predicate MatchesStatus(statusFilter: string, e: GamificationEvent)
  {
    statusFilter == "all" || (statusFilter == "active" && e.isActive) || (statusFilter == "inactive" && !e.isActive)
  }

  /** The category select: "all", or the exact category (a null category
      matches no choice but "all"). */
  predicate MatchesCategory(categoryFilter: string, e: GamificationEvent)
  {
    categoryFilter == "all" || e.category == Some(categoryFilter)
  }

  predicate Matches(e: GamificationEvent, search: string, statusFilter: string, categoryFilter: string)
  {
    MatchesSearch(e, search) && MatchesStatus(statusFilter, e) && MatchesCategory(categoryFilter, e)
  }

  /** filteredEvents: the events, in order, that pass all three filters;
      an empty search under "all"/"all" keeps every event. */
  function FilteredEvents(events: seq<GamificationEvent>, search: string, statusFilter: string, categoryFilter: string): (r: seq<GamificationEvent>)
    ensures IsSubsequence(r, events)
    ensures forall e :: e in r <==> e in events && Matches(e, search, statusFilter, categoryFilter)
    ensures search == "" && statusFilter == "all" && categoryFilter == "all" ==> r == events
  {
    FilterIsSubsequence(events, (e: GamificationEvent) => Matches(e, search, statusFilter, categoryFilter));
    Filter(events, (e: GamificationEvent) => Matches(e, search, statusFilter, categoryFilter))
  }

  /** "active" keeps only active events and "inactive" only inactive ones,
      and between them they hold exactly what "all" holds. */
  lemma {:induction false} StatusFilterSplits(events: seq<GamificationEvent>, search: string, categoryFilter: string)
    ensures forall e :: e in FilteredEvents(events, search, "active", categoryFilter) ==> e.isActive
    ensures forall e :: e in FilteredEvents(events, search, "inactive", categoryFilter) ==> !e.isActive
    ensures |FilteredEvents(events, search, "active", categoryFilter)| + |FilteredEvents(events, search, "inactive", categoryFilter)|
            == |FilteredEvents(events, search, "all", categoryFilter)|
  {
    if events != [] {
      StatusFilterSplits(events[1..], search, categoryFilter);
    }
  }

  function CategoryText(e: GamificationEvent): string { OrEmpty(e.category) }

  predicate NonEmpty(s: string) { s != "" }

  /** categories: the events' categories with null and '' dropped, each
      once, in order of first appearance. */
  function Categories(events: seq<GamificationEvent>): (r: seq<string>)
    ensures NoDuplicates(r)
    ensures "" !in r
    ensures forall c :: c in r <==> c != "" && exists e :: e in events && e.category == Some(c)
  {
    var texts := Filter(MapSeq(events, CategoryText), NonEmpty);
    forall c ensures c in texts <==> c != "" && exists e :: e in events && e.category == Some(c) {
      MapSeqMembers(events, CategoryText, c);
    }
    Distinct(texts)
  }

  // ---------------------------------------------------------------------
  // The numeric inputs

  /** The coins input: `parseInt(text) || 1`; NaN and 0 become 1. */
  function CoinsInput(text: string): (n: int)
    ensures n != 0
    ensures ParseInt(text).Some? && ParseInt(text).value != 0 ==> n == ParseInt(text).value
    ensures ParseInt(text).None? || ParseInt(text) == Some(0) ==> n == 1
  {
    match ParseInt(text)
    case None => 1
    case Some(v) => if v != 0 then v else 1
  }

  /** The position input: `parseInt(text) || 0`; NaN becomes 0. */
  function PositionInput(text: string): (n: int)
    ensures ParseInt(text).Some? ==> n == ParseInt(text).value
    ensures ParseInt(text).None? ==> n == 0
  {
    match ParseInt(text)
    case None => 0
    case Some(v) => v
  }

  /** The inputs show their values as decimal text; reading that text back
      gives the same value for every position and every non-zero coin
      reward. */
  lemma InputsReadBackShownValues(coins: int, position: int)
    ensures coins != 0 ==> CoinsInput(IntToString(coins)) == coins
    ensures PositionInput(IntToString(position)) == position
  {
    ParseIntOfIntToString(coins);
    ParseIntOfIntToString(position);
  }
}

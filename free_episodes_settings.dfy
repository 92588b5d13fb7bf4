/** The free-episodes settings screen: it shows the number of free episodes
    per series (3 until the setting is loaded), loads it from the
    `free_episodes_count` row of `app_settings`, clamps what is typed into
    the input, and saves the count back to that row. */
module FreeEpisodesSettings {
  import opened Common
  import opened GalaxyImport

  const InitialCount: int := 3

  // ---------------------------------------------------------------------
  // The settings table

  /** `{count: n}` written into every row with the key; other rows unchanged. */
  function SetCount(rows: seq<SettingRow>, key: string, n: int): (r: seq<SettingRow>)
    ensures |r| == |rows|
    ensures forall i :: 0 <= i < |rows| ==> r[i].key == rows[i].key
    ensures forall i :: 0 <= i < |rows| && rows[i].key == key ==> r[i].count == Some(n)
    ensures forall i :: 0 <= i < |rows| && rows[i].key != key ==> r[i] == rows[i]
  {
    MapSeq(rows, (row: SettingRow) => if row.key == key then SettingRow(key, Some(n)) else row)
  }

  /** The `app_settings` table as the screen reaches it through the
      Supabase client; each request may fail. */
  class SettingsTable {
    var rows: seq<SettingRow>

    constructor (rows: seq<SettingRow>)
      ensures this.rows == rows
    {
      this.rows := rows;
    }

    /** `.eq('setting_key', key).single()`: the one row with the key, or an
        error (also when there is no such row or more than one). */
    method SelectSingle(key: string) returns (r: Option<SettingRow>)
      ensures r.Some? ==> WithKey(rows, key) == [r.value]
    {
      var found := WithKey(rows, key);
      var ok: bool :| true;
      r := if ok && |found| == 1 then Some(found[0]) else None;
    }

    /** `.update({setting_value: {count: n}}).eq('setting_key', key)`. */
    method UpdateCount(key: string, n: int) returns (ok: bool)
      modifies this
      ensures rows == if ok then SetCount(old(rows), key, n) else old(rows)
    {
      ok :| true;
      if ok {
        rows := SetCount(rows, key, n);
      }
    }
  }

  // ---------------------------------------------------------------------
  // The rules of the screen

  /** loadSettings: a failed read keeps the current count; a row whose count
      is truthy (present and non-zero) replaces it; otherwise it is kept. */
  function LoadedCount(current: int, read: Option<SettingRow>): (n: int)
    ensures read.None? ==> n == current
    ensures read.Some? && read.value.count.Some? && read.value.count.value != 0 ==> n == read.value.count.value
    ensures read.Some? && (read.value.count.None? || read.value.count == Some(0)) ==> n == current
  {
    match read
    case None => current
    case Some(row) =>
      match row.count
      case None => current
      case Some(c) => if c != 0 then c else current
  }

  /** The input's onChange: `Math.max(1, parseInt(text) || 1)`, where NaN and
      0 fall back to 1. */
  function ClampInput(text: string): (n: int)
    ensures n >= 1
    ensures ParseInt(text).Some? && ParseInt(text).value >= 1 ==> n == ParseInt(text).value
    ensures ParseInt(text).None? || ParseInt(text).value < 1 ==> n == 1
  {
    var v := match ParseInt(text) case None => 0 case Some(x) => x;
    var w := if v != 0 then v else 1;
    if w < 1 then 1 else w
  }

  /** The input shows the count as decimal digits; reading a positive count
      back through the clamp gives the same count. */
  lemma ClampInputOfShownCount(n: nat)
    requires n >= 1
    ensures ClampInput(NatToString(n)) == n
  {
    ParseIntOfNatToString(n);
  }

  /** What the screen keeps in its state. */
  class SettingsScreen {
    var count: int

    constructor ()
      ensures count == InitialCount
    {
      count := InitialCount;
    }

    /** loadSettings, with the row read from the table (ghost `read` is what
        the single-row query returned). */
    method LoadSettings(table: SettingsTable) returns (ghost read: Option<SettingRow>)
      modifies this
      ensures read.Some? ==> WithKey(table.rows, FreeEpisodesKey) == [read.value]
      ensures count == LoadedCount(old(count), read)
    {
      var r := table.SelectSingle(FreeEpisodesKey);
      read := r;
      if r.Some? && r.value.count.Some? && r.value.count.value != 0 {
        count := r.value.count.value;
      }
    }

    /** The input's onChange. */
    method OnCountInput(text: string)
      modifies this
      ensures count == ClampInput(text)
    {
      count := ClampInput(text);
    }

    /** handleSave: writes the current count to the free_episodes_count row
        only; the count shown does not change. */
    method HandleSave(table: SettingsTable) returns (ok: bool)
      modifies table
      ensures table.rows == if ok then SetCount(old(table.rows), FreeEpisodesKey, count) else old(table.rows)
    {
      ok := table.UpdateCount(FreeEpisodesKey, count);
    }
  }

  /** A saved non-zero count is what a later load of the single settings row
      shows, and what the import edge function reads as its threshold. */
  lemma {:induction false} SaveThenRead(rows: seq<SettingRow>, n: int, current: int)
    requires |WithKey(rows, FreeEpisodesKey)| == 1 && n != 0
    ensures WithKey(SetCount(rows, FreeEpisodesKey, n), FreeEpisodesKey) == [SettingRow(FreeEpisodesKey, Some(n))]
    ensures LoadedCount(current, Some(SettingRow(FreeEpisodesKey, Some(n)))) == n
    ensures FreeEpisodesCount(Some(WithKey(SetCount(rows, FreeEpisodesKey, n), FreeEpisodesKey))) == n
  {
    SetCountWithKey(rows, FreeEpisodesKey, n);
  }

  /** After SetCount, the rows with the key are the same number of rows, each
      holding the new count. */
  lemma {:induction false} SetCountWithKey(rows: seq<SettingRow>, key: string, n: int)
    ensures WithKey(SetCount(rows, key, n), key) == seq(|WithKey(rows, key)|, _ => SettingRow(key, Some(n)))
  {
    if rows != [] {
      var t := SetCount(rows, key, n);
      SetCountWithKey(rows[1..], key, n);
      assert t[1..] == SetCount(rows[1..], key, n);
    }
  }
}

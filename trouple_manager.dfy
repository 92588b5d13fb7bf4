/** The trouple screen, where a trouple is one campaign × country ×
    language row of `campaign_countries_languages`: the cascading delete of
    a trouple and of all content of its campaign, the lower-casing of the
    codes on save, the country and language display names and the search
    filter. */
module TroupleManager {
  import opened Common

  /** A row of `campaign_countries_languages`. */
  datatype Trouple = Trouple(
    id: string, campaignId: int, countryCode: Option<string>, languageCode: Option<string>, createdAt: string)

  /** The edit form. */
  datatype TroupleForm = TroupleForm(campaignId: int, countryCode: string, languageCode: string)

  // ---------------------------------------------------------------------
  // The content tables that reference a trouple

  /** A content row, reduced to the column the cascade filters on and an
      opaque rest. */
  datatype ContentRow = ContentRow(campaignId: string, rest: int)

  datatype ContentTable = SeriesRubrics | Rubrics | FreeEpisodes | Episodes | Series

  /** contents_series_rubrics, contents_rubrics, contents_series_episodes_free,
      contents_series_episodes and contents_series. */
  datatype Content = Content(
    seriesRubrics: seq<ContentRow>, rubrics: seq<ContentRow>, freeEpisodes: seq<ContentRow>,
    episodes: seq<ContentRow>, series: seq<ContentRow>)

  function Rows(c: Content, t: ContentTable): seq<ContentRow>
  {
    match t
    case SeriesRubrics => c.seriesRubrics
    case Rubrics => c.rubrics
    case FreeEpisodes => c.freeEpisodes
    case Episodes => c.episodes
    case Series => c.series
  }

  /** The rows the filter `.eq('campaign_countries_languages_id', id)` does
      not select. */
  function WithoutCampaign(rows: seq<ContentRow>, id: string): seq<ContentRow>
  {
    Filter(rows, (r: ContentRow) => r.campaignId != id)
  }

  /** The content after `.delete().eq('campaign_countries_languages_id', id)`
      on table t. */
  function DeleteCampaignRows(c: Content, t: ContentTable, id: string): Content
  {
    match t
    case SeriesRubrics => c.(seriesRubrics := WithoutCampaign(c.seriesRubrics, id))
    case Rubrics => c.(rubrics := WithoutCampaign(c.rubrics, id))
    case FreeEpisodes => c.(freeEpisodes := WithoutCampaign(c.freeEpisodes, id))
    case Episodes => c.(episodes := WithoutCampaign(c.episodes, id))
    case Series => c.(series := WithoutCampaign(c.series, id))
  }

  /** One delete removes from its table exactly the rows of the campaign, in
      place order, and leaves the other tables as they were. */
  lemma DeleteCampaignRowsEffect(c: Content, t: ContentTable, id: string, u: ContentTable, r: ContentRow)
    ensures u != t ==> Rows(DeleteCampaignRows(c, t, id), u) == Rows(c, u)
    ensures IsSubsequence(Rows(DeleteCampaignRows(c, t, id), t), Rows(c, t))
    ensures r in Rows(DeleteCampaignRows(c, t, id), t) <==> r in Rows(c, t) && r.campaignId != id
  {
    FilterIsSubsequence(Rows(c, t), (r: ContentRow) => r.campaignId != id);
  }

  /** The order of handleDelete: the rubric links, the rubrics, the free
      markers, the episodes and the series, then the trouple itself. */
  const CascadeOrder: seq<ContentTable> := [SeriesRubrics, Rubrics, FreeEpisodes, Episodes, Series]

  datatype Request = DeleteContent(table: ContentTable, id: string) | DeleteTrouple(id: string)

  /** The tables of the screen as the Supabase client sees them; every
      request may be refused, and `requests` records each one with its
      fate. */
  class Database {
    var trouples: seq<Trouple>
    var content: Content
    ghost var requests: seq<(Request, bool)>

    constructor (trouples: seq<Trouple>, content: Content)
      ensures this.trouples == trouples && this.content == content && requests == []
    {
      this.trouples := trouples;
      this.content := content;
      requests := [];
    }

    method DeleteContentRows(t: ContentTable, id: string) returns (ok: bool)
      modifies this
      ensures requests == old(requests) + [(DeleteContent(t, id), ok)]
      ensures trouples == old(trouples)
      ensures content == if ok then DeleteCampaignRows(old(content), t, id) else old(content)
    {
      ok :| true;
      requests := requests + [(DeleteContent(t, id), ok)];
      if ok {
        content := DeleteCampaignRows(content, t, id);
      }
    }

    /** `.delete().eq('id', id)` on campaign_countries_languages. */
    method DeleteTroupleRow(id: string) returns (ok: bool)
      modifies this
      ensures requests == old(requests) + [(DeleteTrouple(id), ok)]
      ensures content == old(content)
      ensures trouples == if ok then WithoutTrouple(old(trouples), id) else old(trouples)
    {
      ok :| true;
      requests := requests + [(DeleteTrouple(id), ok)];
      if ok {
        trouples := WithoutTrouple(trouples, id);
      }
    }

    /** `.update(payload).eq('id', id)`. */
    method UpdateTrouple(id: string, payload: TroupleForm) returns (ok: bool)
      modifies this
      ensures content == old(content) && requests == old(requests)
      ensures trouples == if ok then UpdateRows(old(trouples), id, payload) else old(trouples)
    {
      ok :| true;
      if ok {
        trouples := UpdateRows(trouples, id, payload);
      }
    }

    /** `.insert(row)`; the database assigns the id and the creation time,
        which arrive here as part of the row. */
    method InsertTrouple(row: Trouple) returns (ok: bool)
      modifies this
      ensures content == old(content) && requests == old(requests)
      ensures trouples == if ok then old(trouples) + [row] else old(trouples)
    {
      ok :| true;
      if ok {
        trouples := trouples + [row];
      }
    }
  }

  function WithoutTrouple(trouples: seq<Trouple>, id: string): seq<Trouple>
  {
    Filter(trouples, (t: Trouple) => t.id != id)
  }

  /** The rows with the id take the payload's three columns. */
  function UpdateRows(trouples: seq<Trouple>, id: string, p: TroupleForm): (r: seq<Trouple>)
    ensures |r| == |trouples|
    ensures forall i :: 0 <= i < |r| ==> r[i].id == trouples[i].id && r[i].createdAt == trouples[i].createdAt
    ensures forall i :: 0 <= i < |r| && trouples[i].id != id ==> r[i] == trouples[i]
    ensures forall i :: 0 <= i < |r| && trouples[i].id == id ==>
              r[i].campaignId == p.campaignId && r[i].countryCode == Some(p.countryCode) &&
              r[i].languageCode == Some(p.languageCode)
  {
    seq(|trouples|, i requires 0 <= i < |trouples| =>
      if trouples[i].id == id
      then trouples[i].(campaignId := p.campaignId, countryCode := Some(p.countryCode), languageCode := Some(p.languageCode))
      else trouples[i])
  }

  // ---------------------------------------------------------------------
  // The cascade, given the fate of each request

  /** Five content deletes and the trouple delete. */
  const CascadeLength: nat := |CascadeOrder| + 1

  /** The request of step i: the five content tables, then the trouple. */
  function CascadeRequest(id: string, i: nat): Request
  {
    if i < |CascadeOrder| then DeleteContent(CascadeOrder[i], id) else DeleteTrouple(id)
  }

  /** The log of the first k steps, every one accepted. */
  function AcceptedSteps(id: string, k: nat): seq<(Request, bool)>
  {
    if k == 0 then [] else AcceptedSteps(id, k - 1) + [(CascadeRequest(id, k - 1), true)]
  }

  /** The log of a cascade whose first k requests were accepted: those k and,
      unless all six were, the refused one after them that ended it. */
  function CascadeLog(id: string, k: nat): seq<(Request, bool)>
  {
    AcceptedSteps(id, k) + if k < CascadeLength then [(CascadeRequest(id, k), false)] else []
  }

  lemma {:induction false} AcceptedStepsShape(id: string, k: nat)
    ensures |AcceptedSteps(id, k)| == k
    ensures forall i :: 0 <= i < k ==> AcceptedSteps(id, k)[i] == (CascadeRequest(id, i), true)
  {
    if k > 0 {
      AcceptedStepsShape(id, k - 1);
    }
  }

  /** The log of a cascade holds the steps in cascade order, every one
      accepted but a refused last one, and it is only shorter than six
      requests when a refusal cut it short. */
  lemma CascadeLogShape(id: string, k: nat)
    requires k <= CascadeLength
    ensures |CascadeLog(id, k)| == if k < CascadeLength then k + 1 else CascadeLength
    ensures forall i :: 0 <= i < |CascadeLog(id, k)| ==> CascadeLog(id, k)[i] == (CascadeRequest(id, i), i < k)
  {
    AcceptedStepsShape(id, k);
  }

  /** An accepted trouple delete is in the log only after all five content
      deletes were accepted, and a refusal is always the last request. */
  lemma ParentDeletedLast(id: string, k: nat, i: nat)
    requires k <= CascadeLength && i < |CascadeLog(id, k)|
    ensures CascadeLog(id, k)[i] == (DeleteTrouple(id), true) ==>
              k == CascadeLength && i == |CascadeOrder| && forall j :: 0 <= j < i ==> CascadeLog(id, k)[j].1
    ensures !CascadeLog(id, k)[i].1 ==> i == |CascadeLog(id, k)| - 1
  {
    CascadeLogShape(id, k);
  }

  /** The content after the first n steps of the cascade: the tables of
      those steps without the campaign's rows, the others as they were. */
  function ContentAfter(c: Content, id: string, n: nat): Content
  {
    Content(RowsAfter(c, id, n, SeriesRubrics), RowsAfter(c, id, n, Rubrics), RowsAfter(c, id, n, FreeEpisodes),
            RowsAfter(c, id, n, Episodes), RowsAfter(c, id, n, Series))
  }

  function RowsAfter(c: Content, id: string, n: nat, t: ContentTable): seq<ContentRow>
  {
    if StepOf(t) < n then WithoutCampaign(Rows(c, t), id) else Rows(c, t)
  }

  /** The position of a table in the cascade. */
  function StepOf(t: ContentTable): (i: nat)
    ensures i < |CascadeOrder| && CascadeOrder[i] == t
  {
    match t
    case SeriesRubrics => 0
    case Rubrics => 1
    case FreeEpisodes => 2
    case Episodes => 3
    case Series => 4
  }

  lemma StepOfOrder(k: nat)
    requires k < |CascadeOrder|
    ensures StepOf(CascadeOrder[k]) == k
  {
  }

  /** Step n of the cascade takes the content after n steps to the content
      after n + 1. */
  lemma ContentAfterStep(c: Content, id: string, n: nat)
    requires n < |CascadeOrder|
    ensures DeleteCampaignRows(ContentAfter(c, id, n), CascadeOrder[n], id) == ContentAfter(c, id, n + 1)
  {
    StepOfOrder(n);
  }

  /** After the first n steps, a table holds its rows minus those of the
      campaign when its step was among them, and all its rows otherwise. */
  lemma ContentAfterRows(c: Content, id: string, n: nat, t: ContentTable, r: ContentRow)
    ensures r in Rows(ContentAfter(c, id, n), t) <==> r in Rows(c, t) && !(r.campaignId == id && StepOf(t) < n)
    ensures StepOf(t) >= n ==> Rows(ContentAfter(c, id, n), t) == Rows(c, t)
    ensures IsSubsequence(Rows(ContentAfter(c, id, n), t), Rows(c, t))
  {
    FilterIsSubsequence(Rows(c, t), (r: ContentRow) => r.campaignId != id);
    IsSubsequenceRefl(Rows(c, t));
  }

  /** Step n of the cascade: the delete of the campaign's rows from the n-th
      table, after n accepted ones. */
  method CascadeStep(db: Database, id: string, n: nat, ghost R0: seq<(Request, bool)>, ghost C0: Content)
    returns (ok: bool)
    modifies db
    requires n < |CascadeOrder|
    requires db.requests == R0 + AcceptedSteps(id, n) && db.content == ContentAfter(C0, id, n)
    ensures db.requests == R0 + if ok then AcceptedSteps(id, n + 1) else CascadeLog(id, n)
    ensures db.content == ContentAfter(C0, id, if ok then n + 1 else n)
    ensures db.trouples == old(db.trouples)
  {
    ok := db.DeleteContentRows(CascadeOrder[n], id);
    ContentAfterStep(C0, id, n);
    AppendAssoc(R0, AcceptedSteps(id, n), [(CascadeRequest(id, n), ok)]);
  }

  /** The five content deletes of handleDelete, in order, the first refused
      one ending the sequence with the earlier deletions kept. */
  method DeleteCampaignContent(db: Database, id: string) returns (cleared: bool, ghost accepted: nat)
    modifies db
    ensures accepted <= |CascadeOrder| && (cleared <==> accepted == |CascadeOrder|)
    ensures db.requests == old(db.requests) + if cleared then AcceptedSteps(id, accepted) else CascadeLog(id, accepted)
    ensures db.content == ContentAfter(old(db.content), id, accepted)
    ensures db.trouples == old(db.trouples)
  {
    cleared, accepted := false, 0;
    ghost var R0, C0 := db.requests, db.content;
    assert R0 + AcceptedSteps(id, 0) == R0;
    var ok := CascadeStep(db, id, 0, R0, C0);
    if !ok {
      return;
    }
    ok := CascadeStep(db, id, 1, R0, C0);
    if !ok {
      accepted := 1;
      return;
    }
    ok := CascadeStep(db, id, 2, R0, C0);
    if !ok {
      accepted := 2;
      return;
    }
    ok := CascadeStep(db, id, 3, R0, C0);
    if !ok {
      accepted := 3;
      return;
    }
    ok := CascadeStep(db, id, 4, R0, C0);
    cleared, accepted := ok, if ok then 5 else 4;
  }

  /** handleDelete: nothing without confirmation; otherwise the five
      content deletes and then the trouple delete, in that order, the first
      refused one ending the cascade with the earlier deletions kept. */
  method HandleDelete(db: Database, confirmed: bool, id: string) returns (ghost accepted: nat)
    modifies db
    ensures !confirmed ==> db.requests == old(db.requests) && db.content == old(db.content)
    ensures confirmed ==> accepted <= CascadeLength && db.requests == old(db.requests) + CascadeLog(id, accepted)
    ensures confirmed ==> db.content == ContentAfter(old(db.content), id, accepted)
    ensures db.trouples == if confirmed && accepted == CascadeLength then WithoutTrouple(old(db.trouples), id)
                           else old(db.trouples)
  {
    accepted := 0;
    if !confirmed {
      return;
    }
    var cleared;
    cleared, accepted := DeleteCampaignContent(db, id);
    if cleared {
      ghost var R0 := old(db.requests);
      var ok := db.DeleteTroupleRow(id);
      AppendAssoc(R0, AcceptedSteps(id, 5), [(CascadeRequest(id, 5), ok)]);
      if ok {
        accepted := 6;
      }
    }
  }

  // ---------------------------------------------------------------------
  // Saving

  /** handleSave's payload: the form with both codes lower-cased. */
  function SavePayload(f: TroupleForm): (p: TroupleForm)
    ensures p.campaignId == f.campaignId
    ensures IsLowerCase(p.countryCode) && IsLowerCase(p.languageCode)
    ensures EqualIgnoringCase(p.countryCode, f.countryCode) && EqualIgnoringCase(p.languageCode, f.languageCode)
  {
    ToLowerIsLowerCase(f.countryCode);
    ToLowerIsLowerCase(f.languageCode);
    TroupleForm(f.campaignId, ToLower(f.countryCode), ToLower(f.languageCode))
  }

  /** Saving a saved payload again stores the same codes. */
  lemma SavePayloadIdempotent(f: TroupleForm)
    ensures SavePayload(SavePayload(f)) == SavePayload(f)
  {
    ToLowerIsLowerCase(f.countryCode);
    ToLowerIsLowerCase(f.languageCode);
  }

  /** handleSave: an update of the edited trouple, or an insert of a new
      one (the database picks its id and creation time). */
  method HandleSave(db: Database, editing: Option<string>, form: TroupleForm, newId: string, now: string)
    returns (ok: bool)
    modifies db
    ensures db.content == old(db.content) && db.requests == old(db.requests)
    ensures editing.Some? ==>
      db.trouples == if ok then UpdateRows(old(db.trouples), editing.value, SavePayload(form)) else old(db.trouples)
    ensures editing.None? ==>
      var p := SavePayload(form);
      db.trouples == if ok then old(db.trouples) + [Trouple(newId, p.campaignId, Some(p.countryCode), Some(p.languageCode), now)]
                     else old(db.trouples)
  {
    var payload := SavePayload(form);
    if editing.Some? {
      ok := db.UpdateTrouple(editing.value, payload);
    } else {
      ok := db.InsertTrouple(Trouple(newId, payload.campaignId, Some(payload.countryCode), Some(payload.languageCode), now));
    }
  }

  // ---------------------------------------------------------------------
  // Display names and search

  const AllCountries: seq<(string, string)> := [
    ("ad", "Andorra"), ("ae", "United Arab Emirates"), ("af", "Afghanistan"), ("ag", "Antigua and Barbuda"),
    ("ai", "Anguilla"), ("al", "Albania"), ("am", "Armenia"), ("ao", "Angola"), ("aq", "Antarctica"),
    ("ar", "Argentina"), ("as", "American Samoa"), ("at", "Austria"), ("au", "Australia"), ("aw", "Aruba"),
    ("ax", "Åland Islands"), ("az", "Azerbaijan"), ("ba", "Bosnia and Herzegovina"), ("bb", "Barbados"),
    ("bd", "Bangladesh"), ("be", "Belgium"), ("bf", "Burkina Faso"), ("bg", "Bulgaria"), ("bh", "Bahrain"),
    ("bi", "Burundi"), ("bj", "Benin"), ("bl", "Saint Barthélemy"), ("bm", "Bermuda"), ("bn", "Brunei"),
    ("bo", "Bolivia"), ("bq", "Caribbean Netherlands"), ("br", "Brazil"), ("bs", "Bahamas"),
    ("bt", "Bhutan"), ("bv", "Bouvet Island"), ("bw", "Botswana"), ("by", "Belarus"), ("bz", "Belize"),
    ("ca", "Canada"), ("cc", "Cocos Islands"), ("cd", "Democratic Republic of the Congo"),
    ("cf", "Central African Republic"), ("cg", "Republic of the Congo"), ("ch", "Switzerland"),
    ("ci", "Côte d'Ivoire"), ("ck", "Cook Islands"), ("cl", "Chile"), ("cm", "Cameroon"), ("cn", "China"),
    ("co", "Colombia"), ("cr", "Costa Rica"), ("cu", "Cuba"), ("cv", "Cape Verde"), ("cw", "Curaçao"),
    ("cx", "Christmas Island"), ("cy", "Cyprus"), ("cz", "Czech Republic"), ("de", "Germany"),
    ("dj", "Djibouti"), ("dk", "Denmark"), ("dm", "Dominica"), ("do", "Dominican Republic"),
    ("dz", "Algeria"), ("ec", "Ecuador"), ("ee", "Estonia"), ("eg", "Egypt"), ("eh", "Western Sahara"),
    ("er", "Eritrea"), ("es", "Spain"), ("et", "Ethiopia"), ("fi", "Finland"), ("fj", "Fiji"),
    ("fk", "Falkland Islands"), ("fm", "Micronesia"), ("fo", "Faroe Islands"), ("fr", "France"),
    ("ga", "Gabon"), ("gb", "United Kingdom"), ("gd", "Grenada"), ("ge", "Georgia"), ("gf", "French Guiana"),
    ("gg", "Guernsey"), ("gh", "Ghana"), ("gi", "Gibraltar"), ("gl", "Greenland"), ("gm", "Gambia"),
    ("gn", "Guinea"), ("gp", "Guadeloupe"), ("gq", "Equatorial Guinea"), ("gr", "Greece"),
    ("gs", "South Georgia"), ("gt", "Guatemala"), ("gu", "Guam"), ("gw", "Guinea-Bissau"), ("gy", "Guyana"),
    ("hk", "Hong Kong"), ("hm", "Heard Island"), ("hn", "Honduras"), ("hr", "Croatia"), ("ht", "Haiti"),
    ("hu", "Hungary"), ("id", "Indonesia"), ("ie", "Ireland"), ("il", "Israel"), ("im", "Isle of Man"),
    ("in", "India"), ("io", "British Indian Ocean Territory"), ("iq", "Iraq"), ("ir", "Iran"),
    ("is", "Iceland"), ("it", "Italy"), ("je", "Jersey"), ("jm", "Jamaica"), ("jo", "Jordan"),
    ("jp", "Japan"), ("ke", "Kenya"), ("kg", "Kyrgyzstan"), ("kh", "Cambodia"), ("ki", "Kiribati"),
    ("km", "Comoros"), ("kn", "Saint Kitts and Nevis"), ("kp", "North Korea"), ("kr", "South Korea"),
    ("kw", "Kuwait"), ("ky", "Cayman Islands"), ("kz", "Kazakhstan"), ("la", "Laos"), ("lb", "Lebanon"),
    ("lc", "Saint Lucia"), ("li", "Liechtenstein"), ("lk", "Sri Lanka"), ("lr", "Liberia"),
    ("ls", "Lesotho"), ("lt", "Lithuania"), ("lu", "Luxembourg"), ("lv", "Latvia"), ("ly", "Libya"),
    ("ma", "Morocco"), ("mc", "Monaco"), ("md", "Moldova"), ("me", "Montenegro"), ("mf", "Saint Martin"),
    ("mg", "Madagascar"), ("mh", "Marshall Islands"), ("mk", "North Macedonia"), ("ml", "Mali"),
    ("mm", "Myanmar"), ("mn", "Mongolia"), ("mo", "Macao"), ("mp", "Northern Mariana Islands"),
    ("mq", "Martinique"), ("mr", "Mauritania"), ("ms", "Montserrat"), ("mt", "Malta"), ("mu", "Mauritius"),
    ("mv", "Maldives"), ("mw", "Malawi"), ("mx", "Mexico"), ("my", "Malaysia"), ("mz", "Mozambique"),
    ("na", "Namibia"), ("nc", "New Caledonia"), ("ne", "Niger"), ("nf", "Norfolk Island"), ("ng", "Nigeria"),
    ("ni", "Nicaragua"), ("nl", "Netherlands"), ("no", "Norway"), ("np", "Nepal"), ("nr", "Nauru"),
    ("nu", "Niue"), ("nz", "New Zealand"), ("om", "Oman"), ("pa", "Panama"), ("pe", "Peru"),
    ("pf", "French Polynesia"), ("pg", "Papua New Guinea"), ("ph", "Philippines"), ("pk", "Pakistan"),
    ("pl", "Poland"), ("pm", "Saint Pierre and Miquelon"), ("pn", "Pitcairn Islands"), ("pr", "Puerto Rico"),
    ("ps", "Palestine"), ("pt", "Portugal"), ("pw", "Palau"), ("py", "Paraguay"), ("qa", "Qatar"),
    ("re", "Réunion"), ("ro", "Romania"), ("rs", "Serbia"), ("ru", "Russia"), ("rw", "Rwanda"),
    ("sa", "Saudi Arabia"), ("sb", "Solomon Islands"), ("sc", "Seychelles"), ("sd", "Sudan"),
    ("se", "Sweden"), ("sg", "Singapore"), ("sh", "Saint Helena"), ("si", "Slovenia"),
    ("sj", "Svalbard and Jan Mayen"), ("sk", "Slovakia"), ("sl", "Sierra Leone"), ("sm", "San Marino"),
    ("sn", "Senegal"), ("so", "Somalia"), ("sr", "Suriname"), ("ss", "South Sudan"),
    ("st", "São Tomé and Príncipe"), ("sv", "El Salvador"), ("sx", "Sint Maarten"), ("sy", "Syria"),
    ("sz", "Eswatini"), ("tc", "Turks and Caicos Islands"), ("td", "Chad"),
    ("tf", "French Southern Territories"), ("tg", "Togo"), ("th", "Thailand"), ("tj", "Tajikistan"),
    ("tk", "Tokelau"), ("tl", "Timor-Leste"), ("tm", "Turkmenistan"), ("tn", "Tunisia"), ("to", "Tonga"),
    ("tr", "Turkey"), ("tt", "Trinidad and Tobago"), ("tv", "Tuvalu"), ("tw", "Taiwan"), ("tz", "Tanzania"),
    ("ua", "Ukraine"), ("ug", "Uganda"), ("um", "U.S. Minor Outlying Islands"), ("us", "United States"),
    ("uy", "Uruguay"), ("uz", "Uzbekistan"), ("va", "Vatican City"),
    ("vc", "Saint Vincent and the Grenadines"), ("ve", "Venezuela"), ("vg", "British Virgin Islands"),
    ("vi", "U.S. Virgin Islands"), ("vn", "Vietnam"), ("vu", "Vanuatu"), ("wf", "Wallis and Futuna"),
    ("ws", "Samoa"), ("ye", "Yemen"), ("yt", "Mayotte"), ("za", "South Africa"), ("zm", "Zambia"),
    ("zw", "Zimbabwe")
  ]

  const CommonLanguages: seq<(string, string)> := [
    ("en", "English"), ("es", "Spanish"), ("fr", "French"), ("de", "German"), ("it", "Italian"),
    ("pt", "Portuguese"), ("ru", "Russian"), ("ja", "Japanese"), ("ko", "Korean"), ("zh", "Chinese"),
    ("hi", "Hindi"), ("ar", "Arabic")
  ]

  /** getCountryName against a country table: "-" for a missing or empty
      code, else the name of the first country whose code is the lower-cased
      code, else the code upper-cased. The screen's table is AllCountries;
      the proofs hold for any table. */
  function CountryName(countries: seq<(string, string)>, code: Option<string>): (r: string)
    ensures OrEmpty(code) == "" ==> r == "-"
    ensures OrEmpty(code) != "" ==>
      var key := ToLower(code.value);
      || (r == ToUpper(code.value) && forall i :: 0 <= i < |countries| ==> countries[i].0 != key)
      || (exists i :: 0 <= i < |countries| && countries[i].0 == key && countries[i].1 == r &&
                      forall j :: 0 <= j < i ==> countries[j].0 != key)
  {
    if OrEmpty(code) == "" then "-"
    else match Find(countries, ToLower(code.value))
      case Some(name) => name
      case None => ToUpper(code.value)
  }

  /** getLanguageName against a language table: "-" for a missing or empty
      code, else the name of the first language whose code is exactly the
      code, else the code upper-cased. The screen's table is
      CommonLanguages. */
  function LanguageName(languages: seq<(string, string)>, code: Option<string>): (r: string)
    ensures OrEmpty(code) == "" ==> r == "-"
    ensures OrEmpty(code) != "" ==>
      || (r == ToUpper(code.value) && forall i :: 0 <= i < |languages| ==> languages[i].0 != code.value)
      || (exists i :: 0 <= i < |languages| && languages[i].0 == code.value && languages[i].1 == r &&
                      forall j :: 0 <= j < i ==> languages[j].0 != code.value)
  {
    if OrEmpty(code) == "" then "-"
    else match Find(languages, code.value)
      case Some(name) => name
      case None => ToUpper(code.value)
  }

  /** Country names do not depend on the case of the code. */
  lemma CountryNameIgnoresCase(countries: seq<(string, string)>, a: string, b: string)
    requires EqualIgnoringCase(a, b)
    ensures CountryName(countries, Some(a)) == CountryName(countries, Some(b))
  {
    ToLowerShape(a);
    ToLowerShape(b);
    UpperOfLower(a);
    UpperOfLower(b);
  }

  /** Language names do: the table is matched without lower-casing. A code
      that is not in the table is shown upper-cased even when its
      lower-cased form is, and that form is shown by its name. */
  lemma LanguageNameIsCaseSensitive(languages: seq<(string, string)>, code: string, k: nat)
    requires code != ""
    requires forall i :: 0 <= i < |languages| ==> languages[i].0 != code
    requires k < |languages| && languages[k].0 == ToLower(code)
    requires forall j :: 0 <= j < k ==> languages[j].0 != ToLower(code)
    ensures LanguageName(languages, Some(code)) == ToUpper(code)
    ensures LanguageName(languages, Some(ToLower(code))) == languages[k].1
  {
    ToLowerShape(code);
    assert Find(languages, code).None?;
    FindFirst(languages, ToLower(code), k);
  }

  /** On the screen's table: "en" is English, "EN" is shown as "EN". */
  lemma LanguageNameCaseExample()
    ensures LanguageName(CommonLanguages, Some("en")) == "English"
    ensures LanguageName(CommonLanguages, Some("EN")) == "EN"
  {
    assert CommonLanguages[0] == ("en", "English");
    assert forall i :: 0 <= i < |CommonLanguages| ==> CommonLanguages[i].0 != "EN";
    assert ToUpper("EN") == "EN";
  }

  /** filteredTrouples' predicate: the lower-cased search occurs in the
      campaign id, in either lower-cased code, or in either lower-cased
      display name. */
  predicate MatchesSearch(countries: seq<(string, string)>, languages: seq<(string, string)>, t: Trouple, search: string)
  {
    var q := ToLower(search);
    || Includes(IntToString(t.campaignId), q)
    || Includes(ToLower(OrEmpty(t.countryCode)), q)
    || Includes(ToLower(OrEmpty(t.languageCode)), q)
    || Includes(ToLower(CountryName(countries, t.countryCode)), q)
    || Includes(ToLower(LanguageName(languages, t.languageCode)), q)
  }

  function FilteredTrouples(countries: seq<(string, string)>, languages: seq<(string, string)>,
                            trouples: seq<Trouple>, search: string): (r: seq<Trouple>)
    ensures IsSubsequence(r, trouples)
    ensures forall t :: t in r <==> t in trouples && MatchesSearch(countries, languages, t, search)
    ensures search == "" ==> r == trouples
  {
    FilterIsSubsequence(trouples, (t: Trouple) => MatchesSearch(countries, languages, t, search));
    Filter(trouples, (t: Trouple) => MatchesSearch(countries, languages, t, search))
  }

  /** The screen's list: filteredTrouples with the screen's own tables. */
  function ScreenTrouples(trouples: seq<Trouple>, search: string): seq<Trouple>
  {
    FilteredTrouples(AllCountries, CommonLanguages, trouples, search)
  }
}

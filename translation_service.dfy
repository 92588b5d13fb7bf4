/** The mock translation service of the back office: a singleton whose
    translateText answers from a small table of event-type translations, or
    else builds a mock text from the target language, and whose language
    helpers read the thirty-language table. */
module TranslationService {
  import opened Common

  /** The thirty supported languages as (code, name); the native names are
      only displayed. */
  const SupportedLanguages: seq<(string, string)> := [
    ("af", "Afrikaans"), ("am", "Amharic"), ("ar", "Arabic"), ("bn", "Bengali"), ("nl", "Dutch"),
    ("en", "English"), ("tl", "Filipino (Tagalog)"), ("fr", "French"), ("de", "German"), ("gu", "Gujarati"),
    ("ha", "Hausa"), ("hi", "Hindi"), ("id", "Indonesian"), ("ja", "Japanese"), ("kn", "Kannada"),
    ("ms", "Malay"), ("ml", "Malayalam"), ("mr", "Marathi"), ("pt-br", "Portuguese (Brazil)"),
    ("pt", "Portuguese (Portugal)"), ("pa", "Punjabi"), ("si", "Sinhala"), ("so", "Somali"), ("es", "Spanish"),
    ("sw", "Swahili"), ("ta", "Tamil"), ("te", "Telugu"), ("th", "Thai"), ("ur", "Urdu"), ("vi", "Vietnamese")]

  /** The canned translations: for each source text, (target code,
      translation) entries. */
  const MockTranslations: seq<(string, seq<(string, string)>)> := [
    ("daily_login", [("fr", "connexion_quotidienne"), ("es", "inicio_sesion_diario"), ("de", "tägliche_anmeldung"),
                     ("pt", "login_diario"), ("pt-br", "login_diario")]),
    ("video_watch", [("fr", "regarder_vidéo"), ("es", "ver_video"), ("de", "video_ansehen"),
                     ("pt", "assistir_video"), ("pt-br", "assistir_video")]),
    ("profile_complete", [("fr", "profil_complet"), ("es", "perfil_completo"), ("de", "profil_vervollständigen"),
                          ("pt", "perfil_completo"), ("pt-br", "perfil_completo")])]

  datatype TranslationRequest = TranslationRequest(text: string, targetLanguage: string, sourceLanguage: Option<string>)

  /** A result; the confidence is kept in hundredths (0.95 is 95). */
  datatype TranslationResult = TranslationResult(translatedText: string, confidence: nat, service: string)

  /** The service object; it has no state of its own. */
  class TranslationService {
    constructor ()
    {
    }
  }

  /** The static `instance` field of TranslationService. */
  class ServiceRegistry {
    var instance: Option<TranslationService>

    constructor ()
      ensures instance == None
    {
      instance := None;
    }

    /** getInstance: the first call creates the service, every later call
        returns that same object. */
    method GetInstance() returns (s: TranslationService)
      modifies this
      ensures instance == Some(s)
      ensures old(instance).Some? ==> s == old(instance).value
      ensures old(instance).None? ==> fresh(s)
    {
      if instance.None? {
        var created := new TranslationService();
        instance := Some(created);
      }
      s := instance.value;
    }
  }

  /** Two calls of getInstance give the same object. */
  method GetInstanceTwice(registry: ServiceRegistry) returns (a: TranslationService, b: TranslationService)
    modifies registry
    ensures a == b
  {
    a := registry.GetInstance();
    b := registry.GetInstance();
  }

  // ---------------------------------------------------------------------
  // Language helpers; the table is a parameter, the service's table is
  // SupportedLanguages.

  /** getLanguageName: the name of the first language with the code, unless
      that name is empty, or else the upper-cased code. */
  function LanguageName(languages: seq<(string, string)>, code: string): (r: string)
    ensures (forall i :: 0 <= i < |languages| ==> languages[i].0 != code) ==> r == ToUpper(code)
    ensures forall i :: (0 <= i < |languages| && languages[i].0 == code &&
                         forall j :: 0 <= j < i ==> languages[j].0 != code) ==>
                        r == if languages[i].1 != "" then languages[i].1 else ToUpper(code)
  {
    match Find(languages, code)
    case Some(name) => if name != "" then name else ToUpper(code)
    case None => ToUpper(code)
  }

  /** getSupportedLanguageCodes: the codes, in table order. */
  function LanguageCodes(languages: seq<(string, string)>): (r: seq<string>)
    ensures |r| == |languages| && forall i :: 0 <= i < |r| ==> r[i] == languages[i].0
  {
    seq(|languages|, i requires 0 <= i < |languages| => languages[i].0)
  }

  /** The row of a code in the table, read off its length and first two
      characters; 30 for a code not in the table. */
  function CodePosition(c: string): nat
  {
    if |c| == 2 && c[0] == 'a' && c[1] == 'f' then 0
    else if |c| == 2 && c[0] == 'a' && c[1] == 'm' then 1
    else if |c| == 2 && c[0] == 'a' && c[1] == 'r' then 2
    else if |c| == 2 && c[0] == 'b' && c[1] == 'n' then 3
    else if |c| == 2 && c[0] == 'n' && c[1] == 'l' then 4
    else if |c| == 2 && c[0] == 'e' && c[1] == 'n' then 5
    else if |c| == 2 && c[0] == 't' && c[1] == 'l' then 6
    else if |c| == 2 && c[0] == 'f' && c[1] == 'r' then 7
    else if |c| == 2 && c[0] == 'd' && c[1] == 'e' then 8
    else if |c| == 2 && c[0] == 'g' && c[1] == 'u' then 9
    else if |c| == 2 && c[0] == 'h' && c[1] == 'a' then 10
    else if |c| == 2 && c[0] == 'h' && c[1] == 'i' then 11
    else if |c| == 2 && c[0] == 'i' && c[1] == 'd' then 12
    else if |c| == 2 && c[0] == 'j' && c[1] == 'a' then 13
    else if |c| == 2 && c[0] == 'k' && c[1] == 'n' then 14
    else if |c| == 2 && c[0] == 'm' && c[1] == 's' then 15
    else if |c| == 2 && c[0] == 'm' && c[1] == 'l' then 16
    else if |c| == 2 && c[0] == 'm' && c[1] == 'r' then 17
    else if |c| == 5 && c[0] == 'p' && c[1] == 't' then 18
    else if |c| == 2 && c[0] == 'p' && c[1] == 't' then 19
    else if |c| == 2 && c[0] == 'p' && c[1] == 'a' then 20
    else if |c| == 2 && c[0] == 's' && c[1] == 'i' then 21
    else if |c| == 2 && c[0] == 's' && c[1] == 'o' then 22
    else if |c| == 2 && c[0] == 'e' && c[1] == 's' then 23
    else if |c| == 2 && c[0] == 's' && c[1] == 'w' then 24
    else if |c| == 2 && c[0] == 't' && c[1] == 'a' then 25
    else if |c| == 2 && c[0] == 't' && c[1] == 'e' then 26
    else if |c| == 2 && c[0] == 't' && c[1] == 'h' then 27
    else if |c| == 2 && c[0] == 'u' && c[1] == 'r' then 28
    else if |c| == 2 && c[0] == 'v' && c[1] == 'i' then 29
    else 30
  }

  lemma CodePositionLow(i: nat)
    requires i < 15
    ensures CodePosition(SupportedLanguages[i].0) == i
  {
  }

  lemma CodePositionHigh(i: nat)
    requires 15 <= i < 30
    ensures CodePosition(SupportedLanguages[i].0) == i
  {
  }

  /** The thirty codes are pairwise different: each one's row can be read
      back from the code. */
  lemma SupportedCodesDistinct()
    ensures |LanguageCodes(SupportedLanguages)| == 30
    ensures NoDuplicates(LanguageCodes(SupportedLanguages))
  {
    var codes := LanguageCodes(SupportedLanguages);
    forall i, j | 0 <= i < j < |codes| ensures codes[i] != codes[j] {
      if i < 15 { CodePositionLow(i); } else { CodePositionHigh(i); }
      if j < 15 { CodePositionLow(j); } else { CodePositionHigh(j); }
    }
  }

  // ---------------------------------------------------------------------
  // Translation

  /** The canned translation of the text into the target, if the table has
      one. */
  function MockLookup(mock: seq<(string, seq<(string, string)>)>, text: string, target: string): (r: Option<string>)
    ensures r.Some? ==> exists i | 0 <= i < |mock| :: mock[i].0 == text && (exists k | 0 <= k < |mock[i].1| ::
                          mock[i].1[k] == (target, r.value))
    ensures (forall i :: 0 <= i < |mock| ==> mock[i].0 != text) ==> r.None?
  {
    match Find(mock, text)
    case None => None
    case Some(entries) => Find(entries, target)
  }

  /** generateMockTranslation: a text with an underscore gets "_" and the
      code appended; any other text is prefixed with "[DeepL-<name>] ", where
      the name is that of the first language with the code, unless that
      name is empty, or else the code itself. */
  function GenerateMockTranslation(languages: seq<(string, string)>, text: string, target: string): (r: string)
    ensures Includes(text, "_") ==> r == text + "_" + target
    ensures !Includes(text, "_") && (forall i :: 0 <= i < |languages| ==> languages[i].0 != target) ==>
              r == "[DeepL-" + target + "] " + text
    ensures forall i :: (!Includes(text, "_") && 0 <= i < |languages| && languages[i].0 == target &&
                         forall j :: 0 <= j < i ==> languages[j].0 != target) ==>
                        r == "[DeepL-" + (if languages[i].1 != "" then languages[i].1 else target) + "] " + text
  {
    if Includes(text, "_") then text + "_" + target
    else
      var found := Find(languages, target);
      var name := if found.Some? && found.value != "" then found.value else target;
      "[DeepL-" + name + "] " + text
  }

  /** translateText: the canned translation when there is a non-empty one
      (confidence 0.95), otherwise the generated mock (0.85). */
  function TranslateText(mock: seq<(string, seq<(string, string)>)>, languages: seq<(string, string)>,
                         request: TranslationRequest): (r: TranslationResult)
    ensures r.service == "deepl-mock"
    ensures r.confidence == 95 || r.confidence == 85
    ensures r.confidence == 95 <==> MockLookup(mock, request.text, request.targetLanguage).Some? &&
                                    MockLookup(mock, request.text, request.targetLanguage).value != ""
    ensures r.confidence == 95 ==> r.translatedText == MockLookup(mock, request.text, request.targetLanguage).value
    ensures r.confidence == 85 ==>
              r.translatedText == GenerateMockTranslation(languages, request.text, request.targetLanguage)
  {
    var canned := MockLookup(mock, request.text, request.targetLanguage);
    if canned.Some? && canned.value != "" then TranslationResult(canned.value, 95, "deepl-mock")
    else TranslationResult(GenerateMockTranslation(languages, request.text, request.targetLanguage), 85, "deepl-mock")
  }

  /** translateBatch: one result per request, in request order. */
  function TranslateBatch(mock: seq<(string, seq<(string, string)>)>, languages: seq<(string, string)>,
                          requests: seq<TranslationRequest>): (r: seq<TranslationResult>)
    ensures |r| == |requests|
    ensures forall i :: 0 <= i < |r| ==> r[i] == TranslateText(mock, languages, requests[i])
  {
    seq(|requests|, i requires 0 <= i < |requests| => TranslateText(mock, languages, requests[i]))
  }

  /** Requests are translated independently of one another: a batch split in
      two gives the two halves' results, one after the other. */
  lemma TranslateBatchSplits(mock: seq<(string, seq<(string, string)>)>, languages: seq<(string, string)>,
                             a: seq<TranslationRequest>, b: seq<TranslationRequest>)
    ensures TranslateBatch(mock, languages, a + b) == TranslateBatch(mock, languages, a) + TranslateBatch(mock, languages, b)
  {
    var r, ra, rb := TranslateBatch(mock, languages, a + b), TranslateBatch(mock, languages, a), TranslateBatch(mock, languages, b);
    assert forall i :: 0 <= i < |r| ==> r[i] == (ra + rb)[i] by {
      forall i | 0 <= i < |r| ensures r[i] == (ra + rb)[i] {
        if i >= |a| {
          assert (a + b)[i] == b[i - |a|];
        }
      }
    }
  }
}

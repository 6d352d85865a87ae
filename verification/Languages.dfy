/** The translation table of `src/lib/constants/languages.ts`: per language the
    five export column headers, the yes/no/empty cell values, and the name of
    the language the completion service is told to answer in. */
module Languages {

  datatype Translation = Translation(
    headers: seq<string>,
    yes: string,
    no: string,
    empty: string,
    languageInstruction: string)

  const English := Translation(["Name", "Active", "Hours", "Studies", "Comment"], "Yes", "No", "", "English")
  const Swedish := Translation(["Namn", "Aktiv", "Timmar", "Studier", "Kommentar"], "Ja", "Nej", "", "Swedish")
  const Spanish := Translation(["Nombre", "Activo", "Horas", "Estudios", "Comentario"], "S\U{00ED}", "No", "", "Spanish")
  const Latvian := Translation(
    ["V\U{0101}rds", "Akt\U{012B}vs", "Stundas", "Studijas", "Koment\U{0101}rs"], "J\U{0101}", "N\U{0113}", "", "Latvian")

  /** The supported language codes with their display names (`SUPPORTED_LANGUAGES`). */
  const SupportedLanguages: map<string, string> :=
    map["en" := "English", "sv" := "Svenska", "es" := "Espa\U{00F1}ol", "lv" := "Latvie\U{0161}u"]

  /** `TRANSLATIONS`, keyed by exactly the supported codes. */
  const Translations: map<string, Translation> :=
    map["en" := English, "sv" := Swedish, "es" := Spanish, "lv" := Latvian]

  /** `getTranslation`: the table entry, or English for any code not in it. */
  function GetTranslation(language: string): (t: Translation)
    ensures language in Translations ==> t == Translations[language]
    ensures language !in Translations ==> t == English
    ensures t in Translations.Values
  {
    assert Translations["en"] == English;
    if language in Translations then Translations[language] else English
  }

  /** A translation the exporters can rely on: five headers, an empty cell that
      is the empty string, and two distinct boolean cells. */
  predicate WellFormed(t: Translation) {
    |t.headers| == 5 && t.empty == "" && t.yes != t.no
  }

  /** The table and its fallback agree on the supported codes, and every
      entry, including the fallback, is well formed. */
  lemma TranslationsWellFormed(language: string)
    ensures Translations.Keys == SupportedLanguages.Keys
    ensures WellFormed(GetTranslation(language))
  {
    var t := GetTranslation(language);
    assert t.yes[0] != t.no[0];
  }

  /** The language instruction recovers the whole translation: the four
      instructions are pairwise distinct. */
  lemma InstructionDeterminesTranslation(a: string, b: string)
    ensures GetTranslation(a).languageInstruction == GetTranslation(b).languageInstruction
        <==> GetTranslation(a) == GetTranslation(b)
  {
    var ta, tb := GetTranslation(a), GetTranslation(b);
    if ta != tb {
      assert ta.languageInstruction[1] != tb.languageInstruction[1]
          || |ta.languageInstruction| != |tb.languageInstruction|;
    }
  }
}

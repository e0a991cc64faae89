/**
 * Translation lookup: the text of a key in the chosen language, else in
 * English, else the key itself; and the table of supported languages.
 * Only an excerpt of the three translation tables is written out here: the
 * lookup is defined over any tables.
 */
module I18n {
  import opened Base

  type Table = map<string, string>

  /** An excerpt of the Arabic, English and French tables. */
  function Translations(language: Language): Table {
    match language
    case Ar => map[
      "appTitle" := "احفظ هاتفك",
      "dashboardSecurityScore" := "نقاط الأمان",
      "advancedProtection" := "حماية متقدمة",
      "hijriDate" := "التاريخ الهجري"]
    case En => map[
      "appTitle" := "Save Your Phone",
      "securityScore" := "Security Score",
      "advancedProtection" := "Advanced Protection",
      "hijriDate" := "Hijri Date"]
    case Fr => map[
      "appTitle" := "Sauvez Votre Téléphone",
      "securityScore" := "Score de Sécurité",
      "hijriDate" := "Date Hijri"]
  }

  /** `primary[key] || fallback[key] || key`: a missing or empty entry falls through. */
  function TranslateIn(primary: Table, fallback: Table, key: string): (r: string)
    ensures r == key || (key in primary && r == primary[key]) || (key in fallback && r == fallback[key])
    ensures key != "" ==> r != ""
  {
    if key in primary && primary[key] != "" then primary[key]
    else if key in fallback && fallback[key] != "" then fallback[key]
    else key
  }

  /** `getTranslation`. */
  function GetTranslation(language: Language, key: string): (r: string)
    ensures key != "" ==> r != ""
  {
    TranslateIn(Translations(language), Translations(En), key)
  }

  /**
   * The chosen language wins whenever it has a non-empty text; English is used
   * only when it does not; the key comes back only when neither has one.
   */
  lemma FallbackOrder(primary: Table, fallback: Table, key: string)
    ensures key in primary && primary[key] != "" ==> TranslateIn(primary, fallback, key) == primary[key]
    ensures !(key in primary && primary[key] != "") && key in fallback && fallback[key] != ""
            ==> TranslateIn(primary, fallback, key) == fallback[key]
    ensures TranslateIn(primary, fallback, key) == key
        <== !(key in primary && primary[key] != "") && !(key in fallback && fallback[key] != "")
  {
  }

  /** Looking up English falls back to English again, so it is the English text or the key. */
  lemma EnglishFallsBackToKey(key: string)
    ensures GetTranslation(En, key) == (if key in Translations(En) && Translations(En)[key] != "" then Translations(En)[key] else key)
  {
  }

  /** The three outcomes on keys of the tables. */
  lemma TranslationExamples()
    ensures GetTranslation(Ar, "appTitle") == "احفظ هاتفك"
    ensures GetTranslation(Fr, "advancedProtection") == "Advanced Protection"
    ensures GetTranslation(En, "dashboardSecurityScore") == "dashboardSecurityScore"
    ensures GetTranslation(Ar, "securityScore") == "Security Score"
    ensures GetTranslation(Fr, "hijriDate") == "Date Hijri"
  {
  }

  datatype Direction = Ltr | Rtl

  datatype LanguageInfo = LanguageInfo(code: Language, name: string, nativeName: string, dir: Direction)

  /** `languages`. */
  const Languages: seq<LanguageInfo> := [
    LanguageInfo(Ar, "Arabic", "العربية", Rtl),
    LanguageInfo(En, "English", "English", Ltr),
    LanguageInfo(Fr, "French", "Français", Ltr)
  ]

  predicate Listed(l: Language) {
    exists i :: 0 <= i < |Languages| && Languages[i].code == l
  }

  /** Every language appears exactly once, and only Arabic is written right to left. */
  lemma LanguagesTable()
    ensures forall i, j :: 0 <= i < j < |Languages| ==> Languages[i].code != Languages[j].code
    ensures forall l: Language :: Listed(l)
    ensures forall i :: 0 <= i < |Languages| ==> (Languages[i].dir == Rtl <==> Languages[i].code == Ar)
  {
    forall l: Language ensures Listed(l) {
      var i := match l case Ar => 0 case En => 1 case Fr => 2;
      assert Languages[i].code == l;
    }
  }
}

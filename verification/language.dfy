/**
 * The language hook: the current interface language, persisted under `preferredLanguage`,
 * and a lookup of interface strings that falls back to English. The translation table is
 * data the hook imports; it is a parameter here, language code to key to text.
 */
module Language {
  import opened Wrappers

  /** The language codes the interface offers. */
  const Languages: set<string> := {"en", "hi", "te"}

  type Table = map<string, map<string, string>>

  /** A table with an entry for every offered language. */
  predicate Complete(table: Table) {
    forall l :: l in Languages ==> l in table
  }

  /**
   * `translations[language][key] || translations.en[key]`: the language's own text when it
   * has a non-empty one, else the English text. Looking up a language the table lacks
   * throws, which is `None` here. Keys are keys of the English entry.
   */
  function Translate(table: Table, language: string, key: string): (r: Option<string>)
    requires "en" in table && key in table["en"]
    ensures r.None? <==> language !in table
    ensures r.Some? && key in table[language] && table[language][key] != "" ==> r.value == table[language][key]
    ensures r.Some? && (key !in table[language] || table[language][key] == "") ==> r.value == table["en"][key]
  {
    if language !in table then None
    else if key in table[language] && table[language][key] != "" then Some(table[language][key])
    else Some(table["en"][key])
  }

  /** English text is returned as it stands, and every lookup in English succeeds. */
  lemma EnglishIsItsOwnFallback(table: Table, key: string)
    requires "en" in table && key in table["en"]
    ensures Translate(table, "en", key) == Some(table["en"][key])
  {
  }

  /** A lookup is only ever empty when the English text is. */
  lemma {:induction false} TranslationNonEmpty(table: Table, language: string, key: string)
    requires "en" in table && key in table["en"] && table["en"][key] != "" && language in table
    ensures Translate(table, language, key).Some? && Translate(table, language, key).value != ""
  {
    var r := Translate(table, language, key);
    if key in table[language] && table[language][key] != "" {
      assert r.value == table[language][key];
    } else {
      assert r.value == table["en"][key];
    }
  }

  /** `useLanguage`: the current language and its saved copy. */
  class LanguageState {
    const translations: Table
    var currentLanguage: string
    /** The `preferredLanguage` storage entry. */
    var savedLanguage: Option<string>

    /** With a complete table, the current language always has an entry, so lookups never throw. */
    ghost predicate Valid()
      reads this
    {
      "en" in translations && (Complete(translations) ==> currentLanguage in translations)
    }

    /** The hook starts in English whatever is saved. */
    constructor (translations: Table, savedLanguage: Option<string>)
      requires "en" in translations
      ensures this.translations == translations && this.savedLanguage == savedLanguage
      ensures currentLanguage == "en"
      ensures Valid()
    {
      this.translations := translations;
      this.savedLanguage := savedLanguage;
      currentLanguage := "en";
    }

    /** Switches to an offered language and saves the choice. */
    method ChangeLanguage(language: string)
      requires Valid() && language in Languages
      modifies this
      ensures currentLanguage == language && savedLanguage == Some(language)
      ensures Valid()
    {
      currentLanguage := language;
      savedLanguage := Some(language);
    }

    /** The mount effect: adopts the saved language when it is non-empty and the table has it. */
    method Restore()
      requires Valid()
      modifies this
      ensures savedLanguage == old(savedLanguage)
      ensures savedLanguage.Some? && savedLanguage.value != "" && savedLanguage.value in translations ==>
        currentLanguage == savedLanguage.value
      ensures !(savedLanguage.Some? && savedLanguage.value != "" && savedLanguage.value in translations) ==>
        currentLanguage == old(currentLanguage)
      ensures Valid()
    {
      if savedLanguage.Some? && savedLanguage.value != "" && savedLanguage.value in translations {
        currentLanguage := savedLanguage.value;
      }
    }

    /** `t(key)` in the current language. */
    function T(key: string): (r: Option<string>)
      reads this
      requires Valid() && key in translations["en"]
      ensures Complete(translations) ==> r.Some?
    {
      Translate(translations, currentLanguage, key)
    }
  }
}

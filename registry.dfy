/**
 * The fixed catalogue of supported languages (`LANGUAGES`) and the lookups
 * made on it: membership, listing in declaration order, and the text shown
 * by the language switcher.
 */
module Registry {
  import opened Wrappers

  /** Display metadata of one language. */
  datatype Language = Language(name: string, code: string, flag: string)

  /** The language the script starts in. */
  const DefaultLanguage: string := "en"

  /** The properties of the `LANGUAGES` object: each key with its descriptor. */
  const Catalogue: map<string, Language> := map[
    "en" := Language("English", "en", "\U{1F1FA}\U{1F1F8}"),
    "pt-br" := Language("Portugu\U{00EA}s (Brasil)", "pt-br", "\U{1F1E7}\U{1F1F7}"),
    "es" := Language("Espa\U{00F1}ol", "es", "\U{1F1EA}\U{1F1F8}"),
    "it" := Language("Italiano", "it", "\U{1F1EE}\U{1F1F9}"),
    "fr" := Language("Fran\U{00E7}ais", "fr", "\U{1F1EB}\U{1F1F7}"),
    "de" := Language("Deutsch", "de", "\U{1F1E9}\U{1F1EA}")
  ]

  /** The order in which the keys of `LANGUAGES` are declared, which `Object.keys` reports. */
  const DeclarationOrder: seq<string> := ["en", "pt-br", "es", "it", "fr", "de"]

  /** `LANGUAGES[key]`. */
  function Describe(key: string): Option<Language>
  {
    if key in Catalogue then Some(Catalogue[key]) else None
  }

  /** The membership test: `LANGUAGES[key]` is truthy. */
  predicate IsSupported(key: string)
  {
    Describe(key).Some?
  }

  /** Exactly the six declared keys are supported. */
  lemma SupportedKeys(key: string)
    ensures IsSupported(key) <==> key in {"en", "pt-br", "es", "it", "fr", "de"}
  {
  }

  /** `getSupportedLanguages()`: `Object.keys(LANGUAGES)`, each supported key once, in declaration order. */
  function SupportedLanguages(): (r: seq<string>)
    ensures forall key :: key in r <==> IsSupported(key)
    ensures forall i, j :: 0 <= i < j < |r| ==> r[i] != r[j]
    ensures r == ["en", "pt-br", "es", "it", "fr", "de"]
  {
    DeclarationOrder
  }

  /** Every descriptor's `code` is the key it is stored under. */
  lemma CodeMatchesKey(key: string)
    requires IsSupported(key)
    ensures Describe(key).value.code == key
  {
  }

  /** Every flag is two regional-indicator symbols, and no two languages share one. */
  lemma FlagsDistinct(a: string, b: string)
    requires IsSupported(a) && IsSupported(b)
    ensures |Describe(a).value.flag| == 2
    ensures Describe(a).value.flag == Describe(b).value.flag ==> a == b
  {
  }

  /** The text of the current-language button: the language's flag, a space, its name. */
  function SwitcherLabel(key: string): (r: string)
    requires IsSupported(key)
    ensures |r| > 2 && r[..2] == Describe(key).value.flag && r[2] == ' '
    ensures r[3..] == Describe(key).value.name
  {
    FlagsDistinct(key, key);
    var language := Describe(key).value;
    language.flag + " " + language.name
  }

  /** Different supported languages get different switcher labels. */
  lemma LabelsIdentifyLanguage(a: string, b: string)
    requires IsSupported(a) && IsSupported(b)
    ensures SwitcherLabel(a) == SwitcherLabel(b) <==> a == b
  {
    FlagsDistinct(a, b);
  }

  /** The label Spanish shows. */
  lemma SpanishLabel()
    ensures SwitcherLabel("es") == "\U{1F1EA}\U{1F1F8} Espa\U{00F1}ol"
  {
  }
}

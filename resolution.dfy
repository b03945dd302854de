/**
 * How `initLanguage` picks the starting language from the saved preference,
 * the browser locale and the language already current.
 */
module Resolution {
  import opened Wrappers
  import opened Registry

  /** Lower-cases one character; only ASCII letters change. */
  function LowerChar(c: char): char
  {
    if 'A' <= c <= 'Z' then (c as int + 32) as char else c
  }

  /** `toLowerCase()`, character by character. */
  function ToLower(s: string): (r: string)
    ensures |r| == |s|
    ensures forall i :: 0 <= i < |s| ==> r[i] == LowerChar(s[i])
  {
    if s == [] then [] else [LowerChar(s[0])] + ToLower(s[1..])
  }

  /** `split('-')[0]`: the text before the first hyphen, or all of `s` when it has none. */
  function PrimarySubtag(s: string): (r: string)
    ensures r <= s
    ensures '-' !in r
    ensures |r| < |s| ==> s[|r|] == '-'
  {
    if s == [] || s[0] == '-' then [] else [s[0]] + PrimarySubtag(s[1..])
  }

  /** A string without a hyphen is its own primary subtag. */
  lemma PrimarySubtagOfPlain(s: string)
    requires '-' !in s
    ensures PrimarySubtag(s) == s
  {
  }

  /**
   * The language `initLanguage` settles on before loading. `current` is the
   * language current when it runs (the default, unless a change came first);
   * it is kept when no rule applies.
   */
  function ResolveLanguage(saved: Option<string>, locale: string, current: string): (r: string)
    ensures IsSupported(current) ==> IsSupported(r)
    ensures saved.Some? && IsSupported(saved.value) ==> r == saved.value
    ensures r == current || IsSupported(r)
  {
    if saved.Some? && saved.value != "" && IsSupported(saved.value) then saved.value
    else
      var full := ToLower(locale);
      var primary := PrimarySubtag(full);
      if full == "pt-br" && IsSupported("pt-br") then "pt-br"
      else if IsSupported(primary) then primary
      else current
  }

  /**
   * The resolution rule in its general form: the saved preference, then the
   * whole lower-cased locale when it is a supported key, then its primary
   * subtag, then `current`.
   */
  function ResolveByRule(saved: Option<string>, locale: string, current: string): string
  {
    if saved.Some? && IsSupported(saved.value) then saved.value
    else if IsSupported(ToLower(locale)) then ToLower(locale)
    else if IsSupported(PrimarySubtag(ToLower(locale))) then PrimarySubtag(ToLower(locale))
    else current
  }

  /**
   * The script special-cases only `pt-br` for a whole-locale match; since that
   * is the only key with a hyphen, this is the general rule.
   */
  lemma ResolveMatchesGeneralRule(saved: Option<string>, locale: string, current: string)
    ensures ResolveLanguage(saved, locale, current) == ResolveByRule(saved, locale, current)
  {
    SupportedKeys("");
    var full := ToLower(locale);
    SupportedKeys(full);
    if IsSupported(full) && full != "pt-br" {
      assert '-' !in full;
      PrimarySubtagOfPlain(full);
    }
  }

  /** A Brazilian locale gets `pt-br`, not the primary-subtag rule. */
  lemma ResolveBrazilianLocale()
    ensures ResolveLanguage(None, "pt-BR", "en") == "pt-br"
  {
    assert ToLower("pt-BR") == "pt-br" by { assert ToLower("BR") == "br"; }
  }

  /** A regional locale without an entry of its own falls back to its primary subtag. */
  lemma ResolveRegionalLocale()
    ensures ResolveLanguage(None, "es-MX", "en") == "es"
  {
    var full := ToLower("es-MX");
    assert full == "es-mx" by { assert ToLower("MX") == "mx"; }
    assert full != "pt-br" by { assert full[1] != "pt-br"[1]; }
    assert PrimarySubtag(full) == "es";
  }

  /** A Portuguese locale other than Brazil's keeps the default: `pt` alone is not a key. */
  lemma ResolvePortugueseLocale()
    ensures ResolveLanguage(None, "pt-PT", "en") == "en"
  {
    var full := ToLower("pt-PT");
    assert full == "pt-pt" by { assert ToLower("PT") == "pt"; }
    assert full != "pt-br" by { assert full[3] != "pt-br"[3]; }
    assert PrimarySubtag(full) == "pt";
    assert !IsSupported("pt");
  }

  /** An unsupported locale keeps the default. */
  lemma ResolveUnsupportedLocale()
    ensures ResolveLanguage(None, "zz-ZZ", "en") == "en"
  {
    var full := ToLower("zz-ZZ");
    assert full == "zz-zz" by { assert ToLower("ZZ") == "zz"; }
    assert full != "pt-br" by { assert full[0] != "pt-br"[0]; }
    assert PrimarySubtag(full) == "zz";
    assert !IsSupported("zz");
  }

  /** A supported saved preference wins over the locale. */
  lemma ResolveSavedPreference()
    ensures ResolveLanguage(Some("de"), "fr-FR", "en") == "de"
  {
  }

  /** A saved preference is not lower-cased: an unsupported one gives way to the locale. */
  lemma ResolveIgnoresUnsupportedPreference()
    ensures ResolveLanguage(Some("DE"), "FR", "en") == "fr"
  {
    var full := ToLower("FR");
    assert full == "fr";
    assert full != "pt-br";
    assert PrimarySubtag(full) == "fr";
    assert !IsSupported("DE");
  }
}

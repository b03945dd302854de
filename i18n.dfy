/**
 * The script's state and its operations: the globals `currentLanguage` and
 * `translations`, the stored `yap2u_language` preference, the page it
 * translates, and the requests and events it issues.
 */
module I18n {
  import opened Wrappers
  import opened Registry
  import opened Resolution
  import opened Translations
  import opened Document

  /** A `languageChanged` event dispatched on the document. */
  datatype Event = LanguageChanged(language: string)

  /** Why `changeLanguage` rejects. */
  datatype ChangeError = UnsupportedLanguage(language: string) | LoadRejected(cause: LoadFailure)

  class Page {
    /** `currentLanguage`. */
    var currentLanguage: string
    /** `translations`, the active dictionary. */
    var translations: Dictionary
    /** `localStorage['yap2u_language']`. */
    var storedPreference: Option<string>
    /** The `lang` attribute of the document element. */
    var documentLang: Option<string>
    /** The elements of the page, in document order. */
    const elements: array<Element>
    /** The text of the switcher's current-language button; `None` before the switcher is mounted. */
    var switcherLabel: Option<string>
    /** The resource paths requested so far, in order. */
    var requests: seq<string>
    /** The events dispatched so far, in order. */
    var events: seq<Event>

    /** The current language is always a catalogue key. */
    ghost predicate Valid()
      reads this
    {
      IsSupported(currentLanguage)
    }

    /** The state when the script has been evaluated on a page. */
    constructor (preference: Option<string>, lang: Option<string>, page: seq<Element>)
      ensures Valid()
      ensures currentLanguage == DefaultLanguage && translations == map[]
      ensures storedPreference == preference && documentLang == lang
      ensures fresh(elements) && elements[..] == page
      ensures switcherLabel == None && requests == [] && events == []
    {
      currentLanguage := DefaultLanguage;
      translations := map[];
      storedPreference := preference;
      documentLang := lang;
      elements := new Element[|page|](i requires 0 <= i < |page| => page[i]);
      switcherLabel := None;
      requests := [];
      events := [];
      SupportedKeys(DefaultLanguage);
    }

    /** `window.i18n.getCurrentLanguage()`. */
    function GetCurrentLanguage(): (r: string)
      reads this
      requires Valid()
      ensures IsSupported(r)
    {
      currentLanguage
    }

    /** `window.i18n.t(key)`: the active dictionary's value for `key`, or `key` when it has none. */
    function T(key: string): (r: string)
      reads this
      ensures Has(translations, key) ==> r == translations[key]
      ensures !Has(translations, key) ==> r == key
    {
      Translate(translations, key)
    }

    /**
     * `loadTranslations(lang)`, with the reply to its request as a parameter:
     * issues one request, and installs the dictionary only when it parses.
     */
    method LoadTranslations(lang: string, reply: Reply) returns (r: Result<Dictionary, LoadFailure>)
      modifies this`translations, this`requests
      ensures requests == old(requests) + [ResourcePath(lang)]
      ensures r == LoadOutcome(reply)
      ensures translations == if r.Success? then r.value else old(translations)
    {
      requests := requests + [ResourcePath(lang)];
      r := LoadOutcome(reply);
      if r.Success? {
        translations := r.value;
      }
    }

    /** One `forEach` of `applyTranslations`: the pass of one directive kind over every element. */
    method ApplyPass(kind: Directive)
      modifies elements
      ensures elements[..] == Pass(old(elements[..]), kind, translations)
    {
      var i := 0;
      while i < elements.Length
        invariant 0 <= i <= elements.Length
        invariant forall j :: 0 <= j < i ==> elements[j] == ApplyDirective(old(elements[j]), kind, translations)
        invariant forall j :: i <= j < elements.Length ==> elements[j] == old(elements[j])
      {
        var key := KeyOf(elements[i], kind);
        if key.Some? && Has(translations, key.value) {
          elements[i] := Write(elements[i], kind, translations[key.value]);
        }
        i := i + 1;
      }
    }

    /** `applyTranslations()`: sets the document language, then runs the five passes in order. */
    method ApplyTranslations()
      modifies this`documentLang, elements
      ensures documentLang == Some(currentLanguage)
      ensures elements[..] == TranslateDocument(old(elements[..]), translations)
      ensures forall i ::
                (0 <= i < elements.Length && old(elements[i]).textKey.Some? &&
                 Has(translations, old(elements[i]).textKey.value) && old(elements[i]).htmlKey.None?) ==>
                elements[i].content == Text(T(old(elements[i]).textKey.value))
    {
      documentLang := Some(currentLanguage);
      ghost var doc := elements[..];
      ApplyPass(TextDirective);
      ApplyPass(PlaceholderDirective);
      ApplyPass(TitleDirective);
      ApplyPass(AltDirective);
      ApplyPass(HtmlDirective);
      PassesTranslateDocument(doc, translations);
      forall i | 0 <= i < elements.Length && doc[i].textKey.Some? && Has(translations, doc[i].textKey.value)
                 && doc[i].htmlKey.None?
        ensures elements[i].content == Text(T(doc[i].textKey.value))
      {
        TextDirectiveShowsTranslation(doc[i], translations, doc[i].textKey.value);
      }
    }

    /** `updateLanguageSwitcher()`: relabels the button when the switcher is on the page. */
    method UpdateLanguageSwitcher()
      requires Valid()
      modifies this`switcherLabel
      ensures switcherLabel == if old(switcherLabel).Some? then Some(SwitcherLabel(currentLanguage)) else None
    {
      if switcherLabel.Some? {
        switcherLabel := Some(SwitcherLabel(currentLanguage));
      }
    }

    /** The label part of `createLanguageSwitcher()` and mounting it. */
    method MountSwitcher()
      requires Valid()
      modifies this`switcherLabel
      ensures switcherLabel == Some(SwitcherLabel(currentLanguage))
    {
      switcherLabel := Some(SwitcherLabel(currentLanguage));
    }

    /** The synchronous part of `changeLanguage`: commit the language, persist it, relabel the switcher. */
    method CommitLanguage(lang: string)
      requires IsSupported(lang)
      modifies this`currentLanguage, this`storedPreference, this`switcherLabel
      ensures Valid()
      ensures currentLanguage == lang && storedPreference == Some(lang)
      ensures switcherLabel == if old(switcherLabel).Some? then Some(SwitcherLabel(lang)) else None
    {
      currentLanguage := lang;
      storedPreference := Some(lang);
      UpdateLanguageSwitcher();
    }

    /**
     * The load of `changeLanguage` and its handlers: on success translate the
     * page, dispatch one event and resolve with the language; on failure
     * reject with the load's error and change nothing else.
     */
    method LoadAndApply(lang: string, reply: Reply) returns (r: Result<string, ChangeError>)
      requires Valid() && currentLanguage == lang
      modifies this`translations, this`requests, this`documentLang, this`events, elements
      ensures requests == old(requests) + [ResourcePath(lang)]
      ensures LoadOutcome(reply).Success? ==>
        && translations == LoadOutcome(reply).value
        && documentLang == Some(lang)
        && elements[..] == TranslateDocument(old(elements[..]), translations)
        && events == old(events) + [LanguageChanged(lang)]
        && r == Success(lang)
      ensures LoadOutcome(reply).Failure? ==>
        && translations == old(translations)
        && documentLang == old(documentLang)
        && elements[..] == old(elements[..])
        && events == old(events)
        && r == Failure(LoadRejected(LoadOutcome(reply).error))
    {
      var loaded := LoadTranslations(lang, reply);
      match loaded
      case Success(_) =>
        ApplyTranslations();
        events := events + [LanguageChanged(lang)];
        r := Success(lang);
      case Failure(e) =>
        r := Failure(LoadRejected(e));
    }

    /**
     * `changeLanguage(lang)`, with the reply to its request as a parameter.
     * An unsupported code rejects and touches nothing; otherwise the language
     * and preference are committed before the load and are not rolled back
     * when it fails.
     */
    method ChangeLanguage(lang: string, reply: Reply) returns (r: Result<string, ChangeError>)
      requires Valid()
      modifies this, elements
      ensures Valid()
      ensures !IsSupported(lang) ==>
        r == Failure(UnsupportedLanguage(lang)) && unchanged(this) && unchanged(elements)
      ensures IsSupported(lang) ==>
        && currentLanguage == lang
        && storedPreference == Some(lang)
        && requests == old(requests) + [ResourcePath(lang)]
        && switcherLabel == (if old(switcherLabel).Some? then Some(SwitcherLabel(lang)) else None)
      ensures IsSupported(lang) && LoadOutcome(reply).Success? ==>
        && translations == LoadOutcome(reply).value
        && documentLang == Some(lang)
        && elements[..] == TranslateDocument(old(elements[..]), translations)
        && events == old(events) + [LanguageChanged(lang)]
        && r == Success(lang)
      ensures IsSupported(lang) && LoadOutcome(reply).Failure? ==>
        && translations == old(translations)
        && documentLang == old(documentLang)
        && elements[..] == old(elements[..])
        && events == old(events)
        && r == Failure(LoadRejected(LoadOutcome(reply).error))
    {
      if !IsSupported(lang) {
        return Failure(UnsupportedLanguage(lang));
      }
      CommitLanguage(lang);
      r := LoadAndApply(lang, reply);
    }

    /** What a settled initial or fallback load does on success: translate the page, then relabel the switcher. */
    method ShowTranslations()
      requires Valid()
      modifies this`documentLang, this`switcherLabel, elements
      ensures documentLang == Some(currentLanguage)
      ensures elements[..] == TranslateDocument(old(elements[..]), translations)
      ensures switcherLabel == if old(switcherLabel).Some? then Some(SwitcherLabel(currentLanguage)) else None
    {
      ApplyTranslations();
      UpdateLanguageSwitcher();
    }

    /**
     * The rejection handler of the initial load: unless the language is
     * already the default, switch to it and load it once more, showing it if
     * that load succeeds. The preference is not written.
     */
    method FallBackToDefault(fallbackReply: Reply)
      requires Valid()
      modifies this, elements
      ensures Valid()
      ensures old(currentLanguage) == DefaultLanguage ==> unchanged(this) && unchanged(elements)
      ensures storedPreference == old(storedPreference) && events == old(events)
      ensures old(currentLanguage) != DefaultLanguage ==>
        && currentLanguage == DefaultLanguage
        && requests == old(requests) + [ResourcePath(DefaultLanguage)]
        && (LoadOutcome(fallbackReply).Success? ==>
             && translations == LoadOutcome(fallbackReply).value
             && documentLang == Some(DefaultLanguage)
             && elements[..] == TranslateDocument(old(elements[..]), translations)
             && switcherLabel == (if old(switcherLabel).Some? then Some(SwitcherLabel(DefaultLanguage)) else None))
        && (LoadOutcome(fallbackReply).Failure? ==>
             && translations == old(translations)
             && documentLang == old(documentLang)
             && elements[..] == old(elements[..])
             && switcherLabel == old(switcherLabel))
    {
      if currentLanguage != DefaultLanguage {
        SupportedKeys(DefaultLanguage);
        currentLanguage := DefaultLanguage;
        var loaded := LoadTranslations(DefaultLanguage, fallbackReply);
        if loaded.Success? {
          ShowTranslations();
        }
      }
    }

    /** The preference and locale checks of `initLanguage`. */
    method DetectLanguage(locale: string)
      requires Valid()
      modifies this`currentLanguage
      ensures Valid()
      ensures currentLanguage == ResolveLanguage(storedPreference, locale, old(currentLanguage))
    {
      currentLanguage := ResolveLanguage(storedPreference, locale, currentLanguage);
    }

    /**
     * The initial load of `initLanguage` and its handlers: show the
     * translations on success, fall back to the default on failure.
     */
    method LoadInitial(reply: Reply, fallbackReply: Reply)
      requires Valid()
      modifies this, elements
      ensures Valid()
      ensures storedPreference == old(storedPreference) && events == old(events)
      ensures LoadOutcome(reply).Success? ==>
        && currentLanguage == old(currentLanguage)
        && requests == old(requests) + [ResourcePath(currentLanguage)]
        && translations == LoadOutcome(reply).value
        && documentLang == Some(currentLanguage)
        && elements[..] == TranslateDocument(old(elements[..]), translations)
        && switcherLabel == (if old(switcherLabel).Some? then Some(SwitcherLabel(currentLanguage)) else None)
      ensures LoadOutcome(reply).Failure? ==>
        && currentLanguage == DefaultLanguage
        && requests == old(requests) + [ResourcePath(old(currentLanguage))]
                         + (if old(currentLanguage) == DefaultLanguage then [] else [ResourcePath(DefaultLanguage)])
      ensures LoadOutcome(reply).Failure? &&
              (old(currentLanguage) == DefaultLanguage || LoadOutcome(fallbackReply).Failure?) ==>
        && translations == old(translations)
        && documentLang == old(documentLang)
        && elements[..] == old(elements[..])
        && switcherLabel == old(switcherLabel)
      ensures LoadOutcome(reply).Failure? && old(currentLanguage) != DefaultLanguage &&
              LoadOutcome(fallbackReply).Success? ==>
        && translations == LoadOutcome(fallbackReply).value
        && documentLang == Some(DefaultLanguage)
        && elements[..] == TranslateDocument(old(elements[..]), translations)
        && switcherLabel == (if old(switcherLabel).Some? then Some(SwitcherLabel(DefaultLanguage)) else None)
    {
      var loaded := LoadTranslations(currentLanguage, reply);
      if loaded.Success? {
        ShowTranslations();
      } else {
        FallBackToDefault(fallbackReply);
      }
    }

    /**
     * `initLanguage()`, with the browser locale and the replies to the first
     * load and to the fallback load as parameters (the fallback reply is used
     * only when that load is issued). The switcher is mounted before the
     * language is resolved, so it shows the earlier language until a load
     * succeeds.
     */
    method InitLanguage(locale: string, reply: Reply, fallbackReply: Reply)
      requires Valid()
      modifies this, elements
      ensures Valid()
      ensures storedPreference == old(storedPreference) && events == old(events)
      ensures LoadOutcome(reply).Success? ==>
        var resolved := ResolveLanguage(old(storedPreference), locale, old(currentLanguage));
        && currentLanguage == resolved
        && requests == old(requests) + [ResourcePath(resolved)]
        && translations == LoadOutcome(reply).value
        && documentLang == Some(resolved)
        && elements[..] == TranslateDocument(old(elements[..]), translations)
        && switcherLabel == Some(SwitcherLabel(resolved))
      ensures LoadOutcome(reply).Failure? ==>
        var resolved := ResolveLanguage(old(storedPreference), locale, old(currentLanguage));
        && currentLanguage == DefaultLanguage
        && requests == old(requests) + [ResourcePath(resolved)]
                         + (if resolved == DefaultLanguage then [] else [ResourcePath(DefaultLanguage)])
      ensures LoadOutcome(reply).Failure? &&
              (ResolveLanguage(old(storedPreference), locale, old(currentLanguage)) == DefaultLanguage
               || LoadOutcome(fallbackReply).Failure?) ==>
        && translations == old(translations)
        && documentLang == old(documentLang)
        && elements[..] == old(elements[..])
        && switcherLabel == Some(SwitcherLabel(old(currentLanguage)))
      ensures LoadOutcome(reply).Failure? &&
              ResolveLanguage(old(storedPreference), locale, old(currentLanguage)) != DefaultLanguage &&
              LoadOutcome(fallbackReply).Success? ==>
        && translations == LoadOutcome(fallbackReply).value
        && documentLang == Some(DefaultLanguage)
        && elements[..] == TranslateDocument(old(elements[..]), translations)
        && switcherLabel == Some(SwitcherLabel(DefaultLanguage))
    {
      MountSwitcher();
      ghost var mounted := switcherLabel;
      DetectLanguage(locale);
      ghost var resolved := currentLanguage;
      assert resolved == ResolveLanguage(old(storedPreference), locale, old(currentLanguage));
      LoadInitial(reply, fallbackReply);
      assert mounted == Some(SwitcherLabel(old(currentLanguage)));
    }
  }
}

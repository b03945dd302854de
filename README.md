# YAP2U multilanguage support, modelled in Dafny

This project models the client-side internationalisation script of the YAP2U
website (`www.yap2u.page/lib/js/i18n.js`). The script keeps a catalogue of six
languages, resolves the starting language from the saved preference and the
browser locale, loads a flat JSON dictionary for the active language, writes
its values into the elements of the page that carry `data-i18n*` directive
attributes, and lets the page switch language through `changeLanguage`.

Modules, following the script's parts:

- `Wrappers` (`wrappers.dfy`): `Option` and `Result`; a `Result` is the settled
  state of one of the script's promises.
- `Registry` (`registry.dfy`): `LANGUAGES` as a map from key to descriptor,
  the declaration order of its keys, membership, `getSupportedLanguages` and
  the switcher label `flag + " " + name`.
- `Resolution` (`resolution.dfy`): `toLowerCase`, `split('-')[0]` and the
  first-rule-wins choice of the starting language in `initLanguage`.
- `Translations` (`translations.dfy`): the dictionary, `t` (a lookup that
  falls back to the key when the value is missing or empty), the resource path
  `lib/i18n/<lang>.json`, and how a reply settles `loadTranslations`.
- `Document` (`document.dfy`): the page as a flat sequence of element records
  (one optional key per directive kind, the children, and the placeholder,
  title and alt attributes) and what `applyTranslations` does to them, pass by
  pass and element by element.
- `I18n` (`i18n.dfy`): class `Page`, which holds the script's globals
  `currentLanguage` and `translations`, the `yap2u_language` entry of
  `localStorage`, the document's `lang` attribute, the elements as an array,
  the switcher label, and logs of the requests issued and the `languageChanged`
  events dispatched. Its methods are `loadTranslations`, `applyTranslations`,
  `updateLanguageSwitcher`, `changeLanguage` and `initLanguage`, with the
  replies to their requests and the browser locale passed in as parameters.
  `window.i18n.t` is `Page.T` and `getCurrentLanguage` is
  `Page.GetCurrentLanguage`.

`textContent` and `innerHTML` both replace an element's children, so both
write the same field. Its value is `Text` or `Markup`. An element with both
`data-i18n` and `data-i18n-html` ends with the html value, because that pass
runs last.

Points of the code's behaviour that a reader might expect otherwise:

- The whole lower-cased locale is compared only with `pt-br`; every other
  language is matched on its primary subtag. `ResolveByRule` states the more
  general rule, which first matches the whole locale against every key.
  Since `pt-br` is the only key with a hyphen, the two pick the same language
  for every input (`ResolveMatchesGeneralRule`).
- A dictionary value is applied, or returned by `t`, only when it is truthy,
  so an empty string counts as missing, just like an absent key.
- `loadTranslations` installs the dictionary itself, assigning
  `translations` as soon as the body parses (i18n.js:60), and
  `Page.LoadTranslations` does the same.
- `initLanguage` keeps the language already current when no rule applies
  (normally the default `en`). It mounts the switcher before resolving the
  language, so the label shows the earlier language until a load succeeds.

## Model

| member | source | states |
|---|---|---|
| `Registry.SupportedKeys` | www.yap2u.page/lib/js/i18n.js:7-38 | a key is supported exactly when it is one of `en`, `pt-br`, `es`, `it`, `fr`, `de` |
| `Registry.SupportedLanguages` | www.yap2u.page/lib/js/i18n.js:360 | `getSupportedLanguages` lists every supported key and nothing else, each once, in declaration order: `en`, `pt-br`, `es`, `it`, `fr`, `de` |
| `Registry.CodeMatchesKey` | www.yap2u.page/lib/js/i18n.js:7-38 | every descriptor's `code` equals the key it is stored under |
| `Registry.FlagsDistinct` | www.yap2u.page/lib/js/i18n.js:7-38 | every flag is two symbols long and no two languages share a flag |
| `Registry.SwitcherLabel` | www.yap2u.page/lib/js/i18n.js:179 | the button text starts with the language's two-symbol flag, then a space, then the language's name |
| `Registry.LabelsIdentifyLanguage` | www.yap2u.page/lib/js/i18n.js:179 | two supported languages have the same switcher label `flag + " " + name` exactly when they are the same language |
| `Registry.SpanishLabel` | www.yap2u.page/lib/js/i18n.js:18-22 | the switcher label for `es` is the Spanish flag, a space and `Español` |
| `Resolution.ToLower` | www.yap2u.page/lib/js/i18n.js:320 | lower-casing keeps the length and lower-cases each character in place |
| `Resolution.PrimarySubtag` | www.yap2u.page/lib/js/i18n.js:319 | `split('-')[0]` is a prefix of the locale without a hyphen, and it ends at the first hyphen or at the end |
| `Resolution.PrimarySubtagOfPlain` | www.yap2u.page/lib/js/i18n.js:319 | a locale without a hyphen is its own primary subtag |
| `Resolution.ResolveLanguage` | www.yap2u.page/lib/js/i18n.js:313-330 | a supported saved preference always wins; the result is either the language current before resolution or a supported key, and it is supported whenever that language was |
| `Resolution.ResolveMatchesGeneralRule` | www.yap2u.page/lib/js/i18n.js:318-329 | the `pt-br` special case followed by the primary-subtag rule picks the same language as matching the whole lower-cased locale against every key first |
| `Resolution.ResolveBrazilianLocale` | www.yap2u.page/lib/js/i18n.js:322-325 | with no preference, locale `pt-BR` gives `pt-br` |
| `Resolution.ResolveRegionalLocale` | www.yap2u.page/lib/js/i18n.js:326-329 | with no preference, locale `es-MX` gives `es` |
| `Resolution.ResolvePortugueseLocale` | www.yap2u.page/lib/js/i18n.js:319-329 | with no preference, locale `pt-PT` keeps the default `en`, because `pt` is not a key |
| `Resolution.ResolveUnsupportedLocale` | www.yap2u.page/lib/js/i18n.js:318-330 | with no preference, locale `zz-ZZ` keeps the default `en` |
| `Resolution.ResolveSavedPreference` | www.yap2u.page/lib/js/i18n.js:314-316 | a saved `de` wins over locale `fr-FR` |
| `Resolution.ResolveIgnoresUnsupportedPreference` | www.yap2u.page/lib/js/i18n.js:314-329 | a saved `DE` is not a key (it is not lower-cased) and gives way to locale `FR`, which gives `fr` |
| `Translations.Translate` | www.yap2u.page/lib/js/i18n.js:79-81 | `t(key)` is the key's value when that value is present and non-empty, and the key itself otherwise; it is empty only for the empty key |
| `Translations.ResourcePathInjective` | www.yap2u.page/lib/js/i18n.js:54 | two languages share a resource path `lib/i18n/<lang>.json` exactly when they are the same |
| `Translations.LoadOutcome` | www.yap2u.page/lib/js/i18n.js:56-67 | a load succeeds with the parsed body exactly when the status is 200 and the body parses; a status other than 200 rejects as a transport failure; a 200 with an unparseable body rejects as a parse failure |
| `Translations.MessagesDistinct` | www.yap2u.page/lib/js/i18n.js:63-66 | the two load rejections carry different messages |
| `Document.ApplyDirective` | www.yap2u.page/lib/js/i18n.js:92-97 | one directive pass on one element never changes the element's directive attributes |
| `Document.TranslateElement` | www.yap2u.page/lib/js/i18n.js:86-134 | after the five passes, placeholder, title and alt each hold their key's truthy value if there is one, else what they held; the children hold the html value, else the text value, else what they held; directive attributes are unchanged |
| `Document.TextDirectiveShowsTranslation` | www.yap2u.page/lib/js/i18n.js:92-96 | an element bound by `data-i18n` to a key with a truthy value, and not by `data-i18n-html`, shows the text `t` returns for that key |
| `Document.PassesTranslateDocument` | www.yap2u.page/lib/js/i18n.js:91-133 | the five whole-document passes in source order translate every element as `TranslateElement` does |
| `Document.TranslateElementIdempotent` | www.yap2u.page/lib/js/i18n.js:86-134 | translating an element a second time with the same dictionary changes nothing |
| `Document.TranslateDocumentIdempotent` | www.yap2u.page/lib/js/i18n.js:86-134 | applying the same dictionary to the page twice gives the page that applying it once gives |
| `Document.MissNeverBlanks` | www.yap2u.page/lib/js/i18n.js:94-131 | an element none of whose keys has a truthy value is left exactly as it was |
| `Document.GreetingExample` | www.yap2u.page/lib/js/i18n.js:92-96 | an element bound by `data-i18n` to `greeting` (and without an html key) shows the text `Hola` after `{"greeting": "Hola"}` is applied |
| `I18n.Page.constructor` | www.yap2u.page/lib/js/i18n.js:41-44 | the script starts in `en` with an empty dictionary, no switcher, and nothing requested or dispatched |
| `I18n.Page.GetCurrentLanguage` | www.yap2u.page/lib/js/i18n.js:359 | the current language is always a supported key |
| `I18n.Page.LoadTranslations` | www.yap2u.page/lib/js/i18n.js:51-72 | one request for the language's path is issued; the result is the reply's outcome; `translations` is replaced wholesale by the parsed body on success and untouched on failure |
| `I18n.Page.ApplyPass` | www.yap2u.page/lib/js/i18n.js:91-97 | one `forEach` leaves the array equal to that directive's pass over its old contents |
| `I18n.Page.T` | www.yap2u.page/lib/js/i18n.js:79-81 | `window.i18n.t(key)` (exported at i18n.js:357) is the active dictionary's value for `key` when that value is present and non-empty, and `key` itself otherwise |
| `I18n.Page.ApplyTranslations` | www.yap2u.page/lib/js/i18n.js:86-134 | sets the document's `lang` to the current language and translates every element with the active dictionary, changing nothing else; an element bound by `data-i18n` to a key with a value, and not by `data-i18n-html`, then shows `T` of that key |
| `I18n.Page.UpdateLanguageSwitcher` | www.yap2u.page/lib/js/i18n.js:173-181 | a mounted switcher shows the current language's label; an absent one stays absent |
| `I18n.Page.MountSwitcher` | www.yap2u.page/lib/js/i18n.js:199-201 | the new switcher shows the current language's label |
| `I18n.Page.CommitLanguage` | www.yap2u.page/lib/js/i18n.js:147-153 | the language and the stored preference become `lang` and a mounted switcher is relabelled |
| `I18n.Page.LoadAndApply` | www.yap2u.page/lib/js/i18n.js:156-167 | one request is issued; on success the dictionary is installed, the page translated, one `languageChanged` event for `lang` appended and `lang` returned; on failure it rejects with the load error and nothing else changes |
| `I18n.Page.ChangeLanguage` | www.yap2u.page/lib/js/i18n.js:141-168 | an unsupported code rejects and changes nothing (no request, no preference, no DOM); a supported one commits the language and preference and issues one request, and they are not rolled back when the load fails; success installs the dictionary, translates the page, dispatches exactly one event and resolves with the code |
| `I18n.Page.ShowTranslations` | www.yap2u.page/lib/js/i18n.js:334-337 | a settled load translates the page and relabels a mounted switcher |
| `I18n.Page.FallBackToDefault` | www.yap2u.page/lib/js/i18n.js:338-349 | if the language is already `en`, nothing changes; otherwise it becomes `en`, exactly one request for `en` is issued, and the page is translated only if that load succeeds; the preference is never written |
| `I18n.Page.DetectLanguage` | www.yap2u.page/lib/js/i18n.js:313-330 | the current language becomes the resolution of the stored preference and the locale, and stays supported |
| `I18n.Page.LoadInitial` | www.yap2u.page/lib/js/i18n.js:332-349 | the initial load translates the page on success; on failure the language ends as `en`, with a second request only if it was not `en` already |
| `I18n.Page.InitLanguage` | www.yap2u.page/lib/js/i18n.js:245-350 | mounts the switcher, resolves the language, and loads it; on success the page is in the resolved language; on failure the language ends as `en`, with one fallback request only when the resolved language was not `en`; the preference is never written and no event is dispatched |

## Left out

- The XHR transport and `JSON.parse` are not modelled. Each load takes the completed reply as a parameter: its status, and the parsed body or `None` when parsing throws.
- Dictionary values are strings. JSON bodies with numbers, booleans, `null` or nested objects as values are not modelled.
- A body that parses to something other than an object (`null`, an array, a number, a string, a boolean) is not modelled. The script stores such a value in `translations` and resolves the load. `applyTranslations` then sets `lang` and throws on its first directive, and `t` throws. The catch handlers of `changeLanguage` (i18n.js:164-167) and `initLanguage` (i18n.js:338-349) therefore also catch a failure of `applyTranslations` after a successful load: `changeLanguage` rejects with no event, and `initLanguage` runs its fallback to `en`. In the model, every parsed body is a dictionary, so `applyTranslations` cannot fail and the success paths of `Page.LoadAndApply` and `Page.LoadInitial` always complete.
- `localStorage` is modelled as the `storedPreference` field, and `navigator.language` as the `locale` parameter. Neither is modelled as a platform service.
- Resolution.ToLower: lower-cases ASCII letters only. Only two non-ASCII characters lower-case to something containing ASCII: U+0130 gives `i` followed by U+0307, and the Kelvin sign U+212A gives `k`. Neither U+0307 nor `k` appears in any registry key, and no character lower-cases to `-`. So the resolved language is the same as with the full Unicode mapping.
- The DOM construction of the switcher, its dropdown and option list, the click listeners, the injected CSS and the `DOMContentLoaded` wiring are not modelled. Only the button label is kept.
- The page is a fixed, flat sequence of elements. Nested elements and the parsing of markup installed through `innerHTML` are not modelled. Neither is the effect of `textContent` or `innerHTML` on descendants that carry directives of their own, nor elements added between calls.
- Only one call runs at a time. Overlapping `changeLanguage` calls, whose loads settle in any order with the last writer winning, are not modelled. Neither is a user call that lands between `initLanguage`'s first load and its fallback.
- Membership is tested on the six declared keys. Inherited object properties such as `constructor`, which JavaScript also treats as truthy, are left out.
- `console.error` output is left out. The `CustomEvent` dispatch is modelled as appending an entry to the `events` log, and the rejection message of an unsupported language as `UnsupportedLanguage(lang)`.

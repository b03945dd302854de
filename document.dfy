/**
 * The document as `applyTranslations` sees it: a flat sequence of elements,
 * each with at most one key per directive attribute and the five things a
 * directive can overwrite.
 */
module Document {
  import opened Wrappers
  import opened Translations

  /** The five directive attributes, in the order `applyTranslations` handles them. */
  datatype Directive =
    | TextDirective         // data-i18n: textContent
    | PlaceholderDirective  // data-i18n-placeholder: placeholder attribute
    | TitleDirective        // data-i18n-title: title attribute
    | AltDirective          // data-i18n-alt: alt attribute
    | HtmlDirective         // data-i18n-html: innerHTML

  /**
   * An element's children: text set through `textContent`, or markup set
   * through `innerHTML` (what the page was written with).
   */
  datatype Content = Text(text: string) | Markup(html: string)

  datatype Element = Element(
    textKey: Option<string>,
    placeholderKey: Option<string>,
    titleKey: Option<string>,
    altKey: Option<string>,
    htmlKey: Option<string>,
    content: Content,
    placeholder: Option<string>,
    title: Option<string>,
    alt: Option<string>)

  /** The value of the element's attribute for `kind`, if it carries one. */
  function KeyOf(e: Element, kind: Directive): Option<string>
  {
    match kind
    case TextDirective => e.textKey
    case PlaceholderDirective => e.placeholderKey
    case TitleDirective => e.titleKey
    case AltDirective => e.altKey
    case HtmlDirective => e.htmlKey
  }

  /** The two elements carry the same directive attributes. */
  predicate SameKeys(a: Element, b: Element)
  {
    a.textKey == b.textKey && a.placeholderKey == b.placeholderKey && a.titleKey == b.titleKey
    && a.altKey == b.altKey && a.htmlKey == b.htmlKey
  }

  /** What the pass for `kind` writes into `e`: the truthy value of its key, if any. */
  function Hit(e: Element, kind: Directive, d: Dictionary): Option<string>
  {
    match KeyOf(e, kind)
    case Some(k) => if Has(d, k) then Some(d[k]) else None
    case None => None
  }

  /** Overwrites the target of `kind` with `v`. */
  function Write(e: Element, kind: Directive, v: string): Element
  {
    match kind
    case TextDirective => e.(content := Text(v))
    case PlaceholderDirective => e.(placeholder := Some(v))
    case TitleDirective => e.(title := Some(v))
    case AltDirective => e.(alt := Some(v))
    case HtmlDirective => e.(content := Markup(v))
  }

  /** The body of one `forEach` of `applyTranslations`, on one element. */
  function ApplyDirective(e: Element, kind: Directive, d: Dictionary): (r: Element)
    ensures SameKeys(r, e)
  {
    match Hit(e, kind, d)
    case Some(v) => Write(e, kind, v)
    case None => e
  }

  /** An attribute after its pass: the hit if there is one, else what it was. */
  function Overwritten(was: Option<string>, hit: Option<string>): Option<string>
  {
    if hit.Some? then hit else was
  }

  /**
   * The five passes on one element. Each attribute target takes its hit or
   * stays; the children take the html hit, else the text hit, else stay;
   * the directive attributes never change.
   */
  function TranslateElement(e: Element, d: Dictionary): (r: Element)
    ensures SameKeys(r, e)
    ensures r.placeholder == Overwritten(e.placeholder, Hit(e, PlaceholderDirective, d))
    ensures r.title == Overwritten(e.title, Hit(e, TitleDirective, d))
    ensures r.alt == Overwritten(e.alt, Hit(e, AltDirective, d))
    ensures r.content ==
      match Hit(e, HtmlDirective, d)
      case Some(h) => Markup(h)
      case None =>
        match Hit(e, TextDirective, d)
        case Some(t) => Text(t)
        case None => e.content
  {
    var e1 := ApplyDirective(e, TextDirective, d);
    var e2 := ApplyDirective(e1, PlaceholderDirective, d);
    var e3 := ApplyDirective(e2, TitleDirective, d);
    var e4 := ApplyDirective(e3, AltDirective, d);
    ApplyDirective(e4, HtmlDirective, d)
  }

  /** One `forEach` of `applyTranslations` over the whole document. */
  function Pass(doc: seq<Element>, kind: Directive, d: Dictionary): (r: seq<Element>)
    ensures |r| == |doc|
    ensures forall i :: 0 <= i < |doc| ==> r[i] == ApplyDirective(doc[i], kind, d)
  {
    seq(|doc|, i requires 0 <= i < |doc| => ApplyDirective(doc[i], kind, d))
  }

  /** The document after `applyTranslations`, element by element. */
  function TranslateDocument(doc: seq<Element>, d: Dictionary): (r: seq<Element>)
    ensures |r| == |doc|
    ensures forall i :: 0 <= i < |doc| ==> r[i] == TranslateElement(doc[i], d)
  {
    seq(|doc|, i requires 0 <= i < |doc| => TranslateElement(doc[i], d))
  }

  /** Running the five passes one after another translates every element. */
  lemma PassesTranslateDocument(doc: seq<Element>, d: Dictionary)
    ensures Pass(Pass(Pass(Pass(Pass(doc, TextDirective, d), PlaceholderDirective, d), TitleDirective, d),
                      AltDirective, d), HtmlDirective, d)
            == TranslateDocument(doc, d)
  {
  }

  /** Translating an element a second time changes nothing. */
  lemma TranslateElementIdempotent(e: Element, d: Dictionary)
    ensures TranslateElement(TranslateElement(e, d), d) == TranslateElement(e, d)
  {
  }

  /** Applying the same dictionary twice gives the document applying it once gives. */
  lemma TranslateDocumentIdempotent(doc: seq<Element>, d: Dictionary)
    ensures TranslateDocument(TranslateDocument(doc, d), d) == TranslateDocument(doc, d)
  {
    var once := TranslateDocument(doc, d);
    forall i | 0 <= i < |doc|
      ensures TranslateDocument(once, d)[i] == once[i]
    {
      TranslateElementIdempotent(doc[i], d);
    }
  }

  /** An element none of whose keys has a truthy value is left exactly as it was. */
  lemma MissNeverBlanks(e: Element, d: Dictionary)
    requires forall kind :: Hit(e, kind, d).None?
    ensures TranslateElement(e, d) == e
  {
  }

  /** An element bound by `data-i18n` to "greeting" shows "Hola" after the Spanish dictionary is applied. */
  lemma GreetingExample(e: Element)
    requires e.textKey == Some("greeting") && e.htmlKey == None
    ensures TranslateElement(e, map["greeting" := "Hola"]).content == Text("Hola")
  {
  }

  /**
   * An element bound by `data-i18n` to a key with a value, and not bound by
   * `data-i18n-html`, shows exactly what `t` returns for that key.
   */
  lemma TextDirectiveShowsTranslation(e: Element, d: Dictionary, key: string)
    requires e.textKey == Some(key) && Has(d, key) && e.htmlKey == None
    ensures TranslateElement(e, d).content == Text(Translate(d, key))
  {
  }
}

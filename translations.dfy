/**
 * The active dictionary and the pure parts of loading it: the key lookup
 * `t`, the resource path of a language, and how a server reply settles the
 * load.
 */
module Translations {
  import opened Wrappers

  /** A loaded dictionary: the flat JSON object of key to text. */
  type Dictionary = map<string, string>

  /** `translations[key]` is truthy: present and, being a string, non-empty. */
  predicate Has(d: Dictionary, key: string)
  {
    key in d && d[key] != ""
  }

  /** `t(key)`: the translation of `key`, or `key` itself when it has none. */
  function Translate(d: Dictionary, key: string): (r: string)
    ensures Has(d, key) ==> r == d[key]
    ensures !Has(d, key) ==> r == key
    ensures r == "" ==> key == ""
  {
    if Has(d, key) then d[key] else key
  }

  /** The path `loadTranslations` requests for a language. */
  function ResourcePath(lang: string): string
  {
    "lib/i18n/" + lang + ".json"
  }

  /** Different languages are fetched from different resources. */
  lemma ResourcePathInjective(a: string, b: string)
    ensures ResourcePath(a) == ResourcePath(b) <==> a == b
  {
    if ResourcePath(a) == ResourcePath(b) {
      var pa, pb := ResourcePath(a), ResourcePath(b);
      assert |a| == |b|;
      assert a == pa[9..9 + |a|];
      assert b == pb[9..9 + |b|];
    }
  }

  /** Why a load rejects. */
  datatype LoadFailure =
    | TransportFailed  // the response status was not 200
    | ParseFailed      // the body was not valid JSON

  /** The message of the `Error` a load rejects with. */
  function Message(e: LoadFailure): string
  {
    match e
    case TransportFailed => "Failed to load translations"
    case ParseFailed => "Failed to parse translations"
  }

  /**
   * The completed request as the script sees it: the status, and the body as
   * `JSON.parse` reads it (`None` when parsing throws).
   */
  datatype Reply = Reply(status: int, body: Option<Dictionary>)

  /** How a completed request settles `loadTranslations`. */
  function LoadOutcome(reply: Reply): (r: Result<Dictionary, LoadFailure>)
    ensures r.Success? <==> reply.status == 200 && reply.body.Some?
    ensures r.Success? ==> r.value == reply.body.value
    ensures r == Failure(TransportFailed) <==> reply.status != 200
    ensures r == Failure(ParseFailed) <==> reply.status == 200 && reply.body.None?
  {
    if reply.status == 200 then
      match reply.body
      case Some(d) => Success(d)
      case None => Failure(ParseFailed)
    else
      Failure(TransportFailed)
  }

  /** The two rejections carry the two distinct messages. */
  lemma MessagesDistinct(e1: LoadFailure, e2: LoadFailure)
    ensures Message(e1) == Message(e2) <==> e1 == e2
  {
  }
}

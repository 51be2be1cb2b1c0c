/**
 What both copies of the Lingva client share: the endpoint outcomes the
 network can produce, the translation record, the built-in endpoint list,
 and the translate and list-languages operations over the generic failover
 loop. The two copies differ only in where they promote an alternative on
 the translate path, which is the PromotionPoint argument.
 */
module Lingva {
  import opened Base
  import opened Sequences
  import opened Strings
  import opened EndpointFailover

  /** What one translate request to one endpoint can come to. */
  datatype TranslateOutcome =
    | TransportError(message: string)   // no response, or a non-2xx status
    | BadJson(message: string)          // 2xx, body is not JSON
    | NoTranslationField                // 2xx JSON object without a `translation` key
    | NotAnObject(message: string)      // 2xx JSON that cannot be subscripted by a key (list, string, null, number)
    | Translated(translation: string)   // 2xx JSON with a `translation` key

  datatype Language = Language(code: string, name: string)

  /** What one `/languages` request to one endpoint can come to. */
  datatype LanguagesOutcome =
    | ListTransportError(message: string)
    | ListBadJson(message: string)
    | Listed(languages: seq<Language>)

  /**
   Where an alternative that answered 2xx is made primary on the translate
   path: before the body's `translation` key is read, or only after the
   result record is built.
   */
  datatype PromotionPoint = BeforeFieldRead | AfterResultBuilt

  datatype Translation = Translation(
    originalText: string,
    translatedText: string,
    sourceLanguage: string,
    targetLanguage: string,
    timestamp: string,
    apiUsed: Option<Url>)

  /** The primary after a call, and what the call returned. */
  datatype Reply<+T> = Reply(primary: Url, result: T)

  const DefaultApiUrl: Url := "https://lingva.garudalinux.org/api/v1"

  const DefaultAlternatives: seq<Url> := [
    "https://lingva.garudalinux.org/api/v1",
    "https://lingva.pussthecat.org/api/v1",
    "https://translate.plausibility.cloud/api/v1",
    "https://translate.dr460nf1r3.org/api/v1"
  ]

  /** The text of `str(KeyError("translation"))`. */
  const MissingFieldMessage: string := "'translation'"

  const FailurePrefix: string := "All Lingva API endpoints failed: "

  /** A 2xx JSON answer from which `data["translation"]` cannot be read. */
  predicate LacksTranslation(o: TranslateOutcome)
  {
    o.NoTranslationField? || o.NotAnObject?
  }

  /** A translate outcome as a failover attempt, for the given promotion point. */
  function TranslateAttempt(o: TranslateOutcome, point: PromotionPoint): (a: Attempt<string>)
    ensures a.Served? <==> o.Translated?
    ensures a.Served? ==> o == Translated(a.value)
    ensures Promotes(a) <==> LacksTranslation(o) && point == BeforeFieldRead
  {
    match o
    case TransportError(m) => Failed(m, false)
    case BadJson(m) => Failed(m, false)
    case NoTranslationField => Failed(MissingFieldMessage, point == BeforeFieldRead)
    case NotAnObject(m) => Failed(m, point == BeforeFieldRead)
    case Translated(t) => Served(t)
  }

  function TranslateAttempts(oracle: Url -> TranslateOutcome, point: PromotionPoint): (attempt: Url -> Attempt<string>)
  {
    u => TranslateAttempt(oracle(u), point)
  }

  /**
   A languages outcome as a failover attempt. Both copies promote before
   decoding the body, so an unparsable body promotes and still fails.
   */
  function LanguagesAttempt(o: LanguagesOutcome): (a: Attempt<seq<Language>>)
    ensures a.Served? <==> o.Listed?
    ensures a.Served? ==> o == Listed(a.value)
    ensures Promotes(a) <==> o.ListBadJson?
  {
    match o
    case ListTransportError(m) => Failed(m, false)
    case ListBadJson(m) => Failed(m, true)
    case Listed(l) => Served(l)
  }

  function LanguagesAttempts(oracle: Url -> LanguagesOutcome): (attempt: Url -> Attempt<seq<Language>>)
  {
    u => LanguagesAttempt(oracle(u))
  }

  predicate SomeEndpointTranslates(primary: Url, alternatives: seq<Url>, oracle: Url -> TranslateOutcome)
  {
    oracle(primary).Translated? || exists k :: 0 <= k < |alternatives| && oracle(alternatives[k]).Translated?
  }

  predicate SomeEndpointLists(primary: Url, alternatives: seq<Url>, oracle: Url -> LanguagesOutcome)
  {
    oracle(primary).Listed? || exists k :: 0 <= k < |alternatives| && oracle(alternatives[k]).Listed?
  }

  /** The translate result for a finished run: the record echoing the inputs, or the aggregated error. */
  function TranslateReply(primary: Url, outcome: Outcome<string>, errors: seq<string>,
                          text: string, sourceLang: string, targetLang: string, timestamp: string)
    : (r: Reply<Result<Translation>>)
  {
    match outcome
    case Answered(t, via) => Reply(primary, Ok(Translation(text, t, sourceLang, targetLang, timestamp, via)))
    case AllFailed => Reply(primary, Err(RuntimeError(FailurePrefix + Join(errors, "\n"))))
  }

  /**
   translate_text over the failover loop. The call succeeds exactly when
   some endpoint returns a translation. A success echoes the inputs and
   carries the translation of the endpoint that served it: the primary,
   which then stays primary and leaves `apiUsed` empty, or an alternative,
   which becomes primary and is named in `apiUsed`. When the primary fails,
   the serving alternative is the first one in list order that translates.
   A total failure raises a RuntimeError whose text is the fixed prefix
   followed by one error line per URL the walk attempted, joined with
   newlines: the primary's first, then the attempted alternatives in list
   order (which ones those are is stated by FailoverAttempts).
   */
  function Translate(primary: Url, alternatives: seq<Url>, text: string, sourceLang: string, targetLang: string,
                     timestamp: string, oracle: Url -> TranslateOutcome, point: PromotionPoint)
    : (r: Reply<Result<Translation>>)
    ensures r.result.Ok? <==> SomeEndpointTranslates(primary, alternatives, oracle)
    ensures r.result.Ok? ==>
              && r.result.value.originalText == text
              && r.result.value.sourceLanguage == sourceLang
              && r.result.value.targetLanguage == targetLang
              && r.result.value.timestamp == timestamp
              && oracle(r.primary) == Translated(r.result.value.translatedText)
    ensures r.result.Ok? && r.result.value.apiUsed.None? <==> oracle(primary).Translated?
    ensures oracle(primary).Translated? ==> r.primary == primary
    ensures r.result.Ok? && r.result.value.apiUsed.Some? ==> r.primary == r.result.value.apiUsed.value
    ensures !oracle(primary).Translated? ==>
              forall k :: FirstAnswering(alternatives, TranslateAttempts(oracle, point), k) ==>
                r.result == Ok(Translation(text, oracle(alternatives[k]).translation, sourceLang, targetLang,
                                           timestamp, Some(alternatives[k])))
    ensures r.result.Err? ==> r.result.error.RuntimeError? && StartsWith(r.result.error.message, FailurePrefix)
    ensures r.result.Err? ==>
              var run := Failover(primary, alternatives, TranslateAttempts(oracle, point));
              r.result.error.message == FailurePrefix + Join(ErrorLines(run.tried, TranslateAttempts(oracle, point)), "\n")
  {
    var attempt := TranslateAttempts(oracle, point);
    var run := Failover(primary, alternatives, attempt);
    FailoverFirstAnswer(primary, alternatives, attempt);
    assert forall k :: 0 <= k < |alternatives| ==> (attempt(alternatives[k]).Served? <==> oracle(alternatives[k]).Translated?);
    var r := TranslateReply(run.primary, run.outcome, run.errors, text, sourceLang, targetLang, timestamp);
    assert r.result.Err? ==> r.result.error.message == FailurePrefix + Join(run.errors, "\n");
    assert r.result.Err? ==> Failures(run) == run.tried;
    r
  }

  /** When no endpoint translates, the walk attempts the primary and then every alternative the skip rule lets through. */
  lemma TotalFailureAttempts(primary: Url, alternatives: seq<Url>, oracle: Url -> TranslateOutcome, point: PromotionPoint)
    ensures var attempt := TranslateAttempts(oracle, point);
            !SomeEndpointTranslates(primary, alternatives, oracle) ==>
              Failover(primary, alternatives, attempt).tried == [primary] + Attempted(alternatives, primary, attempt, |alternatives|)
  {
    var attempt := TranslateAttempts(oracle, point);
    if !SomeEndpointTranslates(primary, alternatives, oracle) {
      assert forall i :: 0 <= i < |alternatives| ==> attempt(alternatives[i]).Failed?;
      FailoverAttempts(primary, alternatives, attempt);
    }
  }

  /**
   get_available_languages over the failover loop: the list of the
   endpoint that served, if any endpoint lists its languages (the first
   alternative in list order that does, when the primary does not);
   otherwise the given built-in fallback list, without raising.
   */
  function Languages(primary: Url, alternatives: seq<Url>, oracle: Url -> LanguagesOutcome, fallback: seq<Language>)
    : (r: Reply<seq<Language>>)
    ensures SomeEndpointLists(primary, alternatives, oracle) ==> oracle(r.primary) == Listed(r.result)
    ensures !SomeEndpointLists(primary, alternatives, oracle) ==> r.result == fallback
    ensures oracle(primary).Listed? ==> r.primary == primary
    ensures !oracle(primary).Listed? ==>
              forall k :: FirstAnswering(alternatives, LanguagesAttempts(oracle), k) ==>
                r == Reply(alternatives[k], oracle(alternatives[k]).languages)
  {
    var attempt := LanguagesAttempts(oracle);
    var run := Failover(primary, alternatives, attempt);
    FailoverFirstAnswer(primary, alternatives, attempt);
    assert forall k :: 0 <= k < |alternatives| ==> (attempt(alternatives[k]).Served? <==> oracle(alternatives[k]).Listed?);
    LanguagesReply(run.primary, run.outcome, fallback)
  }

  function LanguagesReply(primary: Url, outcome: Outcome<seq<Language>>, fallback: seq<Language>): (r: Reply<seq<Language>>)
  {
    match outcome
    case Answered(l, _) => Reply(primary, l)
    case AllFailed => Reply(primary, fallback)
  }
}

/**
 The LingvaService class of mcp_translate_api/services/lingva_service.py:
 the primary URL and the alternatives live on the instance, and the
 translate path promotes an alternative as soon as it answers 2xx JSON,
 before the `translation` key is read.
 */
module Service {
  import opened Base
  import opened Strings
  import opened EndpointFailover
  import opened Lingva

  datatype Config = Config(primaryApiUrl: Url, apiAlternatives: seq<Url>)

  /** The fallback language list when no endpoint answers. */
  const DefaultLanguages: seq<Language> := [
    Language("auto", "Detect Language"),
    Language("en", "English"),
    Language("zh", "Chinese")
  ]

  /**
   The constructor's choice of configuration. A truthy argument wins;
   otherwise the primary comes from the environment variable when it is
   set (even to the empty string) or from the built-in URL, and the
   alternatives from the built-in four-URL list, so an empty list given
   explicitly is replaced too.
   */
  function Init(primaryApiUrl: Option<string>, apiAlternatives: Option<seq<Url>>, env: Option<string>): (c: Config)
    ensures Truthy(primaryApiUrl) ==> c.primaryApiUrl == primaryApiUrl.value
    ensures !Truthy(primaryApiUrl) && env.Some? ==> c.primaryApiUrl == env.value
    ensures !Truthy(primaryApiUrl) && env.None? ==> c.primaryApiUrl == DefaultApiUrl
    ensures apiAlternatives.Some? && |apiAlternatives.value| > 0 ==> c.apiAlternatives == apiAlternatives.value
    ensures apiAlternatives.None? || apiAlternatives.value == [] ==> c.apiAlternatives == DefaultAlternatives
    ensures |c.apiAlternatives| > 0
  {
    var primary := if Truthy(primaryApiUrl) then primaryApiUrl.value
                   else if env.Some? then env.value else DefaultApiUrl;
    var alternatives := if apiAlternatives.Some? && |apiAlternatives.value| > 0 then apiAlternatives.value
                        else DefaultAlternatives;
    Config(primary, alternatives)
  }

  /**
   Translate as this copy does it: promotion before the `translation` key
   is read. The instance ends on its old primary or on one of its
   alternatives; after a failed call a moved primary is an alternative
   that answered 2xx JSON from which `translation` could not be read, and
   the message holds one line for the primary and one for each alternative
   the skip rule let through, in list order.
   */
  function ServiceTranslate(c: Config, text: string, sourceLang: string, targetLang: string, timestamp: string,
                            oracle: Url -> TranslateOutcome): (r: Reply<Result<Translation>>)
    ensures r.primary == c.primaryApiUrl || r.primary in c.apiAlternatives
    ensures r.result.Err? && r.primary != c.primaryApiUrl ==>
              r.primary in c.apiAlternatives && LacksTranslation(oracle(r.primary))
    ensures r.result.Err? ==>
              var attempt := TranslateAttempts(oracle, BeforeFieldRead);
              var tried := [c.primaryApiUrl] + Attempted(c.apiAlternatives, c.primaryApiUrl, attempt, |c.apiAlternatives|);
              r.result.error == RuntimeError(FailurePrefix + Join(ErrorLines(tried, attempt), "\n"))
  {
    var attempt := TranslateAttempts(oracle, BeforeFieldRead);
    FailoverEndsOnKnownEndpoint(c.primaryApiUrl, c.apiAlternatives, attempt);
    TotalFailureAttempts(c.primaryApiUrl, c.apiAlternatives, oracle, BeforeFieldRead);
    Translate(c.primaryApiUrl, c.apiAlternatives, text, sourceLang, targetLang, timestamp, oracle, BeforeFieldRead)
  }

  /**
   get_available_languages of the service: the serving endpoint's list, or
   the three-entry fallback without raising. When nothing lists, a moved
   primary is an alternative whose body did not parse.
   */
  function ServiceLanguages(c: Config, oracle: Url -> LanguagesOutcome): (r: Reply<seq<Language>>)
    ensures SomeEndpointLists(c.primaryApiUrl, c.apiAlternatives, oracle) ==> oracle(r.primary) == Listed(r.result)
    ensures !SomeEndpointLists(c.primaryApiUrl, c.apiAlternatives, oracle) ==>
              && r.result == DefaultLanguages
              && (r.primary == c.primaryApiUrl || (r.primary in c.apiAlternatives && oracle(r.primary).ListBadJson?))
  {
    var attempt := LanguagesAttempts(oracle);
    FailoverEndsOnKnownEndpoint(c.primaryApiUrl, c.apiAlternatives, attempt);
    FailoverFirstAnswer(c.primaryApiUrl, c.apiAlternatives, attempt);
    assert forall k :: 0 <= k < |c.apiAlternatives| ==> (attempt(c.apiAlternatives[k]).Served? <==> oracle(c.apiAlternatives[k]).Listed?);
    Languages(c.primaryApiUrl, c.apiAlternatives, oracle, DefaultLanguages)
  }

  /**
   An alternative answering 2xx JSON from which `translation` cannot be
   read (no such key, or not an object) is made primary and still counted
   as failed: when every endpoint fails and the
   k-th alternative is the last such one, the call raises and leaves that
   alternative as the instance's primary.
   */
  lemma MissingFieldAlternativeStaysPromoted(c: Config, text: string, sourceLang: string, targetLang: string,
                                             timestamp: string, oracle: Url -> TranslateOutcome, k: int)
    requires !SomeEndpointTranslates(c.primaryApiUrl, c.apiAlternatives, oracle)
    requires 0 <= k < |c.apiAlternatives| && LacksTranslation(oracle(c.apiAlternatives[k]))
    requires forall i :: k < i < |c.apiAlternatives| ==> !LacksTranslation(oracle(c.apiAlternatives[i]))
    ensures ServiceTranslate(c, text, sourceLang, targetLang, timestamp, oracle).result.Err?
    ensures ServiceTranslate(c, text, sourceLang, targetLang, timestamp, oracle).primary == c.apiAlternatives[k]
  {
    var attempt := TranslateAttempts(oracle, BeforeFieldRead);
    assert forall i :: 0 <= i < |c.apiAlternatives| ==> attempt(c.apiAlternatives[i]).Failed?;
    FailoverKeepsLastPromoter(c.primaryApiUrl, c.apiAlternatives, attempt, k);
  }

  /**
   On the languages path an alternative is made primary before its body is
   decoded: when every endpoint fails and the k-th alternative is the last
   whose body does not parse, the fallback list is returned and that
   alternative is left as primary.
   */
  lemma BadJsonAlternativeStaysPromoted(c: Config, oracle: Url -> LanguagesOutcome, k: int)
    requires !SomeEndpointLists(c.primaryApiUrl, c.apiAlternatives, oracle)
    requires 0 <= k < |c.apiAlternatives| && oracle(c.apiAlternatives[k]).ListBadJson?
    requires forall i :: k < i < |c.apiAlternatives| ==> !oracle(c.apiAlternatives[i]).ListBadJson?
    ensures ServiceLanguages(c, oracle) == Reply(c.apiAlternatives[k], DefaultLanguages)
  {
    var attempt := LanguagesAttempts(oracle);
    assert forall i :: 0 <= i < |c.apiAlternatives| ==> attempt(c.apiAlternatives[i]).Failed?;
    FailoverKeepsLastPromoter(c.primaryApiUrl, c.apiAlternatives, attempt, k);
  }

  /**
   A mutable instance, as the source has it. Each call runs the failover
   loop from the current primary and writes back the primary it ends with;
   the alternatives are never changed by a call.
   */
  class LingvaService {
    var primaryApiUrl: Url
    var apiAlternatives: seq<Url>

    constructor (primary: Option<string>, alternatives: Option<seq<Url>>, env: Option<string>)
      ensures Config(primaryApiUrl, apiAlternatives) == Init(primary, alternatives, env)
    {
      var c := Init(primary, alternatives, env);
      primaryApiUrl := c.primaryApiUrl;
      apiAlternatives := c.apiAlternatives;
    }

    method GetAvailableLanguages(oracle: Url -> LanguagesOutcome) returns (languages: seq<Language>)
      modifies this
      ensures apiAlternatives == old(apiAlternatives)
      ensures Reply(primaryApiUrl, languages) == ServiceLanguages(old(Config(primaryApiUrl, apiAlternatives)), oracle)
    {
      var primary, outcome, _ := FailoverLoop(primaryApiUrl, apiAlternatives, LanguagesAttempts(oracle));
      var reply := LanguagesReply(primary, outcome, DefaultLanguages);
      primaryApiUrl := reply.primary;
      languages := reply.result;
    }

    method TranslateText(text: string, sourceLang: string, targetLang: string, timestamp: string,
                         oracle: Url -> TranslateOutcome) returns (result: Result<Translation>)
      modifies this
      ensures apiAlternatives == old(apiAlternatives)
      ensures Reply(primaryApiUrl, result)
              == ServiceTranslate(old(Config(primaryApiUrl, apiAlternatives)), text, sourceLang, targetLang, timestamp, oracle)
    {
      var primary, outcome, errors := FailoverLoop(primaryApiUrl, apiAlternatives, TranslateAttempts(oracle, BeforeFieldRead));
      var reply := TranslateReply(primary, outcome, errors, text, sourceLang, targetLang, timestamp);
      primaryApiUrl := reply.primary;
      result := reply.result;
    }
  }
}

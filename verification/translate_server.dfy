/**
 translate_server.py: the Lingva MCP server. The primary URL and the
 alternatives are module globals; the translate path promotes an
 alternative only after the result record, including its `translation`
 field, has been built, so a failed attempt never moves the primary.
 */
module TranslateServer {
  import opened Base
  import opened Sequences
  import opened Strings
  import opened EndpointFailover
  import opened Lingva

  /** The globals LINGVA_API_URL and LINGVA_API_ALTERNATIVES. */
  datatype Globals = Globals(apiUrl: Url, alternatives: seq<Url>)

  /** The globals at import: the environment variable if set, else the built-in URL. */
  function InitialGlobals(env: Option<string>): (g: Globals)
    ensures env.Some? ==> g.apiUrl == env.value
    ensures env.None? ==> g.apiUrl == DefaultApiUrl
    ensures g.alternatives == DefaultAlternatives
  {
    Globals(if env.Some? then env.value else DefaultApiUrl, DefaultAlternatives)
  }

  /** The fallback language list when no endpoint answers. */
  const DefaultLanguages: seq<Language> := [
    Language("auto", "Detect Language"),
    Language("en", "English"),
    Language("zh", "Chinese"),
    Language("es", "Spanish"),
    Language("fr", "French"),
    Language("de", "German"),
    Language("ja", "Japanese"),
    Language("ko", "Korean"),
    Language("ru", "Russian")
  ]

  /**
   translate_text of this server. The primary moves only to an alternative
   that served. A total failure leaves it as it was and raises with one
   line for the primary followed by one line for every alternative other
   than the primary, in list order, duplicates included.
   */
  function TranslateText(g: Globals, text: string, sourceLang: string, targetLang: string, timestamp: string,
                         oracle: Url -> TranslateOutcome): (r: Reply<Result<Translation>>)
    ensures r.result.Err? ==> r.primary == g.apiUrl
    ensures r.result.Ok? && r.result.value.apiUsed.None? ==> r.primary == g.apiUrl
    ensures r.result.Ok? && r.result.value.apiUsed.Some? ==> r.primary == r.result.value.apiUsed.value
    ensures r.result.Err? ==>
              r.result.error == RuntimeError(FailurePrefix + Join(ErrorLines([g.apiUrl] + Without(g.alternatives, g.apiUrl),
                                                                             TranslateAttempts(oracle, AfterResultBuilt)), "\n"))
  {
    var attempt := TranslateAttempts(oracle, AfterResultBuilt);
    FailoverWithoutPromotion(g.apiUrl, g.alternatives, attempt);
    Translate(g.apiUrl, g.alternatives, text, sourceLang, targetLang, timestamp, oracle, AfterResultBuilt)
  }

  /**
   get_available_languages of this server: the serving endpoint's list, or
   the nine-entry fallback when no endpoint lists its languages. This path
   promotes before decoding, so after a total failure the primary may have
   moved to an alternative whose body did not parse.
   */
  function GetAvailableLanguages(g: Globals, oracle: Url -> LanguagesOutcome): (r: Reply<seq<Language>>)
    ensures SomeEndpointLists(g.apiUrl, g.alternatives, oracle) ==> oracle(r.primary) == Listed(r.result)
    ensures !SomeEndpointLists(g.apiUrl, g.alternatives, oracle) ==>
              && r.result == DefaultLanguages
              && (r.primary == g.apiUrl || (r.primary in g.alternatives && oracle(r.primary).ListBadJson?))
  {
    var attempt := LanguagesAttempts(oracle);
    FailoverEndsOnKnownEndpoint(g.apiUrl, g.alternatives, attempt);
    FailoverFirstAnswer(g.apiUrl, g.alternatives, attempt);
    assert forall k :: 0 <= k < |g.alternatives| ==> (attempt(g.alternatives[k]).Served? <==> oracle(g.alternatives[k]).Listed?);
    Languages(g.apiUrl, g.alternatives, oracle, DefaultLanguages)
  }

  /** The one resource list_resources announces. */
  const ResourceUri: string := "translate://lingva/query"

  /** The service description read_resource returns (rendered as JSON by the source). */
  datatype ResourceInfo = ResourceInfo(
    supportedLanguages: seq<Language>,
    activeApiEndpoint: Url,
    alternativeEndpoints: seq<Url>,
    timestamp: string)

  predicate IsQueryUri(uri: string)
  {
    StartsWith(uri, "translate://") && EndsWith(uri, "/query")
  }

  /**
   read_resource: a `translate://…/query` URI fetches the language list
   (which may promote an alternative) and reports the endpoint that is
   primary afterwards; any other URI raises ValueError without a request.
   */
  function ReadResource(g: Globals, uri: string, oracle: Url -> LanguagesOutcome, timestamp: string)
    : (r: Reply<Result<ResourceInfo>>)
    ensures r.result.Ok? <==> IsQueryUri(uri)
    ensures r.result.Err? ==> r.primary == g.apiUrl && r.result.error == ValueError("Unknown resource: " + uri)
    ensures r.result.Ok? ==>
              && r.result.value.activeApiEndpoint == r.primary
              && r.result.value.alternativeEndpoints == g.alternatives
              && r.result.value.timestamp == timestamp
              && Reply(r.primary, r.result.value.supportedLanguages) == GetAvailableLanguages(g, oracle)
  {
    if IsQueryUri(uri) then
      var languages := GetAvailableLanguages(g, oracle);
      Reply(languages.primary, Ok(ResourceInfo(languages.result, languages.primary, g.alternatives, timestamp)))
    else
      Reply(g.apiUrl, Err(ValueError("Unknown resource: " + uri)))
  }

  /** The URI list_resources announces is one read_resource accepts. */
  lemma ListedResourceIsReadable(g: Globals, oracle: Url -> LanguagesOutcome, timestamp: string)
    ensures ReadResource(g, ResourceUri, oracle, timestamp).result.Ok?
  {
    assert ResourceUri[..12] == "translate://";
    assert ResourceUri[|ResourceUri| - 6..] == "/query";
  }

  const ToolName: string := "translate_text"
  const InvalidArgumentsMessage: string := "Invalid arguments: 'text' and 'target_lang' are required"
  const ApiUsedLabel: string := "使用的 API: "

  predicate ValidArguments(arguments: Arguments)
  {
    arguments.Dict? && "text" in arguments.entries && "target_lang" in arguments.entries
  }

  /**
   The pieces of the tool's reply text, which the source writes one after
   the other with newlines between: source line, empty line, target line,
   the API line when an alternative served, and the time line.
   */
  function ResponseLines(t: Translation): (lines: seq<string>)
    ensures (exists i :: 0 <= i < |lines| && StartsWith(lines[i], ApiUsedLabel)) <==> t.apiUsed.Some?
    ensures t.apiUsed.Some? ==> |lines| == 5 && lines[3] == ApiUsedLabel + t.apiUsed.value
    ensures t.apiUsed.None? ==> |lines| == 4
  {
    var head := ["原文 (" + t.sourceLanguage + "): " + t.originalText, "", "译文 (" + t.targetLanguage + "): " + t.translatedText];
    var api := if t.apiUsed.Some? then [ApiUsedLabel + t.apiUsed.value] else [];
    var lines := head + api + ["翻译时间: " + t.timestamp];
    assert !StartsWith(lines[0], ApiUsedLabel) by { assert lines[0][0] == '原' != ApiUsedLabel[0]; }
    assert !StartsWith(lines[1], ApiUsedLabel);
    assert !StartsWith(lines[2], ApiUsedLabel) by { assert lines[2][0] == '译' != ApiUsedLabel[0]; }
    assert !StartsWith(lines[|lines| - 1], ApiUsedLabel) by { assert lines[|lines| - 1][0] == '翻' != ApiUsedLabel[0]; }
    assert t.apiUsed.Some? ==> lines[3] == ApiUsedLabel + t.apiUsed.value && lines[3][..|ApiUsedLabel|] == ApiUsedLabel;
    lines
  }

  function ResponseText(t: Translation): (text: string)
  {
    Join(ResponseLines(t), "\n")
  }

  /** The joined pieces are exactly the text the source builds by concatenation. */
  lemma ResponseTextLayout(t: Translation)
    ensures ResponseText(t) ==
              ("原文 (" + t.sourceLanguage + "): " + t.originalText) + "\n\n"
              + ("译文 (" + t.targetLanguage + "): " + t.translatedText) + "\n"
              + (if t.apiUsed.Some? then ApiUsedLabel + t.apiUsed.value + "\n" else "")
              + ("翻译时间: " + t.timestamp)
  {
    var lines := ResponseLines(t);
    var first := "原文 (" + t.sourceLanguage + "): " + t.originalText;
    var third := "译文 (" + t.targetLanguage + "): " + t.translatedText;
    var last := "翻译时间: " + t.timestamp;
    if t.apiUsed.Some? {
      var api := ApiUsedLabel + t.apiUsed.value;
      assert lines == [first, "", third, api, last];
      JoinFive(first, "", third, api, last, "\n");
      RegroupWithApi(first, third, api, last);
    } else {
      assert lines == [first, "", third, last];
      JoinFour(first, "", third, last, "\n");
      RegroupWithoutApi(first, third, last);
    }
  }

  /** The joined lines regrouped as the source concatenates them, with and without the endpoint line. */
  lemma RegroupWithApi(first: string, third: string, api: string, last: string)
    ensures first + "\n" + "" + "\n" + third + "\n" + api + "\n" + last
            == first + "\n\n" + third + "\n" + (api + "\n") + last
  {
    assert "\n" + "" + "\n" == "\n\n";
  }

  lemma RegroupWithoutApi(first: string, third: string, last: string)
    ensures first + "\n" + "" + "\n" + third + "\n" + last == first + "\n\n" + third + "\n" + "" + last
  {
    assert "\n" + "" + "\n" == "\n\n";
  }

  /**
   call_tool: any name but `translate_text`, and arguments that are not an
   object holding `text` and `target_lang`, are refused with a ValueError
   before any endpoint is asked, so the primary stays put. `source_lang`
   defaults to "auto". A translation failure surfaces as a RuntimeError
   wrapping the failover message.
   */
  function CallTool(g: Globals, name: string, arguments: Arguments, oracle: Url -> TranslateOutcome, timestamp: string)
    : (r: Reply<Result<string>>)
    ensures name != ToolName ==> r == Reply(g.apiUrl, Err(ValueError("Unknown tool: " + name)))
    ensures name == ToolName && !ValidArguments(arguments) ==> r == Reply(g.apiUrl, Err(ValueError(InvalidArgumentsMessage)))
    ensures name == ToolName && ValidArguments(arguments) ==>
              var t := TranslateText(g, arguments.entries["text"], Get(arguments.entries, "source_lang", "auto"),
                                     arguments.entries["target_lang"], timestamp, oracle);
              && r.primary == t.primary
              && (t.result.Ok? ==> r.result == Ok(ResponseText(t.result.value)))
              && (t.result.Err? ==> r.result == Err(RuntimeError("Translation API error: " + t.result.error.message)))
  {
    if name != ToolName then
      Reply(g.apiUrl, Err(ValueError("Unknown tool: " + name)))
    else if !ValidArguments(arguments) then
      Reply(g.apiUrl, Err(ValueError(InvalidArgumentsMessage)))
    else
      var entries := arguments.entries;
      var t := TranslateText(g, entries["text"], Get(entries, "source_lang", "auto"), entries["target_lang"], timestamp, oracle);
      match t.result
      case Ok(translation) => Reply(t.primary, Ok(ResponseText(translation)))
      case Err(e) => Reply(t.primary, Err(RuntimeError("Translation API error: " + e.message)))
  }

  /** Leaving `source_lang` out is the same as passing "auto". */
  lemma SourceLanguageDefaultsToAuto(g: Globals, entries: map<string, string>, oracle: Url -> TranslateOutcome, timestamp: string)
    requires "source_lang" !in entries
    ensures CallTool(g, ToolName, Dict(entries), oracle, timestamp)
            == CallTool(g, ToolName, Dict(entries["source_lang" := "auto"]), oracle, timestamp)
  {
    var withAuto := entries["source_lang" := "auto"];
    assert ("text" in entries <==> "text" in withAuto) && ("target_lang" in entries <==> "target_lang" in withAuto);
    if "text" in entries && "target_lang" in entries {
      assert withAuto["text"] == entries["text"] && withAuto["target_lang"] == entries["target_lang"];
    }
  }

  /**
   The `--add-api` merge: each URL is appended unless already present
   (counting those appended before it). The existing alternatives keep
   their place and order, no URL is lost, and every appended URL is new.
   */
  method MergeAlternatives(alternatives: seq<Url>, added: seq<Url>) returns (merged: seq<Url>)
    ensures |merged| >= |alternatives| && merged[..|alternatives|] == alternatives
    ensures forall u :: u in merged <==> u in alternatives || u in added
    ensures forall i :: |alternatives| <= i < |merged| ==> merged[i] !in merged[..i]
    ensures IsSubsequence(merged[|alternatives|..], added)
    ensures NoDuplicates(alternatives) ==> NoDuplicates(merged)
  {
    merged := alternatives;
    EmptyIsSubsequence(added[..0]);
    assert merged[|alternatives|..] == [];
    for j := 0 to |added|
      invariant |merged| >= |alternatives| && merged[..|alternatives|] == alternatives
      invariant forall u :: u in merged <==> u in alternatives || u in added[..j]
      invariant forall i :: |alternatives| <= i < |merged| ==> merged[i] !in merged[..i]
      invariant IsSubsequence(merged[|alternatives|..], added[..j])
      invariant NoDuplicates(alternatives) ==> NoDuplicates(merged)
    {
      assert added[..j + 1] == added[..j] + [added[j]];
      var tail := merged[|alternatives|..];
      SubsequenceAppend(tail, added[..j], added[j]);
      if added[j] !in merged {
        var next := merged + [added[j]];
        assert next[..|merged|] == merged;
        assert next[|alternatives|..] == tail + [added[j]];
        merged := next;
      }
    }
    assert added[..|added|] == added;
  }

  /**
   The command line: `--api-url` replaces only the primary, and only when
   given non-empty; `--add-api` URLs are merged into the alternatives.
   */
  method ApplyCommandLine(g: Globals, apiUrl: Option<string>, addApi: seq<Url>) returns (r: Globals)
    ensures r.apiUrl == if Truthy(apiUrl) then apiUrl.value else g.apiUrl
    ensures |r.alternatives| >= |g.alternatives| && r.alternatives[..|g.alternatives|] == g.alternatives
    ensures forall u :: u in r.alternatives <==> u in g.alternatives || u in addApi
    ensures forall i :: |g.alternatives| <= i < |r.alternatives| ==> r.alternatives[i] !in r.alternatives[..i]
    ensures IsSubsequence(r.alternatives[|g.alternatives|..], addApi)
    ensures NoDuplicates(g.alternatives) ==> NoDuplicates(r.alternatives)
  {
    var merged := MergeAlternatives(g.alternatives, addApi);
    r := Globals(if Truthy(apiUrl) then apiUrl.value else g.apiUrl, merged);
  }
}

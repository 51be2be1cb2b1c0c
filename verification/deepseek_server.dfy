/**
 server_test.py: the DeepSeek MCP server. Only its argument checks are
 modelled: the resource URI test with the model name taken from the URI,
 and the tool-call validation with its default model. The chat-completion
 call itself is not part of this model.
 */
module DeepSeekServer {
  import opened Base
  import opened Strings

  const DefaultModel: string := "deepseek-chat"
  const ToolName: string := "ask_deepseek"
  const InvalidArgumentsMessage: string := "Invalid arguments: 'prompt' is required"

  /** The URI list_resources announces for the default model. */
  function ResourceUri(model: string): (uri: string)
  {
    "deepseek://" + model + "/query"
  }

  /** The model description read_resource returns (rendered as JSON by the source). */
  datatype ModelInfo = ModelInfo(model: string, timestamp: string)

  predicate IsQueryUri(uri: string)
  {
    StartsWith(uri, "deepseek://") && EndsWith(uri, "/query")
  }

  /** Python `xs[-2]`. */
  function SecondToLast(pieces: seq<string>): (piece: string)
    requires |pieces| >= 2
  {
    pieces[|pieces| - 2]
  }

  /**
   read_resource: a `deepseek://…/query` URI is accepted and names the
   model given by its second-to-last "/"-separated piece, which is the
   slash-free text right before the final "/query"; any other URI raises
   ValueError.
   */
  function ReadResource(uri: string, timestamp: string): (r: Result<ModelInfo>)
    ensures r.Ok? <==> IsQueryUri(uri)
    ensures r.Err? ==> r.error == ValueError("Unknown resource: " + uri)
    ensures r.Ok? ==> '/' !in r.value.model && EndsWith(uri, "/" + r.value.model + "/query")
    ensures r.Ok? ==> r.value.timestamp == timestamp
  {
    if IsQueryUri(uri) then
      var pieces := Split(uri, '/');
      QueryUriPieces(uri);
      Ok(ModelInfo(SecondToLast(pieces), timestamp))
    else
      Err(ValueError("Unknown resource: " + uri))
  }

  /** An accepted URI is at least "deepseek:/" followed by "/query", so its body before "/query" holds a '/' at index 9. */
  lemma QueryUriShape(uri: string)
    requires IsQueryUri(uri)
    ensures |uri| >= 16 && uri[9] == '/'
    ensures uri == uri[..|uri| - 6] + ['/'] + "query"
  {
    assert uri[..11] == "deepseek://";
    assert uri[9] == '/' && uri[10] == '/';
    var k := |uri| - 6;
    assert uri[k..] == "/query";
    forall i | k < i < |uri|
      ensures uri[i] != '/'
    {
      assert uri[i] == uri[k..][i - k];
    }
    assert uri == uri[..k] + uri[k..];
  }

  /** The pieces of an accepted URI: at least three, the last "query", and the one before it right before "/query". */
  lemma QueryUriPieces(uri: string)
    requires IsQueryUri(uri)
    ensures |Split(uri, '/')| >= 3
    ensures var pieces := Split(uri, '/');
            '/' !in pieces[|pieces| - 2] && EndsWith(uri, "/" + pieces[|pieces| - 2] + "/query")
  {
    QueryUriShape(uri);
    SplitBeforeLast(uri[..|uri| - 6], "query", '/');
    assert uri[..|uri| - 6][9] == '/';
    assert "/query" == ['/'] + "query";
  }

  /** Splitting `a/b` with slash-free `a` and `b` gives exactly the two parts. */
  lemma SplitTwo(a: string, b: string)
    requires '/' !in a && '/' !in b
    ensures Split(a + ['/'] + b, '/') == [a, b]
  {
    SplitNoSeparator(a, '/');
    SplitNoSeparator(b, '/');
    SplitAtSeparator(a, b, '/');
  }

  /** Splitting `a//m/q` with slash-free parts gives the four parts, the second empty. */
  lemma SplitFour(a: string, m: string, q: string)
    requires '/' !in a && '/' !in m && '/' !in q
    ensures Split(a + ['/'] + ("" + ['/'] + (m + ['/'] + q)), '/') == [a, "", m, q]
  {
    var tail := m + ['/'] + q;
    SplitTwo(m, q);
    SplitNoSeparator("", '/');
    SplitAtSeparator("", tail, '/');
    SplitNoSeparator(a, '/');
    SplitAtSeparator(a, "" + ['/'] + tail, '/');
  }

  /** The pieces of a URI built for a slash-free model name. */
  lemma ResourceUriPieces(model: string)
    requires '/' !in model
    ensures Split(ResourceUri(model), '/') == ["deepseek:", "", model, "query"]
  {
    SplitFour("deepseek:", model, "query");
    assert ResourceUri(model) == "deepseek:" + ['/'] + ("" + ['/'] + (model + ['/'] + "query"));
  }

  /** Round trip: read_resource recovers the model from the URI built for any slash-free model name. */
  lemma ResourceUriRoundTrip(model: string, timestamp: string)
    requires '/' !in model
    ensures ReadResource(ResourceUri(model), timestamp) == Ok(ModelInfo(model, timestamp))
  {
    var uri := ResourceUri(model);
    ResourceUriPieces(model);
    assert uri[..11] == "deepseek://";
    assert uri[|uri| - 6..] == "/query";
    assert IsQueryUri(uri);
  }

  /** The URI list_resources announces reads back as the default model. */
  lemma ListedResourceNamesDefaultModel(timestamp: string)
    ensures ReadResource(ResourceUri(DefaultModel), timestamp) == Ok(ModelInfo(DefaultModel, timestamp))
  {
    ResourceUriRoundTrip(DefaultModel, timestamp);
  }

  /** What call_tool hands to the chat-completion call. */
  datatype Query = Query(prompt: string, model: string)

  predicate ValidArguments(arguments: Arguments)
  {
    arguments.Dict? && "prompt" in arguments.entries
  }

  /**
   call_tool's checks: any name but `ask_deepseek` is refused, then
   arguments that are not an object holding `prompt`; otherwise the query
   carries the prompt and the given model, the default model when none is
   given.
   */
  function CallTool(name: string, arguments: Arguments): (r: Result<Query>)
    ensures name != ToolName ==> r == Err(ValueError("Unknown tool: " + name))
    ensures r.Ok? <==> name == ToolName && ValidArguments(arguments)
    ensures name == ToolName && !ValidArguments(arguments) ==> r == Err(ValueError(InvalidArgumentsMessage))
    ensures r.Ok? ==> r.value.prompt == arguments.entries["prompt"]
    ensures r.Ok? && "model" in arguments.entries ==> r.value.model == arguments.entries["model"]
    ensures r.Ok? && "model" !in arguments.entries ==> r.value.model == DefaultModel
  {
    if name != ToolName then Err(ValueError("Unknown tool: " + name))
    else if !ValidArguments(arguments) then Err(ValueError(InvalidArgumentsMessage))
    else Ok(Query(arguments.entries["prompt"], Get(arguments.entries, "model", DefaultModel)))
  }
}

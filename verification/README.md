# Lingva endpoint failover, and the MCP servers' argument checks

This project models, in Dafny, the one piece of real logic in the
MCP-applications repository: the **failover-with-promotion loop** that the
Lingva translation client runs for every request. A call tries the current
primary URL; when that fails it walks the fixed list of alternative URLs in
order, skipping any entry equal to the primary *as it stands at that
moment*; the first alternative that answers becomes the new primary; one
error line is kept per failed attempt. When everything fails, translation
raises with the error lines joined by newlines, and the language listing
returns a built-in list instead.

The loop exists twice: as methods of `LingvaService` (primary held on the
instance) and as module functions of `translate_server.py` (primary held
in the global `LINGVA_API_URL`). The copies differ in *where* they
promote relative to the checks that can still fail:

- the service's translate promotes before it reads the `translation` key,
  so an alternative that answers 2xx JSON without that key, or JSON that is
  not an object at all, is promoted and still counted as a failure;
- the server's translate promotes only after the result record is built,
  so a failure never moves its primary;
- both language listings promote before decoding the body, so an
  alternative whose body does not parse is promoted and counted as failed.

A promoted-then-failed alternative changes which later entries are skipped.
The model has one generic loop (`EndpointFailover`) parameterised by an
attempt oracle whose failures carry a "promotes" flag, and each copy is an
instance of it (`Lingva.PromotionPoint`). The network is an oracle that gives
one outcome per URL. Under that oracle a call is served exactly when some
endpoint answers. It is then served by the primary, or else by the first
answering alternative in list order.

The second, smaller part is the argument validation and URI dispatch of the
two MCP servers:

- the Lingva server's `read_resource` and `call_tool`, including the reply
  text and the `--add-api` merge;
- the DeepSeek server's (`server_test.py`) `read_resource`, which takes
  the model from `split("/")[-2]`, and its `call_tool` checks and defaults.

Read quickly, the loop seems to promote an alternative only when it
serves. The code promotes before checks that can still fail, as listed
above. The model follows the code, and `Service.MissingFieldAlternativeStaysPromoted`,
`Service.BadJsonAlternativeStaysPromoted` and
`Scenarios.ServiceSkipsPromotedDuplicate` state the consequences.

Files:

- `base.dfy`: Option, Result, the two exception kinds, call arguments;
- `sequences.dfy`, `strings.dfy`: subsequences, `str.split` and `str.join`;
- `failover.dfy`: the generic loop;
- `lingva.dfy`: the Lingva operations;
- `service.dfy`: the `LingvaService` copy;
- `translate_server.dfy`: the server copy and its MCP handlers;
- `deepseek_server.dfy`: the DeepSeek handlers;
- `scenarios.dfy`: a run on three distinct URLs on which the two copies differ.

## Model

| member | source | states |
|---|---|---|
| EndpointFailover.Scan | mcp_translate_api/services/lingva_service.py:104-131 | the URLs tried are a subsequence of the alternatives; every attempt but a serving last one failed and left one "Alternative API <url> error" line in order; a serving alternative becomes primary; after total failure the primary is the last failed URL that promoted itself |
| EndpointFailover.Failover | mcp_translate_api/services/lingva_service.py:78-136 | the primary is tried first; if it serves, nothing else is tried, no error is kept and the primary stays; otherwise the alternatives tried are a subsequence of the list; error lines are "Primary API error" first, then one per failed alternative; `api_used` is absent exactly when the primary served |
| EndpointFailover.FailoverLoop | mcp_translate_api/services/lingva_service.py:78-131 | the loop written as the source writes it (continue on the current primary, early return, primary reassigned mid-walk) ends with the same primary, outcome and error lines as Failover |
| EndpointFailover.ScanFirstAnswer | mcp_translate_api/services/lingva_service.py:104-128 | while the current primary fails, the walk is served iff some alternative serves, and then by the first one in list order, which becomes primary |
| EndpointFailover.FailoverFirstAnswer | mcp_translate_api/services/lingva_service.py:82-128 | a call is served iff the primary or some alternative serves; with a failing primary it is served by, and promotes, the first serving alternative |
| EndpointFailover.ScanNeverTriesCurrent | mcp_translate_api/services/lingva_service.py:104-106 | no alternative is tried while it equals the primary as it stands at that point of the walk |
| EndpointFailover.ScanAttempts | mcp_translate_api/services/lingva_service.py:104-131 | while the primary of the moment fails, the walk attempts exactly the entries, up to the first that serves, that differ from the primary left by the promoting failures before them (skipped entries counted), duplicates included, in list order (the skip rule in both directions, promotion included) |
| EndpointFailover.FailoverAttempts | mcp_translate_api/services/lingva_service.py:82-131 | a call whose primary fails attempts the primary and then exactly those entries; when every URL fails, the whole list read through the skip rule |
| EndpointFailover.ScanWithoutPromotion | translate_server.py:143-174 | when no failure promotes, the walk tries exactly the entries other than the primary, duplicates included, up to the first that serves, and a failed walk leaves the primary alone |
| EndpointFailover.FailoverWithoutPromotion | translate_server.py:113-179 | when no failure promotes, a failed call keeps its primary and tried the primary and then every other alternative in list order, duplicates included; a served call ends on its serving URL |
| EndpointFailover.AllFailUpToFirstServed | translate_server.py:143-174 | proof helper for the total-failure message: when every alternative fails, the walk goes to the end of the list |
| EndpointFailover.PromotedServesNextCall | mcp_translate_api/services/lingva_service.py:82-128 | after a call served by an alternative, the next call tries that URL first and stops there when it answers |
| EndpointFailover.ScanKeepsLastPromoter | mcp_translate_api/services/lingva_service.py:115-131 | when every URL fails, the k-th alternative promotes and none after it does, the walk fails and leaves the k-th alternative as primary |
| EndpointFailover.FailoverKeepsLastPromoter | mcp_translate_api/services/lingva_service.py:108-131 | the same for a whole call whose primary fails |
| EndpointFailover.PrimaryAfterIsPromoter | mcp_translate_api/services/lingva_service.py:115-118 | after a run of failures the primary is the starting one or a URL of the run whose failure promoted |
| EndpointFailover.FailoverEndsOnKnownEndpoint | mcp_translate_api/services/lingva_service.py:104-131 | a call ends on its old primary or on one of the alternatives; a call that fails throughout moves the primary only to an alternative whose failure promotes |
| EndpointFailover.AlternativeErrors | mcp_translate_api/services/lingva_service.py:130 | one "Alternative API <url> error: <message>" line per failed URL, in order |
| Lingva.TranslateAttempt | mcp_translate_api/services/lingva_service.py:108-131 | an endpoint serves iff it returns a translation; a failure promotes iff the 2xx JSON body has no readable key (missing, or not an object) and the copy promotes before reading it |
| Lingva.LanguagesAttempt | mcp_translate_api/services/lingva_service.py:48-63 | an endpoint serves iff it lists languages; a failure promotes iff the body does not parse |
| Lingva.Translate | mcp_translate_api/services/lingva_service.py:76-136 | succeeds iff some endpoint translates; the result echoes text, languages and timestamp and carries the serving endpoint's translation; `api_used` is absent iff the primary served; a serving alternative becomes primary and is the first translating one in list order; a failure raises RuntimeError "All Lingva API endpoints failed: " plus one error line for each URL the walk attempted, primary first, joined with newlines |
| Lingva.TotalFailureAttempts | mcp_translate_api/services/lingva_service.py:82-131 | when no endpoint translates, the call attempts the primary and then every alternative the skip rule lets through, promotion included |
| Lingva.Languages | mcp_translate_api/services/lingva_service.py:27-74 | the serving endpoint's list, from the primary or else the first listing alternative, which becomes primary; the fallback list, without raising, when none lists |
| Service.Init | mcp_translate_api/services/lingva_service.py:13-25 | a truthy argument wins; otherwise the primary comes from LINGVA_API_URL if set, else the built-in URL, and the alternatives from the built-in four-URL list, so an empty list is replaced too |
| Service.ServiceTranslate | mcp_translate_api/services/lingva_service.py:82-136 | the instance ends on its old primary or an alternative; after a failed call a moved primary is an alternative that answered 2xx JSON without a readable `translation`, and the RuntimeError text is the prefix plus the lines for the primary and for exactly the alternatives the skip rule lets through, in list order |
| Service.ServiceLanguages | mcp_translate_api/services/lingva_service.py:43-74 | the serving endpoint's list, or the three-entry fallback when none lists, a moved primary then being an alternative whose body did not parse |
| Service.MissingFieldAlternativeStaysPromoted | mcp_translate_api/services/lingva_service.py:115-131 | an alternative answering 2xx JSON without a readable `translation` is promoted yet counted as failed: after a total failure the last such alternative is the instance's primary |
| Service.BadJsonAlternativeStaysPromoted | mcp_translate_api/services/lingva_service.py:52-63 | an alternative with an unparsable body is promoted yet counted as failed: the fallback is returned with the last such alternative as primary |
| Service.LingvaService.GetAvailableLanguages | mcp_translate_api/services/lingva_service.py:27-74 | the method's loop writes back exactly the primary and returns exactly the list of ServiceLanguages; the alternatives are unchanged |
| Service.LingvaService.TranslateText | mcp_translate_api/services/lingva_service.py:76-136 | the method's loop writes back exactly the primary and returns exactly the result of ServiceTranslate; the alternatives are unchanged |
| TranslateServer.InitialGlobals | translate_server.py:35-42 | the primary is LINGVA_API_URL if set, else the built-in URL; the alternatives are the built-in four URLs |
| TranslateServer.TranslateText | translate_server.py:102-179 | the primary moves only to an alternative that served, named in `api_used`; a total failure keeps the primary and raises with "Primary API error" and then one line per alternative other than the primary, in list order, duplicates included |
| TranslateServer.GetAvailableLanguages | translate_server.py:45-99 | the serving endpoint's list, or the nine-entry fallback when none lists; after a total failure a moved primary is an alternative whose body did not parse |
| TranslateServer.ReadResource | translate_server.py:199-227 | accepted iff the URI starts with "translate://" and ends with "/query"; otherwise ValueError "Unknown resource: <uri>" with no request; an accepted read reports the primary as it stands after fetching the languages, and the alternatives |
| TranslateServer.ListedResourceIsReadable | translate_server.py:186-202 | the URI list_resources announces is accepted by read_resource |
| TranslateServer.ResponseLines | translate_server.py:276-280 | the reply has a "使用的 API: " line iff an alternative served, and that line names it |
| TranslateServer.ResponseTextLayout | translate_server.py:276-280 | the lines joined with newlines are exactly the text the source concatenates |
| TranslateServer.CallTool | translate_server.py:259-290 | a name other than translate_text, or arguments that are not an object with `text` and `target_lang`, raise ValueError before any request, primary unchanged; otherwise the reply text or RuntimeError "Translation API error: " wrapping the failover message |
| TranslateServer.SourceLanguageDefaultsToAuto | translate_server.py:269 | leaving `source_lang` out is the same as passing "auto" |
| TranslateServer.MergeAlternatives | translate_server.py:337-340 | existing alternatives keep their place and order; the result holds exactly the old and the added URLs; each appended URL was not present before it; the appended ones come from the flags in order; a duplicate-free list stays duplicate-free |
| TranslateServer.ApplyCommandLine | translate_server.py:334-340 | a non-empty `--api-url` replaces only the primary; `--add-api` URLs are appended after the existing alternatives, in flag order, skipping any already present, so a duplicate-free list stays duplicate-free |
| DeepSeekServer.ReadResource | server_test.py:92-108 | accepted iff the URI starts with "deepseek://" and ends with "/query", else ValueError "Unknown resource: <uri>"; the model is a slash-free piece that sits right before the final "/query" |
| DeepSeekServer.QueryUriShape | server_test.py:96 | proof helper for the URI round trip: an accepted URI is at least 16 characters with a '/' at index 9 of the part before "/query" |
| DeepSeekServer.QueryUriPieces | server_test.py:96-97 | an accepted URI splits into at least three pieces, the second-to-last slash-free and followed by "/query" |
| DeepSeekServer.ResourceUriPieces | server_test.py:82 | the URI built for a slash-free model splits into "deepseek:", "", the model and "query" |
| DeepSeekServer.ResourceUriRoundTrip | server_test.py:82-97 | read_resource recovers any slash-free model name from the URI built for it |
| DeepSeekServer.ListedResourceNamesDefaultModel | server_test.py:79-97 | the URI list_resources announces reads back as "deepseek-chat" |
| DeepSeekServer.CallTool | server_test.py:135-145 | a name other than ask_deepseek, or arguments that are not an object with `prompt`, raise ValueError; otherwise the query carries the prompt and the given model, "deepseek-chat" when none is given |
| Strings.SplitPieces | server_test.py:97 | the pieces of `split` rejoin to the string and none holds the separator |
| Strings.SplitLastPiece | server_test.py:97 | the last piece of a string holding the separator is separator-free and follows the last separator |
| Scenarios.ServiceRun | mcp_translate_api/services/lingva_service.py:104-131 | for any distinct p, a, b, with p down and alternatives a, b, a (a answers without a key, b down), the service copy ends with a promoted, every endpoint failed, and error lines for p, a and b only: the second a is skipped |
| Scenarios.ServerRun | translate_server.py:143-174 | on the same input the server copy keeps p as primary and leaves error lines for p, a, b and a again |
| Scenarios.ServiceSkipsPromotedDuplicate | mcp_translate_api/services/lingva_service.py:133-136 | on that input the service raises with three error lines and leaves a as primary |
| Scenarios.ServerRetriesDuplicate | translate_server.py:176-179 | on that input the server raises with four error lines and keeps p as primary |
| Scenarios.ServiceLines | mcp_translate_api/services/lingva_service.py:100-130 | the failover run of the service over primary "p" and alternatives ["a", "b", "a"] collects exactly the lines "Primary API error: down", "Alternative API a error: 'translation'" and "Alternative API b error: down" |

## Left out

- HTTP transport (httpx, `raise_for_status`, JSON decoding): replaced by a per-URL outcome oracle. Within one call, a URL tried twice gets the same outcome.
- The JSON shape of a translate body: a 2xx body that decodes to a list, a string, `null` or a number is the outcome `NotAnObject`. It fails at `data["translation"]` as a missing key does, so the service copy promotes it first. Its TypeError text is an opaque message. A `translation` value that is not a string is left out.
- The languages body: the source returns `response.json()` of whatever shape. The model narrows it to a list of code/name records; the failover loop is generic in the value, so nothing else depends on it.
- The text of exceptions raised by the transport: an outcome carries its message as an opaque string. `str(KeyError('translation'))` is modelled as `'translation'`.
- `urllib.parse.quote`, the request URL strings, and logging: not modelled, because they do not affect which endpoint serves or what is returned.
- `datetime.now().isoformat()`: the timestamp is an opaque parameter.
- `json.dumps` of the resource descriptions: modelled as records. The fixed "service" and "description" strings are left out.
- The race on the shared primary under concurrent async requests: the model is sequential, one call at a time.
- TranslateServer.ReadResource: the `except` branch is not modelled, because get_available_languages never raises.
- TranslateServer.ResponseLines: the "使用的 API" statement is about the separate lines. The joined text could hold the marker inside the user's own text.
- TranslateServer.MergeAlternatives: the appended URLs are stated as a subsequence of the flags with none repeated. The result is not stated to be their first occurrences exactly.
- TranslateServer.ApplyCommandLine: inherits the merge contract above, so the appended URLs are a duplicate-free subsequence of the flags, not stated to be exactly their first occurrences.
- Call arguments: argument values are modelled as strings. The non-string values a client could send are left out.
- pydantic `AnyUrl` normalisation of resource URIs: `str(uri)` is taken to be the URI as sent.
- list_tools and list_resources metadata (names, descriptions, schemas): left out, except the resource URIs, which the round-trip lemmas use.
- query_deepseek and the rest of DeepSeek's call_tool (the OpenAI SDK call and its `httpx.HTTPError` handler): a foreign call; DeepSeekServer.CallTool stops at the query it would send.
- mcp_translate_api/lingva_server.py and mcp_translate_api/time_server.py: they are not part of this model. They are route wrappers, and the only logic in lingva_server.py (its `--add-api` merge) is the same as translate_server.py:334-340.
- mcp_translate_api/fast_multi_server.py and mcp_translate_api/services/time_service.py: not part of this model. They are a proxy, and a timezone lookup over the wall clock.
- translate_client.py and client_test.py: console clients, not part of this model.
- SSE, Starlette, uvicorn, argparse parsing and `load_dotenv`: the environment variable and the parsed flags are parameters.

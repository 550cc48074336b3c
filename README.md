# EkinoNewRelicBundle listeners in Dafny

A model of the two request-lifecycle listeners of the EkinoNewRelicBundle, the Symfony
bundle that reports an application's requests to the New Relic APM agent, with proofs of
what they do.

- **Request listener.** It has three handlers that run when a request comes in:
  - `setApplicationName` names the application, and starts the transaction itself when an
    HTTP cache sits in front of the application.
  - `setTransactionName` asks the naming strategy for a name and passes it to the agent.
  - `setIgnoreTransaction` ignores the transaction when the request's route or path is on
    a configured list.

  Every handler does nothing for a sub-request.
- **Response listener.** `onKernelResponse` runs when a main request's response goes out:
  - it forwards the custom metrics, parameters and events buffered during the request to
    the agent, one call per entry, in buffer order;
  - it ends the transaction when an HTTP cache is in front;
  - when page instrumentation is on, it turns off the agent's own browser instrumentation
    and splices the browser-timing header after `<head>` and the footer before `</body>`
    of an HTML body. Each snippet is skipped when the template extension reports the
    template already rendered it.

What is observed is close to what the bundle's listener tests observe: the calls made on
the collaborators and the final response body. The tests fix how often each method of a
double is called and, through consecutive-call expectations, the order of the calls to
one method. The model records a single ordered log across all collaborators, so it
fixes more orders than the tests do; "## Left out" lists those choices.

- **The call log.** Every collaborator (interactor, configuration buffer, template
  extension, naming strategy, response) is a double. It appends each call made on it to
  one shared `Calls.Recorder` log.
- **The listeners.** They are classes whose methods make those calls, with loops over the
  buffers. Each method is proved to append exactly the calls a specification function
  computes (`ResponseCalls`, `ApplicationNameCalls`, …) and to leave exactly the body
  `ResponseBody` computes.
- **The lemmas.** They prove what the tests assert, for all inputs, about those functions.
  This covers forwarding in order, call counts, the two-step body rewrite and the splice.
- **The test cases.** They are restated as example lemmas.

The module files are organised as follows:

- `wrappers.dfy`: `Option`.
- `calls.dfy`: the call datatype, the log, counting and projection.
- `kernel.dfy`: request and response.
- `collaborators.dfy`: the doubles.
- `html.dfy`: the content-type gate and the splice.
- `request_listener.dfy`: the request listener.
- `response_listener.dfy`: the response listener.
- `response_properties.dfy`: its trace properties.
- `response_examples.dfy`: its test cases.

The listeners' PHP source is not reproduced line by line. The classes
`RequestListener.RequestListener` and `ResponseListener.ResponseListener` are built from
what the two test files assert. Where a test admits more than one reading, the model
takes the ones below, and "## Left out" lists the further orders and cases it fixes:

- **Starting the transaction.** With the cache flag set, `setApplicationName` calls
  `startTransaction` once (`RequestListenerTest.php:97-111`). The model places that call
  before the one that names the application; the test does not fix the order.
- **Rewriting the body.** An HTML body is written twice, first empty and then the final
  body, even when the final body equals the original (`ResponseListenerTest.php:175-177`
  and `:291-292`).
- **Turning off the agent's instrumentation.** `disableAutoRUM` is called whenever page
  instrumentation is on and the template did not use the extension, whatever the
  response. `ResponseListenerTest.php:113-123` expects the call with a default, empty
  response.
- **Gating on the extension.** A snippet is skipped exactly when the extension reports it
  rendered it. `isUsed` only gates the metric and parameter flush and `disableAutoRUM`.
  The extension tests ask `isUsed` twice and still fetch the snippet not rendered
  (`ResponseListenerTest.php:189-253`).

## Model

| member | source | states |
|---|---|---|
| Calls.CountIsMultiplicity | Tests/Listener/RequestListenerTest.php:100 | The count of a call in a log, in which every `once()`, `exactly(n)` and `never()` expectation is stated, equals that call's multiplicity in the log's multiset. |
| RequestListener.RequestListener.SetApplicationName | Tests/Listener/RequestListenerTest.php:97-127 | The log grows by exactly `ApplicationNameCalls`: nothing for a sub-request; otherwise `startTransaction(appName)` when the cache flag is set, then `setApplicationName(appName, licence)` from the configuration. |
| RequestListener.RequestListener.SetTransactionName | Tests/Listener/RequestListenerTest.php:44-61 | The log grows by exactly `TransactionNameCalls`: nothing for a sub-request; otherwise one query of the naming strategy, then `setTransactionName` with its answer. |
| RequestListener.RequestListener.SetIgnoreTransaction | Tests/Listener/RequestListenerTest.php:63-95 | The log grows by exactly `IgnoreCalls`: `ignoreTransaction` once for a main request whose route or path is listed, otherwise nothing. |
| RequestListener.SubRequestSilent | Tests/Listener/RequestListenerTest.php:29-42 | For a sub-request none of the three handlers makes any call, so in particular no transaction name is set. |
| RequestListener.ApplicationNamed | Tests/Listener/RequestListenerTest.php:97-127 | On a main request the application name is set exactly once. `startTransaction(appName)` is called exactly once when the cache flag is set and never otherwise. `appName` is the only transaction started. A sub-request does neither. |
| RequestListener.TransactionNamed | Tests/Listener/RequestListenerTest.php:44-61 | On a main request the naming strategy is asked exactly once. The only transaction name set is its answer. A sub-request sets none. |
| RequestListener.IsIgnored | Tests/Listener/RequestListenerTest.php:63-95 | Definition of the ignore test: the request's route is on the route list or its path is on the path list, by exact membership; a request without a route matches no route. `RequestListener.IgnoredIff` states what the handler does with it. |
| RequestListener.IgnoredIff | Tests/Listener/RequestListenerTest.php:63-95 | `ignoreTransaction` is called once if and only if the request is a main request whose route is on the route list or whose path is on the path list; otherwise it is never called. |
| RequestListener.ExampleIgnoredPath | Tests/Listener/RequestListenerTest.php:63-78 | A main request for `/ignored_path`, with that path listed, is ignored exactly once. |
| RequestListener.ExampleIgnoredRoute | Tests/Listener/RequestListenerTest.php:80-95 | A main request routed to `ignored_route`, with that route listed, is ignored exactly once. |
| RequestListener.ExampleCacheFlag | Tests/Listener/RequestListenerTest.php:97-127 | For application `App name`, the cache flag set starts the transaction exactly once and the flag unset starts none. |
| ResponseListener.ResponseListener.OnKernelResponse | Tests/Listener/ResponseListenerTest.php:49-253 | The log grows by exactly `ResponseCalls` for the listener's switches, the buffered data, the request, the content type, the original body and the agent's snippets. The body becomes `ResponseBody`: the spliced body for a main request whose non-empty HTML body is instrumented, otherwise the original. |
| ResponseListener.ResponseListener.Flush | Tests/Listener/ResponseListenerTest.php:59-111 | The log grows by `FlushCalls`. The extension's `isUsed` is asked when there is an extension. Unless it answers true, the metric buffer is read and each metric forwarded, then the same for parameters. Then the event buffer is read and each instance forwarded. |
| ResponseListener.ResponseListener.FlushMetrics | Tests/Listener/ResponseListenerTest.php:88-91 | One `addCustomMetric(name, value)` per buffered metric, in buffer order, and nothing else. |
| ResponseListener.ResponseListener.FlushParameters | Tests/Listener/ResponseListenerTest.php:92-95 | One `addCustomParameter(name, value)` per buffered parameter, in buffer order, and nothing else. |
| ResponseListener.ResponseListener.FlushEvents | Tests/Listener/ResponseListenerTest.php:96-105 | One `addCustomEvent(type, attributes)` per instance of each buffered event type. The types are in buffer order and each type's instances in list order. |
| ResponseListener.ResponseListener.FlushInstances | Tests/Listener/ResponseListenerTest.php:96-105 | One `addCustomEvent(type, attributes)` per attribute map of one event type, in list order. |
| ResponseListener.ResponseListener.TurnOffAutoRum | Tests/Listener/ResponseListenerTest.php:113-123 | `disableAutoRUM` is called unless the extension reports the template used it. `isUsed` is asked when there is an extension. |
| ResponseListener.ResponseListener.InstrumentPage | Tests/Listener/ResponseListenerTest.php:149-186 | The log grows by `InstrumentCalls` and the body becomes `ResponseBody`. The agent's instrumentation is turned off first. The body is read and rewritten only when the request allows instrumentation and the content type is HTML. |
| ResponseListener.InstrumentRequested | Tests/Listener/ResponseListenerTest.php:152-165 | Definition of the request's `_instrument` attribute, true when absent: the tests build a plain request (`:307`) and still expect the body to be instrumented. |
| ResponseListener.InstrumentRequestedIff | Tests/Listener/ResponseListenerTest.php:152-165 | A request allows instrumentation unless its `_instrument` attribute is explicitly false. |
| ResponseListener.ResponseListener.RewriteBody | Tests/Listener/ResponseListenerTest.php:289-294 | The body is read once. An empty body is left alone. Otherwise it is cleared, the snippets are fetched, and the spliced body is written. |
| ResponseListener.ResponseListener.Splice | Tests/Listener/ResponseListenerTest.php:175-185 | Returns `SplicedBody`: the header pass, then the footer pass, each skipped when the extension reports the snippet rendered. Each snippet is fetched from the agent only for a pass that runs. |
| Kernel.Response.GetContent | Tests/Listener/ResponseListenerTest.php:289 | Returns the body and records the read. |
| Kernel.Response.SetContent | Tests/Listener/ResponseListenerTest.php:291-292 | Replaces the body and records the write with its argument. |
| Html.IsHtml | Tests/Listener/ResponseListenerTest.php:170-185 | Definition of the content-type gate: the header value begins with `text/html`. Its properties are stated by `Html.IsHtmlIff`, `Html.IsHtmlWithParameters` and `Html.ExamplesContentType`. |
| Html.IsHtmlIff | Tests/Listener/ResponseListenerTest.php:170-185 | A content type passes the gate if and only if its first nine characters are `text/html`. |
| Html.IsHtmlWithParameters | Tests/Listener/ResponseListenerTest.php:184-185 | `text/html` followed by any parameter text, such as `; charset=UTF-8`, passes the gate. |
| Html.ReplaceAll | Tests/Listener/ResponseListenerTest.php:175-185 | Definition of the splice: a left-to-right scan that replaces each non-overlapping occurrence of the tag and never rescans inserted text. Its properties are stated by the `Html.ReplaceAll…` lemmas below. |
| Html.InjectHeader | Tests/Listener/ResponseListenerTest.php:180-185 | Definition of the header pass: the header goes right after every `<head>`. See `Html.InjectHeaderAt` and `Html.InjectChangesIff`. |
| Html.InjectFooter | Tests/Listener/ResponseListenerTest.php:180-185 | Definition of the footer pass: the footer goes right before every `</body>`. See `Html.InjectFooterAt` and `Html.InjectChangesIff`. |
| Html.Inject | Tests/Listener/ResponseListenerTest.php:175-185 | Definition of the whole splice: the header pass, then the footer pass, each run only when its snippet is to be inserted. See `Html.InjectChangesBodyIff` and `Html.UnchangedWithoutTags`. |
| Html.ReplaceAllAbsent | Tests/Listener/ResponseListenerTest.php:175-177 | A body without the tag comes back unchanged. |
| Html.ReplaceAllCopy | Tests/Listener/ResponseListenerTest.php:180-182 | Where the tag starts nowhere before position i, the scan copies the first i characters unchanged and carries on from i. |
| Html.ReplaceAllFirst | Tests/Listener/ResponseListenerTest.php:180-182 | Everything before the first occurrence of the tag is kept as it was, the replacement follows, and the rest of the body is scanned on. |
| Html.ReplaceAllOnce | Tests/Listener/ResponseListenerTest.php:180-182 | When the tag occurs once, at i, the result is the body with just that occurrence replaced. |
| Html.ReplaceAllGrows | Tests/Listener/ResponseListenerTest.php:175-185 | Replacing the tag by something longer never shortens the body. It lengthens the body exactly when the tag occurs. |
| Html.ReplaceAllChangesIff | Tests/Listener/ResponseListenerTest.php:175-185 | Replacing by something longer changes the body if and only if the tag occurs. |
| Html.InjectHeaderAt | Tests/Listener/ResponseListenerTest.php:180 | With exactly one `<head>`, at i, the header lands immediately after it and the rest of the body is kept. |
| Html.InjectFooterAt | Tests/Listener/ResponseListenerTest.php:181 | With exactly one `</body>`, at i, the footer lands immediately before it and the rest of the body is kept. |
| Html.FooterTagAfterHeader | Tests/Listener/ResponseListenerTest.php:182-185 | For a header without `<`, a `</body>` in the header pass's result is either one of the original's before the `<head>` tag ends, or one of the original's after it, shifted by the header's length. |
| Html.FooterTagKept | Tests/Listener/ResponseListenerTest.php:182-185 | A `</body>` after the `<head>` tag is still present after the header pass, shifted by the header's length. |
| Html.FooterTagUnique | Tests/Listener/ResponseListenerTest.php:182-185 | For a header without `<`, a body whose one `</body>` follows its `<head>` still has exactly one `</body>` after the header pass. |
| Html.SpliceSlices | Tests/Listener/ResponseListenerTest.php:182-185 | Cutting the header pass's result at the shifted `</body>` yields the body's three pieces with the header and the footer between them. |
| Html.InjectBothAt | Tests/Listener/ResponseListenerTest.php:182-185 | For every body with one `<head>` at i and one later `</body>` at j, and every header without `<`, both passes give the body up to the end of `<head>`, the header, the body up to `</body>`, the footer, and the rest. |
| Html.InjectHeaderOnlyAt | Tests/Listener/ResponseListenerTest.php:180 | For every body with one `<head>` and no `</body>`, and every header without `<`, both passes insert only the header, right after the tag. |
| Html.InjectFooterOnlyAt | Tests/Listener/ResponseListenerTest.php:181 | For every body with no `<head>` and one `</body>`, both passes insert only the footer, right before the tag. |
| Html.InjectChangesIff | Tests/Listener/ResponseListenerTest.php:175-182 | Each pass with a non-empty snippet changes the body if and only if its tag occurs. |
| Html.InjectChangesBodyIff | Tests/Listener/ResponseListenerTest.php:175-185 | Both passes together, with non-empty snippets, change the body if and only if a pass that runs finds its tag in the original body. |
| Html.UnchangedWithoutTags | Tests/Listener/ResponseListenerTest.php:175-177 | A body in which neither `<head>` nor `</body>` occurs is returned unchanged, whichever passes run. |
| Html.UnchangedScreened | Tests/Listener/ResponseListenerTest.php:175-177 | The same for a body in which no position passes a two-character screen for either tag; this is how the concrete rows are discharged. |
| Html.ExampleHeader | Tests/Listener/ResponseListenerTest.php:180 | `<head><title /></head>` becomes `<head>` + header + `<title /></head>` under the header pass, for any header. |
| Html.ExampleFooter | Tests/Listener/ResponseListenerTest.php:181 | `<body><div /></body>` becomes `<body><div />` + footer + `</body>` under the footer pass, for any footer. |
| Html.HeadRowScreen | Tests/Listener/ResponseListenerTest.php:180 | `<head><title /></head>` has its one `<head>` at the start and no `</body>`. |
| Html.FootRowScreen | Tests/Listener/ResponseListenerTest.php:181 | `<body><div /></body>` has no `<head>` and its one `</body>` at the end. |
| Html.BothTagsHeaderScreen | Tests/Listener/ResponseListenerTest.php:182 | The two-tag body has its one `<head>` at the start. |
| Html.BothTagsFooterScreen | Tests/Listener/ResponseListenerTest.php:182 | The two-tag body has its one `</body>` at the end. |
| Html.ExampleHeaderWithFooter | Tests/Listener/ResponseListenerTest.php:180 | With both passes, `<head><title /></head>` gets only the header, for any header that opens no tag; an instance of `Html.InjectHeaderOnlyAt`. |
| Html.ExampleFooterWithHeader | Tests/Listener/ResponseListenerTest.php:181 | With both passes, `<body><div /></body>` gets only the footer; an instance of `Html.InjectFooterOnlyAt`. |
| Html.ExampleHeaderAndFooter | Tests/Listener/ResponseListenerTest.php:182-185 | For any header without `<`, the two-tag body gets the header after `<head>` and the footer before `</body>`; an instance of `Html.InjectBothAt`. |
| Html.ExamplePlainText | Tests/Listener/ResponseListenerTest.php:175 | `content` is unchanged by the splice. |
| Html.ExampleHeadClass | Tests/Listener/ResponseListenerTest.php:176 | `<div class="head">head</div>` is unchanged by the splice. |
| Html.ExampleHeaderElement | Tests/Listener/ResponseListenerTest.php:177 | `<header>content</header>` is unchanged by the splice. |
| Html.ExamplesContentType | Tests/Listener/ResponseListenerTest.php:171-185 | `text/xml`, `text/plain` and `application/json` fail the HTML gate. `text/html`, with or without `; charset=UTF-8`, passes it. |
| ResponseProperties.MetricsForwarded | Tests/Listener/ResponseListenerTest.php:88-91 | The metric calls forward exactly the buffered metrics, in order, and no parameter and no event. |
| ResponseProperties.ParametersForwarded | Tests/Listener/ResponseListenerTest.php:92-95 | The parameter calls forward exactly the buffered parameters, in order, and no metric and no event. |
| ResponseProperties.InstancesForwarded | Tests/Listener/ResponseListenerTest.php:96-105 | The calls for one event type forward each attribute map with that type, in list order. |
| ResponseProperties.FlattenSnoc | Tests/Listener/ResponseListenerTest.php:96-105 | In the reference event order the last type's instances come last. |
| ResponseProperties.EventsForwarded | Tests/Listener/ResponseListenerTest.php:96-105 | The event calls forward exactly the reference order `FlattenEvents`: types in buffer order, instances in list order. |
| ResponseProperties.MetricsFlushed | Tests/Listener/ResponseListenerTest.php:59-111 | The flush forwards the metric buffer in order, or nothing when the template used the extension. |
| ResponseProperties.ParametersFlushed | Tests/Listener/ResponseListenerTest.php:59-111 | The flush forwards the parameter buffer in order, or nothing when the template used the extension. |
| ResponseProperties.EventsFlushed | Tests/Listener/ResponseListenerTest.php:59-111 | The flush forwards every event instance in the reference order, whether or not the template used the extension. |
| ResponseProperties.FlushControlCount | Tests/Listener/ResponseListenerTest.php:82-86 | Besides data calls, the flush makes one `isUsed` query when there is an extension. It reads the metric and parameter buffers once each unless the template used the extension, and the event buffer once. |
| ResponseProperties.InstrumentContents | Tests/Listener/ResponseListenerTest.php:289-294 | Page instrumentation writes the bodies `""` then the spliced body when the body is rewritten. It writes no body otherwise. |
| ResponseProperties.RewriteContents | Tests/Listener/ResponseListenerTest.php:291-292 | A rewrite writes exactly two bodies, the empty one and then the spliced one. |
| ResponseProperties.FlushWritesNoBody | Tests/Listener/ResponseListenerTest.php:59-111 | The flush writes no body. |
| ResponseProperties.DataForwarded | Tests/Listener/ResponseListenerTest.php:59-111 | Over the whole trace, a main request forwards each buffered metric and parameter exactly once, in order, unless the template used the extension. It forwards each event instance exactly once in the reference order. A sub-request forwards nothing. |
| ResponseProperties.BodyWrittenTwice | Tests/Listener/ResponseListenerTest.php:289-294 | The bodies written are exactly `""` then the final body when a main request's non-empty HTML body is instrumented, even when the final body equals the original. No body is written otherwise. |
| ResponseProperties.AutoRumCount | Tests/Listener/ResponseListenerTest.php:113-123 | Turning off the agent's instrumentation makes one `isUsed` query when there is an extension, and one `disableAutoRUM` unless the template used it. |
| ResponseProperties.SnippetCount | Tests/Listener/ResponseListenerTest.php:189-253 | Fetching the snippets asks the extension about each snippet when there is one. It fetches each snippet the template did not render. |
| ResponseProperties.InstrumentCount | Tests/Listener/ResponseListenerTest.php:149-186 | Apart from body writes, instrumentation is the instrumentation switch-off, one body read for an HTML candidate, and the snippet fetches for a rewritten body. |
| ResponseProperties.ControlCount | Tests/Listener/ResponseListenerTest.php:49-253 | How often a main request makes each call that forwards no data and writes no body, segment by segment. A sub-request makes none. |
| ResponseProperties.TraceCount | Tests/Listener/ResponseListenerTest.php:49-253 | The closed count of each such call over the whole trace. It counts the flush's query and buffer reads and the cache's end of transaction. With instrumentation on, it adds the second `isUsed` query, the switch-off, the body read and, for a rewritten body, the two `is…Called` queries and the snippet fetches. |
| ResponseProperties.TransactionEnded | Tests/Listener/ResponseListenerTest.php:125-147 | `endTransaction` is called exactly once for a main request when the cache flag is set, and never otherwise. |
| ResponseProperties.BuffersRead | Tests/Listener/ResponseListenerTest.php:49-57 | A main request reads the metric and parameter buffers once each unless the template used the extension, and the event buffer once. A sub-request reads none of them. |
| ResponseProperties.AutoRumSwitchedOff | Tests/Listener/ResponseListenerTest.php:113-123 | With instrumentation on, `disableAutoRUM` is called exactly once per main request unless the template used the extension, whatever the response. `isUsed` is asked twice with instrumentation on and once without. |
| ResponseProperties.BodyRead | Tests/Listener/ResponseListenerTest.php:289 | The body is read exactly once for a main request whose response is an HTML candidate, and never otherwise, so a non-HTML body is never read. |
| ResponseProperties.SnippetsFetched | Tests/Listener/ResponseListenerTest.php:189-253 | Each snippet is fetched exactly once per rewritten body unless the template already rendered it, whether or not its tag is present, and never otherwise. |
| ResponseProperties.ExtensionAsked | Tests/Listener/ResponseListenerTest.php:199-201 | With an extension, `isHeaderCalled` and `isFooterCalled` are each asked exactly once per rewritten body. |
| ResponseProperties.BodyChangesIff | Tests/Listener/ResponseListenerTest.php:175-185 | With non-empty snippets, the final body differs from the original if and only if a main request's non-empty HTML body is instrumented and a pass that runs finds its tag. |
| ResponseExamples.ExampleSubRequest | Tests/Listener/ResponseListenerTest.php:49-57 | A sub-request never reads the metric buffer, makes no call and keeps its body. |
| ResponseExamples.ExampleCustomData | Tests/Listener/ResponseListenerTest.php:59-111 | For the buffers `foo_a`/`foo_b`, `foo_1`/`foo_2` and two `WidgetSale` instances, exactly those are forwarded in that order. Red precedes blue. Each buffer is read once. |
| ResponseExamples.ExampleEmptyBuffers | Tests/Listener/ResponseListenerTest.php:113-123 | Empty buffers forward nothing. With instrumentation on and no extension, `disableAutoRUM` is called once whatever the response. |
| ResponseExamples.ExampleSymfonyCache | Tests/Listener/ResponseListenerTest.php:125-147 | The cache flag set ends the transaction once; the flag unset, never. |
| ResponseExamples.ExampleNonHtml | Tests/Listener/ResponseListenerTest.php:171-173 | For `text/xml`, `text/plain` and `application/json` the body is never read nor written and stays as it was, while `disableAutoRUM` is still called once. |
| ResponseExamples.ExampleUntagged | Tests/Listener/ResponseListenerTest.php:175-177 | The three tagless HTML bodies are written twice: empty, then unchanged. |
| ResponseExamples.ExampleTagged | Tests/Listener/ResponseListenerTest.php:180-185 | The tagged HTML bodies are written twice: empty, then with the header after `<head>` and the footer before `</body>`. This holds with or without a charset parameter, for any header without `<`. |
| ResponseExamples.ExampleTwigInUse | Tests/Listener/ResponseListenerTest.php:189-253 | When the template used the extension: metrics and parameters are not read, events are read once, and `disableAutoRUM` is not called. `isUsed` is asked twice and each `is…Called` once. Only the snippets not rendered are fetched. The body is written twice. |

## Left out

- **The listeners' PHP source.** `Listener/ResponseListener.php` and `Listener/RequestListener.php` are not reproduced. The model's listener classes are built from what their tests assert.
- **Framework plumbing.** The Symfony kernel, events, parameter and header bags are left out. Request and response are reduced to
  request type, route, path, `_instrument` attribute, content type and body.
- **Absent bodies and content types.** The content type is always a string. A missing `Content-Type` header, and a body read back as `false`, are not modelled.
- **Case.** The content-type gate is a case-sensitive `text/html` prefix test. Tags are matched as lowercase `<head>` and `</body>` only. Case-insensitive matching is not modelled because the tests exercise only lowercase.
- **Metric values.** Values such as 4.7 or 12.5 are opaque text. The listeners forward them and do no arithmetic on them.
- **Buffers.** They are sequences of pairs. The uniqueness of PHP array keys is not modelled, and neither is clearing the buffers after the flush: the tests hand over fixed arrays.
- **The agent and external components.** The agent, the templating engine and the naming algorithm are doubles that record calls and return the values they were built with. The naming strategy is an uninterpreted function of the request.
- **The non-empty-body check.** Rewriting skips an empty body. This is the model's choice: the tests never reach that branch with an HTML response, so they do not fix it.
- **Order of `endTransaction`.** It is issued after the flush and before page instrumentation. The tests do not fix its position.
- **Order of `startTransaction`.** `setApplicationName` issues it before `setApplicationName` on the interactor. `RequestListenerTest.php:97-111` expects it once and does not fix its position.
- **Order of the empty write.** `setContent("")` comes before the extension is asked about the snippets and before the snippets are fetched. The tests fix neither position.
- **Order of the three buffers.** Metrics are forwarded before parameters, and parameters before events. The tests fix the order within each buffer only.
- **Order of the switch-off and the read.** The extension's `isUsed` and `disableAutoRUM` come before `getContent`. `ResponseListenerTest.php:156` fixes only the `disableAutoRUM` count, and `:289` allows `getContent` at any point.
- **Order of the two snippets.** `isHeaderCalled` and `getBrowserTimingHeader` come before `isFooterCalled` and `getBrowserTimingFooter`. `ResponseListenerTest.php:196-201` fixes only their counts.
- **Number of body reads.** The body is read exactly once when it is read at all. `ResponseListenerTest.php:289` allows any number of `getContent` calls.
- **Every tag, not only the first.** The header follows every `<head>` and the footer precedes every `</body>`. No test body holds more than one of either tag (`ResponseListenerTest.php:180-185`), so the tests do not fix what happens to a second one.
- **Route and path both listed.** `setIgnoreTransaction` makes one `ignoreTransaction` call when the route and the path are both on their lists. `RequestListenerTest.php:63-95` only ever lists one of them.
- **Sub-requests in the response listener.** Skipping a sub-request entirely is the model's choice. `ResponseListenerTest.php:52-57` registers its `never()` expectation after `onKernelResponse` has run, so it constrains nothing.
- **Sub-requests in the request listener.** Making no call at all for a sub-request, in each of the three handlers, is the model's choice. `RequestListenerTest.php:29-42` checks only that `setApplicationName` sets no transaction name for a sub-request.
- **Configuration.** Dependency-injection configuration, and any check of the application name against agent settings, are left out.

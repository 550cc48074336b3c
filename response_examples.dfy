/** The cases of the response listener's tests, stated over the trace and the final body. */
module ResponseExamples {
  import opened Wrappers
  import opened Calls
  import opened Kernel
  import opened ResponseListener
  import opened ResponseProperties
  import Html

  /** A main request without the `_instrument` attribute, as a fresh request has. */
  const Main: Request := Request(MainRequest, None, "/", None)

  const NoBuffers: Buffers := Buffers([], [], [])

  /** A sub-request never reads the metric buffer, makes no call and keeps its body. */
  lemma ExampleSubRequest(s: Settings, b: Buffers, request: Request, contentType: string, body: string,
                          header: string, footer: string)
    requires request.kind == SubRequest
    ensures Count(ResponseCalls(s, b, request, contentType, body, header, footer), GetCustomMetrics) == 0
    ensures ResponseCalls(s, b, request, contentType, body, header, footer) == []
    ensures ResponseBody(s, request, contentType, body, header, footer) == body
  {
    BuffersRead(s, b, request, contentType, body, header, footer);
  }

  const Red: Attributes := [("color", "red"), ("weight", "12.5")]
  const Blue: Attributes := [("color", "blue"), ("weight", "12.5")]

  const Filled: Buffers := Buffers([("foo_a", "4.7"), ("foo_b", "11")], [("foo_1", "bar_1"), ("foo_2", "bar_2")],
                                   [("WidgetSale", [Red, Blue])])

  /** Two metrics, two parameters and two instances of one event type, with page
      instrumentation off: each buffer is read once and each entry forwarded once, in order. */
  lemma ExampleCustomData(contentType: string, body: string, header: string, footer: string)
    ensures MetricsSent(ResponseCalls(Settings(false, false, None), Filled, Main, contentType, body, header, footer))
         == [("foo_a", "4.7"), ("foo_b", "11")]
    ensures ParametersSent(ResponseCalls(Settings(false, false, None), Filled, Main, contentType, body, header, footer))
         == [("foo_1", "bar_1"), ("foo_2", "bar_2")]
    ensures EventsSent(ResponseCalls(Settings(false, false, None), Filled, Main, contentType, body, header, footer))
         == [("WidgetSale", Red), ("WidgetSale", Blue)]
    ensures Count(ResponseCalls(Settings(false, false, None), Filled, Main, contentType, body, header, footer), GetCustomMetrics) == 1
    ensures Count(ResponseCalls(Settings(false, false, None), Filled, Main, contentType, body, header, footer), GetCustomParameters) == 1
    ensures Count(ResponseCalls(Settings(false, false, None), Filled, Main, contentType, body, header, footer), GetCustomEvents) == 1
  {
    var trace := ResponseCalls(Settings(false, false, None), Filled, Main, contentType, body, header, footer);
    assert MetricsSent(trace) == Filled.metrics && ParametersSent(trace) == Filled.parameters
        && EventsSent(trace) == FlattenEvents(Filled.events) by {
      DataForwarded(Settings(false, false, None), Filled, Main, contentType, body, header, footer);
    }
    assert FlattenEvents(Filled.events) == [("WidgetSale", Red), ("WidgetSale", Blue)] by {
      assert Instances("WidgetSale", [Red, Blue]) == [("WidgetSale", Red), ("WidgetSale", Blue)];
      assert FlattenEvents(Filled.events) == Instances("WidgetSale", [Red, Blue]) + FlattenEvents([]);
    }
    BuffersRead(Settings(false, false, None), Filled, Main, contentType, body, header, footer);
  }

  /** Empty buffers forward nothing; with page instrumentation on and no extension the
      agent's own instrumentation is switched off once, whatever the response. */
  lemma ExampleEmptyBuffers(contentType: string, body: string, header: string, footer: string)
    ensures MetricsSent(ResponseCalls(Settings(true, false, None), NoBuffers, Main, contentType, body, header, footer)) == []
    ensures ParametersSent(ResponseCalls(Settings(true, false, None), NoBuffers, Main, contentType, body, header, footer)) == []
    ensures EventsSent(ResponseCalls(Settings(true, false, None), NoBuffers, Main, contentType, body, header, footer)) == []
    ensures Count(ResponseCalls(Settings(true, false, None), NoBuffers, Main, contentType, body, header, footer), DisableAutoRUM) == 1
  {
    DataForwarded(Settings(true, false, None), NoBuffers, Main, contentType, body, header, footer);
    AutoRumSwitchedOff(Settings(true, false, None), NoBuffers, Main, contentType, body, header, footer);
  }

  /** The cache flag set ends the transaction once; unset, never. */
  lemma ExampleSymfonyCache(contentType: string, body: string, header: string, footer: string)
    ensures Count(ResponseCalls(Settings(false, true, None), NoBuffers, Main, contentType, body, header, footer), EndTransaction) == 1
    ensures Count(ResponseCalls(Settings(false, false, None), NoBuffers, Main, contentType, body, header, footer), EndTransaction) == 0
  {
    TransactionEnded(Settings(false, true, None), NoBuffers, Main, contentType, body, header, footer);
    TransactionEnded(Settings(false, false, None), NoBuffers, Main, contentType, body, header, footer);
  }

  const Instrumented: Settings := Settings(true, false, None)

  /** The non-HTML rows: the body is never read nor written, and stays as it was. */
  lemma ExampleNonHtml(contentType: string, body: string, header: string, footer: string)
    requires contentType == "text/xml" || contentType == "text/plain" || contentType == "application/json"
    ensures Count(ResponseCalls(Instrumented, NoBuffers, Main, contentType, body, header, footer), GetContent) == 0
    ensures ContentsSet(ResponseCalls(Instrumented, NoBuffers, Main, contentType, body, header, footer)) == []
    ensures ResponseBody(Instrumented, Main, contentType, body, header, footer) == body
    ensures Count(ResponseCalls(Instrumented, NoBuffers, Main, contentType, body, header, footer), DisableAutoRUM) == 1
  {
    Html.ExamplesContentType();
    BodyRead(Instrumented, NoBuffers, Main, contentType, body, header, footer);
    BodyWrittenTwice(Instrumented, NoBuffers, Main, contentType, body, header, footer);
    AutoRumSwitchedOff(Instrumented, NoBuffers, Main, contentType, body, header, footer);
  }

  /** An HTML row: the body is written twice, first empty and then `expected`. */
  predicate WrittenAs(contentType: string, body: string, header: string, footer: string, expected: string) {
    ContentsSet(ResponseCalls(Instrumented, NoBuffers, Main, contentType, body, header, footer)) == ["", expected]
    && ResponseBody(Instrumented, Main, contentType, body, header, footer) == expected
  }

  /** The HTML rows without an exact tag: written twice, the second time unchanged. */
  lemma ExampleUntagged(header: string, footer: string)
    ensures WrittenAs("text/html", "content", header, footer, "content")
    ensures WrittenAs("text/html", "<div class=\"head\">head</div>", header, footer, "<div class=\"head\">head</div>")
    ensures WrittenAs("text/html", "<header>content</header>", header, footer, "<header>content</header>")
  {
    Html.ExamplesContentType();
    Html.ExamplePlainText(Some(header), Some(footer));
    Html.ExampleHeadClass(Some(header), Some(footer));
    Html.ExampleHeaderElement(Some(header), Some(footer));
    BodyWrittenTwice(Instrumented, NoBuffers, Main, "text/html", "content", header, footer);
    BodyWrittenTwice(Instrumented, NoBuffers, Main, "text/html", "<div class=\"head\">head</div>", header, footer);
    BodyWrittenTwice(Instrumented, NoBuffers, Main, "text/html", "<header>content</header>", header, footer);
  }

  /** The HTML rows with tags: the header after `<head>`, the footer before `</body>`, and
      both for a body with both tags, with or without a charset parameter. The bodies are
      `<head><title /></head>`, `<body><div /></body>` and
      `<head><title /></head><body><div /></body>`, written as a tag and the text around it. */
  lemma ExampleTagged(header: string, footer: string)
    requires '<' !in header
    ensures WrittenAs("text/html", Html.HeadTag + Html.HeadRowRest, header, footer, Html.HeadTag + header + Html.HeadRowRest)
    ensures WrittenAs("text/html", Html.FootRowFront + Html.BodyEndTag, header, footer, Html.FootRowFront + footer + Html.BodyEndTag)
    ensures WrittenAs("text/html", Html.HeadTag + Html.BothTagsRest, header, footer,
                      Html.HeadTag + header + Html.BothTagsFront + footer + Html.BodyEndTag)
    ensures WrittenAs("text/html; charset=UTF-8", Html.HeadTag + Html.BothTagsRest, header, footer,
                      Html.HeadTag + header + Html.BothTagsFront + footer + Html.BodyEndTag)
  {
    Html.ExamplesContentType();
    Html.ExampleHeaderWithFooter(header, footer);
    Html.ExampleFooterWithHeader(header, footer);
    Html.ExampleHeaderAndFooter(header, footer);
    BodyWrittenTwice(Instrumented, NoBuffers, Main, "text/html", Html.HeadTag + Html.HeadRowRest, header, footer);
    BodyWrittenTwice(Instrumented, NoBuffers, Main, "text/html", Html.FootRowFront + Html.BodyEndTag, header, footer);
    BodyWrittenTwice(Instrumented, NoBuffers, Main, "text/html", Html.HeadTag + Html.BothTagsRest, header, footer);
    BodyWrittenTwice(Instrumented, NoBuffers, Main, "text/html; charset=UTF-8", Html.HeadTag + Html.BothTagsRest, header, footer);
  }

  /** The template used the extension and reports which snippets it rendered: metrics and
      parameters are not read, events are; the agent's instrumentation is left on; only the
      snippets not rendered are fetched; the body is still written twice. */
  lemma ExampleTwigInUse(headerCalled: bool, footerCalled: bool, b: Buffers, header: string, footer: string)
    requires b.events == []
    ensures var s, request := Settings(true, false, Some(Twig(true, headerCalled, footerCalled))), Request(MainRequest, None, "/", Some(true));
      var trace := ResponseCalls(s, b, request, "text/html", "content", header, footer);
      Count(trace, GetCustomMetrics) == 0 && Count(trace, GetCustomParameters) == 0 && Count(trace, GetCustomEvents) == 1
      && Count(trace, DisableAutoRUM) == 0
      && Count(trace, GetBrowserTimingHeader) == (if headerCalled then 0 else 1)
      && Count(trace, GetBrowserTimingFooter) == (if footerCalled then 0 else 1)
      && Count(trace, IsUsed) == 2 && Count(trace, IsHeaderCalled) == 1 && Count(trace, IsFooterCalled) == 1
      && ContentsSet(trace) == ["", "content"]
  {
    var s, request := Settings(true, false, Some(Twig(true, headerCalled, footerCalled))), Request(MainRequest, None, "/", Some(true));
    Html.ExamplesContentType();
    Html.ExamplePlainText(if HeaderWanted(s) then Some(header) else None, if FooterWanted(s) then Some(footer) else None);
    BuffersRead(s, b, request, "text/html", "content", header, footer);
    AutoRumSwitchedOff(s, b, request, "text/html", "content", header, footer);
    SnippetsFetched(s, b, request, "text/html", "content", header, footer);
    ExtensionAsked(s, b, request, "text/html", "content", header, footer);
    BodyWrittenTwice(s, b, request, "text/html", "content", header, footer);
  }
}

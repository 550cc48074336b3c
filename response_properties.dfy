/** What the response listener's trace promises: the buffered data forwarded in order,
    the transaction ended once under a cache, the page instrumentation switched and the
    body rewritten exactly as the listener's tests observe. */
module ResponseProperties {
  import opened Wrappers
  import opened Calls
  import opened Kernel
  import opened ResponseListener
  import Html

  /** A call that forwards buffered data to the agent. */
  predicate DataCall(c: Call) {
    c.AddCustomMetric? || c.AddCustomParameter? || c.AddCustomEvent?
  }

  /** A log that forwards no buffered data. */
  predicate Quiet(log: seq<Call>) {
    forall c :: c in log ==> !DataCall(c)
  }

  lemma QuietSendsNothing(log: seq<Call>)
    requires Quiet(log)
    ensures MetricsSent(log) == [] && ParametersSent(log) == [] && EventsSent(log) == []
  {
    ProjectNone(log, AsMetric);
    ProjectNone(log, AsParameter);
    ProjectNone(log, AsEvent);
  }

  // ---------------------------------------------------------------------------
  // Each buffer entry becomes one call, in buffer order

  lemma {:induction false} MetricsForwarded(metrics: seq<(string, Payload)>)
    ensures MetricsSent(MetricCalls(metrics)) == metrics
    ensures ParametersSent(MetricCalls(metrics)) == [] && EventsSent(MetricCalls(metrics)) == []
    ensures forall c :: c in MetricCalls(metrics) ==> c.AddCustomMetric?
    decreases |metrics|
  {
    if metrics != [] {
      var init, last := metrics[..|metrics| - 1], metrics[|metrics| - 1];
      MetricsForwarded(init);
      var call := [AddCustomMetric(last.0, last.1)];
      ProjectConcat(MetricCalls(init), call, AsMetric);
      ProjectConcat(MetricCalls(init), call, AsParameter);
      ProjectConcat(MetricCalls(init), call, AsEvent);
      assert call[1..] == [];
      assert init + [last] == metrics;
    }
  }

  lemma {:induction false} ParametersForwarded(parameters: seq<(string, Payload)>)
    ensures ParametersSent(ParameterCalls(parameters)) == parameters
    ensures MetricsSent(ParameterCalls(parameters)) == [] && EventsSent(ParameterCalls(parameters)) == []
    ensures forall c :: c in ParameterCalls(parameters) ==> c.AddCustomParameter?
    decreases |parameters|
  {
    if parameters != [] {
      var init, last := parameters[..|parameters| - 1], parameters[|parameters| - 1];
      ParametersForwarded(init);
      var call := [AddCustomParameter(last.0, last.1)];
      ProjectConcat(ParameterCalls(init), call, AsMetric);
      ProjectConcat(ParameterCalls(init), call, AsParameter);
      ProjectConcat(ParameterCalls(init), call, AsEvent);
      assert call[1..] == [];
      assert init + [last] == parameters;
    }
  }

  lemma {:induction false} InstancesForwarded(eventType: string, instances: seq<Attributes>)
    ensures EventsSent(InstanceCalls(eventType, instances)) == Instances(eventType, instances)
    ensures MetricsSent(InstanceCalls(eventType, instances)) == []
    ensures ParametersSent(InstanceCalls(eventType, instances)) == []
    ensures forall c :: c in InstanceCalls(eventType, instances) ==> c.AddCustomEvent?
    decreases |instances|
  {
    if instances != [] {
      var init := instances[..|instances| - 1];
      InstancesForwarded(eventType, init);
      var call := [AddCustomEvent(eventType, instances[|instances| - 1])];
      ProjectConcat(InstanceCalls(eventType, init), call, AsMetric);
      ProjectConcat(InstanceCalls(eventType, init), call, AsParameter);
      ProjectConcat(InstanceCalls(eventType, init), call, AsEvent);
      assert call[1..] == [];
      assert Instances(eventType, instances) == Instances(eventType, init) + [(eventType, instances[|instances| - 1])];
    }
  }

  /** The reference order read from the back: the last type's instances come last. */
  lemma {:induction false} FlattenSnoc(events: seq<(string, seq<Attributes>)>)
    requires events != []
    ensures FlattenEvents(events)
         == FlattenEvents(events[..|events| - 1]) + Instances(events[|events| - 1].0, events[|events| - 1].1)
    decreases |events|
  {
    var n := |events|;
    if n == 1 {
      assert events[..0] == [] && events[1..] == [];
    } else {
      FlattenSnoc(events[1..]);
      assert events[1..][..n - 2] == events[..n - 1][1..];
      assert events[..n - 1][0] == events[0];
    }
  }

  lemma {:induction false} EventsForwarded(events: seq<(string, seq<Attributes>)>)
    ensures EventsSent(EventCalls(events)) == FlattenEvents(events)
    ensures MetricsSent(EventCalls(events)) == [] && ParametersSent(EventCalls(events)) == []
    ensures forall c :: c in EventCalls(events) ==> c.AddCustomEvent?
    decreases |events|
  {
    if events != [] {
      var init, last := events[..|events| - 1], events[|events| - 1];
      EventsForwarded(init);
      InstancesForwarded(last.0, last.1);
      ProjectConcat(EventCalls(init), InstanceCalls(last.0, last.1), AsMetric);
      ProjectConcat(EventCalls(init), InstanceCalls(last.0, last.1), AsParameter);
      ProjectConcat(EventCalls(init), InstanceCalls(last.0, last.1), AsEvent);
      FlattenSnoc(events);
    }
  }

  // ---------------------------------------------------------------------------
  // The segments of the trace

  function FlushedBuffers<T>(b: Buffers, f: Call -> Option<T>): seq<T> {
    Project([GetCustomMetrics], f) + Project(MetricCalls(b.metrics), f)
    + Project([GetCustomParameters], f) + Project(ParameterCalls(b.parameters), f)
  }

  /** Any projection of the flush, segment by segment. */
  lemma FlushProject<T>(s: Settings, b: Buffers, f: Call -> Option<T>)
    ensures Project(FlushCalls(s, b), f)
         == Project(Query(s, IsUsed), f)
          + (if TwigUsed(s) then [] else FlushedBuffers(b, f))
          + Project([GetCustomEvents], f) + Project(EventCalls(b.events), f)
  {
    var q := Query(s, IsUsed);
    var middle := if TwigUsed(s) then []
      else [GetCustomMetrics] + MetricCalls(b.metrics) + [GetCustomParameters] + ParameterCalls(b.parameters);
    if !TwigUsed(s) {
      ProjectConcat([GetCustomMetrics], MetricCalls(b.metrics), f);
      ProjectConcat([GetCustomMetrics] + MetricCalls(b.metrics), [GetCustomParameters], f);
      ProjectConcat([GetCustomMetrics] + MetricCalls(b.metrics) + [GetCustomParameters], ParameterCalls(b.parameters), f);
    }
    ProjectConcat(q, middle, f);
    ProjectConcat(q + middle, [GetCustomEvents], f);
    ProjectConcat(q + middle + [GetCustomEvents], EventCalls(b.events), f);
  }

  /** What each segment of the flush forwards. */
  lemma FlushSegments(s: Settings, b: Buffers)
    ensures Project(Query(s, IsUsed), AsMetric) == [] && Project(Query(s, IsUsed), AsParameter) == []
         && Project(Query(s, IsUsed), AsEvent) == []
    ensures FlushedBuffers(b, AsMetric) == b.metrics && FlushedBuffers(b, AsParameter) == b.parameters
         && FlushedBuffers(b, AsEvent) == []
    ensures Project([GetCustomEvents], AsMetric) == [] && Project([GetCustomEvents], AsParameter) == []
         && Project([GetCustomEvents], AsEvent) == []
    ensures Project(EventCalls(b.events), AsMetric) == [] && Project(EventCalls(b.events), AsParameter) == []
         && Project(EventCalls(b.events), AsEvent) == FlattenEvents(b.events)
  {
    QuietSendsNothing(Query(s, IsUsed));
    MetricsForwarded(b.metrics);
    ParametersForwarded(b.parameters);
    EventsForwarded(b.events);
    ProjectSingle(GetCustomMetrics, AsMetric);
    ProjectSingle(GetCustomParameters, AsMetric);
    ProjectSingle(GetCustomEvents, AsMetric);
    ProjectSingle(GetCustomMetrics, AsParameter);
    ProjectSingle(GetCustomParameters, AsParameter);
    ProjectSingle(GetCustomEvents, AsParameter);
    ProjectSingle(GetCustomMetrics, AsEvent);
    ProjectSingle(GetCustomParameters, AsEvent);
    ProjectSingle(GetCustomEvents, AsEvent);
  }

  /** The flush forwards the three buffers, metrics and parameters only when the template
      did not use the extension. */
  lemma MetricsFlushed(s: Settings, b: Buffers)
    ensures MetricsSent(FlushCalls(s, b)) == if TwigUsed(s) then [] else b.metrics
  {
    FlushProject(s, b, AsMetric);
    FlushSegments(s, b);
  }

  lemma ParametersFlushed(s: Settings, b: Buffers)
    ensures ParametersSent(FlushCalls(s, b)) == if TwigUsed(s) then [] else b.parameters
  {
    FlushProject(s, b, AsParameter);
    FlushSegments(s, b);
  }

  lemma EventsFlushed(s: Settings, b: Buffers)
    ensures EventsSent(FlushCalls(s, b)) == FlattenEvents(b.events)
  {
    FlushProject(s, b, AsEvent);
    FlushSegments(s, b);
  }

  lemma MetricsAndParametersCount(b: Buffers, c: Call)
    requires !DataCall(c)
    ensures Count([GetCustomMetrics] + MetricCalls(b.metrics) + [GetCustomParameters] + ParameterCalls(b.parameters), c)
         == Once(c == GetCustomMetrics) + Once(c == GetCustomParameters)
  {
    assert Count(MetricCalls(b.metrics), c) == 0 by {
      MetricsForwarded(b.metrics);
      CountAbsent(MetricCalls(b.metrics), c);
    }
    assert Count(ParameterCalls(b.parameters), c) == 0 by {
      ParametersForwarded(b.parameters);
      CountAbsent(ParameterCalls(b.parameters), c);
    }
    CountSingle(GetCustomMetrics, c);
    CountSingle(GetCustomParameters, c);
    CountConcat([GetCustomMetrics], MetricCalls(b.metrics), c);
    CountConcat([GetCustomMetrics] + MetricCalls(b.metrics), [GetCustomParameters], c);
    CountConcat([GetCustomMetrics] + MetricCalls(b.metrics) + [GetCustomParameters], ParameterCalls(b.parameters), c);
  }

  /** Apart from the data calls, the flush consists of the extension query and the reads of
      the buffers it flushes. */
  lemma FlushControlCount(s: Settings, b: Buffers, c: Call)
    requires !DataCall(c)
    ensures Count(FlushCalls(s, b), c)
         == Once(s.twig.Some? && c == IsUsed) + Once(!TwigUsed(s) && c == GetCustomMetrics)
          + Once(!TwigUsed(s) && c == GetCustomParameters) + Once(c == GetCustomEvents)
  {
    var q := Query(s, IsUsed);
    var middle := if TwigUsed(s) then []
      else [GetCustomMetrics] + MetricCalls(b.metrics) + [GetCustomParameters] + ParameterCalls(b.parameters);
    assert Count(q, c) == Once(s.twig.Some? && c == IsUsed) by {
      if s.twig.Some? { CountSingle(IsUsed, c); }
    }
    assert Count(middle, c) == Once(!TwigUsed(s) && c == GetCustomMetrics) + Once(!TwigUsed(s) && c == GetCustomParameters) by {
      if !TwigUsed(s) { MetricsAndParametersCount(b, c); }
    }
    assert Count(EventCalls(b.events), c) == 0 by {
      EventsForwarded(b.events);
      CountAbsent(EventCalls(b.events), c);
    }
    CountSingle(GetCustomEvents, c);
    CountConcat(q, middle, c);
    CountConcat(q + middle, [GetCustomEvents], c);
    CountConcat(q + middle + [GetCustomEvents], EventCalls(b.events), c);
  }

  /** Ending the transaction and instrumenting the page forward no data. */
  lemma InstrumentQuiet(s: Settings, request: Request, contentType: string, body: string, header: string, footer: string)
    ensures Quiet(EndCalls(s))
    ensures Quiet(InstrumentCalls(s, request, contentType, body, header, footer))
  {
    if s.instrument {
      var auto := AutoRumCalls(s);
      assert Quiet(auto);
      if HtmlCandidate(s, request, contentType) {
        var rest := if body == "" then [] else RewriteCalls(s, body, header, footer);
        assert Quiet(rest) by {
          if body != "" {
            assert Quiet(SnippetCalls(s));
            assert RewriteCalls(s, body, header, footer)
                == [SetContent("")] + SnippetCalls(s) + [SetContent(SplicedBody(s, body, header, footer))];
          }
        }
        assert InstrumentCalls(s, request, contentType, body, header, footer) == auto + ([GetContent] + rest);
      } else {
        assert InstrumentCalls(s, request, contentType, body, header, footer) == auto;
      }
    }
  }

  /** The bodies written to the response: the empty body, then the spliced one, when and
      only when an HTML candidate's body is not empty. */
  lemma InstrumentContents(s: Settings, request: Request, contentType: string, body: string, header: string, footer: string)
    ensures ContentsSet(InstrumentCalls(s, request, contentType, body, header, footer))
         == if Rewrites(s, request, contentType, body) then ["", SplicedBody(s, body, header, footer)] else []
  {
    if s.instrument {
      var auto := AutoRumCalls(s);
      ProjectNone(auto, AsContent);
      if HtmlCandidate(s, request, contentType) {
        var rest := if body == "" then [] else RewriteCalls(s, body, header, footer);
        assert InstrumentCalls(s, request, contentType, body, header, footer) == auto + ([GetContent] + rest);
        ProjectConcat(auto, [GetContent] + rest, AsContent);
        ProjectSingle(GetContent, AsContent);
        ProjectConcat([GetContent], rest, AsContent);
        if body != "" {
          RewriteContents(s, body, header, footer);
        }
      } else {
        assert InstrumentCalls(s, request, contentType, body, header, footer) == auto;
      }
    }
  }

  lemma RewriteContents(s: Settings, body: string, header: string, footer: string)
    ensures ContentsSet(RewriteCalls(s, body, header, footer)) == ["", SplicedBody(s, body, header, footer)]
  {
    var spliced := SplicedBody(s, body, header, footer);
    var first := [SetContent("")];
    assert Project(first + SnippetCalls(s), AsContent) == [""] by {
      ProjectNone(SnippetCalls(s), AsContent);
      ProjectSingle(SetContent(""), AsContent);
      ProjectConcat(first, SnippetCalls(s), AsContent);
    }
    ProjectSingle(SetContent(spliced), AsContent);
    ProjectConcat(first + SnippetCalls(s), [SetContent(spliced)], AsContent);
  }

  /** The flush reads no body and writes none. */
  lemma FlushWritesNoBody(s: Settings, b: Buffers)
    ensures ContentsSet(FlushCalls(s, b)) == []
  {
    MetricsForwarded(b.metrics);
    ParametersForwarded(b.parameters);
    EventsForwarded(b.events);
    assert forall c :: c in FlushCalls(s, b) ==> AsContent(c).None?;
    ProjectNone(FlushCalls(s, b), AsContent);
  }

  // ---------------------------------------------------------------------------
  // The whole trace of `onKernelResponse`

  lemma ResponseProject<T>(s: Settings, b: Buffers, request: Request, contentType: string, body: string,
                           header: string, footer: string, f: Call -> Option<T>)
    requires request.kind == MainRequest
    ensures Project(ResponseCalls(s, b, request, contentType, body, header, footer), f)
         == Project(FlushCalls(s, b), f) + Project(EndCalls(s), f)
          + Project(InstrumentCalls(s, request, contentType, body, header, footer), f)
  {
    ProjectConcat(FlushCalls(s, b), EndCalls(s), f);
    ProjectConcat(FlushCalls(s, b) + EndCalls(s), InstrumentCalls(s, request, contentType, body, header, footer), f);
  }

  /** A main request forwards every buffered metric, parameter and event instance exactly
      once, in buffer order (metrics and parameters only when the template did not use the
      extension); a sub-request forwards nothing. */
  lemma DataForwarded(s: Settings, b: Buffers, request: Request, contentType: string, body: string,
                      header: string, footer: string)
    ensures MetricsSent(ResponseCalls(s, b, request, contentType, body, header, footer))
         == if request.kind == MainRequest && !TwigUsed(s) then b.metrics else []
    ensures ParametersSent(ResponseCalls(s, b, request, contentType, body, header, footer))
         == if request.kind == MainRequest && !TwigUsed(s) then b.parameters else []
    ensures EventsSent(ResponseCalls(s, b, request, contentType, body, header, footer))
         == if request.kind == MainRequest then FlattenEvents(b.events) else []
  {
    if request.kind == MainRequest {
      InstrumentQuiet(s, request, contentType, body, header, footer);
      QuietSendsNothing(EndCalls(s));
      QuietSendsNothing(InstrumentCalls(s, request, contentType, body, header, footer));
      MetricsFlushed(s, b);
      ParametersFlushed(s, b);
      EventsFlushed(s, b);
      ResponseProject(s, b, request, contentType, body, header, footer, AsMetric);
      ResponseProject(s, b, request, contentType, body, header, footer, AsParameter);
      ResponseProject(s, b, request, contentType, body, header, footer, AsEvent);
    }
  }

  /** A main request whose HTML body is rewritten writes exactly two bodies, the empty one
      and then the final one, even when the final body equals the original; any other
      response is never written. */
  lemma BodyWrittenTwice(s: Settings, b: Buffers, request: Request, contentType: string, body: string,
                         header: string, footer: string)
    ensures ContentsSet(ResponseCalls(s, b, request, contentType, body, header, footer))
         == if request.kind == MainRequest && Rewrites(s, request, contentType, body)
            then ["", ResponseBody(s, request, contentType, body, header, footer)]
            else []
  {
    if request.kind == MainRequest {
      FlushWritesNoBody(s, b);
      InstrumentContents(s, request, contentType, body, header, footer);
      ProjectNone(EndCalls(s), AsContent);
      ResponseProject(s, b, request, contentType, body, header, footer, AsContent);
    }
  }

  lemma AutoRumCount(s: Settings, c: Call)
    ensures Count(AutoRumCalls(s), c) == Once(s.twig.Some? && c == IsUsed) + Once(!TwigUsed(s) && c == DisableAutoRUM)
  {
    if s.twig.Some? { CountSingle(IsUsed, c); }
    CountSingle(DisableAutoRUM, c);
    CountConcat(Query(s, IsUsed), if TwigUsed(s) then [] else [DisableAutoRUM], c);
  }

  lemma SnippetCount(s: Settings, c: Call)
    ensures Count(SnippetCalls(s), c)
         == Once(s.twig.Some? && c == IsHeaderCalled) + Once(HeaderWanted(s) && c == GetBrowserTimingHeader)
          + Once(s.twig.Some? && c == IsFooterCalled) + Once(FooterWanted(s) && c == GetBrowserTimingFooter)
  {
    var q1, h, q2, f := Query(s, IsHeaderCalled), (if HeaderWanted(s) then [GetBrowserTimingHeader] else []),
      Query(s, IsFooterCalled), (if FooterWanted(s) then [GetBrowserTimingFooter] else []);
    CountSingle(IsHeaderCalled, c);
    CountSingle(GetBrowserTimingHeader, c);
    CountSingle(IsFooterCalled, c);
    CountSingle(GetBrowserTimingFooter, c);
    CountConcat(q1, h, c);
    CountConcat(q1 + h, q2, c);
    CountConcat(q1 + h + q2, f, c);
  }

  /** A rewrite makes the snippet calls between its two writes. */
  lemma RewriteCount(s: Settings, body: string, header: string, footer: string, c: Call)
    requires !c.SetContent?
    ensures Count(RewriteCalls(s, body, header, footer), c) == Count(SnippetCalls(s), c)
  {
    var last := [SetContent(SplicedBody(s, body, header, footer))];
    CountSingle(SetContent(""), c);
    CountSingle(last[0], c);
    CountConcat([SetContent("")], SnippetCalls(s), c);
    CountConcat([SetContent("")] + SnippetCalls(s), last, c);
  }

  /** Apart from the bodies it writes, page instrumentation switches the agent's own off, reads
      the body of an HTML candidate and fetches the snippets for a body it rewrites. */
  lemma InstrumentCount(s: Settings, request: Request, contentType: string, body: string,
                        header: string, footer: string, c: Call)
    requires !c.SetContent?
    ensures Count(InstrumentCalls(s, request, contentType, body, header, footer), c)
         == if !s.instrument then 0
            else (Count(AutoRumCalls(s), c)
                  + Once(HtmlCandidate(s, request, contentType) && c == GetContent)
                  + (if Rewrites(s, request, contentType, body) then Count(SnippetCalls(s), c) else 0))
  {
    if s.instrument {
      var rest := if body == "" then [] else RewriteCalls(s, body, header, footer);
      var tail := if HtmlCandidate(s, request, contentType) then [GetContent] + rest else [];
      assert Count(rest, c) == if body == "" then 0 else Count(SnippetCalls(s), c) by {
        if body != "" { RewriteCount(s, body, header, footer, c); }
      }
      assert Count(tail, c)
          == if HtmlCandidate(s, request, contentType) then Once(c == GetContent) + Count(rest, c) else 0 by {
        if HtmlCandidate(s, request, contentType) {
          CountSingle(GetContent, c);
          CountConcat([GetContent], rest, c);
        }
      }
      CountConcat(AutoRumCalls(s), tail, c);
    }
  }

  /** A call that forwards no data and writes no body: how often a main request makes it,
      segment by segment. A sub-request makes no call. */
  lemma ControlCount(s: Settings, b: Buffers, request: Request, contentType: string, body: string,
                     header: string, footer: string, c: Call)
    requires !DataCall(c) && !c.SetContent?
    ensures Count(ResponseCalls(s, b, request, contentType, body, header, footer), c)
         == if request.kind == SubRequest then 0
            else (Once(s.twig.Some? && c == IsUsed)
                  + Once(!TwigUsed(s) && c == GetCustomMetrics) + Once(!TwigUsed(s) && c == GetCustomParameters)
                  + Once(c == GetCustomEvents) + Once(s.symfonyCache && c == EndTransaction)
                  + Count(InstrumentCalls(s, request, contentType, body, header, footer), c))
  {
    if request.kind == MainRequest {
      FlushControlCount(s, b, c);
      CountSingle(EndTransaction, c);
      var instrument := InstrumentCalls(s, request, contentType, body, header, footer);
      CountConcat(FlushCalls(s, b), EndCalls(s), c);
      CountConcat(FlushCalls(s, b) + EndCalls(s), instrument, c);
    }
  }

  /** The closed count of a control call in the whole trace: the flush's reads, the
      transaction's end, and page instrumentation with the queries its snippets take. */
  lemma TraceCount(s: Settings, b: Buffers, request: Request, contentType: string, body: string,
                   header: string, footer: string, c: Call)
    requires !DataCall(c) && !c.SetContent?
    ensures Count(ResponseCalls(s, b, request, contentType, body, header, footer), c)
         == if request.kind == SubRequest then 0
            else (Once(s.twig.Some? && c == IsUsed)
                  + Once(!TwigUsed(s) && c == GetCustomMetrics) + Once(!TwigUsed(s) && c == GetCustomParameters)
                  + Once(c == GetCustomEvents) + Once(s.symfonyCache && c == EndTransaction)
                  + (if !s.instrument then 0
                     else (Once(s.twig.Some? && c == IsUsed) + Once(!TwigUsed(s) && c == DisableAutoRUM)
                           + Once(HtmlCandidate(s, request, contentType) && c == GetContent)
                           + (if !Rewrites(s, request, contentType, body) then 0
                              else (Once(s.twig.Some? && c == IsHeaderCalled) + Once(HeaderWanted(s) && c == GetBrowserTimingHeader)
                                    + Once(s.twig.Some? && c == IsFooterCalled) + Once(FooterWanted(s) && c == GetBrowserTimingFooter))))))
  {
    ControlCount(s, b, request, contentType, body, header, footer, c);
    InstrumentCount(s, request, contentType, body, header, footer, c);
    AutoRumCount(s, c);
    SnippetCount(s, c);
  }

  /** Under an HTTP cache the transaction is ended exactly once per main request. */
  lemma TransactionEnded(s: Settings, b: Buffers, request: Request, contentType: string, body: string,
                         header: string, footer: string)
    ensures Count(ResponseCalls(s, b, request, contentType, body, header, footer), EndTransaction)
         == if request.kind == MainRequest && s.symfonyCache then 1 else 0
  {
    TraceCount(s, b, request, contentType, body, header, footer, EndTransaction);
  }

  /** The metric and parameter buffers are read once per main request unless the template
      used the extension; the event buffer is read once per main request. */
  lemma BuffersRead(s: Settings, b: Buffers, request: Request, contentType: string, body: string,
                    header: string, footer: string)
    ensures Count(ResponseCalls(s, b, request, contentType, body, header, footer), GetCustomMetrics)
         == if request.kind == MainRequest && !TwigUsed(s) then 1 else 0
    ensures Count(ResponseCalls(s, b, request, contentType, body, header, footer), GetCustomParameters)
         == if request.kind == MainRequest && !TwigUsed(s) then 1 else 0
    ensures Count(ResponseCalls(s, b, request, contentType, body, header, footer), GetCustomEvents)
         == if request.kind == MainRequest then 1 else 0
  {
    TraceCount(s, b, request, contentType, body, header, footer, GetCustomMetrics);
    TraceCount(s, b, request, contentType, body, header, footer, GetCustomParameters);
    TraceCount(s, b, request, contentType, body, header, footer, GetCustomEvents);
  }

  /** With page instrumentation on, the agent's own instrumentation is switched off once per
      main request unless the template used the extension, whatever the response; the
      extension is asked whether it was used once for the flush and once more for this. */
  lemma AutoRumSwitchedOff(s: Settings, b: Buffers, request: Request, contentType: string, body: string,
                           header: string, footer: string)
    ensures Count(ResponseCalls(s, b, request, contentType, body, header, footer), DisableAutoRUM)
         == if request.kind == MainRequest && s.instrument && !TwigUsed(s) then 1 else 0
    ensures Count(ResponseCalls(s, b, request, contentType, body, header, footer), IsUsed)
         == if request.kind == MainRequest && s.twig.Some? then (if s.instrument then 2 else 1) else 0
  {
    TraceCount(s, b, request, contentType, body, header, footer, DisableAutoRUM);
    TraceCount(s, b, request, contentType, body, header, footer, IsUsed);
  }

  /** The body is read once per main request whose response is an HTML candidate, and never
      otherwise. */
  lemma BodyRead(s: Settings, b: Buffers, request: Request, contentType: string, body: string,
                 header: string, footer: string)
    ensures Count(ResponseCalls(s, b, request, contentType, body, header, footer), GetContent)
         == if request.kind == MainRequest && HtmlCandidate(s, request, contentType) then 1 else 0
  {
    TraceCount(s, b, request, contentType, body, header, footer, GetContent);
  }

  /** Each snippet is fetched once per rewritten body unless the template already rendered
      it, whether or not the body holds its tag. */
  lemma SnippetsFetched(s: Settings, b: Buffers, request: Request, contentType: string, body: string,
                        header: string, footer: string)
    ensures Count(ResponseCalls(s, b, request, contentType, body, header, footer), GetBrowserTimingHeader)
         == if request.kind == MainRequest && Rewrites(s, request, contentType, body) && HeaderWanted(s) then 1 else 0
    ensures Count(ResponseCalls(s, b, request, contentType, body, header, footer), GetBrowserTimingFooter)
         == if request.kind == MainRequest && Rewrites(s, request, contentType, body) && FooterWanted(s) then 1 else 0
  {
    TraceCount(s, b, request, contentType, body, header, footer, GetBrowserTimingHeader);
    TraceCount(s, b, request, contentType, body, header, footer, GetBrowserTimingFooter);
  }

  /** The extension, when there is one, is asked once per rewritten body whether the
      template rendered each snippet. */
  lemma ExtensionAsked(s: Settings, b: Buffers, request: Request, contentType: string, body: string,
                       header: string, footer: string)
    ensures Count(ResponseCalls(s, b, request, contentType, body, header, footer), IsHeaderCalled)
         == if request.kind == MainRequest && Rewrites(s, request, contentType, body) && s.twig.Some? then 1 else 0
    ensures Count(ResponseCalls(s, b, request, contentType, body, header, footer), IsFooterCalled)
         == if request.kind == MainRequest && Rewrites(s, request, contentType, body) && s.twig.Some? then 1 else 0
  {
    TraceCount(s, b, request, contentType, body, header, footer, IsHeaderCalled);
    TraceCount(s, b, request, contentType, body, header, footer, IsFooterCalled);
  }

  /** With non-empty snippets, the body of the response changes exactly when it is
      rewritten and a pass that runs finds its tag; every other body is kept as it was. */
  lemma BodyChangesIff(s: Settings, request: Request, contentType: string, body: string,
                       header: string, footer: string)
    requires header != "" && footer != ""
    ensures ResponseBody(s, request, contentType, body, header, footer) != body
        <==> request.kind == MainRequest && Rewrites(s, request, contentType, body)
             && ((HeaderWanted(s) && Html.Occurs(body, Html.HeadTag)) || (FooterWanted(s) && Html.Occurs(body, Html.BodyEndTag)))
  {
    Html.InjectChangesBodyIff(body, if HeaderWanted(s) then Some(header) else None,
                              if FooterWanted(s) then Some(footer) else None);
  }
}

/** The listener on the kernel's response event. For a main request it flushes the
    buffered custom metrics, parameters and events to the APM agent, ends the transaction
    when an HTTP cache sits in front of the application, and, when page instrumentation
    is on, turns the agent's own page instrumentation off and splices the browser-timing
    snippets into HTML bodies itself. */
module ResponseListener {
  import opened Wrappers
  import opened Calls
  import opened Kernel
  import opened Collaborators
  import Html

  /** What the template extension reports, when the listener has one. */
  datatype Twig = Twig(used: bool, headerCalled: bool, footerCalled: bool)

  /** The listener's construction-time switches. */
  datatype Settings = Settings(instrument: bool, symfonyCache: bool, twig: Option<Twig>)

  /** The custom data buffered in the configuration, each buffer in insertion order; an
      event type carries the list of its instances' attribute maps. */
  datatype Buffers = Buffers(metrics: seq<(string, Payload)>, parameters: seq<(string, Payload)>,
                             events: seq<(string, seq<Attributes>)>)

  /** The template itself used the extension's functions. */
  predicate TwigUsed(s: Settings) {
    s.twig.Some? && s.twig.value.used
  }

  /** The header (footer) snippet still has to be spliced in: there is no extension, or it
      reports that the template did not render that snippet. */
  predicate HeaderWanted(s: Settings) {
    !(s.twig.Some? && s.twig.value.headerCalled)
  }

  predicate FooterWanted(s: Settings) {
    !(s.twig.Some? && s.twig.value.footerCalled)
  }

  /** A query of the extension, made only when there is an extension to ask. */
  function Query(s: Settings, q: Call): seq<Call> {
    if s.twig.Some? then [q] else []
  }

  // ---------------------------------------------------------------------------
  // Flushing the buffers

  function MetricCalls(metrics: seq<(string, Payload)>): seq<Call>
    decreases |metrics|
  {
    if metrics == [] then []
    else
      var last := metrics[|metrics| - 1];
      MetricCalls(metrics[..|metrics| - 1]) + [AddCustomMetric(last.0, last.1)]
  }

  function ParameterCalls(parameters: seq<(string, Payload)>): seq<Call>
    decreases |parameters|
  {
    if parameters == [] then []
    else
      var last := parameters[|parameters| - 1];
      ParameterCalls(parameters[..|parameters| - 1]) + [AddCustomParameter(last.0, last.1)]
  }

  function InstanceCalls(eventType: string, instances: seq<Attributes>): seq<Call>
    decreases |instances|
  {
    if instances == [] then []
    else InstanceCalls(eventType, instances[..|instances| - 1]) + [AddCustomEvent(eventType, instances[|instances| - 1])]
  }

  function EventCalls(events: seq<(string, seq<Attributes>)>): seq<Call>
    decreases |events|
  {
    if events == [] then []
    else
      var last := events[|events| - 1];
      EventCalls(events[..|events| - 1]) + InstanceCalls(last.0, last.1)
  }

  /** Reference order of the event instances: every instance paired with its type, the
      types in buffer order and each type's instances in list order. */
  function FlattenEvents(events: seq<(string, seq<Attributes>)>): seq<(string, Attributes)> {
    if events == [] then []
    else Instances(events[0].0, events[0].1) + FlattenEvents(events[1..])
  }

  function Instances(eventType: string, instances: seq<Attributes>): seq<(string, Attributes)> {
    seq(|instances|, i requires 0 <= i < |instances| => (eventType, instances[i]))
  }

  /** Metrics and parameters are flushed only when the template did not use the
      extension; events always are. */
  function FlushCalls(s: Settings, b: Buffers): seq<Call> {
    Query(s, IsUsed)
    + (if TwigUsed(s) then []
       else [GetCustomMetrics] + MetricCalls(b.metrics) + [GetCustomParameters] + ParameterCalls(b.parameters))
    + [GetCustomEvents] + EventCalls(b.events)
  }

  function EndCalls(s: Settings): seq<Call> {
    if s.symfonyCache then [EndTransaction] else []
  }

  lemma AppendAssoc(log: seq<Call>, a: seq<Call>, b: seq<Call>, c: seq<Call>, d: seq<Call>)
    ensures log + a + b + c + d == log + (a + b + c + d)
  {
  }

  lemma AppendAssoc2(log: seq<Call>, a: seq<Call>, b: seq<Call>)
    ensures log + a + b == log + (a + b)
  {
  }

  lemma AppendAssoc3(log: seq<Call>, a: seq<Call>, b: seq<Call>, c: seq<Call>)
    ensures log + a + b + c == log + (a + b + c)
  {
  }

  // ---------------------------------------------------------------------------
  // Page instrumentation

  /** The `_instrument` request attribute, true when absent. */
  predicate InstrumentRequested(request: Request) {
    request.instrument.GetOr(true)
  }

  /** Only an explicit `_instrument = false` turns instrumentation off for a request. */
  lemma InstrumentRequestedIff(request: Request)
    ensures InstrumentRequested(request) <==> request.instrument != Some(false)
  {
  }

  /** The body is read: instrumentation is on, the request allows it and the response is
      HTML. */
  predicate HtmlCandidate(s: Settings, request: Request, contentType: string) {
    s.instrument && InstrumentRequested(request) && Html.IsHtml(contentType)
  }

  /** The body is rewritten: it is a candidate and not empty. */
  predicate Rewrites(s: Settings, request: Request, contentType: string, body: string) {
    HtmlCandidate(s, request, contentType) && body != ""
  }

  function SplicedBody(s: Settings, body: string, header: string, footer: string): string {
    Html.Inject(body, if HeaderWanted(s) then Some(header) else None, if FooterWanted(s) then Some(footer) else None)
  }

  /** The agent's own page instrumentation is turned off unless the template used the
      extension. */
  function AutoRumCalls(s: Settings): seq<Call> {
    Query(s, IsUsed) + (if TwigUsed(s) then [] else [DisableAutoRUM])
  }

  /** A snippet is fetched from the agent only for a pass that runs. */
  function SnippetCalls(s: Settings): seq<Call> {
    Query(s, IsHeaderCalled) + (if HeaderWanted(s) then [GetBrowserTimingHeader] else [])
    + Query(s, IsFooterCalled) + (if FooterWanted(s) then [GetBrowserTimingFooter] else [])
  }

  /** The body is cleared first and the final body written second. */
  function RewriteCalls(s: Settings, body: string, header: string, footer: string): seq<Call> {
    [SetContent("")] + SnippetCalls(s) + [SetContent(SplicedBody(s, body, header, footer))]
  }

  function InstrumentCalls(s: Settings, request: Request, contentType: string, body: string,
                           header: string, footer: string): seq<Call>
  {
    if !s.instrument then []
    else
      AutoRumCalls(s)
      + (if !HtmlCandidate(s, request, contentType) then []
         else [GetContent] + (if body == "" then [] else RewriteCalls(s, body, header, footer)))
  }

  /** Every call `onKernelResponse` makes, in order, given the listener's switches, the
      buffered data, the request, the response's content type and body, and the snippets
      the agent hands out. */
  function ResponseCalls(s: Settings, b: Buffers, request: Request, contentType: string, body: string,
                         header: string, footer: string): seq<Call>
  {
    if request.kind == SubRequest then []
    else FlushCalls(s, b) + EndCalls(s) + InstrumentCalls(s, request, contentType, body, header, footer)
  }

  /** The response body after `onKernelResponse`. */
  function ResponseBody(s: Settings, request: Request, contentType: string, body: string,
                        header: string, footer: string): string
  {
    if request.kind == MainRequest && Rewrites(s, request, contentType, body) then SplicedBody(s, body, header, footer)
    else body
  }

  class ResponseListener {
    const recorder: Recorder
    const config: Config
    const interactor: Interactor
    const instrument: bool
    const symfonyCache: bool
    const extension: Option<TwigExtension>

    /** All collaborators record into the listener's log. */
    predicate Valid() {
      config.recorder == recorder && interactor.recorder == recorder
      && (extension.Some? ==> extension.value.recorder == recorder)
    }

    constructor (config: Config, interactor: Interactor, instrument: bool, symfonyCache: bool,
                 extension: Option<TwigExtension>)
      requires interactor.recorder == config.recorder
      requires extension.Some? ==> extension.value.recorder == config.recorder
      ensures Valid() && recorder == config.recorder
      ensures this.config == config && this.interactor == interactor && this.extension == extension
      ensures this.instrument == instrument && this.symfonyCache == symfonyCache
    {
      this.recorder := config.recorder;
      this.config := config;
      this.interactor := interactor;
      this.instrument := instrument;
      this.symfonyCache := symfonyCache;
      this.extension := extension;
    }

    function Switches(): Settings {
      Settings(instrument, symfonyCache,
               if extension.Some? then Some(Twig(extension.value.used, extension.value.headerCalled, extension.value.footerCalled))
               else None)
    }

    function Buffered(): Buffers {
      Buffers(config.customMetrics, config.customParameters, config.customEvents)
    }

    method OnKernelResponse(request: Request, response: Response)
      requires Valid() && response.recorder == recorder
      modifies recorder, response
      ensures recorder.log == old(recorder.log)
        + ResponseCalls(Switches(), Buffered(), request, response.contentType, old(response.content),
                        interactor.timingHeader, interactor.timingFooter)
      ensures response.content
        == ResponseBody(Switches(), request, response.contentType, old(response.content),
                        interactor.timingHeader, interactor.timingFooter)
    {
      if request.kind == SubRequest {
        return;
      }
      ghost var s, b := Switches(), Buffered();
      ghost var body := response.content;
      ghost var instrumentCalls := InstrumentCalls(s, request, response.contentType, body, interactor.timingHeader, interactor.timingFooter);
      Flush();
      ghost var log1 := recorder.log;
      if symfonyCache {
        interactor.EndTransaction();
      }
      assert recorder.log == log1 + EndCalls(s);
      if instrument {
        InstrumentPage(request, response);
      } else {
        assert instrumentCalls == [];
      }
      assert recorder.log == log1 + EndCalls(s) + instrumentCalls;
      AppendAssoc3(old(recorder.log), FlushCalls(s, b), EndCalls(s), instrumentCalls);
    }

    /** Forwards every buffered entry to the agent, one call per entry, in buffer order;
        metrics and parameters only when the template did not use the extension. */
    method Flush()
      requires Valid()
      modifies recorder
      ensures recorder.log == old(recorder.log) + FlushCalls(Switches(), Buffered())
    {
      ghost var s, b := Switches(), Buffered();
      var used := false;
      if extension.Some? {
        used := extension.value.IsUsed();
      }
      ghost var log1 := recorder.log;
      assert log1 == old(recorder.log) + Query(s, IsUsed);
      if !used {
        var metrics := config.GetCustomMetrics();
        FlushMetrics(metrics);
        var parameters := config.GetCustomParameters();
        FlushParameters(parameters);
      }
      ghost var middle := if TwigUsed(s) then []
        else [GetCustomMetrics] + MetricCalls(b.metrics) + [GetCustomParameters] + ParameterCalls(b.parameters);
      assert recorder.log == log1 + middle;
      var events := config.GetCustomEvents();
      FlushEvents(events);
      assert recorder.log == log1 + middle + [GetCustomEvents] + EventCalls(b.events);
      AppendAssoc(old(recorder.log), Query(s, IsUsed), middle, [GetCustomEvents], EventCalls(b.events));
    }

    method FlushMetrics(metrics: seq<(string, Payload)>)
      requires Valid()
      modifies recorder
      ensures recorder.log == old(recorder.log) + MetricCalls(metrics)
    {
      var i := 0;
      while i < |metrics|
        invariant 0 <= i <= |metrics|
        invariant recorder.log == old(recorder.log) + MetricCalls(metrics[..i])
      {
        interactor.AddCustomMetric(metrics[i].0, metrics[i].1);
        assert metrics[..i + 1][..i] == metrics[..i];
        i := i + 1;
      }
      assert metrics[..i] == metrics;
    }

    method FlushParameters(parameters: seq<(string, Payload)>)
      requires Valid()
      modifies recorder
      ensures recorder.log == old(recorder.log) + ParameterCalls(parameters)
    {
      var i := 0;
      while i < |parameters|
        invariant 0 <= i <= |parameters|
        invariant recorder.log == old(recorder.log) + ParameterCalls(parameters[..i])
      {
        interactor.AddCustomParameter(parameters[i].0, parameters[i].1);
        assert parameters[..i + 1][..i] == parameters[..i];
        i := i + 1;
      }
      assert parameters[..i] == parameters;
    }

    method FlushEvents(events: seq<(string, seq<Attributes>)>)
      requires Valid()
      modifies recorder
      ensures recorder.log == old(recorder.log) + EventCalls(events)
    {
      var i := 0;
      while i < |events|
        invariant 0 <= i <= |events|
        invariant recorder.log == old(recorder.log) + EventCalls(events[..i])
      {
        FlushInstances(events[i].0, events[i].1);
        assert events[..i + 1][..i] == events[..i];
        i := i + 1;
      }
      assert events[..i] == events;
    }

    method FlushInstances(eventType: string, instances: seq<Attributes>)
      requires Valid()
      modifies recorder
      ensures recorder.log == old(recorder.log) + InstanceCalls(eventType, instances)
    {
      var k := 0;
      while k < |instances|
        invariant 0 <= k <= |instances|
        invariant recorder.log == old(recorder.log) + InstanceCalls(eventType, instances[..k])
      {
        interactor.AddCustomEvent(eventType, instances[k]);
        assert instances[..k + 1][..k] == instances[..k];
        k := k + 1;
      }
      assert instances[..k] == instances;
    }

    /** Turns the agent's own page instrumentation off unless the template handles it,
        then rewrites the body of an HTML response when the request allows it. */
    method InstrumentPage(request: Request, response: Response)
      requires Valid() && response.recorder == recorder && instrument && request.kind == MainRequest
      modifies recorder, response
      ensures recorder.log == old(recorder.log)
        + InstrumentCalls(Switches(), request, response.contentType, old(response.content),
                          interactor.timingHeader, interactor.timingFooter)
      ensures response.content
        == ResponseBody(Switches(), request, response.contentType, old(response.content),
                        interactor.timingHeader, interactor.timingFooter)
    {
      ghost var s, body := Switches(), response.content;
      ghost var header, footer := interactor.timingHeader, interactor.timingFooter;
      ghost var tail := if !HtmlCandidate(s, request, response.contentType) then []
        else [GetContent] + (if body == "" then [] else RewriteCalls(s, body, header, footer));
      assert InstrumentCalls(s, request, response.contentType, body, header, footer) == AutoRumCalls(s) + tail;
      TurnOffAutoRum();
      ghost var log1 := recorder.log;
      if request.instrument.GetOr(true) && Html.IsHtml(response.contentType) {
        RewriteBody(response);
      } else {
        assert recorder.log == log1 + tail;
      }
      AppendAssoc2(old(recorder.log), AutoRumCalls(s), tail);
    }

    /** Reads the body and, when it is not empty, clears it and writes the spliced body. */
    method RewriteBody(response: Response)
      requires Valid() && response.recorder == recorder
      modifies recorder, response
      ensures recorder.log == old(recorder.log) + [GetContent]
        + (if old(response.content) == "" then []
           else RewriteCalls(Switches(), old(response.content), interactor.timingHeader, interactor.timingFooter))
      ensures response.content
        == if old(response.content) == "" then old(response.content)
           else SplicedBody(Switches(), old(response.content), interactor.timingHeader, interactor.timingFooter)
    {
      var body := response.GetContent();
      if body == "" {
        return;
      }
      ghost var log1 := recorder.log;
      response.SetContent("");
      var spliced := Splice(body);
      response.SetContent(spliced);
      assert recorder.log == log1 + RewriteCalls(Switches(), body, interactor.timingHeader, interactor.timingFooter);
    }

    method TurnOffAutoRum()
      requires Valid()
      modifies recorder
      ensures recorder.log == old(recorder.log) + AutoRumCalls(Switches())
    {
      var used := false;
      if extension.Some? {
        used := extension.value.IsUsed();
      }
      if !used {
        interactor.DisableAutoRUM();
      }
    }

    /** The header pass, then the footer pass, each with a snippet fetched from the agent
        unless the template already rendered it. */
    method Splice(body: string) returns (spliced: string)
      requires Valid()
      modifies recorder
      ensures spliced == SplicedBody(Switches(), body, interactor.timingHeader, interactor.timingFooter)
      ensures recorder.log == old(recorder.log) + SnippetCalls(Switches())
    {
      var headerCalled := false;
      if extension.Some? {
        headerCalled := extension.value.IsHeaderCalled();
      }
      var withHeader := body;
      if !headerCalled {
        var header := interactor.GetBrowserTimingHeader();
        withHeader := Html.InjectHeader(body, header);
      }
      var footerCalled := false;
      if extension.Some? {
        footerCalled := extension.value.IsFooterCalled();
      }
      spliced := withHeader;
      if !footerCalled {
        var footer := interactor.GetBrowserTimingFooter();
        spliced := Html.InjectFooter(withHeader, footer);
      }
    }
  }
}

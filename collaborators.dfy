/** The collaborators the listeners are given: the APM interactor, the configuration that
    buffers custom data, the template extension and the transaction naming strategy. Each
    is a double that records every call made on it in the shared log and answers with the
    values it was built with; the real agent, templating engine and naming algorithm are
    not part of this model. */
module Collaborators {
  import opened Wrappers
  import opened Calls
  import opened Kernel

  class Interactor {
    const recorder: Recorder
    const timingHeader: string
    const timingFooter: string

    constructor (recorder: Recorder, timingHeader: string, timingFooter: string)
      ensures this.recorder == recorder
      ensures this.timingHeader == timingHeader && this.timingFooter == timingFooter
    {
      this.recorder := recorder;
      this.timingHeader := timingHeader;
      this.timingFooter := timingFooter;
    }

    method SetApplicationName(appName: string, licenseKey: string)
      modifies recorder
      ensures recorder.log == old(recorder.log) + [Call.SetApplicationName(appName, licenseKey)]
    {
      recorder.Record(Call.SetApplicationName(appName, licenseKey));
    }

    method StartTransaction(appName: string)
      modifies recorder
      ensures recorder.log == old(recorder.log) + [Call.StartTransaction(appName)]
    {
      recorder.Record(Call.StartTransaction(appName));
    }

    method SetTransactionName(name: string)
      modifies recorder
      ensures recorder.log == old(recorder.log) + [Call.SetTransactionName(name)]
    {
      recorder.Record(Call.SetTransactionName(name));
    }

    method IgnoreTransaction()
      modifies recorder
      ensures recorder.log == old(recorder.log) + [Call.IgnoreTransaction]
    {
      recorder.Record(Call.IgnoreTransaction);
    }

    method EndTransaction()
      modifies recorder
      ensures recorder.log == old(recorder.log) + [Call.EndTransaction]
    {
      recorder.Record(Call.EndTransaction);
    }

    method AddCustomMetric(name: string, value: Payload)
      modifies recorder
      ensures recorder.log == old(recorder.log) + [Call.AddCustomMetric(name, value)]
    {
      recorder.Record(Call.AddCustomMetric(name, value));
    }

    method AddCustomParameter(name: string, value: Payload)
      modifies recorder
      ensures recorder.log == old(recorder.log) + [Call.AddCustomParameter(name, value)]
    {
      recorder.Record(Call.AddCustomParameter(name, value));
    }

    method AddCustomEvent(eventType: string, attributes: Attributes)
      modifies recorder
      ensures recorder.log == old(recorder.log) + [Call.AddCustomEvent(eventType, attributes)]
    {
      recorder.Record(Call.AddCustomEvent(eventType, attributes));
    }

    method DisableAutoRUM()
      modifies recorder
      ensures recorder.log == old(recorder.log) + [Call.DisableAutoRUM]
    {
      recorder.Record(Call.DisableAutoRUM);
    }

    method GetBrowserTimingHeader() returns (header: string)
      modifies recorder
      ensures header == timingHeader
      ensures recorder.log == old(recorder.log) + [Call.GetBrowserTimingHeader]
    {
      recorder.Record(Call.GetBrowserTimingHeader);
      header := timingHeader;
    }

    method GetBrowserTimingFooter() returns (footer: string)
      modifies recorder
      ensures footer == timingFooter
      ensures recorder.log == old(recorder.log) + [Call.GetBrowserTimingFooter]
    {
      recorder.Record(Call.GetBrowserTimingFooter);
      footer := timingFooter;
    }
  }

  /** Application name, licence key and the custom data buffered while the request was
      handled, each buffer in insertion order. */
  class Config {
    const recorder: Recorder
    const name: string
    const licenseKey: string
    const customMetrics: seq<(string, Payload)>
    const customParameters: seq<(string, Payload)>
    const customEvents: seq<(string, seq<Attributes>)>

    constructor (recorder: Recorder, name: string, licenseKey: string,
                 customMetrics: seq<(string, Payload)>, customParameters: seq<(string, Payload)>,
                 customEvents: seq<(string, seq<Attributes>)>)
      ensures this.recorder == recorder && this.name == name && this.licenseKey == licenseKey
      ensures this.customMetrics == customMetrics && this.customParameters == customParameters
      ensures this.customEvents == customEvents
    {
      this.recorder := recorder;
      this.name := name;
      this.licenseKey := licenseKey;
      this.customMetrics := customMetrics;
      this.customParameters := customParameters;
      this.customEvents := customEvents;
    }

    method GetCustomMetrics() returns (metrics: seq<(string, Payload)>)
      modifies recorder
      ensures metrics == customMetrics
      ensures recorder.log == old(recorder.log) + [Call.GetCustomMetrics]
    {
      recorder.Record(Call.GetCustomMetrics);
      metrics := customMetrics;
    }

    method GetCustomParameters() returns (parameters: seq<(string, Payload)>)
      modifies recorder
      ensures parameters == customParameters
      ensures recorder.log == old(recorder.log) + [Call.GetCustomParameters]
    {
      recorder.Record(Call.GetCustomParameters);
      parameters := customParameters;
    }

    method GetCustomEvents() returns (events: seq<(string, seq<Attributes>)>)
      modifies recorder
      ensures events == customEvents
      ensures recorder.log == old(recorder.log) + [Call.GetCustomEvents]
    {
      recorder.Record(Call.GetCustomEvents);
      events := customEvents;
    }
  }

  /** What the template extension reports: whether its functions were used in the page
      template, and whether the header and footer snippets were already rendered there. */
  class TwigExtension {
    const recorder: Recorder
    const used: bool
    const headerCalled: bool
    const footerCalled: bool

    constructor (recorder: Recorder, used: bool, headerCalled: bool, footerCalled: bool)
      ensures this.recorder == recorder && this.used == used
      ensures this.headerCalled == headerCalled && this.footerCalled == footerCalled
    {
      this.recorder := recorder;
      this.used := used;
      this.headerCalled := headerCalled;
      this.footerCalled := footerCalled;
    }

    method IsUsed() returns (b: bool)
      modifies recorder
      ensures b == used && recorder.log == old(recorder.log) + [Call.IsUsed]
    {
      recorder.Record(Call.IsUsed);
      b := used;
    }

    method IsHeaderCalled() returns (b: bool)
      modifies recorder
      ensures b == headerCalled && recorder.log == old(recorder.log) + [Call.IsHeaderCalled]
    {
      recorder.Record(Call.IsHeaderCalled);
      b := headerCalled;
    }

    method IsFooterCalled() returns (b: bool)
      modifies recorder
      ensures b == footerCalled && recorder.log == old(recorder.log) + [Call.IsFooterCalled]
    {
      recorder.Record(Call.IsFooterCalled);
      b := footerCalled;
    }
  }

  /** A pluggable strategy that derives a transaction name from the request; its algorithm
      is left uninterpreted as the function `naming`. */
  class NamingStrategy {
    const recorder: Recorder
    const naming: Request -> string

    constructor (recorder: Recorder, naming: Request -> string)
      ensures this.recorder == recorder && this.naming == naming
    {
      this.recorder := recorder;
      this.naming := naming;
    }

    method GetTransactionName(request: Request) returns (name: string)
      modifies recorder
      ensures name == naming(request)
      ensures recorder.log == old(recorder.log) + [Call.GetTransactionName]
    {
      recorder.Record(Call.GetTransactionName);
      name := naming(request);
    }
  }
}

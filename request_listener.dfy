/** The listener on the kernel's request event: it names the application and the
    transaction, decides whether the transaction is ignored, and opens the transaction
    itself when an HTTP cache sits in front of the application. Every one of its three
    handlers does nothing for a sub-request. */
module RequestListener {
  import opened Wrappers
  import opened Calls
  import opened Kernel
  import opened Collaborators

  /** The request's route is on the ignored-route list or its path is on the ignored-path
      list, by exact membership; a request without a route matches no route. */
  predicate IsIgnored(ignoredRoutes: seq<string>, ignoredPaths: seq<string>, request: Request) {
    (request.route.Some? && request.route.value in ignoredRoutes) || request.path in ignoredPaths
  }

  /** The calls `setApplicationName` makes. */
  function ApplicationNameCalls(appName: string, licenseKey: string, symfonyCache: bool, request: Request): seq<Call> {
    if request.kind == SubRequest then []
    else (if symfonyCache then [StartTransaction(appName)] else []) + [SetApplicationName(appName, licenseKey)]
  }

  /** The calls `setTransactionName` makes. */
  function TransactionNameCalls(naming: Request -> string, request: Request): seq<Call> {
    if request.kind == SubRequest then []
    else [GetTransactionName, SetTransactionName(naming(request))]
  }

  /** The calls `setIgnoreTransaction` makes. */
  function IgnoreCalls(ignoredRoutes: seq<string>, ignoredPaths: seq<string>, request: Request): seq<Call> {
    if request.kind == SubRequest then []
    else if IsIgnored(ignoredRoutes, ignoredPaths, request) then [IgnoreTransaction]
    else []
  }

  class RequestListener {
    const recorder: Recorder
    const config: Config
    const interactor: Interactor
    const ignoredRoutes: seq<string>
    const ignoredPaths: seq<string>
    const namingStrategy: NamingStrategy
    const symfonyCache: bool

    /** All collaborators record into the listener's log. */
    predicate Valid() {
      config.recorder == recorder && interactor.recorder == recorder && namingStrategy.recorder == recorder
    }

    constructor (config: Config, interactor: Interactor, ignoredRoutes: seq<string>, ignoredPaths: seq<string>,
                 namingStrategy: NamingStrategy, symfonyCache: bool)
      requires interactor.recorder == config.recorder && namingStrategy.recorder == config.recorder
      ensures Valid() && recorder == config.recorder
      ensures this.config == config && this.interactor == interactor && this.namingStrategy == namingStrategy
      ensures this.ignoredRoutes == ignoredRoutes && this.ignoredPaths == ignoredPaths
      ensures this.symfonyCache == symfonyCache
    {
      this.recorder := config.recorder;
      this.config := config;
      this.interactor := interactor;
      this.ignoredRoutes := ignoredRoutes;
      this.ignoredPaths := ignoredPaths;
      this.namingStrategy := namingStrategy;
      this.symfonyCache := symfonyCache;
    }

    method SetApplicationName(request: Request)
      requires Valid()
      modifies recorder
      ensures recorder.log == old(recorder.log) + ApplicationNameCalls(config.name, config.licenseKey, symfonyCache, request)
    {
      if request.kind == SubRequest {
        return;
      }
      var appName := config.name;
      if symfonyCache {
        interactor.StartTransaction(appName);
      }
      interactor.SetApplicationName(appName, config.licenseKey);
    }

    method SetTransactionName(request: Request)
      requires Valid()
      modifies recorder
      ensures recorder.log == old(recorder.log) + TransactionNameCalls(namingStrategy.naming, request)
    {
      if request.kind == SubRequest {
        return;
      }
      var name := namingStrategy.GetTransactionName(request);
      interactor.SetTransactionName(name);
    }

    method SetIgnoreTransaction(request: Request)
      requires Valid()
      modifies recorder
      ensures recorder.log == old(recorder.log) + IgnoreCalls(ignoredRoutes, ignoredPaths, request)
    {
      if request.kind == SubRequest {
        return;
      }
      if IsIgnored(ignoredRoutes, ignoredPaths, request) {
        interactor.IgnoreTransaction();
      }
    }
  }

  // ---------------------------------------------------------------------------
  // What the handlers promise

  /** A sub-request produces no call at all from any of the three handlers. */
  lemma SubRequestSilent(appName: string, licenseKey: string, symfonyCache: bool, naming: Request -> string,
                         ignoredRoutes: seq<string>, ignoredPaths: seq<string>, request: Request)
    requires request.kind == SubRequest
    ensures ApplicationNameCalls(appName, licenseKey, symfonyCache, request) == []
    ensures TransactionNameCalls(naming, request) == []
    ensures IgnoreCalls(ignoredRoutes, ignoredPaths, request) == []
  {
  }

  /** On a main request the application name is set exactly once, and the transaction is
      started, once and under the application name, exactly when the cache flag is set. */
  lemma ApplicationNamed(appName: string, licenseKey: string, symfonyCache: bool, request: Request)
    ensures Count(ApplicationNameCalls(appName, licenseKey, symfonyCache, request), SetApplicationName(appName, licenseKey))
         == (if request.kind == MainRequest then 1 else 0)
    ensures Count(ApplicationNameCalls(appName, licenseKey, symfonyCache, request), StartTransaction(appName))
         == (if request.kind == MainRequest && symfonyCache then 1 else 0)
    ensures TransactionsStarted(ApplicationNameCalls(appName, licenseKey, symfonyCache, request))
         == (if request.kind == MainRequest && symfonyCache then [appName] else [])
  {
    if request.kind == MainRequest {
      var start: seq<Call> := if symfonyCache then [StartTransaction(appName)] else [];
      var named := [SetApplicationName(appName, licenseKey)];
      ProjectConcat(start, named, AsStart);
      CountConcat(start, named, SetApplicationName(appName, licenseKey));
      CountConcat(start, named, StartTransaction(appName));
      CountSingle(SetApplicationName(appName, licenseKey), SetApplicationName(appName, licenseKey));
      CountSingle(SetApplicationName(appName, licenseKey), StartTransaction(appName));
      CountSingle(StartTransaction(appName), SetApplicationName(appName, licenseKey));
      CountSingle(StartTransaction(appName), StartTransaction(appName));
    }
  }

  /** On a main request the naming strategy is consulted exactly once and its answer is
      the one transaction name set; a sub-request sets none. */
  lemma TransactionNamed(naming: Request -> string, request: Request)
    ensures Count(TransactionNameCalls(naming, request), GetTransactionName)
         == (if request.kind == MainRequest then 1 else 0)
    ensures TransactionNamesSet(TransactionNameCalls(naming, request))
         == (if request.kind == MainRequest then [naming(request)] else [])
  {
    if request.kind == MainRequest {
      ProjectConcat([GetTransactionName], [SetTransactionName(naming(request))], AsTransactionName);
      CountConcat([GetTransactionName], [SetTransactionName(naming(request))], GetTransactionName);
      CountSingle(GetTransactionName, GetTransactionName);
      CountSingle(SetTransactionName(naming(request)), GetTransactionName);
    }
  }

  /** `ignoreTransaction` is called exactly once when a main request's route or path is
      listed, and never otherwise. */
  lemma IgnoredIff(ignoredRoutes: seq<string>, ignoredPaths: seq<string>, request: Request)
    ensures Count(IgnoreCalls(ignoredRoutes, ignoredPaths, request), IgnoreTransaction)
         == (if request.kind == MainRequest && IsIgnored(ignoredRoutes, ignoredPaths, request) then 1 else 0)
  {
  }

  // ---------------------------------------------------------------------------
  // The cases of RequestListenerTest.php

  lemma ExampleIgnoredPath()
    ensures Count(IgnoreCalls([], ["/ignored_path"], Request(MainRequest, None, "/ignored_path", None)), IgnoreTransaction) == 1
  {
    IgnoredIff([], ["/ignored_path"], Request(MainRequest, None, "/ignored_path", None));
  }

  lemma ExampleIgnoredRoute()
    ensures Count(IgnoreCalls(["ignored_route"], [], Request(MainRequest, Some("ignored_route"), "/", None)), IgnoreTransaction) == 1
  {
    IgnoredIff(["ignored_route"], [], Request(MainRequest, Some("ignored_route"), "/", None));
  }

  lemma ExampleCacheFlag(request: Request)
    requires request.kind == MainRequest
    ensures Count(ApplicationNameCalls("App name", "Token", true, request), StartTransaction("App name")) == 1
    ensures TransactionsStarted(ApplicationNameCalls("App name", "Token", false, request)) == []
  {
    ApplicationNamed("App name", "Token", true, request);
    ApplicationNamed("App name", "Token", false, request);
  }
}

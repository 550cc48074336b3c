/** The observable behaviour of the listeners: the calls they make on their collaborators,
    recorded in order in one shared log, the way the test doubles of the bundle's listener
    tests observe them. */
module Calls {
  import opened Wrappers

  /** A metric value, parameter value or event attribute value, kept as its literal text:
      the listeners forward these values and never compute with them. */
  type Payload = string

  /** One custom event instance: its attributes in insertion order. */
  type Attributes = seq<(string, Payload)>

  datatype Call =
    // the APM interactor
    | SetApplicationName(appName: string, licenseKey: string)
    | StartTransaction(appName: string)
    | SetTransactionName(transactionName: string)
    | IgnoreTransaction
    | EndTransaction
    | AddCustomMetric(metricName: string, metricValue: Payload)
    | AddCustomParameter(parameterName: string, parameterValue: Payload)
    | AddCustomEvent(eventType: string, attributes: Attributes)
    | DisableAutoRUM
    | GetBrowserTimingHeader
    | GetBrowserTimingFooter
    // the configuration object that buffers custom data
    | GetCustomMetrics
    | GetCustomParameters
    | GetCustomEvents
    // the template extension
    | IsUsed
    | IsHeaderCalled
    | IsFooterCalled
    // the transaction naming strategy
    | GetTransactionName
    // the response
    | GetContent
    | SetContent(content: string)

  function Once(b: bool): nat {
    if b then 1 else 0
  }

  /** How many times exactly this call appears in a log. */
  function Count(log: seq<Call>, c: Call): nat {
    if log == [] then 0 else Once(log[0] == c) + Count(log[1..], c)
  }

  lemma {:induction false} CountConcat(a: seq<Call>, b: seq<Call>, c: Call)
    ensures Count(a + b, c) == Count(a, c) + Count(b, c)
  {
    if a == [] {
      assert a + b == b;
    } else {
      assert (a + b)[1..] == a[1..] + b;
      CountConcat(a[1..], b, c);
    }
  }

  lemma CountSingle(x: Call, c: Call)
    ensures Count([x], c) == Once(x == c)
  {
    assert [x][1..] == [];
  }

  /** The count agrees with the multiplicity in the log's multiset. */
  lemma {:induction false} CountIsMultiplicity(log: seq<Call>, c: Call)
    ensures Count(log, c) == multiset(log)[c]
  {
    if log != [] {
      assert log == [log[0]] + log[1..];
      CountIsMultiplicity(log[1..], c);
    }
  }

  lemma {:induction false} CountAbsent(log: seq<Call>, c: Call)
    requires c !in log
    ensures Count(log, c) == 0
  {
    if log != [] {
      assert forall x :: x in log[1..] ==> x in log;
      CountAbsent(log[1..], c);
    }
  }

  /** The arguments of the calls that `f` selects, in log order. */
  function Project<T>(log: seq<Call>, f: Call -> Option<T>): seq<T> {
    if log == [] then []
    else (match f(log[0]) case Some(x) => [x] case None => []) + Project(log[1..], f)
  }

  lemma {:induction false} ProjectConcat<T>(a: seq<Call>, b: seq<Call>, f: Call -> Option<T>)
    ensures Project(a + b, f) == Project(a, f) + Project(b, f)
  {
    if a == [] {
      assert a + b == b;
    } else {
      assert (a + b)[1..] == a[1..] + b;
      ProjectConcat(a[1..], b, f);
    }
  }

  lemma ProjectSingle<T>(c: Call, f: Call -> Option<T>)
    ensures Project([c], f) == match f(c) case Some(x) => [x] case None => []
  {
    assert [c][1..] == [];
  }

  /** A log none of whose calls `f` selects projects to nothing. */
  lemma {:induction false} ProjectNone<T>(log: seq<Call>, f: Call -> Option<T>)
    requires forall c :: c in log ==> f(c).None?
    ensures Project(log, f) == []
  {
    if log != [] {
      assert log[0] in log;
      assert forall c :: c in log[1..] ==> c in log;
      ProjectNone(log[1..], f);
    }
  }

  function AsMetric(c: Call): Option<(string, Payload)> {
    if c.AddCustomMetric? then Some((c.metricName, c.metricValue)) else None
  }

  function AsParameter(c: Call): Option<(string, Payload)> {
    if c.AddCustomParameter? then Some((c.parameterName, c.parameterValue)) else None
  }

  function AsEvent(c: Call): Option<(string, Attributes)> {
    if c.AddCustomEvent? then Some((c.eventType, c.attributes)) else None
  }

  function AsContent(c: Call): Option<string> {
    if c.SetContent? then Some(c.content) else None
  }

  function AsTransactionName(c: Call): Option<string> {
    if c.SetTransactionName? then Some(c.transactionName) else None
  }

  function AsStart(c: Call): Option<string> {
    if c.StartTransaction? then Some(c.appName) else None
  }

  /** The metrics, parameters and events reported to the agent, and the successive
      bodies written to the response, in the order of the log. */
  function MetricsSent(log: seq<Call>): seq<(string, Payload)> { Project(log, AsMetric) }
  function ParametersSent(log: seq<Call>): seq<(string, Payload)> { Project(log, AsParameter) }
  function EventsSent(log: seq<Call>): seq<(string, Attributes)> { Project(log, AsEvent) }
  function ContentsSet(log: seq<Call>): seq<string> { Project(log, AsContent) }
  function TransactionNamesSet(log: seq<Call>): seq<string> { Project(log, AsTransactionName) }
  function TransactionsStarted(log: seq<Call>): seq<string> { Project(log, AsStart) }

  /** The shared log every collaborator double appends to. */
  class Recorder {
    var log: seq<Call>

    constructor ()
      ensures log == []
    {
      log := [];
    }

    method Record(c: Call)
      modifies this
      ensures log == old(log) + [c]
    {
      log := log + [c];
    }
  }
}

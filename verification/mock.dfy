/** The in-memory stand-in for the backend that the tests run against: canned responses per
    endpoint, an ordered log of the requests made, and a switch that simulates a lost
    connection. Request and response bodies are serialised JSON, kept as opaque text. */
module Mock {
  import opened Wrappers
  import opened Errors

  /** One recorded request: where it went and its serialised body. */
  datatype Call = Call(endpoint: string, body: string)

  datatype MockState = MockState(responses: map<string, string>, log: seq<Call>, disconnected: bool)

  /** `MockIpcClient::new`: no responses, no calls, connected. */
  const Fresh := MockState(map[], [], false)

  /** Why one of the mock's assertions panics: the endpoint that was never called, or the
      calls that were made when none were expected. */
  datatype AssertionFailure = NeverCalled(endpoint: string) | UnexpectedCalls(calls: seq<Call>)

  /** `when_called`: the endpoint now answers with `response`, replacing any earlier one. */
  function WhenCalled(s: MockState, endpoint: string, response: string): (t: MockState)
    ensures endpoint in t.responses && t.responses[endpoint] == response
    ensures forall e :: e in s.responses && e != endpoint ==> e in t.responses && t.responses[e] == s.responses[e]
    ensures forall e :: e in t.responses ==> e == endpoint || e in s.responses
    ensures t.log == s.log && t.disconnected == s.disconnected
  {
    s.(responses := s.responses[endpoint := response])
  }

  /** `set_disconnected`. */
  function SetDisconnected(s: MockState, disconnected: bool): (t: MockState)
    ensures t.disconnected == disconnected
    ensures t.responses == s.responses && t.log == s.log
  {
    s.(disconnected := disconnected)
  }

  /** The bodies of the calls made to `endpoint`, oldest first. */
  function BodiesFor(log: seq<Call>, endpoint: string): (r: seq<string>)
    ensures |r| <= |log|
    ensures forall b :: b in r <==> Call(endpoint, b) in log
  {
    if log == [] then []
    else
      var last := log[|log| - 1];
      var earlier := BodiesFor(log[..|log| - 1], endpoint);
      assert log == log[..|log| - 1] + [last];
      earlier + (if last.endpoint == endpoint then [last.body] else [])
  }

  /** Filtering a log by endpoint commutes with concatenating logs, so bodies come out in call
      order. */
  lemma {:induction false} BodiesForAppend(a: seq<Call>, b: seq<Call>, endpoint: string)
    ensures BodiesFor(a + b, endpoint) == BodiesFor(a, endpoint) + BodiesFor(b, endpoint)
  {
    if b == [] {
      assert a + b == a;
    } else {
      var n := |b| - 1;
      var tail := if b[n].endpoint == endpoint then [b[n].body] else [];
      BodiesForAppend(a, b[..n], endpoint);
      assert (a + b)[..|a + b| - 1] == a + b[..n];
      assert (a + b)[|a + b| - 1] == b[n];
      assert BodiesFor(a + b, endpoint) == BodiesFor(a + b[..n], endpoint) + tail;
      assert BodiesFor(b, endpoint) == BodiesFor(b[..n], endpoint) + tail;
    }
  }

  /** `requests_to`. */
  function RequestsTo(s: MockState, endpoint: string): (r: seq<string>)
    ensures forall b :: b in r <==> Call(endpoint, b) in s.log
  {
    BodiesFor(s.log, endpoint)
  }

  /** `assert_called`: passes exactly when some call went to `endpoint`. */
  function AssertCalled(s: MockState, endpoint: string): (r: Result<(), AssertionFailure>)
    ensures r.Ok? <==> exists b :: Call(endpoint, b) in s.log
    ensures r.Err? ==> r.error == NeverCalled(endpoint)
  {
    var calls := RequestsTo(s, endpoint);
    if calls != [] then
      assert Call(endpoint, calls[0]) in s.log;
      Ok(())
    else Err(NeverCalled(endpoint))
  }

  /** `assert_no_calls`: passes exactly when the log is empty; the failure shows the log. */
  function AssertNoCalls(s: MockState): (r: Result<(), AssertionFailure>)
    ensures r.Ok? <==> |s.log| == 0
    ensures r.Err? ==> r.error == UnexpectedCalls(s.log)
  {
    if s.log == [] then Ok(()) else Err(UnexpectedCalls(s.log))
  }

  /** `request`: a disconnected mock fails before anything is recorded; otherwise the call is
      logged first and then answered from the configured responses, so a call to an
      unconfigured endpoint is both recorded and failed. The answer is the stored body. */
  function Request(s: MockState, endpoint: string, body: string): (out: (MockState, Result<string, IpcError>))
    ensures s.disconnected ==> out.0 == s && out.1 == Err(NotConnected)
    ensures !s.disconnected ==> out.0 == s.(log := s.log + [Call(endpoint, body)])
    ensures !s.disconnected && endpoint in s.responses ==> out.1 == Ok(s.responses[endpoint])
    ensures !s.disconnected && endpoint !in s.responses ==>
      out.1 == Err(RequestFailed("No mock response for " + endpoint))
  {
    if s.disconnected then (s, Err(NotConnected))
    else
      var t := s.(log := s.log + [Call(endpoint, body)]);
      if endpoint in t.responses then (t, Ok(t.responses[endpoint]))
      else (t, Err(RequestFailed("No mock response for " + endpoint)))
  }

  /** `health_check`. */
  function HealthCheck(s: MockState): (r: Result<(), IpcError>)
    ensures r.Ok? <==> !s.disconnected
    ensures r.Err? ==> r.error == NotConnected
  {
    if s.disconnected then Err(NotConnected) else Ok(())
  }

  /** A connected request adds its body to the end of its own endpoint's history and leaves
      every other endpoint's history alone; a disconnected one changes no history. */
  lemma RequestRecordsInOrder(s: MockState, endpoint: string, body: string, other: string)
    ensures !s.disconnected ==>
      RequestsTo(Request(s, endpoint, body).0, endpoint) == RequestsTo(s, endpoint) + [body]
    ensures !s.disconnected && other != endpoint ==>
      RequestsTo(Request(s, endpoint, body).0, other) == RequestsTo(s, other)
    ensures s.disconnected ==>
      RequestsTo(Request(s, endpoint, body).0, other) == RequestsTo(s, other)
  {
    BodiesForAppend(s.log, [Call(endpoint, body)], endpoint);
    BodiesForAppend(s.log, [Call(endpoint, body)], other);
    assert [Call(endpoint, body)][..0] == [];
  }

  /** The tests' scenarios: a configured endpoint answers with its response and records the
      call; a disconnected mock fails health checks and requests alike. */
  lemma ConfiguredEndpointScenario(endpoint: string, response: string, body: string)
    ensures var s := WhenCalled(Fresh, endpoint, response);
      var (t, r) := Request(s, endpoint, body);
      r == Ok(response) && AssertCalled(t, endpoint).Ok? && RequestsTo(t, endpoint) == [body]
      && AssertNoCalls(s).Ok? && AssertNoCalls(t).Err?
  {
    var s := WhenCalled(Fresh, endpoint, response);
    RequestRecordsInOrder(s, endpoint, body, endpoint);
    assert RequestsTo(s, endpoint) == [];
  }

  /** A request to an endpoint nobody configured is recorded before it fails. */
  lemma UnconfiguredEndpointRecorded(s: MockState, endpoint: string, body: string)
    requires !s.disconnected && endpoint !in s.responses
    ensures Request(s, endpoint, body).1 == Err(RequestFailed("No mock response for " + endpoint))
    ensures AssertCalled(Request(s, endpoint, body).0, endpoint).Ok?
  {
    assert Call(endpoint, body) in Request(s, endpoint, body).0.log;
  }

  /** `requests_to` as the Rust code computes it, one pass over the log keeping the matching
      bodies. */
  method CollectRequests(s: MockState, endpoint: string) returns (bodies: seq<string>)
    ensures bodies == RequestsTo(s, endpoint)
  {
    var log := s.log;
    bodies := [];
    var i := 0;
    while i < |log|
      invariant 0 <= i <= |log|
      invariant bodies == BodiesFor(log[..i], endpoint)
    {
      assert log[..i + 1][..i] == log[..i];
      if log[i].endpoint == endpoint {
        bodies := bodies + [log[i].body];
      }
      i := i + 1;
    }
    assert log[..|log|] == log;
  }
}

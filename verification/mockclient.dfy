/** `MockIpcClient` as one mutable object over `Mock.MockState`. The Rust code guards each of its
    three fields with a lock so tests can share the client; here the fields are a single
    sequentially updated value and every method is the matching pure transition. */
module MockClient {
  import opened Wrappers
  import opened Errors
  import Mock

  class MockIpcClient {
    var state: Mock.MockState

    constructor ()
      ensures state == Mock.Fresh
    {
      state := Mock.Fresh;
    }

    method WhenCalled(endpoint: string, response: string)
      modifies this
      ensures state == Mock.WhenCalled(old(state), endpoint, response)
    {
      state := Mock.WhenCalled(state, endpoint, response);
    }

    method SetDisconnected(disconnected: bool)
      modifies this
      ensures state == Mock.SetDisconnected(old(state), disconnected)
    {
      state := Mock.SetDisconnected(state, disconnected);
    }

    method RequestsTo(endpoint: string) returns (bodies: seq<string>)
      ensures bodies == Mock.RequestsTo(state, endpoint)
      ensures forall b :: b in bodies <==> Mock.Call(endpoint, b) in state.log
    {
      bodies := Mock.CollectRequests(state, endpoint);
    }

    method Request(endpoint: string, body: string) returns (r: Result<string, IpcError>)
      modifies this
      ensures (state, r) == Mock.Request(old(state), endpoint, body)
    {
      var out := Mock.Request(state, endpoint, body);
      state := out.0;
      r := out.1;
    }

    method HealthCheck() returns (r: Result<(), IpcError>)
      ensures r == Mock.HealthCheck(state)
      ensures r.Ok? <==> !state.disconnected
      ensures r.Err? ==> r.error == NotConnected
    {
      r := Mock.HealthCheck(state);
    }
  }

  /** The request-recording test of `src/ipc/mock.rs`, driven through the object: configure
      an answer, call, then read the answer and the recorded body back. */
  method ConfiguredResponseScenario() returns (r: Result<string, IpcError>, bodies: seq<string>)
    ensures r == Ok("{\"status\":\"ok\"}")
    ensures bodies == ["{\"id\":\"abc\"}"]
  {
    var client := new MockIpcClient();
    client.WhenCalled("/test", "{\"status\":\"ok\"}");
    r := client.Request("/test", "{\"id\":\"abc\"}");
    Mock.RequestRecordsInOrder(Mock.WhenCalled(Mock.Fresh, "/test", "{\"status\":\"ok\"}"),
      "/test", "{\"id\":\"abc\"}", "/test");
    bodies := Mock.CollectRequests(client.state, "/test");
  }
}

/** The status and messaging tools: the validators run on agent input, and how each tool
    turns the backend's reply into its own result. The backend call itself is an input: the
    reply it produced, or the transport error it failed with. */
module Status {
  import opened Wrappers
  import opened Text
  import opened Errors
  import opened Messages
  import Validation

  // ===== Validators =====

  const Statuses: seq<string> := ["working", "thinking", "waiting", "idle", "complete"]
  const AgentStatuses: seq<string> := ["active", "awaiting_response", "blocked", "idle"]
  const ImpedimentTypes: seq<string> :=
    ["missing_information", "permission_needed", "technical_error", "unclear_requirements", "dependency_blocked", "other"]
  const EndRunReasons: seq<string> := ["completed", "scope_changed", "pause_requested", "error"]
  const EndResponses: seq<string> := ["agree", "disagree", "verify"]

  /** `validate_status`. */
  function ValidateStatus(status: string): (r: Result<(), string>)
    ensures r.Ok? <==> status in {"working", "thinking", "waiting", "idle", "complete"}
    ensures r.Err? ==> StartsWith(r.error, "Invalid status '" + status + "'")
    ensures r.Err? ==> forall i :: 0 <= i < |Statuses| ==> Contains(r.error, Statuses[i])
  {
    assert "Invalid " + "status" + " '" == "Invalid status '";
    Validation.OneOf(status, Statuses, "status")
  }

  /** `validate_agent_status`. */
  function ValidateAgentStatus(status: string): (r: Result<(), string>)
    ensures r.Ok? <==> status in {"active", "awaiting_response", "blocked", "idle"}
    ensures r.Err? ==> StartsWith(r.error, "Invalid agent status '" + status + "'")
    ensures r.Err? ==> forall i :: 0 <= i < |AgentStatuses| ==> Contains(r.error, AgentStatuses[i])
  {
    assert "Invalid " + "agent status" + " '" == "Invalid agent status '";
    Validation.OneOf(status, AgentStatuses, "agent status")
  }

  /** `validate_impediment_type`. */
  function ValidateImpedimentType(impedimentType: string): (r: Result<(), string>)
    ensures r.Ok? <==>
      impedimentType in {"missing_information", "permission_needed", "technical_error",
                         "unclear_requirements", "dependency_blocked", "other"}
    ensures r.Err? ==> StartsWith(r.error, "Invalid impediment type '" + impedimentType + "'")
    ensures r.Err? ==> forall i :: 0 <= i < |ImpedimentTypes| ==> Contains(r.error, ImpedimentTypes[i])
  {
    assert "Invalid " + "impediment type" + " '" == "Invalid impediment type '";
    Validation.OneOf(impedimentType, ImpedimentTypes, "impediment type")
  }

  /** `validate_end_run_reason`. */
  function ValidateEndRunReason(reason: string): (r: Result<(), string>)
    ensures r.Ok? <==> reason in {"completed", "scope_changed", "pause_requested", "error"}
    ensures r.Err? ==> StartsWith(r.error, "Invalid reason '" + reason + "'")
    ensures r.Err? ==> forall i :: 0 <= i < |EndRunReasons| ==> Contains(r.error, EndRunReasons[i])
  {
    assert "Invalid " + "reason" + " '" == "Invalid reason '";
    Validation.OneOf(reason, EndRunReasons, "reason")
  }

  /** `validate_end_response`. */
  function ValidateEndResponse(response: string): (r: Result<(), string>)
    ensures r.Ok? <==> response in {"agree", "disagree", "verify"}
    ensures r.Err? ==> StartsWith(r.error, "Invalid response '" + response + "'")
    ensures r.Err? ==> forall i :: 0 <= i < |EndResponses| ==> Contains(r.error, EndResponses[i])
  {
    assert "Invalid " + "response" + " '" == "Invalid response '";
    Validation.OneOf(response, EndResponses, "response")
  }

  // ===== Reply handling =====

  /** The tools whose backend reply is only a success flag. */
  datatype AckTool = ReportStatusTool | TaskCompleteTool | ReportImpedimentTool
                   | RequestInputTool | HandoffTool | RespondToEndRequestTool

  /** The fixed message each of those tools reports when the backend refuses. */
  function FailureMessage(tool: AckTool): string {
    match tool
    case ReportStatusTool => "Status update failed"
    case TaskCompleteTool => "Task complete failed"
    case ReportImpedimentTool => "Report impediment failed"
    case RequestInputTool => "Request input failed"
    case HandoffTool => "Handoff failed"
    case RespondToEndRequestTool => "Respond to end request failed"
  }

  /** The shared tail of those tools: a transport error propagates unchanged (`?`), a refusal
      becomes `RequestFailed` with the tool's fixed message, and success carries no value. */
  function Acknowledge(tool: AckTool, reply: Result<Acknowledgement, IpcError>): (r: Result<(), IpcError>)
    ensures r.Ok? <==> reply.Ok? && reply.value.success
    ensures reply.Err? ==> r == Err(reply.error)
    ensures reply.Ok? && !reply.value.success ==> r == Err(RequestFailed(FailureMessage(tool)))
  {
    match reply
    case Err(e) => Err(e)
    case Ok(ack) => if ack.success then Ok(()) else Err(RequestFailed(FailureMessage(tool)))
  }

  /** `send_message` after its request: on success the backend's event id, unchanged. */
  function SendMessage(reply: Result<SendMessageResponse, IpcError>): (r: Result<string, IpcError>)
    ensures r.Ok? <==> reply.Ok? && reply.value.success
    ensures r.Ok? ==> r.value == reply.value.eventId
    ensures reply.Err? ==> r == Err(reply.error)
    ensures reply.Ok? && !reply.value.success ==> r == Err(RequestFailed("Message send failed"))
  {
    match reply
    case Err(e) => Err(e)
    case Ok(resp) => if resp.success then Ok(resp.eventId) else Err(RequestFailed("Message send failed"))
  }

  /** `request_end_run` after its request: on success the backend's request id, unchanged. */
  function RequestEndRun(reply: Result<RequestEndRunResponse, IpcError>): (r: Result<string, IpcError>)
    ensures r.Ok? <==> reply.Ok? && reply.value.success
    ensures r.Ok? ==> r.value == reply.value.requestId
    ensures reply.Err? ==> r == Err(reply.error)
    ensures reply.Ok? && !reply.value.success ==> r == Err(RequestFailed("Request end run failed"))
  {
    match reply
    case Err(e) => Err(e)
    case Ok(resp) => if resp.success then Ok(resp.requestId) else Err(RequestFailed("Request end run failed"))
  }

  /** `resolve_impediment` after its request: a refusal reports the backend's own error text
      when it gave one, and a fixed message otherwise. */
  function ResolveImpediment(reply: Result<ResolveImpedimentResponse, IpcError>): (r: Result<(), IpcError>)
    ensures r.Ok? <==> reply.Ok? && reply.value.success
    ensures reply.Err? ==> r == Err(reply.error)
    ensures reply.Ok? && !reply.value.success && reply.value.error.Some? ==>
      r == Err(RequestFailed(reply.value.error.value))
    ensures reply.Ok? && !reply.value.success && reply.value.error.None? ==>
      r == Err(RequestFailed("Resolve impediment failed"))
  {
    match reply
    case Err(e) => Err(e)
    case Ok(resp) =>
      if resp.success then Ok(())
      else Err(RequestFailed(resp.error.GetOr("Resolve impediment failed")))
  }
}

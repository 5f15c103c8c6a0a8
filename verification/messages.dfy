/** The message records exchanged with the backend, the numeric coercion applied while
    reading requests, and the conversion of the protocol request to its socket form. */
module Messages {
  import opened Wrappers
  import opened Decimal

  // ===== Numeric coercion =====

  /** The JSON values a request field can hold. Non-integer numbers are one opaque case, as
      are arrays and objects, since no coercion accepts them. */
  datatype Json = JNull | JBool(b: bool) | JInt(n: int) | JFloat | JString(s: string) | JArray | JObject

  /** Why a coercion rejected its input: the value matched neither the string nor the `i64`
      alternative of the untagged enum, or it was a string that does not parse. */
  datatype CoercionError = NoVariantMatched | BadInteger(kind: IntErrorKind)

  /** A JSON value that deserialises as an `i64` directly. */
  predicate IsI64Number(v: Json) {
    v.JInt? && IsI64(v.n)
  }

  /** `string_or_i64::deserialize`: an `i64` is taken as it is, a string is parsed as a decimal
      `i64`, and anything else (null included) is rejected. */
  function StringOrI64(v: Json): (r: Result<int, CoercionError>)
    ensures IsI64Number(v) ==> r == Ok(v.n)
    ensures v.JString? ==> (r.Ok? <==> IsNumeral(v.s) && IsI64(NumeralValue(v.s)))
    ensures v.JString? && r.Ok? ==> r.value == NumeralValue(v.s)
    ensures v == JString("") ==> r == Err(BadInteger(Empty))
    ensures !v.JString? && !IsI64Number(v) ==> r == Err(NoVariantMatched)
    ensures r.Ok? ==> IsI64(r.value)
  {
    match v
    case JString(s) =>
      (match ParseI64(s)
       case Ok(n) => Ok(n)
       case Err(k) => Err(BadInteger(k)))
    case JInt(n) => if IsI64(n) then Ok(n) else Err(NoVariantMatched)
    case _ => Err(NoVariantMatched)
  }

  /** `option_string_or_i64::deserialize`. The field may be absent (`#[serde(default)]`), which
      reads as None, like JSON null and, unlike `string_or_i64`, the empty string. Every other
      value is coerced exactly as `string_or_i64` coerces it, wrapped in Some. */
  function OptionStringOrI64(v: Option<Json>): (r: Result<Option<int>, CoercionError>)
    ensures v == None || v == Some(JNull) || v == Some(JString("")) ==> r == Ok(None)
    ensures v.Some? && v.value != JNull && v.value != JString("") ==>
      (r.Ok? <==> StringOrI64(v.value).Ok?)
      && (r.Ok? ==> r.value == Some(StringOrI64(v.value).value))
      && (r.Err? ==> r.error == StringOrI64(v.value).error)
    ensures r.Ok? && r.value.Some? ==> IsI64(r.value.value)
  {
    match v
    case None => Ok(None)
    case Some(JNull) => Ok(None)
    case Some(JString(s)) =>
      if s == "" then Ok(None)
      else
        (match ParseI64(s)
         case Ok(n) => Ok(Some(n))
         case Err(k) => Err(BadInteger(k)))
    case Some(JInt(n)) => if IsI64(n) then Ok(Some(n)) else Err(NoVariantMatched)
    case Some(_) => Err(NoVariantMatched)
  }

  // ===== Get protocol =====

  /** The request as agents send it, naming their role `agentRole`. */
  datatype GetProtocolRequest = GetProtocolRequest(runId: string, agentRole: string)

  /** The request as the backend expects it, naming the role `role`. */
  datatype GetProtocolSocketRequest = GetProtocolSocketRequest(runId: string, role: string)

  /** `From<&GetProtocolRequest> for GetProtocolSocketRequest`: the run id is copied and the
      agent role travels as the role; the conversion loses nothing. */
  function ToSocketRequest(req: GetProtocolRequest): (r: GetProtocolSocketRequest)
    ensures r.runId == req.runId && r.role == req.agentRole
    ensures GetProtocolRequest(r.runId, r.role) == req
  {
    GetProtocolSocketRequest(req.runId, req.agentRole)
  }

  /** Which optional abilities a role has. */
  datatype RoleCapabilities = RoleCapabilities(canResolveImpediments: bool)

  datatype GetProtocolResponse = GetProtocolResponse(
    runId: string,
    templateName: string,
    playbookProtocol: Option<string>,
    roleProtocol: Option<string>,
    initializationCondition: Option<string>,
    projectName: Option<string>,
    capabilities: Option<RoleCapabilities>)

  // ===== Run status =====

  datatype ConnectedAgent = ConnectedAgent(roleId: string, sessionName: string, agentType: string)

  datatype GetRunStatusResponse = GetRunStatusResponse(
    runId: string,
    status: string,
    phase: string,
    templateName: string,
    hasProtocol: bool,
    connectedAgents: seq<ConnectedAgent>)

  // ===== Status and messaging replies =====

  /** The reply to report-status, task-complete, report-impediment, request-input, handoff and
      respond-to-end-request: six Rust structs that hold only the success flag. */
  datatype Acknowledgement = Acknowledgement(success: bool)

  datatype SendMessageResponse = SendMessageResponse(success: bool, eventId: string)

  datatype RequestEndRunResponse = RequestEndRunResponse(success: bool, requestId: string)

  datatype ResolveImpedimentResponse = ResolveImpedimentResponse(success: bool, error: Option<string>)

  // ===== Doc artifacts =====

  datatype ArtifactSummary = ArtifactSummary(
    id: string,
    filename: string,
    documentType: string,
    totalLines: int,
    contentHash: string,
    createdAt: string,
    updatedAt: string)

  datatype ListResponse = ListResponse(runId: string, artifacts: seq<ArtifactSummary>)

  datatype InlineComment = InlineComment(
    id: string,
    commentType: string,
    status: string,
    lineNumber: int,
    author: string,
    preview: string)

  datatype ReadResponse = ReadResponse(
    artifactId: string,
    filename: string,
    content: string,
    contentHash: string,
    totalLines: int,
    returnedLines: int,
    offset: int,
    hasMore: bool,
    comments: Option<seq<InlineComment>>)

  datatype EditConflict = EditConflict(expectedHash: string, actualHash: string, message: string)

  datatype EditResponse = EditResponse(
    success: bool,
    artifactId: string,
    newContentHash: string,
    editId: string,
    affectedComments: seq<string>,
    conflict: Option<EditConflict>)

  datatype SearchMatch = SearchMatch(
    lineNumber: int,
    charStart: int,
    charEnd: int,
    matchText: string,
    context: string,
    section: Option<string>)

  datatype SearchResponse = SearchResponse(
    artifactId: string,
    query: string,
    totalMatches: int,
    results: seq<SearchMatch>)

  datatype CommentDetail = CommentDetail(
    id: string,
    commentType: string,
    status: string,
    selectionStart: int,
    selectionEnd: int,
    selectionText: Option<string>,
    content: string,
    suggestedText: Option<string>,
    author: string,
    resolvedBy: Option<string>,
    resolvedAt: Option<string>,
    resolutionNote: Option<string>,
    createdAt: string)

  datatype ListCommentsResponse = ListCommentsResponse(artifactId: string, comments: seq<CommentDetail>)

  datatype SuggestEditResponse = SuggestEditResponse(suggestionId: string, commentId: string, artifactId: string)

  datatype AcceptSuggestionResponse = AcceptSuggestionResponse(
    success: bool,
    suggestionId: string,
    newContentHash: string,
    resolvedComments: seq<string>)

  datatype RejectSuggestionResponse = RejectSuggestionResponse(success: bool, suggestionId: string)

  datatype SuggestionDetail = SuggestionDetail(
    id: string,
    commentId: string,
    artifactId: string,
    suggestedBy: string,
    editType: string,
    startOffset: Option<int>,
    endOffset: Option<int>,
    originalText: Option<string>,
    suggestedText: string,
    rationale: Option<string>,
    status: string,
    acceptedBy: Option<string>,
    acceptedAt: Option<string>,
    rejectionReason: Option<string>,
    createdAt: string,
    updatedAt: string)

  datatype ListSuggestionsResponse = ListSuggestionsResponse(artifactId: string, suggestions: seq<SuggestionDetail>)

  // ===== Terminal workflow =====

  /** Rust's `HotwireResponse`, one constructor per variant. */
  datatype HotwireResponse =
    | Started(runId: string, role: string, playbook: string, protocol: string)
    | NeedsConfirmation(pendingRunId: string, suggestedPlaybook: Option<string>, message: string)
    | HotwireError(error: string)

  datatype PairingContext = PairingContext(
    primaryStatus: string,
    currentArtifact: Option<string>,
    conversationSummary: string)

  datatype PendingPairRun = PendingPairRun(runId: string, playbook: string, intent: string, roleNeeded: string)

  /** Rust's `PairResponse`, one constructor per variant. */
  datatype PairResponse =
    | Joined(runId: string, role: string, roleName: string, playbook: string, protocol: string, context: PairingContext)
    | NeedsSelection(pendingRuns: seq<PendingPairRun>, message: string)
    | NoneAvailable(message: string)
    | ProjectMismatch(requiredPath: string, currentPath: string, message: string)
    | PairError(error: string)

  datatype ActiveRun = ActiveRun(
    runId: string,
    playbook: string,
    intent: string,
    status: string,
    myRole: Option<string>,
    createdAt: string)

  datatype ListActiveRunsResponse = ListActiveRunsResponse(runs: seq<ActiveRun>)

  datatype PlaybookRoleInfo = PlaybookRoleInfo(id: string, name: string, description: string, isInitiating: bool)

  datatype PlaybookInitHints = PlaybookInitHints(expectsDocument: bool, expectsGoal: bool, suggestedPaths: seq<string>)

  datatype PlaybookInfo = PlaybookInfo(
    id: string,
    name: string,
    tagline: string,
    description: string,
    artifactMode: bool,
    roles: seq<PlaybookRoleInfo>,
    bestFor: seq<string>,
    keywords: seq<string>,
    initialization: PlaybookInitHints)

  datatype ListPlaybooksResponse = ListPlaybooksResponse(playbooks: seq<PlaybookInfo>)
}

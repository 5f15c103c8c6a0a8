# hotwired-mcp front-end logic in Dafny

hotwired-mcp is an MCP server that forwards every doc-artifact, status and terminal tool call
to the Hotwired backend over IPC. It does no document editing, conflict detection or search of
its own: those happen behind `client.request(...)`. What it does locally, and what this project
models, is the following:

- **Input validators.** These are closed-set, case-sensitive checks on edit types, comment
  types, resolve actions, suggestion filters, agent statuses, impediment types, end-run reasons
  and end responses.
- **Numeric coercions.** The two serde helpers accept either an `i64` or a numeric string.
- **Request conversion.** This is the `GetProtocolRequest` → `GetProtocolSocketRequest`
  conversion.
- **Reply mapping.** The status tools map the backend's `success` flag to a `Result`.
- **Formatters.** These are the pure functions that turn backend replies into Markdown or
  terminal banners. They include the byte-sliced previews.
- **The mock IPC client.** The tests use it.

Modules:

- **Foundations.**
  - `Wrappers` holds `Option` and `Result`.
  - `Text` holds substring, join, split and concatenation facts.
  - `Decimal` models integer rendering and Rust's `str::parse::<i64>`.
  - `Utf8` holds UTF-8 byte lengths, character boundaries and byte-prefix slicing.
  - `Errors` holds `IpcError`.
- **Wire types.** `Messages` holds the request and response records and the coercions.
- **Tools.**
  - `Validation` is the shared closed-set check.
  - `Artifacts`, `Status` and `Protocol` model the files of the same names.
  - `Console` holds the banner rule shared by the terminal-style outputs.
  - `Terminal` models `src/tools/terminal.rs`.
- **The mock.**
  - `Mock` is a pure state machine for `MockIpcClient`.
  - `MockClient` is a class that wraps it as mutable state.

Formatter outputs are built as a concatenation of labelled parts. Their contracts state:

- what the output starts and ends with;
- which labelled lines it contains;
- for optional sections, that the section appears exactly when its condition holds.

That last property is stated against the same reply with the field cleared. The output either
equals that reply's output, or is that output with the section spliced in (`Text.Inserts`).

## Model

| member | source | states |
|---|---|---|
| Validation.OneOf | src/tools/artifacts.rs:166-177 | accepts exactly the members of the closed list; a rejection message starts with "Invalid <what> '<value>'" and names the value and every valid value |
| Artifacts.ValidateEditType | src/tools/artifacts.rs:166-177 | Ok exactly for replace_range, insert, append, full_replace (case-sensitive); the error names the rejected value and lists all four |
| Artifacts.ValidateCommentType | src/tools/artifacts.rs:316-327 | Ok exactly for comment, question, suggestion, issue; the error names the value and lists the valid ones |
| Artifacts.ValidateResolveAction | src/tools/artifacts.rs:362-373 | Ok exactly for accept, reject, reply, address, resolve; the error names the value and lists the valid ones |
| Artifacts.ValidateSuggestionStatus | src/tools/artifacts.rs:606-617 | Ok exactly for pending, accepted, rejected, all; the error names the value and lists the valid ones |
| Artifacts.FormatReadResponse | src/tools/artifacts.rs:75-103 | starts with the filename heading; shows the content hash and the line/offset summary; ends with the fenced content; shows every inline comment |
| Artifacts.ReadCommentsSection | src/tools/artifacts.rs:85-96 | the inline-comments section is spliced in iff the reply carries a non-empty comment list; otherwise the output equals the one without comments |
| Artifacts.ConflictReport | src/tools/artifacts.rs:182-191 | the conflict banner shows both the expected and the actual hash |
| Artifacts.EditReport | src/tools/artifacts.rs:196-200 | a successful edit shows its edit id and new content hash |
| Artifacts.FormatEditResponse | src/tools/artifacts.rs:180-211 | failure with a conflict gives the conflict banner with both hashes; failure without one is exactly "Edit failed for unknown reason."; success shows edit id and new hash |
| Artifacts.EditAffectedComments | src/tools/artifacts.rs:202-208 | the affected-comments note, ids joined by ", ", is appended exactly when the edit succeeded and the list is non-empty |
| Artifacts.MatchSectionLine | src/tools/artifacts.rs:264-266 | a match's section line appears iff the match names a section |
| Artifacts.FormatSearchResponse | src/tools/artifacts.rs:243-276 | no matches gives the header followed by "No matches found."; otherwise every match block, numbered from 1, is present |
| Artifacts.SearchInReplyOrder | src/tools/artifacts.rs:255-274 | a single match is exactly the header plus its block numbered 1; one more match appends its block, numbered next, at the very end, so the blocks appear once each in reply order |
| Artifacts.CommentBlock | src/tools/artifacts.rs:414-467 | a comment's block shows the selection range and content, the selected text through the corrected 50-byte preview, the suggested replacement when present, the resolver and note only when the status is not "open", and ends with the creation time |
| Artifacts.OpenCommentHidesResolution | src/tools/artifacts.rs:456-463 | an open comment's block is unchanged by clearing its resolver and resolution note |
| Artifacts.FormatCommentsResponse | src/tools/artifacts.rs:402-469 | an empty list gives the header followed by the fixed "No comments found" line; otherwise every comment block is present |
| Artifacts.CommentsInReplyOrder | src/tools/artifacts.rs:415-467 | a single comment is exactly the header plus its block; one more comment appends its block at the very end (the header counts it), so the blocks appear once each in reply order |
| Artifacts.CommentPreviewAsWritten | src/tools/artifacts.rs:441-448 | wherever the Rust 50-byte slice does not panic, the block shows exactly the selected-text preview the Rust code prints |
| Artifacts.ArtifactEntry | src/tools/artifacts.rs:485-498 | an artifact entry shows filename, type, id and the first 8 bytes of the content hash; it needs byte 8 to be a character boundary |
| Artifacts.ShortHashNotSliceable | src/tools/artifacts.rs:495 | a hash shorter than 8 bytes has no boundary at byte 8, so the Rust code's slice panics there |
| Artifacts.AsciiHashShortens | src/tools/artifacts.rs:495 | for an ASCII hash of at least 8 characters the slice is defined and is its first 8 characters |
| Artifacts.FormatListResponse | src/tools/artifacts.rs:472-501 | an empty list gives the header followed by "No artifacts found in this run."; otherwise every artifact entry is present |
| Artifacts.ListInReplyOrder | src/tools/artifacts.rs:485-498 | a single artifact is exactly the header plus its entry; one more artifact appends its entry at the very end (the header counts it), so the entries appear once each in reply order |
| Artifacts.SuggestionBlock | src/tools/artifacts.rs:633-689 | a suggestion's block names its status, id, edit type and linked comment; the selection line appears when both offsets exist; the original and suggested text go through the corrected 100-byte preview; the rationale line appears when a rationale is given; it ends with the creation time |
| Artifacts.SuggestionDecisionDetails | src/tools/artifacts.rs:675-686 | a pending suggestion shows no decision details; an accepted one never shows a rejection reason; a rejected one never shows who accepted it; without both offsets there is no selection line |
| Artifacts.SuggestionDecisionShown | src/tools/artifacts.rs:675-686 | an accepted suggestion shows accepter and time when given; a rejected one shows its reason when given |
| Artifacts.FormatSuggestionsResponse | src/tools/artifacts.rs:620-692 | an empty list gives the header followed by the fixed "No suggestions found" line; otherwise every suggestion block is present |
| Artifacts.SuggestionsInReplyOrder | src/tools/artifacts.rs:633-689 | a single suggestion is exactly the header plus its block; one more suggestion appends its block at the very end (the header counts it), so the blocks appear once each in reply order |
| Artifacts.SuggestionPreviewsAsWritten | src/tools/artifacts.rs:655-669 | wherever the Rust 100-byte slices do not panic, the block shows exactly the original-text and suggested-text previews the Rust code prints |
| Artifacts.FormatSuggestEditResponse | src/tools/artifacts.rs:695-706 | confirms creation and shows the suggestion id, linked comment id and artifact id |
| Artifacts.FormatAcceptSuggestionResponse | src/tools/artifacts.rs:709-725 | confirms acceptance and shows the suggestion id and new content hash |
| Artifacts.AcceptResolvedComments | src/tools/artifacts.rs:717-722 | the resolved-comments line, ids joined by ", ", is appended exactly when the list is non-empty |
| Artifacts.FormatRejectSuggestionResponse | src/tools/artifacts.rs:728-735 | confirms rejection, shows the suggestion id and ends by saying the edit was not applied |
| Decimal.ParseI64 | src/ipc/messages.rs:77 | succeeds iff the text is an optionally signed run of decimal digits whose value fits in i64, and then gives that value; the empty text fails with the empty-input error; out-of-range values give positive or negative overflow |
| Decimal.Accumulate | src/ipc/messages.rs:77 | the digit loop of the parse: exact value or the overflow on the correct side, error on any non-digit |
| Decimal.ParseRendered | src/ipc/messages.rs:77 | parsing the decimal rendering of any i64 gives it back |
| Messages.StringOrI64 | src/ipc/messages.rs:62-81 | an i64 number passes unchanged; a string parses as a decimal i64 or fails, the empty string included; any other JSON value matches no variant |
| Messages.OptionStringOrI64 | src/ipc/messages.rs:84-109 | absent, null and the empty string give None; every other value agrees with StringOrI64 wrapped in Some, errors included |
| Messages.ToSocketRequest | src/ipc/messages.rs:131-138 | run id copied and agent role carried into role; the conversion can be inverted, so nothing is added or lost |
| Status.ValidateStatus | src/tools/status.rs:39-50 | Ok exactly for working, thinking, waiting, idle, complete; the error names the value and lists the valid ones |
| Status.ValidateAgentStatus | src/tools/status.rs:53-64 | Ok exactly for active, awaiting_response, blocked, idle; the error names the value and lists the valid ones |
| Status.ValidateImpedimentType | src/tools/status.rs:121-139 | Ok exactly for the six impediment types; the error names the value and lists the valid ones |
| Status.ValidateEndRunReason | src/tools/status.rs:231-242 | Ok exactly for completed, scope_changed, pause_requested, error; the error names the value and lists the valid ones |
| Status.ValidateEndResponse | src/tools/status.rs:272-283 | Ok exactly for agree, disagree, verify; the error names the value and lists the valid ones |
| Status.Acknowledge | src/tools/status.rs:31-35 | for report_status, task_complete (113-117), report_impediment (167-171), request_input (194-198), handoff (223-227) and respond_to_end_request (305-311): Ok iff the backend answered with success; transport errors pass through; a refusal becomes RequestFailed with that tool's fixed message, such as "Status update failed" or "Handoff failed" |
| Status.SendMessage | src/tools/status.rs:86-90 | success returns the backend's event id unchanged; a refusal gives RequestFailed("Message send failed") |
| Status.RequestEndRun | src/tools/status.rs:264-268 | success returns the backend's request id unchanged; a refusal gives RequestFailed("Request end run failed") |
| Status.ResolveImpediment | src/tools/status.rs:341-348 | a refusal reports the backend's error text when given, else "Resolve impediment failed"; success maps to Ok |
| Protocol.FormatProtocolResponse | src/tools/protocol.rs:25-78 | always shows the run id and playbook name; a missing playbook protocol or initialization condition is replaced by its fixed default |
| Protocol.ProtocolRoleSection | src/tools/protocol.rs:26-29 | the role-instructions section is spliced in iff the role text is present and non-empty |
| Protocol.ProtocolCapabilitiesSection | src/tools/protocol.rs:42-55 | the capabilities section is spliced in iff capabilities are present and allow resolving impediments |
| Protocol.AgentsBlock | src/tools/protocol.rs:100-114 | "(no agents connected)" iff there are no agents; otherwise exactly one line per agent, in input order |
| Protocol.FormatRunStatusResponse | src/tools/protocol.rs:98-139 | under the RUN STATUS banner, "Run ID", a plain-text "Status: " line, "Phase", "Template" and "Has Protocol" on consecutive lines, with nothing between the Phase and Template lines (its length is exactly that of the two pinned ends); then a blank line, "Connected Agents:" and the agents block; then a blank line and the closing rule |
| Terminal.FormatHotwireResponse | src/tools/terminal.rs:44-104 | Started shows run id, playbook, role and "PRIMARY AGENT" and ends with the protocol; NeedsConfirmation shows message and pending run id; Error shows the failure |
| Terminal.HotwireSuggestedPlaybook | src/tools/terminal.rs:66-70 | the "Suggested playbook:" line is spliced in iff a playbook is suggested |
| Terminal.PendingRunsList | src/tools/terminal.rs:172-187 | pending runs appear one per line, numbered 1..n in input order |
| Terminal.JoinedReport | src/tools/terminal.rs:134-170 | the joined banner shows run id, role name and role, "SECONDARY AGENT", the current artifact or "(none)", and ends with the protocol |
| Terminal.SelectionReport | src/tools/terminal.rs:171-207 | the selection banner contains the numbered list of pending runs |
| Terminal.MismatchReport | src/tools/terminal.rs:223-240 | the mismatch banner shows both the required and the current path |
| Terminal.FormatPairResponse | src/tools/terminal.rs:132-255 | each of the five pair replies gets its own banner with its own fields; an absent current artifact prints as "(none)" |
| Terminal.ActiveRunRoleInfo | src/tools/terminal.rs:291-296 | " (your role: X)" is spliced into a run's entry iff the caller's role is known |
| Terminal.FormatActiveRuns | src/tools/terminal.rs:276-318 | the fixed "No active runs found." banner iff there are no runs; otherwise every entry, consecutive ones separated by a blank line |
| Terminal.InitiatingMarker | src/tools/terminal.rs:371 | " [INITIATING]" is appended to a role line iff the role is initiating |
| Terminal.FormatSinglePlaybook | src/tools/terminal.rs:366-411 | every role line; best-for and keywords joined by ", " or the "(not specified)" and "(none)" defaults when empty; ends with the artifact mode |
| Terminal.FormatPlaybooks | src/tools/terminal.rs:333-364 | the fixed "No playbooks available." banner iff there are none; otherwise every playbook, consecutive ones separated by "\n---\n\n" |
| Utf8.CharsInBytes | src/tools/artifacts.rs:495 | the number of characters exactly n bytes long, or none when byte n falls inside a character or past the end |
| Utf8.BytePrefix | src/tools/artifacts.rs:495 | at a character boundary, the prefix that is exactly n bytes long |
| Utf8.PreviewAsWritten | src/tools/artifacts.rs:442-446 | the Rust code's preview: text of at most limit bytes unchanged; otherwise the first limit bytes plus "...", undefined (a panic) when byte limit is not a character boundary |
| Utf8.PreviewAsWrittenPanics | src/tools/artifacts.rs:442-446 | a 51-character selection whose 50th character is "é" makes the 50-byte slice panic |
| Utf8.Preview | src/tools/artifacts.rs:656-660 | total preview: text within the limit unchanged; otherwise the longest prefix of at most limit bytes plus "..." |
| Utf8.PreviewAgrees | src/tools/artifacts.rs:664-668 | wherever the Rust code's preview is defined, the total preview gives the same text |
| Mock.WhenCalled | src/ipc/mock.rs:25-31 | the endpoint now answers with the new response, replacing any earlier one; other endpoints, the log and the flag are unchanged |
| Mock.SetDisconnected | src/ipc/mock.rs:34-36 | sets the flag and leaves responses and log alone |
| Mock.BodiesFor | src/ipc/mock.rs:39-47 | a body is listed iff a call with that body went to the endpoint |
| Mock.BodiesForAppend | src/ipc/mock.rs:39-47 | filtering by endpoint commutes with appending logs, so bodies come out in call order |
| Mock.RequestsTo | src/ipc/mock.rs:39-47 | a body is returned iff a logged call with that body went to the endpoint |
| Mock.CollectRequests | src/ipc/mock.rs:39-47 | the one-pass filter over the log yields exactly the endpoint's bodies in call order |
| Mock.AssertCalled | src/ipc/mock.rs:50-57 | passes iff some call went to the endpoint; otherwise it fails naming the endpoint |
| Mock.AssertNoCalls | src/ipc/mock.rs:60-67 | passes iff the log is empty; otherwise it fails showing the logged calls |
| Mock.Request | src/ipc/mock.rs:72-97 | disconnected gives NotConnected and leaves the state unchanged; otherwise the call is logged first, then it is answered with the stored response or fails with "No mock response for <endpoint>" |
| Mock.RequestRecordsInOrder | src/ipc/mock.rs:83-88 | a connected request adds its body at the end of its endpoint's history and no other; a disconnected one changes no history |
| Mock.UnconfiguredEndpointRecorded | src/ipc/mock.rs:83-94 | a call to an unconfigured endpoint fails with RequestFailed, yet assert_called on it passes |
| Mock.ConfiguredEndpointScenario | src/ipc/mock.rs:124-155 | after when_called and one request, the request gets the configured response, it is the only body recorded, assert_called passes and assert_no_calls fails |
| Mock.HealthCheck | src/ipc/mock.rs:99-105 | Ok iff connected; otherwise NotConnected |
| MockClient.MockIpcClient.WhenCalled | src/ipc/mock.rs:25-31 | the object's state takes the pure `when_called` transition |
| MockClient.MockIpcClient.SetDisconnected | src/ipc/mock.rs:34-36 | the object's state takes the pure `set_disconnected` transition |
| MockClient.MockIpcClient.RequestsTo | src/ipc/mock.rs:39-47 | returns exactly the endpoint's bodies in call order, as `Mock.RequestsTo` defines them |
| MockClient.MockIpcClient.Request | src/ipc/mock.rs:72-97 | the state and the result are those of the pure `Mock.Request` on the previous state |
| MockClient.MockIpcClient.HealthCheck | src/ipc/mock.rs:99-105 | Ok iff connected, otherwise NotConnected |
| MockClient.ConfiguredResponseScenario | src/ipc/mock.rs:140-155 | driven through the object, a configured endpoint answers a request with its response and records exactly that request body |

## Left out

- Document editing, conflict detection, comment anchoring, suggestion state and search happen in the backend. These files only forward the requests, so there is no local logic to model.
- The async tool functions (`list_artifacts`, `edit_artifact`, `hotwire`, `pair`, `report_status`, …) only build a request, name an endpoint and await the client. The IPC reply is a parameter of the `Status` functions instead.
- `src/server.rs` (the MCP tool router), `src/main.rs` (CLI, logging, stdio transport), `src/ipc/traits.rs` and `src/ipc/mod.rs` are not part of this model. `IpcError` from `src/types/errors.rs` appears only as a datatype.
- Serde in general is not modelled. Request and response bodies in the mock are opaque strings. Two consequences:
  - The request serialisation failure (`RequestFailed`) is not modelled.
  - The response deserialisation failure (`InvalidResponse`) is not modelled; `Mock.Request` returns the stored body.
- The two coercions treat JSON floats, arrays and objects as values that match no variant. Serde's exact error text is not modelled, only which error kind occurs.
- `MockIpcClient`'s `Arc<Mutex<..>>` fields are one sequentially updated value in `MockClient.MockIpcClient`. Its methods use `modifies`/`old` and simply delegate to `Mock`.
- Mock.AssertCalled: the Rust code panics with a formatted message. The model returns an error value that names the endpoint.
- Mock.AssertNoCalls: the same applies, with an error value carrying the log. The Debug rendering of the log is not modelled.
- Emoji and icon glyphs are modelled by their selection functions only. Banner whitespace is not stated byte-exact beyond the labelled lines the contracts name.
- Artifacts.CommentBlock: prints the selected text through the corrected `Utf8.Preview`. Where the Rust 50-byte slice would panic (see Findings), the model shows the longest prefix that fits. `Artifacts.CommentPreviewAsWritten` shows it prints the Rust code's preview everywhere else.
- Artifacts.FormatCommentsResponse: inherits the corrected selected-text preview from `Artifacts.CommentBlock`, so it returns a listing where the Rust code panics.
- Artifacts.SuggestionBlock: prints the original and suggested text through the corrected `Utf8.Preview` at 100 bytes. Where the Rust slices would panic, the model shows the longest prefix that fits. `Artifacts.SuggestionPreviewsAsWritten` shows it agrees with the Rust code everywhere else.
- Artifacts.FormatSuggestionsResponse: inherits the corrected previews from `Artifacts.SuggestionBlock`, so it returns a listing where the Rust code panics.
- Artifacts.FormatListResponse: requires every content hash to have a character boundary at byte 8. The Rust code slices `&content_hash[..8]` unconditionally and panics otherwise. The hash is the backend's digest, and `Artifacts.ShortHashNotSliceable` shows what the requirement excludes.
- Artifacts.ArtifactEntry: carries the same byte-8 boundary requirement for the same reason.

## Findings

| source | as written | input that shows it | evidently intended | confidence | as-written member | corrected member |
|---|---|---|---|---|---|---|
| src/tools/artifacts.rs:442-446 | a long selected text is cut with `&text[..50]`, a byte slice that panics when byte 50 falls inside a multi-byte character; the suggestion previews at lines 656-660 and 664-668 do the same at 100 bytes | 49 × "a" followed by "é" and "b" (52 bytes; byte 50 is inside "é") | cut at the last character boundary at or before the limit and append "..." | not executed | Utf8.PreviewAsWritten, Utf8.PreviewAsWrittenPanics | Utf8.Preview, Utf8.PreviewAgrees |

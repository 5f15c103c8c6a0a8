/** The terminal workflow tools: starting a run (hotwire), joining one as the second agent
    (pair), and listing active runs and playbooks. */
module Terminal {
  import opened Wrappers
  import opened Text
  import opened Decimal
  import opened Messages
  import opened Console

  /** The closing rule every terminal banner ends with. */
  const Footer := "\n" + Rule + "\n"

  // ===== Hotwire =====

  const ConfirmationSteps :=
    "Please confirm the workflow in the Hotwired app.\n"
    + "When you confirm, you will receive a trigger message.\n"
    + "Then call get_protocol(run_id, role) to get your instructions.\n"

  /** The optional hint naming the playbook the backend would pick. */
  function PlaybookHint(suggested: Option<string>): string {
    match suggested
    case Some(p) => "\nSuggested playbook: " + p
    case None => ""
  }

  function ConfirmationParts(message: string, hint: string, pendingRunId: string): seq<string> {
    [ Heading("CONFIRMATION NEEDED"),
      message + "\n",
      hint,
      "\nPending Run ID: " + pendingRunId + "\n",
      "\n" + ConfirmationSteps,
      Footer ]
  }

  /** `format_hotwire_response`: one banner per reply variant. */
  function FormatHotwireResponse(resp: HotwireResponse): (r: string)
    ensures resp.Started? ==>
      StartsWith(r, Heading("WORKFLOW STARTED"))
      && Contains(r, "Run ID: " + resp.runId + "\n")
      && Contains(r, "Playbook: " + resp.playbook + "\n")
      && Contains(r, "Your Role: " + resp.role + "\n")
      && Contains(r, "You are now the PRIMARY AGENT.")
      && EndsWith(r, "\n\n" + resp.protocol + "\n")
    ensures resp.NeedsConfirmation? ==>
      StartsWith(r, Heading("CONFIRMATION NEEDED"))
      && Contains(r, resp.message + "\n")
      && Contains(r, "\nPending Run ID: " + resp.pendingRunId + "\n")
      && EndsWith(r, Footer)
    ensures resp.HotwireError? ==>
      StartsWith(r, Heading("ERROR"))
      && Contains(r, "Failed to start workflow: " + resp.error + "\n")
      && EndsWith(r, Footer)
  {
    match resp
    case Started(runId, role, playbook, protocol) =>
      var parts := [
        Heading("WORKFLOW STARTED"),
        "Run ID: " + runId + "\n",
        "Playbook: " + playbook + "\n",
        "Your Role: " + role + "\n",
        "\n",
        "You are now the PRIMARY AGENT.",
        " Your protocol is below.\n\n" + Rule,
        "\n\n" + protocol + "\n"];
      ConcatBoundaries(parts);
      ConcatContains(parts, 1);
      ConcatContains(parts, 2);
      ConcatContains(parts, 3);
      ConcatContains(parts, 5);
      Concat(parts)
    case NeedsConfirmation(pendingRunId, suggested, message) =>
      var parts := ConfirmationParts(message, PlaybookHint(suggested), pendingRunId);
      ConcatBoundaries(parts);
      ConcatContains(parts, 1);
      ConcatContains(parts, 3);
      Concat(parts)
    case HotwireError(error) =>
      var parts := [Heading("ERROR"), "Failed to start workflow: " + error + "\n", Footer];
      ConcatBoundaries(parts);
      ConcatContains(parts, 1);
      Concat(parts)
  }

  /** The suggested-playbook line is spliced in exactly when the backend suggests one. */
  lemma HotwireSuggestedPlaybook(resp: HotwireResponse)
    requires resp.NeedsConfirmation?
    ensures FormatHotwireResponse(resp) == FormatHotwireResponse(resp.(suggestedPlaybook := None))
      <==> resp.suggestedPlaybook.None?
    ensures resp.suggestedPlaybook.Some? ==>
      Inserts(FormatHotwireResponse(resp.(suggestedPlaybook := None)),
              "\nSuggested playbook: " + resp.suggestedPlaybook.value,
              FormatHotwireResponse(resp))
  {
    var parts := ConfirmationParts(resp.message, "", resp.pendingRunId);
    assert FormatHotwireResponse(resp.(suggestedPlaybook := None)) == Concat(parts);
    if resp.suggestedPlaybook.Some? {
      var hint := PlaybookHint(resp.suggestedPlaybook);
      ConcatFillPart(parts, 2, hint);
      assert parts[2 := hint] == ConfirmationParts(resp.message, hint, resp.pendingRunId);
    }
  }

  // ===== Pair =====

  const NoArtifact := "(none)"

  const SelectionSteps :=
    "Please select which run to join in the Hotwired app.\n"
    + "When you select, you will receive a trigger message.\n"
    + "Then call get_protocol(run_id, role) to get your instructions.\n"

  const NoRunsAdvice := "Check that the primary agent has raised a needs_second_agent impediment.\n"

  const MismatchAdvice := "Please cd to the required path and try again.\n"

  /** One pending run of the selection list, numbered from 1. */
  function PendingRunLine(number: int, run: PendingPairRun): string {
    IntToString(number) + ". [" + run.runId + "] " + run.playbook + " - needs " + run.roleNeeded + " (" + run.intent + ")"
  }

  predicate SingleLineRun(run: PendingPairRun) {
    OneLine(run.runId) && OneLine(run.playbook) && OneLine(run.roleNeeded) && OneLine(run.intent)
  }

  /** The selection list: the runs numbered 1 to n in the reply's order, one per line. */
  function PendingRunsList(runs: seq<PendingPairRun>): (r: string)
    ensures runs != [] && (forall i :: 0 <= i < |runs| ==> SingleLineRun(runs[i])) ==>
      Lines(r) == seq(|runs|, i requires 0 <= i < |runs| => PendingRunLine(i + 1, runs[i]))
  {
    var lines := seq(|runs|, i requires 0 <= i < |runs| => PendingRunLine(i + 1, runs[i]));
    assert runs != [] && (forall i :: 0 <= i < |runs| ==> SingleLineRun(runs[i])) ==>
      Lines(Join(lines, "\n")) == lines by {
      if runs != [] && (forall i :: 0 <= i < |runs| ==> SingleLineRun(runs[i])) {
        forall i | 0 <= i < |lines| ensures '\n' !in lines[i] {
          assert AllDigits(IntToString(i + 1));
        }
        SplitJoin(lines, '\n');
      }
    }
    Join(lines, "\n")
  }

  /** `format_pair_response`: one banner per reply variant. */
  function FormatPairResponse(resp: PairResponse): (r: string)
    ensures resp.Joined? ==>
      StartsWith(r, Heading("JOINED WORKFLOW"))
      && Contains(r, "Run ID: " + resp.runId + "\n")
      && Contains(r, "Your Role: " + resp.roleName + " (" + resp.role + ")\n")
      && Contains(r, "You are now the SECONDARY AGENT.")
      && Contains(r, "- Current artifact: " + resp.context.currentArtifact.GetOr(NoArtifact) + "\n")
      && EndsWith(r, "\n\n" + resp.protocol + "\n")
    ensures resp.NeedsSelection? ==>
      StartsWith(r, Heading("SELECTION NEEDED"))
      && Contains(r, "\nAvailable runs needing a second agent:\n" + PendingRunsList(resp.pendingRuns) + "\n\n")
      && EndsWith(r, Footer)
    ensures resp.NoneAvailable? ==>
      StartsWith(r, Heading("NO RUNS AVAILABLE")) && Contains(r, resp.message + "\n") && EndsWith(r, Footer)
    ensures resp.ProjectMismatch? ==>
      StartsWith(r, Heading("PROJECT MISMATCH"))
      && Contains(r, "Required path: " + resp.requiredPath + "\n")
      && Contains(r, "Your current path: " + resp.currentPath + "\n")
      && EndsWith(r, Footer)
    ensures resp.PairError? ==>
      StartsWith(r, Heading("ERROR"))
      && Contains(r, "Failed to join workflow: " + resp.error + "\n")
      && EndsWith(r, Footer)
  {
    match resp
    case Joined(_, _, _, _, _, _) => JoinedReport(resp)
    case NeedsSelection(runs, message) => SelectionReport(runs, message)
    case NoneAvailable(message) => NoneAvailableReport(message)
    case ProjectMismatch(_, _, _) => MismatchReport(resp)
    case PairError(error) => PairErrorReport(error)
  }

  function NoneAvailableReport(message: string): (r: string)
    ensures StartsWith(r, Heading("NO RUNS AVAILABLE")) && Contains(r, message + "\n") && EndsWith(r, Footer)
  {
    var parts := [Heading("NO RUNS AVAILABLE"), message + "\n", "\n" + NoRunsAdvice, Footer];
    ConcatBoundaries(parts);
    ConcatContains(parts, 1);
    Concat(parts)
  }

  function PairErrorReport(error: string): (r: string)
    ensures StartsWith(r, Heading("ERROR"))
    ensures Contains(r, "Failed to join workflow: " + error + "\n")
    ensures EndsWith(r, Footer)
  {
    var parts := [Heading("ERROR"), "Failed to join workflow: " + error + "\n", Footer];
    ConcatBoundaries(parts);
    ConcatContains(parts, 1);
    Concat(parts)
  }

  function JoinedReport(resp: PairResponse): (r: string)
    requires resp.Joined?
    ensures StartsWith(r, Heading("JOINED WORKFLOW"))
    ensures Contains(r, "Run ID: " + resp.runId + "\n")
    ensures Contains(r, "Your Role: " + resp.roleName + " (" + resp.role + ")\n")
    ensures Contains(r, "You are now the SECONDARY AGENT.")
    ensures Contains(r, "- Current artifact: " + resp.context.currentArtifact.GetOr(NoArtifact) + "\n")
    ensures EndsWith(r, "\n\n" + resp.protocol + "\n")
  {
    var parts := [
      Heading("JOINED WORKFLOW"),
      "Run ID: " + resp.runId + "\n",
      "Playbook: " + resp.playbook + "\n",
      "Your Role: " + resp.roleName + " (" + resp.role + ")\n",
      "\n",
      "You are now the SECONDARY AGENT.",
      "\n\nContext from primary agent:\n",
      "- Primary status: " + resp.context.primaryStatus + "\n",
      "- Current artifact: " + resp.context.currentArtifact.GetOr(NoArtifact) + "\n",
      "- Summary: " + resp.context.conversationSummary + "\n",
      "\nYour protocol is below.\n\n" + Rule,
      "\n\n" + resp.protocol + "\n"];
    ConcatBoundaries(parts);
    ConcatContains(parts, 1);
    ConcatContains(parts, 3);
    ConcatContains(parts, 5);
    ConcatContains(parts, 8);
    Concat(parts)
  }

  function SelectionReport(runs: seq<PendingPairRun>, message: string): (r: string)
    ensures StartsWith(r, Heading("SELECTION NEEDED"))
    ensures Contains(r, "\nAvailable runs needing a second agent:\n" + PendingRunsList(runs) + "\n\n")
    ensures EndsWith(r, Footer)
  {
    var parts := [
      Heading("SELECTION NEEDED"),
      message + "\n",
      "\nAvailable runs needing a second agent:\n" + PendingRunsList(runs) + "\n\n",
      SelectionSteps,
      Footer];
    ConcatBoundaries(parts);
    ConcatContains(parts, 2);
    Concat(parts)
  }

  function MismatchReport(resp: PairResponse): (r: string)
    requires resp.ProjectMismatch?
    ensures StartsWith(r, Heading("PROJECT MISMATCH"))
    ensures Contains(r, "Required path: " + resp.requiredPath + "\n")
    ensures Contains(r, "Your current path: " + resp.currentPath + "\n")
    ensures EndsWith(r, Footer)
  {
    var parts := [
      Heading("PROJECT MISMATCH"),
      resp.message + "\n\n",
      "Required path: " + resp.requiredPath + "\n",
      "Your current path: " + resp.currentPath + "\n",
      "\n" + MismatchAdvice,
      Footer];
    ConcatBoundaries(parts);
    ConcatContains(parts, 2);
    ConcatContains(parts, 3);
    Concat(parts)
  }

  // ===== Active runs =====

  const NoActiveRuns := Heading("ACTIVE RUNS") + "No active runs found.\n" + Footer

  /** The caller's role in a run, when it has one. */
  function RoleInfo(myRole: Option<string>): string {
    match myRole
    case Some(role) => " (your role: " + role + ")"
    case None => ""
  }

  function ActiveRunEntry(run: ActiveRun): string {
    "- [" + run.runId + "] " + run.playbook + " - " + run.intent + " (" + run.status + ")"
    + RoleInfo(run.myRole) + "\n  Created: " + run.createdAt
  }

  /** The role note is spliced into a run's entry exactly when the caller has a role in it. */
  lemma ActiveRunRoleInfo(run: ActiveRun)
    ensures ActiveRunEntry(run) == ActiveRunEntry(run.(myRole := None)) <==> run.myRole.None?
    ensures run.myRole.Some? ==>
      Inserts(ActiveRunEntry(run.(myRole := None)), " (your role: " + run.myRole.value + ")", ActiveRunEntry(run))
  {
    var head := "- [" + run.runId + "] " + run.playbook + " - " + run.intent + " (" + run.status + ")";
    var tail := "\n  Created: " + run.createdAt;
    InsertsBetween(head, RoleInfo(run.myRole), tail);
    assert ActiveRunEntry(run.(myRole := None)) == head + tail;
    assert ActiveRunEntry(run) == head + RoleInfo(run.myRole) + tail;
  }

  /** `format_active_runs`: the fixed block exactly when there are no runs; otherwise every
      run's entry, consecutive entries separated by a blank line. */
  function FormatActiveRuns(resp: ListActiveRunsResponse): (r: string)
    ensures r == NoActiveRuns <==> resp.runs == []
    ensures forall i :: 0 <= i < |resp.runs| ==> Contains(r, ActiveRunEntry(resp.runs[i]))
    ensures forall i :: 0 <= i < |resp.runs| - 1 ==>
      Contains(r, ActiveRunEntry(resp.runs[i]) + "\n\n" + ActiveRunEntry(resp.runs[i + 1]))
  {
    var runs := resp.runs;
    if runs == [] then NoActiveRuns
    else
      var entries := seq(|runs|, i requires 0 <= i < |runs| => ActiveRunEntry(runs[i]));
      var list := Join(entries, "\n\n");
      JoinStartsWith(entries, "\n\n");
      DifferAfter(Heading("ACTIVE RUNS"), list, "\n" + Footer, "No active runs found.\n", Footer);
      FramedJoinContains(Heading("ACTIVE RUNS"), entries, "\n\n", "\n" + Footer);
      assert forall i :: 0 <= i < |runs| ==> entries[i] == ActiveRunEntry(runs[i]);
      Heading("ACTIVE RUNS") + list + ("\n" + Footer)
  }

  // ===== Playbooks =====

  const NoPlaybooks := Heading("AVAILABLE PLAYBOOKS") + "No playbooks available.\n" + Footer
  const PlaybookSeparator := "\n---\n\n"
  const NotSpecified := "(not specified)"
  const NoKeywords := "(none)"

  function RoleLine(role: PlaybookRoleInfo): string {
    "  - " + role.name + ": " + role.description + (if role.isInitiating then " [INITIATING]" else "")
  }

  /** The initiating marker is appended to a role's line exactly when the role initiates the
      run. */
  lemma InitiatingMarker(role: PlaybookRoleInfo)
    ensures role.isInitiating ==> RoleLine(role) == RoleLine(role.(isInitiating := false)) + " [INITIATING]"
    ensures !role.isInitiating ==>
      (RoleLine(role) == RoleLine(role.(isInitiating := true))[..|RoleLine(role)|]
       && |RoleLine(role)| < |RoleLine(role.(isInitiating := true))|)
  {
    var plain := "  - " + role.name + ": " + role.description;
    assert plain + "" == plain;
    assert (plain + " [INITIATING]")[..|plain|] == plain;
  }

  /** A list joined with ", ", or the placeholder when it is empty. */
  function ListOr(items: seq<string>, placeholder: string): string {
    if items == [] then placeholder else Join(items, ", ")
  }

  /** `format_single_playbook`. */
  function FormatSinglePlaybook(pb: PlaybookInfo): (r: string)
    ensures StartsWith(r, "## " + pb.name + " (" + pb.id + ")\n\n")
    ensures forall i :: 0 <= i < |pb.roles| ==> Contains(r, RoleLine(pb.roles[i]))
    ensures pb.bestFor == [] ==> Contains(r, "\n**Best for:** " + NotSpecified + "\n")
    ensures pb.bestFor != [] ==> Contains(r, "\n**Best for:** " + Join(pb.bestFor, ", ") + "\n")
    ensures pb.keywords == [] ==> Contains(r, "**Keywords:** " + NoKeywords + "\n")
    ensures pb.keywords != [] ==> Contains(r, "**Keywords:** " + Join(pb.keywords, ", ") + "\n")
    ensures EndsWith(r, "**Artifact mode:** " + (if pb.artifactMode then "true" else "false"))
  {
    var roleLines := seq(|pb.roles|, i requires 0 <= i < |pb.roles| => RoleLine(pb.roles[i]));
    var parts := [
      "## " + pb.name + " (" + pb.id + ")\n\n",
      pb.tagline + "\n\n" + pb.description + "\n\n**Roles:**\n",
      Join(roleLines, "\n"),
      "\n",
      "\n**Best for:** " + ListOr(pb.bestFor, NotSpecified) + "\n",
      "**Keywords:** " + ListOr(pb.keywords, NoKeywords) + "\n",
      "**Artifact mode:** " + (if pb.artifactMode then "true" else "false")];
    ConcatBoundaries(parts);
    ConcatContains(parts, 2);
    ConcatContains(parts, 4);
    ConcatContains(parts, 5);
    assert forall i :: 0 <= i < |pb.roles| ==> Contains(Concat(parts), RoleLine(pb.roles[i])) by {
      forall i | 0 <= i < |pb.roles| ensures Contains(Concat(parts), RoleLine(pb.roles[i])) {
        JoinContains(roleLines, "\n", i);
        ContainsTrans(Concat(parts), parts[2], roleLines[i]);
      }
    }
    Concat(parts)
  }

  /** `format_playbooks`: the fixed block exactly when there are no playbooks; otherwise every
      playbook, consecutive ones separated by a rule line of dashes. */
  function FormatPlaybooks(resp: ListPlaybooksResponse): (r: string)
    ensures r == NoPlaybooks <==> resp.playbooks == []
    ensures forall i :: 0 <= i < |resp.playbooks| ==> Contains(r, FormatSinglePlaybook(resp.playbooks[i]))
    ensures forall i :: 0 <= i < |resp.playbooks| - 1 ==>
      Contains(r, FormatSinglePlaybook(resp.playbooks[i]) + PlaybookSeparator + FormatSinglePlaybook(resp.playbooks[i + 1]))
  {
    var pbs := resp.playbooks;
    if pbs == [] then NoPlaybooks
    else
      var entries := seq(|pbs|, i requires 0 <= i < |pbs| => FormatSinglePlaybook(pbs[i]));
      var list := Join(entries, PlaybookSeparator);
      JoinStartsWith(entries, PlaybookSeparator);
      DifferAfter(Heading("AVAILABLE PLAYBOOKS"), list, "\n" + Footer, "No playbooks available.\n", Footer);
      FramedJoinContains(Heading("AVAILABLE PLAYBOOKS"), entries, PlaybookSeparator, "\n" + Footer);
      assert forall i :: 0 <= i < |pbs| ==> entries[i] == FormatSinglePlaybook(pbs[i]);
      Heading("AVAILABLE PLAYBOOKS") + list + ("\n" + Footer)
  }
}

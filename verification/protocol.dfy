/** The protocol tools: the Markdown an agent receives as its instructions, and the plain-text
    run status. */
module Protocol {
  import opened Wrappers
  import opened Text
  import opened Messages
  import opened Console

  // ===== Protocol =====

  const NoProtocolInstructions := "(No protocol instructions available)"
  const NoInitializationCondition := "(No initialization condition set)"
  const ResolveImpedimentsLine :=
    "- **Can resolve impediments**: You can use `resolve_impediment` to resolve blockers raised by other agents"

  /** The role's own instructions, only when the backend sent a non-empty text. */
  function RoleSection(roleProtocol: Option<string>): string {
    match roleProtocol
    case Some(rp) => if rp != "" then "\n## Your Role Instructions\n\n" + rp + "\n" else ""
    case None => ""
  }

  /** One line per capability the role holds; the section only when there is a line. */
  function CapabilitiesSection(capabilities: Option<RoleCapabilities>): string {
    match capabilities
    case Some(caps) =>
      var lines := if caps.canResolveImpediments then [ResolveImpedimentsLine] else [];
      if lines == [] then "" else "\n## Your Capabilities\n\n" + Join(lines, "\n") + "\n"
    case None => ""
  }

  function ProtocolParts(resp: GetProtocolResponse, role: string, capabilities: string): seq<string> {
    [ "# Hotwired Workflow Protocol\n\n",
      "**Run ID:** " + resp.runId + "\n",
      "**Playbook:** " + resp.templateName + "\n",
      "\n## Protocol Instructions\n\n" + resp.playbookProtocol.GetOr(NoProtocolInstructions) + "\n",
      role,
      capabilities,
      "\n## Initialization Condition\n\n" + resp.initializationCondition.GetOr(NoInitializationCondition) + "\n" ]
  }

  /** `format_protocol_response`. */
  function FormatProtocolResponse(resp: GetProtocolResponse): (r: string)
    ensures StartsWith(r, "# Hotwired Workflow Protocol\n\n")
    ensures Contains(r, "**Run ID:** " + resp.runId + "\n")
    ensures Contains(r, "**Playbook:** " + resp.templateName + "\n")
    ensures resp.playbookProtocol.Some? ==>
      Contains(r, "\n## Protocol Instructions\n\n" + resp.playbookProtocol.value + "\n")
    ensures resp.playbookProtocol.None? ==>
      Contains(r, "\n## Protocol Instructions\n\n" + NoProtocolInstructions + "\n")
    ensures resp.initializationCondition.Some? ==>
      EndsWith(r, "\n## Initialization Condition\n\n" + resp.initializationCondition.value + "\n")
    ensures resp.initializationCondition.None? ==>
      EndsWith(r, "\n## Initialization Condition\n\n" + NoInitializationCondition + "\n")
  {
    var parts := ProtocolParts(resp, RoleSection(resp.roleProtocol), CapabilitiesSection(resp.capabilities));
    ConcatBoundaries(parts);
    ConcatContains(parts, 1);
    ConcatContains(parts, 2);
    ConcatContains(parts, 3);
    Concat(parts)
  }

  /** The role-instructions section is spliced in exactly when the role text is present and
      non-empty: an empty text prints like an absent one. */
  lemma ProtocolRoleSection(resp: GetProtocolResponse)
    ensures FormatProtocolResponse(resp) == FormatProtocolResponse(resp.(roleProtocol := None))
      <==> resp.roleProtocol.None? || resp.roleProtocol.value == ""
    ensures resp.roleProtocol.Some? && resp.roleProtocol.value != "" ==>
      Inserts(FormatProtocolResponse(resp.(roleProtocol := None)),
              "\n## Your Role Instructions\n\n" + resp.roleProtocol.value + "\n",
              FormatProtocolResponse(resp))
  {
    var caps := CapabilitiesSection(resp.capabilities);
    var parts := ProtocolParts(resp, "", caps);
    assert FormatProtocolResponse(resp.(roleProtocol := None)) == Concat(parts);
    if resp.roleProtocol.Some? && resp.roleProtocol.value != "" {
      var section := RoleSection(resp.roleProtocol);
      ConcatFillPart(parts, 4, section);
      assert parts[4 := section] == ProtocolParts(resp, section, caps);
    }
  }

  /** The capabilities section is spliced in exactly when the role may resolve impediments:
      capabilities that grant nothing print like absent ones. */
  lemma ProtocolCapabilitiesSection(resp: GetProtocolResponse)
    ensures FormatProtocolResponse(resp) == FormatProtocolResponse(resp.(capabilities := None))
      <==> !(resp.capabilities.Some? && resp.capabilities.value.canResolveImpediments)
    ensures resp.capabilities.Some? && resp.capabilities.value.canResolveImpediments ==>
      Inserts(FormatProtocolResponse(resp.(capabilities := None)),
              "\n## Your Capabilities\n\n" + ResolveImpedimentsLine + "\n",
              FormatProtocolResponse(resp))
  {
    var role := RoleSection(resp.roleProtocol);
    var parts := ProtocolParts(resp, role, "");
    assert FormatProtocolResponse(resp.(capabilities := None)) == Concat(parts);
    if resp.capabilities.Some? && resp.capabilities.value.canResolveImpediments {
      var section := CapabilitiesSection(resp.capabilities);
      assert section == "\n## Your Capabilities\n\n" + ResolveImpedimentsLine + "\n";
      ConcatFillPart(parts, 5, section);
      assert parts[5 := section] == ProtocolParts(resp, role, section);
    }
  }

  /** The project name is never shown. */
  lemma ProtocolIgnoresProjectName(resp: GetProtocolResponse)
    ensures FormatProtocolResponse(resp) == FormatProtocolResponse(resp.(projectName := None))
  {
  }

  // ===== Run status =====

  function AgentLine(agent: ConnectedAgent): string {
    "  - " + agent.roleId + ": " + agent.sessionName + " (" + agent.agentType + ")"
  }

  /** An agent whose fields hold no line breaks, so that its entry is exactly one line. */
  predicate SingleLineAgent(agent: ConnectedAgent) {
    OneLine(agent.roleId) && OneLine(agent.sessionName) && OneLine(agent.agentType)
  }

  /** The connected-agents block: a placeholder exactly when no agent is connected, and
      otherwise one line per agent, in the reply's order. */
  function AgentsBlock(agents: seq<ConnectedAgent>): (r: string)
    ensures r == "  (no agents connected)" <==> agents == []
    ensures agents != [] && (forall i :: 0 <= i < |agents| ==> SingleLineAgent(agents[i])) ==>
      Lines(r) == seq(|agents|, i requires 0 <= i < |agents| => AgentLine(agents[i]))
  {
    if agents == [] then "  (no agents connected)"
    else
      var lines := seq(|agents|, i requires 0 <= i < |agents| => AgentLine(agents[i]));
      var r := Join(lines, "\n");
      assert r[2] == '-' by {
        if |lines| > 1 {
          assert r == lines[0] + "\n" + Join(lines[1..], "\n");
        }
      }
      assert "  (no agents connected)"[2] == '(';
      assert (forall i :: 0 <= i < |agents| ==> SingleLineAgent(agents[i])) ==> Lines(r) == lines by {
        if forall i :: 0 <= i < |agents| ==> SingleLineAgent(agents[i]) {
          assert forall i :: 0 <= i < |lines| ==> '\n' !in lines[i];
          SplitJoin(lines, '\n');
        }
      }
      r
  }

  /** `format_run_status_response`: the five run fields on consecutive lines under the banner,
      a blank line, the connected-agents block, a blank line and the closing rule. */
  function FormatRunStatusResponse(resp: GetRunStatusResponse): (r: string)
    ensures StartsWith(r, Heading("RUN STATUS") + "Run ID: " + resp.runId + "\nStatus: " + resp.status
                          + "\nPhase: " + resp.phase)
    ensures EndsWith(r, "\nTemplate: " + resp.templateName
                        + "\nHas Protocol: " + (if resp.hasProtocol then "true" else "false")
                        + "\n\nConnected Agents:\n" + AgentsBlock(resp.connectedAgents) + "\n\n" + Rule + "\n")
    // nothing lies between the two: the Phase line is followed directly by the Template line
    ensures |r| == |Heading("RUN STATUS") + "Run ID: " + resp.runId + "\nStatus: " + resp.status
                    + "\nPhase: " + resp.phase|
                 + |"\nTemplate: " + resp.templateName
                    + "\nHas Protocol: " + (if resp.hasProtocol then "true" else "false")
                    + "\n\nConnected Agents:\n" + AgentsBlock(resp.connectedAgents) + "\n\n" + Rule + "\n"|
  {
    var fields := Heading("RUN STATUS") + "Run ID: " + resp.runId + "\nStatus: " + resp.status
                  + "\nPhase: " + resp.phase;
    var rest := "\nTemplate: " + resp.templateName
                + "\nHas Protocol: " + (if resp.hasProtocol then "true" else "false")
                + "\n\nConnected Agents:\n" + AgentsBlock(resp.connectedAgents) + "\n\n" + Rule + "\n";
    Affixes(fields, rest);
    fields + rest
  }
}

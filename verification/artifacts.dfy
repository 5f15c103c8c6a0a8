/** The doc-artifact tools: the validators run on agent input before a request is sent, and
    the formatters that turn backend replies into the Markdown the agent reads. */
module Artifacts {
  import opened Wrappers
  import opened Text
  import opened Decimal
  import opened Utf8
  import opened Messages
  import Validation

  // ===== Validators =====

  const EditTypes: seq<string> := ["replace_range", "insert", "append", "full_replace"]
  const CommentTypes: seq<string> := ["comment", "question", "suggestion", "issue"]
  const ResolveActions: seq<string> := ["accept", "reject", "reply", "address", "resolve"]
  const SuggestionStatuses: seq<string> := ["pending", "accepted", "rejected", "all"]

  /** `validate_edit_type`. */
  function ValidateEditType(editType: string): (r: Result<(), string>)
    ensures r.Ok? <==> editType in {"replace_range", "insert", "append", "full_replace"}
    ensures r.Err? ==> StartsWith(r.error, "Invalid edit type '" + editType + "'")
    ensures r.Err? ==> forall i :: 0 <= i < |EditTypes| ==> Contains(r.error, EditTypes[i])
  {
    assert "Invalid " + "edit type" + " '" == "Invalid edit type '";
    Validation.OneOf(editType, EditTypes, "edit type")
  }

  /** `validate_comment_type`. */
  function ValidateCommentType(commentType: string): (r: Result<(), string>)
    ensures r.Ok? <==> commentType in {"comment", "question", "suggestion", "issue"}
    ensures r.Err? ==> StartsWith(r.error, "Invalid comment type '" + commentType + "'")
    ensures r.Err? ==> forall i :: 0 <= i < |CommentTypes| ==> Contains(r.error, CommentTypes[i])
  {
    assert "Invalid " + "comment type" + " '" == "Invalid comment type '";
    Validation.OneOf(commentType, CommentTypes, "comment type")
  }

  /** `validate_resolve_action`. */
  function ValidateResolveAction(action: string): (r: Result<(), string>)
    ensures r.Ok? <==> action in {"accept", "reject", "reply", "address", "resolve"}
    ensures r.Err? ==> StartsWith(r.error, "Invalid action '" + action + "'")
    ensures r.Err? ==> forall i :: 0 <= i < |ResolveActions| ==> Contains(r.error, ResolveActions[i])
  {
    assert "Invalid " + "action" + " '" == "Invalid action '";
    Validation.OneOf(action, ResolveActions, "action")
  }

  /** `validate_suggestion_status`. */
  function ValidateSuggestionStatus(status: string): (r: Result<(), string>)
    ensures r.Ok? <==> status in {"pending", "accepted", "rejected", "all"}
    ensures r.Err? ==> StartsWith(r.error, "Invalid status '" + status + "'")
    ensures r.Err? ==> forall i :: 0 <= i < |SuggestionStatuses| ==> Contains(r.error, SuggestionStatuses[i])
  {
    assert "Invalid " + "status" + " '" == "Invalid status '";
    Validation.OneOf(status, SuggestionStatuses, "status")
  }

  // ===== Shared pieces =====

  /** Rust's `Display` for `bool`. */
  function BoolText(b: bool): string {
    if b then "true" else "false"
  }

  /** A labelled line printed only when the field is present. */
  function OptLine(caption: string, value: Option<string>): string {
    match value
    case Some(v) => caption + v + "\n"
    case None => ""
  }

  // ===== Read =====

  function InlineCommentLine(c: InlineComment): string {
    "- [" + c.id + "] Line " + IntToString(c.lineNumber) + ": " + c.commentType
    + " (" + c.author + ") - \"" + c.preview + "\"\n"
  }

  /** The inline-comments section: present only for a non-empty list, one line per comment. */
  function InlineCommentsSection(comments: Option<seq<InlineComment>>): (r: string)
    ensures comments.Some? ==>
      forall i :: 0 <= i < |comments.value| ==> Contains(r, InlineCommentLine(comments.value[i]))
  {
    match comments
    case None => ""
    case Some(cs) =>
      if |cs| == 0 then ""
      else
        var lines := seq(|cs|, i requires 0 <= i < |cs| => InlineCommentLine(cs[i]));
        assert forall i :: 0 <= i < |cs| ==>
          Contains("### Inline Comments\n" + Concat(lines) + "\n", InlineCommentLine(cs[i])) by {
          forall i | 0 <= i < |cs|
            ensures Contains("### Inline Comments\n" + Concat(lines) + "\n", InlineCommentLine(cs[i]))
          {
            ConcatContains(lines, i);
            ContainsWithin("### Inline Comments\n", Concat(lines), "\n", lines[i]);
          }
        }
        "### Inline Comments\n" + Concat(lines) + "\n"
  }

  /** `format_read_response`. */
  function FormatReadResponse(resp: ReadResponse): (r: string)
    ensures StartsWith(r, "## Document: " + resp.filename + "\n\n")
    ensures Contains(r, "**Content Hash:** `" + resp.contentHash + "`\n")
    ensures Contains(r, "**Lines:** " + IntToString(resp.returnedLines) + "/" + IntToString(resp.totalLines)
                        + " (offset: " + IntToString(resp.offset) + ", has_more: " + BoolText(resp.hasMore) + ")\n\n")
    ensures EndsWith(r, "### Content\n\n```markdown\n" + resp.content + "\n```\n")
    ensures resp.comments.Some? ==>
      forall i :: 0 <= i < |resp.comments.value| ==> Contains(r, InlineCommentLine(resp.comments.value[i]))
  {
    var parts := [
      "## Document: " + resp.filename + "\n\n",
      "**Content Hash:** `" + resp.contentHash + "`\n",
      "**Lines:** " + IntToString(resp.returnedLines) + "/" + IntToString(resp.totalLines)
        + " (offset: " + IntToString(resp.offset) + ", has_more: " + BoolText(resp.hasMore) + ")\n\n",
      InlineCommentsSection(resp.comments),
      "### Content\n\n```markdown\n" + resp.content + "\n```\n"];
    ConcatBoundaries(parts);
    ConcatContains(parts, 1);
    ConcatContains(parts, 2);
    ConcatContains(parts, 3);
    assert resp.comments.Some? ==>
      forall i :: 0 <= i < |resp.comments.value| ==> Contains(Concat(parts), InlineCommentLine(resp.comments.value[i])) by {
      if resp.comments.Some? {
        forall i | 0 <= i < |resp.comments.value|
          ensures Contains(Concat(parts), InlineCommentLine(resp.comments.value[i]))
        {
          ContainsTrans(Concat(parts), parts[3], InlineCommentLine(resp.comments.value[i]));
        }
      }
    }
    Concat(parts)
  }

  /** The inline-comments section is spliced in when the reply carries a non-empty comment
      list, and the output is otherwise the one for a reply without comments. */
  lemma ReadCommentsSection(resp: ReadResponse)
    ensures resp.comments.None? || resp.comments.value == [] ==>
      FormatReadResponse(resp) == FormatReadResponse(resp.(comments := None))
    ensures resp.comments.Some? && resp.comments.value != [] ==>
      Inserts(FormatReadResponse(resp.(comments := None)), InlineCommentsSection(resp.comments), FormatReadResponse(resp))
      && StartsWith(InlineCommentsSection(resp.comments), "### Inline Comments\n")
      && FormatReadResponse(resp) != FormatReadResponse(resp.(comments := None))
  {
    var base := resp.(comments := None);
    var parts := [
      "## Document: " + resp.filename + "\n\n",
      "**Content Hash:** `" + resp.contentHash + "`\n",
      "**Lines:** " + IntToString(resp.returnedLines) + "/" + IntToString(resp.totalLines)
        + " (offset: " + IntToString(resp.offset) + ", has_more: " + BoolText(resp.hasMore) + ")\n\n",
      "",
      "### Content\n\n```markdown\n" + resp.content + "\n```\n"];
    assert FormatReadResponse(base) == Concat(parts);
    var section := InlineCommentsSection(resp.comments);
    if resp.comments.Some? && resp.comments.value != [] {
      var cs := resp.comments.value;
      var lines := seq(|cs|, i requires 0 <= i < |cs| => InlineCommentLine(cs[i]));
      assert section == "### Inline Comments\n" + (Concat(lines) + "\n");
      Affixes("### Inline Comments\n", Concat(lines) + "\n");
      ConcatFillPart(parts, 3, section);
      assert parts[3 := section] == [parts[0], parts[1], parts[2], section, parts[4]];
    } else {
      assert section == "";
      assert parts == [parts[0], parts[1], parts[2], section, parts[4]];
    }
  }

  // ===== Edit =====

  const ConflictAdvice := "\n**Resolution:** Call `doc_artifact_read` to get the latest content and hash, then retry your edit."

  /** The report for an edit refused because the document changed since it was read. */
  function ConflictReport(conflict: EditConflict): (r: string)
    ensures StartsWith(r, "⚠️ **CONFLICT DETECTED**\n\n")
    ensures Contains(r, "- Expected hash: `" + conflict.expectedHash + "`\n")
    ensures Contains(r, "- Actual hash: `" + conflict.actualHash + "`\n")
  {
    var parts := [
      "⚠️ **CONFLICT DETECTED**\n\n",
      "The document was modified since you last read it.\n",
      "- Expected hash: `" + conflict.expectedHash + "`\n",
      "- Actual hash: `" + conflict.actualHash + "`\n",
      ConflictAdvice];
    ConcatBoundaries(parts);
    ConcatContains(parts, 2);
    ConcatContains(parts, 3);
    Concat(parts)
  }

  /** The report for an applied edit. */
  function EditReport(resp: EditResponse): (r: string)
    ensures StartsWith(r, "✓ Edit successful (ID: " + resp.editId + ")\n\n")
    ensures Contains(r, "**New content hash:** `" + resp.newContentHash + "`\n")
  {
    var parts := [
      "✓ Edit successful (ID: " + resp.editId + ")\n\n",
      "**New content hash:** `" + resp.newContentHash + "`\n",
      if |resp.affectedComments| > 0 then AffectedCommentsNote(resp.affectedComments) else ""];
    ConcatBoundaries(parts);
    ConcatContains(parts, 1);
    Concat(parts)
  }

  /** `format_edit_response`. */
  function FormatEditResponse(resp: EditResponse): (r: string)
    ensures !resp.success && resp.conflict.Some? ==>
      StartsWith(r, "⚠️ **CONFLICT DETECTED**\n\n")
      && Contains(r, "- Expected hash: `" + resp.conflict.value.expectedHash + "`\n")
      && Contains(r, "- Actual hash: `" + resp.conflict.value.actualHash + "`\n")
    ensures !resp.success && resp.conflict.None? ==> r == "Edit failed for unknown reason."
    ensures resp.success ==>
      StartsWith(r, "✓ Edit successful (ID: " + resp.editId + ")\n\n")
      && Contains(r, "**New content hash:** `" + resp.newContentHash + "`\n")
  {
    if resp.success then EditReport(resp)
    else
      match resp.conflict
      case Some(conflict) => ConflictReport(conflict)
      case None => "Edit failed for unknown reason."
  }

  function AffectedCommentsNote(ids: seq<string>): string {
    "\n**Affected comments:** " + Join(ids, ", ")
    + "\nThese comments may need to be reviewed as their positions may have shifted."
  }

  /** The affected-comments note is appended to a successful edit's output exactly when the
      list is non-empty; a failed edit never shows it. */
  lemma EditAffectedComments(resp: EditResponse)
    ensures !resp.success || resp.affectedComments == [] ==>
      FormatEditResponse(resp) == FormatEditResponse(resp.(affectedComments := []))
    ensures resp.success && resp.affectedComments != [] ==>
      FormatEditResponse(resp) == FormatEditResponse(resp.(affectedComments := []))
        + "\n**Affected comments:** " + Join(resp.affectedComments, ", ")
        + "\nThese comments may need to be reviewed as their positions may have shifted."
  {
    if resp.success && resp.affectedComments != [] {
      var note := AffectedCommentsNote(resp.affectedComments);
      var parts := [
        "✓ Edit successful (ID: " + resp.editId + ")\n\n",
        "**New content hash:** `" + resp.newContentHash + "`\n"];
      ConcatSnoc(parts, "");
      ConcatSnoc(parts, note);
      assert parts + [""] == [parts[0], parts[1], ""];
      assert parts + [note] == [parts[0], parts[1], note];
      assert EditReport(resp.(affectedComments := [])) == Concat(parts);
      assert EditReport(resp) == Concat(parts) + note;
    }
  }

  // ===== Search =====

  function MatchBlock(number: int, m: SearchMatch): string {
    Concat([
      "### Match " + IntToString(number) + " (Line " + IntToString(m.lineNumber) + ", chars "
        + IntToString(m.charStart) + "-" + IntToString(m.charEnd) + ")\n",
      OptLine("**Section:** ", m.section),
      "**Matched text:** `" + m.matchText + "`\n\n```\n" + m.context + "\n```\n\n"])
  }

  /** A match's section line is spliced in exactly when the match names a section. */
  lemma MatchSectionLine(number: int, m: SearchMatch)
    ensures m.section.Some? ==>
      Inserts(MatchBlock(number, m.(section := None)), "**Section:** " + m.section.value + "\n", MatchBlock(number, m))
      && MatchBlock(number, m) != MatchBlock(number, m.(section := None))
  {
    if m.section.Some? {
      var parts := [
        "### Match " + IntToString(number) + " (Line " + IntToString(m.lineNumber) + ", chars "
          + IntToString(m.charStart) + "-" + IntToString(m.charEnd) + ")\n",
        "",
        "**Matched text:** `" + m.matchText + "`\n\n```\n" + m.context + "\n```\n\n"];
      var line := "**Section:** " + m.section.value + "\n";
      ConcatFillPart(parts, 1, line);
      assert parts[1 := line] == [parts[0], line, parts[2]];
    }
  }

  function SearchHeader(resp: SearchResponse): string {
    "## Search Results for: \"" + resp.query + "\"\n\n**Total matches:** " + IntToString(resp.totalMatches) + "\n\n"
  }

  /** The match blocks, numbered from 1 in reply order. */
  function MatchBlocks(rs: seq<SearchMatch>): (blocks: seq<string>)
    ensures |blocks| == |rs|
    ensures forall i :: 0 <= i < |rs| ==> blocks[i] == MatchBlock(i + 1, rs[i])
  {
    seq(|rs|, i requires 0 <= i < |rs| => MatchBlock(i + 1, rs[i]))
  }

  /** `format_search_response`: the matches numbered from 1 in reply order, or a fixed line
      when there are none. */
  function FormatSearchResponse(resp: SearchResponse): (r: string)
    ensures StartsWith(r, SearchHeader(resp))
    ensures resp.results == [] ==> r == SearchHeader(resp) + "No matches found.\n"
    ensures forall i :: 0 <= i < |resp.results| ==> Contains(r, MatchBlock(i + 1, resp.results[i]))
  {
    if |resp.results| == 0 then SearchHeader(resp) + "No matches found.\n"
    else
      var blocks := MatchBlocks(resp.results);
      HeadedConcatContains(SearchHeader(resp), blocks);
      Affixes(SearchHeader(resp), Concat(blocks));
      SearchHeader(resp) + Concat(blocks)
  }

  /** The matches follow the header once each, in reply order: one more match adds its block,
      numbered after the others, at the very end. */
  lemma SearchInReplyOrder(resp: SearchResponse, m: SearchMatch)
    ensures resp.results == [] ==>
      FormatSearchResponse(resp.(results := [m])) == SearchHeader(resp) + MatchBlock(1, m)
    ensures resp.results != [] ==>
      FormatSearchResponse(resp.(results := resp.results + [m]))
        == FormatSearchResponse(resp) + MatchBlock(|resp.results| + 1, m)
  {
    var rs := resp.results;
    var more := resp.(results := rs + [m]);
    var header := SearchHeader(resp);
    var blocks := MatchBlocks(rs);
    var block := MatchBlock(|rs| + 1, m);
    MatchBlocksSnoc(rs, m);
    ConcatSnoc(blocks, block);
    SearchListed(more);
    assert SearchHeader(more) == header;
  }

  /** A non-empty search reply is its header followed by its match blocks. */
  lemma SearchListed(resp: SearchResponse)
    requires resp.results != []
    ensures FormatSearchResponse(resp) == SearchHeader(resp) + Concat(MatchBlocks(resp.results))
  {
  }

  lemma MatchBlocksSnoc(rs: seq<SearchMatch>, m: SearchMatch)
    ensures MatchBlocks(rs + [m]) == MatchBlocks(rs) + [MatchBlock(|rs| + 1, m)]
  {
    var more := rs + [m];
    assert forall i :: 0 <= i < |rs| ==> more[i] == rs[i];
  }

  // ===== Comments =====

  function CommentStatusIcon(status: string): string {
    match status
    case "open" => "🔵"
    case "resolved" => "✅"
    case "rejected" => "❌"
    case _ => "⚪"
  }

  function CommentTypeIcon(commentType: string): string {
    match commentType
    case "comment" => "💬"
    case "question" => "❓"
    case "suggestion" => "💡"
    case "issue" => "⚠️"
    case _ => "📝"
  }

  /** Bytes of a selected text shown in a comment listing, before "...". */
  const CommentPreviewBytes := 50

  /** Who resolved a comment and with what note: shown only once the comment is no longer
      open. */
  function ResolutionLines(c: CommentDetail): string {
    if c.status == "open" then ""
    else OptLine("**Resolved by:** ", c.resolvedBy) + OptLine("**Resolution note:** ", c.resolutionNote)
  }

  function SelectedTextLine(selection: Option<string>): string {
    match selection
    case Some(t) => "**Selected text:** \"" + Preview(t, CommentPreviewBytes) + "\"\n"
    case None => ""
  }

  function SuggestedReplacementLine(suggested: Option<string>): string {
    match suggested
    case Some(t) => "**Suggested replacement:** \"" + t + "\"\n"
    case None => ""
  }

  /** One comment of `format_comments_response`. */
  function CommentBlock(c: CommentDetail): (r: string)
    ensures StartsWith(r, "### " + CommentStatusIcon(c.status) + " " + CommentTypeIcon(c.commentType)
                          + " [" + c.id + "] - " + c.commentType + " (by " + c.author + ")\n")
    ensures Contains(r, "**Selection:** chars " + IntToString(c.selectionStart) + "-" + IntToString(c.selectionEnd) + "\n")
    ensures Contains(r, "**Content:** " + c.content + "\n")
    ensures c.selectionText.Some? ==>
      Contains(r, "**Selected text:** \"" + Preview(c.selectionText.value, 50) + "\"\n")
    ensures c.suggestedText.Some? ==>
      Contains(r, "**Suggested replacement:** \"" + c.suggestedText.value + "\"\n")
    ensures c.status != "open" && c.resolvedBy.Some? ==>
      Contains(r, "**Resolved by:** " + c.resolvedBy.value + "\n")
    ensures c.status != "open" && c.resolutionNote.Some? ==>
      Contains(r, "**Resolution note:** " + c.resolutionNote.value + "\n")
    ensures EndsWith(r, "**Created:** " + c.createdAt + "\n\n")
  {
    var parts := [
      "### " + CommentStatusIcon(c.status) + " " + CommentTypeIcon(c.commentType)
        + " [" + c.id + "] - " + c.commentType + " (by " + c.author + ")\n",
      "**Selection:** chars " + IntToString(c.selectionStart) + "-" + IntToString(c.selectionEnd) + "\n",
      SelectedTextLine(c.selectionText),
      "**Content:** " + c.content + "\n",
      SuggestedReplacementLine(c.suggestedText),
      ResolutionLines(c),
      "**Created:** " + c.createdAt + "\n\n"];
    ConcatBoundaries(parts);
    ConcatContains(parts, 1);
    ConcatContains(parts, 2);
    ConcatContains(parts, 3);
    ConcatContains(parts, 4);
    ConcatContains(parts, 5);
    assert c.selectionText.Some? ==> Contains(parts[2], parts[2]) by {
      ContainsMiddle("", parts[2], "");
      assert "" + parts[2] + "" == parts[2];
    }
    assert c.suggestedText.Some? ==> Contains(parts[4], parts[4]) by {
      ContainsMiddle("", parts[4], "");
      assert "" + parts[4] + "" == parts[4];
    }
    assert c.status != "open" ==>
      Contains(parts[5], OptLine("**Resolved by:** ", c.resolvedBy))
      && Contains(parts[5], OptLine("**Resolution note:** ", c.resolutionNote)) by {
      if c.status != "open" {
        var resolver, note := OptLine("**Resolved by:** ", c.resolvedBy), OptLine("**Resolution note:** ", c.resolutionNote);
        ContainsMiddle("", resolver, note);
        ContainsMiddle(resolver, note, "");
        assert "" + resolver + note == resolver + note == resolver + note + "";
      }
    }
    assert c.status != "open" ==>
      Contains(Concat(parts), OptLine("**Resolved by:** ", c.resolvedBy))
      && Contains(Concat(parts), OptLine("**Resolution note:** ", c.resolutionNote)) by {
      if c.status != "open" {
        ContainsTrans(Concat(parts), parts[5], OptLine("**Resolved by:** ", c.resolvedBy));
        ContainsTrans(Concat(parts), parts[5], OptLine("**Resolution note:** ", c.resolutionNote));
      }
    }
    Concat(parts)
  }

  /** While a comment is open its resolver and resolution note are not shown, and the
      resolution time is never shown. */
  lemma OpenCommentHidesResolution(c: CommentDetail)
    ensures c.status == "open" ==>
      CommentBlock(c) == CommentBlock(c.(resolvedBy := None, resolutionNote := None))
    ensures CommentBlock(c) == CommentBlock(c.(resolvedAt := None))
  {
  }

  function CommentsHeader(resp: ListCommentsResponse): string {
    "## Comments on Artifact: " + resp.artifactId + "\n\n**Total:** " + IntToString(|resp.comments|) + " comments\n\n"
  }

  /** `format_comments_response`: every comment's block, or a fixed line when there are
      none. */
  function FormatCommentsResponse(resp: ListCommentsResponse): (r: string)
    ensures StartsWith(r, CommentsHeader(resp))
    ensures resp.comments == [] ==> r == CommentsHeader(resp) + "No comments found matching the filter.\n"
    ensures forall i :: 0 <= i < |resp.comments| ==> Contains(r, CommentBlock(resp.comments[i]))
  {
    var cs := resp.comments;
    if |cs| == 0 then CommentsHeader(resp) + "No comments found matching the filter.\n"
    else
      var blocks := CommentBlocks(cs);
      HeadedConcatContains(CommentsHeader(resp), blocks);
      CommentsHeader(resp) + Concat(blocks)
  }

  /** The blocks of a reply, one per element in reply order. */
  function CommentBlocks(cs: seq<CommentDetail>): (blocks: seq<string>)
    ensures |blocks| == |cs|
    ensures forall i :: 0 <= i < |cs| ==> blocks[i] == CommentBlock(cs[i])
  {
    seq(|cs|, i requires 0 <= i < |cs| => CommentBlock(cs[i]))
  }

  /** A non-empty reply is its header followed by its blocks. */
  lemma CommentsListed(resp: ListCommentsResponse)
    requires resp.comments != []
    ensures FormatCommentsResponse(resp) == CommentsHeader(resp) + Concat(CommentBlocks(resp.comments))
  {
  }

  /** The comments follow the header once each, in reply order: one more comment adds its
      block at the very end (and the header's count goes up by one). */
  lemma CommentsInReplyOrder(resp: ListCommentsResponse, c: CommentDetail)
    ensures resp.comments == [] ==>
      FormatCommentsResponse(resp.(comments := [c])) == CommentsHeader(resp.(comments := [c])) + CommentBlock(c)
    ensures resp.comments != [] ==>
      var more := resp.(comments := resp.comments + [c]);
      FormatCommentsResponse(more)
        == CommentsHeader(more) + FormatCommentsResponse(resp)[|CommentsHeader(resp)|..] + CommentBlock(c)
  {
    var cs := resp.comments;
    var more := resp.(comments := cs + [c]);
    var blocks := CommentBlocks(cs);
    CommentBlocksSnoc(cs, c);
    ConcatSnoc(blocks, CommentBlock(c));
    CommentsListed(more);
    if cs != [] {
      CommentsListed(resp);
    }
  }

  lemma CommentBlocksSnoc(cs: seq<CommentDetail>, c: CommentDetail)
    ensures CommentBlocks(cs + [c]) == CommentBlocks(cs) + [CommentBlock(c)]
  {
    var more := cs + [c];
    assert forall i :: 0 <= i < |cs| ==> more[i] == cs[i];
  }

  /** Wherever the Rust code's 50-byte slice does not panic, a comment's block shows exactly the
      preview it prints. */
  lemma CommentPreviewAsWritten(c: CommentDetail)
    ensures c.selectionText.Some? && PreviewAsWritten(c.selectionText.value, CommentPreviewBytes).Some? ==>
      Contains(CommentBlock(c),
               "**Selected text:** \"" + PreviewAsWritten(c.selectionText.value, CommentPreviewBytes).value + "\"\n")
  {
    if c.selectionText.Some? && PreviewAsWritten(c.selectionText.value, CommentPreviewBytes).Some? {
      PreviewAgrees(c.selectionText.value, CommentPreviewBytes);
    }
  }

  // ===== Artifact list =====

  /** Bytes of the content hash shown in the artifact list. */
  const ShortHashBytes := 8

  /** `&content_hash[..8]` does not panic for any listed artifact. */
  predicate HashesSliceable(artifacts: seq<ArtifactSummary>) {
    forall i :: 0 <= i < |artifacts| ==> IsBoundary(artifacts[i].contentHash, ShortHashBytes)
  }

  /** One artifact of `format_list_response`, showing the first eight bytes of its hash. */
  function ArtifactEntry(a: ArtifactSummary): (r: string)
    requires IsBoundary(a.contentHash, ShortHashBytes)
    ensures StartsWith(r, "- **" + a.filename + "** (" + a.documentType + ")\n")
    ensures Contains(r, "  ID: `" + a.id + "`\n")
    ensures Contains(r, " | Hash: `" + BytePrefix(a.contentHash, 8) + "`\n")
  {
    var parts := [
      "- **" + a.filename + "** (" + a.documentType + ")\n",
      "  ID: `" + a.id + "`\n",
      "  Lines: " + IntToString(a.totalLines),
      " | Hash: `" + BytePrefix(a.contentHash, ShortHashBytes) + "`\n",
      "  Updated: " + a.updatedAt + "\n\n"];
    ConcatBoundaries(parts);
    ConcatContains(parts, 1);
    ConcatContains(parts, 3);
    Concat(parts)
  }

  /** A hash shorter than eight bytes cannot be shortened: the Rust code's slice panics. */
  lemma ShortHashNotSliceable(hash: string)
    requires ByteLen(hash) < ShortHashBytes
    ensures !IsBoundary(hash, ShortHashBytes)
  {
    forall k | 0 <= k <= |hash|
      ensures ByteLen(hash[..k]) != ShortHashBytes
    {
      ByteLenPrefixAtMost(hash, k);
    }
  }

  /** An ASCII hash (such as a hex digest) of at least eight characters can always be
      shortened, and the shortened form is its first eight characters. */
  lemma AsciiHashShortens(hash: string)
    requires |hash| >= ShortHashBytes
    requires forall i :: 0 <= i < |hash| ==> hash[i] as int < 0x80
    ensures IsBoundary(hash, ShortHashBytes)
    ensures BytePrefix(hash, ShortHashBytes) == hash[..ShortHashBytes]
  {
    ByteLenAscii(hash[..ShortHashBytes]);
    var p := BytePrefix(hash, ShortHashBytes);
    ByteLenAscii(p);
  }

  function ListHeader(resp: ListResponse): string {
    "## Artifacts in Run: " + resp.runId + "\n\n**Total:** " + IntToString(|resp.artifacts|) + " artifacts\n\n"
  }

  /** `format_list_response`. */
  function FormatListResponse(resp: ListResponse): (r: string)
    requires HashesSliceable(resp.artifacts)
    ensures StartsWith(r, ListHeader(resp))
    ensures resp.artifacts == [] ==> r == ListHeader(resp) + "No artifacts found in this run.\n"
    ensures forall i :: 0 <= i < |resp.artifacts| ==> Contains(r, ArtifactEntry(resp.artifacts[i]))
  {
    var arts := resp.artifacts;
    if |arts| == 0 then ListHeader(resp) + "No artifacts found in this run.\n"
    else
      var entries := ArtifactEntries(arts);
      HeadedConcatContains(ListHeader(resp), entries);
      ListHeader(resp) + Concat(entries)
  }

  /** The entries of a reply, one per element in reply order. */
  function ArtifactEntries(arts: seq<ArtifactSummary>): (entries: seq<string>)
    requires HashesSliceable(arts)
    ensures |entries| == |arts|
    ensures forall i :: 0 <= i < |arts| ==> entries[i] == ArtifactEntry(arts[i])
  {
    seq(|arts|, i requires 0 <= i < |arts| => ArtifactEntry(arts[i]))
  }

  /** A non-empty reply is its header followed by its entries. */
  lemma ArtifactsListed(resp: ListResponse)
    requires HashesSliceable(resp.artifacts)
    requires resp.artifacts != []
    ensures FormatListResponse(resp) == ListHeader(resp) + Concat(ArtifactEntries(resp.artifacts))
  {
  }

  /** The artifacts follow the header once each, in reply order: one more artifact adds its
      entry at the very end (and the header's count goes up by one). */
  lemma ListInReplyOrder(resp: ListResponse, a: ArtifactSummary)
    requires HashesSliceable(resp.artifacts) && IsBoundary(a.contentHash, ShortHashBytes)
    ensures resp.artifacts == [] ==>
      FormatListResponse(resp.(artifacts := [a])) == ListHeader(resp.(artifacts := [a])) + ArtifactEntry(a)
    ensures resp.artifacts != [] ==>
      var more := resp.(artifacts := resp.artifacts + [a]);
      FormatListResponse(more)
        == ListHeader(more) + FormatListResponse(resp)[|ListHeader(resp)|..] + ArtifactEntry(a)
  {
    var arts := resp.artifacts;
    var more := arts + [a];
    assert forall i :: 0 <= i < |arts| ==> more[i] == arts[i];
    assert more[|arts|] == a;
    assert HashesSliceable(more);
    var entries := ArtifactEntries(arts);
    assert ArtifactEntries(more) == entries + [ArtifactEntry(a)];
    ConcatSnoc(entries, ArtifactEntry(a));
    ArtifactsListed(resp.(artifacts := more));
    if arts != [] {
      ArtifactsListed(resp);
    }
  }

  // ===== Suggestions =====

  function SuggestionStatusIcon(status: string): string {
    match status
    case "pending" => "🟡"
    case "accepted" => "✅"
    case "rejected" => "❌"
    case _ => "⚪"
  }

  /** Bytes of original and suggested text shown in a suggestion listing, before "...". */
  const SuggestionPreviewBytes := 100

  /** The selection line: printed only when both offsets are known. */
  function OffsetsLine(start: Option<int>, end: Option<int>): string {
    if start.Some? && end.Some? then
      "**Selection:** chars " + IntToString(start.value) + "-" + IntToString(end.value) + "\n"
    else ""
  }

  function OriginalTextLine(original: Option<string>): string {
    match original
    case Some(t) => "**Original text:** \"" + Preview(t, SuggestionPreviewBytes) + "\"\n"
    case None => ""
  }

  /** The decision details: who accepted and when for an accepted suggestion, the reason for
      a rejected one, nothing otherwise. */
  function DecisionLines(sg: SuggestionDetail): string {
    if sg.status == "accepted" then
      OptLine("**Accepted by:** ", sg.acceptedBy) + OptLine("**Accepted at:** ", sg.acceptedAt)
    else if sg.status == "rejected" then
      OptLine("**Rejection reason:** ", sg.rejectionReason)
    else ""
  }

  /** One suggestion of `format_suggestions_response`. */
  function SuggestionBlock(sg: SuggestionDetail): (r: string)
    ensures StartsWith(r, "### " + SuggestionStatusIcon(sg.status) + " [" + sg.id + "] - " + sg.editType
                          + " (by " + sg.suggestedBy + ")\n")
    ensures Contains(r, "**Linked to comment:** `" + sg.commentId + "`\n")
    ensures sg.startOffset.Some? && sg.endOffset.Some? ==>
      Contains(r, "**Selection:** chars " + IntToString(sg.startOffset.value) + "-" + IntToString(sg.endOffset.value) + "\n")
    ensures sg.originalText.Some? ==>
      Contains(r, "**Original text:** \"" + Preview(sg.originalText.value, 100) + "\"\n")
    ensures Contains(r, "**Suggested text:** \"" + Preview(sg.suggestedText, 100) + "\"\n")
    ensures sg.rationale.Some? ==> Contains(r, "**Rationale:** " + sg.rationale.value + "\n")
    ensures EndsWith(r, "**Created:** " + sg.createdAt + "\n\n")
  {
    var parts := [
      "### " + SuggestionStatusIcon(sg.status) + " [" + sg.id + "] - " + sg.editType + " (by " + sg.suggestedBy + ")\n",
      "**Linked to comment:** `" + sg.commentId + "`\n",
      OffsetsLine(sg.startOffset, sg.endOffset),
      OriginalTextLine(sg.originalText),
      "**Suggested text:** \"" + Preview(sg.suggestedText, SuggestionPreviewBytes) + "\"\n",
      OptLine("**Rationale:** ", sg.rationale),
      DecisionLines(sg),
      "**Created:** " + sg.createdAt + "\n\n"];
    ConcatBoundaries(parts);
    ConcatContains(parts, 1);
    ConcatContains(parts, 2);
    ConcatContains(parts, 3);
    ConcatContains(parts, 4);
    ConcatContains(parts, 5);
    Concat(parts)
  }

  /** Which decision details a suggestion shows depends on its status: a pending suggestion
      shows none, an accepted one never its rejection reason, a rejected one never who
      accepted it or when. A suggestion without both offsets shows no selection line. */
  lemma SuggestionDecisionDetails(sg: SuggestionDetail)
    ensures sg.status == "accepted" ==>
      SuggestionBlock(sg) == SuggestionBlock(sg.(rejectionReason := None))
    ensures sg.status == "rejected" ==>
      SuggestionBlock(sg) == SuggestionBlock(sg.(acceptedBy := None, acceptedAt := None))
    ensures sg.status != "accepted" && sg.status != "rejected" ==>
      SuggestionBlock(sg) == SuggestionBlock(sg.(acceptedBy := None, acceptedAt := None, rejectionReason := None))
    ensures sg.startOffset.None? || sg.endOffset.None? ==>
      SuggestionBlock(sg) == SuggestionBlock(sg.(startOffset := None, endOffset := None))
  {
  }

  /** An accepted suggestion names who accepted it and when, and a rejected one its reason,
      whenever the backend supplied them. */
  lemma SuggestionDecisionShown(sg: SuggestionDetail)
    ensures sg.status == "accepted" && sg.acceptedBy.Some? ==>
      Contains(SuggestionBlock(sg), "**Accepted by:** " + sg.acceptedBy.value + "\n")
    ensures sg.status == "accepted" && sg.acceptedAt.Some? ==>
      Contains(SuggestionBlock(sg), "**Accepted at:** " + sg.acceptedAt.value + "\n")
    ensures sg.status == "rejected" && sg.rejectionReason.Some? ==>
      Contains(SuggestionBlock(sg), "**Rejection reason:** " + sg.rejectionReason.value + "\n")
  {
    var parts := [
      "### " + SuggestionStatusIcon(sg.status) + " [" + sg.id + "] - " + sg.editType + " (by " + sg.suggestedBy + ")\n",
      "**Linked to comment:** `" + sg.commentId + "`\n",
      OffsetsLine(sg.startOffset, sg.endOffset),
      OriginalTextLine(sg.originalText),
      "**Suggested text:** \"" + Preview(sg.suggestedText, SuggestionPreviewBytes) + "\"\n",
      OptLine("**Rationale:** ", sg.rationale),
      DecisionLines(sg),
      "**Created:** " + sg.createdAt + "\n\n"];
    assert SuggestionBlock(sg) == Concat(parts);
    ConcatContains(parts, 6);
    var accepter, when := OptLine("**Accepted by:** ", sg.acceptedBy), OptLine("**Accepted at:** ", sg.acceptedAt);
    if sg.status == "accepted" {
      ContainsMiddle("", accepter, when);
      ContainsMiddle(accepter, when, "");
      assert "" + accepter + when == accepter + when == accepter + when + "";
      ContainsTrans(Concat(parts), parts[6], accepter);
      ContainsTrans(Concat(parts), parts[6], when);
    }
  }

  function SuggestionsHeader(resp: ListSuggestionsResponse): string {
    "## Edit Suggestions for Artifact: " + resp.artifactId + "\n\n**Total:** " + IntToString(|resp.suggestions|) + " suggestions\n\n"
  }

  /** `format_suggestions_response`. */
  function FormatSuggestionsResponse(resp: ListSuggestionsResponse): (r: string)
    ensures StartsWith(r, SuggestionsHeader(resp))
    ensures resp.suggestions == [] ==> r == SuggestionsHeader(resp) + "No suggestions found matching the filter.\n"
    ensures forall i :: 0 <= i < |resp.suggestions| ==> Contains(r, SuggestionBlock(resp.suggestions[i]))
  {
    var sgs := resp.suggestions;
    if |sgs| == 0 then SuggestionsHeader(resp) + "No suggestions found matching the filter.\n"
    else
      var blocks := SuggestionBlocks(sgs);
      HeadedConcatContains(SuggestionsHeader(resp), blocks);
      SuggestionsHeader(resp) + Concat(blocks)
  }

  /** The blocks of a reply, one per element in reply order. */
  function SuggestionBlocks(sgs: seq<SuggestionDetail>): (blocks: seq<string>)
    ensures |blocks| == |sgs|
    ensures forall i :: 0 <= i < |sgs| ==> blocks[i] == SuggestionBlock(sgs[i])
  {
    seq(|sgs|, i requires 0 <= i < |sgs| => SuggestionBlock(sgs[i]))
  }

  /** A non-empty reply is its header followed by its blocks. */
  lemma SuggestionsListed(resp: ListSuggestionsResponse)
    requires resp.suggestions != []
    ensures FormatSuggestionsResponse(resp) == SuggestionsHeader(resp) + Concat(SuggestionBlocks(resp.suggestions))
  {
  }

  /** The suggestions follow the header once each, in reply order: one more suggestion adds
      its block at the very end (and the header's count goes up by one). */
  lemma SuggestionsInReplyOrder(resp: ListSuggestionsResponse, sg: SuggestionDetail)
    ensures resp.suggestions == [] ==>
      FormatSuggestionsResponse(resp.(suggestions := [sg]))
        == SuggestionsHeader(resp.(suggestions := [sg])) + SuggestionBlock(sg)
    ensures resp.suggestions != [] ==>
      var more := resp.(suggestions := resp.suggestions + [sg]);
      FormatSuggestionsResponse(more)
        == SuggestionsHeader(more) + FormatSuggestionsResponse(resp)[|SuggestionsHeader(resp)|..] + SuggestionBlock(sg)
  {
    var sgs := resp.suggestions;
    var more := resp.(suggestions := sgs + [sg]);
    var blocks := SuggestionBlocks(sgs);
    SuggestionBlocksSnoc(sgs, sg);
    ConcatSnoc(blocks, SuggestionBlock(sg));
    SuggestionsListed(more);
    if sgs != [] {
      SuggestionsListed(resp);
    }
  }

  lemma SuggestionBlocksSnoc(sgs: seq<SuggestionDetail>, sg: SuggestionDetail)
    ensures SuggestionBlocks(sgs + [sg]) == SuggestionBlocks(sgs) + [SuggestionBlock(sg)]
  {
    var more := sgs + [sg];
    assert forall i :: 0 <= i < |sgs| ==> more[i] == sgs[i];
  }

  /** Wherever the Rust code's 100-byte slices do not panic, a suggestion's block shows exactly
      the previews it prints. */
  lemma SuggestionPreviewsAsWritten(sg: SuggestionDetail)
    ensures sg.originalText.Some? && PreviewAsWritten(sg.originalText.value, SuggestionPreviewBytes).Some? ==>
      Contains(SuggestionBlock(sg),
               "**Original text:** \"" + PreviewAsWritten(sg.originalText.value, SuggestionPreviewBytes).value + "\"\n")
    ensures PreviewAsWritten(sg.suggestedText, SuggestionPreviewBytes).Some? ==>
      Contains(SuggestionBlock(sg),
               "**Suggested text:** \"" + PreviewAsWritten(sg.suggestedText, SuggestionPreviewBytes).value + "\"\n")
  {
    if sg.originalText.Some? && PreviewAsWritten(sg.originalText.value, SuggestionPreviewBytes).Some? {
      PreviewAgrees(sg.originalText.value, SuggestionPreviewBytes);
    }
    if PreviewAsWritten(sg.suggestedText, SuggestionPreviewBytes).Some? {
      PreviewAgrees(sg.suggestedText, SuggestionPreviewBytes);
    }
  }

  // ===== Suggest, accept, reject =====

  const SuggestionReviewNote :=
    "The human will see a diff preview and can Accept or Reject this suggestion.\n"
    + "- If accepted, the edit is applied and the linked comment is marked as addressed.\n"
    + "- If rejected, no changes are made."

  /** `format_suggest_edit_response`. */
  function FormatSuggestEditResponse(resp: SuggestEditResponse): (r: string)
    ensures StartsWith(r, "✓ Suggestion created successfully\n\n")
    ensures Contains(r, "**Suggestion ID:** `" + resp.suggestionId + "`\n")
    ensures Contains(r, "**Linked to comment:** `" + resp.commentId + "`\n")
    ensures Contains(r, "**Artifact:** `" + resp.artifactId + "`\n\n")
  {
    var parts := [
      "✓ Suggestion created successfully\n\n",
      "**Suggestion ID:** `" + resp.suggestionId + "`\n",
      "**Linked to comment:** `" + resp.commentId + "`\n",
      "**Artifact:** `" + resp.artifactId + "`\n\n",
      SuggestionReviewNote];
    ConcatBoundaries(parts);
    ConcatContains(parts, 1);
    ConcatContains(parts, 2);
    ConcatContains(parts, 3);
    Concat(parts)
  }

  function ResolvedCommentsNote(ids: seq<string>): string {
    "\n**Resolved comments:** " + Join(ids, ", ") + "\n"
  }

  /** `format_accept_suggestion_response`. */
  function FormatAcceptSuggestionResponse(resp: AcceptSuggestionResponse): (r: string)
    ensures StartsWith(r, "✓ Suggestion accepted and applied\n\n")
    ensures Contains(r, "**Suggestion ID:** `" + resp.suggestionId + "`\n")
    ensures Contains(r, "**New content hash:** `" + resp.newContentHash + "`\n")
  {
    var parts := [
      "✓ Suggestion accepted and applied\n\n",
      "**Suggestion ID:** `" + resp.suggestionId + "`\n",
      "**New content hash:** `" + resp.newContentHash + "`\n",
      if |resp.resolvedComments| > 0 then ResolvedCommentsNote(resp.resolvedComments) else ""];
    ConcatBoundaries(parts);
    ConcatContains(parts, 1);
    ConcatContains(parts, 2);
    Concat(parts)
  }

  /** The resolved-comments line is appended exactly when the list is non-empty. */
  lemma AcceptResolvedComments(resp: AcceptSuggestionResponse)
    ensures resp.resolvedComments != [] ==>
      FormatAcceptSuggestionResponse(resp) == FormatAcceptSuggestionResponse(resp.(resolvedComments := []))
        + "\n**Resolved comments:** " + Join(resp.resolvedComments, ", ") + "\n"
  {
    if resp.resolvedComments != [] {
      var note := ResolvedCommentsNote(resp.resolvedComments);
      var parts := [
        "✓ Suggestion accepted and applied\n\n",
        "**Suggestion ID:** `" + resp.suggestionId + "`\n",
        "**New content hash:** `" + resp.newContentHash + "`\n"];
      ConcatAppend(parts, [""]);
      ConcatAppend(parts, [note]);
      assert parts + [""] == [parts[0], parts[1], parts[2], ""];
      assert parts + [note] == [parts[0], parts[1], parts[2], note];
    }
  }

  /** `format_reject_suggestion_response`. */
  function FormatRejectSuggestionResponse(resp: RejectSuggestionResponse): (r: string)
    ensures StartsWith(r, "✓ Suggestion rejected\n\n")
    ensures Contains(r, "**Suggestion ID:** `" + resp.suggestionId + "`\n\n")
    ensures EndsWith(r, "The suggested edit was NOT applied. Consider a different approach or ask for clarification.")
  {
    var parts := [
      "✓ Suggestion rejected\n\n",
      "**Suggestion ID:** `" + resp.suggestionId + "`\n\n",
      "The suggested edit was NOT applied. Consider a different approach or ask for clarification."];
    ConcatBoundaries(parts);
    ConcatContains(parts, 1);
    Concat(parts)
  }
}

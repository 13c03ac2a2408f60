// Terminal turns and their identities (types.go, validation.go): the input of the turn
// processor and what its validation guarantees. A hashed identity is modelled by the parts
// it hashes (module Keys proves those decodable); text claimed by others is Foreign.
module Turns {
  import opened Wrappers
  import opened Bytes
  import Text
  import D = Derived
  import Utf8

  const MAX_TOOL_MESSAGES := 16

  type MessageRole = Utf8.MessageRole

  datatype ExportId = TurnExport(scopeKey: string, sessionId: string,
      sourceTurnId: string) | ForeignExport(exportText: string)
  datatype SourceId = SourceOf(exportId: ExportId) | ForeignSource(sourceText: string)
  datatype MessageId =
    | RoleMessage(exportId: ExportId, role: MessageRole)
    | ToolMessage(exportId: ExportId, tool: string, call: string)
    | ForeignMessage(messageText: string)

  datatype Status = Unset | Success | Failed | Interrupted | Unsupported

  datatype Message = Message(id: Option<MessageId>, role: MessageRole, text: ByteString, toolName: string,
      toolCall: string)

  datatype Turn = Turn(
    exportId: ExportId, scope: D.Scope, sessionId: string, agentSessionId: string, lineageId: string,
    previousSessionId: string, sourceTurnId: string, source: Option<SourceId>, completedAt: int, status: Status,
    messages: seq<Message>)

  predicate Blank(text: ByteString) {
    forall i | 0 <= i < |text| :: IsSpaceByte(text[i])
  }

  // strings.TrimSpace
  function Trim(s: string): string {
    if s == "" then s
    else if Text.IsSpace(s[0]) then Trim(s[1..])
    else if Text.IsSpace(s[|s| - 1]) then Trim(s[..|s| - 1])
    else s
  }

  predicate Trimmed(s: string) {
    s == "" || (!Text.IsSpace(s[0]) && !Text.IsSpace(s[|s| - 1]))
  }

  // Trimming takes away the white space around a text, all of it and nothing else.
  lemma {:induction false} TrimMeaning(s: string)
    ensures Trimmed(Trim(s)) && (Trimmed(s) <==> Trim(s) == s)
    ensures exists i, j :: 0 <= i <= j <= |s| && Around(s, i, j) && Trim(s) == s[i..j]
    decreases |s|
  {
    if s == "" {
      assert Around(s, 0, 0) && s[0..0] == s;
    } else if Text.IsSpace(s[0]) {
      TrimMeaning(s[1..]);
      var i, j :| 0 <= i <= j <= |s| - 1 && Around(s[1..], i, j) && Trim(s) == s[1..][i..j];
      assert s[1..][i..j] == s[i + 1..j + 1] && Around(s, i + 1, j + 1);
    } else if Text.IsSpace(s[|s| - 1]) {
      TrimMeaning(s[..|s| - 1]);
      var i, j :| 0 <= i <= j <= |s| - 1 && Around(s[..|s| - 1], i, j) && Trim(s) == s[..|s| - 1][i..j];
      assert s[..|s| - 1][i..j] == s[i..j] && Around(s, i, j);
    } else {
      assert Around(s, 0, |s|) && s[0..|s|] == s;
    }
  }

  ghost predicate Around(s: string, i: nat, j: nat) {
    (forall k | 0 <= k < i && k < |s| :: Text.IsSpace(s[k])) && forall k | j <= k < |s| :: Text.IsSpace(s[k])
  }

  // normalizedTerminalStatus
  function Normalized(status: Status): Status {
    if status == Unset then Success else status
  }

  // ----- what a valid turn is -----

  predicate RoleFits(m: Message, exportId: ExportId, role: MessageRole) {
    && m.role == role && !Blank(m.text) && m.toolName == "" && m.toolCall == ""
    && (m.id == None || m.id == Some(RoleMessage(exportId, role)))
  }

  predicate ToolFits(m: Message, exportId: ExportId) {
    && m.role == Utf8.Tool && !Blank(m.text) && Text.IsCanonicalId(m.toolName) && Text.IsCanonicalId(m.toolCall)
    && m.id == Some(ToolMessage(exportId, m.toolName, m.toolCall))
  }

  // Where the tool messages start.
  function ToolsFrom(messages: seq<Message>): (n: nat)
    ensures messages != [] ==> n <= |messages|
  {
    if |messages| > 1 && messages[1].role == Utf8.Assistant then 2 else 1
  }

  predicate ValidMessages(t: Turn) {
    && t.messages != [] && RoleFits(t.messages[0], t.exportId, Utf8.User)
    && var next := ToolsFrom(t.messages);
       && (if next == 2 then RoleFits(t.messages[1], t.exportId, Utf8.Assistant) else Normalized(t.status) != Success)
       && |t.messages| - next <= MAX_TOOL_MESSAGES
       && (forall i | next <= i < |t.messages| :: ToolFits(t.messages[i], t.exportId))
       && (forall i, j | next <= i < j < |t.messages| :: t.messages[i].id != t.messages[j].id)
  }

  // SessionRef.Validate
  predicate ValidSession(t: Turn) {
    && Text.IsCanonicalId(t.sessionId) && Text.IsCanonicalId(t.agentSessionId)
    && (t.lineageId == "" || Text.IsCanonicalId(t.lineageId))
    && (t.previousSessionId == "" || Text.IsCanonicalId(t.previousSessionId))
  }

  predicate ValidTurn(t: Turn) {
    && D.ScopeError(t.scope) == None && ValidSession(t)
    && Trim(t.sourceTurnId) != "" && t.exportId == TurnExport(t.scope.key, t.sessionId, Trim(t.sourceTurnId))
    && (t.source == None || t.source == Some(SourceOf(t.exportId)))
    && t.completedAt != 0 && t.status != Unsupported && ValidMessages(t)
  }

  // A message of the conversation, and one of a tool.
  method CheckRole(m: Message, exportId: ExportId, role: MessageRole) returns (err: Option<Code>)
    ensures err.None? <==> RoleFits(m, exportId, role)
  {
    if m.role != role || Blank(m.text) {
      return Some(Permanent);
    }
    if m.toolName != "" || m.toolCall != "" {
      return Some(Permanent);
    }
    if m.id.Some? && m.id.value != RoleMessage(exportId, role) {
      return Some(Permanent);
    }
    err := None;
  }

  method CheckTool(m: Message, exportId: ExportId) returns (err: Option<Code>)
    ensures err.None? <==> ToolFits(m, exportId)
  {
    if m.role != Utf8.Tool || Blank(m.text) {
      return Some(Permanent);
    }
    if !Text.IsCanonicalId(m.toolName) || !Text.IsCanonicalId(m.toolCall) {
      return Some(Permanent);
    }
    if m.id != Some(ToolMessage(exportId, m.toolName, m.toolCall)) {
      return Some(Permanent);
    }
    err := None;
  }

  // Turn.Validate
  method ValidateTurn(t: Turn) returns (err: Option<Code>)
    ensures err.None? <==> ValidTurn(t)
  {
    hide D.ScopeError;
    if D.ScopeError(t.scope).Some? {
      return D.ScopeError(t.scope);
    }
    if !Text.IsCanonicalId(t.sessionId) || !Text.IsCanonicalId(t.agentSessionId) {
      return Some(Permanent);
    }
    if t.lineageId != "" && !Text.IsCanonicalId(t.lineageId) {
      return Some(Permanent);
    }
    if t.previousSessionId != "" && !Text.IsCanonicalId(t.previousSessionId) {
      return Some(Permanent);
    }
    if Trim(t.sourceTurnId) == "" {
      return Some(Permanent);
    }
    if t.exportId != TurnExport(t.scope.key, t.sessionId, Trim(t.sourceTurnId)) {
      return Some(Permanent);
    }
    if t.source.Some? && t.source.value != SourceOf(t.exportId) {
      return Some(Permanent);
    }
    if t.completedAt == 0 || t.status == Unsupported {
      return Some(Permanent);
    }
    err := ValidateMessages(t);
  }

  method ValidateMessages(t: Turn) returns (err: Option<Code>)
    ensures err.None? <==> ValidMessages(t)
  {
    hide RoleFits, ToolFits;
    var messages := t.messages;
    if messages == [] {
      return Some(Permanent);
    }
    err := CheckRole(messages[0], t.exportId, Utf8.User);
    if err.Some? {
      return;
    }
    var next := 1;
    if next < |messages| && messages[next].role == Utf8.Assistant {
      err := CheckRole(messages[next], t.exportId, Utf8.Assistant);
      if err.Some? {
        return;
      }
      next := next + 1;
    } else if Normalized(t.status) == Success {
      return Some(Permanent);
    }
    if |messages| - next > MAX_TOOL_MESSAGES {
      return Some(Permanent);
    }
    var from, seen: set<Option<MessageId>> := next, {};
    while next < |messages|
      invariant from <= next <= |messages| && from == ToolsFrom(messages)
      invariant forall i | from <= i < next :: ToolFits(messages[i], t.exportId)
      invariant forall i, j | from <= i < j < next :: messages[i].id != messages[j].id
      invariant forall id :: id in seen <==> exists i :: from <= i < next && messages[i].id == id
    {
      err := CheckTool(messages[next], t.exportId);
      if err.Some? {
        return;
      }
      if messages[next].id in seen {
        return Some(Permanent);
      }
      seen := seen + {messages[next].id};
      next := next + 1;
    }
    err := None;
  }

  // ----- message identities -----

  // The identity ProcessTurn gives a message that has none.
  function IdOf(t: Turn, m: Message): MessageId {
    if m.id.Some? then m.id.value
    else if m.role == Utf8.Tool then ToolMessage(t.exportId, m.toolName, m.toolCall)
    else RoleMessage(t.exportId, m.role)
  }

  // A valid turn has at most one message a role and 16 tool messages, all identified apart.
  lemma ValidTurnIsBounded(t: Turn)
    requires ValidMessages(t)
    ensures |t.messages| <= 2 + MAX_TOOL_MESSAGES
    ensures forall i, j | 0 <= i < j < |t.messages| :: IdOf(t, t.messages[i]) != IdOf(t, t.messages[j])
    ensures forall i | 0 <= i < |t.messages| :: t.messages[i].text != []
  {
  }
}

// PolicyRegistry.ReconcileActive (reconciler.go): which item an untrusted candidate is
// about, judged against the active memory of the scope.
module Reconciler {
  import opened Wrappers
  import Text
  import D = Derived
  import Utf8
  import Bytes
  import opened Turns

  const MAX_MEMORY_TEXT_BYTES := 32 * 1024

  datatype MemoryKind = StateMemory | EventMemory | UnknownMemory

  // The attribute is the Predicate of the source.
  datatype MemoryKey = MemoryKey(version: string, scopeKey: string, subject: string, attribute: string,
      qualifiers: string)

  datatype ItemId =
    | StateItem(scopeKey: string, key: MemoryKey)
    | EventItem(scopeKey: string, source: SourceId, message: MessageId, eventAt: Option<int>,
                subject: string, attribute: string, qualifiers: string)

  datatype Item = Item(id: ItemId, scope: D.Scope, kind: MemoryKind, key: Option<MemoryKey>)

  datatype RevisionId = RevisionId(item: ItemId, source: SourceId, message: MessageId, statement: string)

  // A digest is modelled by the text it is taken of.
  datatype Digest = NoDigest | DigestOf(text: Bytes.ByteString) | ForeignDigest(digestText: string)

  type EvidenceRef = Utf8.EvidenceRef<SourceId, MessageId, Digest>

  // The remaining temporal rules, and the sensitivity and retention labels, are carried as
  // the outcome of their checks.
  datatype Temporal = Temporal(observedAt: int, eventAt: Option<int>, wellFormed: bool)
  datatype MemoryCandidate = MemoryCandidate(
    kind: MemoryKind, statement: string, temporal: Temporal, evidence: seq<EvidenceRef>, labelled: bool)
  datatype SemanticCandidate = SemanticCandidate(
    kind: MemoryKind, subject: string, attribute: string, qualifiers: seq<string>, memory: MemoryCandidate)

  datatype ActiveItem = ActiveItem(item: Item, evidence: seq<EvidenceRef>)

  datatype Action = Create | Supersede
  datatype LifecycleId = LifecycleId(revision: RevisionId, action: Action)
  datatype LifecycleEvent = LifecycleEvent(id: LifecycleId, revision: RevisionId, occurredAt: int)
  datatype Reconciliation = Reconciliation(
    action: Action, item: Item, supersedes: Option<Item>, revision: RevisionId, provenance: seq<EvidenceRef>,
      lifecycle: LifecycleEvent)

  // ----- field rules -----

  predicate SourceIsId(s: SourceId) {
    s.ForeignSource? ==> Text.IsCanonicalId(s.sourceText)
  }

  predicate MessageIsId(m: MessageId) {
    m.ForeignMessage? ==> Text.IsCanonicalId(m.messageText)
  }

  // EvidenceRef.Validate; the form of a claimed digest is left to its comparison later.
  predicate ValidEvidence(e: EvidenceRef) {
    SourceIsId(e.source) && MessageIsId(e.message) && e.startByte < e.endByte && Utf8.ModeMatchesRole(e.mode, e.role)
  }

  predicate ValidEvidenceRefs(evidence: seq<EvidenceRef>) {
    D.Distinct(evidence) && forall i | 0 <= i < |evidence| :: ValidEvidence(evidence[i])
  }

  // MemoryCandidate.Validate
  predicate ValidMemory(m: MemoryCandidate) {
    && m.kind != UnknownMemory && m.statement != "" && Trimmed(m.statement) &&
      |m.statement| <= MAX_MEMORY_TEXT_BYTES
    && m.temporal.observedAt != 0 && m.temporal.wellFormed
    && 0 < |m.evidence| <= D.MAX_SOURCES_PER_REVISION && ValidEvidenceRefs(m.evidence) && m.labelled
  }

  // MemoryItem.Validate
  predicate ValidItem(item: Item) {
    D.ScopeError(item.scope) == None
    && match item.kind case StateMemory => item.key.Some? case EventMemory => item.key.None? case UnknownMemory => false
  }

  // ----- checking them -----

  method CheckEvidence(e: EvidenceRef) returns (err: Option<Code>)
    ensures err.None? <==> ValidEvidence(e)
  {
    if !SourceIsId(e.source) || !MessageIsId(e.message) {
      return Some(InvalidDerived);
    }
    if e.startByte >= e.endByte || !Utf8.ModeMatchesRole(e.mode, e.role) {
      return Some(InvalidDerived);
    }
    err := None;
  }

  // validateEvidenceRefs
  method CheckEvidenceRefs(evidence: seq<EvidenceRef>) returns (err: Option<Code>)
    ensures err.None? <==> ValidEvidenceRefs(evidence)
  {
    hide ValidEvidence;
    var seen: set<EvidenceRef> := {};
    var n := 0;
    while n < |evidence|
      invariant n <= |evidence| && forall i | 0 <= i < n :: ValidEvidence(evidence[i])
      invariant forall i, j | 0 <= i < j < n :: evidence[i] != evidence[j]
      invariant forall e :: e in seen <==> exists i :: 0 <= i < n && evidence[i] == e
    {
      err := CheckEvidence(evidence[n]);
      if err.Some? {
        return;
      }
      if evidence[n] in seen {
        return Some(InvalidDerived);
      }
      seen := seen + {evidence[n]};
      n := n + 1;
    }
    err := None;
  }

  method CheckMemory(m: MemoryCandidate) returns (err: Option<Code>)
    ensures err.None? <==> ValidMemory(m)
  {
    hide ValidEvidenceRefs, Trim;
    TrimMeaning(m.statement);
    if m.kind == UnknownMemory {
      return Some(InvalidDerived);
    }
    if Trim(m.statement) != m.statement || m.statement == "" || |m.statement| > MAX_MEMORY_TEXT_BYTES {
      return Some(InvalidDerived);
    }
    if m.temporal.observedAt == 0 || !m.temporal.wellFormed {
      return Some(InvalidDerived);
    }
    if m.evidence == [] || |m.evidence| > D.MAX_SOURCES_PER_REVISION {
      return Some(InvalidDerived);
    }
    err := CheckEvidenceRefs(m.evidence);
    if err.None? && !m.labelled {
      err := Some(InvalidDerived);
    }
  }

  method CheckItem(item: Item) returns (err: Option<Code>)
    ensures err.None? <==> ValidItem(item)
  {
    hide D.ScopeError;
    if D.ScopeError(item.scope).Some? {
      return D.ScopeError(item.scope);
    }
    if item.kind == UnknownMemory {
      return Some(InvalidDerived);
    }
    if item.kind == StateMemory && item.key.None? {
      return Some(InvalidDerived);
    }
    if item.kind == EventMemory && item.key.Some? {
      return Some(InvalidDerived);
    }
    err := None;
  }

  // ----- canonical semantic parts -----

  function ToLower(c: char): char {
    if 'A' <= c <= 'Z' then c + ('a' - 'A') else c
  }

  function Lower(s: string): string {
    seq(|s|, i requires 0 <= i < |s| => ToLower(s[i]))
  }

  // canonicalSemanticPart
  function SemanticPart(value: string): Option<string> {
    var part := Lower(Text.Normalize(value));
    if part == "" || |part| > MAX_MEMORY_TEXT_BYTES then None else Some(part)
  }

  // A part is usable exactly when it is not blank and, normalised, within the limit.
  lemma SemanticPartIff(value: string)
    ensures SemanticPart(value).Some? <==>
      (exists i :: 0 <= i < |value| && !Text.IsSpace(value[i])) && |Text.Normalize(value)| <= MAX_MEMORY_TEXT_BYTES
    ensures SemanticPart(value).Some? ==> SemanticPart(value).value == Lower(Text.Normalize(value))
  {
    Text.NormalizeEmpty(value);
    assert |Lower(Text.Normalize(value))| == |Text.Normalize(value)|;
    hide Text.Normalize;
  }

  function SemanticParts(values: seq<string>): Option<seq<string>> {
    if values == [] then Some([])
    else
      var rest, last := SemanticParts(values[..|values| - 1]), SemanticPart(values[|values| - 1]);
      if rest.None? || last.None? then None else Some(rest.value + [last.value])
  }

  // strings.Join(parts, "\x00")
  function JoinNul(parts: seq<string>): string {
    if parts == [] then "" else if |parts| == 1 then parts[0] else parts[0] + [0 as char] + JoinNul(parts[1..])
  }

  // ----- what they fold together -----

  // The same letter, or one in both cases.
  predicate SameLetter(c: char, d: char) {
    || c == d
    || ('A' <= c <= 'Z' && 'a' <= d <= 'z' && c - 'A' == d - 'a')
    || ('a' <= c <= 'z' && 'A' <= d <= 'Z' && c - 'a' == d - 'A')
  }

  predicate SameWord(a: string, b: string) {
    |a| == |b| && forall i | 0 <= i < |a| :: SameLetter(a[i], b[i])
  }

  predicate SameWords(a: seq<string>, b: seq<string>) {
    |a| == |b| && forall i | 0 <= i < |a| :: SameWord(a[i], b[i])
  }

  lemma LowerIff(a: string, b: string)
    ensures Lower(a) == Lower(b) <==> SameWord(a, b)
  {
    if Lower(a) == Lower(b) {
      assert |a| == |Lower(a)| == |b|;
      forall i | 0 <= i < |a| ensures SameLetter(a[i], b[i]) {
        assert Lower(a)[i] == ToLower(a[i]) && Lower(b)[i] == ToLower(b[i]);
      }
    }
  }

  function LowerAll(words: seq<string>): (lower: seq<string>)
    ensures |lower| == |words| && forall i | 0 <= i < |words| :: lower[i] == Lower(words[i])
  {
    seq(|words|, i requires 0 <= i < |words| => Lower(words[i]))
  }

  lemma LowerConcat(a: string, b: string)
    ensures Lower(a + b) == Lower(a) + Lower(b)
  {
  }

  lemma {:induction false} LowerJoin(words: seq<string>)
    ensures Lower(Text.Join(words)) == Text.Join(LowerAll(words))
  {
    if |words| > 1 {
      LowerJoin(words[1..]);
      LowerConcat(words[0] + " ", Text.Join(words[1..]));
      LowerConcat(words[0], " ");
      assert LowerAll(words)[1..] == LowerAll(words[1..]);
      assert Lower(" ") == " ";
    }
  }

  lemma LowerIsWord(word: string)
    requires Text.IsWord(word)
    ensures Text.IsWord(Lower(word))
  {
  }

  // Two parts fold to one exactly when they have the same words up to case, however spaced.
  lemma FoldIff(a: string, b: string, words: seq<string>, other: seq<string>)
    requires Text.Spells(a, words) && Text.Spells(b, other)
    ensures Lower(Text.Normalize(a)) == Lower(Text.Normalize(b)) <==> SameWords(words, other)
  {
    hide Lower;
    Text.FieldsIff(a, words);
    Text.FieldsIff(b, other);
    LowerJoin(words);
    LowerJoin(other);
    forall i | 0 <= i < |words| ensures Text.IsWord(Lower(words[i])) { LowerIsWord(words[i]); }
    forall i | 0 <= i < |other| ensures Text.IsWord(Lower(other[i])) { LowerIsWord(other[i]); }
    Text.FieldsJoin(LowerAll(words));
    Text.FieldsJoin(LowerAll(other));
    assert Lower(Text.Normalize(a)) == Lower(Text.Normalize(b)) <==> LowerAll(words) == LowerAll(other);
    forall i | 0 <= i < |words| && i < |other|
      ensures Lower(words[i]) == Lower(other[i]) <==> SameWord(words[i], other[i]) {
      LowerIff(words[i], other[i]);
    }
    if LowerAll(words) == LowerAll(other) {
      assert forall i | 0 <= i < |words| :: LowerAll(words)[i] == LowerAll(other)[i];
    }
  }

  // ----- the item a candidate is about -----

  predicate HasParts(c: SemanticCandidate) {
    SemanticPart(c.subject).Some? && SemanticPart(c.attribute).Some? && SemanticParts(c.qualifiers).Some?
  }

  function OwnItem(version: string, scope: D.Scope, c: SemanticCandidate): Item
    requires HasParts(c) && c.memory.evidence != []
  {
    var subject, attribute, qualifiers :=
      SemanticPart(c.subject).value, SemanticPart(c.attribute).value, JoinNul(SemanticParts(c.qualifiers).value);
    if c.kind == StateMemory then
      var key := MemoryKey(version, scope.key, subject, attribute, qualifiers);
      Item(StateItem(scope.key, key), scope, c.kind, Some(key))
    else
      var first := c.memory.evidence[0];
      Item(EventItem(scope.key, first.source, first.message, c.memory.temporal.eventAt, subject, attribute,
        qualifiers), scope, c.kind, None)
  }

  // sameEventEvidence
  predicate SameEvent(a: seq<EvidenceRef>, b: seq<EvidenceRef>) {
    exists i, j | 0 <= i < |a| && 0 <= j < |b| :: a[i].source == b[j].source && a[i].message == b[j].message
  }

  method SharesEvent(a: seq<EvidenceRef>, b: seq<EvidenceRef>) returns (shares: bool)
    ensures shares <==> SameEvent(a, b)
  {
    var i := 0;
    while i < |a|
      invariant i <= |a|
      invariant forall k, j | 0 <= k < i && 0 <= j < |b| ::
        !(a[k].source == b[j].source && a[k].message == b[j].message)
    {
      var j := 0;
      while j < |b|
        invariant j <= |b| && forall k | 0 <= k < j :: !(a[i].source == b[k].source && a[i].message == b[k].message)
      {
        if a[i].source == b[j].source && a[i].message == b[j].message {
          return true;
        }
        j := j + 1;
      }
      i := i + 1;
    }
    shares := false;
  }

  predicate Matches(c: SemanticCandidate, own: Item, existing: ActiveItem) {
    || (c.kind == StateMemory && existing.item.key == own.key)
    || (c.kind == EventMemory && SameEvent(existing.evidence, c.memory.evidence))
  }

  predicate OneMatch(c: SemanticCandidate, own: Item, active: seq<ActiveItem>) {
    forall i, j | 0 <= i < j < |active| :: !(Matches(c, own, active[i]) && Matches(c, own, active[j]))
  }

  function MatchOf(c: SemanticCandidate, own: Item, active: seq<ActiveItem>): Option<Item> {
    if active == [] then None
    else if Matches(c, own, active[|active| - 1]) then Some(active[|active| - 1].item)
    else MatchOf(c, own, active[..|active| - 1])
  }

  predicate ViewFits(scope: D.Scope, active: seq<ActiveItem>) {
    forall i | 0 <= i < |active| :: ValidItem(active[i].item) && active[i].item.scope == scope
  }

  // What can be reconciled: a well-formed candidate that is about one active item at most.
  predicate Reconcilable(version: string, scope: D.Scope, c: SemanticCandidate, active: seq<ActiveItem>) {
    && D.ScopeError(scope) == None && Text.IsCanonicalId(version)
    && ValidMemory(c.memory) && c.kind == c.memory.kind && HasParts(c)
    && |active| <= D.MAX_SNAPSHOT_ITEMS && ViewFits(scope, active)
    && OneMatch(c, OwnItem(version, scope, c), active)
  }

  // An event keeps the identity of the active item that shares its evidence; a state is
  // identified by its key alone.
  function Reconciled(version: string, scope: D.Scope, c: SemanticCandidate, active: seq<ActiveItem>): Reconciliation
    requires HasParts(c) && c.memory.evidence != []
  {
    var own := OwnItem(version, scope, c);
    var found := MatchOf(c, own, active);
    var item := if found.Some? && c.kind == EventMemory then own.(id := found.value.id) else own;
    var first := c.memory.evidence[0];
    var revision := RevisionId(item.id, first.source, first.message, c.memory.statement);
    var action := if found.Some? then Supersede else Create;
    Reconciliation(action, item, found, revision, c.memory.evidence,
                   LifecycleEvent(LifecycleId(revision, action), revision, c.memory.temporal.observedAt))
  }

  // The scan of the active view.
  method FindMatch(scope: D.Scope, c: SemanticCandidate, own: Item, active: seq<ActiveItem>)
      returns (r: Result<Option<Item>>)
    requires c.kind != UnknownMemory
    ensures r.Ok? <==> ViewFits(scope, active) && OneMatch(c, own, active)
    ensures r.Ok? ==> r.value == MatchOf(c, own, active)
  {
    hide ValidItem, SameEvent;
    var found: Option<Item> := None;
    var n := 0;
    while n < |active|
      invariant n <= |active| && found == MatchOf(c, own, active[..n])
      invariant ViewFits(scope, active[..n]) && OneMatch(c, own, active[..n])
      invariant found.None? <==> forall i | 0 <= i < n :: !Matches(c, own, active[i])
    {
      var existing := active[n];
      assert active[..n + 1] == active[..n] + [existing] && active[..n + 1][..n] == active[..n];
      var fault := CheckItem(existing.item);
      if fault.Some? || existing.item.scope != scope {
        return Err(ScopeViolation);
      }
      var same := false;
      if c.kind == StateMemory {
        same := existing.item.key == own.key;
      } else {
        same := SharesEvent(existing.evidence, c.memory.evidence);
      }
      if same {
        if found.Some? {
          return Err(InvalidDerived);
        }
        found := Some(existing.item);
      }
      n := n + 1;
    }
    assert active[..n] == active;
    r := Ok(found);
  }

  // ReconcileActive
  method ReconcileActive(version: string, scope: D.Scope, c: SemanticCandidate, active: seq<ActiveItem>)
      returns (r: Result<Reconciliation>)
    ensures r.Ok? <==> Reconcilable(version, scope, c, active)
    ensures r.Ok? ==> r.value == Reconciled(version, scope, c, active)
  {
    hide D.ScopeError, ValidEvidenceRefs, Trim, SemanticPart, SemanticParts, MatchOf, OneMatch, ViewFits;
    hide Text.IsCanonicalId;
    if D.ScopeError(scope).Some? || !Text.IsCanonicalId(version) {
      return Err(InvalidDerived);
    }
    var fault := CheckMemory(c.memory);
    if fault.Some? {
      return Err(fault.value);
    }
    if c.kind != c.memory.kind {
      return Err(InvalidDerived);
    }
    if !HasParts(c) {
      return Err(InvalidDerived);
    }
    if |active| > D.MAX_SNAPSHOT_ITEMS {
      return Err(LimitExceeded);
    }
    var item := OwnItem(version, scope, c);
    var found := FindMatch(scope, c, item, active);
    if found.Err? {
      return Err(found.code);
    }
    if found.value.Some? && c.kind == EventMemory {
      item := item.(id := found.value.value.id);
    }
    var first := c.memory.evidence[0];
    var revision := RevisionId(item.id, first.source, first.message, c.memory.statement);
    var action := if found.value.Some? then Supersede else Create;
    var lifecycle := LifecycleEvent(LifecycleId(revision, action), revision, c.memory.temporal.observedAt);
    r := Ok(Reconciliation(action, item, found.value, revision, c.memory.evidence, lifecycle));
  }

  lemma {:induction false} MatchMeaning(c: SemanticCandidate, own: Item, active: seq<ActiveItem>)
    ensures MatchOf(c, own, active).None? <==> forall i | 0 <= i < |active| :: !Matches(c, own, active[i])
    ensures MatchOf(c, own, active).Some? ==>
      exists i :: 0 <= i < |active| && Matches(c, own, active[i]) && active[i].item == MatchOf(c, own, active).value
  {
    if active != [] {
      var n := |active| - 1;
      MatchMeaning(c, own, active[..n]);
      assert forall i | 0 <= i < n :: active[..n][i] == active[i];
      if Matches(c, own, active[n]) {
      } else if MatchOf(c, own, active[..n]).Some? {
        var i :| 0 <= i < n && Matches(c, own, active[..n][i]) &&
          active[..n][i].item == MatchOf(c, own, active[..n]).value;
        assert Matches(c, own, active[i]);
      }
    }
  }
}

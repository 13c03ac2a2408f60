// The derived-memory vocabulary (derived.go, derived_id.go) and its field rules
// (derived_validation.go).
//
// A hashed identity is modelled by the list of parts it hashes, so it is injective by
// construction; module Identity proves that the byte preimage is decodable. Identities
// claimed by a model may be arbitrary text, which the Foreign constructors stand for.
module Derived {
  import opened Wrappers
  import opened Text

  const MAX_CANDIDATE_COUNT := 32
  const MAX_SOURCES_PER_REVISION := 256
  const MAX_DERIVED_TEXT_BYTES := 32 * 1024
  const MAX_SEARCH_QUERY_BYTES := 4096
  const MAX_SNAPSHOT_ITEMS := 2048

  datatype ScopeKind = Personal | Group
  datatype Scope = Scope(key: string, kind: ScopeKind)

  datatype Derivation = Derivation(pipeline: string, policy: string, prompt: string, model: string)
  datatype Stage = AtomStage | ScenarioStage | ProfileStage
  datatype Kind = AtomKind | ScenarioKind | ProfileKind
  datatype Category = Fact | Preference | Constraint | Decision | Event
  datatype State = Active | Superseded | Invalidated
  datatype SourceState = Live | Tombstone
  datatype Relation = New | Coexist | Supersede

  datatype OperationId = OperationId(parts: seq<string>) | ForeignOperation(operationText: string)
  datatype ItemId = ItemId(kind: Kind, scope: Scope, parts: seq<string>) | ForeignItem(itemText: string)

  datatype SourceRef = SourceRef(scope: Scope, exportId: string, sessionId: string, sourceTurnId: string)
  datatype RevisionRef = RevisionRef(item: ItemId, revision: RevisionId)

  // Provenance enters the identity as multisets: its order is not hashed. Only an atom
  // hashes a related revision, as two more parts of its content.
  datatype RevisionId =
    | RevisionId(scope: Scope, item: ItemId, operation: OperationId, content: seq<string>,
                 related: Option<RevisionRef>, rawSources: multiset<SourceRef>, parents: multiset<RevisionRef>,
                 supersedes: Option<RevisionRef>)
    | ForeignRevision(revisionText: string)

  datatype Provenance = Provenance(rawSources: seq<SourceRef>, parents: seq<RevisionRef>)

  datatype Meta = Meta(
    kind: Kind, item: ItemId, revision: RevisionId, number: nat, operation: OperationId, scope: Scope,
    state: State, provenance: Provenance, createdAt: int, supersedes: Option<RevisionRef>)

  datatype Body =
    | Atom(category: Category, text: string, relation: Relation, related: Option<RevisionRef>)
    | Scenario(topicKey: string, title: string, summary: string)
    | Profile(profile: string)

  datatype Revision = Revision(meta: Meta, body: Body) {
    function Ref(): RevisionRef { RevisionRef(meta.item, meta.revision) }
  }

  // ----- identities -----

  const LEGACY := Derivation("legacy-v1", "legacy-v1", "legacy-v1", "legacy-v1")

  function StageName(stage: Stage): string {
    match stage
    case AtomStage => "atoms"
    case ScenarioStage => "scenarios"
    case ProfileStage => "profile"
  }

  function DerivationError(d: Derivation): Option<Code> {
    if IsCanonicalId(d.pipeline) && IsCanonicalId(d.policy) && IsCanonicalId(d.prompt) && IsCanonicalId(d.model)
    then None else Some(InvalidDerived)
  }

  // ProcessingOperationID: the legacy derivation keeps its unversioned key.
  function ProcessingOperationId(stage: Stage, exportId: string, d: Derivation): Result<OperationId> {
    if !IsCanonicalId(exportId) then Err(InvalidDerived)
    else if DerivationError(d).Some? then Err(DerivationError(d).value)
    else if d == LEGACY then Ok(OperationId([StageName(stage), exportId]))
    else Ok(OperationId([StageName(stage), exportId, d.pipeline, d.policy, d.prompt, d.model]))
  }

  // One idempotency key names one stage of one export under one derivation.
  lemma OperationIdInjective(s1: Stage, e1: string, d1: Derivation, s2: Stage, e2: string, d2: Derivation)
    requires ProcessingOperationId(s1, e1, d1).Ok?
    requires ProcessingOperationId(s1, e1, d1) == ProcessingOperationId(s2, e2, d2)
    ensures s1 == s2 && e1 == e2 && d1 == d2
  {
    var a := ProcessingOperationId(s1, e1, d1).value.parts;
    var b := ProcessingOperationId(s2, e2, d2).value.parts;
    assert |a| == |b| && a[0] == b[0] && a[1] == b[1];
    assert StageName(s1)[0] == StageName(s2)[0];
    if d1 != LEGACY {
      assert a[2] == b[2] && a[3] == b[3] && a[4] == b[4] && a[5] == b[5];
    }
  }

  function ScenarioItem(scope: Scope, topicKey: string): ItemId {
    ItemId(ScenarioKind, scope, [Normalize(topicKey)])
  }

  function ProfileItem(scope: Scope): ItemId {
    ItemId(ProfileKind, scope, [])
  }

  function CategoryName(category: Category): string {
    match category
    case Fact => "fact"
    case Preference => "preference"
    case Constraint => "constraint"
    case Decision => "decision"
    case Event => "event"
  }

  function AtomItem(scope: Scope, category: Category, text: string): ItemId {
    ItemId(AtomKind, scope, [CategoryName(category), Normalize(text)])
  }

  // ----- field rules; None means valid -----

  function ScopeError(s: Scope): Option<Code> {
    if s.key == "" || IsSpace(s.key[0]) || IsSpace(s.key[|s.key| - 1]) || ':' !in s.key then Some(InvalidScope)
    else
      var cut := ChannelLength(s.key);
      var address := s.key[cut + 1..];
      if cut == 0 || address == "" || IsSpace(address[0]) || IsSpace(address[|address| - 1])
        || exists i | 0 <= i < cut :: IsUpper(s.key[i]) || s.key[i] in " \t\r\n"
      then Some(InvalidScope) else None
  }

  predicate IsUpper(c: char) { 'A' <= c <= 'Z' }

  function ChannelLength(key: string): (n: nat)
    requires ':' in key
    ensures n < |key| && key[n] == ':' && ':' !in key[..n]
  {
    if key[0] == ':' then 0 else 1 + ChannelLength(key[1..])
  }

  // A channel of at least one character, none of them upper-case or white space in it, and an
  // address, with a colon between them; no white space around either.
  ghost predicate ChannelAndAddress(key: string, cut: nat) {
    && 0 < cut && cut + 1 < |key| && key[cut] == ':' && !IsSpace(key[0]) && !IsSpace(key[|key| - 1])
    && !IsSpace(key[cut + 1])
    && forall i | 0 <= i < cut :: key[i] != ':' && !IsUpper(key[i]) && key[i] !in " \t\r\n"
  }

  lemma {:induction false} FirstColon(key: string, cut: nat)
    requires cut < |key| && key[cut] == ':' && forall i | 0 <= i < cut :: key[i] != ':'
    ensures ':' in key && ChannelLength(key) == cut
  {
    if cut > 0 { FirstColon(key[1..], cut - 1); }
  }

  lemma ScopeIff(s: Scope)
    ensures ScopeError(s) == None <==> exists cut: nat :: ChannelAndAddress(s.key, cut)
  {
    var key := s.key;
    if ':' in key && key != "" {
      var cut := ChannelLength(key);
      if ScopeError(s) == None {
        assert key[cut + 1..][0] == key[cut + 1];
        assert ChannelAndAddress(key, cut);
      }
      if other: nat :| ChannelAndAddress(key, other) {
        FirstColon(key, other);
        assert key[cut + 1..][0] == key[cut + 1] && key[cut + 1..][|key| - cut - 2] == key[|key| - 1];
      }
    }
  }

  function ItemIdError(item: ItemId): Option<Code> {
    if item.ForeignItem? && !IsCanonicalId(item.itemText) then Some(InvalidDerived) else None
  }

  function OperationIdError(operation: OperationId): Option<Code> {
    if operation.ForeignOperation? && !IsCanonicalId(operation.operationText) then Some(InvalidDerived) else None
  }

  function RefError(ref: RevisionRef): Option<Code> {
    if ItemIdError(ref.item).Some? then ItemIdError(ref.item)
    else if ref.revision.ForeignRevision? && !IsCanonicalId(ref.revision.revisionText) then Some(InvalidDerived)
    else None
  }

  function SourceRefError(s: SourceRef): Option<Code> {
    if ScopeError(s.scope).Some? then ScopeError(s.scope)
    else if IsCanonicalId(s.exportId) && IsCanonicalId(s.sessionId) && IsCanonicalId(s.sourceTurnId) then None
    else Some(InvalidDerived)
  }

  predicate Distinct<T(==)>(s: seq<T>) {
    forall i, j | 0 <= i < j < |s| :: s[i] != s[j]
  }

  // validateRevisionRefs: bounded, well formed and free of duplicates. The seen set
  // of the source is the prefix already scanned.
  function RefsErrorFrom(refs: seq<RevisionRef>, i: nat): Option<Code>
    requires i <= |refs|
    decreases |refs| - i
  {
    if i == |refs| then None
    else if RefError(refs[i]).Some? then RefError(refs[i])
    else if refs[i] in refs[..i] then Some(InvalidDerived)
    else RefsErrorFrom(refs, i + 1)
  }

  function RefsError(refs: seq<RevisionRef>): Option<Code> {
    if |refs| > MAX_SOURCES_PER_REVISION then Some(LimitExceeded) else RefsErrorFrom(refs, 0)
  }

  lemma {:induction false} RefsErrorFromMeaning(refs: seq<RevisionRef>, i: nat)
    requires i <= |refs|
    ensures RefsErrorFrom(refs, i) == None <==>
      forall k | i <= k < |refs| :: RefError(refs[k]) == None && refs[k] !in refs[..k]
    decreases |refs| - i
  {
    if i < |refs| { RefsErrorFromMeaning(refs, i + 1); }
  }

  // A list of references is accepted exactly when each is well formed and none repeats.
  lemma RefsErrorMeaning(refs: seq<RevisionRef>)
    ensures RefsErrorFrom(refs, 0) == None <==>
      Distinct(refs) && forall k | 0 <= k < |refs| :: RefError(refs[k]) == None
  {
    RefsErrorFromMeaning(refs, 0);
    if Distinct(refs) {
      assert forall k | 0 <= k < |refs| :: refs[k] !in refs[..k];
    }
    if forall k | 0 <= k < |refs| :: refs[k] !in refs[..k] {
      forall i, j | 0 <= i < j < |refs| ensures refs[i] != refs[j] {
        assert refs[..j][i] == refs[i];
      }
    }
  }

  // Raw sources are unique by export within their scope.
  function SourcesErrorFrom(scope: Scope, sources: seq<SourceRef>, i: nat): Option<Code>
    requires i <= |sources|
    decreases |sources| - i
  {
    if i == |sources| then None
    else if SourceRefError(sources[i]).Some? then SourceRefError(sources[i])
    else if sources[i].scope != scope then Some(ScopeViolation)
    else if exists k | 0 <= k < i ::
      sources[k].scope.key == sources[i].scope.key && sources[k].exportId == sources[i].exportId
    then Some(InvalidDerived)
    else SourcesErrorFrom(scope, sources, i + 1)
  }

  lemma {:induction false} SourcesErrorFromMeaning(scope: Scope, sources: seq<SourceRef>, i: nat)
    requires i <= |sources|
    ensures SourcesErrorFrom(scope, sources, i) == None <==>
      forall k | i <= k < |sources| ::
        && SourceRefError(sources[k]) == None && sources[k].scope == scope
        && forall j | 0 <= j < k :: sources[j].scope.key != sources[k].scope.key
                                    || sources[j].exportId != sources[k].exportId
    decreases |sources| - i
  {
    hide SourceRefError;
    if i < |sources| { SourcesErrorFromMeaning(scope, sources, i + 1); }
  }

  // Raw sources are accepted exactly when each is well formed and of the scope, and no export
  // is named twice.
  lemma SourcesErrorMeaning(scope: Scope, sources: seq<SourceRef>)
    ensures SourcesErrorFrom(scope, sources, 0) == None <==>
      && (forall k | 0 <= k < |sources| :: SourceRefError(sources[k]) == None && sources[k].scope == scope)
      && forall j, k | 0 <= j < k < |sources| :: sources[j].exportId != sources[k].exportId
  {
    hide SourceRefError;
    SourcesErrorFromMeaning(scope, sources, 0);
  }

  function ProvenanceError(p: Provenance, scope: Scope): Option<Code> {
    if ScopeError(scope).Some? then ScopeError(scope)
    else if |p.rawSources| + |p.parents| == 0 then Some(InvalidDerived)
    else if |p.rawSources| + |p.parents| > MAX_SOURCES_PER_REVISION then Some(LimitExceeded)
    else if SourcesErrorFrom(scope, p.rawSources, 0).Some? then SourcesErrorFrom(scope, p.rawSources, 0)
    else RefsErrorFrom(p.parents, 0)
  }

  // validateDerivedText and validateDerivedKey, which differ in the size limit.
  function TextError(value: string, limit: nat): Option<Code> {
    if |value| > limit then Some(LimitExceeded)
    else if Normalize(value) == "" then Some(InvalidDerived)
    else None
  }

  // A stored text must pass the rule and already be in its normal form.
  function StoredTextError(value: string, limit: nat): Option<Code> {
    if TextError(value, limit).Some? then TextError(value, limit)
    else if Normalize(value) != value then Some(InvalidDerived)
    else None
  }

  // What the engine normalises from an accepted text is an accepted stored text.
  lemma NormalizedTextIsStorable(value: string, limit: nat)
    requires TextError(value, limit) == None
    ensures StoredTextError(Normalize(value), limit) == None
  {
    NormalizeIdempotent(value);
    NormalizeShrinks(value);
  }

  // Named references are normalised like all content; hashed ones hold no white space.
  function NormalizedRef(ref: RevisionRef): RevisionRef {
    RevisionRef(
      if ref.item.ForeignItem? then ForeignItem(Normalize(ref.item.itemText)) else ref.item,
      if ref.revision.ForeignRevision? then ForeignRevision(Normalize(ref.revision.revisionText)) else ref.revision)
  }

  function HashedRevisionId(
    scope: Scope, item: ItemId, operation: OperationId, content: seq<string>, related: Option<RevisionRef>,
    p: Provenance, supersedes: Option<RevisionRef>): RevisionId
  {
    RevisionId(scope, item, operation, seq(|content|, i requires 0 <= i < |content| => Normalize(content[i])),
               if related.None? then None else Some(NormalizedRef(related.value)),
               multiset(p.rawSources), multiset(p.parents), supersedes)
  }

  function DerivedRevisionId(
    scope: Scope, item: ItemId, operation: OperationId, content: seq<string>, p: Provenance,
    supersedes: Option<RevisionRef>): RevisionId
  {
    HashedRevisionId(scope, item, operation, content, None, p, supersedes)
  }

  // The text rule for the two names of a related revision, which are hashed as content; a
  // hashed name is short and has no white space.
  function RelatedTextError(related: Option<RevisionRef>): Option<Code> {
    if related.None? then None
    else if related.value.item.ForeignItem? && TextError(related.value.item.itemText, MAX_DERIVED_TEXT_BYTES).Some?
    then TextError(related.value.item.itemText, MAX_DERIVED_TEXT_BYTES)
    else if related.value.revision.ForeignRevision?
    then TextError(related.value.revision.revisionText, MAX_DERIVED_TEXT_BYTES)
    else None
  }

  // validateRevisionMeta; the per-text checks of DerivedRevisionID are those the caller
  // has made on the same texts.
  function MetaError(
    meta: Meta, kind: Kind, item: ItemId, content: seq<string>, related: Option<RevisionRef>, crossItem: bool):
    Option<Code>
  {
    if meta.kind != kind || meta.item != item || meta.number == 0 then Some(InvalidDerived)
    else if OperationIdError(meta.operation).Some? then OperationIdError(meta.operation)
    else if ScopeError(meta.scope).Some? then ScopeError(meta.scope)
    else if ProvenanceError(meta.provenance, meta.scope).Some? then ProvenanceError(meta.provenance, meta.scope)
    else if meta.createdAt == 0 then Some(InvalidDerived)
    else if meta.supersedes.Some? && RefError(meta.supersedes.value).Some? then RefError(meta.supersedes.value)
    else if meta.supersedes.Some? && meta.supersedes.value.item == meta.item && meta.number < 2
      then Some(InvalidDerived)
    else if meta.supersedes.Some? && meta.supersedes.value.item != meta.item && !crossItem then Some(InvalidDerived)
    else if RelatedTextError(related).Some? then RelatedTextError(related)
    else if meta.revision != HashedRevisionId(meta.scope, meta.item, meta.operation, content, related, meta.provenance,
      meta.supersedes)
    then Some(InvalidDerived)
    else None
  }

  function RelationName(relation: Relation): string {
    match relation
    case New => "new"
    case Coexist => "coexist"
    case Supersede => "supersede"
  }

  function RelationError(meta: Meta, relation: Relation, related: Option<RevisionRef>): Option<Code> {
    if relation == New && (related.Some? || meta.supersedes.Some?) then Some(InvalidDerived)
    else if relation == Coexist && (related.None? || meta.supersedes.Some?) then Some(InvalidDerived)
    else if relation == Supersede && (related.None? || meta.supersedes != related) then Some(InvalidDerived)
    else if related.Some? && RefError(related.value).Some? then RefError(related.value)
    else if related.Some? && related.value !in meta.provenance.parents then Some(InvalidDerived)
    else None
  }

  // Atom.Validate, Scenario.Validate and Profile.Validate.
  function RevisionError(r: Revision): Option<Code> {
    match r.body
    case Atom(category, text, relation, related) =>
      if StoredTextError(text, MAX_DERIVED_TEXT_BYTES).Some? then StoredTextError(text, MAX_DERIVED_TEXT_BYTES)
      else if RelationError(r.meta, relation, related).Some? then RelationError(r.meta, relation, related)
      else if ScopeError(r.meta.scope).Some? then ScopeError(r.meta.scope)
      else MetaError(r.meta, AtomKind, AtomItem(r.meta.scope, category, text),
                     [CategoryName(category), text, RelationName(relation)], related, true)
    case Scenario(topicKey, title, summary) =>
      if StoredTextError(topicKey, MAX_SEARCH_QUERY_BYTES).Some? then StoredTextError(topicKey, MAX_SEARCH_QUERY_BYTES)
      else if StoredTextError(title, MAX_DERIVED_TEXT_BYTES).Some? then StoredTextError(title, MAX_DERIVED_TEXT_BYTES)
      else if StoredTextError(summary, MAX_DERIVED_TEXT_BYTES).Some?
        then StoredTextError(summary, MAX_DERIVED_TEXT_BYTES)
      else if ScopeError(r.meta.scope).Some? then ScopeError(r.meta.scope)
      else MetaError(r.meta, ScenarioKind, ScenarioItem(r.meta.scope, topicKey), [topicKey, title, summary], None,
                     false)
    case Profile(summary) =>
      if StoredTextError(summary, MAX_DERIVED_TEXT_BYTES).Some? then StoredTextError(summary, MAX_DERIVED_TEXT_BYTES)
      else if ScopeError(r.meta.scope).Some? then ScopeError(r.meta.scope)
      else MetaError(r.meta, ProfileKind, ProfileItem(r.meta.scope), [summary], None, false)
  }

  function ContentOf(body: Body): seq<string> {
    match body
    case Atom(category, text, relation, related) => [CategoryName(category), text, RelationName(relation)]
    case Scenario(topicKey, title, summary) => [topicKey, title, summary]
    case Profile(summary) => [summary]
  }

  function RelatedOf(body: Body): Option<RevisionRef> {
    if body.Atom? then body.related else None
  }

  // What a valid revision says about itself: its identities are hashes of its own fields,
  // and it is grounded.
  lemma ValidRevisionIsGenuine(r: Revision)
    requires RevisionError(r) == None
    ensures r.meta.revision == HashedRevisionId(r.meta.scope, r.meta.item, r.meta.operation, ContentOf(r.body),
      RelatedOf(r.body), r.meta.provenance, r.meta.supersedes)
    ensures r.meta.number >= 1 && r.meta.item.ItemId? && r.meta.item.scope == r.meta.scope
    ensures r.meta.revision.RevisionId? && r.meta.revision.item == r.meta.item &&
      r.meta.revision.operation == r.meta.operation
    ensures RefError(r.Ref()) == None && ScopeError(r.meta.scope) == None
    ensures ProvenanceError(r.meta.provenance, r.meta.scope) == None
  {
    hide ScopeError, StoredTextError, ProvenanceError;
  }

  // What the field rules ask of stored text, of a body and of the rest.
  predicate Stored(text: string, limit: nat) {
    |text| <= limit && text != "" && Normalize(text) == text
  }

  predicate BodyIsStored(body: Body) {
    match body
    case Atom(category, text, relation, related) => Stored(text, MAX_DERIVED_TEXT_BYTES)
    case Scenario(topicKey, title, summary) =>
      && Stored(topicKey, MAX_SEARCH_QUERY_BYTES) && Stored(title, MAX_DERIVED_TEXT_BYTES)
      && Stored(summary, MAX_DERIVED_TEXT_BYTES)
    case Profile(summary) => Stored(summary, MAX_DERIVED_TEXT_BYTES)
  }

  // An atom names the revision it relates to, and replaces it or not, as its relation says.
  predicate RelationFits(r: Revision) {
    r.body.Atom? ==>
      && (r.body.relation == New <==> r.body.related.None?)
      && r.meta.supersedes == (if r.body.relation == Supersede then r.body.related else None)
      && (r.body.related.Some? ==>
        RefError(r.body.related.value) == None && r.body.related.value in r.meta.provenance.parents)
  }

  // Only an atom may replace a revision of another item; a replacement within an item is
  // never the first revision.
  predicate SupersessionFits(meta: Meta) {
    meta.supersedes.Some? ==>
      && RefError(meta.supersedes.value) == None
      && (if meta.supersedes.value.item == meta.item then meta.number >= 2 else meta.kind == AtomKind)
  }

  predicate ProvenanceFits(p: Provenance, scope: Scope) {
    && 0 < |p.rawSources| + |p.parents| <= MAX_SOURCES_PER_REVISION
    && (forall k | 0 <= k < |p.rawSources| ::
      SourceRefError(p.rawSources[k]) == None && p.rawSources[k].scope == scope)
    && (forall j, k | 0 <= j < k < |p.rawSources| :: p.rawSources[j].exportId != p.rawSources[k].exportId)
    && Distinct(p.parents) && forall k | 0 <= k < |p.parents| :: RefError(p.parents[k]) == None
  }

  function KindOf(body: Body): Kind {
    match body
    case Atom(_, _, _, _) => AtomKind
    case Scenario(_, _, _) => ScenarioKind
    case Profile(_) => ProfileKind
  }

  function ItemOf(scope: Scope, body: Body): ItemId {
    match body
    case Atom(category, text, _, _) => AtomItem(scope, category, text)
    case Scenario(topicKey, _, _) => ScenarioItem(scope, topicKey)
    case Profile(_) => ProfileItem(scope)
  }

  lemma StoredIff(text: string, limit: nat)
    ensures StoredTextError(text, limit) == None <==> Stored(text, limit)
  {
  }

  lemma ProvenanceFitsIff(p: Provenance, scope: Scope)
    ensures ProvenanceError(p, scope) == None <==> ScopeError(scope) == None && ProvenanceFits(p, scope)
  {
    hide ScopeError, SourceRefError, RefError, SourcesErrorFrom, RefsErrorFrom, Distinct;
    SourcesErrorMeaning(scope, p.rawSources);
    RefsErrorMeaning(p.parents);
  }

  // A revision is valid exactly when its texts are stored texts, its kind and item are those
  // of its body, it is numbered, dated and grounded, its relation and supersession fit, and
  // its identity is the hash of its own fields.
  lemma ValidRevisionIff(r: Revision)
    ensures RevisionError(r) == None <==>
      && BodyIsStored(r.body) && RelationFits(r) && RelatedTextError(RelatedOf(r.body)) == None
      && r.meta.kind == KindOf(r.body) && r.meta.item == ItemOf(r.meta.scope, r.body)
      && r.meta.number >= 1 && r.meta.createdAt != 0 && OperationIdError(r.meta.operation) == None
      && ScopeError(r.meta.scope) == None && ProvenanceFits(r.meta.provenance, r.meta.scope)
      && SupersessionFits(r.meta)
      && r.meta.revision == HashedRevisionId(r.meta.scope, r.meta.item, r.meta.operation, ContentOf(r.body),
           RelatedOf(r.body), r.meta.provenance, r.meta.supersedes)
  {
    ProvenanceFitsIff(r.meta.provenance, r.meta.scope);
    hide ScopeError, ProvenanceError, ProvenanceFits, RefError, OperationIdError, RelatedTextError, HashedRevisionId;
    hide StoredTextError, Stored;
    match r.body
    case Atom(category, text, relation, related) =>
      StoredIff(text, MAX_DERIVED_TEXT_BYTES);
    case Scenario(topicKey, title, summary) =>
      StoredIff(topicKey, MAX_SEARCH_QUERY_BYTES);
      StoredIff(title, MAX_DERIVED_TEXT_BYTES);
      StoredIff(summary, MAX_DERIVED_TEXT_BYTES);
    case Profile(summary) =>
      StoredIff(summary, MAX_DERIVED_TEXT_BYTES);
  }
}

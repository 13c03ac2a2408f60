// CanonicalTurnProcessor.ProcessTurn (canonical_processor.go) against a store that other
// workers change and that may fail at any call, with an extractor that may return
// anything, differently on every delivery.
module TurnProcessing {
  import opened Wrappers
  import opened Bytes
  import D = Derived
  import Text
  import Utf8
  import opened Turns
  import opened Reconciler
  import opened TurnMutations
  import opened TurnStore
  import opened TurnRedelivery
  import opened TurnRecords

  const MAX_TURN_TEXT_BYTES := 256 * 1024

  // ----- the text limit -----

  function TextLength(messages: seq<Message>): nat {
    if messages == [] then 0 else TextLength(messages[..|messages| - 1]) + |messages[|messages| - 1].text|
  }

  // turnTextExceeds
  method TextExceeds(t: Turn, limit: nat) returns (exceeds: bool)
    ensures exceeds <==> TextLength(t.messages) > limit
  {
    var remaining: nat := limit;
    var n := 0;
    while n < |t.messages|
      invariant n <= |t.messages| && remaining == limit - TextLength(t.messages[..n])
    {
      assert t.messages[..n + 1][..n] == t.messages[..n];
      if |t.messages[n].text| > remaining {
        PrefixIsShorter(t.messages, n + 1);
        return true;
      }
      remaining := remaining - |t.messages[n].text|;
      n := n + 1;
    }
    assert t.messages[..n] == t.messages;
    exceeds := false;
  }

  lemma {:induction false} PrefixIsShorter(messages: seq<Message>, n: nat)
    requires n <= |messages|
    ensures TextLength(messages[..n]) <= TextLength(messages)
    decreases |messages|
  {
    if n < |messages| {
      PrefixIsShorter(messages[..|messages| - 1], n);
      assert messages[..|messages| - 1][..n] == messages[..n];
    } else {
      assert messages[..n] == messages;
    }
  }

  // ----- the store -----

  class Port {
    const cfg: Config
    var s: Store
    // The calls that failed, or whose answer was lost, and the operations that the commits of
    // this port recorded, as opposed to those of other workers.
    ghost var faults: nat
    ghost var mine: set<OperationId>

    constructor (cfg: Config, scope: D.Scope)
      ensures this.cfg == cfg && s == EmptyScope(scope) && Base(s, cfg.derivation) && faults == 0 && mine == {}
    {
      this.cfg, s, faults, mine := cfg, EmptyScope(scope), 0, {};
      new;
      EmptyIsBase(cfg, scope);
    }

    // Other workers commit any number of turns.
    method Interfere()
      requires Base(s, cfg.derivation)
      modifies this`s
      ensures Base(s, cfg.derivation) && Reaches(cfg, old(s), s)
    {
      hide Base, Enabled, Next, Reaches;
      ReachesSelf(cfg, s);
      var n: int := *;
      while n > 0
        invariant Base(s, cfg.derivation) && Reaches(cfg, old(s), s)
      {
        n := n - 1;
        var a: Delivery := *;
        if Enabled(cfg, s, a) {
          StepKeepsBase(cfg, s, a);
          ReachesStep(cfg, s, a);
          ReachesTransitive(cfg, old(s), s, Next(cfg, s, a));
          s := Next(cfg, s, a);
        }
      }
    }

    method Fail<T>() returns (r: Result<T>)
      modifies this`faults
      ensures r == Err(StoreFailure) && faults == old(faults) + 1
    {
      faults := faults + 1;
      r := Err(StoreFailure);
    }

    method LoadScopeState() returns (r: Result<(D.Scope, nat)>)
      requires Base(s, cfg.derivation)
      modifies this
      ensures Base(s, cfg.derivation) && Reaches(cfg, old(s), s)
      ensures r.Ok? ==> r.value == (s.scope, s.version)
      ensures mine == old(mine) && faults >= old(faults) && (r.Err? ==> faults > old(faults))
    {
      hide Base, Reaches;
      Interfere();
      if * {
        r := Fail();
        return;
      }
      r := Ok((s.scope, s.version));
    }

    method ScanActiveMemory() returns (r: Result<seq<ActiveMemory>>)
      requires Base(s, cfg.derivation)
      modifies this
      ensures Base(s, cfg.derivation) && Reaches(cfg, old(s), s) && Indexed(s)
      ensures r.Ok? ==> r.value == Observation(s)
      ensures mine == old(mine) && faults >= old(faults) && (r.Err? ==> faults > old(faults))
    {
      hide Base, Reaches, Indexed, Observation;
      Interfere();
      BaseIsIndexed(s, cfg.derivation);
      if * {
        r := Fail();
        return;
      }
      r := Ok(Observation(s));
    }

    // ApplyCanonicalMutation: a recorded operation is replayed, or refused if its
    // fingerprint differs, which never happens; a mutation for another version is refused.
    // The ghost action says how the caller arrived at the mutation.
    method ApplyMutation(m: Mutation, order: seq<ItemId>, ghost a: Delivery) returns (r: Result<Outcome>)
      requires Base(s, cfg.derivation) && m.expected <= s.version
      requires m.operation == OperationOf(a.t.exportId, cfg.derivation) &&
        m.fingerprint == FingerprintOf(a.t.exportId, cfg.derivation)
      requires m.expected == s.version && m.operation !in s.operations ==> MakesMutation(cfg, s, a, m)
      modifies this
      ensures Base(s, cfg.derivation) && Reaches(cfg, old(s), s)
      ensures r.Ok? ==> m.operation in s.operations && r.value == s.operations[m.operation].outcome
      ensures faults >= old(faults) && (r.Err? ==> faults > old(faults) || s.version != m.expected)
      ensures m.operation in old(s.operations) ==> r.Ok? || faults > old(faults)
      ensures mine == old(mine) || (mine == old(mine) + {m.operation} && Takes(cfg, old(s), a, m, s))
    {
      hide Base, Reaches, Extends, MakesMutation, Apply, Takes;
      Interfere();
      ReachesKeepsBase(cfg, old(s), s);
      VersionsTell(old(s), s);
      OperationsStay(old(s), s);
      if * {
        r := Fail();
        return;
      }
      if m.operation in s.operations {
        OwnFingerprint(s, cfg.derivation, m.operation);
        if s.operations[m.operation].fingerprint != m.fingerprint {
          assert false;
        }
        return Ok(s.operations[m.operation].outcome);
      }
      if m.expected != s.version {
        return Err(Conflict);
      }
      var done := Perform(m, order, a);
      if !done {
        r := Fail();
        return;
      }
      if * {
        r := Fail();
        return;
      }
      r := Ok(s.operations[m.operation].outcome);
    }

    // The transaction. A listing that does not match the heads is the store's own fault,
    // and it commits nothing.
    method Perform(m: Mutation, order: seq<ItemId>, ghost a: Delivery) returns (done: bool)
      requires Base(s, cfg.derivation) && MakesMutation(cfg, s, a, m) && m.operation !in s.operations
      requires m.operation == OperationOf(a.t.exportId, cfg.derivation)
      modifies this`s, this`mine
      ensures Base(s, cfg.derivation) && Reaches(cfg, old(s), s)
      ensures done ==>
        mine == old(mine) + {m.operation} && Takes(cfg, old(s), a, m, s) && m.operation in s.operations
      ensures !done ==> mine == old(mine) && s == old(s)
    {
      hide Base, Reaches, Indexed, ValidTurn, Apply, Buildable;
      ReachesSelf(cfg, s);
      var n := Apply(s, m, order);
      done := D.Distinct(order) && Lists(order, n.heads);
      if done {
        ghost var step := a.(order := order);
        MadeMutation(cfg, s, a, m);
        assert Enabled(cfg, s, step) && n == Next(cfg, s, step);
        StepKeepsBase(cfg, s, step);
        ReachesStep(cfg, s, step);
        StepExtends(cfg, s, step);
        s, mine := n, mine + {m.operation};
      }
    }
  }

  // The commit of this mutation, of this delivery, led from one state to the next.
  ghost predicate Takes(cfg: Config, s: Store, a: Delivery, m: Mutation, n: Store) {
    exists order :: Steps(cfg, s, a.(order := order), m, n)
  }

  ghost predicate Steps(cfg: Config, s: Store, a: Delivery, m: Mutation, n: Store) {
    Enabled(cfg, s, a) && m == MutationOf(cfg, s, a) && n == Next(cfg, s, a)
  }

  // The mutation is what the processor builds from the action in this state.
  ghost predicate MakesMutation(cfg: Config, s: Store, a: Delivery, m: Mutation) {
    && Indexed(s) && ValidTurn(a.t) && a.t.scope == s.scope && |a.candidates| <= D.MAX_CANDIDATE_COUNT
    && Buildable(cfg.version, a.t, s.version, cfg.derivation, Observation(s), a.candidates)
    && m == MutationOf(cfg, s, a)
  }

  lemma MadeMutation(cfg: Config, s: Store, a: Delivery, m: Mutation)
    requires MakesMutation(cfg, s, a, m)
    ensures Indexed(s) && AllResolve(cfg.version, a.t, Observation(s), a.candidates) && m == MutationOf(cfg, s, a)
  {
  }

  lemma VersionsTell(a: Store, b: Store)
    requires Extends(a, b)
    ensures a.version <= b.version && (a.version == b.version ==> a == b) && b.scope == a.scope
  {
  }

  lemma OperationsStay(a: Store, b: Store)
    requires Extends(a, b)
    ensures forall op | op in a.operations :: op in b.operations
  {
  }

  lemma OwnFingerprint(s: Store, d: D.Derivation, op: OperationId)
    requires Base(s, d) && op in s.operations
    ensures s.operations[op].fingerprint == FingerprintOf(op.exportId, op.derivation)
  {
  }

  // ----- the extractor -----

  // One call: the turn it was asked about and what it returned, if it did.
  datatype Call = Call(t: Turn, answer: Option<seq<SemanticCandidate>>)

  // CanonicalSemanticExtractor: it may return anything.
  class Extractor {
    ghost var calls: seq<Call>

    constructor ()
      ensures calls == []
    {
      calls := [];
    }

    method Extract(t: Turn) returns (r: Result<seq<SemanticCandidate>>)
      modifies this
      ensures calls == old(calls) + [Call(t, if r.Ok? then Some(r.value) else None)]
    {
      var candidates: seq<SemanticCandidate> := *;
      if * {
        calls := calls + [Call(t, None)];
        return Err(ModelFailure);
      }
      calls := calls + [Call(t, Some(candidates))];
      r := Ok(candidates);
    }
  }

  // ----- the processor -----

  // validateActiveCanonicalMemory
  predicate ActiveFits(scope: D.Scope, x: ActiveMemory) {
    ValidItem(x.item) && x.item.scope == scope && x.number != 0 && ValidEvidenceRefs(x.evidence)
  }

  // Stored memory always passes it.
  lemma ActiveIsFit(s: Store, d: D.Derivation)
    requires Base(s, d) && Indexed(s)
    ensures forall i | 0 <= i < |Observation(s)| :: ActiveFits(s.scope, Observation(s)[i])
  {
    hide OwnFingerprints, D.Distinct, ValidItem, ValidEvidenceRefs;
    forall i | 0 <= i < |Observation(s)| ensures ActiveFits(s.scope, Observation(s)[i]) {
      var item := Listed(s)[i];
      assert ItemFits(s, d, s.items[item]) && RevisionFits(s, d, s.revisions[s.heads[item]]);
    }
  }

  // The scope that was scanned for the extractor, and what it returned, if it did.
  datatype Extraction = Extraction(scanned: Store, answer: Option<seq<SemanticCandidate>>)

  // The calls made: none before the scan, and one after it.
  ghost function Asked(t: Turn, e: Option<Extraction>): seq<Call> {
    if e.None? then [] else [Call(t, e.value.answer)]
  }

  ghost predicate Accepted(cfg: Config, t: Turn, e: Extraction) {
    && Indexed(e.scanned) && e.answer.Some? && |e.answer.value| <= D.MAX_CANDIDATE_COUNT
    && Acceptable(cfg.version, e.scanned, t, e.answer.value)
  }

  // The answer to a turn: success means that the candidates were acceptable in the scanned
  // scope. If they were and no call failed, only a commit of another worker since the version
  // was read can refuse it, and not even that if the operation was recorded already.
  ghost predicate Verdict(cfg: Config, t: Turn, e: Extraction, r: Result<Outcome>, failed: bool, moved: bool) {
    && (r.Ok? ==> Accepted(cfg, t, e))
    && (Accepted(cfg, t, e) && r.Err? ==>
          failed || (moved && OperationOf(t.exportId, cfg.derivation) !in e.scanned.operations))
  }

  // What this call committed, whether or not its answer arrived: the turn with the very
  // candidates of the extractor, in the scope they were extracted for.
  ghost predicate CommitsAnswer(cfg: Config, t: Turn, e: Option<Extraction>, n: Store) {
    && e.Some? && e.value.answer.Some? && Indexed(e.value.scanned) && AllCite(e.value.answer.value)
    && TurnCommitted(cfg, e.value.scanned, t, e.value.answer.value, n)
  }

  // What is refused before the scope is read.
  ghost predicate Refused(cfg: Config, t: Turn, scope: D.Scope) {
    || !ValidTurn(t) || D.DerivationError(cfg.derivation).Some? || TextLength(t.messages) > MAX_TURN_TEXT_BYTES
    || t.scope != scope
  }

  // ProcessTurn. There is no lookup before the work: a redelivery is recognised by the
  // store alone, and only if the candidates survive validation. So a redelivery for which
  // no call fails is answered with its outcome exactly when its candidates are acceptable.
  method ProcessTurn(store: Port, extractor: Extractor, t: Turn)
    returns (r: Result<Outcome>, ghost e: Option<Extraction>)
    requires Base(store.s, store.cfg.derivation)
    modifies store, extractor
    ensures extractor.calls == old(extractor.calls) + Asked(t, e)
    ensures Base(store.s, store.cfg.derivation) && Reaches(store.cfg, old(store.s), store.s)
    ensures r.Ok? ==> ValidTurn(t) && OperationOf(t.exportId, store.cfg.derivation) in store.s.operations
    ensures r.Ok? ==> r.value == store.s.operations[OperationOf(t.exportId, store.cfg.derivation)].outcome
    ensures r.Ok? ==> e.Some?
    ensures Refused(store.cfg, t, old(store.s).scope) ==> e.None?
    ensures e.None? ==> store.faults > old(store.faults) || Refused(store.cfg, t, old(store.s).scope)
    ensures e.Some? ==> Reaches(store.cfg, old(store.s), e.value.scanned)
    ensures e.Some? ==> Verdict(store.cfg, t, e.value, r, store.faults > old(store.faults),
                                store.s.version != old(store.s).version)
    ensures
      || store.mine == old(store.mine)
      || (store.mine == old(store.mine) + {OperationOf(t.exportId, store.cfg.derivation)}
          && CommitsAnswer(store.cfg, t, e, store.s))
  {
    hide Base, Reaches, Extends, ValidTurn, Observation, Indexed, Buildable, Verdict, CommitsAnswer;
    var cfg := store.cfg;
    e := None;
    ReachesSelf(cfg, store.s);
    var fault := ValidateTurn(t);
    if fault.Some? {
      return Err(fault.value), e;
    }
    if D.DerivationError(cfg.derivation).Some? {
      return Err(D.DerivationError(cfg.derivation).value), e;
    }
    var exceeds := TextExceeds(t, MAX_TURN_TEXT_BYTES);
    if exceeds {
      return Err(LimitExceeded), e;
    }
    var state := store.LoadScopeState();
    ReachesKeepsBase(cfg, old(store.s), store.s);
    VersionsTell(old(store.s), store.s);
    if state.Err? {
      return Err(state.code), e;
    }
    if state.value.0 != t.scope {
      return Err(ScopeViolation), e;
    }
    ghost var mid := store.s;
    ghost var faults := store.faults;
    r, e := DeriveAndCommit(store, extractor, t, state.value.1);
    if e.Some? { ReachesTransitive(cfg, old(store.s), mid, e.value.scanned); }
    ReachesTransitive(cfg, old(store.s), mid, store.s);
    ReachesKeepsBase(cfg, mid, store.s);
    VersionsTell(mid, store.s);
    if e.Some? {
      VerdictWeakens(cfg, t, e.value, r, store.faults > faults, store.faults > old(store.faults),
        store.s.version != mid.version, store.s.version != old(store.s).version);
    }
  }

  lemma VerdictWeakens(cfg: Config, t: Turn, e: Extraction, r: Result<Outcome>, failed: bool, failed': bool,
      moved: bool, moved': bool)
    requires Verdict(cfg, t, e, r, failed, moved) && (failed ==> failed') && (moved ==> moved')
    ensures Verdict(cfg, t, e, r, failed', moved')
  {
    hide Accepted;
  }

  // From the scan to the commit. The version was read first, so a commit that lands
  // between it and the scan makes the mutation stale.
  method DeriveAndCommit(store: Port, extractor: Extractor, t: Turn, version: nat)
    returns (r: Result<Outcome>, ghost e: Option<Extraction>)
    requires Base(store.s, store.cfg.derivation) && ValidTurn(t) && t.scope == store.s.scope &&
      version <= store.s.version
    modifies store, extractor
    ensures extractor.calls == old(extractor.calls) + Asked(t, e)
    ensures Base(store.s, store.cfg.derivation) && Reaches(store.cfg, old(store.s), store.s)
    ensures r.Ok? ==> OperationOf(t.exportId, store.cfg.derivation) in store.s.operations
    ensures r.Ok? ==> r.value == store.s.operations[OperationOf(t.exportId, store.cfg.derivation)].outcome
    ensures r.Ok? ==> e.Some?
    ensures store.faults >= old(store.faults) && (e.None? ==> store.faults > old(store.faults))
    ensures e.Some? ==> Reaches(store.cfg, old(store.s), e.value.scanned)
    ensures e.Some? ==> Verdict(store.cfg, t, e.value, r, store.faults > old(store.faults), store.s.version != version)
    ensures
      || store.mine == old(store.mine)
      || (store.mine == old(store.mine) + {OperationOf(t.exportId, store.cfg.derivation)}
          && CommitsAnswer(store.cfg, t, e, store.s))
  {
    hide Base, Reaches, ValidTurn, Observation, Indexed, Buildable, ActiveFits, Acceptable, CommitsAnswer, Takes;
    var cfg := store.cfg;
    e := None;
    var active := store.ScanActiveMemory();
    ReachesKeepsBase(cfg, old(store.s), store.s);
    ActiveIsFit(store.s, cfg.derivation);
    if active.Err? {
      return Err(active.code), e;
    }
    if exists i | 0 <= i < |active.value| :: !ActiveFits(t.scope, active.value[i]) {
      assert false;
    }
    ghost var mid := store.s;
    ReachesSelf(cfg, mid);
    var extracted := extractor.Extract(t);
    if extracted.Err? {
      e := Some(Extraction(mid, None));
      return Err(extracted.code), e;
    }
    var candidates := extracted.value;
    e := Some(Extraction(mid, Some(candidates)));
    if |candidates| > D.MAX_CANDIDATE_COUNT {
      return Err(LimitExceeded), e;
    }
    TurnParts(t);
    BuildableIff(cfg, mid, t, version, candidates);
    var mutation := BuildMutation(cfg.version, t, version, cfg.derivation, active.value, candidates);
    if mutation.Err? {
      return Err(mutation.code), e;
    }
    var order: seq<ItemId> := *;
    ghost var a := Delivery(t, candidates, order);
    BuiltForState(cfg, mid, a, version, mutation.value);
    r := store.ApplyMutation(mutation.value, order, a);
    ReachesTransitive(cfg, old(store.s), mid, store.s);
    if store.mine != old(store.mine) { TakesAnswer(cfg, mid, a, mutation.value, store.s); }
  }

  lemma TakesAnswer(cfg: Config, s: Store, a: Delivery, m: Mutation, n: Store)
    requires Base(s, cfg.derivation) && Takes(cfg, s, a, m, n)
    ensures CommitsAnswer(cfg, a.t, Some(Extraction(s, Some(a.candidates))), n)
  {
    hide Base, Steps, TurnCommitted, Indexed, AllCite;
    var order :| Steps(cfg, s, a.(order := order), m, n);
    StepsRecords(cfg, s, a.(order := order), m, n);
  }

  lemma StepsRecords(cfg: Config, s: Store, a: Delivery, m: Mutation, n: Store)
    requires Base(s, cfg.derivation) && Steps(cfg, s, a, m, n)
    ensures Indexed(s) && AllCite(a.candidates) && TurnCommitted(cfg, s, a.t, a.candidates, n)
  {
    hide Base, Enabled, Next, MutationOf, TurnCommitted, Indexed, AllCite;
    DeliveryRecords(cfg, s, a);
  }

  lemma BuiltForState(cfg: Config, s: Store, a: Delivery, version: nat, m: Mutation)
    requires Indexed(s) && ValidTurn(a.t) && a.t.scope == s.scope && |a.candidates| <= D.MAX_CANDIDATE_COUNT &&
      version <= s.version
    requires Buildable(cfg.version, a.t, version, cfg.derivation, Observation(s), a.candidates)
    requires m == Built(a.t, version, cfg.derivation, Observation(s),
      Reconciliations(cfg.version, a.t, Observation(s), a.candidates))
    ensures m.operation == OperationOf(a.t.exportId, cfg.derivation) &&
      m.fingerprint == FingerprintOf(a.t.exportId, cfg.derivation)
    ensures m.expected == version && (version == s.version ==> MakesMutation(cfg, s, a, m))
  {
    hide Indexed, ValidTurn, Observation, Resolves, Resolved, ValidMutation, DistinctItems, Built;
    BuiltShape(a.t, version, cfg.derivation, Observation(s),
      Reconciliations(cfg.version, a.t, Observation(s), a.candidates));
  }
}

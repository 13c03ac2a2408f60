// ProjectionRuntime.Sync and Close (app/projection.go): admission under a mutex, the wait
// group, and shutdown, as atomic steps of any number of interleaved calls.
module ProjectionRuntime {
  import opened Wrappers

  type CallId = nat

  // Where a call stands. Entered and Closing hold the mutex; so do Numbered and Counted.
  datatype Phase =
    | Entered
    | Numbered(serial: nat)
    | Counted(serial: nat)
    | Running(serial: nat)
    | Finished(serial: nat)
    | Refused
    | EnteredClose
    | Shut
    | Waiting
    | Closed

  predicate HoldsLock(p: Phase) {
    p.Entered? || p.Numbered? || p.Counted? || p.EnteredClose? || p.Shut?
  }

  // Calls the wait group counts.
  predicate IsActive(p: Phase) {
    p.Counted? || p.Running?
  }

  predicate IsAdmitted(p: Phase) {
    p.Numbered? || p.Counted? || p.Running? || p.Finished?
  }

  function ActiveCalls(calls: map<CallId, Phase>): set<CallId> {
    set c | c in calls && IsActive(calls[c])
  }

  // The mutex is held by exactly the call whose phase says so.
  ghost predicate LockFits(lock: Option<CallId>, calls: map<CallId, Phase>) {
    && (forall c | c in calls && HoldsLock(calls[c]) :: lock == Some(c))
    && (lock.Some? ==> lock.value in calls && HoldsLock(calls[lock.value]))
  }

  ghost predicate Tallied(active: nat, calls: map<CallId, Phase>) {
    active == |ActiveCalls(calls)|
  }

  ghost predicate SerialsFit(serial: nat, calls: map<CallId, Phase>) {
    && (forall c | c in calls && IsAdmitted(calls[c]) :: 0 < calls[c].serial <= serial)
    && (forall c, d | c in calls && d in calls && c != d && IsAdmitted(calls[c]) && IsAdmitted(calls[d]) ::
          calls[c].serial != calls[d].serial)
  }

  // Once closing, no call is past the test without being counted, and a Close that has
  // returned left none counted.
  ghost predicate ClosingFits(closing: bool, calls: map<CallId, Phase>) {
    && (forall c | c in calls && (calls[c].Shut? || calls[c].Waiting? || calls[c].Closed?) :: closing)
    && (closing ==> forall c | c in calls :: !calls[c].Numbered? && !calls[c].Counted?)
    && (AnyClosed(calls) ==> ActiveCalls(calls) == {})
  }

  ghost predicate AnyClosed(calls: map<CallId, Phase>) {
    exists c :: c in calls && calls[c].Closed?
  }

  // What a step never undoes: an admitted call keeps its serial, and none is admitted
  // after a Close has returned.
  ghost predicate Forward(calls: map<CallId, Phase>, later: map<CallId, Phase>) {
    && (forall c | c in calls && IsAdmitted(calls[c]) ::
      c in later && IsAdmitted(later[c]) && later[c].serial == calls[c].serial)
    && (AnyClosed(calls) ==> AnyClosed(later) && forall c | c in later && IsAdmitted(later[c]) ::
      c in calls && IsAdmitted(calls[c]))
  }

  predicate Held(calls: map<CallId, Phase>, c: CallId) {
    c in calls && HoldsLock(calls[c])
  }

  lemma LockStep(lock: Option<CallId>, calls: map<CallId, Phase>, c: CallId, p: Phase)
    requires LockFits(lock, calls) && (lock.None? || Held(calls, c) || !HoldsLock(p))
    ensures LockFits(if HoldsLock(p) then Some(c) else if Held(calls, c) then None else lock, calls[c := p])
  {
  }

  lemma TallyStep(active: nat, calls: map<CallId, Phase>, c: CallId, p: Phase)
    requires Tallied(active, calls)
    ensures ActiveCalls(calls[c := p]) == if IsActive(p) then ActiveCalls(calls) + {c} else ActiveCalls(calls) - {c}
    ensures c in calls && IsActive(calls[c]) ==> active > 0
    ensures var was, now := c in calls && IsActive(calls[c]), IsActive(p);
      active + (if now && !was then 1 else 0) - (if was && !now then 1 else 0) == |ActiveCalls(calls[c := p])|
  {
    assert ActiveCalls(calls[c := p]) == if IsActive(p) then ActiveCalls(calls) + {c} else ActiveCalls(calls) - {c};
    if c in calls && IsActive(calls[c]) { assert c in ActiveCalls(calls); }
  }

  lemma SerialStep(serial: nat, calls: map<CallId, Phase>, c: CallId, p: Phase, serial': nat)
    requires SerialsFit(serial, calls)
    requires IsAdmitted(p) ==>
      (p.serial == serial' == serial + 1) || (serial' == serial && c in calls && IsAdmitted(calls[c]) &&
        calls[c].serial == p.serial)
    requires !IsAdmitted(p) ==> serial' == serial
    ensures SerialsFit(serial', calls[c := p])
  {
  }

  lemma ClosingStep(closing: bool, calls: map<CallId, Phase>, c: CallId, p: Phase, closing': bool)
    requires ClosingFits(closing, calls) && (closing ==> closing')
    requires p.Shut? || p.Waiting? || p.Closed? ==> closing'
    requires p.Numbered? || p.Counted? ==> !closing'
    requires closing' && !closing ==> forall d | d in calls && d != c :: !HoldsLock(calls[d])
    requires p.Closed? ==> ActiveCalls(calls[c := p]) == {}
    requires IsActive(p) ==> !closing' || (c in calls && IsActive(calls[c]))
    requires c in calls ==> !calls[c].Closed?
    ensures ClosingFits(closing', calls[c := p])
  {
    var later := calls[c := p];
    if AnyClosed(calls) {
      assert ActiveCalls(later) <= ActiveCalls(calls);
    }
  }

  lemma ForwardStep(calls: map<CallId, Phase>, c: CallId, p: Phase, closing: bool)
    requires ClosingFits(closing, calls) && (c in calls ==> !calls[c].Closed?)
    requires c in calls && IsAdmitted(calls[c]) ==> IsAdmitted(p) && p.serial == calls[c].serial
    requires IsAdmitted(p) && !(c in calls && IsAdmitted(calls[c])) ==> !closing
    ensures Forward(calls, calls[c := p])
  {
    if AnyClosed(calls) {
      var d :| d in calls && calls[d].Closed?;
      assert calls[c := p][d].Closed?;
    }
  }

  lemma ForwardSelf(calls: map<CallId, Phase>)
    ensures Forward(calls, calls)
  {
  }

  lemma ForwardTransitive(a: map<CallId, Phase>, b: map<CallId, Phase>, c: map<CallId, Phase>)
    requires Forward(a, b) && Forward(b, c)
    ensures Forward(a, c)
  {
  }

  // ----- progress -----

  predicate Ended(p: Phase) {
    p.Finished? || p.Refused? || p.Closed?
  }

  // The steps a call has still to take.
  function Remaining(p: Phase): nat {
    match p
    case Entered => 4
    case Numbered(_) => 3
    case Counted(_) => 2
    case Running(_) => 1
    case EnteredClose => 3
    case Shut => 2
    case Waiting => 1
    case _ => 0
  }

  // A call waits for the mutex before its first step, and a Close for the running calls.
  predicate Blocked(lock: Option<CallId>, active: nat, calls: map<CallId, Phase>, c: CallId) {
    if c in calls then calls[c].Waiting? && active > 0 else lock.Some?
  }

  // Where the next step of a call that is not blocked takes it: a Sync, once it holds the mutex,
  // is refused if the runtime is closing, and numbered, counted, run and finished if not; a Close
  // announces itself, lets go of the mutex and waits.
  ghost predicate Advances(serial: nat, closing: bool, from: Option<Phase>, to: Phase, isClose: bool) {
    match from
    case None => to == if isClose then EnteredClose else Entered
    case Some(Entered) => to == if closing then Refused else Numbered(serial + 1)
    case Some(Numbered(n)) => to == Counted(n)
    case Some(Counted(n)) => to == Running(n)
    case Some(Running(n)) => to == Finished(n)
    case Some(EnteredClose) => to == Shut
    case Some(Shut) => to == Waiting
    case Some(Waiting) => to == Closed
    case Some(p) => to == p
  }

  // The fields of the runtime at one moment.
  datatype Moment = Moment(lock: Option<CallId>, serial: nat, closing: bool, active: nat, calls: map<CallId, Phase>)

  // One call takes its next step, or is blocked and nothing happens. Only a Close makes the
  // runtime closing, and nothing undoes it.
  ghost predicate StepFits(a: Moment, c: CallId, isClose: bool, b: Moment) {
    && b.closing == (a.closing || PhaseOf(a.calls, c) == Some(EnteredClose))
    && if Blocked(a.lock, a.active, a.calls, c) then b.calls == a.calls
       else
         && c in b.calls && b.calls == a.calls[c := b.calls[c]]
         && Advances(a.serial, a.closing, PhaseOf(a.calls, c), b.calls[c], isClose)
  }

  function PhaseOf(calls: map<CallId, Phase>, c: CallId): Option<Phase> {
    if c in calls then Some(calls[c]) else None
  }

  // There is no deadlock: while any call has steps to take, some call can take its next one;
  // and when none has, the mutex is free.
  lemma NoDeadlock(lock: Option<CallId>, active: nat, calls: map<CallId, Phase>)
    requires LockFits(lock, calls) && Tallied(active, calls)
    ensures
      || (exists c :: c in calls && !Ended(calls[c]) && !Blocked(lock, active, calls, c))
      || (lock.None? && forall c | c in calls :: Ended(calls[c]))
  {
    if lock.Some? {
      assert !Ended(calls[lock.value]) && !Blocked(lock, active, calls, lock.value);
    } else if c :| c in calls && !Ended(calls[c]) {
      if Blocked(lock, active, calls, c) {
        assert ActiveCalls(calls) != {};
        var d :| d in ActiveCalls(calls);
        assert !Ended(calls[d]) && !Blocked(lock, active, calls, d);
      } else {
        assert c in calls && !Ended(calls[c]) && !Blocked(lock, active, calls, c);
      }
    }
  }

  lemma NothingCounted(active: nat, calls: map<CallId, Phase>)
    requires Tallied(active, calls) && forall c | c in calls :: Ended(calls[c])
    ensures active == 0
  {
    assert ActiveCalls(calls) == {};
  }

  // The calls with so many steps to take.
  function AtStage(calls: map<CallId, Phase>, n: nat): set<CallId> {
    set c | c in calls && Remaining(calls[c]) == n
  }

  lemma StageDrops(calls: map<CallId, Phase>, later: map<CallId, Phase>, c: CallId)
    requires c in calls && c in later && later == calls[c := later[c]]
    requires Remaining(later[c]) < Remaining(calls[c])
    ensures var n := Remaining(calls[c]);
      && |AtStage(later, n)| < |AtStage(calls, n)|
      && forall m | m > n :: AtStage(later, m) == AtStage(calls, m)
  {
    var n := Remaining(calls[c]);
    assert AtStage(later, n) == AtStage(calls, n) - {c};
    assert c in AtStage(calls, n);
  }

  lemma AdvanceDrops(serial: nat, closing: bool, from: Phase, to: Phase, isClose: bool)
    requires Advances(serial, closing, Some(from), to, isClose) && !Ended(from)
    ensures Remaining(to) < Remaining(from) <= 4
  {
  }

  class Runtime {
    var lock: Option<CallId>
    var serial: nat
    var closing: bool
    var active: nat
    var calls: map<CallId, Phase>

    ghost predicate Valid()
      reads this
    {
      LockFits(lock, calls) && Tallied(active, calls) && SerialsFit(serial, calls) && ClosingFits(closing, calls)
    }

    ghost function Now(): Moment
      reads this
    {
      Moment(lock, serial, closing, active, calls)
    }

    constructor ()
      ensures Valid() && calls == map[]
    {
      lock, serial, closing, active, calls := None, 0, false, 0, map[];
    }

    // One call moves to its next phase; the arguments are the fields as the step leaves
    // them.
    method Move(c: CallId, p: Phase, lock': Option<CallId>, serial': nat, closing': bool, active': nat)
      requires LockFits(lock', calls[c := p]) && Tallied(active', calls[c := p])
      requires SerialsFit(serial', calls[c := p]) && ClosingFits(closing', calls[c := p])
      modifies this
      ensures Valid() && calls == old(calls)[c := p] && closing == closing'
    {
      hide LockFits, Tallied, SerialsFit, ClosingFits;
      lock, serial, closing, active, calls := lock', serial', closing', active', calls[c := p];
    }

    // Sync: mu.Lock, which waits for the mutex.
    method EnterSync(c: CallId)
      requires Valid() && c !in calls
      modifies this
      ensures Valid() && Forward(old(calls), calls) && closing == old(closing)
      ensures calls == if old(lock).None? then old(calls)[c := Entered] else old(calls)
    {
      if lock.None? {
        Prepare(c, Entered, serial, closing);
        Move(c, Entered, Some(c), serial, closing, active);
      }
    }

    // Sync: the closing test; a refused call unlocks at once.
    method CheckClosing(c: CallId)
      requires Valid() && c in calls && calls[c].Entered?
      modifies this
      ensures Valid() && Forward(old(calls), calls) && closing == old(closing)
      ensures calls == old(calls)[c := if old(closing) then Refused else Numbered(old(serial) + 1)]
    {
      if closing {
        Prepare(c, Refused, serial, closing);
        Move(c, Refused, None, serial, closing, active);
      } else {
        Prepare(c, Numbered(serial + 1), serial + 1, closing);
        Move(c, Numbered(serial + 1), Some(c), serial + 1, closing, active);
      }
    }

    // Sync: active.Add
    method Count(c: CallId)
      requires Valid() && c in calls && calls[c].Numbered?
      modifies this
      ensures Valid() && Forward(old(calls), calls) && closing == old(closing)
      ensures calls == old(calls)[c := Counted(old(calls)[c].serial)]
    {
      Prepare(c, Counted(calls[c].serial), serial, closing);
      Move(c, Counted(calls[c].serial), Some(c), serial, closing, active + 1);
    }

    // Sync: mu.Unlock; the work of the call follows.
    method Admit(c: CallId)
      requires Valid() && c in calls && calls[c].Counted?
      modifies this
      ensures Valid() && Forward(old(calls), calls) && closing == old(closing)
      ensures calls == old(calls)[c := Running(old(calls)[c].serial)]
    {
      Prepare(c, Running(calls[c].serial), serial, closing);
      Move(c, Running(calls[c].serial), None, serial, closing, active);
    }

    // Sync: active.Done, deferred, however the work ended.
    method Done(c: CallId)
      requires Valid() && c in calls && calls[c].Running?
      modifies this
      ensures Valid() && Forward(old(calls), calls) && closing == old(closing)
      ensures calls == old(calls)[c := Finished(old(calls)[c].serial)]
    {
      Prepare(c, Finished(calls[c].serial), serial, closing);
      Move(c, Finished(calls[c].serial), lock, serial, closing, active - 1);
    }

    // Close: mu.Lock
    method EnterClose(c: CallId)
      requires Valid() && c !in calls
      modifies this
      ensures Valid() && Forward(old(calls), calls) && closing == old(closing)
      ensures calls == if old(lock).None? then old(calls)[c := EnteredClose] else old(calls)
    {
      if lock.None? {
        Prepare(c, EnteredClose, serial, closing);
        Move(c, EnteredClose, Some(c), serial, closing, active);
      }
    }

    // Close: closing = true
    method SetClosing(c: CallId)
      requires Valid() && c in calls && calls[c].EnteredClose?
      modifies this
      ensures Valid() && Forward(old(calls), calls) && closing && calls == old(calls)[c := Shut]
    {
      Prepare(c, Shut, serial, true);
      Move(c, Shut, Some(c), serial, true, active);
    }

    // Close: mu.Unlock
    method Unlock(c: CallId)
      requires Valid() && c in calls && calls[c].Shut?
      modifies this
      ensures Valid() && Forward(old(calls), calls) && closing == old(closing) && calls == old(calls)[c := Waiting]
    {
      Prepare(c, Waiting, serial, closing);
      Move(c, Waiting, None, serial, closing, active);
    }

    // Close: active.Wait returns once the group is empty.
    method Wait(c: CallId)
      requires Valid() && c in calls && calls[c].Waiting?
      modifies this
      ensures Valid() && Forward(old(calls), calls) && closing == old(closing)
      ensures calls == if old(active) == 0 then old(calls)[c := Closed] else old(calls)
    {
      if active == 0 {
        Prepare(c, Closed, serial, closing);
        Move(c, Closed, lock, serial, closing, active);
      }
    }

    // Everything a move to phase p needs, given how it changes serial and closing.
    lemma Prepare(c: CallId, p: Phase, serial': nat, closing': bool)
      requires Valid() && (c in calls ==> !calls[c].Closed?)
      requires lock.None? || Held(calls, c) || !HoldsLock(p)
      requires IsAdmitted(p) ==>
        (p.serial == serial' == serial + 1) ||
          (serial' == serial && c in calls && IsAdmitted(calls[c]) && calls[c].serial == p.serial)
      requires !IsAdmitted(p) ==> serial' == serial
      requires (closing ==> closing') && (closing' && !closing ==> Held(calls, c))
      requires p.Shut? || p.Waiting? || p.Closed? ==> closing' || (c in calls && (calls[c].Shut? || calls[c].Waiting?))
      requires p.Numbered? ==> !closing'
      requires p.Counted? ==> c in calls && calls[c].Numbered? && closing' == closing
      requires p.Closed? ==> active == 0
      requires IsActive(p) ==> !p.Running? || (c in calls && IsActive(calls[c]))
      requires c in calls && IsAdmitted(calls[c]) ==> IsAdmitted(p) && p.serial == calls[c].serial
      requires IsAdmitted(p) && !(c in calls && IsAdmitted(calls[c])) ==> !closing
      ensures LockFits(if HoldsLock(p) then Some(c) else if Held(calls, c) then None else lock, calls[c := p])
      ensures SerialsFit(serial', calls[c := p]) && ClosingFits(closing', calls[c := p]) &&
        Forward(calls, calls[c := p])
      ensures c in calls && IsActive(calls[c]) ==> active > 0
      ensures var was, now := c in calls && IsActive(calls[c]), IsActive(p);
        active + (if now && !was then 1 else 0) - (if was && !now then 1 else 0) == |ActiveCalls(calls[c := p])|
    {
      assert p.Counted? ==> !closing;
      hide LockFits, Tallied, SerialsFit, ClosingFits, Forward;
      LockStep(lock, calls, c, p);
      TallyStep(active, calls, c, p);
      SerialStep(serial, calls, c, p, serial');
      ClosingStep(closing, calls, c, p, closing');
      ForwardStep(calls, c, p, closing);
    }

    // The next atomic step of a call, whatever it is; a finished call has none.
    method Step(c: CallId, isClose: bool)
      requires Valid()
      modifies this
      ensures Valid() && Forward(old(calls), calls)
      ensures StepFits(old(Now()), c, isClose, Now())
    {
      hide LockFits, Tallied, SerialsFit, ClosingFits, Forward;
      if c !in calls {
        if isClose { EnterClose(c); } else { EnterSync(c); }
      } else {
        match calls[c]
        case Entered => CheckClosing(c);
        case Numbered(_) => Count(c);
        case Counted(_) => Admit(c);
        case Running(_) => Done(c);
        case EnteredClose => SetClosing(c);
        case Shut => Unlock(c);
        case Waiting => Wait(c);
        case _ => ForwardSelf(calls);
      }
    }

    // Every interleaving of Sync and Close calls, step by step: once some Close has returned, no
    // admitted Sync is running and none is admitted any more; and no two admitted Syncs
    // ever hold the same serial.
    method Interleave(schedule: seq<(CallId, bool)>) returns (ghost moments: seq<Moment>)
      requires Valid()
      modifies this
      ensures |moments| == |schedule| + 1 && moments[0] == old(Now()) && moments[|schedule|] == Now()
      ensures forall i | 0 <= i < |schedule| :: StepFits(moments[i], schedule[i].0, schedule[i].1, moments[i + 1])
      ensures Valid() && Forward(old(calls), calls)
      ensures AnyClosed(calls) ==> forall c | c in calls :: !IsActive(calls[c])
      ensures forall c, d | c in calls && d in calls && c != d && IsAdmitted(calls[c]) && IsAdmitted(calls[d]) ::
        calls[c].serial != calls[d].serial
    {
      hide StepFits;
      var n := 0;
      moments := [Now()];
      while n < |schedule|
        invariant n <= |schedule| && Valid() && Forward(old(calls), calls)
        invariant |moments| == n + 1 && moments[0] == old(Now()) && moments[n] == Now()
        invariant forall i | 0 <= i < n :: StepFits(moments[i], schedule[i].0, schedule[i].1, moments[i + 1])
      {
        ghost var before := calls;
        Step(schedule[n].0, schedule[n].1);
        moments := moments + [Now()];
        ForwardTransitive(old(calls), before, calls);
        n := n + 1;
      }
      assert forall c | c in calls && IsActive(calls[c]) :: c in ActiveCalls(calls);
    }

    // The next step of a call that is not blocked is one step less to take.
    method AdvanceOf(c: CallId)
      requires Valid() && c in calls && !Ended(calls[c]) && !Blocked(lock, active, calls, c)
      modifies this
      ensures Valid() && Forward(old(calls), calls)
      ensures c in calls && calls == old(calls)[c := calls[c]]
      ensures Remaining(calls[c]) < Remaining(old(calls)[c]) <= 4
    {
      hide Forward, ClosingFits, SerialsFit, LockFits, Tallied, Advances;
      ghost var serial', closing', from := serial, closing, calls[c];
      Step(c, false);
      AdvanceDrops(serial', closing', from, calls[c], false);
    }

    // Shutdown comes to an end: whatever calls are under way, in whatever order they take
    // their steps, each of them ends, and every Close returns.
    method Drain()
      requires Valid()
      modifies this
      ensures Valid() && Forward(old(calls), calls) && calls.Keys == old(calls).Keys
      ensures lock.None? && active == 0 && forall c | c in calls :: Ended(calls[c])
    {
      hide Forward, ClosingFits, SerialsFit, LockFits, Tallied, AtStage;
      var more := true;
      ForwardSelf(calls);
      while more
        invariant Valid() && Forward(old(calls), calls) && calls.Keys == old(calls).Keys
        invariant !more ==> lock.None? && forall c | c in calls :: Ended(calls[c])
        decreases more, |AtStage(calls, 4)|, |AtStage(calls, 3)|, |AtStage(calls, 2)|, |AtStage(calls, 1)|
      {
        NoDeadlock(lock, active, calls);
        if c :| c in calls && !Ended(calls[c]) && !Blocked(lock, active, calls, c) {
          ghost var before := calls;
          AdvanceOf(c);
          ForwardTransitive(old(calls), before, calls);
          StageDrops(before, calls, c);
        } else {
          more := false;
        }
      }
      NothingCounted(active, calls);
    }
  }
}

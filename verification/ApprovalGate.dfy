/**
 The approval gate across instances. Every instance has its own hold registry; all share one store of
 approval records. `check` persists, holds and waits; `resolve` may run anywhere, and any number of
 checks and resolutions interleave. Storage reads and writes may raise, and a check may be cancelled
 wherever it awaits something.
 */
module ApprovalGate {
  import opened Options

  datatype ApprovalState = Pending | Approved | Denied | Expired

  /** A persisted request, reduced to what the gate reads back. */
  datatype Record = Record(state: ApprovalState, argumentsHash: string, expiresAt: int)

  type ApprovalId = nat
  type Instance = nat
  type ResolveId = nat

  datatype Hold = Hold(signalled: bool, approved: bool)

  datatype Result = Granted | DeniedResult | ExpiredResult | Raised | Cancelled(delivering: bool)

  datatype CheckPc =
    | Saved                          // record persisted, hold not yet registered
    | Delivering                     // hold registered, the approver is being notified
    | Waiting                        // at the top of the wait loop, deadline not reached
    | Sliced                         // inside `wait_slice`
    | Woken                          // the event was set; `approved` not yet read
    | Polling                        // the slice elapsed; about to read the record
    | Deciding(decision: Option<bool>)   // left the loop, hold not yet released
    | Released(decision: Option<bool>)
    | Done(result: Result)

  datatype Observation =
    | Elapsed
    | Signalled(approved: bool)
    | Unreadable
    | Found(state: ApprovalState)

  /** `seen` remembers what the wait observed; the program never reads it. */
  datatype CheckOp = CheckOp(instance: Instance, pc: CheckPc, seen: seq<Observation>)

  datatype ResolvePc = Passed | Written | Finished

  datatype ResolveOp = ResolveOp(
    id: ApprovalId, approved: bool, instance: Instance, pc: ResolvePc)

  /** `decisions` remembers every decision a resolution wrote; the program never reads it. */
  datatype State = State(
    store: map<ApprovalId, Record>,
    holds: map<(Instance, ApprovalId), Hold>,
    checks: map<ApprovalId, CheckOp>,
    resolves: map<ResolveId, ResolveOp>,
    decisions: set<(ApprovalId, bool)>)

  /** The moves of one check. */
  datatype Move =
    | RegisterHold
    | Delivered
    | BeginSlice
    | Deadline
    | Wake
    | ReadHold
    | SliceElapsed
    | Poll(readable: bool)
    | ReleaseHold
    | Finish(storageOk: bool)
    | Cancel

  datatype Step =
    | Save(id: ApprovalId, instance: Instance, hash: string, expiresAt: int)
    | Check(id: ApprovalId, move: Move)
    | BeginResolve(r: ResolveId, id: ApprovalId, approved: bool, instance: Instance)
    | WriteDecision(r: ResolveId)
    | SignalHold(r: ResolveId)

  // ---------------------------------------------------------------- one check

  /** All that one check reads and writes: its own state, its hold, and the shared record. */
  datatype View = View(op: CheckOp, hold: Option<Hold>, record: Option<Record>)

  /** Where a check awaits something and can be cancelled. */
  predicate Suspended(pc: CheckPc) {
    pc.Saved? || pc.Delivering? || pc.Sliced? || pc.Woken? || pc.Polling? || pc.Released?
  }

  /** Inside the `try` whose `finally` releases the hold. */
  predicate InLoop(pc: CheckPc) {
    pc.Waiting? || pc.Sliced? || pc.Woken? || pc.Polling? || pc.Deciding?
  }

  predicate Signal(hold: Option<Hold>) {
    hold.Some? && hold.value.signalled
  }

  predicate CanMove(v: View, move: Move) {
    match move
    case RegisterHold => v.op.pc.Saved?
    case Delivered => v.op.pc.Delivering?
    case BeginSlice => v.op.pc.Waiting?
    case Deadline => v.op.pc.Waiting?
    case Wake => v.op.pc.Sliced? && Signal(v.hold)
    case ReadHold => v.op.pc.Woken? && v.hold.Some?
    case SliceElapsed => v.op.pc.Sliced? && !Signal(v.hold)
    case Poll(_) => v.op.pc.Polling?
    case ReleaseHold => v.op.pc.Deciding?
    case Finish(_) => v.op.pc.Released?
    case Cancel => Suspended(v.op.pc)
  }

  function Goto(v: View, pc: CheckPc): View {
    v.(op := v.op.(pc := pc))
  }

  function Observe(v: View, o: Observation, pc: CheckPc): View {
    v.(op := v.op.(pc := pc, seen := v.op.seen + [o]))
  }

  /** `_decision_from_record`: only an approved or denied record decides. */
  function DecisionFromRecord(record: Option<Record>, readable: bool): Option<bool> {
    if !readable || record.None? then None
    else if record.value.state.Approved? then Some(true)
    else if record.value.state.Denied? then Some(false)
    else None
  }

  function ReadResult(record: Option<Record>, readable: bool): Observation {
    if readable && record.Some? then Found(record.value.state) else Unreadable
  }

  function WithState(record: Option<Record>, state: ApprovalState): Option<Record> {
    if record.Some? then Some(record.value.(state := state)) else None
  }

  /** What follows the wait: the timeout writes `expired` whatever the record says by then. */
  function Finished(v: View): View
    requires v.op.pc.Released?
  {
    match v.op.pc.decision
    case Some(true) => Goto(v, Done(Granted))
    case Some(false) => Goto(v, Done(DeniedResult))
    case None => Goto(v, Done(ExpiredResult)).(record := WithState(v.record, Expired))
  }

  function Moved(v: View, move: Move): View
    requires CanMove(v, move)
  {
    match move
    case RegisterHold => Goto(v, Delivering).(hold := Some(Hold(false, false)))
    case Delivered => Goto(v, Waiting)
    case BeginSlice => Goto(v, Sliced)
    case Deadline => Goto(v, Deciding(None))
    case Wake => Goto(v, Woken)
    case ReadHold => Observe(v, Signalled(v.hold.value.approved), Deciding(Some(v.hold.value.approved)))
    case SliceElapsed => Observe(v, Elapsed, Polling)
    case Poll(readable) =>
      var d := DecisionFromRecord(v.record, readable);
      Observe(v, ReadResult(v.record, readable), if d.Some? then Deciding(d) else Waiting)
    case ReleaseHold => Goto(v, Released(v.op.pc.decision)).(hold := None)
    case Finish(storageOk) => if storageOk then Finished(v) else Goto(v, Done(Raised))
    case Cancel =>
      Goto(v, Done(Cancelled(v.op.pc.Delivering?))).(hold := if InLoop(v.op.pc) then None else v.hold)
  }

  // ---------------------------------------------------------------- all of them

  predicate IsTerminal(state: ApprovalState) {
    !state.Pending?
  }

  predicate At(s: State, id: ApprovalId, pc: CheckPc) {
    id in s.checks && s.checks[id].pc == pc
  }

  function Lookup<K, V>(m: map<K, V>, k: K): Option<V> {
    if k in m then Some(m[k]) else None
  }

  function Store<K, V>(m: map<K, V>, k: K, v: Option<V>): map<K, V> {
    if v.Some? then m[k := v.value] else m - {k}
  }

  function ViewOf(s: State, id: ApprovalId): View
    requires id in s.checks
  {
    View(s.checks[id], Lookup(s.holds, (s.checks[id].instance, id)), Lookup(s.store, id))
  }

  predicate Enabled(s: State, step: Step) {
    match step
    case Save(id, _, _, _) => id !in s.checks && id !in s.store
    case Check(id, move) => id in s.checks && CanMove(ViewOf(s, id), move)
    case BeginResolve(r, id, _, _) => r !in s.resolves && id in s.store && !IsTerminal(s.store[id].state)
    case WriteDecision(r) => r in s.resolves && s.resolves[r].pc.Passed?
    case SignalHold(r) => r in s.resolves && s.resolves[r].pc.Written?
  }

  function Apply(s: State, step: Step): State
    requires Enabled(s, step)
  {
    match step
    case Save(id, instance, hash, expiresAt) =>
      s.(store := s.store[id := Record(Pending, hash, expiresAt)],
         checks := s.checks[id := CheckOp(instance, Saved, [])])
    case Check(id, move) =>
      var v := Moved(ViewOf(s, id), move);
      s.(checks := s.checks[id := v.op], store := Store(s.store, id, v.record),
         holds := Store(s.holds, (v.op.instance, id), v.hold))
    case BeginResolve(r, id, approved, instance) =>
      s.(resolves := s.resolves[r := ResolveOp(id, approved, instance, Passed)])
    case WriteDecision(r) =>
      var op := s.resolves[r];
      s.(store := Store(s.store, op.id, WithState(Lookup(s.store, op.id), if op.approved then Approved else Denied)),
         resolves := s.resolves[r := op.(pc := Written)],
         decisions := s.decisions + {(op.id, op.approved)})
    case SignalHold(r) =>
      var op := s.resolves[r];
      var key := (op.instance, op.id);
      s.(resolves := s.resolves[r := op.(pc := ResolvePc.Finished)],
         holds := if key in s.holds then s.holds[key := Hold(true, op.approved)] else s.holds)
  }

  const INITIAL := State(map[], map[], map[], map[], {})

  ghost predicate Leads(s: State, steps: seq<Step>, s': State)
    decreases |steps|
  {
    if steps == [] then s' == s
    else Enabled(s, steps[0]) && Leads(Apply(s, steps[0]), steps[1..], s')
  }

  ghost predicate Reachable(s: State) {
    exists steps :: Leads(INITIAL, steps, s)
  }

  // ---------------------------------------------------------------- the invariant

  /** Some resolution of `id` with this verdict has written it to the store. */
  ghost predicate ResolvedAs(s: State, id: ApprovalId, approved: bool) {
    exists r :: r in s.resolves && s.resolves[r].id == id && s.resolves[r].approved == approved
                && !s.resolves[r].pc.Passed?
  }

  /** Nothing seen so far amounts to a decision. */
  predicate Inconclusive(seen: seq<Observation>) {
    forall i | 0 <= i < |seen| ::
      !seen[i].Signalled? && seen[i] != Found(Approved) && seen[i] != Found(Denied)
  }

  predicate Undecided(pc: CheckPc) {
    || pc.Saved? || pc.Delivering? || pc.Waiting? || pc.Sliced? || pc.Woken? || pc.Polling?
    || pc == Deciding(None) || pc == Released(None) || pc == Done(ExpiredResult)
  }

  /** A check with its hold in the registry. */
  predicate Holding(pc: CheckPc) {
    pc.Delivering? || InLoop(pc) || pc == Done(Cancelled(true))
  }

  /** What a check sees and has decided is backed by written decisions on its id. */
  ghost predicate ViewInv(v: View, id: ApprovalId, decisions: set<(ApprovalId, bool)>) {
    var pc := v.op.pc;
    && v.record.Some?
    && (v.hold.Some? <==> Holding(pc))
    && (Signal(v.hold) ==> (id, v.hold.value.approved) in decisions)
    && (v.record.value.state.Approved? ==> (id, true) in decisions)
    && (v.record.value.state.Denied? ==> (id, false) in decisions)
    && (pc.Woken? ==> Signal(v.hold))
    && (Undecided(pc) ==> Inconclusive(v.op.seen))
    && (pc.Deciding? || pc.Released? ==> pc.decision.Some? ==> (id, pc.decision.value) in decisions)
    && (pc == Done(Granted) ==> (id, true) in decisions)
    && (pc == Done(DeniedResult) ==> (id, false) in decisions)
  }

  ghost predicate ChecksInv(s: State) {
    forall id | id in s.checks :: ViewInv(ViewOf(s, id), id, s.decisions)
  }

  ghost predicate HoldsInv(s: State) {
    forall k | k in s.holds :: k.1 in s.checks && s.checks[k.1].instance == k.0
  }

  ghost predicate ResolvesInv(s: State) {
    forall r | r in s.resolves && s.resolves[r].pc.Written? ::
      (s.resolves[r].id, s.resolves[r].approved) in s.decisions
  }

  ghost predicate DecisionsInv(s: State) {
    forall id, b | (id, b) in s.decisions :: ResolvedAs(s, id, b)
  }

  /** Every record belongs to a check, and only recorded ids are resolved. */
  ghost predicate RecordsInv(s: State) {
    s.store.Keys <= s.checks.Keys && forall r | r in s.resolves :: s.resolves[r].id in s.store
  }

  ghost predicate Inv(s: State) {
    RecordsInv(s) && ChecksInv(s) && HoldsInv(s) && ResolvesInv(s) && DecisionsInv(s)
  }

  lemma MoveKeepsView(v: View, move: Move, id: ApprovalId, decisions: set<(ApprovalId, bool)>)
    requires CanMove(v, move) && ViewInv(v, id, decisions)
    ensures ViewInv(Moved(v, move), id, decisions) && Moved(v, move).op.instance == v.op.instance
  {
  }

  /** A move changes its own check's view as `Moved` says, and no other view. */
  lemma MovesAreLocal(s: State, id: ApprovalId, move: Move)
    requires Enabled(s, Check(id, move))
    ensures
      var s' := Apply(s, Check(id, move));
      && id in s'.checks && ViewOf(s', id) == Moved(ViewOf(s, id), move)
      && forall other | other in s.checks && other != id :: other in s'.checks && ViewOf(s', other) == ViewOf(s, other)
  {
  }

  lemma SaveKeepsChecks(s: State, step: Step)
    requires ChecksInv(s) && HoldsInv(s) && Enabled(s, step) && step.Save?
    ensures ChecksInv(Apply(s, step))
  {
    var s' := Apply(s, step);
    forall id | id in s'.checks ensures ViewInv(ViewOf(s', id), id, s'.decisions) {
      if id != step.id {
        assert ViewOf(s', id) == ViewOf(s, id);
      } else {
        assert (step.instance, id) !in s.holds;
      }
    }
  }

  lemma MoveKeepsChecks(s: State, id: ApprovalId, move: Move)
    requires ChecksInv(s) && Enabled(s, Check(id, move))
    ensures ChecksInv(Apply(s, Check(id, move)))
  {
    MovesAreLocal(s, id, move);
    MoveKeepsView(ViewOf(s, id), move, id, s.decisions);
  }

  lemma ResolveStepKeepsChecks(s: State, step: Step)
    requires ChecksInv(s) && ResolvesInv(s) && Enabled(s, step) && !step.Save? && !step.Check?
    ensures ChecksInv(Apply(s, step))
  {
    var s' := Apply(s, step);
    forall id | id in s'.checks ensures ViewInv(ViewOf(s', id), id, s'.decisions) {
      assert ViewInv(ViewOf(s, id), id, s.decisions);
    }
  }

  lemma StepKeepsChecks(s: State, step: Step)
    requires ChecksInv(s) && HoldsInv(s) && ResolvesInv(s) && Enabled(s, step)
    ensures ChecksInv(Apply(s, step))
  {
    match step
    case Save(_, _, _, _) => SaveKeepsChecks(s, step);
    case Check(id, move) => MoveKeepsChecks(s, id, move);
    case _ => ResolveStepKeepsChecks(s, step);
  }

  lemma StepKeepsHolds(s: State, step: Step)
    requires HoldsInv(s) && Enabled(s, step)
    ensures HoldsInv(Apply(s, step))
  {
    if step.Check? { MovesAreLocal(s, step.id, step.move); }
  }

  lemma StepKeepsResolves(s: State, step: Step)
    requires ResolvesInv(s) && Enabled(s, step)
    ensures ResolvesInv(Apply(s, step)) && s.decisions <= Apply(s, step).decisions
  {
  }

  lemma StepKeepsRecords(s: State, step: Step)
    requires RecordsInv(s) && ChecksInv(s) && Enabled(s, step)
    ensures RecordsInv(Apply(s, step))
  {
    if step.Check? {
      assert ViewInv(ViewOf(s, step.id), step.id, s.decisions);
      MoveKeepsView(ViewOf(s, step.id), step.move, step.id, s.decisions);
    }
  }

  lemma StepKeepsDecisions(s: State, step: Step)
    requires DecisionsInv(s) && Enabled(s, step)
    ensures DecisionsInv(Apply(s, step))
  {
    var s' := Apply(s, step);
    forall id, b | (id, b) in s'.decisions ensures ResolvedAs(s', id, b) {
      if (id, b) in s.decisions {
        var r :| r in s.resolves && s.resolves[r].id == id && s.resolves[r].approved == b
                 && !s.resolves[r].pc.Passed?;
        assert r in s'.resolves && s'.resolves[r].id == id && s'.resolves[r].approved == b
               && !s'.resolves[r].pc.Passed?;
      } else {
        assert step.WriteDecision? && s'.resolves[step.r].pc.Written?;
      }
    }
  }

  lemma StepKeepsInv(s: State, step: Step)
    requires Inv(s) && Enabled(s, step)
    ensures Inv(Apply(s, step)) && s.decisions <= Apply(s, step).decisions
  {
    StepKeepsRecords(s, step);
    StepKeepsChecks(s, step);
    StepKeepsHolds(s, step);
    StepKeepsResolves(s, step);
    StepKeepsDecisions(s, step);
  }

  lemma {:induction false} RunKeepsInv(s: State, steps: seq<Step>, s': State)
    requires Inv(s) && Leads(s, steps, s')
    ensures Inv(s')
    decreases |steps|
  {
    if steps != [] {
      StepKeepsInv(s, steps[0]);
      RunKeepsInv(Apply(s, steps[0]), steps[1..], s');
    }
  }

  lemma ReachableInv(s: State)
    requires Reachable(s)
    ensures Inv(s)
  {
    var steps :| Leads(INITIAL, steps, s);
    RunKeepsInv(INITIAL, steps, s);
  }

  lemma {:induction false} LeadsAppend(s: State, steps: seq<Step>, s': State, step: Step)
    requires Leads(s, steps, s') && Enabled(s', step)
    ensures Leads(s, steps + [step], Apply(s', step))
    decreases |steps|
  {
    if steps == [] {
      assert Leads(Apply(s, step), [], Apply(s, step));
    } else {
      LeadsAppend(Apply(s, steps[0]), steps[1..], s', step);
      assert (steps + [step])[1..] == steps[1..] + [step];
    }
  }

  lemma Extend(s: State, step: Step) returns (s': State)
    requires Reachable(s) && Enabled(s, step)
    ensures s' == Apply(s, step) && Reachable(s')
  {
    var steps :| Leads(INITIAL, steps, s);
    LeadsAppend(INITIAL, steps, s, step);
    s' := Apply(s, step);
  }

  // ---------------------------------------------------------------- what every run guarantees

  /** A check is granted only after a resolution of that id approved, and denied only after one
      denied, on whatever instance it ran and however the reads failed. */
  lemma OutcomesAreBacked(s: State, id: ApprovalId)
    requires Reachable(s)
    ensures At(s, id, Done(Granted)) ==> ResolvedAs(s, id, true)
    ensures At(s, id, Done(DeniedResult)) ==> ResolvedAs(s, id, false)
  {
    ReachableInv(s);
    if id in s.checks { assert ViewInv(ViewOf(s, id), id, s.decisions); }
  }

  /** A check expires only if no slice saw the local signal and no successful read saw a decision. */
  lemma ExpiryMeansNothingWasSeen(s: State, id: ApprovalId)
    requires Reachable(s) && At(s, id, Done(ExpiredResult))
    ensures Inconclusive(s.checks[id].seen)
  {
    ReachableInv(s);
    assert ViewInv(ViewOf(s, id), id, s.decisions);
  }

  /** However it ends, a finished check leaves no hold behind on any instance, with one exception:
      the hold stays on its own instance exactly when the check was cancelled while the approver was
      being notified, before the `try` that releases it. */
  lemma HoldsAreReleased(s: State, id: ApprovalId, instance: Instance)
    requires Reachable(s) && id in s.checks && s.checks[id].pc.Done?
    ensures (instance, id) in s.holds <==>
            instance == s.checks[id].instance && s.checks[id].pc.result == Cancelled(true)
  {
    ReachableInv(s);
    assert ViewInv(ViewOf(s, id), id, s.decisions);
  }

  /** Such a run exists on every instance. */
  lemma CancelledDeliveryLeaksTheHold(id: ApprovalId, instance: Instance) returns (s: State)
    ensures Reachable(s) && At(s, id, Done(Cancelled(true))) && (instance, id) in s.holds
  {
    assert Leads(INITIAL, [], INITIAL);
    s := Extend(INITIAL, Save(id, instance, "", 0));
    s := Extend(s, Check(id, RegisterHold));
    s := Extend(s, Check(id, Cancel));
  }

  /** And the hold it leaves is never removed. */
  lemma {:induction false} LeakedHoldsStay(s: State, id: ApprovalId, steps: seq<Step>, s': State)
    requires Leads(s, steps, s') && At(s, id, Done(Cancelled(true))) && ViewOf(s, id).hold.Some?
    ensures At(s', id, Done(Cancelled(true))) && ViewOf(s', id).hold.Some?
    decreases |steps|
  {
    if steps != [] {
      if steps[0].Check? { MovesAreLocal(s, steps[0].id, steps[0].move); }
      LeakedHoldsStay(Apply(s, steps[0]), id, steps[1..], s');
    }
  }

  predicate Committed(pc: CheckPc, decision: bool) {
    || pc == Deciding(Some(decision)) || pc == Released(Some(decision))
    || pc == Done(if decision then Granted else DeniedResult) || pc == Done(Raised) || pc == Done(Cancelled(false))
  }

  lemma StepKeepsCommitment(s: State, step: Step, id: ApprovalId, decision: bool)
    requires Enabled(s, step) && id in s.checks && Committed(s.checks[id].pc, decision)
    ensures id in Apply(s, step).checks && Committed(Apply(s, step).checks[id].pc, decision)
  {
    if step.Check? { MovesAreLocal(s, step.id, step.move); }
  }

  lemma {:induction false} CommitmentHolds(s: State, id: ApprovalId, decision: bool, steps: seq<Step>, s': State)
    requires Leads(s, steps, s') && id in s.checks && Committed(s.checks[id].pc, decision)
    ensures id in s'.checks && Committed(s'.checks[id].pc, decision)
    decreases |steps|
  {
    if steps != [] {
      StepKeepsCommitment(s, steps[0], id, decision);
      CommitmentHolds(Apply(s, steps[0]), id, decision, steps[1..], s');
    }
  }

  /** A decision another instance wrote is taken at the first readable poll, and nothing that
      happens later turns it into the opposite answer or an expiry. */
  lemma RecordedDecisionsAreTaken(s: State, id: ApprovalId, decision: bool, steps: seq<Step>, s': State)
    requires Reachable(s) && At(s, id, Polling) && id in s.store
    requires s.store[id].state == if decision then Approved else Denied
    requires Leads(Apply(s, Check(id, Poll(true))), steps, s')
    ensures id in s'.checks && Committed(s'.checks[id].pc, decision)
  {
    CommitmentHolds(Apply(s, Check(id, Poll(true))), id, decision, steps, s');
  }

  // ---------------------------------------------------------------- whether a written decision stays

  predicate RecordExpired(s: State, id: ApprovalId) {
    id in s.store && s.store[id].state.Expired?
  }

  /** A check that has seen no decision yet and whose hold does not make it see one. */
  predicate MayExpire(v: View) {
    || v.op.pc.Saved? || v.op.pc.Delivering? || v.op.pc.Waiting? || v.op.pc.Polling?
    || (v.op.pc.Sliced? && !Signal(v.hold))
    || v.op.pc == Deciding(None) || v.op.pc == Released(None)
  }

  /** The next move of such a check if the deadline comes and no read succeeds. */
  function TowardsExpiry(pc: CheckPc): Move {
    match pc
    case Saved => RegisterHold
    case Delivering => Delivered
    case Waiting => Deadline
    case Sliced => SliceElapsed
    case Polling => Poll(false)
    case Deciding(_) => ReleaseHold
    case _ => Finish(true)
  }

  /** How many moves it has left. */
  function MovesLeft(pc: CheckPc): nat {
    match pc
    case Saved => 5
    case Delivering => 4
    case Sliced => 5
    case Polling => 4
    case Waiting => 3
    case Deciding(_) => 2
    case _ => 1
  }

  lemma {:induction false} ExpiringRun(s: State, id: ApprovalId) returns (steps: seq<Step>, s': State)
    requires id in s.checks && id in s.store && MayExpire(ViewOf(s, id))
    ensures Leads(s, steps, s') && RecordExpired(s', id)
    decreases MovesLeft(s.checks[id].pc)
  {
    var pc := s.checks[id].pc;
    var step := Check(id, TowardsExpiry(pc));
    var next := Apply(s, step);
    MovesAreLocal(s, id, step.move);
    if pc.Released? {
      steps, s' := [step], next;
      assert Leads(next, [], next) && steps[1..] == [];
    } else {
      assert ViewOf(next, id).record == ViewOf(s, id).record;
      var rest;
      rest, s' := ExpiringRun(next, id);
      steps := [step] + rest;
      assert steps[1..] == rest;
    }
  }

  /** Past the point of expiring, with a record that has not expired. */
  predicate Safe(s: State, id: ApprovalId) {
    id in s.checks && !MayExpire(ViewOf(s, id)) && !RecordExpired(s, id)
  }

  lemma StepKeepsSafe(s: State, step: Step, id: ApprovalId)
    requires Safe(s, id) && Enabled(s, step)
    ensures Safe(Apply(s, step), id)
  {
    if step.Check? {
      MovesAreLocal(s, step.id, step.move);
      assert ViewOf(Apply(s, step), id).record == Lookup(Apply(s, step).store, id);
    }
  }

  lemma {:induction false} SafeStays(s: State, id: ApprovalId, steps: seq<Step>, s': State)
    requires Safe(s, id) && Leads(s, steps, s')
    ensures Safe(s', id)
    decreases |steps|
  {
    if steps != [] {
      StepKeepsSafe(s, steps[0], id);
      SafeStays(Apply(s, steps[0]), id, steps[1..], s');
    }
  }

  /** No continuation of `s` finds the record expired. */
  ghost predicate NeverExpires(s: State, id: ApprovalId) {
    forall steps, s' | Leads(s, steps, s') :: !RecordExpired(s', id)
  }

  /** A decision that is being written stays decided, whatever happens next, exactly when the check
      it is for is past expiring at that moment. Until then the timeout's write can undo it. */
  lemma WrittenDecisionsSurviveIff(s: State, r: ResolveId)
    requires Reachable(s) && Enabled(s, WriteDecision(r))
    ensures s.resolves[r].id in s.checks
    ensures NeverExpires(Apply(s, WriteDecision(r)), s.resolves[r].id) <==> !MayExpire(ViewOf(s, s.resolves[r].id))
  {
    ReachableInv(s);
    var id, s' := s.resolves[r].id, Apply(s, WriteDecision(r));
    assert ViewOf(s', id).op == ViewOf(s, id).op && ViewOf(s', id).hold == ViewOf(s, id).hold;
    if MayExpire(ViewOf(s, id)) {
      var steps, s'' := ExpiringRun(s', id);
    } else {
      forall steps, s'' | Leads(s', steps, s'') ensures !RecordExpired(s'', id) {
        SafeStays(s', id, steps, s'');
      }
    }
  }

  /** Such a moment is reached on every instance: here the resolution comes between the end of the
      wait and the timeout's write, reports its decision as taken, and the record ends up expired. */
  lemma DecisionsCanLoseToTheDeadline(id: ApprovalId, instance: Instance, r: ResolveId, approved: bool)
    returns (s: State)
    ensures Reachable(s) && At(s, id, Done(ExpiredResult)) && id in s.store && s.store[id].state == Expired
    ensures ResolvedAs(s, id, approved)
  {
    assert Leads(INITIAL, [], INITIAL);
    s := Extend(INITIAL, Save(id, instance, "", 0));
    s := Extend(s, Check(id, RegisterHold));
    s := Extend(s, Check(id, Delivered));
    s := Extend(s, Check(id, Deadline));
    s := Extend(s, BeginResolve(r, id, approved, instance));
    s := Extend(s, WriteDecision(r));
    s := Extend(s, Check(id, ReleaseHold));
    s := Extend(s, Check(id, Finish(true)));
    assert r in s.resolves && s.resolves[r].id == id;
  }

  datatype Refusal = Gone | NotApproved(state: ApprovalState) | ExpiredDuringHold | ArgumentsChanged

  /** `revalidate`, the last look at the record before dispatch. */
  function Revalidate(store: map<ApprovalId, Record>, id: ApprovalId, hash: string, now: int): Option<Refusal> {
    if id !in store then Some(Gone)
    else if !store[id].state.Approved? then Some(NotApproved(store[id].state))
    else if now >= store[id].expiresAt then Some(ExpiredDuringHold)
    else if hash != store[id].argumentsHash then Some(ArgumentsChanged)
    else None
  }

  lemma {:induction false} RequestsKeepTheirTerms(s: State, steps: seq<Step>, s': State, id: ApprovalId)
    requires Leads(s, steps, s') && id in s.store && id in s.checks
    ensures id in s'.store && id in s'.checks
    ensures s'.store[id].argumentsHash == s.store[id].argumentsHash && s'.store[id].expiresAt == s.store[id].expiresAt
    decreases |steps|
  {
    if steps != [] {
      RequestsKeepTheirTerms(Apply(s, steps[0]), steps[1..], s', id);
    }
  }

  /** A call passes revalidation only with the arguments it was held with, before its expiry, and
      after a resolution of its own id approved it. */
  lemma RevalidationIsSound(s: State, step: Step, steps: seq<Step>, s': State, hash: string, now: int)
    requires Reachable(s) && step.Save? && Enabled(s, step) && Leads(Apply(s, step), steps, s')
    requires Revalidate(s'.store, step.id, hash, now) == None
    ensures hash == step.hash && now < step.expiresAt && ResolvedAs(s', step.id, true)
  {
    ReachableInv(s);
    StepKeepsInv(s, step);
    RunKeepsInv(Apply(s, step), steps, s');
    RequestsKeepTheirTerms(Apply(s, step), steps, s', step.id);
  }

  // ---------------------------------------------------------------- one instance, in its own form

  const POLL_INTERVAL := 2.0

  function Min(a: real, b: real): real {
    if a <= b then a else b
  }

  function FromObservation(o: Observation): Option<bool> {
    match o
    case Signalled(b) => Some(b)
    case Found(Approved) => Some(true)
    case Found(Denied) => Some(false)
    case _ => None
  }

  /** The registry of one process and the wait that uses it. */
  class HoldRegistry {
    var holds: map<ApprovalId, Hold>

    constructor ()
      ensures holds == map[]
    {
      holds := map[];
    }

    method Register(id: ApprovalId)
      modifies this
      ensures holds == old(holds)[id := Hold(false, false)]
    {
      holds := holds[id := Hold(false, false)];
    }

    method Resolve(id: ApprovalId, approved: bool) returns (found: bool)
      modifies this
      ensures found <==> id in old(holds)
      ensures holds == if found then old(holds)[id := Hold(true, approved)] else old(holds)
    {
      if id !in holds {
        return false;
      }
      holds := holds[id := Hold(true, approved)];
      return true;
    }

    method Release(id: ApprovalId)
      modifies this
      ensures holds == old(holds) - {id}
    {
      holds := holds - {id};
    }

    /** The wait loop. Iteration `i` reads the clock, then sees `slices(i)` and, if that slice
        elapsed unsignalled, `records(i)`; an unsignalled slice lasts its full length. */
    method WaitForDecision(id: ApprovalId, start: real, timeout: real, clock: nat -> real,
                           slices: nat -> Observation, records: nat -> Observation)
      returns (decision: Option<bool>, readCount: nat)
      requires start <= clock(0)
      requires forall i: nat | slices(i) == Elapsed && clock(i) < start + timeout ::
                 clock(i) + Min(POLL_INTERVAL, start + timeout - clock(i)) <= clock(i + 1)
      requires forall i: nat :: slices(i).Elapsed? || slices(i).Signalled?
      requires forall i: nat :: records(i).Unreadable? || records(i).Found?
      modifies this
      ensures holds == old(holds) - {id}
      ensures readCount == 0 || (readCount - 1) as real * POLL_INTERVAL < timeout
      ensures decision.None? ==>
                && start + timeout <= clock(readCount)
                && forall i: nat | i < readCount :: slices(i).Elapsed? && FromObservation(records(i)).None?
      ensures decision.Some? ==>
                exists n: nat ::
                  && (forall i: nat | i < n :: slices(i).Elapsed? && FromObservation(records(i)).None?)
                  && (|| (decision == FromObservation(slices(n)) && readCount == n)
                      || (slices(n).Elapsed? && decision == FromObservation(records(n)) && readCount == n + 1))
    {
      var deadline := start + timeout;
      var i := 0;
      readCount := 0;
      decision := None;
      while true
        invariant readCount == i && decision.None? && holds == old(holds)
        invariant Min(i as real * POLL_INTERVAL, timeout) <= clock(i) - start
        invariant forall j: nat | j < i :: slices(j).Elapsed? && FromObservation(records(j)).None?
        invariant i == 0 || (i - 1) as real * POLL_INTERVAL < timeout
        decreases timeout - i as real * POLL_INTERVAL
      {
        var remaining := deadline - clock(i);
        if remaining <= 0.0 {
          break;
        }
        if slices(i).Signalled? {
          decision := Some(slices(i).approved);
          break;
        }
        readCount := readCount + 1;
        var decided := FromObservation(records(i));
        if decided.Some? {
          decision := decided;
          break;
        }
        i := i + 1;
      }
      Release(id);
    }
  }
}

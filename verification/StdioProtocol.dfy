/**
 Request correlation in the stdio client: any number of callers, the reader thread and any number of
 closers share the pending map and one capacity-1 queue per call. A step is what one thread does
 between two points where another can run; sections under `pending_lock` are single steps, except the
 cleanup, which holds the lock while it puts into one queue after another.
 */
module StdioProtocol {
  import opened Options

  type Id = nat

  datatype Msg =
    | Response(id: Id, body: string)
    | CleanupError(reason: string)

  /** What a caller passes: its timeout, and whether `_meta` is something a dictionary can be made of. */
  datatype Request = Request(timeout: real, metaOk: bool)

  /** The longest wait the platform's locks accept, in seconds. */
  const LONGEST_WAIT := 9223372036.0

  /** A request whose handling raises nothing but what `call` is prepared for. */
  predicate Usable(request: Request) {
    request.metaOk && 0.0 <= request.timeout <= LONGEST_WAIT
  }

  /** `Escaped`: an exception that no handler of `call` catches, after the entry was registered. */
  datatype Outcome = Returned(msg: Msg) | WriteError | Timeout | Escaped

  datatype Pc =
    | Entered            // saw `closed` false and drew its id; not yet registered
    | Registered         // in the pending map, request not yet written
    | Waiting            // request written, blocked on its queue
    | WriteFailed        // write raised, entry not yet dropped
    | TimedOut           // the queue stayed empty, entry not yet dropped
    | Done(outcome: Outcome)

  /** One call. `puts` counts every message ever put into its queue and `answer` remembers the
      response the reader took for it; the program reads neither. */
  datatype Call = Call(request: Request, pc: Pc, queue: seq<Msg>, puts: nat, answer: Option<Msg>)

  datatype Reader =
    | Reading
    | Dispatching(id: Id, msg: Msg)   // popped the entry, message not yet put
    | Stopping                        // left the loop, cleanup not yet begun
    | Dead

  datatype PendingLock =
    | Free
    | Cleaning(todo: seq<Id>, reason: string, byReader: bool)

  datatype State = State(
    closed: bool, pending: set<Id>, calls: map<Id, Call>, reader: Reader, lock: PendingLock)

  datatype Step =
    | Enter(id: Id, request: Request)
    | RegisterCall(id: Id)
    | Write(id: Id, ok: bool)
    | DropFailed(id: Id)
    | Get(id: Id)
    | Expire(id: Id)
    | DropExpired(id: Id)
    | Escape(id: Id)
    | Receive(id: Id, body: string)
    | Deliver
    | StopReading
    | Close
    | BeginCleanup(order: seq<Id>, reason: string, byReader: bool)
    | CleanOne
    | EndCleanup

  // ---------------------------------------------------------------- transitions

  predicate At(s: State, id: Id, pc: Pc) {
    id in s.calls && s.calls[id].pc == pc
  }

  /** A put on a capacity-1 queue goes through only while the queue is empty. */
  predicate HasRoom(s: State, id: Id) {
    id in s.calls && s.calls[id].queue == []
  }

  predicate Distinct(ids: seq<Id>) {
    forall i, j | 0 <= i < j < |ids| :: ids[i] != ids[j]
  }

  /** Merging into a malformed `_meta` raises before the request is written. A negative timeout makes
      the queue raise whether it holds a message or not; one that is too long, only if it has to wait. */
  predicate Escapes(c: Call) {
    || (c.pc.Registered? && !c.request.metaOk)
    || (c.pc.Waiting? && c.request.timeout < 0.0)
    || (c.pc.Waiting? && c.request.timeout > LONGEST_WAIT && c.queue == [])
  }

  predicate Enabled(s: State, step: Step) {
    match step
    case Enter(id, _) => !s.closed && id !in s.calls
    case RegisterCall(id) => At(s, id, Entered) && s.lock.Free?
    case Write(id, _) => At(s, id, Registered) && s.calls[id].request.metaOk
    case DropFailed(id) => At(s, id, WriteFailed) && s.lock.Free?
    case Get(id) => At(s, id, Waiting) && s.calls[id].queue != [] && s.calls[id].request.timeout >= 0.0
    case Expire(id) => At(s, id, Waiting) && s.calls[id].queue == [] && s.calls[id].request.timeout >= 0.0
    case DropExpired(id) => At(s, id, TimedOut) && s.lock.Free?
    case Escape(id) => id in s.calls && Escapes(s.calls[id])
    case Receive(id, _) => s.reader.Reading? && s.lock.Free? && (id in s.pending ==> id in s.calls)
    case Deliver => s.reader.Dispatching? && HasRoom(s, s.reader.id)
    case StopReading => s.reader.Reading?
    case Close => true
    case BeginCleanup(order, _, byReader) =>
      && s.lock.Free?
      && (if byReader then s.reader.Stopping? else s.closed)
      && Distinct(order) && (set id | id in order) == s.pending
    case CleanOne => s.lock.Cleaning? && s.lock.todo != [] && HasRoom(s, s.lock.todo[0])
    case EndCleanup => s.lock.Cleaning? && s.lock.todo == []
  }

  function SetPc(s: State, id: Id, pc: Pc): State
    requires id in s.calls
  {
    s.(calls := s.calls[id := s.calls[id].(pc := pc)])
  }

  function Put(s: State, id: Id, m: Msg): State
    requires id in s.calls
  {
    var c := s.calls[id];
    s.(calls := s.calls[id := c.(queue := c.queue + [m], puts := c.puts + 1)])
  }

  function Apply(s: State, step: Step): State
    requires Enabled(s, step)
  {
    match step
    case Enter(id, request) => s.(calls := s.calls[id := Call(request, Entered, [], 0, None)])
    case RegisterCall(id) => SetPc(s, id, Registered).(pending := s.pending + {id})
    case Write(id, ok) => SetPc(s, id, if ok then Waiting else WriteFailed)
    case DropFailed(id) => SetPc(s, id, Done(WriteError)).(pending := s.pending - {id})
    case Get(id) =>
      var c := s.calls[id];
      s.(calls := s.calls[id := c.(pc := Done(Returned(c.queue[0])), queue := c.queue[1..])])
    case Expire(id) => SetPc(s, id, TimedOut)
    case DropExpired(id) => SetPc(s, id, Done(Timeout)).(pending := s.pending - {id})
    case Escape(id) => SetPc(s, id, Done(Escaped))
    case Receive(id, body) =>
      if id in s.pending then
        var m := Response(id, body);
        s.(pending := s.pending - {id}, reader := Dispatching(id, m),
           calls := s.calls[id := s.calls[id].(answer := Some(m))])
      else s
    case Deliver => Put(s, s.reader.id, s.reader.msg).(reader := Reading)
    case StopReading => s.(reader := Stopping)
    case Close => s.(closed := true)
    case BeginCleanup(order, reason, byReader) => s.(lock := Cleaning(order, reason, byReader))
    case CleanOne =>
      Put(s, s.lock.todo[0], CleanupError(s.lock.reason)).(lock := s.lock.(todo := s.lock.todo[1..]))
    case EndCleanup =>
      s.(pending := {}, lock := Free, reader := if s.lock.byReader then Dead else s.reader)
  }

  const INITIAL := State(false, {}, map[], Reading, Free)

  ghost predicate Leads(s: State, steps: seq<Step>, s': State)
    decreases |steps|
  {
    if steps == [] then s' == s
    else Enabled(s, steps[0]) && Leads(Apply(s, steps[0]), steps[1..], s')
  }

  ghost predicate Reachable(s: State) {
    exists steps :: Leads(INITIAL, steps, s)
  }

  // ---------------------------------------------------------------- the invariant

  /** What a call may receive: a response to its own id, or a cleanup error. */
  predicate Proper(id: Id, m: Msg) {
    m.CleanupError? || m.id == id
  }

  predicate InFlight(s: State, id: Id) {
    s.reader.Dispatching? && s.reader.id == id
  }

  /** Pending and not yet served by a cleanup in progress. */
  predicate Owed(s: State, id: Id) {
    id in s.pending && (s.lock.Cleaning? ==> id in s.lock.todo)
  }

  /** Registered, and the entry not dropped by the call itself. */
  predicate Undropped(pc: Pc) {
    pc.Registered? || pc.Waiting? || pc.WriteFailed? || pc.TimedOut? || pc == Done(Escaped)
  }

  predicate CallInv(s: State, id: Id)
    requires id in s.calls
  {
    var c := s.calls[id];
    && |c.queue| <= c.puts <= 1
    && (c.puts == 1 && c.queue == [] <==> c.pc.Done? && c.pc.outcome.Returned?)
    && (c.queue != [] ==> Proper(id, c.queue[0]))
    && (c.pc.Done? && c.pc.outcome.Returned? ==> Proper(id, c.pc.outcome.msg))
    && (Owed(s, id) ==> c.puts == 0 && !InFlight(s, id) && c.answer.None? && Undropped(c.pc))
    && (InFlight(s, id) ==>
          id !in s.pending && c.puts == 0 && c.answer == Some(s.reader.msg) && Proper(id, s.reader.msg)
          && !c.pc.Entered?)
    && (c.answer.Some? ==>
          InFlight(s, id) || c.queue == [c.answer.value] || c.pc == Done(Returned(c.answer.value)))
    && (c.pc.Entered? ==> id !in s.pending && c.puts == 0 && c.answer.None?)
    && (c.pc == Done(Escaped) ==> !Usable(c.request))
    && (Undropped(c.pc) ==> Owed(s, id) || InFlight(s, id) || c.puts == 1)
  }

  predicate LockInv(s: State) {
    && s.pending <= s.calls.Keys
    && (s.reader.Dispatching? ==> s.reader.id in s.calls)
    && (s.lock.Cleaning? ==>
          && (s.lock.byReader ==> s.reader.Stopping?)
          && Distinct(s.lock.todo)
          && forall i | 0 <= i < |s.lock.todo| :: s.lock.todo[i] in s.pending)
  }

  ghost predicate Inv(s: State) {
    LockInv(s) && forall id | id in s.calls :: CallInv(s, id)
  }

  predicate CallerStep(step: Step) {
    step.Enter? || step.RegisterCall? || step.Write? || step.DropFailed? || step.Get? || step.Expire? ||
    step.DropExpired? || step.Escape?
  }

  lemma CallerStepKeepsCall(s: State, step: Step, id: Id)
    requires Inv(s) && Enabled(s, step) && CallerStep(step) && id in Apply(s, step).calls
    ensures CallInv(Apply(s, step), id)
  {
    if id in s.calls { assert CallInv(s, id); }
  }

  lemma ReaderStepKeepsCall(s: State, step: Step, id: Id)
    requires Inv(s) && Enabled(s, step) && id in s.calls
    requires step.Receive? || step.Deliver? || step.StopReading? || step.Close?
    ensures id in Apply(s, step).calls && CallInv(Apply(s, step), id)
  {
    assert CallInv(s, id);
  }

  lemma CleanupStepKeepsCall(s: State, step: Step, id: Id)
    requires Inv(s) && Enabled(s, step) && id in s.calls
    requires step.BeginCleanup? || step.CleanOne? || step.EndCleanup?
    ensures id in Apply(s, step).calls && CallInv(Apply(s, step), id)
  {
    assert CallInv(s, id);
    if step.BeginCleanup? {
      assert id in s.pending <==> id in (set x | x in step.order);
    } else if step.CleanOne? {
      var todo := s.lock.todo;
      assert todo == [todo[0]] + todo[1..];
      assert todo[0] in s.pending && Owed(s, todo[0]) && CallInv(s, todo[0]);
    }
  }

  lemma StepKeepsLockInv(s: State, step: Step)
    requires Inv(s) && Enabled(s, step)
    ensures LockInv(Apply(s, step))
  {
    if step.BeginCleanup? {
      forall i | 0 <= i < |step.order| ensures step.order[i] in s.pending {
        assert step.order[i] in (set x | x in step.order);
      }
    }
  }

  lemma StepKeepsInv(s: State, step: Step)
    requires Inv(s) && Enabled(s, step)
    ensures Inv(Apply(s, step))
  {
    StepKeepsLockInv(s, step);
    var s' := Apply(s, step);
    forall id | id in s'.calls ensures CallInv(s', id) {
      if CallerStep(step) {
        CallerStepKeepsCall(s, step, id);
      } else if step.BeginCleanup? || step.CleanOne? || step.EndCleanup? {
        CleanupStepKeepsCall(s, step, id);
      } else {
        ReaderStepKeepsCall(s, step, id);
      }
    }
  }

  lemma {:induction false} RunKeepsInv(s: State, steps: seq<Step>, s': State)
    requires Inv(s) && Leads(s, steps, s')
    ensures Inv(s')
    decreases |steps|
  {
    if steps != [] {
      StepKeepsInv(s, steps[0]);
      RunKeepsInv(Apply(s, steps[0]), steps[1..], s');
    }
  }

  lemma ReachableInv(s: State)
    requires Reachable(s)
    ensures Inv(s)
  {
    var steps :| Leads(INITIAL, steps, s);
    RunKeepsInv(INITIAL, steps, s);
  }

  lemma {:induction false} LeadsAppend(s: State, steps: seq<Step>, s': State, step: Step)
    requires Leads(s, steps, s') && Enabled(s', step)
    ensures Leads(s, steps + [step], Apply(s', step))
    decreases |steps|
  {
    if steps == [] {
      assert Leads(Apply(s, step), [], Apply(s, step));
    } else {
      LeadsAppend(Apply(s, steps[0]), steps[1..], s', step);
      assert (steps + [step])[1..] == steps[1..] + [step];
    }
  }

  lemma Extend(s: State, step: Step) returns (s': State)
    requires Reachable(s) && Enabled(s, step)
    ensures s' == Apply(s, step) && Reachable(s')
  {
    var steps :| Leads(INITIAL, steps, s);
    LeadsAppend(INITIAL, steps, s, step);
    s' := Apply(s, step);
  }

  // ---------------------------------------------------------------- what every run guarantees

  /** No put on a capacity-1 queue ever blocks: not the reader's, and not the cleanup's under the
      lock. A request still owed an answer has an untouched queue, and no queue is used twice. */
  lemma PutsNeverBlock(s: State)
    requires Reachable(s)
    ensures s.reader.Dispatching? ==> Enabled(s, Deliver)
    ensures s.lock.Cleaning? && s.lock.todo != [] ==> Enabled(s, CleanOne)
    ensures forall id | id in s.pending && s.lock.Free? :: id in s.calls && s.calls[id].queue == []
    ensures forall id | id in s.calls :: s.calls[id].puts <= 1
  {
    ReachableInv(s);
    if s.reader.Dispatching? { assert CallInv(s, s.reader.id); }
    if s.lock.Cleaning? && s.lock.todo != [] {
      assert s.lock.todo[0] in s.pending;
      assert CallInv(s, s.lock.todo[0]);
    }
    forall id | id in s.calls ensures s.calls[id].puts <= 1 { assert CallInv(s, id); }
    forall id | id in s.pending && s.lock.Free? ensures s.calls[id].queue == [] { assert CallInv(s, id); }
  }

  /** A call returns a response bearing its own id or a cleanup error, never another call's answer. */
  lemma ReturnsOnlyItsOwn(s: State, id: Id)
    requires Reachable(s) && id in s.calls && s.calls[id].pc.Done? && s.calls[id].pc.outcome.Returned?
    ensures Proper(id, s.calls[id].pc.outcome.msg)
  {
    ReachableInv(s);
    assert CallInv(s, id);
  }

  /** Whenever the lock is free a finished call is still pending in one case only: an exception
      escaped from it, and since then it has been neither answered nor cleaned up. */
  lemma FinishedCallsAreNotPending(s: State, id: Id)
    requires Reachable(s) && s.lock.Free? && id in s.calls && s.calls[id].pc.Done?
    ensures id in s.pending <==>
            s.calls[id].pc.outcome == Escaped && s.calls[id].puts == 0 && !InFlight(s, id)
  {
    ReachableInv(s);
    assert CallInv(s, id);
  }

  /** Exceptions escape only from requests that are not usable, which a caller can see beforehand. */
  lemma UsableRequestsDoNotEscape(s: State, id: Id)
    requires Reachable(s) && id in s.calls && s.calls[id].pc.Done? && s.calls[id].pc.outcome == Escaped
    ensures !Usable(s.calls[id].request)
  {
    ReachableInv(s);
    assert CallInv(s, id);
  }

  /** A fresh client with one call, whose request is not yet written. */
  lemma FirstRegistered(id: Id, request: Request) returns (s: State)
    ensures Reachable(s)
    ensures s == State(false, {id}, map[id := Call(request, Registered, [], 0, None)], Reading, Free)
  {
    assert Leads(INITIAL, [], INITIAL);
    s := Extend(INITIAL, Enter(id, request));
    s := Extend(s, RegisterCall(id));
  }

  /** A finished call whose entry is left in the map. */
  ghost predicate Leaks(s: State, id: Id, request: Request) {
    && id in s.calls && s.calls[id].request == request && s.calls[id].pc.Done?
    && s.lock.Free? && id in s.pending
  }

  /** Any other request can leak: here on a fresh client. */
  lemma UnusableRequestsLeak(id: Id, request: Request) returns (s: State)
    requires !Usable(request)
    ensures Reachable(s) && Leaks(s, id, request)
  {
    s := FirstRegistered(id, request);
    if request.metaOk {
      s := Extend(s, Write(id, true));
    }
    s := Extend(s, Escape(id));
  }

  /** So a request can be left in the map by its finished call exactly when it is not usable. */
  lemma LeaksIffUnusable(request: Request)
    ensures (exists s, id :: Reachable(s) && Leaks(s, id, request)) <==> !Usable(request)
  {
    if !Usable(request) {
      var s := UnusableRequestsLeak(0, request);
    }
    if s, id :| Reachable(s) && Leaks(s, id, request) {
      FinishedCallsAreNotPending(s, id);
      UsableRequestsDoNotEscape(s, id);
    }
  }

  /** Registering before writing: a written request that nobody has answered is still findable. */
  lemma UnansweredRequestsArePending(s: State, id: Id)
    requires Reachable(s) && At(s, id, Waiting) && s.calls[id].queue == [] && !InFlight(s, id)
    ensures id in s.pending
  {
    ReachableInv(s);
    assert CallInv(s, id);
  }

  lemma {:induction false} AnswersStick(s: State, steps: seq<Step>, s': State, id: Id, m: Msg)
    requires Inv(s) && Leads(s, steps, s') && id in s.calls && s.calls[id].answer == Some(m)
    ensures id in s'.calls && s'.calls[id].answer == Some(m)
    decreases |steps|
  {
    if steps != [] {
      assert CallInv(s, id);
      StepKeepsInv(s, steps[0]);
      AnswersStick(Apply(s, steps[0]), steps[1..], s', id, m);
    }
  }

  /** Where a response is that the reader took for a pending request: in the reader's hands, in the
      call's queue, or returned; and if the call returns anything, it returns this. Whether the call
      still looks into its queue is another question; see `PutAnswersAreReturnedIff`. */
  lemma TakenResponsesStayInPlace(s: State, id: Id, body: string, steps: seq<Step>, s': State)
    requires Reachable(s) && Enabled(s, Receive(id, body)) && id in s.pending
    requires Leads(Apply(s, Receive(id, body)), steps, s')
    ensures id in s'.calls
    ensures
      var c, m := s'.calls[id], Response(id, body);
      && (s'.reader == Dispatching(id, m) || c.queue == [m] || c.pc == Done(Returned(m)))
      && (c.pc.Done? && c.pc.outcome.Returned? ==> c.pc.outcome.msg == m)
  {
    ReachableInv(s);
    StepKeepsInv(s, Receive(id, body));
    var s1 := Apply(s, Receive(id, body));
    RunKeepsInv(s1, steps, s');
    AnswersStick(s1, steps, s', id, Response(id, body));
    assert CallInv(s', id);
  }

  /** Where a call is that waits with a queued message: it can only return that message, or, with a
      negative timeout, only let the queue's exception escape. */
  predicate Served(s: State, id: Id, request: Request, m: Msg) {
    && id in s.calls && s.calls[id].request == request
    && (|| (s.calls[id].pc.Waiting? && s.calls[id].queue == [m])
        || s.calls[id].pc == Done(if request.timeout >= 0.0 then Returned(m) else Escaped))
  }

  /** Once a message is in the queue of a waiting call, that call returns it if its timeout is not
      negative, and otherwise it does not. */
  lemma {:induction false} QueuedMessagesAreReturned(s: State, id: Id, request: Request, m: Msg, steps: seq<Step>, s': State)
    requires Inv(s) && Served(s, id, request, m) && Leads(s, steps, s')
    ensures Served(s', id, request, m)
    decreases |steps|
  {
    if steps != [] {
      StepKeepsInv(s, steps[0]);
      StepKeepsServed(s, id, request, m, steps[0]);
      QueuedMessagesAreReturned(Apply(s, steps[0]), id, request, m, steps[1..], s');
    }
  }

  lemma StepKeepsServed(s: State, id: Id, request: Request, m: Msg, step: Step)
    requires Inv(s) && Served(s, id, request, m) && Enabled(s, step)
    ensures Served(Apply(s, step), id, request, m)
  {
    assert CallInv(s, id);
  }

  // ---------------------------------------------------------------- whether an answer is returned

  /** The answer came between the end of the wait and the put: the call has timed out with the answer
      in its queue. */
  lemma AnswerAfterTimeoutIsLost(id: Id, request: Request, body: string) returns (s: State)
    requires Usable(request)
    ensures Reachable(s) && At(s, id, Done(Timeout)) && s.calls[id].queue == [Response(id, body)]
  {
    s := FirstRegistered(id, request);
    s := Extend(s, Write(id, true));
    s := Extend(s, Receive(id, body));
    s := Extend(s, Expire(id));
    s := Extend(s, DropExpired(id));
    s := Extend(s, Deliver);
  }

  /** The answer came before the write was over, which then failed: the call has ended with an error and
      the answer in its queue. */
  lemma AnswerBeforeFailedWriteIsLost(id: Id, request: Request, body: string) returns (s: State)
    requires Usable(request)
    ensures Reachable(s) && At(s, id, Done(WriteError)) && s.calls[id].queue == [Response(id, body)]
  {
    s := FirstRegistered(id, request);
    s := Extend(s, Receive(id, body));
    s := Extend(s, Deliver);
    s := Extend(s, Write(id, false));
    s := Extend(s, DropFailed(id));
  }

  /** A cleanup in progress can be run to its end without a move of any call. */
  lemma {:induction false} CleanupEnds(s: State, id: Id) returns (steps: seq<Step>, s': State)
    requires Inv(s) && id in s.calls
    ensures Leads(s, steps, s') && s'.lock.Free?
    ensures id in s'.calls && s'.calls[id].pc == s.calls[id].pc && s'.calls[id].request == s.calls[id].request
    decreases if s.lock.Free? then 0 else 1 + |s.lock.todo|
  {
    if s.lock.Free? {
      steps, s' := [], s;
    } else {
      var step := if s.lock.todo == [] then EndCleanup else CleanOne;
      if step.CleanOne? {
        assert s.lock.todo[0] in s.pending && Owed(s, s.lock.todo[0]);
        assert CallInv(s, s.lock.todo[0]);
      }
      StepKeepsInv(s, step);
      var rest;
      rest, s' := CleanupEnds(Apply(s, step), id);
      steps := [step] + rest;
      assert steps[1..] == rest;
    }
  }

  lemma {:induction false} LeadsConcat(s: State, a: seq<Step>, t: State, b: seq<Step>, u: State)
    requires Leads(s, a, t) && Leads(t, b, u)
    ensures Leads(s, a + b, u)
    decreases |a|
  {
    if a == [] {
      assert a + b == b;
    } else {
      assert (a + b)[1..] == a[1..] + b;
      LeadsConcat(Apply(s, a[0]), a[1..], t, b, u);
    }
  }

  lemma OneStep(s: State, step: Step) returns (s': State)
    requires Enabled(s, step)
    ensures s' == Apply(s, step) && Leads(s, [step], s')
  {
    s' := Apply(s, step);
    assert Leads(s', [], s') && [step][1..] == [];
  }

  /** Where a call can still end without looking into its queue. */
  predicate MayMiss(c: Call) {
    c.pc.Registered? || c.pc.WriteFailed? || c.pc.TimedOut? || (c.pc.Waiting? && c.request.timeout < 0.0)
  }

  /** Ends it so. */
  lemma MissingRun(s: State, id: Id) returns (steps: seq<Step>, s': State)
    requires Inv(s) && id in s.calls && MayMiss(s.calls[id])
    ensures Leads(s, steps, s') && id in s'.calls && s'.calls[id].pc.Done? && !s'.calls[id].pc.outcome.Returned?
  {
    var c := s.calls[id];
    if Escapes(c) {
      s' := OneStep(s, Escape(id));
      steps := [Escape(id)];
    } else if c.pc.Registered? {
      var failed := OneStep(s, Write(id, false));
      StepKeepsInv(s, Write(id, false));
      var rest;
      rest, s' := DropRun(failed, id);
      LeadsConcat(s, [Write(id, false)], failed, rest, s');
      steps := [Write(id, false)] + rest;
    } else {
      steps, s' := DropRun(s, id);
    }
  }

  lemma DropRun(s: State, id: Id) returns (steps: seq<Step>, s': State)
    requires Inv(s) && id in s.calls && (s.calls[id].pc.WriteFailed? || s.calls[id].pc.TimedOut?)
    ensures Leads(s, steps, s') && id in s'.calls && s'.calls[id].pc.Done? && !s'.calls[id].pc.outcome.Returned?
  {
    var free;
    steps, free := CleanupEnds(s, id);
    var drop := if s.calls[id].pc.WriteFailed? then DropFailed(id) else DropExpired(id);
    s' := OneStep(free, drop);
    LeadsConcat(s, steps, free, [drop], s');
    steps := steps + [drop];
  }

  /** In every continuation of `s` in which the call is over it has returned `m`. */
  ghost predicate ReturnsIt(s: State, id: Id, m: Msg) {
    forall steps, s' | Leads(s, steps, s') && id in s'.calls && s'.calls[id].pc.Done? ::
      s'.calls[id].pc == Done(Returned(m))
  }

  /** An answer that is put into its queue is the call's result, however the call ends, exactly when the
      call is waiting at that moment, with a timeout that is not negative. Before the end of the write
      and after the end of the wait it can be lost. */
  lemma PutAnswersAreReturnedIff(s: State)
    requires Reachable(s) && Enabled(s, Deliver)
    ensures
      var id := s.reader.id;
      ReturnsIt(Apply(s, Deliver), id, s.reader.msg) <==>
        s.calls[id].pc.Waiting? && s.calls[id].request.timeout >= 0.0
  {
    ReachableInv(s);
    StepKeepsInv(s, Deliver);
    var id, m, t := s.reader.id, s.reader.msg, Apply(s, Deliver);
    var c := s.calls[id];
    assert CallInv(s, id);
    if c.pc.Waiting? && c.request.timeout >= 0.0 {
      assert Served(t, id, c.request, m);
      forall steps, s' | Leads(t, steps, s') && id in s'.calls && s'.calls[id].pc.Done?
        ensures s'.calls[id].pc == Done(Returned(m))
      {
        QueuedMessagesAreReturned(t, id, c.request, m, steps, s');
      }
    } else if c.pc.Done? {
      assert Leads(t, [], t);
      assert !c.pc.outcome.Returned?;
    } else {
      var steps, s' := MissingRun(t, id);
    }
  }

  /** `close` raises the flag before it issues its own shutdown call, so that call, like any later
      one, is refused: no id enters after the flag is up. */
  lemma {:induction false} ClosedClientsAdmitNoCall(s: State, steps: seq<Step>, s': State)
    requires s.closed && Leads(s, steps, s')
    ensures s'.closed && s'.calls.Keys == s.calls.Keys
    ensures forall id, request :: !Enabled(s', Enter(id, request))
    decreases |steps|
  {
    if steps != [] {
      var s1 := Apply(s, steps[0]);
      assert s1.closed;
      assert s1.calls.Keys == s.calls.Keys;
      ClosedClientsAdmitNoCall(s1, steps[1..], s');
    }
  }

  // ---------------------------------------------------------------- the client object

  /** A `Queue(maxsize=1)`. */
  class ResultQueue {
    var items: seq<Msg>

    constructor ()
      ensures items == []
    {
      items := [];
    }

    /** Blocks on a full queue, so callers must show there is room. */
    method Put(m: Msg)
      requires items == []
      modifies this
      ensures items == [m]
    {
      items := items + [m];
    }
  }

  /** The client's own fields, worked on by one thread at a time under `pending_lock`. `Valid` is
      what `PutsNeverBlock` establishes for every state in which that lock is free. */
  class StdioClient {
    var pending: map<Id, ResultQueue>
    var closed: bool

    ghost predicate Valid()
      reads this, pending.Values
    {
      && (forall id | id in pending :: pending[id].items == [])
      && (forall i, j | i in pending && j in pending && i != j :: pending[i] != pending[j])
    }

    constructor ()
      ensures Valid() && pending == map[] && !closed
    {
      pending := map[];
      closed := false;
    }

    /** The head of `call`: refuse when closed, otherwise register a fresh queue before writing. */
    method BeginCall(id: Id) returns (queue: ResultQueue?)
      requires Valid() && id !in pending
      modifies this
      ensures Valid() && closed == old(closed)
      ensures queue == null <==> closed
      ensures closed ==> pending == old(pending)
      ensures queue != null ==> fresh(queue) && queue.items == [] && pending == old(pending)[id := queue]
    {
      if closed {
        return null;
      }
      var q := new ResultQueue();
      queue := q;
      pending := pending[id := q];
    }

    /** One response line: the entry is popped before its queue is filled, so a second line with
        the same id finds nothing. */
    method Dispatch(id: Id, body: string) returns (known: bool)
      requires Valid()
      modifies this, pending.Values
      ensures Valid() && closed == old(closed)
      ensures known <==> id in old(pending)
      ensures pending == old(pending) - {id}
      ensures known ==> old(pending)[id].items == [Response(id, body)]
      ensures forall j | j in pending :: pending[j].items == []
    {
      known := id in pending;
      if known {
        var q := pending[id];
        pending := pending - {id};
        q.Put(Response(id, body));
      }
    }

    /** `_cleanup_pending`: every waiting caller gets exactly one error, then the map is empty. */
    method CleanupPending(reason: string)
      requires Valid()
      modifies this, pending.Values
      ensures Valid() && closed == old(closed) && pending == map[]
      ensures forall id | id in old(pending) :: old(pending)[id].items == [CleanupError(reason)]
    {
      var todo := pending.Keys;
      while todo != {}
        invariant todo <= pending.Keys && pending == old(pending) && closed == old(closed)
        invariant forall id | id in pending ::
            pending[id].items == if id in todo then [] else [CleanupError(reason)]
        decreases todo
      {
        var id :| id in todo;
        pending[id].Put(CleanupError(reason));
        todo := todo - {id};
      }
      pending := map[];
    }

    /** `close`, up to its cleanup: the flag goes up first, so its own shutdown call is refused. */
    method Close(shutdownId: Id)
      requires Valid() && shutdownId !in pending
      modifies this, pending.Values
      ensures Valid() && closed
      ensures old(closed) ==> pending == old(pending)
      ensures !old(closed) ==> pending == map[]
      ensures !old(closed) ==>
                forall id | id in old(pending) :: old(pending)[id].items == [CleanupError("client_closed")]
    {
      if closed {
        return;
      }
      closed := true;
      var queue := BeginCall(shutdownId);
      assert queue == null;
      CleanupPending("client_closed");
    }
  }
}

/**
 The three task handlers (get, cancel, update) in front of an upstream. Each is a sequence of effects on the ledger, the
 consent gate and the upstream; a handler returns the effects it performed, in order, with its answer.
 Whatever the ledger, the gate and the upstream reply is a parameter.
 */
module TaskRelay {
  import opened Options
  import opened Json
  import U = UpstreamTasks

  const METHOD_NOT_FOUND := -32601
  const INVALID_PARAMS := -32602
  const HEADER_MISMATCH := -32020
  const MISSING_CAPABILITY := -32021
  const MODERN_VERSION := "2026-07-28"

  /** The `Mcp-Name` header; not applicable off HTTP or when the headers cannot be read. */
  datatype Header = NotApplicable | Absent | Value(name: string)

  datatype Context = Context(version: Option<string>, header: Header, declared: bool)

  /** What a question is answered with, or that asking it raised. */
  datatype Answer = Yes | No | Broken

  /** What the ledger does during one call. An operation that is not `ok` raises. */
  datatype Ledger = Ledger(
    owned: Answer,          // whether `find_owned_key` finds an entry of this caller
    authorized: Answer,
    syncOk: bool,
    digest: Answer,         // whether the tool still has its pinned digest
    markOk: bool,
    deleteOk: bool,
    recordOk: bool,
    snapshotOk: bool,
    snapshot: Option<Entry>)    // what it reports, if the entry is still there

  /** A ledger entry's status and its message, which are stored as the upstream sent them. */
  datatype Entry = Entry(status: Json, message: Json)

  /** Which of the consent gate's operations succeed. What `answer` returns is not looked at. */
  datatype Gate = Gate(openOk: bool, answerOk: bool, discardOk: bool)

  datatype Reply = Raised | Answered(value: Json)

  datatype Rpc = TasksGet | TasksResult | TasksCancel | TasksUpdate

  datatype Effect =
    | VersionOk | HeaderOk | CapabilityOk | KeyResolved | Authorized
    | Asked(rpc: Rpc)
    | SnapshotSynced | DigestVerified
    | GateOpened | GateDiscarded | GateAnswered | ConsentRecorded
    | MarkedCancelled | Retired

  datatype Outcome =
    | Refused(code: int)
    | Failed                        // an exception of the upstream or the ledger propagates
    | Ack
    | Snapshot(status: string, result: Json, error: Json, inputRequests: Json)

  // ---------------------------------------------------------------- the refusal ladder

  predicate StringAtLeast(s: string, t: string) {
    if t == [] then true
    else if s == [] then false
    else if s[0] != t[0] then s[0] > t[0]
    else StringAtLeast(s[1..], t[1..])
  }

  predicate Modern(ctx: Context) {
    ctx.version.Some? && StringAtLeast(ctx.version.value, MODERN_VERSION)
  }

  predicate HeaderAgrees(ctx: Context, taskId: string) {
    ctx.header.NotApplicable? || (ctx.header.Value? && ctx.header.name != "" && ctx.header.name == taskId)
  }

  /** Who gets past the ladder and the ownership checks. */
  predicate Served(ctx: Context, taskId: string, ledger: Ledger) {
    Modern(ctx) && HeaderAgrees(ctx, taskId) && ctx.declared && ledger.owned.Yes? && ledger.authorized.Yes?
  }

  /** How everybody else is turned away; the first failing rung decides. */
  function TurnedAway(ctx: Context, taskId: string, ledger: Ledger): Outcome {
    if !Modern(ctx) then Refused(METHOD_NOT_FOUND)
    else if !HeaderAgrees(ctx, taskId) then Refused(HEADER_MISMATCH)
    else if !ctx.declared then Refused(MISSING_CAPABILITY)
    else if ledger.owned.Broken? || (ledger.owned.Yes? && ledger.authorized.Broken?) then Failed
    else Refused(INVALID_PARAMS)
  }

  const CHECKS := {VersionOk, HeaderOk, CapabilityOk, KeyResolved, Authorized}

  /** When a call that has `done` may perform effect `e`. No effect happens twice in a call; the
      checks come in order, and nothing is asked upstream before the last of them; a payload is
      fetched only after the digest was verified; an answer is forwarded only after the gate opened,
      and consent recorded only after the forwarding and the gate's answer; an entry is retired only
      once marked, and marked only after asking. */
  predicate MayFollow(done: set<Effect>, e: Effect) {
    e !in done &&
    match e
    case VersionOk => done == {}
    case HeaderOk => VersionOk in done
    case CapabilityOk => HeaderOk in done
    case KeyResolved => CapabilityOk in done
    case Authorized => KeyResolved in done
    case Asked(rpc) =>
      && Authorized in done
      && (rpc.TasksResult? ==> DigestVerified in done)
      && (rpc.TasksUpdate? ==> GateOpened in done)
    case SnapshotSynced => Asked(TasksGet) in done && (GateOpened in done ==> ConsentRecorded in done)
    case DigestVerified => Asked(TasksGet) in done
    case GateOpened => Asked(TasksGet) in done
    case GateAnswered => Asked(TasksUpdate) in done
    case GateDiscarded => Asked(TasksUpdate) in done && GateAnswered !in done
    case ConsentRecorded => GateAnswered in done && GateDiscarded !in done
    case MarkedCancelled => Asked(TasksCancel) in done
    case Retired => MarkedCancelled in done
  }

  function Done(trace: seq<Effect>): set<Effect> {
    if trace == [] then {} else Done(trace[..|trace| - 1]) + {trace[|trace| - 1]}
  }

  /** Every effect of a trace comes when it may. */
  predicate Lawful(trace: seq<Effect>) {
    trace == [] ||
    var n := |trace| - 1;
    Lawful(trace[..n]) && MayFollow(Done(trace[..n]), trace[n])
  }

  lemma {:induction false} LawfulEverywhere(trace: seq<Effect>, i: nat)
    requires Lawful(trace) && i < |trace|
    ensures MayFollow(Done(trace[..i]), trace[i])
  {
    var n := |trace| - 1;
    if i < n {
      LawfulEverywhere(trace[..n], i);
      assert trace[..n][..i] == trace[..i];
    }
  }

  lemma {:induction false} DoneMeansPerformed(trace: seq<Effect>, e: Effect)
    ensures e in Done(trace) <==> e in trace
  {
    if trace != [] {
      DoneMeansPerformed(trace[..|trace| - 1], e);
    }
  }

  /** An effect that was needed before position `i` stands before it. */
  lemma Earlier(trace: seq<Effect>, i: nat, e: Effect) returns (j: nat)
    requires Lawful(trace) && i < |trace|
    requires MayFollow(Done(trace[..i]), trace[i]) ==> e in Done(trace[..i])
    ensures j < i && trace[j] == e
  {
    LawfulEverywhere(trace, i);
    DoneMeansPerformed(trace[..i], e);
    j :| 0 <= j < |trace[..i]| && trace[..i][j] == e;
  }

  /** No call performs an effect twice. */
  lemma EffectsHappenOnce(trace: seq<Effect>, i: nat, j: nat)
    requires Lawful(trace) && i < j < |trace|
    ensures trace[i] != trace[j]
  {
    LawfulEverywhere(trace, j);
    DoneMeansPerformed(trace[..j], trace[j]);
    assert trace[..j][i] == trace[i];
  }

  /** No upstream request precedes the five checks, which were passed in their order. */
  lemma ChecksPrecedeRequests(trace: seq<Effect>, i: nat, rpc: Rpc) returns (v: nat, h: nat, c: nat, k: nat, a: nat)
    requires Lawful(trace) && i < |trace| && trace[i] == Asked(rpc)
    ensures v < h < c < k < a < i
    ensures [trace[v], trace[h], trace[c], trace[k], trace[a]]
            == [VersionOk, HeaderOk, CapabilityOk, KeyResolved, Authorized]
  {
    a := Earlier(trace, i, Authorized);
    k := Earlier(trace, a, KeyResolved);
    c := Earlier(trace, k, CapabilityOk);
    h := Earlier(trace, c, HeaderOk);
    v := Earlier(trace, h, VersionOk);
  }

  /** A recorded consent was answered at the gate after its forwarding, which the gate's opening
      preceded, which a look at the task's open questions preceded. */
  lemma ConsentPrecedesItsRecord(trace: seq<Effect>, i: nat) returns (g: nat, o: nat, u: nat, a: nat)
    requires Lawful(trace) && i < |trace| && trace[i] == ConsentRecorded
    ensures g < o < u < a < i
    ensures [trace[g], trace[o], trace[u], trace[a]]
            == [Asked(TasksGet), GateOpened, Asked(TasksUpdate), GateAnswered]
  {
    a := Earlier(trace, i, GateAnswered);
    u := Earlier(trace, a, Asked(TasksUpdate));
    o := Earlier(trace, u, GateOpened);
    g := Earlier(trace, o, Asked(TasksGet));
  }

  /** Performing one more effect. */
  method Perform(trace: seq<Effect>, e: Effect) returns (longer: seq<Effect>)
    requires Lawful(trace) && MayFollow(Done(trace), e)
    ensures Lawful(longer) && Done(longer) == Done(trace) + {e}
  {
    longer := trace + [e];
    assert longer[..|trace|] == trace;
  }

  /** `_require_tasks_client`, then key resolution and authorization. */
  method Admit(ctx: Context, taskId: string, ledger: Ledger) returns (trace: seq<Effect>, refusal: Option<Outcome>)
    ensures refusal == if Served(ctx, taskId, ledger) then None else Some(TurnedAway(ctx, taskId, ledger))
    ensures Lawful(trace) && Done(trace) <= CHECKS
    ensures refusal.None? ==> Done(trace) == CHECKS
  {
    trace := [];
    if !Modern(ctx) {
      return trace, Some(Refused(METHOD_NOT_FOUND));
    }
    trace := Perform(trace, VersionOk);
    if !ctx.header.NotApplicable? {
      if ctx.header.Absent? || ctx.header.name == "" {
        return trace, Some(Refused(HEADER_MISMATCH));
      }
      if ctx.header.name != taskId {
        return trace, Some(Refused(HEADER_MISMATCH));
      }
    }
    trace := Perform(trace, HeaderOk);
    if !ctx.declared {
      return trace, Some(Refused(MISSING_CAPABILITY));
    }
    trace := Perform(trace, CapabilityOk);
    trace, refusal := AdmitOwner(trace, ledger);
  }

  /** The ownership checks, which tell neither of the two refusals from a missing task. */
  method AdmitOwner(before: seq<Effect>, ledger: Ledger) returns (trace: seq<Effect>, refusal: Option<Outcome>)
    requires Lawful(before) && Done(before) == {VersionOk, HeaderOk, CapabilityOk}
    ensures refusal.None? <==> ledger.owned.Yes? && ledger.authorized.Yes?
    ensures refusal.Some? ==>
              refusal.value == if ledger.owned.Broken? || (ledger.owned.Yes? && ledger.authorized.Broken?)
                               then Failed else Refused(INVALID_PARAMS)
    ensures Lawful(trace) && Done(trace) <= CHECKS
    ensures refusal.None? ==> Done(trace) == CHECKS
  {
    trace := before;
    if !ledger.owned.Yes? {
      return trace, Some(if ledger.owned.Broken? then Failed else Refused(INVALID_PARAMS));
    }
    trace := Perform(trace, KeyResolved);
    if !ledger.authorized.Yes? {
      return trace, Some(if ledger.authorized.Broken? then Failed else Refused(INVALID_PARAMS));
    }
    trace := Perform(trace, Authorized);
    return trace, None;
  }

  // ---------------------------------------------------------------- tasks/get

  /** The usable result object of a reply, if it has one. */
  function CleanResult(reply: Reply): Json {
    if reply.Answered? && !Has(reply.value, "error") then
      var r := Get(reply.value, "result");
      if r.Obj? then r else Null
    else Null
  }

  predicate HasOutcome(result: Json) {
    Get(result, "result") != Null || Get(result, "status") == Str("completed")
  }

  /** The payload a poll shows: the one already inline, or else the one behind `tasks/result`. */
  function Payload(result: Json, payload: Reply): Json {
    if !HasOutcome(result) then Null
    else if Get(result, "result") != Null then Get(result, "result")
    else CleanResult(payload)
  }

  predicate CarriesStatus(result: Json) {
    Get(result, "status") != Null
  }

  /** A status that came along can be written to the ledger. */
  predicate Syncs(ledger: Ledger, result: Json) {
    CarriesStatus(result) ==> ledger.syncOk
  }

  /** The ledger takes the status of a result, and the digest guard lets its outcome out. */
  predicate LetThrough(ledger: Ledger, result: Json) {
    Syncs(ledger, result) && (HasOutcome(result) ==> ledger.digest.Yes?)
  }

  predicate ObjectOrNull(j: Json) {
    j.Obj? || j.Null?
  }

  predicate TextOrNull(j: Json) {
    j.Str? || j.Null?
  }

  predicate IsStatus(j: Json) {
    j == Str("working") || j == Str("input_required") || j == Str("completed") || j == Str("failed")
    || j == Str("cancelled")
  }

  /** An entry that the poll's result type accepts. */
  predicate Servable(e: Entry) {
    IsStatus(e.status) && TextOrNull(e.message)
  }

  /** Outcome fields and questions that the poll's result type accepts. */
  predicate WellTyped(result: Json) {
    && ObjectOrNull(Get(result, "result")) && ObjectOrNull(Get(result, "error"))
    && ObjectOrNull(OpenRequests(result))
  }

  /** The ledger still reports the task, in a form that can be served. */
  predicate Reports(ledger: Ledger) {
    ledger.snapshotOk && ledger.snapshot.Some? && Servable(ledger.snapshot.value)
  }

  /** How an answered poll that is not shown ends. */
  function Withheld(ledger: Ledger, result: Json): Outcome {
    if !Syncs(ledger, result) then Failed
    else if HasOutcome(result) && !ledger.digest.Yes? then
      if ledger.digest.No? then Refused(INVALID_PARAMS) else Failed
    else if ledger.snapshotOk && ledger.snapshot.None? then Refused(INVALID_PARAMS)
    else Failed
  }

  /** When and what an answered poll shows: the result has to be let through and reported, and what
      it carries has to be of the types that a poll can show; else the result type raises. */
  predicate Shown(ledger: Ledger, result: Json) {
    LetThrough(ledger, result) && Reports(ledger) && WellTyped(result)
  }

  /** A result whose payload is still to be fetched. */
  predicate NeedsPayload(result: Json) {
    HasOutcome(result) && Get(result, "result") == Null
  }

  /** What is done about a result before it is passed on. */
  function Release(result: Json): set<Effect> {
    (if HasOutcome(result) then {DigestVerified} else {})
    + (if NeedsPayload(result) then {Asked(TasksResult)} else {})
  }

  function Sync(result: Json): set<Effect> {
    if CarriesStatus(result) then {SnapshotSynced} else {}
  }

  /** The questions a paused task asks, under either spelling. */
  function OpenRequests(result: Json): Json {
    if Truthy(Get(result, "inputRequests")) then Get(result, "inputRequests") else Get(result, "input_requests")
  }

  predicate Truthy(j: Json) {
    match j
    case Null => false
    case Bool(b) => b
    case Num(n) => n != 0.0
    case Str(s) => s != ""
    case Arr(items) => items != []
    case Obj(fields) => fields != map[]
  }

  /** `_with_upstream_payload`: fetch a completed task's payload unless it is already inline. */
  method WithUpstreamPayload(result: Json, payload: Reply) returns (asked: bool, full: Json)
    requires result.Obj?
    ensures full.Obj?
    ensures Get(full, "result") == if Get(result, "result") != Null then Get(result, "result") else CleanResult(payload)
    ensures forall key | key != "result" :: Get(full, key) == Get(result, key)
    ensures asked <==> Get(result, "result") == Null
  {
    if Get(result, "result") != Null {
      return false, result;
    }
    if payload.Raised? || !payload.value.Obj? || Has(payload.value, "error") {
      return true, result;
    }
    var fetched := Get(payload.value, "result");
    if !fetched.Obj? {
      return true, result;
    }
    return true, Obj(result.fields["result" := fetched]);
  }

  /** The verified part of `_get`: a result that has an outcome is passed on, and its payload fetched,
      only after the digest was verified. */
  method VerifiedResult(result: Json, ledger: Ledger, payload: Reply, before: seq<Effect>)
    returns (trace: seq<Effect>, full: Option<Json>)
    requires result.Obj? && Lawful(before) && {Authorized, Asked(TasksGet)} <= Done(before)
    requires DigestVerified !in Done(before) && Asked(TasksResult) !in Done(before)
    ensures Lawful(trace) && Done(trace) == Done(before) + (if ledger.digest.Yes? then Release(result) else {})
    ensures full.None? <==> HasOutcome(result) && !ledger.digest.Yes?
    ensures full.Some? ==> Fills(full.value, result, payload)
  {
    trace := before;
    if !HasOutcome(result) {
      SameFieldsFill(result, result, payload);
      return trace, Some(result);
    }
    if !ledger.digest.Yes? {
      return trace, None;
    }
    trace := Perform(trace, DigestVerified);
    var fetched, whole := WithUpstreamPayload(result, payload);
    if fetched {
      trace := Perform(trace, Asked(TasksResult));
    }
    SameFieldsFill(whole, result, payload);
    return trace, Some(whole);
  }

  /** A result with its payload in place, and all else that a poll shows as it was. */
  predicate Fills(full: Json, result: Json, payload: Reply) {
    && Get(full, "result") == Payload(result, payload) && Get(full, "error") == Get(result, "error")
    && OpenRequests(full) == OpenRequests(result) && (WellTyped(full) <==> WellTyped(result))
  }

  lemma SameFieldsFill(full: Json, result: Json, payload: Reply)
    requires Get(full, "result") == Payload(result, payload)
    requires forall key | key != "result" :: Get(full, key) == Get(result, key)
    ensures Fills(full, result, payload)
  {
    assert Get(full, "error") == Get(result, "error");
    assert Get(full, "inputRequests") == Get(result, "inputRequests");
    assert Get(full, "input_requests") == Get(result, "input_requests");
  }

  /** `_sync_snapshot_from_result`: a status that came along is written to the ledger. */
  method SyncSnapshot(before: seq<Effect>, ledger: Ledger, result: Json) returns (trace: seq<Effect>, ok: bool)
    requires Lawful(before) && MayFollow(Done(before), SnapshotSynced)
    ensures ok <==> Syncs(ledger, result)
    ensures Lawful(trace) && Done(trace) == Done(before) + (if ok then Sync(result) else {})
  {
    trace := before;
    if CarriesStatus(result) {
      if !ledger.syncOk {
        return trace, false;
      }
      trace := Perform(trace, SnapshotSynced);
    }
    return trace, true;
  }

  /** What an answered poll tells the caller. */
  predicate Shows(out: Outcome, ledger: Ledger, result: Json, payload: Reply) {
    && out.Snapshot? && ledger.snapshot.Some? && ledger.snapshot.value.status == Str(out.status)
    && out.result == Payload(result, payload)
    && out.error == Get(result, "error")
    && out.inputRequests == OpenRequests(result)
  }

  /** `_get`. A payload leaves only after the digest was verified in the same call; a refused call
      performs no upstream request at all. */
  method GetTask(ctx: Context, taskId: string, ledger: Ledger, get: Reply, payload: Reply)
    returns (trace: seq<Effect>, out: Outcome)
    ensures !Served(ctx, taskId, ledger) ==> out == TurnedAway(ctx, taskId, ledger) && Done(trace) <= CHECKS
    ensures Served(ctx, taskId, ledger) && get.Raised? ==> out == Failed && Done(trace) == CHECKS + {Asked(TasksGet)}
    ensures Lawful(trace)
    ensures out.Snapshot? <==>
            && Served(ctx, taskId, ledger) && get.Answered?
            && Shown(ledger, CleanResult(get))
    ensures out.Snapshot? ==> Shows(out, ledger, CleanResult(get), payload)
    ensures Served(ctx, taskId, ledger) && get.Answered? && !out.Snapshot? ==> out == Withheld(ledger, CleanResult(get))
    ensures Served(ctx, taskId, ledger) && get.Answered? && LetThrough(ledger, CleanResult(get)) ==>
              Done(trace) == CHECKS + {Asked(TasksGet)} + Sync(CleanResult(get)) + Release(CleanResult(get))
    ensures out.Snapshot? && out.result != Null ==> DigestVerified in Done(trace)
  {
    var refusal;
    trace, refusal := Admit(ctx, taskId, ledger);
    if refusal.Some? {
      return trace, refusal.value;
    }
    trace := Perform(trace, Asked(TasksGet));
    if get.Raised? {
      return trace, Failed;
    }
    trace, out := ReadReply(ledger, get, payload, trace);
  }

  /** What `_get` does with an answer. */
  method ReadReply(ledger: Ledger, get: Reply, payload: Reply, before: seq<Effect>)
    returns (trace: seq<Effect>, out: Outcome)
    requires get.Answered? && Lawful(before) && Done(before) == CHECKS + {Asked(TasksGet)}
    ensures Lawful(trace)
    ensures out.Snapshot? <==> Shown(ledger, CleanResult(get))
    ensures out.Snapshot? ==> Shows(out, ledger, CleanResult(get), payload)
    ensures !out.Snapshot? ==> out == Withheld(ledger, CleanResult(get))
    ensures LetThrough(ledger, CleanResult(get)) ==>
              Done(trace) == Done(before) + Sync(CleanResult(get)) + Release(CleanResult(get))
  {
    trace := before;
    var result := CleanResult(get);
    if !result.Obj? {
      out := FlatSnapshot(ledger, Null);
      return;
    }
    trace, out := PassOn(result, ledger, payload, trace);
  }

  /** A usable result: its status to the ledger, its outcome past the digest guard, then the snapshot. */
  method PassOn(result: Json, ledger: Ledger, payload: Reply, before: seq<Effect>)
    returns (trace: seq<Effect>, out: Outcome)
    requires result.Obj? && Lawful(before) && {Authorized, Asked(TasksGet)} <= Done(before)
    requires {GateOpened, SnapshotSynced, DigestVerified, Asked(TasksResult)} !! Done(before)
    ensures Lawful(trace)
    ensures out.Snapshot? <==> Shown(ledger, result)
    ensures out.Snapshot? ==> Shows(out, ledger, result, payload)
    ensures !out.Snapshot? ==> out == Withheld(ledger, result)
    ensures LetThrough(ledger, result) ==> Done(trace) == Done(before) + Sync(result) + Release(result)
  {
    var synced, full;
    trace, synced := SyncSnapshot(before, ledger, result);
    if !synced {
      return trace, Failed;
    }
    trace, full := VerifiedResult(result, ledger, payload, trace);
    if full.None? {
      return trace, if ledger.digest.No? then Refused(INVALID_PARAMS) else Failed;
    }
    out := FlatSnapshot(ledger, full.value);
  }

  /** `_flat_snapshot`: the ledger's status, and the outcome fields of the upstream result if any. The
      result type raises on anything that it does not declare. */
  method FlatSnapshot(ledger: Ledger, upstream: Json) returns (out: Outcome)
    ensures out.Snapshot? <==> Reports(ledger) && WellTyped(upstream)
    ensures out.Snapshot? ==>
              && ledger.snapshot.value.status == Str(out.status)
              && out.result == Get(upstream, "result") && out.error == Get(upstream, "error")
              && out.inputRequests == OpenRequests(upstream)
    ensures !out.Snapshot? ==>
              out == if ledger.snapshotOk && ledger.snapshot.None? then Refused(INVALID_PARAMS) else Failed
  {
    if !ledger.snapshotOk {
      return Failed;
    }
    if ledger.snapshot.None? {
      return Refused(INVALID_PARAMS);
    }
    var result, error, requests := Null, Null, Null;
    if Truthy(upstream) {
      result, error, requests := Get(upstream, "result"), Get(upstream, "error"), Get(upstream, "inputRequests");
      if !Truthy(requests) {
        requests := Get(upstream, "input_requests");
      }
    }
    out := Validated(ledger.snapshot.value, result, error, requests);
  }

  /** `GetTaskResult(...)`. */
  function Validated(e: Entry, result: Json, error: Json, requests: Json): Outcome {
    if Servable(e) && ObjectOrNull(result) && ObjectOrNull(error) && ObjectOrNull(requests)
    then Snapshot(e.status.s, result, error, requests)
    else Failed
  }

  /** A completed task whose inline result is a text cannot be polled: with a ledger that works the
      digest is verified and the status stored, and then the result type raises. */
  lemma TextResultsAreNotShown(ledger: Ledger)
    requires ledger.syncOk && ledger.digest.Yes? && Reports(ledger)
    ensures
      var result := Obj(map["status" := Str("completed"), "result" := Str("done")]);
      && CleanResult(Answered(Obj(map["result" := result]))) == result
      && LetThrough(ledger, result) && !Shown(ledger, result) && Withheld(ledger, result) == Failed
  {
    var result := Obj(map["status" := Str("completed"), "result" := Str("done")]);
    assert Get(result, "result") == Str("done");
  }

  // ---------------------------------------------------------------- what syncing leaves in the ledger

  /** The message that comes with a status: the second spelling counts only where the first is absent. */
  function MessageOf(result: Json): Json {
    if Has(result, "statusMessage") then Get(result, "statusMessage") else Get(result, "status_message")
  }

  /** A ledger entry after a result was synced: neither field is checked, and a null message is none. */
  function Synced(e: Entry, result: Json): Entry {
    if !CarriesStatus(result) then e
    else Entry(Get(result, "status"), if MessageOf(result) == Null then e.message else MessageOf(result))
  }

  /** A servable entry stays so exactly when the upstream sends a status of the protocol and a message
      that is text. Anything else is stored, and from then on no poll of the task is shown. */
  lemma SyncedEntriesAreServable(e: Entry, result: Json)
    requires Servable(e)
    ensures Servable(Synced(e, result)) <==>
              (CarriesStatus(result) ==> IsStatus(Get(result, "status")) && TextOrNull(MessageOf(result)))
  {
  }

  /** Until a later result repairs it: both fields have to come again. */
  lemma UnservableEntriesStay(e: Entry, result: Json)
    requires !Servable(e)
    ensures Servable(Synced(e, result)) <==>
              && CarriesStatus(result) && IsStatus(Get(result, "status")) && TextOrNull(MessageOf(result))
              && (TextOrNull(e.message) || MessageOf(result) != Null)
  {
  }

  // ---------------------------------------------------------------- tasks/cancel

  /** `_cancel_confirmed`. */
  predicate Confirms(resp: Json) {
    && resp.Obj? && !Has(resp, "error") && Has(resp, "result")
    && var r := Get(resp, "result");
       if r.Obj? then Get(r, "status") == Null || Get(r, "status") == Str("cancelled") else r != Null
  }

  /** `_cancel`. The acknowledgement is empty whatever the upstream says; the ledger entry is
      marked, and then retired, exactly when the upstream confirms. */
  method CancelTask(ctx: Context, taskId: string, ledger: Ledger, reply: Reply)
    returns (trace: seq<Effect>, out: Outcome)
    ensures !Served(ctx, taskId, ledger) ==> out == TurnedAway(ctx, taskId, ledger) && Done(trace) <= CHECKS
    ensures Served(ctx, taskId, ledger) ==> Done(trace) == CHECKS + {Asked(TasksCancel)} + Retirement(ledger, reply)
    ensures Lawful(trace)
    ensures out == Ack <==> Served(ctx, taskId, ledger) && reply.Answered? && Retires(ledger, reply)
    ensures Served(ctx, taskId, ledger) && out != Ack ==> out == Failed
  {
    var refusal;
    trace, refusal := Admit(ctx, taskId, ledger);
    if refusal.Some? {
      return trace, refusal.value;
    }
    trace := Perform(trace, Asked(TasksCancel));
    if reply.Raised? {
      return trace, Failed;
    }
    trace, out := RetireConfirmed(trace, ledger, reply);
  }

  predicate Confirmed(reply: Reply) {
    reply.Answered? && Confirms(reply.value)
  }

  /** A confirmation is marked before the entry is deleted, and either may raise. */
  function Retirement(ledger: Ledger, reply: Reply): set<Effect> {
    if !Confirmed(reply) || !ledger.markOk then {}
    else if ledger.deleteOk then {MarkedCancelled, Retired}
    else {MarkedCancelled}
  }

  predicate Retires(ledger: Ledger, reply: Reply) {
    Confirmed(reply) ==> ledger.markOk && ledger.deleteOk
  }

  /** The end of `_cancel`, once the upstream has answered. */
  method RetireConfirmed(before: seq<Effect>, ledger: Ledger, reply: Reply) returns (trace: seq<Effect>, out: Outcome)
    requires reply.Answered? && Lawful(before)
    requires Asked(TasksCancel) in Done(before) && {MarkedCancelled, Retired} !! Done(before)
    ensures Lawful(trace) && Done(trace) == Done(before) + Retirement(ledger, reply)
    ensures out == if Retires(ledger, reply) then Ack else Failed
  {
    trace := before;
    if Confirms(reply.value) {
      if !ledger.markOk {
        return trace, Failed;
      }
      trace := Perform(trace, MarkedCancelled);
      if !ledger.deleteOk {
        return trace, Failed;
      }
      trace := Perform(trace, Retired);
    }
    return trace, Ack;
  }

  // ---------------------------------------------------------------- tasks/update

  predicate CleanReply(reply: Reply) {
    reply.Answered? && !Has(reply.value, "error")
  }

  predicate MayRelay(done: set<Effect>) {
    && {Authorized, Asked(TasksGet), GateOpened} <= done
    && {Asked(TasksUpdate), GateAnswered, GateDiscarded, ConsentRecorded, SnapshotSynced} !! done
  }

  /** The middle of `_update`: a look at the task's open questions, then the gate. */
  method OpenGate(before: seq<Effect>, probe: Reply, gate: Gate) returns (trace: seq<Effect>, isOpen: bool)
    requires Lawful(before) && Done(before) == CHECKS
    ensures isOpen <==> probe.Answered? && gate.openOk
    ensures Lawful(trace) && Done(trace) == CHECKS + {Asked(TasksGet)} + (if isOpen then {GateOpened} else {})
    ensures isOpen ==> MayRelay(Done(trace))
  {
    trace := Perform(before, Asked(TasksGet));
    if probe.Raised? || !gate.openOk {
      return trace, false;
    }
    trace := Perform(trace, GateOpened);
    isOpen := true;
  }

  /** The end of `_update`, from the opened gate on. */
  method RelayAnswer(before: seq<Effect>, ledger: Ledger, gate: Gate, reply: Reply)
    returns (trace: seq<Effect>, out: Outcome)
    requires Lawful(before) && MayRelay(Done(before))
    ensures Lawful(trace) && Done(trace) == Done(before) + Relayed(ledger, gate, reply)
    ensures out == UpdateAnswer(ledger, gate, reply)
  {
    trace := Perform(before, Asked(TasksUpdate));
    if reply.Raised? {
      return trace, Failed;
    }
    if Has(reply.value, "error") {
      if !gate.discardOk {
        return trace, Failed;
      }
      trace := Perform(trace, GateDiscarded);
      return trace, Refused(INVALID_PARAMS);
    }
    if !gate.answerOk {
      return trace, Failed;
    }
    trace := Perform(trace, GateAnswered);
    trace, out := RecordConsent(trace, ledger, CleanResult(reply));
  }

  /** The end of `_update` once the gate has taken the answer. */
  method RecordConsent(before: seq<Effect>, ledger: Ledger, updated: Json) returns (trace: seq<Effect>, out: Outcome)
    requires Lawful(before) && {Asked(TasksGet), GateAnswered} <= Done(before)
    requires {GateDiscarded, ConsentRecorded, SnapshotSynced} !! Done(before)
    ensures Lawful(trace) && Done(trace) == Done(before) + Consented(ledger, updated)
    ensures out == if ledger.recordOk && Syncs(ledger, updated) then Ack else Failed
  {
    trace := before;
    if !ledger.recordOk {
      return trace, Failed;
    }
    trace := Perform(trace, ConsentRecorded);
    var synced;
    trace, synced := SyncSnapshot(trace, ledger, updated);
    out := if synced then Ack else Failed;
  }

  function Consented(ledger: Ledger, updated: Json): set<Effect> {
    if !ledger.recordOk then {}
    else {ConsentRecorded} + (if Syncs(ledger, updated) then Sync(updated) else {})
  }

  /** What an opened gate leads to. */
  function Relayed(ledger: Ledger, gate: Gate, reply: Reply): set<Effect> {
    {Asked(TasksUpdate)} +
    if reply.Raised? then {}
    else if CleanReply(reply) then
      if gate.answerOk then {GateAnswered} + Consented(ledger, CleanResult(reply)) else {}
    else if gate.discardOk then {GateDiscarded}
    else {}
  }

  function UpdateAnswer(ledger: Ledger, gate: Gate, reply: Reply): Outcome {
    if reply.Raised? then Failed
    else if CleanReply(reply) then
      if gate.answerOk && ledger.recordOk && Syncs(ledger, CleanResult(reply)) then Ack else Failed
    else if gate.discardOk then Refused(INVALID_PARAMS)
    else Failed
  }

  /** Who gets an answer forwarded: a served caller whose probe succeeded and whose gate opened. */
  predicate Forwards(ctx: Context, taskId: string, ledger: Ledger, probe: Reply, gate: Gate) {
    Served(ctx, taskId, ledger) && probe.Answered? && gate.openOk
  }

  /** `_update`. The answer goes upstream only after the gate opened, and consent is recorded only
      after a relay without error; a refused relay discards the gate and records nothing. */
  method UpdateTask(ctx: Context, taskId: string, ledger: Ledger, probe: Reply, gate: Gate, reply: Reply)
    returns (trace: seq<Effect>, out: Outcome)
    ensures !Served(ctx, taskId, ledger) ==> out == TurnedAway(ctx, taskId, ledger) && Done(trace) <= CHECKS
    ensures Lawful(trace)
    ensures Forwards(ctx, taskId, ledger, probe, gate) ==>
              && Done(trace) == CHECKS + {Asked(TasksGet), GateOpened} + Relayed(ledger, gate, reply)
              && out == UpdateAnswer(ledger, gate, reply)
    ensures Served(ctx, taskId, ledger) && !Forwards(ctx, taskId, ledger, probe, gate) ==>
              Done(trace) == CHECKS + {Asked(TasksGet)} && out == Failed
  {
    var refusal;
    trace, refusal := Admit(ctx, taskId, ledger);
    if refusal.Some? {
      return trace, refusal.value;
    }
    var isOpen;
    trace, isOpen := OpenGate(trace, probe, gate);
    if !isOpen {
      return trace, Failed;
    }
    trace, out := RelayAnswer(trace, ledger, gate, reply);
  }

  // ---------------------------------------------------------------- the relay against the upstream

  /** One atomic look at the upstream: a completed task's final payload, and nothing otherwise. */
  function AtomicPoll(tasks: U.Tasks, id: string): Json {
    if id in tasks && tasks[id].status.Completed? && tasks[id].resultText.Some?
    then U.PayloadJson(tasks[id].resultText.value)
    else Null
  }

  /** The two reads of a poll equal one atomic look at the moment of the first, whatever the
      upstream does in between. */
  lemma TwoReadsAreOne(tasks: U.Tasks, events: seq<U.Event>, tasks': U.Tasks, id: string)
    requires U.StoreInv(tasks) && U.Leads(tasks, events, tasks')
    ensures Payload(CleanResult(Answered(U.GetResponse(tasks, id))), Answered(U.ResultResponse(tasks', id)))
            == AtomicPoll(tasks, id)
  {
    if id in tasks {
      assert U.RecordInv(tasks[id]);
      GetResponseShape(tasks, id);
      if tasks[id].status.Completed? {
        U.FinalRecordsAreFrozen(tasks, events, tasks', id);
        ResultResponseShape(tasks', id);
      }
    }
  }

  /** `_get` in front of the moving upstream, which answers the first read from `tasks` and the second
      one from `later`: a shown poll shows what one atomic look at the first would. */
  method PollUpstream(ctx: Context, id: string, ledger: Ledger, tasks: U.Tasks, ghost events: seq<U.Event>, later: U.Tasks)
    returns (trace: seq<Effect>, out: Outcome)
    requires U.StoreInv(tasks) && U.Leads(tasks, events, later)
    ensures out.Snapshot? <==>
              && Served(ctx, id, ledger) && Reports(ledger)
              && LetThrough(ledger, CleanResult(Answered(U.GetResponse(tasks, id))))
    ensures out.Snapshot? ==> out.result == AtomicPoll(tasks, id)
    ensures out.Snapshot? && out.result != Null ==> DigestVerified in Done(trace)
  {
    trace, out := GetTask(ctx, id, ledger, Answered(U.GetResponse(tasks, id)), Answered(U.ResultResponse(later, id)));
    TwoReadsAreOne(tasks, events, later, id);
    UpstreamIsWellTyped(tasks, id);
  }

  lemma UpstreamIsWellTyped(tasks: U.Tasks, id: string)
    ensures WellTyped(CleanResult(Answered(U.GetResponse(tasks, id))))
  {
    var r := CleanResult(Answered(U.GetResponse(tasks, id)));
    if id in tasks {
      assert Get(r, "result") == Null && Get(r, "error") == Null;
      assert Get(r, "input_requests") == Null && ObjectOrNull(Get(r, "inputRequests"));
    }
  }

  lemma GetResponseShape(tasks: U.Tasks, id: string)
    requires id in tasks && U.RecordInv(tasks[id])
    ensures
      var r := CleanResult(Answered(U.GetResponse(tasks, id)));
      && r.Obj? && Get(r, "result") == Null && Get(r, "status") == Str(U.StatusText(tasks[id].status))
      && (HasOutcome(r) <==> tasks[id].status.Completed?)
  {
    StatusTextsDiffer(tasks[id].status);
  }

  lemma StatusTextsDiffer(s: U.Status)
    ensures U.StatusText(s) == "completed" <==> s.Completed?
    ensures U.StatusText(s) == "cancelled" <==> s.Cancelled?
  {
    assert |"working"| == 7 && |"input_required"| == 14 && |"completed"| == 9 && |"cancelled"| == 9 && |"failed"| == 6;
    assert "completed"[1] == 'o' && "cancelled"[1] == 'a';
  }

  lemma ResultResponseShape(tasks: U.Tasks, id: string)
    requires id in tasks && tasks[id].status.Completed? && tasks[id].resultText.Some?
    ensures CleanResult(Answered(U.ResultResponse(tasks, id))) == U.PayloadJson(tasks[id].resultText.value)
  {
  }

  /** Every later poll of a finished task shows the same payload. */
  lemma PayloadsAreFinal(tasks: U.Tasks, events: seq<U.Event>, tasks': U.Tasks, id: string)
    requires U.StoreInv(tasks) && U.Leads(tasks, events, tasks') && AtomicPoll(tasks, id) != Null
    ensures AtomicPoll(tasks', id) == AtomicPoll(tasks, id)
  {
    U.FinalRecordsAreFrozen(tasks, events, tasks', id);
  }

  /** The relay retires a ledger entry only for a task that is cancelled upstream, and stays so in
      every continuation; and it does so for every task that was still unfinished. */
  lemma RetiredTasksStayCancelled(tasks: U.Tasks, id: string, now: int, events: seq<U.Event>, tasks': U.Tasks)
    requires U.StoreInv(tasks) && U.Leads(U.After(tasks, U.CancelAsked(id, now)), events, tasks')
    ensures Confirms(U.CancelResponse(tasks, id, now)) <==> id in tasks && !tasks[id].status.Completed?
    ensures Confirms(U.CancelResponse(tasks, id, now)) ==> id in tasks' && tasks'[id].status.Cancelled?
  {
    var after := U.After(tasks, U.CancelAsked(id, now));
    U.RunKeepsInv(tasks, [U.CancelAsked(id, now)], after);
    if id in tasks {
      assert U.RecordInv(tasks[id]);
      CancelResponseShape(tasks, id, now);
      if after[id].status.Cancelled? {
        U.FinalRecordsAreFrozen(after, events, tasks', id);
      }
    }
  }

  lemma CancelResponseShape(tasks: U.Tasks, id: string, now: int)
    requires id in tasks
    ensures
      var after := U.After(tasks, U.CancelAsked(id, now));
      Confirms(U.CancelResponse(tasks, id, now)) <==> after[id].status.Cancelled?
  {
    var after := U.After(tasks, U.CancelAsked(id, now));
    StatusTextsDiffer(after[id].status);
    var r := Get(U.CancelResponse(tasks, id, now), "result");
    assert Get(r, "status") == Str(U.StatusText(after[id].status));
  }
}

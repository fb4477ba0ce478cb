/**
 The task-running upstream: an in-memory store whose records move while requests read them. The
 payload of a finished task is kept behind `tasks/result`.
 */
module UpstreamTasks {
  import opened Options
  import opened Json

  datatype Status = Working | InputRequired | Completed | Cancelled | Failed

  datatype Tool = LongJob | LongJobConsent

  type TaskId = string

  datatype TaskRecord = TaskRecord(
    tool: Tool, prompt: string, status: Status, statusMessage: Option<string>, resultText: Option<string>,
    createdAt: int, lastUpdatedAt: int)

  type Tasks = map<TaskId, TaskRecord>

  const CANCEL_MESSAGE := "Cancelled by client"
  const CONSENT_MESSAGE := "Additional input is required to continue. Do you consent?"

  // ---------------------------------------------------------------- one record's moves

  function NewRecord(tool: Tool, prompt: string, now: int): TaskRecord {
    TaskRecord(tool, prompt, Working, None, None, now, now)
  }

  /** Cancelling a cancelled task still touches it. */
  function AfterCancel(r: TaskRecord, now: int): TaskRecord {
    if r.status.Completed? || r.status.Failed? then r
    else r.(status := Cancelled, statusMessage := Some(CANCEL_MESSAGE), lastUpdatedAt := now)
  }

  function AfterUpdate(r: TaskRecord, now: int): TaskRecord {
    if r.status.InputRequired? then
      r.(status := Completed, statusMessage := None, lastUpdatedAt := now,
         resultText := Some("Completed (after consent) job for prompt: " + r.prompt))
    else r
  }

  function AfterWork(r: TaskRecord, now: int): TaskRecord {
    if !r.status.Working? then r
    else if r.tool.LongJobConsent? then
      r.(status := InputRequired, statusMessage := Some(CONSENT_MESSAGE), lastUpdatedAt := now)
    else
      r.(status := Completed, resultText := Some("Completed job for prompt: " + r.prompt), lastUpdatedAt := now)
  }

  /** The store as a server object; its methods answer requests and drive the background work. */
  class TaskStore {
    var tasks: Tasks

    ghost predicate Valid()
      reads this
    {
      StoreInv(tasks)
    }

    constructor ()
      ensures Valid() && tasks == map[]
    {
      tasks := map[];
    }

    method Create(id: TaskId, tool: Tool, prompt: string, now: int)
      requires Valid() && id !in tasks
      modifies this
      ensures Valid() && tasks == After(old(tasks), Created(id, tool, prompt, now))
    {
      tasks := tasks[id := NewRecord(tool, prompt, now)];
    }

    method Cancel(id: TaskId, now: int) returns (r: Option<TaskRecord>)
      requires Valid()
      modifies this
      ensures Valid() && tasks == After(old(tasks), CancelAsked(id, now))
      ensures r == if id in tasks then Some(tasks[id]) else None
    {
      if id !in tasks {
        return None;
      }
      var record := tasks[id];
      if record.status != Completed && record.status != Failed {
        record := record.(status := Cancelled, statusMessage := Some(CANCEL_MESSAGE));
        record := record.(lastUpdatedAt := now);
        tasks := tasks[id := record];
      }
      return Some(record);
    }

    method ResolveInput(id: TaskId, now: int) returns (r: Option<TaskRecord>)
      requires Valid()
      modifies this
      ensures Valid() && tasks == After(old(tasks), Updated(id, now))
      ensures r == if id in tasks then Some(tasks[id]) else None
    {
      if id !in tasks {
        return None;
      }
      var record := tasks[id];
      if record.status == InputRequired {
        record := record.(status := Completed, statusMessage := None,
                          resultText := Some("Completed (after consent) job for prompt: " + record.prompt));
        record := record.(lastUpdatedAt := now);
        tasks := tasks[id := record];
      }
      return Some(record);
    }

    /** The background lifecycle, from the moment its sleep ends. */
    method RunLifecycle(id: TaskId, now: int)
      requires Valid()
      modifies this
      ensures Valid() && tasks == After(old(tasks), WorkDone(id, now))
    {
      if id !in tasks || tasks[id].status != Working {
        return;
      }
      var record := tasks[id];
      if record.tool == LongJobConsent {
        record := record.(status := InputRequired, statusMessage := Some(CONSENT_MESSAGE));
      } else {
        record := record.(status := Completed, resultText := Some("Completed job for prompt: " + record.prompt));
      }
      tasks := tasks[id := record.(lastUpdatedAt := now)];
    }

    /** The payload of a completed task: never the empty fallback, because a completed record
        always has its text. */
    method ResultPayload(id: TaskId) returns (text: Option<string>)
      requires Valid()
      ensures text.Some? <==> id in tasks && tasks[id].status.Completed?
      ensures text.Some? ==> text == tasks[id].resultText
    {
      if id !in tasks || tasks[id].status != Completed {
        return None;
      }
      return Some(if tasks[id].resultText.Some? then tasks[id].resultText.value else "");
    }
  }

  // ---------------------------------------------------------------- runs

  datatype Event =
    | Created(id: TaskId, tool: Tool, prompt: string, now: int)
    | CancelAsked(id: TaskId, now: int)
    | Updated(id: TaskId, now: int)
    | WorkDone(id: TaskId, now: int)

  function After(tasks: Tasks, e: Event): Tasks
    requires e.Created? ==> e.id !in tasks
  {
    match e
    case Created(id, tool, prompt, now) => tasks[id := NewRecord(tool, prompt, now)]
    case CancelAsked(id, now) => if id in tasks then tasks[id := AfterCancel(tasks[id], now)] else tasks
    case Updated(id, now) => if id in tasks then tasks[id := AfterUpdate(tasks[id], now)] else tasks
    case WorkDone(id, now) => if id in tasks then tasks[id := AfterWork(tasks[id], now)] else tasks
  }

  /** `events` leads from `tasks` to `tasks'`; task ids are never drawn twice. */
  ghost predicate Leads(tasks: Tasks, events: seq<Event>, tasks': Tasks)
    decreases |events|
  {
    if events == [] then tasks' == tasks
    else
      && (events[0].Created? ==> events[0].id !in tasks)
      && Leads(After(tasks, events[0]), events[1..], tasks')
  }

  predicate RecordInv(r: TaskRecord) {
    && !r.status.Failed?
    && (r.resultText.Some? <==> r.status.Completed?)
    && (r.status.InputRequired? ==> r.tool.LongJobConsent?)
    && (r.status.Cancelled? ==> r.statusMessage == Some(CANCEL_MESSAGE))
  }

  predicate StoreInv(tasks: Tasks) {
    forall id | id in tasks :: RecordInv(tasks[id])
  }

  predicate Final(r: TaskRecord) {
    r.status.Completed? || r.status.Cancelled?
  }

  /** In every run a record carries a result text exactly when it is completed, and never fails. */
  lemma {:induction false} RunKeepsInv(tasks: Tasks, events: seq<Event>, tasks': Tasks)
    requires StoreInv(tasks) && Leads(tasks, events, tasks')
    ensures StoreInv(tasks')
    decreases |events|
  {
    if events != [] {
      RunKeepsInv(After(tasks, events[0]), events[1..], tasks');
    }
  }

  /** The same record, but for a later touch of a cancelled one. */
  predicate Frozen(r: TaskRecord, r': TaskRecord) {
    r' == r || (r.status.Cancelled? && r' == r.(lastUpdatedAt := r'.lastUpdatedAt))
  }

  lemma StepKeepsFinal(tasks: Tasks, e: Event, id: TaskId)
    requires StoreInv(tasks) && (e.Created? ==> e.id !in tasks) && id in tasks && Final(tasks[id])
    ensures id in After(tasks, e) && Frozen(tasks[id], After(tasks, e)[id])
  {
    assert RecordInv(tasks[id]);
  }

  /** Completed and cancelled are absorbing: whatever happens next, the record does not change, except
      that cancelling a cancelled task again moves its time of update. */
  lemma {:induction false} FinalRecordsAreFrozen(tasks: Tasks, events: seq<Event>, tasks': Tasks, id: TaskId)
    requires StoreInv(tasks) && Leads(tasks, events, tasks') && id in tasks && Final(tasks[id])
    ensures id in tasks' && Frozen(tasks[id], tasks'[id])
    decreases |events|
  {
    if events != [] {
      var next := After(tasks, events[0]);
      StepKeepsFinal(tasks, events[0], id);
      RunKeepsInv(tasks, [events[0]], next);
      FinalRecordsAreFrozen(next, events[1..], tasks', id);
    }
  }

  /** Records outlive every event, and keep their tool and prompt. */
  lemma {:induction false} RecordsPersist(tasks: Tasks, events: seq<Event>, tasks': Tasks, id: TaskId)
    requires Leads(tasks, events, tasks') && id in tasks
    ensures id in tasks' && tasks'[id].tool == tasks[id].tool && tasks'[id].prompt == tasks[id].prompt
    decreases |events|
  {
    if events != [] {
      RecordsPersist(After(tasks, events[0]), events[1..], tasks', id);
    }
  }

  /** A consent task is completed only through an update. */
  lemma {:induction false} ConsentNeedsUpdate(tasks: Tasks, events: seq<Event>, tasks': Tasks, id: TaskId)
    requires Leads(tasks, events, tasks') && id in tasks'
    requires tasks'[id].tool.LongJobConsent? && tasks'[id].status.Completed?
    requires id in tasks ==> !tasks[id].status.Completed?
    ensures exists i | 0 <= i < |events| :: events[i].Updated? && events[i].id == id
    decreases |events|
  {
    if events != [] {
      var next := After(tasks, events[0]);
      if !(events[0].Updated? && events[0].id == id) {
        if id in next { RecordsPersist(next, events[1..], tasks', id); }
        ConsentNeedsUpdate(next, events[1..], tasks', id);
        var i :| 0 <= i < |events[1..]| && events[1..][i].Updated? && events[1..][i].id == id;
        assert events[i + 1] == events[1..][i];
      }
    }
  }

  // ---------------------------------------------------------------- the wire

  function StatusText(s: Status): string {
    match s
    case Working => "working"
    case InputRequired => "input_required"
    case Completed => "completed"
    case Cancelled => "cancelled"
    case Failed => "failed"
  }

  const NOT_FOUND := Obj(map["error" := Obj(map["code" := Num(-32602.0)])])

  function SnapshotJson(id: TaskId, r: TaskRecord): Json {
    Obj(map["taskId" := Str(id), "status" := Str(StatusText(r.status))]
        + (if r.statusMessage.Some? then map["statusMessage" := Str(r.statusMessage.value)] else map[]))
  }

  function PayloadJson(text: string): Json {
    Obj(map["content" := Arr([Obj(map["type" := Str("text"), "text" := Str(text)])]), "isError" := Bool(false)])
  }

  /** `tasks/get`: status only, plus the open questions while the task is paused. */
  function GetResponse(tasks: Tasks, id: TaskId): Json {
    if id !in tasks then NOT_FOUND
    else
      var snapshot := SnapshotJson(id, tasks[id]);
      var questions := map["inputRequests" := Obj(map["consent" := Obj(map["message" := Str(CONSENT_MESSAGE)])])];
      Obj(map["result" := if tasks[id].status.InputRequired? then Obj(snapshot.fields + questions) else snapshot])
  }

  /** `tasks/result`. */
  function ResultResponse(tasks: Tasks, id: TaskId): Json {
    if id !in tasks || !tasks[id].status.Completed? then NOT_FOUND
    else Obj(map["result" := PayloadJson(if tasks[id].resultText.Some? then tasks[id].resultText.value else "")])
  }

  /** `tasks/cancel`, answered from the store after the cancel took effect. */
  function CancelResponse(tasks: Tasks, id: TaskId, now: int): Json {
    var after := After(tasks, CancelAsked(id, now));
    if id !in after then NOT_FOUND else Obj(map["result" := SnapshotJson(id, after[id])])
  }
}

/**
 The health-check worker: one shared map of due times, swept once per cycle over a snapshot of the
 servers and pruned at the end of the sweep.
 */
module HealthSchedule {

  import opened Options

  type Id = string

  datatype State = Cold | Initializing | Ready | Degraded | Dead

  /** What a check came to: it raised, or it was made and the tracker chose the next interval. */
  datatype Outcome = Raised | Completed(interval: real)

  /** One server met in a sweep, with the clock reading and what a check would come to there. */
  datatype Visit = Visit(id: Id, state: State, now: real, outcome: Outcome)

  type Schedule = map<Id, real>

  predicate Started(s: State) {
    !s.Cold? && !s.Initializing?
  }

  function Lookup(next: Schedule, id: Id): Option<real> {
    if id in next then Some(next[id]) else None
  }

  predicate Due(scheduled: Option<real>, v: Visit) {
    Started(v.state) && v.now >= match scheduled { case Some(t) => t case None => 0.0 }
  }

  predicate Reschedules(v: Visit) {
    v.outcome.Completed? && v.outcome.interval > 0.0
  }

  predicate DistinctIds(visits: seq<Visit>) {
    forall i, j | 0 <= i < j < |visits| :: visits[i].id != visits[j].id
  }

  // ---------------------------------------------------------------- a sweep

  function VisitNext(next: Schedule, v: Visit): Schedule {
    if Due(Lookup(next, v.id), v) && Reschedules(v) then next[v.id := v.now + v.outcome.interval] else next
  }

  function SweepNext(next: Schedule, visits: seq<Visit>): Schedule {
    if visits == [] then next else VisitNext(SweepNext(next, visits[..|visits| - 1]), visits[|visits| - 1])
  }

  /** The checks a sweep performs, in order. */
  function SweepChecks(next: Schedule, visits: seq<Visit>): seq<Visit> {
    if visits == [] then []
    else
      var front, v := visits[..|visits| - 1], visits[|visits| - 1];
      SweepChecks(next, front) + if Due(Lookup(SweepNext(next, front), v.id), v) then [v] else []
  }

  function Ids(visits: seq<Visit>): set<Id> {
    set v | v in visits :: v.id
  }

  function Prune(next: Schedule, ids: set<Id>): Schedule {
    map id | id in next && id in ids :: next[id]
  }

  function CycleNext(next: Schedule, visits: seq<Visit>): Schedule {
    Prune(SweepNext(next, visits), Ids(visits))
  }

  class HealthWorker {
    var next: Schedule

    constructor ()
      ensures next == map[]
    {
      next := map[];
    }

    /** One pass of the worker's loop. */
    method RunCycle(visits: seq<Visit>) returns (checked: seq<Visit>)
      modifies this
      ensures next == CycleNext(old(next), visits)
      ensures checked == SweepChecks(old(next), visits)
      ensures forall id | id in next :: id in Ids(visits)
    {
      checked := [];
      for k := 0 to |visits|
        invariant next == SweepNext(old(next), visits[..k])
        invariant checked == SweepChecks(old(next), visits[..k])
      {
        var v := visits[k];
        assert visits[..k + 1][..k] == visits[..k];
        if v.state == Cold || v.state == Initializing { continue; }
        if v.now < (if v.id in next then next[v.id] else 0.0) { continue; }
        checked := checked + [v];
        if v.outcome.Completed? && v.outcome.interval > 0.0 {
          next := next[v.id := v.now + v.outcome.interval];
        }
      }
      assert visits[..|visits|] == visits;
      var current := Ids(visits);
      var stale := next.Keys - current;
      next := next - stale;
      assert next == CycleNext(old(next), visits);
    }
  }

  // ---------------------------------------------------------------- the reference: a server alone

  /** Where a server is met in a sweep. */
  function VisitOf(visits: seq<Visit>, id: Id): Option<Visit> {
    if visits == [] then None
    else if visits[|visits| - 1].id == id then Some(visits[|visits| - 1])
    else VisitOf(visits[..|visits| - 1], id)
  }

  /** The due time of a server that has a schedule of its own; missing a cycle forgets it. */
  function Solo(scheduled: Option<real>, seen: Option<Visit>): Option<real> {
    match seen
    case None => None
    case Some(v) => if Due(scheduled, v) && Reschedules(v) then Some(v.now + v.outcome.interval) else scheduled
  }

  lemma {:induction false} VisitOfIsTheVisit(visits: seq<Visit>, id: Id)
    ensures VisitOf(visits, id).None? <==> id !in Ids(visits)
    ensures VisitOf(visits, id).Some? ==> VisitOf(visits, id).value in visits && VisitOf(visits, id).value.id == id
    ensures DistinctIds(visits) ==> forall v | v in visits && v.id == id :: VisitOf(visits, id) == Some(v)
  {
    if visits != [] {
      VisitOfIsTheVisit(visits[..|visits| - 1], id);
      assert visits == visits[..|visits| - 1] + [visits[|visits| - 1]];
    }
  }

  lemma {:induction false} OthersDoNotInterfere(next: Schedule, visits: seq<Visit>, id: Id)
    requires id !in Ids(visits)
    ensures Lookup(SweepNext(next, visits), id) == Lookup(next, id)
    ensures forall v | v in SweepChecks(next, visits) :: v.id != id
  {
    if visits != [] {
      var n := |visits| - 1;
      assert visits[n].id in Ids(visits);
      assert Ids(visits[..n]) <= Ids(visits);
      OthersDoNotInterfere(next, visits[..n], id);
    }
  }

  lemma {:induction false} SweepIsPerServer(next: Schedule, visits: seq<Visit>, id: Id, v: Visit)
    requires DistinctIds(visits) && VisitOf(visits, id) == Some(v)
    ensures Lookup(SweepNext(next, visits), id) == Solo(Lookup(next, id), Some(v))
    ensures forall w: Visit | w.id == id :: w in SweepChecks(next, visits) <==> w == v && Due(Lookup(next, id), v)
  {
    var n := |visits| - 1;
    var front := visits[..n];
    VisitOfIsTheVisit(front, id);
    if visits[n].id == id {
      assert forall w | w in front :: w.id != id;
      OthersDoNotInterfere(next, front, id);
    } else {
      SweepIsPerServer(next, front, id, v);
    }
  }

  /** The shared map treats every server as if it were alone: both its next due time and whether it
      is checked depend on its own visits only. */
  lemma CycleIsPerServer(next: Schedule, visits: seq<Visit>, id: Id)
    requires DistinctIds(visits)
    ensures Lookup(CycleNext(next, visits), id) == Solo(Lookup(next, id), VisitOf(visits, id))
    ensures forall w: Visit | w.id == id ::
              w in SweepChecks(next, visits) <==> VisitOf(visits, id) == Some(w) && Due(Lookup(next, id), w)
  {
    VisitOfIsTheVisit(visits, id);
    match VisitOf(visits, id)
    case None => OthersDoNotInterfere(next, visits, id);
    case Some(v) => SweepIsPerServer(next, visits, id, v);
  }

  // ---------------------------------------------------------------- runs

  /** The schedule after a run of cycles. */
  function RunNext(cycles: seq<seq<Visit>>): Schedule {
    if cycles == [] then map[] else CycleNext(RunNext(cycles[..|cycles| - 1]), cycles[|cycles| - 1])
  }

  function ChecksAt(cycles: seq<seq<Visit>>, c: nat): seq<Visit>
    requires c < |cycles|
  {
    SweepChecks(RunNext(cycles[..c]), cycles[c])
  }

  predicate Proper(cycles: seq<seq<Visit>>) {
    forall c | 0 <= c < |cycles| :: DistinctIds(cycles[c])
  }

  predicate PresentThroughout(cycles: seq<seq<Visit>>, id: Id, start: nat, stop: nat)
    requires stop <= |cycles|
  {
    forall c | start <= c < stop :: id in Ids(cycles[c])
  }

  lemma RunSnoc(cycles: seq<seq<Visit>>, c: nat)
    requires c < |cycles|
    ensures RunNext(cycles[..c + 1]) == CycleNext(RunNext(cycles[..c]), cycles[c])
  {
    assert cycles[..c + 1][..c] == cycles[..c];
  }

  /** Once a due time is set, it only moves later for as long as the server stays in the snapshots. */
  lemma {:induction false} DueTimesHold(cycles: seq<seq<Visit>>, id: Id, start: nat, stop: nat, t: real)
    requires Proper(cycles) && start <= stop <= |cycles| && PresentThroughout(cycles, id, start, stop)
    requires id in RunNext(cycles[..start]) && RunNext(cycles[..start])[id] >= t
    ensures id in RunNext(cycles[..stop]) && RunNext(cycles[..stop])[id] >= t
    decreases stop
  {
    if start < stop {
      DueTimesHold(cycles, id, start, stop - 1, t);
      RunSnoc(cycles, stop - 1);
      CycleIsPerServer(RunNext(cycles[..stop - 1]), cycles[stop - 1], id);
      VisitOfIsTheVisit(cycles[stop - 1], id);
    }
  }

  /** Every later check of a server keeps the distance its completed check asked for, whatever the
      clock does in between, and no cycle checks a server twice. */
  lemma ChecksAreSpaced(cycles: seq<seq<Visit>>, c: nat, c': nat, v: Visit, v': Visit)
    requires Proper(cycles) && c <= c' < |cycles|
    requires v in ChecksAt(cycles, c) && v' in ChecksAt(cycles, c') && v.id == v'.id
    requires PresentThroughout(cycles, v.id, c, c')
    ensures c == c' ==> v == v'
    ensures c < c' && Reschedules(v) ==> v'.now >= v.now + v.outcome.interval
  {
    CycleIsPerServer(RunNext(cycles[..c]), cycles[c], v.id);
    CycleIsPerServer(RunNext(cycles[..c']), cycles[c'], v.id);
    if c < c' && Reschedules(v) {
      RunSnoc(cycles, c);
      DueTimesHold(cycles, v.id, c + 1, c', v.now + v.outcome.interval);
    }
  }

  lemma ChecksAreVisits(cycles: seq<seq<Visit>>, c: nat, v: Visit)
    requires Proper(cycles) && c < |cycles| && v in ChecksAt(cycles, c)
    ensures v in cycles[c] && Started(v.state)
  {
    CycleIsPerServer(RunNext(cycles[..c]), cycles[c], v.id);
    VisitOfIsTheVisit(cycles[c], v.id);
  }

  /** The spacing needs the server's presence: one snapshot without it, and it is checked on return. */
  lemma AbsenceForgets(cycles: seq<seq<Visit>>, c: nat, v: Visit)
    requires Proper(cycles) && c + 1 < |cycles| && v.id !in Ids(cycles[c]) && v in cycles[c + 1]
    ensures v in ChecksAt(cycles, c + 1) <==> Started(v.state) && v.now >= 0.0
  {
    RunSnoc(cycles, c);
    CycleIsPerServer(RunNext(cycles[..c + 1]), cycles[c + 1], v.id);
    VisitOfIsTheVisit(cycles[c + 1], v.id);
  }

  /** A check that raised, or chose no positive interval, leaves the server due at once. */
  lemma FailedChecksAreRetried(cycles: seq<seq<Visit>>, c: nat, v: Visit, v': Visit)
    requires Proper(cycles) && c + 1 < |cycles| && v in ChecksAt(cycles, c) && !Reschedules(v)
    requires v' in cycles[c + 1] && v'.id == v.id && v'.now >= v.now
    ensures v' in ChecksAt(cycles, c + 1) <==> Started(v'.state)
  {
    RunSnoc(cycles, c);
    CycleIsPerServer(RunNext(cycles[..c]), cycles[c], v.id);
    CycleIsPerServer(RunNext(cycles[..c + 1]), cycles[c + 1], v.id);
    VisitOfIsTheVisit(cycles[c + 1], v.id);
  }

  /** After each cycle the schedule knows only the servers of that cycle's snapshot. */
  lemma OnlyCurrentServersAreScheduled(cycles: seq<seq<Visit>>, c: nat)
    requires c < |cycles|
    ensures forall id | id in RunNext(cycles[..c + 1]) :: id in Ids(cycles[c])
  {
    RunSnoc(cycles, c);
  }
}

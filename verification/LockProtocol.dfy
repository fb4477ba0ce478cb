/**
 Any number of threads acquiring and releasing tracked locks. Each operation is split where another
 thread can run: between the order check and the real lock, between taking the real lock and
 registering it, and between unregistering and releasing it.
 */
module LockProtocol {
  import opened HeldLocks

  /** A `TrackedLock` object. Nothing in the code keeps two objects from carrying the same key. */
  datatype Lock = Lock(key: Key, reentrant: bool)

  /** All lock objects; a lock is identified by its index. */
  type Table = seq<Lock>

  datatype Pc =
    | Idle
    | Blocking(l: nat)      // the order check passed; waiting for the real lock
    | Taken(l: nat)         // the real lock is taken, not yet registered
    | Unregistered(l: nat)  // unregistered, the real lock not yet released

  /** `own` lists the real acquisitions not yet released, once per re-entrant entry. */
  datatype Thread = Thread(held: seq<Key>, own: seq<nat>, pc: Pc)

  type State = seq<Thread>

  datatype Step =
    | Check(t: nat, l: nat)
    | Take(t: nat)
    | GiveUp(t: nat)          // a non-blocking or timed acquire that fails
    | Register(t: nat)
    | Unregister(t: nat, l: nat)
    | Release(t: nat)

  // ---------------------------------------------------------------- transitions

  /** The real lock: free, or re-entrant and already owned by the caller. */
  predicate Available(T: Table, s: State, t: nat, l: nat)
    requires t < |s| && l < |T|
  {
    && (forall u | 0 <= u < |s| && u != t :: l !in s[u].own)
    && (l in s[t].own ==> T[l].reentrant)
  }

  predicate Enabled(T: Table, s: State, step: Step) {
    step.t < |s| &&
    var th := s[step.t];
    match step
    case Check(_, l) => th.pc.Idle? && l < |T| && Admits(th.held, T[l].key, T[l].reentrant)
    case Take(t) => th.pc.Blocking? && th.pc.l < |T| && Available(T, s, t, th.pc.l)
    case GiveUp(_) => th.pc.Blocking?
    case Register(_) => th.pc.Taken? && th.pc.l < |T|
    case Unregister(_, l) => th.pc.Idle? && l < |T| && l in th.own
    case Release(_) => th.pc.Unregistered?
  }

  function Advance(T: Table, th: Thread, step: Step): Thread
    requires step.Check? ==> step.l < |T|
    requires step.Take? ==> th.pc.Blocking?
    requires step.Register? ==> th.pc.Taken? && th.pc.l < |T|
    requires step.Unregister? ==> step.l < |T|
    requires step.Release? ==> th.pc.Unregistered?
  {
    match step
    case Check(_, l) => th.(pc := Blocking(l))
    case Take(_) => th.(own := th.own + [th.pc.l], pc := Taken(th.pc.l))
    case GiveUp(_) => th.(pc := Idle)
    case Register(_) => th.(held := th.held + [T[th.pc.l].key], pc := Idle)
    case Unregister(_, l) => th.(held := DropLast(th.held, T[l].key), pc := Unregistered(l))
    case Release(_) => th.(own := DropLast(th.own, th.pc.l), pc := Idle)
  }

  function Apply(T: Table, s: State, step: Step): State
    requires Enabled(T, s, step)
  {
    s[step.t := Advance(T, s[step.t], step)]
  }

  function Init(n: nat): State {
    seq(n, _ => Thread([], [], Idle))
  }

  ghost predicate Leads(T: Table, s: State, steps: seq<Step>, s': State)
    decreases |steps|
  {
    if steps == [] then s' == s
    else Enabled(T, s, steps[0]) && Leads(T, Apply(T, s, steps[0]), steps[1..], s')
  }

  ghost predicate Reachable(T: Table, n: nat, s: State) {
    exists steps :: Leads(T, Init(n), steps, s)
  }

  // ---------------------------------------------------------------- what is proved

  predicate IsBlocked(T: Table, s: State, t: nat) {
    t < |s| && s[t].pc.Blocking? && s[t].pc.l < |T|
  }

  /** Thread `t` cannot get the real lock it waits for, and `u` owns it. */
  predicate Waits(T: Table, s: State, t: nat, u: nat) {
    && IsBlocked(T, s, t) && u < |s|
    && s[t].pc.l in s[u].own
    && (u == t ==> !T[s[t].pc.l].reentrant)
  }

  predicate WaitCycle(T: Table, s: State, c: seq<nat>) {
    && c != []
    && (forall i | 0 <= i < |c| - 1 :: Waits(T, s, c[i], c[i + 1]))
    && Waits(T, s, c[|c| - 1], c[0])
  }

  ghost predicate DeadlockFree(T: Table) {
    forall n: nat, s: State, c: seq<nat> | Reachable(T, n, s) :: !WaitCycle(T, s, c)
  }

  predicate UniqueKeys(T: Table) {
    forall l, m | 0 <= l < |T| && 0 <= m < |T| && l != m :: T[l].key != T[m].key
  }

  predicate SharesKey(T: Table, l: nat, m: nat) {
    l < |T| && m < |T| && l != m && T[l].key == T[m].key
  }

  predicate Topmost(T: Table, level: int) {
    forall x | 0 <= x < |T| :: T[x].key.level <= level
  }

  /** A re-entrant lock may share its key only with non-re-entrant locks, and only on the top level. */
  ghost predicate SafeTable(T: Table) {
    forall l: nat, m: nat | SharesKey(T, l, m) && T[l].reentrant ::
      !T[m].reentrant && Topmost(T, T[l].key.level)
  }

  // ---------------------------------------------------------------- the invariant

  predicate Known(T: Table, own: seq<nat>) {
    forall i | 0 <= i < |own| :: own[i] < |T|
  }

  function KeysOf(T: Table, own: seq<nat>): seq<Key>
    requires Known(T, own)
  {
    seq(|own|, i requires 0 <= i < |own| => T[own[i]].key)
  }

  function Gap(T: Table, pc: Pc): multiset<Key>
    requires !pc.Idle? ==> pc.l < |T|
  {
    if pc.Taken? || pc.Unregistered? then multiset{T[pc.l].key} else multiset{}
  }

  /** Two locks of one thread on one level carry one name. */
  ghost predicate OneNamePerLevel(T: Table, own: seq<nat>)
    requires Known(T, own)
  {
    forall l, m | l in own && m in own && T[l].key.level == T[m].key.level :: T[l].key == T[m].key
  }

  ghost predicate ThreadInv(T: Table, th: Thread) {
    && Known(T, th.own)
    && (!th.pc.Idle? ==> th.pc.l < |T|)
    && multiset(KeysOf(T, th.own)) == multiset(th.held) + Gap(T, th.pc)
    && (th.pc.Taken? || th.pc.Unregistered? ==> th.pc.l in th.own)
    && (th.pc.Blocking? || th.pc.Taken? ==> Admits(th.held, T[th.pc.l].key, T[th.pc.l].reentrant))
    && OneNamePerLevel(T, th.own)
    && FirstsAscend(th.held)
  }

  ghost predicate Exclusive(s: State) {
    forall t, u, l | 0 <= t < |s| && 0 <= u < |s| && l in s[t].own && l in s[u].own :: t == u
  }

  ghost predicate Inv(T: Table, s: State) {
    Exclusive(s) && forall t | 0 <= t < |s| :: ThreadInv(T, s[t])
  }

  /** Outside the gaps the held list is the real ownership, with multiplicity. */
  lemma HeldIsOwned(T: Table, th: Thread, k: Key)
    requires ThreadInv(T, th) && (th.pc.Idle? || th.pc.Blocking?)
    ensures k in th.held <==> exists l | l in th.own :: T[l].key == k
    ensures multiset(th.held)[k] == multiset(KeysOf(T, th.own))[k]
  {
    var keys := KeysOf(T, th.own);
    assert multiset(keys) == multiset(th.held);
    assert k in th.held <==> k in multiset(th.held);
    assert k in keys <==> k in multiset(keys);
    if k in keys {
      var i :| 0 <= i < |keys| && keys[i] == k;
      assert th.own[i] in th.own;
    }
    if l :| l in th.own && T[l].key == k {
      var i :| 0 <= i < |th.own| && th.own[i] == l;
      assert keys[i] == k;
    }
  }

  lemma KeysOfSnoc(T: Table, own: seq<nat>, l: nat)
    requires Known(T, own) && l < |T|
    ensures Known(T, own + [l]) && KeysOf(T, own + [l]) == KeysOf(T, own) + [T[l].key]
  {
  }

  lemma {:induction false} DropLastKeys(T: Table, own: seq<nat>, l: nat)
    requires l in own && Known(T, own)
    ensures Known(T, DropLast(own, l))
    ensures multiset(KeysOf(T, DropLast(own, l))) == multiset(KeysOf(T, own)) - multiset{T[l].key}
  {
    var front, last := own[..|own| - 1], own[|own| - 1];
    assert own == front + [last];
    KeysOfSnoc(T, front, last);
    if last != l {
      DropLastKeys(T, front, l);
      KeysOfSnoc(T, DropLast(front, l), last);
      KeyIsOwned(T, front, l);
    }
  }

  lemma KeyIsOwned(T: Table, own: seq<nat>, l: nat)
    requires l in own && Known(T, own)
    ensures T[l].key in multiset(KeysOf(T, own))
  {
    var i :| 0 <= i < |own| && own[i] == l;
    assert KeysOf(T, own)[i] == T[l].key;
  }

  lemma TakeKeepsThread(T: Table, th: Thread, th': Thread)
    requires ThreadInv(T, th) && th.pc.Blocking?
    requires th' == th.(own := th.own + [th.pc.l], pc := Taken(th.pc.l))
    ensures ThreadInv(T, th')
  {
    var l := th.pc.l;
    assert KeysOf(T, th'.own) == KeysOf(T, th.own) + [T[l].key];
    forall m | m in th.own && T[m].key.level == T[l].key.level ensures T[m].key == T[l].key {
      HeldIsOwned(T, th, T[m].key);
      var i :| 0 <= i < |th.held| && th.held[i] == T[m].key;
      assert T[l].key in th.held;
      HeldIsOwned(T, th, T[l].key);
    }
  }

  lemma UnregisterKeepsThread(T: Table, th: Thread, th': Thread, l: nat)
    requires ThreadInv(T, th) && th.pc.Idle? && l < |T| && l in th.own
    requires th' == th.(held := DropLast(th.held, T[l].key), pc := Unregistered(l))
    ensures ThreadInv(T, th')
  {
    HeldIsOwned(T, th, T[l].key);
    DropLastMultiset(th.held, T[l].key);
    DropLastKeepsFirstsAscending(th.held, T[l].key);
  }

  lemma RegisterKeepsThread(T: Table, th: Thread, th': Thread)
    requires ThreadInv(T, th) && th.pc.Taken?
    requires th' == th.(held := th.held + [T[th.pc.l].key], pc := Idle)
    ensures ThreadInv(T, th')
  {
    AppendKeepsFirstsAscending(th.held, T[th.pc.l].key, T[th.pc.l].reentrant);
  }

  lemma ReleaseKeepsThread(T: Table, th: Thread, th': Thread)
    requires ThreadInv(T, th) && th.pc.Unregistered?
    requires th' == th.(own := DropLast(th.own, th.pc.l), pc := Idle)
    ensures ThreadInv(T, th')
  {
    DropLastKeys(T, th.own, th.pc.l);
    DropLastMembers(th.own, th.pc.l);
  }

  lemma StepKeepsThread(T: Table, s: State, step: Step)
    requires Enabled(T, s, step) && ThreadInv(T, s[step.t])
    ensures ThreadInv(T, Advance(T, s[step.t], step))
  {
    var th := s[step.t];
    match step
    case Check(_, _) =>
    case GiveUp(_) =>
    case Take(_) => TakeKeepsThread(T, th, Advance(T, th, step));
    case Register(_) => RegisterKeepsThread(T, th, Advance(T, th, step));
    case Unregister(_, l) => UnregisterKeepsThread(T, th, Advance(T, th, step), l);
    case Release(_) => ReleaseKeepsThread(T, th, Advance(T, th, step));
  }

  lemma StepKeepsExclusive(T: Table, s: State, step: Step)
    requires Enabled(T, s, step) && Exclusive(s)
    ensures Exclusive(Apply(T, s, step))
  {
    if step.Release? {
      DropLastMembers(s[step.t].own, s[step.t].pc.l);
    }
  }

  lemma {:induction false} RunKeepsInv(T: Table, s: State, steps: seq<Step>, s': State)
    requires Inv(T, s) && Leads(T, s, steps, s')
    ensures Inv(T, s') && |s'| == |s|
    decreases |steps|
  {
    if steps != [] {
      StepKeepsThread(T, s, steps[0]);
      StepKeepsExclusive(T, s, steps[0]);
      RunKeepsInv(T, Apply(T, s, steps[0]), steps[1..], s');
    }
  }

  /** Every reachable state satisfies the invariant, whatever keys the locks share. */
  lemma ReachableInv(T: Table, n: nat, s: State)
    requires Reachable(T, n, s)
    ensures Inv(T, s) && |s| == n
  {
    var steps :| Leads(T, Init(n), steps, s);
    RunKeepsInv(T, Init(n), steps, s);
  }

  // ---------------------------------------------------------------- safe tables cannot deadlock

  function Rank(lock: Lock): int {
    2 * lock.key.level + if lock.reentrant then 1 else 0
  }

  /** Following a wait to a thread that waits itself climbs in rank. */
  lemma WaitingClimbs(T: Table, s: State, t: nat, u: nat, v: nat)
    requires Inv(T, s) && SafeTable(T) && Waits(T, s, t, u) && Waits(T, s, u, v)
    ensures Rank(T[s[t].pc.l]) < Rank(T[s[u].pc.l])
  {
    var l, m := s[t].pc.l, s[u].pc.l;
    HeldIsOwned(T, s[u], T[l].key);
    if !AllBelow(s[u].held, T[m].key.level) {
      HeldIsOwned(T, s[u], T[m].key);
      var o :| o in s[u].own && T[o].key == T[m].key;
      assert o != m;
      assert SharesKey(T, m, o);
      if T[l].key.level == T[m].key.level {
        assert T[l].key == T[o].key;
        assert l != m;
        assert SharesKey(T, m, l);
      }
    }
  }

  lemma {:induction false} ChainClimbs(T: Table, s: State, c: seq<nat>, i: nat)
    requires Inv(T, s) && SafeTable(T) && WaitCycle(T, s, c) && i < |c|
    ensures IsBlocked(T, s, c[0]) && IsBlocked(T, s, c[i])
    ensures Rank(T[s[c[0]].pc.l]) + i <= Rank(T[s[c[i]].pc.l])
  {
    assert i == |c| - 1 || Waits(T, s, c[i], c[i + 1]);
    if i > 0 {
      ChainClimbs(T, s, c, i - 1);
      WaitingClimbs(T, s, c[i - 1], c[i], if i == |c| - 1 then c[0] else c[i + 1]);
    }
  }

  lemma SafeTablesNeverDeadlock(T: Table, n: nat, s: State, c: seq<nat>)
    requires SafeTable(T) && Reachable(T, n, s)
    ensures !WaitCycle(T, s, c)
  {
    ReachableInv(T, n, s);
    if WaitCycle(T, s, c) {
      var last := |c| - 1;
      ChainClimbs(T, s, c, last);
      WaitingClimbs(T, s, c[last], c[0], if last == 0 then c[0] else c[1]);
    }
  }

  /** `u` can move on without giving up an acquire. */
  ghost predicate CanMove(T: Table, s: State, u: nat) {
    exists step: Step :: step.t == u && !step.GiveUp? && Enabled(T, s, step)
  }

  predicate WaitPath(T: Table, s: State, p: seq<nat>) {
    p != [] && forall i | 0 <= i < |p| - 1 :: Waits(T, s, p[i], p[i + 1])
  }

  lemma NotWaitingCanTake(T: Table, s: State, u: nat)
    requires IsBlocked(T, s, u) && forall v | 0 <= v < |s| :: !Waits(T, s, u, v)
    ensures Enabled(T, s, Take(u))
  {
    forall v | 0 <= v < |s| && v != u ensures s[u].pc.l !in s[v].own {
      assert !Waits(T, s, u, v);
    }
    assert !Waits(T, s, u, u);
  }

  lemma UnblockedOwnerMoves(T: Table, s: State, u: nat, l: nat)
    requires Inv(T, s) && u < |s| && l in s[u].own
    requires forall v | 0 <= v < |s| :: !Waits(T, s, u, v)
    ensures CanMove(T, s, u)
  {
    match s[u].pc
    case Idle => assert Enabled(T, s, Unregister(u, l));
    case Blocking(m) =>
      NotWaitingCanTake(T, s, u);
    case Taken(_) => assert Enabled(T, s, Register(u));
    case Unregistered(_) => assert Enabled(T, s, Release(u));
  }

  function {:tailrecursion false} TopRank(T: Table): int
    ensures forall x | 0 <= x < |T| :: Rank(T[x]) <= TopRank(T)
  {
    if T == [] then 0
    else
      var rest := TopRank(T[..|T| - 1]);
      var r := Rank(T[|T| - 1]);
      if r > rest then r else rest
  }

  lemma PrependToPath(T: Table, s: State, t: nat, p: seq<nat>)
    requires WaitPath(T, s, p) && Waits(T, s, t, p[0])
    ensures WaitPath(T, s, [t] + p)
  {
    var q := [t] + p;
    forall i | 0 <= i < |q| - 1 ensures Waits(T, s, q[i], q[i + 1]) {
      if i > 0 { assert Waits(T, s, p[i - 1], p[i]); }
    }
  }

  /** Behind every blocked thread there is a finite chain of waits to a thread that can move. */
  lemma {:induction false} WaitChainsEnd(T: Table, s: State, t: nat, u: nat) returns (p: seq<nat>)
    requires Inv(T, s) && SafeTable(T) && Waits(T, s, t, u)
    ensures WaitPath(T, s, p) && p[0] == t && CanMove(T, s, p[|p| - 1])
    decreases TopRank(T) - Rank(T[s[t].pc.l])
  {
    if v :| 0 <= v < |s| && Waits(T, s, u, v) {
      WaitingClimbs(T, s, t, u, v);
      var rest := WaitChainsEnd(T, s, u, v);
      PrependToPath(T, s, t, rest);
      p := [t] + rest;
    } else {
      UnblockedOwnerMoves(T, s, u, s[t].pc.l);
      p := [t, u];
    }
  }

  /** No reachable state of a safe table is stuck. */
  lemma SafeTablesProgress(T: Table, n: nat, s: State, t: nat)
    requires SafeTable(T) && Reachable(T, n, s) && t < |s| && s[t].pc.Blocking?
    ensures exists p :: WaitPath(T, s, p) && p[0] == t && CanMove(T, s, p[|p| - 1])
  {
    ReachableInv(T, n, s);
    if u :| 0 <= u < |s| && Waits(T, s, t, u) {
      var p := WaitChainsEnd(T, s, t, u);
    } else {
      NotWaitingCanTake(T, s, t);
      assert WaitPath(T, s, [t]);
    }
  }

  // ---------------------------------------------------------------- unsafe tables do deadlock

  lemma {:induction false} LeadsAppend(T: Table, s: State, steps: seq<Step>, s': State, step: Step)
    requires Leads(T, s, steps, s') && Enabled(T, s', step)
    ensures Leads(T, s, steps + [step], Apply(T, s', step))
    decreases |steps|
  {
    if steps == [] {
      assert Leads(T, Apply(T, s, step), [], Apply(T, s, step));
    } else {
      LeadsAppend(T, Apply(T, s, steps[0]), steps[1..], s', step);
      assert (steps + [step])[1..] == steps[1..] + [step];
    }
  }

  lemma Extend(T: Table, n: nat, s: State, step: Step)
    requires Reachable(T, n, s) && Enabled(T, s, step)
    ensures Reachable(T, n, Apply(T, s, step))
  {
    var steps :| Leads(T, Init(n), steps, s);
    LeadsAppend(T, Init(n), steps, s, step);
  }

  lemma AcquireFree(T: Table, n: nat, s: State, t: nat, l: nat) returns (s': State)
    requires Reachable(T, n, s) && t < |s| && l < |T| && s[t].pc.Idle?
    requires Admits(s[t].held, T[l].key, T[l].reentrant) && Available(T, s, t, l)
    ensures s' == s[t := Thread(s[t].held + [T[l].key], s[t].own + [l], Idle)]
    ensures Reachable(T, n, s')
  {
    Extend(T, n, s, Check(t, l));
    var s1 := Apply(T, s, Check(t, l));
    assert Available(T, s1, t, l);
    Extend(T, n, s1, Take(t));
    var s2 := Apply(T, s1, Take(t));
    Extend(T, n, s2, Register(t));
    s' := Apply(T, s2, Register(t));
  }

  lemma StartBlocking(T: Table, n: nat, s: State, t: nat, l: nat) returns (s': State)
    requires Reachable(T, n, s) && t < |s| && l < |T| && s[t].pc.Idle?
    requires Admits(s[t].held, T[l].key, T[l].reentrant)
    ensures s' == s[t := s[t].(pc := Blocking(l))] && Reachable(T, n, s')
  {
    Extend(T, n, s, Check(t, l));
    s' := Apply(T, s, Check(t, l));
  }

  /** Two re-entrant locks with one key: each thread takes one and is let through to the other. */
  lemma TwoReentrantLocksDeadlock(T: Table, l: nat, m: nat) returns (s: State)
    requires SharesKey(T, l, m) && T[l].reentrant && T[m].reentrant
    ensures Reachable(T, 2, s) && WaitCycle(T, s, [0, 1])
  {
    assert Leads(T, Init(2), [], Init(2));
    s := AcquireFree(T, 2, Init(2), 0, l);
    s := AcquireFree(T, 2, s, 1, m);
    s := StartBlocking(T, 2, s, 0, m);
    s := StartBlocking(T, 2, s, 1, l);
    assert Waits(T, s, 0, 1) && Waits(T, s, 1, 0);
  }

  /** A re-entrant lock `l` named like `m`, below a third lock `x`: a thread holding `m` and `x`
      is let through to `l` although it holds a higher level. */
  lemma ShadowedLockDeadlocks(T: Table, l: nat, m: nat, x: nat) returns (s: State)
    requires SharesKey(T, l, m) && T[l].reentrant && x < |T| && T[l].key.level < T[x].key.level
    ensures Reachable(T, 2, s) && WaitCycle(T, s, [0, 1])
  {
    assert Leads(T, Init(2), [], Init(2));
    s := AcquireFree(T, 2, Init(2), 0, m);
    s := AcquireFree(T, 2, s, 0, x);
    s := AcquireFree(T, 2, s, 1, l);
    s := StartBlocking(T, 2, s, 0, l);
    s := StartBlocking(T, 2, s, 1, x);
    assert Waits(T, s, 0, 1) && Waits(T, s, 1, 0);
  }

  /** The hierarchy prevents deadlock exactly on the safe tables. */
  lemma DeadlockFreeIffSafe(T: Table)
    ensures DeadlockFree(T) <==> SafeTable(T)
  {
    if SafeTable(T) {
      forall n: nat, s: State, c: seq<nat> | Reachable(T, n, s) ensures !WaitCycle(T, s, c) {
        SafeTablesNeverDeadlock(T, n, s, c);
      }
    } else {
      var l: nat, m: nat :| SharesKey(T, l, m) && T[l].reentrant &&
                  !(!T[m].reentrant && Topmost(T, T[l].key.level));
      var s: State;
      if T[m].reentrant {
        s := TwoReentrantLocksDeadlock(T, l, m);
      } else {
        var x :| 0 <= x < |T| && T[l].key.level < T[x].key.level;
        s := ShadowedLockDeadlocks(T, l, m, x);
      }
    }
  }

  /** Unique keys, the convention the code base follows, are enough. */
  lemma UniqueKeysNeverDeadlock(T: Table)
    requires UniqueKeys(T)
    ensures DeadlockFree(T)
  {
    assert SafeTable(T);
    DeadlockFreeIffSafe(T);
  }
}

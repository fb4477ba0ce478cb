/**
 The per-thread list of held locks behind `TrackedLock`: registration appends, release pops the
 last matching entry, and the order check compares the requested level with everything held.
 */
module HeldLocks {

  /** What a thread records about a lock: its level in the hierarchy and its name. */
  datatype Key = Key(level: int, name: string)

  datatype CheckResult =
    | Allowed
    | Violation(currentLevel: int, requestedLevel: int, heldNames: seq<string>)

  /** The rule of the hierarchy: never request level N while holding a level >= N, except that a
      re-entrant lock may be requested again by a thread that already holds its key. */
  predicate Admits(held: seq<Key>, k: Key, reentrant: bool) {
    (reentrant && k in held) || AllBelow(held, k.level)
  }

  /** `s` without the last occurrence of `x`. */
  function DropLast<T(==)>(s: seq<T>, x: T): seq<T> {
    if s == [] then []
    else if s[|s| - 1] == x then s[..|s| - 1]
    else DropLast(s[..|s| - 1], x) + [s[|s| - 1]]
  }

  predicate AllBelow(held: seq<Key>, level: int) {
    forall i | 0 <= i < |held| :: held[i].level < level
  }

  /** Every key enters the list above everything that precedes it. */
  predicate FirstsAscend(held: seq<Key>) {
    held == [] ||
    var n := |held| - 1;
    FirstsAscend(held[..n]) && (held[n] in held[..n] || AllBelow(held[..n], held[n].level))
  }

  // ---------------------------------------------------------------- the list operations

  lemma {:induction false} DropLastSplits<T>(s: seq<T>, x: T) returns (p: nat)
    requires x in s
    ensures p < |s| && s[p] == x && x !in s[p + 1..]
    ensures DropLast(s, x) == s[..p] + s[p + 1..]
  {
    var n := |s| - 1;
    if s[n] == x {
      p := n;
    } else {
      p := DropLastSplits(s[..n], x);
      assert s[p + 1..] == s[..n][p + 1..] + [s[n]];
      assert s[..n][..p] == s[..p];
    }
  }

  lemma {:induction false} DropLastAbsent<T>(s: seq<T>, x: T)
    requires x !in s
    ensures DropLast(s, x) == s
  {
    if s != [] {
      DropLastAbsent(s[..|s| - 1], x);
    }
  }

  lemma DropLastMultiset<T>(s: seq<T>, x: T)
    requires x in s
    ensures multiset(DropLast(s, x)) == multiset(s) - multiset{x}
  {
    var p := DropLastSplits(s, x);
    assert s == s[..p] + [s[p]] + s[p + 1..];
  }

  /** First occurrences stand above all earlier entries. */
  lemma {:induction false} FirstsAscendPairwise(held: seq<Key>, i: nat, j: nat)
    requires FirstsAscend(held) && i < j < |held| && held[j] !in held[..j]
    ensures held[i].level < held[j].level
  {
    var n := |held| - 1;
    if j < n {
      assert held[..n][..j] == held[..j];
      FirstsAscendPairwise(held[..n], i, j);
    } else {
      assert held[..n][i] == held[i];
    }
  }

  lemma AppendKeepsFirstsAscending(held: seq<Key>, k: Key, reentrant: bool)
    requires FirstsAscend(held) && Admits(held, k, reentrant)
    ensures FirstsAscend(held + [k])
  {
    assert (held + [k])[..|held|] == held;
  }

  lemma {:induction false} DropLastMembers<T>(s: seq<T>, x: T)
    ensures forall y | y in DropLast(s, x) :: y in s
    ensures forall y | y in s && y != x :: y in DropLast(s, x)
  {
    if s != [] {
      var n := |s| - 1;
      DropLastMembers(s[..n], x);
      assert s == s[..n] + [s[n]];
    }
  }

  /** Releasing in any order keeps the first occurrences ascending, because the *last* occurrence
      of the key is the one that goes. */
  lemma {:induction false} DropLastKeepsFirstsAscending(held: seq<Key>, k: Key)
    requires FirstsAscend(held)
    ensures FirstsAscend(DropLast(held, k))
  {
    if held != [] && held[|held| - 1] != k {
      var n := |held| - 1;
      var shorter := DropLast(held[..n], k);
      DropLastKeepsFirstsAscending(held[..n], k);
      DropLastMembers(held[..n], k);
      assert (shorter + [held[n]])[..|shorter|] == shorter;
      forall i | 0 <= i < |shorter| ensures shorter[i] in held[..n] {
        assert shorter[i] in shorter;
      }
    }
  }

  /** Popping the *first* occurrence instead would lose the order: the held list A, B, A becomes
      B, A, whose second entry enters below the first. */
  lemma PoppingTheFirstOccurrenceBreaksOrder()
    ensures
      var a, b := Key(10, "a"), Key(20, "b");
      FirstsAscend([a, b, a]) && !FirstsAscend([b, a]) && DropLast([a, b, a], a) == [a, b]
  {
    var a, b := Key(10, "a"), Key(20, "b");
    AppendKeepsFirstsAscending([], a, true);
    assert [] + [a] == [a];
    AppendKeepsFirstsAscending([a], b, true);
    assert [a] + [b] == [a, b];
    AppendKeepsFirstsAscending([a, b], a, true);
    assert [a, b] + [a] == [a, b, a];
    assert [a, b, a][..2] == [a, b];
    assert [b, a][..1] == [b];
    assert a !in [b] && [b][0].level == 20;
  }

  // ---------------------------------------------------------------- one thread's bookkeeping

  /** The thread-local `held` list and the functions that work on it. */
  class ThreadLocks {
    var held: seq<Key>

    constructor ()
      ensures held == []
    {
      held := [];
    }

    /** The order check, with the refusal's report: the highest held level and the names of the
        held locks at or above the requested level. */
    method CheckOrder(k: Key, reentrant: bool) returns (r: CheckResult)
      ensures r.Allowed? <==> Admits(held, k, reentrant)
      ensures r.Violation? ==>
                && r.requestedLevel == k.level <= r.currentLevel
                && (exists i | 0 <= i < |held| :: held[i].level == r.currentLevel)
                && (forall i | 0 <= i < |held| :: held[i].level <= r.currentLevel)
                && r.heldNames == NamesAtOrAbove(held, k.level)
    {
      if held == [] {
        return Allowed;
      }
      if reentrant {
        for i := 0 to |held|
          invariant k !in held[..i]
        {
          if held[i] == k {
            return Allowed;
          }
        }
      }
      var top := held[0].level;
      var names: seq<string> := [];
      for i := 0 to |held|
        invariant exists j | 0 <= j < |held| :: held[j].level == top
        invariant forall j | 0 <= j < i :: held[j].level <= top
        invariant names == NamesAtOrAbove(held[..i], k.level)
      {
        assert held[..i + 1] == held[..i] + [held[i]];
        if top < held[i].level {
          top := held[i].level;
        }
        if held[i].level >= k.level {
          names := names + [held[i].name];
        }
      }
      assert held[..|held|] == held;
      if top >= k.level {
        return Violation(top, k.level, names);
      }
      return Allowed;
    }

    method Register(k: Key)
      modifies this
      ensures held == old(held) + [k]
    {
      held := held + [k];
    }

    method Unregister(k: Key)
      modifies this
      ensures held == DropLast(old(held), k)
    {
      var i := |held| - 1;
      assert held[..i + 1] == held;
      while i >= 0
        invariant -1 <= i < |held|
        invariant held == old(held)
        invariant DropLast(held, k) == DropLast(held[..i + 1], k) + held[i + 1..]
      {
        assert held[..i + 1][..i] == held[..i];
        if held[i] == k {
          held := held[..i] + held[i + 1..];
          return;
        }
        i := i - 1;
      }
    }

    /** `acquire` seen from its own thread; whether the real lock was obtained is up to the
        other threads and the timeout. */
    method Acquire(k: Key, reentrant: bool, obtained: bool) returns (r: CheckResult, acquired: bool)
      modifies this
      ensures r.Allowed? <==> Admits(old(held), k, reentrant)
      ensures acquired <==> r.Allowed? && obtained
      ensures held == if acquired then old(held) + [k] else old(held)
      ensures old(FirstsAscend(held)) ==> FirstsAscend(held)
    {
      r := CheckOrder(k, reentrant);
      acquired := r.Allowed? && obtained;
      if acquired {
        if FirstsAscend(held) { AppendKeepsFirstsAscending(held, k, reentrant); }
        Register(k);
      }
    }
  }

  function NamesAtOrAbove(held: seq<Key>, level: int): seq<string> {
    if held == [] then []
    else
      var last := held[|held| - 1];
      NamesAtOrAbove(held[..|held| - 1], level) + (if last.level >= level then [last.name] else [])
  }
}

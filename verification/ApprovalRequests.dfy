/**
 The approval aggregate: it starts pending, and its first transition is its last.
 */
module ApprovalRequests {
  import opened Options
  import G = ApprovalGate

  /** The fields that transitions assign. */
  datatype Decision = Decision(
    state: G.ApprovalState, decidedBy: Option<string>, decidedAt: Option<int>, reason: Option<string>)

  datatype Transition =
    | Approve(who: string, at: int)
    | Deny(who: string, reason: Option<string>, at: int)
    | Expire(at: int)

  const PENDING := Decision(G.Pending, None, None, None)

  /** What a transition makes of a pending request; any other is left as it is. */
  function After(d: Decision, t: Transition): Decision {
    if d.state != G.Pending then d
    else
      match t
      case Approve(who, at) => Decision(G.Approved, Some(who), Some(at), d.reason)
      case Deny(who, reason, at) => Decision(G.Denied, Some(who), Some(at), reason)
      case Expire(at) => d.(state := G.Expired, decidedAt := Some(at))
  }

  function AfterAll(d: Decision, ts: seq<Transition>): Decision {
    if ts == [] then d else After(AfterAll(d, ts[..|ts| - 1]), ts[|ts| - 1])
  }

  /** Whatever transitions are tried on a request, in whatever order, the first one decides. */
  lemma {:induction false} FirstTransitionDecides(ts: seq<Transition>)
    requires ts != []
    ensures AfterAll(PENDING, ts) == After(PENDING, ts[0])
    ensures G.IsTerminal(AfterAll(PENDING, ts).state)
  {
    if |ts| == 1 {
      assert ts[..0] == [] && AfterAll(PENDING, ts[..0]) == PENDING;
    } else {
      FirstTransitionDecides(ts[..|ts| - 1]);
    }
  }

  class ApprovalRequest {
    var state: G.ApprovalState
    var decidedBy: Option<string>
    var decidedAt: Option<int>
    var reason: Option<string>
    const expiresAt: int

    function Current(): Decision
      reads this
    {
      Decision(state, decidedBy, decidedAt, reason)
    }

    constructor (expiresAt: int)
      ensures Current() == PENDING && this.expiresAt == expiresAt
    {
      state, decidedBy, decidedAt, reason := G.Pending, None, None, None;
      this.expiresAt := expiresAt;
    }

    /** Raises on a request that is already terminal. */
    method Approve(who: string, now: int) returns (raised: bool)
      modifies this
      ensures raised <==> G.IsTerminal(old(state))
      ensures Current() == After(old(Current()), Transition.Approve(who, now))
    {
      raised := G.IsTerminal(state);
      if !raised {
        state, decidedBy, decidedAt := G.Approved, Some(who), Some(now);
      }
    }

    method Deny(who: string, why: Option<string>, now: int) returns (raised: bool)
      modifies this
      ensures raised <==> G.IsTerminal(old(state))
      ensures Current() == After(old(Current()), Transition.Deny(who, why, now))
    {
      raised := G.IsTerminal(state);
      if !raised {
        state, decidedBy, decidedAt, reason := G.Denied, Some(who), Some(now), why;
      }
    }

    /** Leaves a terminal request alone. */
    method Expire(now: int)
      modifies this
      ensures Current() == After(old(Current()), Transition.Expire(now))
    {
      if state != G.Pending {
        return;
      }
      state, decidedAt := G.Expired, Some(now);
    }
  }
}

/** `PauseController`: a pause is an epoch with its own resume channel, which `Resume` closes. */
module Pause {

  type Channel = nat

  /** Where one request stands in `wait`: not there yet, selecting on a channel, or let through. */
  datatype Pc = Arriving | Held(ch: Channel) | Through

  /** `closed` lists the channels in the order of their closing; `made` counts the channels made. */
  datatype State = State(paused: bool, resume: Channel, closed: seq<Channel>, made: nat, pcs: seq<Pc>)

  datatype Step =
    | DoPause
    | DoResume
    | Look(t: nat)
    | Wake(t: nat)
    | GiveUp(t: nat)

  /** A receive from a resume channel succeeds once the channel is closed; the hold timer may fire
      at any time. */
  predicate Enabled(s: State, e: Step) {
    match e
    case DoPause => true
    case DoResume => true
    case Look(t) => t < |s.pcs| && s.pcs[t].Arriving?
    case Wake(t) => t < |s.pcs| && s.pcs[t].Held? && s.pcs[t].ch in s.closed
    case GiveUp(t) => t < |s.pcs| && s.pcs[t].Held?
  }

  function Apply(s: State, e: Step): State
    requires Enabled(s, e)
  {
    match e
    case DoPause => if s.paused then s else s.(paused := true, resume := s.made, made := s.made + 1)
    case DoResume => if s.paused then s.(paused := false, closed := s.closed + [s.resume]) else s
    case Look(t) => s.(pcs := s.pcs[t := if s.paused then Held(s.resume) else Through])
    case Wake(t) => s.(pcs := s.pcs[t := Through])
    case GiveUp(t) => s.(pcs := s.pcs[t := Through])
  }

  predicate Init(s: State) {
    && !s.paused && s.resume == 0 && s.closed == [] && s.made == 1
    && forall t :: 0 <= t < |s.pcs| ==> s.pcs[t].Arriving?
  }

  ghost predicate IsRun(tr: seq<State>, sched: seq<Step>) {
    && |tr| == |sched| + 1
    && Init(tr[0])
    && forall i :: 0 <= i < |sched| ==> Enabled(tr[i], sched[i]) && tr[i + 1] == Apply(tr[i], sched[i])
  }

  /** A held request's channel is the current one of a paused controller, or has been closed. */
  ghost predicate Inv(s: State) {
    && s.resume < s.made
    && (forall i :: 0 <= i < |s.closed| ==> s.closed[i] < s.made)
    && (s.paused ==> s.resume !in s.closed)
    && (forall i, j :: 0 <= i < j < |s.closed| ==> s.closed[i] != s.closed[j])
    && (forall t :: 0 <= t < |s.pcs| && s.pcs[t].Held? ==>
          (s.paused && s.pcs[t].ch == s.resume) || s.pcs[t].ch in s.closed)
  }

  lemma StepKeepsInv(s: State, e: Step)
    requires Inv(s) && Enabled(s, e)
    ensures Inv(Apply(s, e))
  {
    if e.DoResume? && s.paused {
      assert forall ch :: ch in s.closed ==> ch in s.closed + [s.resume];
    }
  }

  /** No wakeup is lost and no channel is closed twice, in every run. */
  lemma {:induction false} RunKeepsInv(tr: seq<State>, sched: seq<Step>, n: nat)
    requires IsRun(tr, sched) && n < |tr|
    ensures Inv(tr[n])
  {
    if n > 0 {
      RunKeepsInv(tr, sched, n - 1);
      StepKeepsInv(tr[n - 1], sched[n - 1]);
    }
  }

  /** The last pause or resume among the first `n` steps is a pause. */
  predicate PausedBy(sched: seq<Step>, n: nat)
    requires n <= |sched|
  {
    n > 0 && (sched[n - 1].DoPause? || (!sched[n - 1].DoResume? && PausedBy(sched, n - 1)))
  }

  lemma {:induction false} PausedIffLastIsPause(tr: seq<State>, sched: seq<Step>, n: nat)
    requires IsRun(tr, sched) && n < |tr|
    ensures tr[n].paused <==> PausedBy(sched, n)
  {
    if n > 0 {
      PausedIffLastIsPause(tr, sched, n - 1);
    }
  }

  /** A request is held exactly when it arrives during a pause, and then on a channel that is still open;
      otherwise it goes straight through. */
  lemma HeldIffArrivesPaused(tr: seq<State>, sched: seq<Step>, i: nat, t: nat)
    requires IsRun(tr, sched) && i < |sched| && sched[i] == Look(t)
    ensures t < |tr[i + 1].pcs|
    ensures tr[i + 1].pcs[t].Held? <==> PausedBy(sched, i)
    ensures tr[i + 1].pcs[t].Through? <==> !PausedBy(sched, i)
    ensures tr[i + 1].pcs[t].Held? ==> tr[i + 1].pcs[t].ch !in tr[i + 1].closed
  {
    PausedIffLastIsPause(tr, sched, i);
    RunKeepsInv(tr, sched, i);
  }

  /** A held request that is woken, or whose hold runs out, is through for good. */
  lemma WaitEnds(tr: seq<State>, sched: seq<Step>, i: nat, n: nat, t: nat)
    requires IsRun(tr, sched) && i < n < |tr| && (sched[i] == Wake(t) || sched[i] == GiveUp(t))
    ensures t < |tr[n].pcs| && tr[n].pcs[t].Through?
  {
    ThroughStays(tr, sched, i + 1, n, t);
  }

  /** A request that is not through can go on, a held one at the latest when its hold runs out... */
  lemma NeverStuck(s: State, t: nat) returns (e: Step)
    requires t < |s.pcs| && !s.pcs[t].Through?
    ensures Enabled(s, e) && (e == Look(t) || e == GiveUp(t))
  {
    e := if s.pcs[t].Arriving? then Look(t) else GiveUp(t);
  }

  function Rank(pc: Pc): nat { if pc.Arriving? then 2 else if pc.Held? then 1 else 0 }

  /** ... and takes at most two steps. */
  lemma StepUsesRank(s: State, e: Step)
    requires Enabled(s, e) && !e.DoPause? && !e.DoResume?
    ensures e.t < |Apply(s, e).pcs| && Rank(Apply(s, e).pcs[e.t]) < Rank(s.pcs[e.t]) <= 2
  {}

  /** While the controller is not paused nobody waits: every held request can go. */
  lemma NobodyHeldWhileRunning(tr: seq<State>, sched: seq<Step>, n: nat, t: nat)
    requires IsRun(tr, sched) && n < |tr| && t < |tr[n].pcs| && tr[n].pcs[t].Held? && !tr[n].paused
    ensures Enabled(tr[n], Wake(t))
  {
    RunKeepsInv(tr, sched, n);
  }

  lemma {:induction false} ClosedStaysClosed(tr: seq<State>, sched: seq<Step>, i: nat, n: nat, ch: Channel)
    requires IsRun(tr, sched) && i <= n < |tr| && ch in tr[i].closed
    ensures ch in tr[n].closed
    decreases n
  {
    if i < n {
      ClosedStaysClosed(tr, sched, i, n - 1, ch);
    }
  }

  lemma {:induction false} HeldOnOneChannel(tr: seq<State>, sched: seq<Step>, i: nat, n: nat, t: nat)
    requires IsRun(tr, sched) && i <= n < |tr| && t < |tr[i].pcs| && tr[i].pcs[t].Held?
    ensures t < |tr[n].pcs| && (tr[n].pcs[t] == tr[i].pcs[t] || tr[n].pcs[t].Through?)
    decreases n
  {
    if i < n {
      HeldOnOneChannel(tr, sched, i, n - 1, t);
    }
  }

  /** A resume releases everyone held before it for good, even if the controller is paused again
      before they get to run. */
  lemma ResumeReleasesForGood(tr: seq<State>, sched: seq<Step>, i: nat, j: nat, n: nat, t: nat)
    requires IsRun(tr, sched) && i <= j < n < |tr| && sched[j].DoResume?
    requires t < |tr[i].pcs| && tr[i].pcs[t].Held?
    ensures t < |tr[n].pcs| && (tr[n].pcs[t].Through? || Enabled(tr[n], Wake(t)))
  {
    RunKeepsInv(tr, sched, j);
    HeldOnOneChannel(tr, sched, i, j, t);
    HeldOnOneChannel(tr, sched, i, n, t);
    if tr[n].pcs[t].Held? {
      HeldStaysBetween(tr, sched, i, j, n, t);
      assert tr[j + 1].pcs[t].ch in tr[j + 1].closed;
      ClosedStaysClosed(tr, sched, j + 1, n, tr[i].pcs[t].ch);
    }
  }

  lemma HeldStaysBetween(tr: seq<State>, sched: seq<Step>, i: nat, j: nat, n: nat, t: nat)
    requires IsRun(tr, sched) && i <= j < n < |tr| && t < |tr[i].pcs| && tr[i].pcs[t].Held?
    requires t < |tr[n].pcs| && tr[n].pcs[t].Held?
    ensures t < |tr[j].pcs| && tr[j].pcs[t] == tr[i].pcs[t] && t < |tr[j + 1].pcs| && tr[j + 1].pcs[t] == tr[i].pcs[t]
  {
    HeldOnOneChannel(tr, sched, i, j, t);
    HeldOnOneChannel(tr, sched, i, j + 1, t);
    if tr[j].pcs[t].Through? { ThroughStays(tr, sched, j, n, t); }
    if tr[j + 1].pcs[t].Through? { ThroughStays(tr, sched, j + 1, n, t); }
  }

  lemma {:induction false} ThroughStays(tr: seq<State>, sched: seq<Step>, i: nat, n: nat, t: nat)
    requires IsRun(tr, sched) && i <= n < |tr| && t < |tr[i].pcs| && tr[i].pcs[t].Through?
    ensures t < |tr[n].pcs| && tr[n].pcs[t].Through?
    decreases n
  {
    if i < n {
      ThroughStays(tr, sched, i, n - 1, t);
    }
  }

  /** The step that closed a channel: a resume of the pause that made it. */
  lemma {:induction false} ClosingStep(tr: seq<State>, sched: seq<Step>, i: nat, n: nat, ch: Channel) returns (j: nat)
    requires IsRun(tr, sched) && i <= n < |tr| && ch !in tr[i].closed && ch in tr[n].closed
    ensures i <= j < n && sched[j].DoResume? && tr[j].paused && tr[j].resume == ch
    decreases n
  {
    if ch in tr[n - 1].closed {
      j := ClosingStep(tr, sched, i, n - 1, ch);
    } else {
      j := n - 1;
    }
  }

  /** A request is woken only by a resume, after it was held, of the very pause that held it. */
  lemma WokenByOwnResume(tr: seq<State>, sched: seq<Step>, i: nat, n: nat, t: nat) returns (j: nat)
    requires IsRun(tr, sched) && i < n < |sched| && sched[i] == Look(t) && sched[n] == Wake(t)
    ensures i < j < n && sched[j].DoResume? && tr[i].paused && tr[j].paused && tr[j].resume == tr[i].resume
  {
    RunKeepsInv(tr, sched, i);
    if !tr[i].paused {
      ThroughStays(tr, sched, i + 1, n, t);
      assert false;
    }
    HeldOnOneChannel(tr, sched, i + 1, n, t);
    j := ClosingStep(tr, sched, i + 1, n, tr[i].resume);
  }

  // ----- the controller

  const DEFAULT_HOLD: int := 5_000_000_000

  class PauseController {
    const maxHold: int
    var paused: bool
    var resume: Channel
    var closed: seq<Channel>
    var made: nat
    var pcs: seq<Pc>

    function Snapshot(): State
      reads this
    {
      State(paused, resume, closed, made, pcs)
    }

    /** A hold of no time or less is replaced by five seconds. */
    constructor (maxHold: int, requests: nat)
      ensures Init(Snapshot()) && Inv(Snapshot()) && |pcs| == requests
      ensures this.maxHold == (if maxHold > 0 then maxHold else 5_000_000_000)
    {
      this.maxHold := if maxHold <= 0 then DEFAULT_HOLD else maxHold;
      paused, resume, closed, made, pcs := false, 0, [], 1, seq(requests, _ => Arriving);
    }

    method Pause()
      requires Inv(Snapshot())
      modifies this
      ensures Snapshot() == Apply(old(Snapshot()), DoPause) && Inv(Snapshot())
    {
      StepKeepsInv(Snapshot(), DoPause);
      if !paused {
        paused := true;
        resume, made := made, made + 1;
      }
    }

    method Resume()
      requires Inv(Snapshot())
      modifies this
      ensures Snapshot() == Apply(old(Snapshot()), DoResume) && Inv(Snapshot())
    {
      StepKeepsInv(Snapshot(), DoResume);
      if paused {
        paused := false;
        CloseResume();
      }
    }

    /** Closing a channel that is already closed would panic. */
    method CloseResume()
      requires resume !in closed
      modifies this`closed
      ensures closed == old(closed) + [resume]
    {
      closed := closed + [resume];
    }

    /** The locked part of `wait`. */
    method Enter(t: nat) returns (mustSelect: bool)
      requires Inv(Snapshot()) && Enabled(Snapshot(), Look(t))
      modifies this`pcs
      ensures Snapshot() == Apply(old(Snapshot()), Look(t)) && Inv(Snapshot())
      ensures mustSelect == paused
    {
      StepKeepsInv(Snapshot(), Look(t));
      mustSelect := paused;
      pcs := pcs[t := if paused then Held(resume) else Through];
    }
  }
}

/** The throttle middleware: a slot counter under a mutex and a bounded channel of queue tokens,
    shared by any number of requests whose atomic regions interleave. */
module Throttle {
  import opened Counting

  datatype Outcome = Served | Refused | Cancelled

  /** Where one request stands. `TimedOut` and `Abandoned` still hold their queue token. */
  datatype Pc =
    | Arriving
    | InHandler
    | Unslotted
    | Queued
    | TimedOut
    | Abandoned
    | Finished(outcome: Outcome)

  /** `active` is the slot counter, `queued` the number of tokens in the channel. */
  datatype State = State(active: int, queued: int, pcs: seq<Pc>)

  datatype Config = Config(maxConcurrent: int, queueSize: nat)

  datatype Step =
    | Acquire(t: nat)
    | Release(t: nat)
    | Offer(t: nat)
    | Expire(t: nat)
    | Cancel(t: nat)
    | Withdraw(t: nat)

  /** The channel operations may block: a receive needs a token in the channel. */
  predicate Enabled(s: State, e: Step) {
    e.t < |s.pcs| &&
    match e
    case Acquire(t) => s.pcs[t].Arriving?
    case Release(t) => s.pcs[t].InHandler?
    case Offer(t) => s.pcs[t].Unslotted?
    case Expire(t) => s.pcs[t].Queued?
    case Cancel(t) => s.pcs[t].Queued?
    case Withdraw(t) => (s.pcs[t].TimedOut? || s.pcs[t].Abandoned?) && s.queued > 0
  }

  function Apply(cfg: Config, s: State, e: Step): State
    requires Enabled(s, e)
  {
    match e
    case Acquire(t) =>
      if s.active < cfg.maxConcurrent then s.(active := s.active + 1, pcs := s.pcs[t := InHandler])
      else s.(pcs := s.pcs[t := Unslotted])
    case Release(t) => s.(active := s.active - 1, pcs := s.pcs[t := Finished(Served)])
    case Offer(t) =>
      if s.queued < cfg.queueSize then s.(queued := s.queued + 1, pcs := s.pcs[t := Queued])
      else s.(pcs := s.pcs[t := Finished(Refused)])
    case Expire(t) => s.(pcs := s.pcs[t := TimedOut])
    case Cancel(t) => s.(pcs := s.pcs[t := Abandoned])
    case Withdraw(t) =>
      s.(queued := s.queued - 1, pcs := s.pcs[t := Finished(if s.pcs[t].TimedOut? then Refused else Cancelled)])
  }

  predicate Init(s: State) {
    s.active == 0 && s.queued == 0 && forall t :: 0 <= t < |s.pcs| ==> s.pcs[t].Arriving?
  }

  ghost predicate IsRun(cfg: Config, tr: seq<State>, sched: seq<Step>) {
    && |tr| == |sched| + 1
    && Init(tr[0])
    && forall i :: 0 <= i < |sched| ==> Enabled(tr[i], sched[i]) && tr[i + 1] == Apply(cfg, tr[i], sched[i])
  }

  // ----- conservation

  predicate Inside(pc: Pc) { pc.InHandler? }

  predicate HoldsToken(pc: Pc) { pc.Queued? || pc.TimedOut? || pc.Abandoned? }

  ghost predicate Inv(cfg: Config, s: State) {
    && s.active == Count(s.pcs, Inside)
    && s.queued == Count(s.pcs, HoldsToken)
    && s.active <= Max(0, cfg.maxConcurrent)
    && s.queued <= cfg.queueSize
  }

  lemma StepKeepsInv(cfg: Config, s: State, e: Step)
    requires Inv(cfg, s) && Enabled(s, e)
    ensures Inv(cfg, Apply(cfg, s, e))
  {
    var pc := Apply(cfg, s, e).pcs[e.t];
    CountUpdate(s.pcs, e.t, pc, Inside);
    CountUpdate(s.pcs, e.t, pc, HoldsToken);
  }

  /** In every reachable state the slot counter is the number of requests inside the handler and
      within the limit, and the channel holds one token for each request that put one there. */
  lemma {:induction false} SlotsAndTokensAreConserved(cfg: Config, tr: seq<State>, sched: seq<Step>, n: nat)
    requires IsRun(cfg, tr, sched) && n < |tr|
    ensures Inv(cfg, tr[n]) && |tr[n].pcs| == |tr[0].pcs|
  {
    if n == 0 {
      CountNone(tr[0].pcs, Inside);
      CountNone(tr[0].pcs, HoldsToken);
    } else {
      SlotsAndTokensAreConserved(cfg, tr, sched, n - 1);
      StepKeepsInv(cfg, tr[n - 1], sched[n - 1]);
    }
  }

  /** The receive that returns a queue token never blocks. */
  lemma WithdrawNeverBlocks(cfg: Config, tr: seq<State>, sched: seq<Step>, n: nat, t: nat)
    requires IsRun(cfg, tr, sched) && n < |tr| && t < |tr[n].pcs|
    requires tr[n].pcs[t].TimedOut? || tr[n].pcs[t].Abandoned?
    ensures tr[n].queued > 0 && Enabled(tr[n], Withdraw(t))
  {
    SlotsAndTokensAreConserved(cfg, tr, sched, n);
    CountPositive(tr[n].pcs, HoldsToken, t);
  }

  /** When all requests have finished every slot is free and the channel is empty. */
  lemma QuiescentIsEmpty(cfg: Config, tr: seq<State>, sched: seq<Step>, n: nat)
    requires IsRun(cfg, tr, sched) && n < |tr|
    requires forall t :: 0 <= t < |tr[n].pcs| ==> tr[n].pcs[t].Finished?
    ensures tr[n].active == 0 && tr[n].queued == 0
  {
    SlotsAndTokensAreConserved(cfg, tr, sched, n);
    CountNone(tr[n].pcs, Inside);
    CountNone(tr[n].pcs, HoldsToken);
  }

  // ----- outcomes

  /** The request has this outcome, or nothing else can come of it any more. */
  predicate Fated(pc: Pc, o: Outcome) {
    pc == Finished(o) ||
    match o
    case Served => pc.InHandler?
    case Refused => pc.TimedOut?
    case Cancelled => pc.Abandoned?
  }

  lemma {:induction false} FateIsKept(cfg: Config, tr: seq<State>, sched: seq<Step>, i: nat, n: nat, t: nat, o: Outcome)
    requires IsRun(cfg, tr, sched) && i <= n < |tr| && t < |tr[i].pcs| && Fated(tr[i].pcs[t], o)
    ensures t < |tr[n].pcs| && Fated(tr[n].pcs[t], o)
    decreases n
  {
    if i < n {
      FateIsKept(cfg, tr, sched, i, n - 1, t, o);
    }
  }

  /** A finished request keeps its one outcome. */
  lemma {:induction false} OutcomeIsFinal(cfg: Config, tr: seq<State>, sched: seq<Step>, i: nat, n: nat, t: nat)
    requires IsRun(cfg, tr, sched) && i <= n < |tr| && t < |tr[i].pcs| && tr[i].pcs[t].Finished?
    ensures t < |tr[n].pcs| && tr[n].pcs[t] == tr[i].pcs[t]
    decreases n
  {
    if i < n {
      OutcomeIsFinal(cfg, tr, sched, i, n - 1, t);
    }
  }

  /** Every outcome has its cause: a slot on arrival, a full queue or the timer, or the client going away. */
  lemma OutcomeHasItsCause(cfg: Config, tr: seq<State>, sched: seq<Step>, i: nat, n: nat)
    requires IsRun(cfg, tr, sched) && i < n < |tr| && sched[i].t < |tr[n].pcs|
    ensures var pc := tr[n].pcs[sched[i].t];
            && (sched[i].Acquire? && tr[i].active < cfg.maxConcurrent ==> Fated(pc, Served))
            && (sched[i].Offer? && tr[i].queued >= cfg.queueSize ==> pc == Finished(Refused))
            && (sched[i].Expire? ==> Fated(pc, Refused))
            && (sched[i].Cancel? ==> Fated(pc, Cancelled))
  {
    var t := sched[i].t;
    match sched[i]
    case Acquire(_) => if tr[i].active < cfg.maxConcurrent { FateIsKept(cfg, tr, sched, i + 1, n, t, Served); }
    case Offer(_) => if tr[i].queued >= cfg.queueSize { OutcomeIsFinal(cfg, tr, sched, i + 1, n, t); }
    case Expire(_) => FateIsKept(cfg, tr, sched, i + 1, n, t, Refused);
    case Cancel(_) => FateIsKept(cfg, tr, sched, i + 1, n, t, Cancelled);
    case Release(_) =>
    case Withdraw(_) =>
  }

  /** A request is in the handler, and counted, from an arrival that finds fewer than the maximum there until
      its release. */
  lemma {:induction false} InHandlerUntilRelease(cfg: Config, tr: seq<State>, sched: seq<Step>, i: nat, n: nat, t: nat)
    requires IsRun(cfg, tr, sched) && i < n < |tr| && sched[i] == Acquire(t)
    requires forall j :: i < j < n ==> sched[j] != Release(t)
    ensures t < |tr[n].pcs|
    ensures tr[n].pcs[t].InHandler? <==> Count(tr[i].pcs, Inside) < cfg.maxConcurrent
    decreases n
  {
    SlotsAndTokensAreConserved(cfg, tr, sched, i);
    if i < n - 1 {
      InHandlerUntilRelease(cfg, tr, sched, i, n - 1, t);
      if Count(tr[i].pcs, Inside) >= cfg.maxConcurrent {
        TurnedAwayStaysAway(cfg, tr, sched, i + 1, n, t);
      }
    }
  }

  /** A queued request holds its token until it takes it back. */
  lemma {:induction false} TokenUntilWithdrawal(cfg: Config, tr: seq<State>, sched: seq<Step>, i: nat, n: nat, t: nat)
    requires IsRun(cfg, tr, sched) && i <= n < |tr| && t < |tr[i].pcs| && HoldsToken(tr[i].pcs[t])
    requires forall j :: i <= j < n ==> sched[j] != Withdraw(t)
    ensures t < |tr[n].pcs| && HoldsToken(tr[n].pcs[t])
    decreases n
  {
    if i < n {
      TokenUntilWithdrawal(cfg, tr, sched, i, n - 1, t);
    }
  }

  /** A request without a slot waits in the queue exactly when the channel has room for its token. */
  lemma QueuedIffRoom(cfg: Config, tr: seq<State>, sched: seq<Step>, i: nat, t: nat)
    requires IsRun(cfg, tr, sched) && i < |sched| && sched[i] == Offer(t)
    ensures t < |tr[i + 1].pcs| && (tr[i + 1].pcs[t].Queued? <==> Count(tr[i].pcs, HoldsToken) < cfg.queueSize)
  {
    SlotsAndTokensAreConserved(cfg, tr, sched, i);
  }

  /** A request that found no slot on arrival. */
  predicate NeverServed(pc: Pc) { pc.Unslotted? || HoldsToken(pc) || (pc.Finished? && !pc.outcome.Served?) }

  lemma {:induction false} TurnedAwayStaysAway(cfg: Config, tr: seq<State>, sched: seq<Step>, i: nat, n: nat, t: nat)
    requires IsRun(cfg, tr, sched) && i <= n < |tr| && t < |tr[i].pcs| && NeverServed(tr[i].pcs[t])
    ensures t < |tr[n].pcs| && NeverServed(tr[n].pcs[t])
    decreases n
  {
    if i < n {
      TurnedAwayStaysAway(cfg, tr, sched, i, n - 1, t);
    }
  }

  /** A request is served exactly when a slot was free on its arrival: one that is queued is never
      run, whatever slots come free meanwhile. */
  lemma ServedIffSlotOnArrival(cfg: Config, tr: seq<State>, sched: seq<Step>, i: nat, n: nat, t: nat)
    requires IsRun(cfg, tr, sched) && i < n < |tr| && sched[i] == Acquire(t)
    ensures t < |tr[n].pcs| && (Fated(tr[n].pcs[t], Served) <==> tr[i].active < cfg.maxConcurrent)
  {
    if tr[i].active < cfg.maxConcurrent {
      FateIsKept(cfg, tr, sched, i + 1, n, t, Served);
    } else {
      TurnedAwayStaysAway(cfg, tr, sched, i + 1, n, t);
    }
  }

  // ----- progress

  function Rank(pc: Pc): nat {
    match pc
    case Arriving => 4
    case InHandler => 1
    case Unslotted => 3
    case Queued => 2
    case TimedOut => 1
    case Abandoned => 1
    case Finished(_) => 0
  }

  /** The step a request that has not finished takes next. */
  function NextStep(pc: Pc, t: nat): Step {
    match pc
    case Arriving => Acquire(t)
    case InHandler => Release(t)
    case Unslotted => Offer(t)
    case Queued => Expire(t)
    case _ => Withdraw(t)
  }

  lemma StepUsesRank(cfg: Config, s: State, e: Step)
    requires Enabled(s, e)
    ensures Sum(Apply(cfg, s, e).pcs, Rank) < Sum(s.pcs, Rank)
  {
    SumUpdate(s.pcs, e.t, Apply(cfg, s, e).pcs[e.t], Rank);
  }

  lemma {:induction false} StepsUseRank(cfg: Config, tr: seq<State>, sched: seq<Step>, n: nat)
    requires IsRun(cfg, tr, sched) && n < |tr|
    ensures n + Sum(tr[n].pcs, Rank) <= Sum(tr[0].pcs, Rank)
  {
    if n > 0 {
      StepsUseRank(cfg, tr, sched, n - 1);
      StepUsesRank(cfg, tr[n - 1], sched[n - 1]);
    }
  }

  /** Every request takes at most four steps, and a state without a next step has all finished. */
  lemma RunsAreBounded(cfg: Config, tr: seq<State>, sched: seq<Step>)
    requires IsRun(cfg, tr, sched)
    ensures |sched| <= 4 * |tr[0].pcs|
    ensures (forall e :: !Enabled(tr[|sched|], e)) ==>
              forall t :: 0 <= t < |tr[|sched|].pcs| ==> tr[|sched|].pcs[t].Finished?
  {
    var last := tr[|sched|];
    StepsUseRank(cfg, tr, sched, |sched|);
    SumBound(tr[0].pcs, Rank, 4);
    forall t | 0 <= t < |last.pcs| && !last.pcs[t].Finished? ensures exists e :: Enabled(last, e) {
      if last.pcs[t].TimedOut? || last.pcs[t].Abandoned? {
        WithdrawNeverBlocks(cfg, tr, sched, |sched|, t);
      }
      assert Enabled(last, NextStep(last.pcs[t], t));
    }
  }

  // ----- the middleware's shared state

  class RequestThrottle {
    const cfg: Config
    var active: int
    var queued: int
    var pcs: seq<Pc>

    function Snapshot(): State
      reads this
    {
      State(active, queued, pcs)
    }

    constructor (maxConcurrent: int, queueSize: nat, requests: nat)
      ensures Init(Snapshot()) && |pcs| == requests && cfg == Config(maxConcurrent, queueSize)
      ensures Inv(cfg, Snapshot())
    {
      cfg := Config(maxConcurrent, queueSize);
      active, queued, pcs := 0, 0, seq(requests, _ => Arriving);
      new;
      CountNone(pcs, Inside);
      CountNone(pcs, HoldsToken);
    }

    /** Take a slot if one is free. */
    method TryAcquire(t: nat) returns (slot: bool)
      requires Enabled(Snapshot(), Acquire(t)) && Inv(cfg, Snapshot())
      modifies this
      ensures Snapshot() == Apply(cfg, old(Snapshot()), Acquire(t)) && Inv(cfg, Snapshot())
      ensures slot == (old(active) < cfg.maxConcurrent)
    {
      StepKeepsInv(cfg, Snapshot(), Acquire(t));
      slot := active < cfg.maxConcurrent;
      if slot {
        active := active + 1;
        pcs := pcs[t := InHandler];
      } else {
        pcs := pcs[t := Unslotted];
      }
    }

    /** The deferred release after the handler returns. */
    method Leave(t: nat)
      requires Enabled(Snapshot(), Release(t)) && Inv(cfg, Snapshot())
      modifies this
      ensures Snapshot() == Apply(cfg, old(Snapshot()), Release(t)) && Inv(cfg, Snapshot())
    {
      StepKeepsInv(cfg, Snapshot(), Release(t));
      active := active - 1;
      pcs := pcs[t := Finished(Served)];
    }

    /** The non-blocking send of a queue token. */
    method TryQueue(t: nat) returns (sent: bool)
      requires Enabled(Snapshot(), Offer(t)) && Inv(cfg, Snapshot())
      modifies this
      ensures Snapshot() == Apply(cfg, old(Snapshot()), Offer(t)) && Inv(cfg, Snapshot())
      ensures sent == (old(queued) < cfg.queueSize)
    {
      StepKeepsInv(cfg, Snapshot(), Offer(t));
      sent := queued < cfg.queueSize;
      if sent {
        queued := queued + 1;
        pcs := pcs[t := Queued];
      } else {
        pcs := pcs[t := Finished(Refused)];
      }
    }

    /** The wait in the queue ends, by the timer or by the client going away. */
    method StopWaiting(t: nat, byTimer: bool)
      requires Enabled(Snapshot(), if byTimer then Expire(t) else Cancel(t)) && Inv(cfg, Snapshot())
      modifies this
      ensures Snapshot() == Apply(cfg, old(Snapshot()), if byTimer then Expire(t) else Cancel(t))
      ensures Inv(cfg, Snapshot())
    {
      StepKeepsInv(cfg, Snapshot(), if byTimer then Expire(t) else Cancel(t));
      pcs := pcs[t := if byTimer then TimedOut else Abandoned];
    }

    /** Take a token back out of the channel; the invariant says there is one. */
    method Dequeue(t: nat)
      requires t < |pcs| && (pcs[t].TimedOut? || pcs[t].Abandoned?) && Inv(cfg, Snapshot())
      modifies this
      ensures old(Enabled(Snapshot(), Withdraw(t)))
      ensures Snapshot() == Apply(cfg, old(Snapshot()), Withdraw(t)) && Inv(cfg, Snapshot())
    {
      CountPositive(pcs, HoldsToken, t);
      StepKeepsInv(cfg, Snapshot(), Withdraw(t));
      queued := queued - 1;
      pcs := pcs[t := Finished(if pcs[t].TimedOut? then Refused else Cancelled)];
    }
  }
}

/** One request through the hedging middleware: the bypass for requests that are not to be hedged, and
    the handler's select loop, the serve goroutines it launches, the buffered done channel and the
    claim on the client's response, as interleaved atomic steps. */
module Hedging {
  import opened Counting

  type Bytes = seq<int>

  /** `hedged` is the answer of the hedge predicate for this request. */
  datatype Config = Config(maxHedges: nat, hedged: bool)

  /** The default maximum is 1, and an option below 1 is ignored. */
  predicate ValidConfig(cfg: Config) { cfg.maxHedges >= 1 }

  /** A serve runs the handler, forwards a write it has won, has its handler return, and sends. */
  datatype Phase = Running | Claimed(bytes: Bytes) | Returning | Sent

  datatype Serve = Serve(code: int, phase: Phase)

  /** What the client received from one forwarded `Write`: the status set before it and its bytes. */
  datatype Response = Response(serve: nat, code: int, bytes: Bytes)

  datatype Timer = Armed | Fired | Drained

  /** The handler runs `next` itself, or is in the select loop after `hedges` iterations; past the last
      one it only receives. */
  datatype Main = Direct | Selecting(hedges: nat) | Returned

  /** `statuses` are the calls of the client's `WriteHeader`, `client` those of its `Write`. */
  datatype State = State(main: Main, timer: Timer, done: int, serves: seq<Serve>, written: bool,
                         statuses: seq<int>, client: seq<Response>)

  datatype Step =
    | TimerFires
    | LaunchHedge
    | Receive
    | SetCode(k: nat, code: int)
    | Write(k: nat, bytes: Bytes)
    | Forward(k: nat)
    | Finish(k: nat)
    | Send(k: nat)

  const FRESH := Serve(0, Running)

  predicate InPhase(s: State, k: nat, p: Phase) { k < |s.serves| && s.serves[k].phase == p }

  predicate Enabled(cfg: Config, s: State, e: Step) {
    match e
    case TimerFires => cfg.hedged && s.timer.Armed?
    case LaunchHedge => s.main.Selecting? && s.main.hedges < cfg.maxHedges && s.timer.Fired?
    case Receive => s.main.Selecting? && s.done > 0
    case SetCode(k, _) => InPhase(s, k, Running)
    case Write(k, _) => InPhase(s, k, Running)
    case Forward(k) => k < |s.serves| && s.serves[k].phase.Claimed?
    case Finish(k) => InPhase(s, k, Running)
    case Send(k) => InPhase(s, k, Returning) && s.done < cfg.maxHedges + 1
  }

  function Move(s: State, k: nat, p: Phase): State
    requires k < |s.serves|
  {
    s.(serves := s.serves[k := s.serves[k].(phase := p)])
  }

  /** A status reaches the client's `WriteHeader` only if one was set. */
  function StatusCall(code: int): seq<int> { if code != 0 then [code] else [] }

  /** Without hedging the handler writes to the client's own writer, and its return is the end. */
  function Apply(cfg: Config, s: State, e: Step): State
    requires Enabled(cfg, s, e)
  {
    match e
    case TimerFires => s.(timer := Fired)
    case LaunchHedge => s.(main := Selecting(s.main.hedges + 1), timer := Drained, serves := s.serves + [FRESH])
    case Receive => s.(main := Returned, done := s.done - 1)
    case SetCode(k, code) =>
      var s' := s.(serves := s.serves[k := s.serves[k].(code := code)]);
      if cfg.hedged then s' else s'.(statuses := s.statuses + [code])
    case Write(k, bytes) =>
      if !cfg.hedged then s.(written := true, client := s.client + [Response(k, s.serves[k].code, bytes)])
      else if s.written then s
      else Move(s.(written := true), k, Claimed(bytes))
    case Forward(k) =>
      var v := s.serves[k];
      Move(s.(statuses := s.statuses + StatusCall(v.code), client := s.client + [Response(k, v.code, v.phase.bytes)]),
           k, Running)
    case Finish(k) => if cfg.hedged then Move(s, k, Returning) else Move(s.(main := Returned), k, Sent)
    case Send(k) => Move(s.(done := s.done + 1), k, Sent)
  }

  /** A bypassed request has no timer, channel or further serve; those fields keep their first values. */
  function Initial(cfg: Config): State {
    State(if cfg.hedged then Selecting(0) else Direct, Armed, 0, [FRESH], false, [], [])
  }

  ghost predicate IsRun(cfg: Config, tr: seq<State>, sched: seq<Step>) {
    && |tr| == |sched| + 1
    && tr[0] == Initial(cfg)
    && forall i :: 0 <= i < |sched| ==> Enabled(cfg, tr[i], sched[i]) && tr[i + 1] == Apply(cfg, tr[i], sched[i])
  }

  // ----- what every step keeps

  predicate HasSent(v: Serve) { v.phase.Sent? }

  predicate HasClaimed(v: Serve) { v.phase.Claimed? }

  /** The status calls that come with the forwarded writes. */
  function StatusCalls(client: seq<Response>): seq<int> { if client == [] then [] else StatusCall(client[0].code) }

  ghost predicate RaceInv(cfg: Config, s: State) {
    && !s.main.Direct?
    && |s.serves| == (if s.timer.Drained? then 2 else 1)
    && (s.timer.Drained? ==> cfg.maxHedges >= 1)
    && (s.main.Selecting? ==> s.main.hedges + 1 == |s.serves|)
    && 0 <= s.done
    && s.done + (if s.main.Returned? then 1 else 0) == Count(s.serves, HasSent)
    && |s.client| + Count(s.serves, HasClaimed) == (if s.written then 1 else 0)
    && s.statuses == StatusCalls(s.client)
  }

  ghost predicate BypassInv(s: State) {
    && !s.main.Selecting? && s.timer.Armed? && s.done == 0
    && |s.serves| == 1 && s.serves[0].phase == (if s.main.Direct? then Running else Sent)
  }

  ghost predicate Inv(cfg: Config, s: State) { if cfg.hedged then RaceInv(cfg, s) else BypassInv(s) }

  /** A serve changes only itself. */
  lemma ServeCounts(serves: seq<Serve>, k: nat, v: Serve)
    requires k < |serves|
    ensures var changed := serves[k := v];
            && Count(changed, HasSent)
               == Count(serves, HasSent) - (if HasSent(serves[k]) then 1 else 0) + (if HasSent(v) then 1 else 0)
            && Count(changed, HasClaimed)
               == Count(serves, HasClaimed)
                  - (if HasClaimed(serves[k]) then 1 else 0) + (if HasClaimed(v) then 1 else 0)
  {
    CountUpdate(serves, k, v, HasSent);
    CountUpdate(serves, k, v, HasClaimed);
  }

  lemma MainStepKeepsInv(cfg: Config, s: State, e: Step)
    requires cfg.hedged && RaceInv(cfg, s) && Enabled(cfg, s, e) && (e.TimerFires? || e.LaunchHedge? || e.Receive?)
    ensures RaceInv(cfg, Apply(cfg, s, e))
  {
    CountAppend(s.serves, FRESH, HasSent);
    CountAppend(s.serves, FRESH, HasClaimed);
  }

  lemma ClaimedCounts(s: State, k: nat)
    requires k < |s.serves| && s.serves[k].phase.Claimed?
    ensures Count(s.serves, HasClaimed) > 0
  {
    CountPositive(s.serves, HasClaimed, k);
  }

  lemma ServeStepKeepsInv(cfg: Config, s: State, e: Step)
    requires cfg.hedged && RaceInv(cfg, s) && Enabled(cfg, s, e) && !e.TimerFires? && !e.LaunchHedge? && !e.Receive?
    ensures RaceInv(cfg, Apply(cfg, s, e))
  {
    hide Count;
    ServeCounts(s.serves, e.k, Apply(cfg, s, e).serves[e.k]);
    if e.Forward? {
      ClaimedCounts(s, e.k);
    }
  }

  lemma StepKeepsInv(cfg: Config, s: State, e: Step)
    requires Inv(cfg, s) && Enabled(cfg, s, e)
    ensures Inv(cfg, Apply(cfg, s, e))
  {
    if cfg.hedged {
      hide RaceInv, Apply, Enabled;
      if e.TimerFires? || e.LaunchHedge? || e.Receive? {
        MainStepKeepsInv(cfg, s, e);
      } else {
        ServeStepKeepsInv(cfg, s, e);
      }
    }
  }

  lemma {:induction false} RunKeepsInv(cfg: Config, tr: seq<State>, sched: seq<Step>, n: nat)
    requires IsRun(cfg, tr, sched) && n < |tr|
    ensures Inv(cfg, tr[n])
  {
    if n == 0 {
      CountNone([FRESH], HasSent);
      CountNone([FRESH], HasClaimed);
    } else {
      hide Inv, Apply, Enabled;
      RunKeepsInv(cfg, tr, sched, n - 1);
      StepKeepsInv(cfg, tr[n - 1], sched[n - 1]);
    }
  }

  /** At most one hedge is ever launched, whatever the maximum, and a serve never blocks on its send,
      not even after the handler has returned. Without hedging there is one serve. */
  lemma ServesFitTheChannel(cfg: Config, tr: seq<State>, sched: seq<Step>, n: nat)
    requires IsRun(cfg, tr, sched) && n < |tr|
    ensures 1 <= |tr[n].serves| <= if cfg.hedged then Min(2, cfg.maxHedges + 1) else 1
    ensures forall k :: InPhase(tr[n], k, Returning) ==>
              tr[n].done < cfg.maxHedges + 1 && Enabled(cfg, tr[n], Send(k))
  {
    RunKeepsInv(cfg, tr, sched, n);
    var s := tr[n];
    forall k | InPhase(s, k, Returning) ensures s.done < cfg.maxHedges + 1 {
      NotAll(s.serves, k);
    }
  }

  lemma NotAll(serves: seq<Serve>, k: nat)
    requires k < |serves| && !serves[k].phase.Sent?
    ensures Count(serves, HasSent) < |serves|
  {}

  /** The handler returns only after some serve has finished. */
  lemma ReturnsAfterAServe(cfg: Config, tr: seq<State>, sched: seq<Step>, n: nat) returns (k: nat)
    requires IsRun(cfg, tr, sched) && n < |tr| && tr[n].main.Returned?
    ensures InPhase(tr[n], k, Sent)
  {
    RunKeepsInv(cfg, tr, sched, n);
    k := 0;
    if cfg.hedged {
      k := CountWitness(tr[n].serves, HasSent);
    }
  }

  /** Until the handler returns, it can receive or some serve can move on. */
  lemma NeverStuck(cfg: Config, tr: seq<State>, sched: seq<Step>, n: nat) returns (e: Step)
    requires IsRun(cfg, tr, sched) && n < |tr| && !tr[n].main.Returned?
    ensures Enabled(cfg, tr[n], e)
  {
    RunKeepsInv(cfg, tr, sched, n);
    ServesFitTheChannel(cfg, tr, sched, n);
    var s := tr[n];
    if s.serves[0].phase.Sent? {
      CountPositive(s.serves, HasSent, 0);
      e := Receive;
    } else {
      e := if s.serves[0].phase.Running? then Finish(0) else if s.serves[0].phase.Claimed? then Forward(0) else Send(0);
    }
  }

  // ----- what reaches the client of a hedged request

  lemma ClaimedBefore(cfg: Config, s: State, e: Step, k: nat)
    requires Enabled(cfg, s, e) && k < |Apply(cfg, s, e).serves| && Apply(cfg, s, e).serves[k].phase.Claimed?
    ensures k < |s.serves| && s.serves[k].code == Apply(cfg, s, e).serves[k].code
    ensures s.serves[k] == Apply(cfg, s, e).serves[k]
            || (e == Write(k, Apply(cfg, s, e).serves[k].phase.bytes) && !s.written)
  {}

  /** The write that won the claim of a serve that holds it. */
  lemma {:induction false} ClaimStep(cfg: Config, tr: seq<State>, sched: seq<Step>, n: nat, k: nat) returns (m: nat)
    requires IsRun(cfg, tr, sched) && n < |tr| && k < |tr[n].serves| && tr[n].serves[k].phase.Claimed?
    ensures m < n && sched[m] == Write(k, tr[n].serves[k].phase.bytes) && !tr[m].written
    ensures k < |tr[m].serves| && tr[m].serves[k].code == tr[n].serves[k].code
  {
    ClaimedBefore(cfg, tr[n - 1], sched[n - 1], k);
    if tr[n - 1].serves[k] == tr[n].serves[k] {
      m := ClaimStep(cfg, tr, sched, n - 1, k);
    } else {
      m := n - 1;
    }
  }

  /** The step that forwarded the client's response. */
  lemma {:induction false} ForwardStep(cfg: Config, tr: seq<State>, sched: seq<Step>, n: nat) returns (m: nat)
    requires cfg.hedged && IsRun(cfg, tr, sched) && n < |tr| && tr[n].client != []
    ensures m < n && sched[m] == Forward(tr[n].client[0].serve)
    ensures tr[m].serves[sched[m].k] == Serve(tr[n].client[0].code, Claimed(tr[n].client[0].bytes))
  {
    if tr[n - 1].client != [] {
      m := ForwardStep(cfg, tr, sched, n - 1);
    } else {
      m := n - 1;
    }
  }

  /** Some write was made in the first `n` steps. */
  predicate HasWrite(sched: seq<Step>, n: nat)
    requires n <= |sched|
  {
    exists i :: 0 <= i < n && sched[i].Write?
  }

  lemma {:induction false} WrittenIffWrite(cfg: Config, tr: seq<State>, sched: seq<Step>, n: nat)
    requires IsRun(cfg, tr, sched) && n < |tr|
    ensures tr[n].written <==> HasWrite(sched, n)
  {
    if n > 0 {
      WrittenIffWrite(cfg, tr, sched, n - 1);
    }
  }

  /** The status that serve `k` set last before step `n`, 0 if it set none. */
  function LastCode(sched: seq<Step>, n: nat, k: nat): int
    requires n <= |sched|
  {
    if n == 0 then 0
    else if sched[n - 1].SetCode? && sched[n - 1].k == k then sched[n - 1].code
    else LastCode(sched, n - 1, k)
  }

  function CodeOf(s: State, k: nat): int { if k < |s.serves| then s.serves[k].code else 0 }

  lemma CodeStep(cfg: Config, s: State, e: Step, k: nat)
    requires Enabled(cfg, s, e)
    ensures CodeOf(Apply(cfg, s, e), k) == if e.SetCode? && e.k == k then e.code else CodeOf(s, k)
  {}

  lemma {:induction false} CodeIsLastSet(cfg: Config, tr: seq<State>, sched: seq<Step>, n: nat, k: nat)
    requires IsRun(cfg, tr, sched) && n < |tr|
    ensures LastCode(sched, n, k) == CodeOf(tr[n], k)
  {
    if n > 0 {
      CodeIsLastSet(cfg, tr, sched, n - 1, k);
      CodeStep(cfg, tr[n - 1], sched[n - 1], k);
    }
  }

  /** At most one write reaches the client; it is the first write of any serve, with its bytes and
      the status that the same serve had last set by then. */
  lemma ClientGetsTheFirstWrite(cfg: Config, tr: seq<State>, sched: seq<Step>, n: nat) returns (m: nat)
    requires cfg.hedged && IsRun(cfg, tr, sched) && n < |tr|
    ensures |tr[n].client| <= 1
    ensures tr[n].client != [] ==>
              && m < n && sched[m] == Write(tr[n].client[0].serve, tr[n].client[0].bytes)
              && tr[n].client[0].code == LastCode(sched, m, sched[m].k)
              && !HasWrite(sched, m)
              && tr[n].statuses == if tr[n].client[0].code != 0 then [tr[n].client[0].code] else []
  {
    RunKeepsInv(cfg, tr, sched, n);
    m := 0;
    if tr[n].client != [] {
      var f := ForwardStep(cfg, tr, sched, n);
      m := ClaimStep(cfg, tr, sched, f, sched[f].k);
      CodeIsLastSet(cfg, tr, sched, m, sched[f].k);
      WrittenIffWrite(cfg, tr, sched, m);
    }
  }

  ghost predicate NobodyClaims(s: State) { forall k :: 0 <= k < |s.serves| ==> !s.serves[k].phase.Claimed? }

  /** The client has been written to exactly when some serve has written and none holds the claim, and it
      has been given a status only together with a body. */
  lemma ClientServedIff(cfg: Config, tr: seq<State>, sched: seq<Step>, n: nat)
    requires cfg.hedged && IsRun(cfg, tr, sched) && n < |tr|
    ensures tr[n].client != [] <==> HasWrite(sched, n) && NobodyClaims(tr[n])
    ensures tr[n].statuses != [] <==> tr[n].client != [] && tr[n].client[0].code != 0
  {
    RunKeepsInv(cfg, tr, sched, n);
    WrittenIffWrite(cfg, tr, sched, n);
    if NobodyClaims(tr[n]) {
      CountNone(tr[n].serves, HasClaimed);
    } else {
      var k :| 0 <= k < |tr[n].serves| && tr[n].serves[k].phase.Claimed?;
      CountPositive(tr[n].serves, HasClaimed, k);
    }
  }

  /** The winner's forwarding reaches the client with the status it had set, and its handler goes on. */
  lemma ForwardReachesClient(cfg: Config, tr: seq<State>, sched: seq<Step>, i: nat, k: nat)
    requires cfg.hedged && IsRun(cfg, tr, sched) && i < |sched| && sched[i] == Forward(k)
    ensures k < |tr[i].serves| && tr[i].serves[k].phase.Claimed?
    ensures tr[i + 1].client == [Response(k, LastCode(sched, i, k), tr[i].serves[k].phase.bytes)]
    ensures InPhase(tr[i + 1], k, Running)
  {
    RunKeepsInv(cfg, tr, sched, i);
    CodeIsLastSet(cfg, tr, sched, i, k);
    CountPositive(tr[i].serves, HasClaimed, k);
  }

  /** A single serve that has returned leaves no claim, so its write has reached the client. */
  lemma DeliveredWithoutHedge(cfg: Config, tr: seq<State>, sched: seq<Step>, n: nat)
    requires cfg.hedged && IsRun(cfg, tr, sched) && n < |tr| && tr[n].main.Returned? && |tr[n].serves| == 1
    ensures tr[n].client != [] <==> HasWrite(sched, n)
  {
    var k := ReturnsAfterAServe(cfg, tr, sched, n);
    ClientServedIff(cfg, tr, sched, n);
  }

  /** With a hedge that fails: for every maximum and all bytes there is a run in which the handler
      returns on the loser's completion while the winner has forwarded nothing. */
  lemma HedgeMayReturnEmptyHanded(cfg: Config, won: Bytes, lost: Bytes) returns (tr: seq<State>, sched: seq<Step>)
    requires ValidConfig(cfg) && cfg.hedged
    ensures IsRun(cfg, tr, sched) && tr[|sched|].main.Returned?
    ensures HasWrite(sched, |sched|) && Write(1, lost) in sched && tr[|sched|].client == []
  {
    sched := [TimerFires, LaunchHedge, Write(0, won), Write(1, lost), Finish(1), Send(1), Receive];
    var s1 := Apply(cfg, Initial(cfg), TimerFires);
    var s2 := Apply(cfg, s1, LaunchHedge);
    var s3 := Apply(cfg, s2, Write(0, won));
    var s4 := Apply(cfg, s3, Write(1, lost));
    var s5 := Apply(cfg, s4, Finish(1));
    var s6 := Apply(cfg, s5, Send(1));
    tr := [Initial(cfg), s1, s2, s3, s4, s5, s6, Apply(cfg, s6, Receive)];
    assert sched[3] == Write(1, lost);
  }

  /** A hedged handler that sets a status and writes no body leaves the client with nothing. */
  lemma StatusAloneIsLost(cfg: Config, code: int) returns (tr: seq<State>, sched: seq<Step>)
    requires cfg.hedged
    ensures IsRun(cfg, tr, sched) && tr[|sched|].main.Returned?
    ensures SetCode(0, code) in sched && tr[|sched|].statuses == [] && tr[|sched|].client == []
  {
    sched := [SetCode(0, code), Finish(0), Send(0), Receive];
    var s1 := Apply(cfg, Initial(cfg), SetCode(0, code));
    var s2 := Apply(cfg, s1, Finish(0));
    var s3 := Apply(cfg, s2, Send(0));
    tr := [Initial(cfg), s1, s2, s3, Apply(cfg, s3, Receive)];
    assert sched[0] == SetCode(0, code);
  }

  // ----- the bypass

  /** The statuses set in the first `n` steps, in order. */
  function StatusesSet(sched: seq<Step>, n: nat): seq<int>
    requires n <= |sched|
  {
    if n == 0 then []
    else StatusesSet(sched, n - 1) + (if sched[n - 1].SetCode? then [sched[n - 1].code] else [])
  }

  /** The writes made in the first `n` steps, in order, each under the status its serve had set. */
  function WritesMade(sched: seq<Step>, n: nat): seq<Response>
    requires n <= |sched|
  {
    if n == 0 then []
    else
      var e := sched[n - 1];
      WritesMade(sched, n - 1) + (if e.Write? then [Response(e.k, LastCode(sched, n - 1, e.k), e.bytes)] else [])
  }

  lemma BypassStep(cfg: Config, s: State, e: Step)
    requires !cfg.hedged && BypassInv(s) && Enabled(cfg, s, e)
    ensures Apply(cfg, s, e).statuses == s.statuses + (if e.SetCode? then [e.code] else [])
    ensures Apply(cfg, s, e).client
         == s.client + (if e.Write? then [Response(e.k, CodeOf(s, e.k), e.bytes)] else [])
  {}

  /** Without hedging every status and every write reaches the client, in order. */
  lemma {:induction false} BypassForwardsEverything(cfg: Config, tr: seq<State>, sched: seq<Step>, n: nat)
    requires !cfg.hedged && IsRun(cfg, tr, sched) && n < |tr|
    ensures tr[n].statuses == StatusesSet(sched, n) && tr[n].client == WritesMade(sched, n)
  {
    hide Apply, Enabled;
    if n > 0 {
      BypassForwardsEverything(cfg, tr, sched, n - 1);
      RunKeepsInv(cfg, tr, sched, n - 1);
      BypassStep(cfg, tr[n - 1], sched[n - 1]);
      if sched[n - 1].Write? {
        CodeIsLastSet(cfg, tr, sched, n - 1, sched[n - 1].k);
      }
    }
  }

  // ----- when delivery is guaranteed

  /** A client whose handler has written has received something by the return. */
  ghost predicate BodyDelivered(s: State, sched: seq<Step>, n: nat)
    requires n <= |sched|
  {
    s.main.Returned? && HasWrite(sched, n) ==> s.client != []
  }

  /** A client for whom a status was set has received one by the return. */
  ghost predicate StatusDelivered(s: State, sched: seq<Step>, n: nat)
    requires n <= |sched|
  {
    s.main.Returned? && StatusesSet(sched, n) != [] ==> s.statuses != []
  }

  lemma {:induction false} WriteIsMade(sched: seq<Step>, n: nat)
    requires n <= |sched|
    ensures HasWrite(sched, n) <==> WritesMade(sched, n) != []
  {
    hide LastCode;
    if n > 0 {
      WriteIsMade(sched, n - 1);
    }
  }

  lemma {:induction false} StatusIsSet(sched: seq<Step>, n: nat, i: nat)
    requires i < n <= |sched| && sched[i].SetCode?
    ensures StatusesSet(sched, n) != []
  {
    if i < n - 1 {
      StatusIsSet(sched, n - 1, i);
    }
  }

  /** What was written is guaranteed to have reached the client by the return exactly for requests that
      are not hedged. */
  lemma BodyDeliveredIffBypassed(cfg: Config)
    requires ValidConfig(cfg)
    ensures !cfg.hedged <==>
            forall tr: seq<State>, sched: seq<Step>, n: nat ::
              IsRun(cfg, tr, sched) && n < |tr| ==> BodyDelivered(tr[n], sched, n)
  {
    if cfg.hedged {
      var tr, sched := HedgeMayReturnEmptyHanded(cfg, [], []);
      assert !BodyDelivered(tr[|sched|], sched, |sched|);
    } else {
      forall tr: seq<State>, sched: seq<Step>, n: nat | IsRun(cfg, tr, sched) && n < |tr|
        ensures BodyDelivered(tr[n], sched, n)
      {
        BypassForwardsEverything(cfg, tr, sched, n);
        WriteIsMade(sched, n);
      }
    }
  }

  /** And so is a status. */
  lemma StatusDeliveredIffBypassed(cfg: Config)
    ensures !cfg.hedged <==>
            forall tr: seq<State>, sched: seq<Step>, n: nat ::
              IsRun(cfg, tr, sched) && n < |tr| ==> StatusDelivered(tr[n], sched, n)
  {
    if cfg.hedged {
      var tr, sched := StatusAloneIsLost(cfg, 200);
      var i :| 0 <= i < |sched| && sched[i] == SetCode(0, 200);
      StatusIsSet(sched, |sched|, i);
      assert !StatusDelivered(tr[|sched|], sched, |sched|);
    } else {
      forall tr: seq<State>, sched: seq<Step>, n: nat | IsRun(cfg, tr, sched) && n < |tr|
        ensures StatusDelivered(tr[n], sched, n)
      {
        BypassForwardsEverything(cfg, tr, sched, n);
      }
    }
  }

  // ----- the shared objects

  /** What the options for the maximum leave configured: the last positive one, or 1. */
  function Configured(options: seq<int>): (n: nat)
    ensures n >= 1
    ensures (n == 1 && forall i :: 0 <= i < |options| ==> options[i] <= 0)
            || exists i :: 0 <= i < |options| && options[i] == n && forall j :: i < j < |options| ==> options[j] <= 0
  {
    if options == [] then 1
    else
      var n := options[|options| - 1];
      if n > 0 then n else Configured(options[..|options| - 1])
  }

  class HedgedRequest {
    const cfg: Config
    var main: Main
    var timer: Timer
    var done: int
    var serves: seq<Serve>
    var written: bool
    var statuses: seq<int>
    var client: seq<Response>

    function Snapshot(): State
      reads this
    {
      State(main, timer, done, serves, written, statuses, client)
    }

    /** The options are applied in order when the middleware is built. */
    constructor (options: seq<int>, hedged: bool)
      ensures cfg == Config(Configured(options), hedged) && ValidConfig(cfg)
      ensures Snapshot() == Initial(cfg) && Inv(cfg, Snapshot())
    {
      var maxHedges := 1;
      for i := 0 to |options|
        invariant maxHedges == Configured(options[..i])
      {
        assert options[..i + 1][..i] == options[..i];
        if options[i] > 0 {
          maxHedges := options[i];
        }
      }
      assert options[..|options|] == options;
      cfg := Config(maxHedges, hedged);
      main := if hedged then Selecting(0) else Direct;
      timer, done, serves, written, statuses, client := Armed, 0, [FRESH], false, [], [];
    }

    /** The claim of the shared writer: only the first caller wins. */
    method Claim() returns (won: bool)
      modifies this`written
      ensures won == !old(written) && written
    {
      if written {
        return false;
      }
      written := true;
      return true;
    }

    /** A hedged serve keeps its status to itself. */
    method SetStatus(k: nat, code: int)
      requires cfg.hedged && Enabled(cfg, Snapshot(), SetCode(k, code))
      modifies this`serves
      ensures Snapshot() == Apply(cfg, old(Snapshot()), SetCode(k, code))
    {
      serves := serves[k := serves[k].(code := code)];
    }

    /** A hedged serve's `Write`, up to the forwarding. */
    method WriteBytes(k: nat, bytes: Bytes)
      requires cfg.hedged && Enabled(cfg, Snapshot(), Write(k, bytes))
      modifies this
      ensures Snapshot() == Apply(cfg, old(Snapshot()), Write(k, bytes))
    {
      var won := Claim();
      if won {
        serves := serves[k := serves[k].(phase := Claimed(bytes))];
      }
    }

    /** The winner forwards its status, if it set one, and its bytes. */
    method ForwardToClient(k: nat)
      requires Enabled(cfg, Snapshot(), Forward(k))
      modifies this
      ensures Snapshot() == Apply(cfg, old(Snapshot()), Forward(k))
    {
      if serves[k].code != 0 {
        statuses := statuses + [serves[k].code];
      }
      client := client + [Response(k, serves[k].code, serves[k].phase.bytes)];
      serves := serves[k := serves[k].(phase := Running)];
    }

    /** A serve whose handler has returned announces it; the invariant leaves room in the channel. */
    method Announce(k: nat)
      requires Inv(cfg, Snapshot()) && InPhase(Snapshot(), k, Returning)
      modifies this
      ensures old(Enabled(cfg, Snapshot(), Send(k)))
      ensures Snapshot() == Apply(cfg, old(Snapshot()), Send(k)) && Inv(cfg, Snapshot())
    {
      NotAll(serves, k);
      StepKeepsInv(cfg, Snapshot(), Send(k));
      done := done + 1;
      serves := serves[k := serves[k].(phase := Sent)];
    }

    /** The select loop, or the receive after it, gets a completion. */
    method ReceiveDone()
      requires Inv(cfg, Snapshot()) && Enabled(cfg, Snapshot(), Receive)
      modifies this
      ensures Snapshot() == Apply(cfg, old(Snapshot()), Receive) && Inv(cfg, Snapshot())
    {
      StepKeepsInv(cfg, Snapshot(), Receive);
      done, main := done - 1, Returned;
    }

    /** The select loop gets the timer and launches a hedge; nothing re-arms the timer. */
    method Hedge()
      requires Inv(cfg, Snapshot()) && Enabled(cfg, Snapshot(), LaunchHedge)
      modifies this
      ensures Snapshot() == Apply(cfg, old(Snapshot()), LaunchHedge) && Inv(cfg, Snapshot())
    {
      StepKeepsInv(cfg, Snapshot(), LaunchHedge);
      timer, serves, main := Drained, serves + [FRESH], Selecting(main.hedges + 1);
    }
  }
}

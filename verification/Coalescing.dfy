/** The single-flight protocol of `CoalescingGroup.Do`: any number of calls whose mutex-protected
    regions, channel-like waits and memory accesses interleave one atomic step at a time. */
module Coalescing {
  import opened Counting

  type Key = string

  datatype Error = NoError | Failed(message: string)

  /** What `fn` returns. */
  datatype Outcome = Outcome(val: int, err: Error)

  /** A `call` record. `done` is the wait group; `key` and `leader` record who created it. */
  datatype Call = Call(key: Key, leader: nat, result: Outcome, done: bool)

  /** Where one invocation of `Do` stands. */
  datatype Pc =
    | Calling(key: Key)
    | Leading(key: Key, call: nat)
    | Stored(key: Key, call: nat)
    | Signalled(key: Key, call: nat)
    | Unlinked(key: Key, call: nat)
    | Waiting(key: Key, call: nat)
    | Woken(key: Key, call: nat)
    | Returned(key: Key, call: nat, out: Outcome, shared: bool)

  datatype State = State(inflight: map<Key, nat>, calls: seq<Call>, pcs: seq<Pc>)

  datatype Step =
    | Enter(t: nat)
    | FnReturns(t: nat, out: Outcome)
    | Signal(t: nat)
    | Unlink(t: nat)
    | Wake(t: nat)
    | Return(t: nat)

  predicate Enabled(s: State, e: Step) {
    e.t < |s.pcs| &&
    match e
    case Enter(t) => s.pcs[t].Calling?
    case FnReturns(t, _) => s.pcs[t].Leading? && s.pcs[t].call < |s.calls|
    case Signal(t) => s.pcs[t].Stored? && s.pcs[t].call < |s.calls|
    case Unlink(t) => s.pcs[t].Signalled?
    case Wake(t) => s.pcs[t].Waiting? && s.pcs[t].call < |s.calls| && s.calls[s.pcs[t].call].done
    case Return(t) => (s.pcs[t].Unlinked? || s.pcs[t].Woken?) && s.pcs[t].call < |s.calls|
  }

  function Apply(s: State, e: Step): State
    requires Enabled(s, e)
  {
    var pc := s.pcs[e.t];
    match e
    case Enter(t) =>
      if pc.key in s.inflight then
        s.(pcs := s.pcs[t := Waiting(pc.key, s.inflight[pc.key])])
      else
        State(s.inflight[pc.key := |s.calls|],
              s.calls + [Call(pc.key, t, Outcome(0, NoError), false)],
              s.pcs[t := Leading(pc.key, |s.calls|)])
    case FnReturns(t, out) =>
      s.(calls := s.calls[pc.call := s.calls[pc.call].(result := out)], pcs := s.pcs[t := Stored(pc.key, pc.call)])
    case Signal(t) =>
      s.(calls := s.calls[pc.call := s.calls[pc.call].(done := true)], pcs := s.pcs[t := Signalled(pc.key, pc.call)])
    case Unlink(t) =>
      s.(inflight := s.inflight - {pc.key}, pcs := s.pcs[t := Unlinked(pc.key, pc.call)])
    case Wake(t) =>
      s.(pcs := s.pcs[t := Woken(pc.key, pc.call)])
    case Return(t) =>
      s.(pcs := s.pcs[t := Returned(pc.key, pc.call, s.calls[pc.call].result, pc.Woken?)])
  }

  predicate Init(s: State) {
    s.inflight == map[] && s.calls == [] && forall t :: 0 <= t < |s.pcs| ==> s.pcs[t].Calling?
  }

  /** A run: the states `tr` visited under the interleaving `sched`. */
  ghost predicate IsRun(tr: seq<State>, sched: seq<Step>) {
    && |tr| == |sched| + 1
    && Init(tr[0])
    && forall i :: 0 <= i < |sched| ==> Enabled(tr[i], sched[i]) && tr[i + 1] == Apply(tr[i], sched[i])
  }

  // ----- what every step keeps

  /** A leader between inserting its call and deleting it. */
  predicate Linked(pc: Pc) { pc.Leading? || pc.Stored? || pc.Signalled? }

  predicate IsLeader(pc: Pc) { Linked(pc) || pc.Unlinked? || (pc.Returned? && !pc.shared) }

  predicate IsFollower(pc: Pc) { pc.Waiting? || pc.Woken? || (pc.Returned? && pc.shared) }

  /** The map entry of a key is the call of a leader that has not deleted it. */
  ghost predicate EntryOk(s: State, k: Key)
    requires k in s.inflight
  {
    var c := s.inflight[k];
    c < |s.calls| && s.calls[c].leader < |s.pcs| &&
    Linked(s.pcs[s.calls[c].leader]) && s.pcs[s.calls[c].leader].key == k && s.pcs[s.calls[c].leader].call == c
  }

  ghost predicate CallOk(s: State, c: nat)
    requires c < |s.calls|
  {
    var r := s.calls[c];
    r.leader < |s.pcs| && IsLeader(s.pcs[r.leader]) && s.pcs[r.leader].call == c && s.pcs[r.leader].key == r.key &&
    (r.done <==> !(s.pcs[r.leader].Leading? || s.pcs[r.leader].Stored?))
  }

  ghost predicate ThreadOk(s: State, t: nat)
    requires t < |s.pcs|
  {
    var pc := s.pcs[t];
    !pc.Calling? ==>
      && pc.call < |s.calls| && s.calls[pc.call].key == pc.key
      && (IsLeader(pc) ==> s.calls[pc.call].leader == t)
      && (Linked(pc) ==> pc.key in s.inflight && s.inflight[pc.key] == pc.call)
      && (pc.Woken? || pc.Returned? ==> s.calls[pc.call].done)
      && (pc.Returned? ==> pc.out == s.calls[pc.call].result)
  }

  ghost predicate Inv(s: State) {
    && (forall k :: k in s.inflight ==> EntryOk(s, k))
    && (forall c :: 0 <= c < |s.calls| ==> CallOk(s, c))
    && (forall t :: 0 <= t < |s.pcs| ==> ThreadOk(s, t))
  }

  lemma StepKeepsEntry(s: State, e: Step, k: Key)
    requires Inv(s) && Enabled(s, e) && k in Apply(s, e).inflight
    ensures EntryOk(Apply(s, e), k)
  {
    assert ThreadOk(s, e.t);
    if k in s.inflight {
      assert EntryOk(s, k);
      assert CallOk(s, s.inflight[k]);
    }
  }

  lemma StepKeepsCall(s: State, e: Step, c: nat)
    requires Inv(s) && Enabled(s, e) && c < |Apply(s, e).calls|
    ensures CallOk(Apply(s, e), c)
  {
    assert ThreadOk(s, e.t);
    if c < |s.calls| {
      assert CallOk(s, c);
    }
  }

  lemma StepKeepsOwnThread(s: State, e: Step)
    requires Inv(s) && Enabled(s, e)
    ensures ThreadOk(Apply(s, e), e.t)
  {
    assert ThreadOk(s, e.t);
    if !e.Enter? {
      assert CallOk(s, s.pcs[e.t].call);
    } else if s.pcs[e.t].key in s.inflight {
      assert EntryOk(s, s.pcs[e.t].key) && CallOk(s, s.inflight[s.pcs[e.t].key]);
    }
  }

  lemma StepKeepsOtherThread(s: State, e: Step, t: nat)
    requires Inv(s) && Enabled(s, e) && t < |s.pcs| && t != e.t
    ensures ThreadOk(Apply(s, e), t)
  {
    assert ThreadOk(s, t) && ThreadOk(s, e.t);
    if !s.pcs[t].Calling? {
      assert CallOk(s, s.pcs[t].call);
    }
  }

  lemma StepKeepsInv(s: State, e: Step)
    requires Inv(s) && Enabled(s, e)
    ensures Inv(Apply(s, e)) && |Apply(s, e).pcs| == |s.pcs|
  {
    forall k | k in Apply(s, e).inflight ensures EntryOk(Apply(s, e), k) { StepKeepsEntry(s, e, k); }
    forall c | 0 <= c < |Apply(s, e).calls| ensures CallOk(Apply(s, e), c) { StepKeepsCall(s, e, c); }
    forall t | 0 <= t < |s.pcs| ensures ThreadOk(Apply(s, e), t) {
      if t == e.t { StepKeepsOwnThread(s, e); } else { StepKeepsOtherThread(s, e, t); }
    }
  }

  lemma {:induction false} RunKeepsInv(tr: seq<State>, sched: seq<Step>, n: nat)
    requires IsRun(tr, sched) && n < |tr|
    ensures Inv(tr[n]) && |tr[n].pcs| == |tr[0].pcs|
  {
    if n > 0 {
      RunKeepsInv(tr, sched, n - 1);
      StepKeepsInv(tr[n - 1], sched[n - 1]);
    }
  }

  /** Mutual exclusion: in every reachable state a key has at most one leader between insertion and
      deletion, and the entry of the map is that leader's call. */
  lemma OneLeaderPerKey(tr: seq<State>, sched: seq<Step>, n: nat, t: nat, u: nat)
    requires IsRun(tr, sched) && n < |tr| && t < |tr[n].pcs| && u < |tr[n].pcs|
    requires Linked(tr[n].pcs[t])
    ensures tr[n].pcs[t].key in tr[n].inflight && tr[n].inflight[tr[n].pcs[t].key] == tr[n].pcs[t].call
    ensures Linked(tr[n].pcs[u]) && tr[n].pcs[u].key == tr[n].pcs[t].key ==> u == t
  {
    RunKeepsInv(tr, sched, n);
    assert ThreadOk(tr[n], t) && ThreadOk(tr[n], u);
  }

  /** A delete removes the deleting leader's own entry and no other, and leaves its key without a leader. */
  lemma DeleteIsOwn(tr: seq<State>, sched: seq<Step>, n: nat, u: nat)
    requires IsRun(tr, sched) && n < |sched| && sched[n].Unlink? && u < |tr[n + 1].pcs|
    ensures tr[n].inflight == tr[n + 1].inflight[tr[n].pcs[sched[n].t].key := tr[n].pcs[sched[n].t].call]
    ensures Linked(tr[n + 1].pcs[u]) ==> tr[n + 1].pcs[u].key != tr[n].pcs[sched[n].t].key
    ensures tr[n].pcs[sched[n].t].call < |tr[n].calls| && tr[n].calls[tr[n].pcs[sched[n].t].call].done
  {
    RunKeepsInv(tr, sched, n);
    RunKeepsInv(tr, sched, n + 1);
    assert ThreadOk(tr[n], sched[n].t) && ThreadOk(tr[n + 1], u);
    assert CallOk(tr[n], tr[n].pcs[sched[n].t].call);
  }

  // ----- what a follower returns

  /** Call `t` follows the call of `leader` for `key`. */
  ghost predicate Follows(s: State, t: nat, leader: nat, key: Key) {
    t < |s.pcs| && IsFollower(s.pcs[t]) && s.pcs[t].key == key &&
    s.pcs[t].call < |s.calls| && s.calls[s.pcs[t].call].leader == leader
  }

  /** `leader` has an entry for `key` in the map. */
  ghost predicate Leads(s: State, leader: nat, key: Key) {
    leader < |s.pcs| && Linked(s.pcs[leader]) && s.pcs[leader].key == key
  }

  lemma FollowerStep(s: State, e: Step, t: nat, leader: nat, key: Key)
    requires Inv(s) && Enabled(s, e) && Follows(Apply(s, e), t, leader, key)
    ensures Follows(s, t, leader, key) || (e == Enter(t) && Leads(s, leader, key))
  {
    assert ThreadOk(s, t) && ThreadOk(s, e.t);
    if IsFollower(s.pcs[t]) {
      assert CallOk(s, s.pcs[t].call);
    } else {
      assert EntryOk(s, s.pcs[t].key);
    }
  }

  /** The step at which a follower joined: its leader's entry was in the map. */
  lemma {:induction false} JoinStep(tr: seq<State>, sched: seq<Step>, n: nat, t: nat, leader: nat, key: Key)
    returns (j: nat)
    requires IsRun(tr, sched) && n < |tr| && Follows(tr[n], t, leader, key)
    ensures j < n && sched[j] == Enter(t) && Leads(tr[j], leader, key)
  {
    RunKeepsInv(tr, sched, n - 1);
    FollowerStep(tr[n - 1], sched[n - 1], t, leader, key);
    j := n - 1;
    if Follows(tr[n - 1], t, leader, key) {
      j := JoinStep(tr, sched, n - 1, t, leader, key);
    }
  }

  lemma ResultStep(s: State, e: Step, c: nat)
    requires Inv(s) && Enabled(s, e) && c < |Apply(s, e).calls|
    ensures var r := Apply(s, e).calls[c];
            && r.leader < |s.pcs|
            && (!Apply(s, e).pcs[r.leader].Leading? ==>
                  && c < |s.calls| && s.calls[c].leader == r.leader
                  && if s.pcs[r.leader].Leading? then e == FnReturns(r.leader, r.result)
                     else s.calls[c].result == r.result)
  {
    assert ThreadOk(s, e.t);
    if c < |s.calls| {
      assert CallOk(s, c);
    }
  }

  /** The step at which the call's `fn` produced the result the call record now holds. */
  lemma {:induction false} FnStep(tr: seq<State>, sched: seq<Step>, n: nat, c: nat) returns (m: nat)
    requires IsRun(tr, sched) && n < |tr| && c < |tr[n].calls| && tr[n].calls[c].leader < |tr[n].pcs|
    requires !tr[n].pcs[tr[n].calls[c].leader].Leading?
    ensures m < n && sched[m] == FnReturns(tr[n].calls[c].leader, tr[n].calls[c].result)
  {
    RunKeepsInv(tr, sched, n - 1);
    ResultStep(tr[n - 1], sched[n - 1], c);
    if tr[n - 1].pcs[tr[n].calls[c].leader].Leading? {
      m := n - 1;
    } else {
      m := FnStep(tr, sched, n - 1, c);
    }
  }

  /** Every follower returns exactly what its leader's `fn` produced, and it joined while that
      leader's entry was still in the map. */
  lemma FollowerSharesLeadersOutcome(tr: seq<State>, sched: seq<Step>, n: nat, t: nat)
    returns (leader: nat, j: nat, m: nat)
    requires IsRun(tr, sched) && n < |tr| && t < |tr[n].pcs|
    requires tr[n].pcs[t].Returned? && tr[n].pcs[t].shared
    ensures j < n && sched[j] == Enter(t)
    ensures leader != t && Leads(tr[j], leader, tr[n].pcs[t].key)
    ensures m < n && sched[m] == FnReturns(leader, tr[n].pcs[t].out)
  {
    RunKeepsInv(tr, sched, n);
    assert ThreadOk(tr[n], t);
    var c := tr[n].pcs[t].call;
    assert CallOk(tr[n], c);
    leader := tr[n].calls[c].leader;
    j := JoinStep(tr, sched, n, t, leader, tr[n].pcs[t].key);
    m := FnStep(tr, sched, n, c);
  }

  /** A leader returns what its own `fn` produced. */
  lemma LeaderReturnsItsOutcome(tr: seq<State>, sched: seq<Step>, n: nat, t: nat) returns (m: nat)
    requires IsRun(tr, sched) && n < |tr| && t < |tr[n].pcs|
    requires tr[n].pcs[t].Returned? && !tr[n].pcs[t].shared
    ensures m < n && sched[m] == FnReturns(t, tr[n].pcs[t].out)
  {
    RunKeepsInv(tr, sched, n);
    assert ThreadOk(tr[n], t);
    m := FnStep(tr, sched, n, tr[n].pcs[t].call);
  }

  // ----- conservation and progress

  function Rank(pc: Pc): nat {
    match pc
    case Calling(_) => 5
    case Leading(_, _) => 4
    case Stored(_, _) => 3
    case Signalled(_, _) => 2
    case Waiting(_, _) => 2
    case Unlinked(_, _) => 1
    case Woken(_, _) => 1
    case Returned(_, _, _, _) => 0
  }

  predicate RanFn(pc: Pc) { IsLeader(pc) && !pc.Leading? }

  predicate ReturnedShared(pc: Pc) { pc.Returned? && pc.shared }

  predicate IsFnReturn(e: Step) { e.FnReturns? }

  lemma FnRunStep(s: State, e: Step)
    requires Enabled(s, e)
    ensures Count(Apply(s, e).pcs, RanFn) == Count(s.pcs, RanFn) + (if IsFnReturn(e) then 1 else 0)
  {
    CountUpdate(s.pcs, e.t, Apply(s, e).pcs[e.t], RanFn);
  }

  lemma NoneRanYet(s: State)
    requires Init(s)
    ensures Count(s.pcs, RanFn) == 0
  {
    CountNone(s.pcs, RanFn);
  }

  lemma {:induction false} FnRunsAreCounted(tr: seq<State>, sched: seq<Step>, n: nat)
    requires IsRun(tr, sched) && n < |tr|
    ensures Count(sched[..n], IsFnReturn) == Count(tr[n].pcs, RanFn)
  {
    hide Apply, RanFn, Enabled;
    if n == 0 {
      NoneRanYet(tr[0]);
    } else {
      FnRunsAreCounted(tr, sched, n - 1);
      FnRunStep(tr[n - 1], sched[n - 1]);
      assert sched[..n] == sched[..n - 1] + [sched[n - 1]];
      CountAppend(sched[..n - 1], sched[n - 1], IsFnReturn);
    }
  }

  lemma {:induction false} RankNeverGrows(tr: seq<State>, sched: seq<Step>, i: nat, n: nat, t: nat)
    requires IsRun(tr, sched) && i <= n < |tr| && t < |tr[0].pcs|
    ensures |tr[i].pcs| == |tr[n].pcs| == |tr[0].pcs|
    ensures Rank(tr[n].pcs[t]) <= Rank(tr[i].pcs[t])
  {
    RunKeepsInv(tr, sched, i);
    RunKeepsInv(tr, sched, n);
    if i < n {
      RankNeverGrows(tr, sched, i, n - 1, t);
    }
  }

  /** No call runs its `fn` twice. */
  lemma FnRunsOncePerLeader(tr: seq<State>, sched: seq<Step>, i: nat, j: nat)
    requires IsRun(tr, sched) && i < j < |sched|
    requires sched[i].FnReturns? && sched[j].FnReturns?
    ensures sched[i].t != sched[j].t
  {
    RunKeepsInv(tr, sched, i);
    if sched[i].t == sched[j].t {
      RankNeverGrows(tr, sched, i + 1, j, sched[i].t);
    }
  }

  /** When every call has returned, the `fn` runs and the coalesced calls add up to the calls. */
  lemma CallsAreConserved(tr: seq<State>, sched: seq<Step>, n: nat)
    requires IsRun(tr, sched) && n < |tr|
    requires forall t :: 0 <= t < |tr[n].pcs| ==> tr[n].pcs[t].Returned?
    ensures Count(sched[..n], IsFnReturn) + Count(tr[n].pcs, ReturnedShared) == |tr[0].pcs|
  {
    RunKeepsInv(tr, sched, n);
    FnRunsAreCounted(tr, sched, n);
    CountSplit(tr[n].pcs, RanFn, ReturnedShared);
  }

  function Measure(s: State): nat { Sum(s.pcs, Rank) }

  lemma StepDecreasesMeasure(s: State, e: Step)
    requires Enabled(s, e)
    ensures Measure(Apply(s, e)) < Measure(s)
  {
    SumUpdate(s.pcs, e.t, Apply(s, e).pcs[e.t], Rank);
  }

  /** No reachable state is stuck: while some call has not returned, some step is possible. */
  lemma NeverStuck(s: State, t: nat) returns (e: Step)
    requires Inv(s) && t < |s.pcs| && !s.pcs[t].Returned?
    ensures Enabled(s, e)
  {
    assert ThreadOk(s, t);
    var pc := s.pcs[t];
    match pc
    case Calling(_) => e := Enter(t);
    case Leading(_, _) => e := FnReturns(t, Outcome(0, NoError));
    case Stored(_, _) => e := Signal(t);
    case Signalled(_, _) => e := Unlink(t);
    case Unlinked(_, _) => e := Return(t);
    case Woken(_, _) => e := Return(t);
    case Waiting(_, c) =>
      assert CallOk(s, c);
      var leader := s.calls[c].leader;
      assert ThreadOk(s, leader);
      e := if s.calls[c].done then Wake(t)
           else if s.pcs[leader].Leading? then FnReturns(leader, Outcome(0, NoError))
           else Signal(leader);
  }

  lemma {:induction false} StepsUseMeasure(tr: seq<State>, sched: seq<Step>, n: nat)
    requires IsRun(tr, sched) && n < |tr|
    ensures n + Measure(tr[n]) <= Measure(tr[0])
  {
    if n > 0 {
      StepsUseMeasure(tr, sched, n - 1);
      StepDecreasesMeasure(tr[n - 1], sched[n - 1]);
    }
  }

  /** Every interleaving of `k` calls ends within five steps a call, and where it cannot go on all
      calls have returned. */
  lemma RunsAreBounded(tr: seq<State>, sched: seq<Step>)
    requires IsRun(tr, sched)
    ensures |sched| <= 5 * |tr[0].pcs|
    ensures (forall e :: !Enabled(tr[|sched|], e)) ==>
              forall t :: 0 <= t < |tr[|sched|].pcs| ==> tr[|sched|].pcs[t].Returned?
  {
    var n := |sched|;
    SumBound(tr[0].pcs, Rank, 5);
    StepsUseMeasure(tr, sched, n);
    RunKeepsInv(tr, sched, n);
    forall t | 0 <= t < |tr[n].pcs| && !tr[n].pcs[t].Returned?
      ensures exists e :: Enabled(tr[n], e)
    {
      var e := NeverStuck(tr[n], t);
    }
  }

  // ----- the group itself

  /** The shared group and the calls in progress on it; each method is one atomic region of `Do`. */
  class CoalescingGroup {
    var inflight: map<Key, nat>
    var calls: seq<Call>
    var pcs: seq<Pc>

    function Snapshot(): State
      reads this
    {
      State(inflight, calls, pcs)
    }

    /** A new group, about to be used by one call for each of `keys`. */
    constructor (keys: seq<Key>)
      ensures Init(Snapshot()) && |pcs| == |keys|
      ensures forall t :: 0 <= t < |keys| ==> pcs[t] == Calling(keys[t])
    {
      inflight, calls := map[], [];
      pcs := seq(|keys|, i requires 0 <= i < |keys| => Calling(keys[i]));
    }

    /** Look the key up and either become a follower of the entry or insert a new call. */
    method Join(t: nat) returns (leads: bool)
      requires Enabled(Snapshot(), Enter(t))
      modifies this
      ensures Snapshot() == Apply(old(Snapshot()), Enter(t))
      ensures leads == Linked(pcs[t])
    {
      var key := pcs[t].key;
      if key in inflight {
        pcs := pcs[t := Waiting(key, inflight[key])];
        return false;
      }
      calls := calls + [Call(key, t, Outcome(0, NoError), false)];
      inflight := inflight[key := |calls| - 1];
      pcs := pcs[t := Leading(key, |calls| - 1)];
      return true;
    }

    /** Store what `fn` returned in the call record. */
    method Store(t: nat, out: Outcome)
      requires Enabled(Snapshot(), FnReturns(t, out))
      modifies this`calls, this`pcs
      ensures Snapshot() == Apply(old(Snapshot()), FnReturns(t, out))
    {
      var c := pcs[t].call;
      calls := calls[c := calls[c].(result := out)];
      pcs := pcs[t := Stored(pcs[t].key, c)];
    }

    /** Release the call's wait group. */
    method Done(t: nat)
      requires Enabled(Snapshot(), Signal(t))
      modifies this`calls, this`pcs
      ensures Snapshot() == Apply(old(Snapshot()), Signal(t))
    {
      var c := pcs[t].call;
      calls := calls[c := calls[c].(done := true)];
      pcs := pcs[t := Signalled(pcs[t].key, c)];
    }

    /** Delete the entry of the leader's key. */
    method Delete(t: nat)
      requires Enabled(Snapshot(), Unlink(t))
      modifies this`inflight, this`pcs
      ensures Snapshot() == Apply(old(Snapshot()), Unlink(t))
    {
      inflight := inflight - {pcs[t].key};
      pcs := pcs[t := Unlinked(pcs[t].key, pcs[t].call)];
    }

    /** The wait of a follower whose call is done. */
    method Wait(t: nat)
      requires Enabled(Snapshot(), Wake(t))
      modifies this`pcs
      ensures Snapshot() == Apply(old(Snapshot()), Wake(t))
    {
      pcs := pcs[t := Woken(pcs[t].key, pcs[t].call)];
    }

    /** Read the call record and return. */
    method Leave(t: nat) returns (val: int, shared: bool, err: Error)
      requires Enabled(Snapshot(), Return(t))
      modifies this`pcs
      ensures Snapshot() == Apply(old(Snapshot()), Return(t))
      ensures pcs[t].out == Outcome(val, err) && pcs[t].shared == shared
    {
      var c := calls[pcs[t].call];
      val, shared, err := c.result.val, pcs[t].Woken?, c.result.err;
      pcs := pcs[t := Returned(pcs[t].key, pcs[t].call, c.result, shared)];
    }
  }
}

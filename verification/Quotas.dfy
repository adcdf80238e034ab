/** `QuotaManager`: every quota is incremented in turn, and the one that is exceeded is compensated.
    Counters start absent and stay live. */
module Quotas {
  import opened Counting

  datatype Quota = Quota(name: string, limit: int)

  datatype Option<T> = None | Some(value: T)

  // ----- the keys

  function QuotaKey(name: string, requestKey: string): string { "quota:" + name + ":" + requestKey }

  lemma KeyParts(name: string, requestKey: string)
    ensures QuotaKey(name, requestKey) == "quota:" + (name + ":") + requestKey
    ensures QuotaKey(name, requestKey)[6..] == (name + ":") + requestKey
  {}

  lemma NamesSeparateOneRequest(n1: string, n2: string, requestKey: string)
    ensures QuotaKey(n1, requestKey) == QuotaKey(n2, requestKey) ==> n1 == n2
  {
    assert QuotaKey(n1, requestKey)[6..6 + |n1|] == n1;
    assert QuotaKey(n2, requestKey)[6..6 + |n2|] == n2;
  }

  /** One name with its colon begins the other. */
  predicate Collide(n1: string, n2: string) { n1 + ":" <= n2 + ":" || n2 + ":" <= n1 + ":" }

  lemma RequestsSeparate(name: string, r1: string, r2: string)
    ensures QuotaKey(name, r1) == QuotaKey(name, r2) ==> r1 == r2
  {
    KeyParts(name, r1);
    KeyParts(name, r2);
    assert ((name + ":") + r1)[|name| + 1..] == r1 && ((name + ":") + r2)[|name| + 1..] == r2;
  }

  /** Two quotas can share a stored key for some pair of request keys exactly when their names collide. */
  lemma QuotasCollideIff(n1: string, n2: string)
    ensures (exists r1, r2 :: QuotaKey(n1, r1) == QuotaKey(n2, r2)) <==> Collide(n1, n2)
  {
    forall r1, r2 | QuotaKey(n1, r1) == QuotaKey(n2, r2) ensures Collide(n1, n2) {
      KeyParts(n1, r1);
      KeyParts(n2, r2);
      var all := n1 + ":" + r1;
      assert all[..|n1| + 1] == n1 + ":" && all[..|n2| + 1] == n2 + ":";
    }
    if n1 + ":" <= n2 + ":" {
      PrefixCollides(n1, n2);
    } else if n2 + ":" <= n1 + ":" {
      PrefixCollides(n2, n1);
    }
  }

  lemma PrefixCollides(n1: string, n2: string)
    requires n1 + ":" <= n2 + ":"
    ensures exists r1 :: QuotaKey(n1, r1) == QuotaKey(n2, "")
  {
    var r1 := (n2 + ":")[|n1| + 1..];
    assert (n1 + ":") + r1 == n2 + ":";
    KeyParts(n1, r1);
    KeyParts(n2, "");
    assert QuotaKey(n1, r1) == QuotaKey(n2, "");
  }

  lemma ColonFreeNamesDiffer(n1: string, n2: string)
    requires ':' !in n1 && ':' !in n2 && Collide(n1, n2)
    ensures n1 == n2
  {
    assert (n1 + ":")[|n1|] == ':' && (n2 + ":")[|n2|] == ':';
    if |n1| == |n2| {
      assert (n1 + ":")[..|n1|] == n1 && (n2 + ":")[..|n2|] == n2;
    }
  }

  /** Colon-free names never collide. */
  lemma ColonFreeNamesSeparate(n1: string, r1: string, n2: string, r2: string)
    requires ':' !in n1 && ':' !in n2 && QuotaKey(n1, r1) == QuotaKey(n2, r2)
    ensures n1 == n2 && r1 == r2
  {
    QuotasCollideIff(n1, n2);
    ColonFreeNamesDiffer(n1, n2);
    RequestsSeparate(n1, r1, r2);
  }

  ghost predicate DistinctNames(quotas: seq<Quota>) {
    forall i, j :: 0 <= i < j < |quotas| ==> quotas[i].name != quotas[j].name
  }

  /** A call can get as far as quota `i`. */
  predicate Reachable(quotas: seq<Quota>, i: nat) {
    i <= |quotas| && forall k :: 0 <= k < i ==> quotas[k].limit >= 1
  }

  /** No quota that a call can get to shares a stored key with another. */
  ghost predicate Separate(quotas: seq<Quota>) {
    forall i, j :: 0 <= i < j < |quotas| && Reachable(quotas, i) ==> !Collide(quotas[i].name, quotas[j].name)
  }

  lemma DistinctColonFreeNamesAreSeparate(quotas: seq<Quota>)
    requires DistinctNames(quotas) && forall i :: 0 <= i < |quotas| ==> ':' !in quotas[i].name
    ensures Separate(quotas)
  {
    forall i, j | 0 <= i < j < |quotas| ensures !Collide(quotas[i].name, quotas[j].name) {
      if Collide(quotas[i].name, quotas[j].name) {
        ColonFreeNamesDiffer(quotas[i].name, quotas[j].name);
      }
    }
  }

  /** Where names are separate, the key of a quota that can be reached belongs to it and one request key. */
  lemma KeyIsOwn(quotas: seq<Quota>, i: nat, r1: string, j: nat, r2: string)
    requires Separate(quotas) && i < |quotas| && Reachable(quotas, i) && j < |quotas|
    requires QuotaKey(quotas[i].name, r1) == QuotaKey(quotas[j].name, r2)
    ensures i == j && r1 == r2
  {
    QuotasCollideIff(quotas[i].name, quotas[j].name);
    QuotasCollideIff(quotas[j].name, quotas[i].name);
    if i == j {
      RequestsSeparate(quotas[i].name, r1, r2);
    } else if j < i {
      assert Reachable(quotas, j);
    }
  }

  // ----- interleaved checks: Increment and Decrement are atomic, the calls are not

  function Stored(counts: map<string, int>, key: string): int { if key in counts then counts[key] else 0 }

  /** Where one `CheckAll` stands: about to increment a quota, about to compensate it, or finished. */
  datatype Pc = Trying(q: nat) | Exceeded(q: nat) | Passed | Blocked(q: nat)

  datatype Call = Call(requestKey: string, pc: Pc)

  /** The stored counts and the calls in progress, each with its request key. */
  datatype State = State(counts: map<string, int>, calls: seq<Call>)

  datatype Step = Increment(t: nat) | Decrement(t: nat)

  function Next(quotas: seq<Quota>, q: nat): Pc { if q < |quotas| then Trying(q) else Passed }

  predicate Enabled(quotas: seq<Quota>, s: State, e: Step) {
    e.t < |s.calls| &&
    var pc := s.calls[e.t].pc;
    (if e.Increment? then pc.Trying? else pc.Exceeded?) && pc.q < |quotas|
  }

  function Apply(quotas: seq<Quota>, s: State, e: Step): State
    requires Enabled(quotas, s, e)
  {
    var call := s.calls[e.t];
    var q := call.pc.q;
    var key := QuotaKey(quotas[q].name, call.requestKey);
    match e
    case Increment(t) =>
      var count := Stored(s.counts, key) + 1;
      var pc := if count > quotas[q].limit then Exceeded(q) else Next(quotas, q + 1);
      State(s.counts[key := count], s.calls[t := call.(pc := pc)])
    case Decrement(t) =>
      State(s.counts[key := Stored(s.counts, key) - 1], s.calls[t := call.(pc := Blocked(q))])
  }

  ghost predicate IsRun(quotas: seq<Quota>, tr: seq<State>, sched: seq<Step>) {
    && |tr| == |sched| + 1
    && tr[0].counts == map[] && (forall t :: 0 <= t < |tr[0].calls| ==> tr[0].calls[t].pc == Next(quotas, 0))
    && forall i :: 0 <= i < |sched| ==> Enabled(quotas, tr[i], sched[i]) && tr[i + 1] == Apply(quotas, tr[i], sched[i])
  }

  predicate HasPassed(pc: Pc, q: nat) { pc.Passed? || pc.q > q }

  /** The call has passed quota `q` for request key `r`. */
  function PassedQuota(q: nat, r: string): Call -> bool { (c: Call) => c.requestKey == r && HasPassed(c.pc, q) }

  function PendingAt(q: nat, r: string): Call -> bool { (c: Call) => c == Call(r, Exceeded(q)) }

  function RefusedAt(q: nat, r: string): Call -> bool {
    (c: Call) => c == Call(r, Exceeded(q)) || c == Call(r, Blocked(q))
  }

  // ----- what holds whatever the names: counts are conserved and limits are kept

  /** The call's increment of quota `q` is stored under `key`. */
  predicate Holds(quotas: seq<Quota>, key: string, c: Call, q: nat) {
    && q < |quotas| && QuotaKey(quotas[q].name, c.requestKey) == key
    && (HasPassed(c.pc, q) || c.pc == Exceeded(q))
  }

  function HoldsAt(quotas: seq<Quota>, key: string, c: Call): nat -> bool { (q: nat) => Holds(quotas, key, c, q) }

  /** How many increments of the call are stored under `key`. */
  function Share(quotas: seq<Quota>, key: string): Call -> nat {
    (c: Call) => CountRange(HoldsAt(quotas, key, c), 0, |quotas|)
  }

  ghost predicate Conserved(quotas: seq<Quota>, s: State) {
    forall key :: Stored(s.counts, key) == Sum(s.calls, Share(quotas, key))
  }

  /** A step adds or takes back one increment, of the quota it is at. */
  lemma StepChangesShare(quotas: seq<Quota>, s: State, e: Step, key: string)
    requires Enabled(quotas, s, e)
    ensures var c, c' := s.calls[e.t], Apply(quotas, s, e).calls[e.t];
            Share(quotas, key)(c') == Share(quotas, key)(c)
              + (if QuotaKey(quotas[c.pc.q].name, c.requestKey) != key then 0 else if e.Increment? then 1 else -1)
  {
    var c, c' := s.calls[e.t], Apply(quotas, s, e).calls[e.t];
    var p, p' := HoldsAt(quotas, key, c), HoldsAt(quotas, key, c');
    if QuotaKey(quotas[c.pc.q].name, c.requestKey) != key {
      CountRangeImplies(p, p', 0, |quotas|);
      CountRangeImplies(p', p, 0, |quotas|);
    } else if e.Increment? {
      CountRangeGains(p, p', c.pc.q, |quotas|);
    } else {
      CountRangeGains(p', p, c.pc.q, |quotas|);
    }
  }

  lemma StepConserves(quotas: seq<Quota>, s: State, e: Step)
    requires Conserved(quotas, s) && Enabled(quotas, s, e)
    ensures Conserved(quotas, Apply(quotas, s, e))
  {
    hide Share, QuotaKey;
    var s' := Apply(quotas, s, e);
    forall key ensures Stored(s'.counts, key) == Sum(s'.calls, Share(quotas, key)) {
      StepChangesShare(quotas, s, e, key);
      SumUpdate(s.calls, e.t, s'.calls[e.t], Share(quotas, key));
    }
  }

  lemma {:induction false} RunConserves(quotas: seq<Quota>, tr: seq<State>, sched: seq<Step>, n: nat)
    requires IsRun(quotas, tr, sched) && n < |tr|
    ensures Conserved(quotas, tr[n])
  {
    if n == 0 {
      forall key ensures Sum(tr[0].calls, Share(quotas, key)) == 0 {
        forall t | 0 <= t < |tr[0].calls| ensures Share(quotas, key)(tr[0].calls[t]) == 0 {
          CountRangeNone(HoldsAt(quotas, key, tr[0].calls[t]), 0, |quotas|);
        }
        SumBound(tr[0].calls, Share(quotas, key), 0);
      }
    } else {
      hide Conserved, Apply, Enabled;
      RunConserves(quotas, tr, sched, n - 1);
      StepConserves(quotas, tr[n - 1], sched[n - 1]);
    }
  }

  lemma PassedAreStored(quotas: seq<Quota>, s: State, q: nat, r: string)
    requires Conserved(quotas, s) && q < |quotas|
    ensures Count(s.calls, PassedQuota(q, r)) <= Stored(s.counts, QuotaKey(quotas[q].name, r))
  {
    var key := QuotaKey(quotas[q].name, r);
    forall t | 0 <= t < |s.calls| && PassedQuota(q, r)(s.calls[t]) ensures Share(quotas, key)(s.calls[t]) >= 1 {
      var p := HoldsAt(quotas, key, s.calls[t]);
      CountRangeSplit(p, 0, q, |quotas|);
      CountRangeSplit(p, q, q + 1, |quotas|);
    }
    CountBelowSum(s.calls, PassedQuota(q, r), Share(quotas, key));
  }

  /** Whatever the names of the quotas, in every reachable state of every interleaving a quota has let no
      more than its limit of calls through for any request key. */
  lemma {:induction false} NeverMoreThanLimitPass(quotas: seq<Quota>, tr: seq<State>, sched: seq<Step>, n: nat,
                                                  q: nat, r: string)
    requires IsRun(quotas, tr, sched) && n < |tr| && q < |quotas|
    ensures Count(tr[n].calls, PassedQuota(q, r)) <= Max(0, quotas[q].limit)
  {
    if n == 0 {
      CountNone(tr[0].calls, PassedQuota(q, r));
    } else {
      NeverMoreThanLimitPass(quotas, tr, sched, n - 1, q, r);
      var s, e := tr[n - 1], sched[n - 1];
      var c, c' := s.calls[e.t], tr[n].calls[e.t];
      CountUpdate(s.calls, e.t, c', PassedQuota(q, r));
      if PassedQuota(q, r)(c') && !PassedQuota(q, r)(c) {
        RunConserves(quotas, tr, sched, n);
        PassedAreStored(quotas, tr[n], q, r);
      }
    }
  }

  // ----- what separate names give

  /** The count is the calls that passed plus the pending compensations; no more than the limit pass, and a
      call is refused only once that many have. */
  ghost predicate QuotaOk(quotas: seq<Quota>, s: State, q: nat, r: string)
    requires q < |quotas|
  {
    && Stored(s.counts, QuotaKey(quotas[q].name, r))
       == Count(s.calls, PassedQuota(q, r)) + Count(s.calls, PendingAt(q, r))
    && Count(s.calls, PassedQuota(q, r)) <= Max(0, quotas[q].limit)
    && (Count(s.calls, RefusedAt(q, r)) > 0 ==> Count(s.calls, PassedQuota(q, r)) == Max(0, quotas[q].limit))
  }

  ghost predicate CallOk(quotas: seq<Quota>, c: Call) {
    c.pc.Passed? || (c.pc.q < |quotas| && Reachable(quotas, c.pc.q))
  }

  ghost predicate Inv(quotas: seq<Quota>, s: State) {
    && (forall t :: 0 <= t < |s.calls| ==> CallOk(quotas, s.calls[t]))
    && (forall q: nat, r :: q < |quotas| ==> QuotaOk(quotas, s, q, r))
  }

  lemma StepKeepsCall(quotas: seq<Quota>, s: State, e: Step)
    requires Inv(quotas, s) && Enabled(quotas, s, e)
    ensures CallOk(quotas, Apply(quotas, s, e).calls[e.t])
  {
    var c := s.calls[e.t];
    assert CallOk(quotas, c) && QuotaOk(quotas, s, c.pc.q, c.requestKey);
  }

  lemma StepChangesCounts(quotas: seq<Quota>, s: State, e: Step, q: nat, r: string)
    requires Enabled(quotas, s, e)
    ensures var c, c', calls' := s.calls[e.t], Apply(quotas, s, e).calls[e.t], Apply(quotas, s, e).calls;
            var one := (p: Call -> bool) => (if p(c') then 1 else 0) - (if p(c) then 1 else 0);
            && Count(calls', PassedQuota(q, r)) == Count(s.calls, PassedQuota(q, r)) + one(PassedQuota(q, r))
            && Count(calls', PendingAt(q, r)) == Count(s.calls, PendingAt(q, r)) + one(PendingAt(q, r))
            && Count(calls', RefusedAt(q, r)) == Count(s.calls, RefusedAt(q, r)) + one(RefusedAt(q, r))
  {
    var c' := Apply(quotas, s, e).calls[e.t];
    CountUpdate(s.calls, e.t, c', PassedQuota(q, r));
    CountUpdate(s.calls, e.t, c', PendingAt(q, r));
    CountUpdate(s.calls, e.t, c', RefusedAt(q, r));
  }

  lemma OtherStepKeepsQuota(quotas: seq<Quota>, s: State, e: Step, q: nat, r: string)
    requires Enabled(quotas, s, e) && q < |quotas| && QuotaOk(quotas, s, q, r)
    requires var c := s.calls[e.t]; QuotaKey(quotas[c.pc.q].name, c.requestKey) != QuotaKey(quotas[q].name, r)
    ensures QuotaOk(quotas, Apply(quotas, s, e), q, r)
  {
    hide QuotaKey;
    StepChangesCounts(quotas, s, e, q, r);
  }

  lemma OwnStepKeepsQuota(quotas: seq<Quota>, s: State, e: Step)
    requires Enabled(quotas, s, e) && QuotaOk(quotas, s, s.calls[e.t].pc.q, s.calls[e.t].requestKey)
    ensures QuotaOk(quotas, Apply(quotas, s, e), s.calls[e.t].pc.q, s.calls[e.t].requestKey)
  {
    hide QuotaKey;
    var q, r := s.calls[e.t].pc.q, s.calls[e.t].requestKey;
    StepChangesCounts(quotas, s, e, q, r);
    CountImplies(s.calls, PendingAt(q, r), RefusedAt(q, r));
  }

  lemma StepKeepsQuota(quotas: seq<Quota>, s: State, e: Step, q: nat, r: string)
    requires Separate(quotas) && Inv(quotas, s) && Enabled(quotas, s, e) && q < |quotas|
    ensures QuotaOk(quotas, Apply(quotas, s, e), q, r)
  {
    var c := s.calls[e.t];
    assert QuotaOk(quotas, s, q, r) && CallOk(quotas, c);
    hide QuotaOk, QuotaKey, Separate, Apply, Reachable;
    if QuotaKey(quotas[c.pc.q].name, c.requestKey) == QuotaKey(quotas[q].name, r) {
      KeyIsOwn(quotas, c.pc.q, c.requestKey, q, r);
      OwnStepKeepsQuota(quotas, s, e);
    } else {
      OtherStepKeepsQuota(quotas, s, e, q, r);
    }
  }

  lemma {:induction false} RunKeepsInv(quotas: seq<Quota>, tr: seq<State>, sched: seq<Step>, n: nat)
    requires Separate(quotas) && IsRun(quotas, tr, sched) && n < |tr|
    ensures Inv(quotas, tr[n])
  {
    if n == 0 {
      forall q: nat, r | q < |quotas| ensures QuotaOk(quotas, tr[0], q, r) {
        CountNone(tr[0].calls, PassedQuota(q, r));
        CountNone(tr[0].calls, PendingAt(q, r));
        CountNone(tr[0].calls, RefusedAt(q, r));
      }
    } else {
      hide QuotaOk, CallOk, Separate;
      RunKeepsInv(quotas, tr, sched, n - 1);
      StepKeepsCall(quotas, tr[n - 1], sched[n - 1]);
      forall q: nat, r | q < |quotas| ensures QuotaOk(quotas, tr[n], q, r) {
        StepKeepsQuota(quotas, tr[n - 1], sched[n - 1], q, r);
      }
    }
  }

  /** For every quota and request key, what is stored is what was let through plus what is about to be
      taken back. */
  ghost predicate CountsAreRight(quotas: seq<Quota>, s: State) {
    forall q: nat, r :: q < |quotas| ==>
      Stored(s.counts, QuotaKey(quotas[q].name, r))
      == Count(s.calls, PassedQuota(q, r)) + Count(s.calls, PendingAt(q, r))
  }

  ghost predicate AllRunsRight(quotas: seq<Quota>) {
    forall tr, sched, n: nat :: IsRun(quotas, tr, sched) && n < |tr| ==> CountsAreRight(quotas, tr[n])
  }

  lemma RightAt(quotas: seq<Quota>, tr: seq<State>, sched: seq<Step>, q: nat, r: string)
    requires AllRunsRight(quotas) && IsRun(quotas, tr, sched) && q < |quotas|
    ensures var s := tr[|sched|];
            Stored(s.counts, QuotaKey(quotas[q].name, r))
            == Count(s.calls, PassedQuota(q, r)) + Count(s.calls, PendingAt(q, r))
  {
    assert CountsAreRight(quotas, tr[|sched|]);
  }

  /** If all counts were right, a single call would get to every quota that can be reached. */
  lemma {:induction false} WalkTo(quotas: seq<Quota>, r: string, i: nat) returns (tr: seq<State>, sched: seq<Step>)
    requires AllRunsRight(quotas) && i < |quotas| && Reachable(quotas, i)
    ensures IsRun(quotas, tr, sched) && tr[|sched|].calls == [Call(r, Trying(i))]
  {
    if i == 0 {
      tr, sched := [State(map[], [Call(r, Trying(0))])], [];
    } else {
      tr, sched := WalkTo(quotas, r, i - 1);
      RightAt(quotas, tr, sched, i - 1, r);
      CountNone(tr[|sched|].calls, PassedQuota(i - 1, r));
      CountNone(tr[|sched|].calls, PendingAt(i - 1, r));
      tr, sched := OneMoreStep(quotas, tr, sched, Increment(0));
    }
  }

  lemma OneMoreStep(quotas: seq<Quota>, tr: seq<State>, sched: seq<Step>, e: Step)
    returns (tr': seq<State>, sched': seq<Step>)
    requires IsRun(quotas, tr, sched) && Enabled(quotas, tr[|sched|], e)
    ensures IsRun(quotas, tr', sched') && |sched'| == |sched| + 1
    ensures tr'[|sched'|] == Apply(quotas, tr[|sched|], e)
  {
    tr', sched' := tr + [Apply(quotas, tr[|sched|], e)], sched + [e];
  }

  lemma CollisionMiscounts(quotas: seq<Quota>, i: nat, j: nat)
    requires i < j < |quotas| && Reachable(quotas, i) && Collide(quotas[i].name, quotas[j].name)
    ensures !AllRunsRight(quotas)
  {
    hide AllRunsRight;
    if AllRunsRight(quotas) {
      QuotasCollideIff(quotas[i].name, quotas[j].name);
      var r1, r2 :| QuotaKey(quotas[i].name, r1) == QuotaKey(quotas[j].name, r2);
      var tr, sched := WalkTo(quotas, r1, i);
      RightAt(quotas, tr, sched, i, r1);
      CountNone(tr[|sched|].calls, PassedQuota(i, r1));
      CountNone(tr[|sched|].calls, PendingAt(i, r1));
      tr, sched := OneMoreStep(quotas, tr, sched, Increment(0));
      CountNone(tr[|sched|].calls, PassedQuota(j, r2));
      CountNone(tr[|sched|].calls, PendingAt(j, r2));
      RightAt(quotas, tr, sched, j, r2);
    }
  }

  /** All counts of all interleavings are right exactly when no quota that a call can get to shares a
      stored key with another. */
  lemma CountsAreRightIff(quotas: seq<Quota>)
    ensures Separate(quotas) <==> AllRunsRight(quotas)
  {
    if i: nat, j: nat :| i < j < |quotas| && Reachable(quotas, i) && Collide(quotas[i].name, quotas[j].name) {
      CollisionMiscounts(quotas, i, j);
    } else {
      assert Separate(quotas);
      forall tr: seq<State>, sched, n: nat | IsRun(quotas, tr, sched) && n < |tr|
        ensures CountsAreRight(quotas, tr[n])
      {
        RunKeepsInv(quotas, tr, sched, n);
        forall q: nat, r | q < |quotas|
          ensures Stored(tr[n].counts, QuotaKey(quotas[q].name, r))
               == Count(tr[n].calls, PassedQuota(q, r)) + Count(tr[n].calls, PendingAt(q, r))
        {
          assert QuotaOk(quotas, tr[n], q, r);
        }
      }
    }
  }

  /** Concurrent overshoot refuses nobody wrongly: a call is refused by a quota only once exactly its
      limit of calls with its request key has passed it. */
  lemma RefusedOnlyWhenFull(quotas: seq<Quota>, tr: seq<State>, sched: seq<Step>, n: nat, t: nat)
    requires Separate(quotas) && IsRun(quotas, tr, sched) && n < |tr| && t < |tr[n].calls|
    requires tr[n].calls[t].pc.Exceeded? || tr[n].calls[t].pc.Blocked?
    ensures var q, r := tr[n].calls[t].pc.q, tr[n].calls[t].requestKey;
            q < |quotas| && Count(tr[n].calls, PassedQuota(q, r)) == Max(0, quotas[q].limit)
  {
    RunKeepsInv(quotas, tr, sched, n);
    var q, r := tr[n].calls[t].pc.q, tr[n].calls[t].requestKey;
    assert CallOk(quotas, tr[n].calls[t]) && QuotaOk(quotas, tr[n], q, r);
    CountPositive(tr[n].calls, RefusedAt(q, r), t);
  }

  function Reached(q: nat, r: string): Call -> bool {
    (c: Call) => c.requestKey == r && (c.pc.Passed? || c.pc.q >= q)
  }

  /** Once every call has finished, each quota stores for each request key exactly the calls it let
      through, which are as many as reached it, up to the limit. */
  lemma QuiescentCounts(quotas: seq<Quota>, tr: seq<State>, sched: seq<Step>, n: nat, q: nat, r: string)
    requires Separate(quotas) && IsRun(quotas, tr, sched) && n < |tr| && q < |quotas|
    requires forall t :: 0 <= t < |tr[n].calls| ==> tr[n].calls[t].pc.Passed? || tr[n].calls[t].pc.Blocked?
    ensures Stored(tr[n].counts, QuotaKey(quotas[q].name, r))
         == Count(tr[n].calls, PassedQuota(q, r))
         == Min(Max(0, quotas[q].limit), Count(tr[n].calls, Reached(q, r)))
  {
    RunKeepsInv(quotas, tr, sched, n);
    assert QuotaOk(quotas, tr[n], q, r);
    var calls := tr[n].calls;
    CountNone(calls, PendingAt(q, r));
    CountImplies(calls, PassedQuota(q, r), Reached(q, r));
    if Count(calls, RefusedAt(q, r)) == 0 {
      forall t | 0 <= t < |calls| && Reached(q, r)(calls[t]) ensures PassedQuota(q, r)(calls[t]) {
        if RefusedAt(q, r)(calls[t]) {
          CountPositive(calls, RefusedAt(q, r), t);
        }
      }
      CountImplies(calls, Reached(q, r), PassedQuota(q, r));
    }
  }

  // ----- progress

  function Rank(quotas: seq<Quota>): Call -> nat {
    (c: Call) =>
      match c.pc
      case Trying(q) => if q < |quotas| then |quotas| - q + 1 else 0
      case Exceeded(_) => 1
      case _ => 0
  }

  lemma {:induction false} StepsUseRank(quotas: seq<Quota>, tr: seq<State>, sched: seq<Step>, n: nat)
    requires IsRun(quotas, tr, sched) && n < |tr|
    ensures n + Sum(tr[n].calls, Rank(quotas)) <= Sum(tr[0].calls, Rank(quotas))
    ensures forall t :: 0 <= t < |tr[n].calls| ==> !tr[n].calls[t].pc.Passed? ==> tr[n].calls[t].pc.q < |quotas|
  {
    if n > 0 {
      StepsUseRank(quotas, tr, sched, n - 1);
      var t := sched[n - 1].t;
      SumUpdate(tr[n - 1].calls, t, tr[n].calls[t], Rank(quotas));
    }
  }

  /** Every call takes at most one step a quota and one to compensate, and a run that cannot go on has all
      calls finished. */
  lemma RunsAreBounded(quotas: seq<Quota>, tr: seq<State>, sched: seq<Step>)
    requires IsRun(quotas, tr, sched)
    ensures |sched| <= (|quotas| + 1) * |tr[0].calls|
    ensures (forall e :: !Enabled(quotas, tr[|sched|], e)) ==>
              forall c :: c in tr[|sched|].calls ==> c.pc.Passed? || c.pc.Blocked?
  {
    var last := tr[|sched|];
    StepsUseRank(quotas, tr, sched, |sched|);
    SumBound(tr[0].calls, Rank(quotas), |quotas| + 1);
    forall t | 0 <= t < |last.calls| && (last.calls[t].pc.Trying? || last.calls[t].pc.Exceeded?)
      ensures exists e :: Enabled(quotas, last, e)
    {
      assert Enabled(quotas, last, if last.calls[t].pc.Trying? then Increment(t) else Decrement(t));
    }
  }

  // ----- one check on its own

  /** The counters after a check and the index of the quota it reports. */
  datatype Check = Check(counts: map<string, int>, exceeded: Option<nat>)

  function CheckFrom(quotas: seq<Quota>, counts: map<string, int>, requestKey: string, i: nat): Check
    requires i <= |quotas|
    decreases |quotas| - i
  {
    if i == |quotas| then Check(counts, None)
    else
      var key := QuotaKey(quotas[i].name, requestKey);
      var count := Stored(counts, key) + 1;
      if count > quotas[i].limit then Check(counts[key := count - 1], Some(i))
      else CheckFrom(quotas, counts[key := count], requestKey, i + 1)
  }

  predicate Fits(q: Quota, counts: map<string, int>, requestKey: string) {
    Stored(counts, QuotaKey(q.name, requestKey)) + 1 <= q.limit
  }

  /** The index of the first quota from `i` on that has no room, or the number of quotas. */
  function FirstFull(quotas: seq<Quota>, counts: map<string, int>, requestKey: string, i: nat): (f: nat)
    requires i <= |quotas|
    ensures i <= f <= |quotas|
    ensures forall j :: i <= j < f ==> Fits(quotas[j], counts, requestKey)
    ensures f < |quotas| ==> !Fits(quotas[f], counts, requestKey)
    decreases |quotas| - i
  {
    if i == |quotas| || !Fits(quotas[i], counts, requestKey) then i else FirstFull(quotas, counts, requestKey, i + 1)
  }

  lemma {:induction false} FirstFullAfterIncrement(quotas: seq<Quota>, counts: map<string, int>, requestKey: string,
                                                   i: nat, j: nat, value: int)
    requires DistinctNames(quotas) && i < j <= |quotas|
    ensures FirstFull(quotas, counts[QuotaKey(quotas[i].name, requestKey) := value], requestKey, j)
         == FirstFull(quotas, counts, requestKey, j)
    decreases |quotas| - j
  {
    if j < |quotas| {
      NamesSeparateOneRequest(quotas[i].name, quotas[j].name, requestKey);
      FirstFullAfterIncrement(quotas, counts, requestKey, i, j + 1, value);
    }
  }

  /** `key` is the stored key of one of the quotas `i..f`. */
  ghost predicate KeyOfOne(quotas: seq<Quota>, requestKey: string, i: nat, f: nat, key: string)
    requires f <= |quotas|
  {
    exists j :: i <= j < f && key == QuotaKey(quotas[j].name, requestKey)
  }

  lemma NoKeyBetween(quotas: seq<Quota>, requestKey: string, i: nat, key: string)
    requires i <= |quotas|
    ensures !KeyOfOne(quotas, requestKey, i, i, key)
  {}

  lemma KeyOfFirst(quotas: seq<Quota>, requestKey: string, i: nat, f: nat, key: string)
    requires DistinctNames(quotas) && i < f <= |quotas|
    ensures KeyOfOne(quotas, requestKey, i, f, key) <==>
            key == QuotaKey(quotas[i].name, requestKey) || KeyOfOne(quotas, requestKey, i + 1, f, key)
    ensures !KeyOfOne(quotas, requestKey, i + 1, f, QuotaKey(quotas[i].name, requestKey))
  {
    forall j | i < j < f ensures QuotaKey(quotas[i].name, requestKey) != QuotaKey(quotas[j].name, requestKey) {
      NamesSeparateOneRequest(quotas[i].name, quotas[j].name, requestKey);
    }
  }

  /** Run alone, a check reports the first quota without room; the quotas before it gain one and it
      and all other counters keep their values. */
  lemma {:induction false} SequentialCheck(quotas: seq<Quota>, counts: map<string, int>, requestKey: string,
                                           i: nat, key: string)
    requires DistinctNames(quotas) && i <= |quotas|
    ensures var full := FirstFull(quotas, counts, requestKey, i);
            var check := CheckFrom(quotas, counts, requestKey, i);
            && check.exceeded == (if full == |quotas| then None else Some(full))
            && Stored(check.counts, key)
               == Stored(counts, key) + (if KeyOfOne(quotas, requestKey, i, full, key) then 1 else 0)
    decreases |quotas| - i
  {
    hide KeyOfOne, QuotaKey, DistinctNames;
    var full := FirstFull(quotas, counts, requestKey, i);
    if full == i {
      NoKeyBetween(quotas, requestKey, i, key);
    } else {
      var own := QuotaKey(quotas[i].name, requestKey);
      var count := Stored(counts, own) + 1;
      FirstFullAfterIncrement(quotas, counts, requestKey, i, i + 1, count);
      SequentialCheck(quotas, counts[own := count], requestKey, i + 1, key);
      KeyOfFirst(quotas, requestKey, i, full, key);
    }
  }

  datatype Answer = Left(count: int) | NotFound

  class QuotaManager {
    const quotas: seq<Quota>
    var counts: map<string, int>

    constructor (quotas: seq<Quota>)
      ensures this.quotas == quotas && counts == map[]
    {
      this.quotas, counts := quotas, map[];
    }

    method CheckAll(requestKey: string) returns (exceeded: Option<nat>)
      modifies this`counts
      ensures Check(counts, exceeded) == CheckFrom(quotas, old(counts), requestKey, 0)
    {
      for i := 0 to |quotas|
        invariant CheckFrom(quotas, counts, requestKey, i) == CheckFrom(quotas, old(counts), requestKey, 0)
      {
        var key := QuotaKey(quotas[i].name, requestKey);
        counts := counts[key := Stored(counts, key) + 1];
        if counts[key] > quotas[i].limit {
          counts := counts[key := counts[key] - 1];
          return Some(i);
        }
      }
      return None;
    }

    /** What is left of the first quota with the given name. */
    method Remaining(quotaName: string, requestKey: string) returns (left: Answer)
      ensures left.NotFound? <==> forall i :: 0 <= i < |quotas| ==> quotas[i].name != quotaName
      ensures left.Left? ==>
                exists i :: 0 <= i < |quotas| && quotas[i].name == quotaName
                            && (forall j :: 0 <= j < i ==> quotas[j].name != quotaName)
                            && left.count == Max(0, quotas[i].limit - Stored(counts, QuotaKey(quotaName, requestKey)))
    {
      for i := 0 to |quotas|
        invariant forall j :: 0 <= j < i ==> quotas[j].name != quotaName
      {
        if quotas[i].name == quotaName {
          var remaining := quotas[i].limit - Stored(counts, QuotaKey(quotaName, requestKey));
          if remaining < 0 {
            remaining := 0;
          }
          return Left(remaining);
        }
      }
      return NotFound;
    }
  }
}

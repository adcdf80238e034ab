/** The circuit breaker as a function of the events it has seen, and the middleware that drives it
    from overlapping requests. Clock readings are nanoseconds; no ordering is assumed. */
module CircuitBreaker {
  import opened Counting

  datatype Mode = Closed | Open | HalfOpen

  /** The methods a breaker can see, with their clock readings. */
  datatype Event = Check(at: int) | Blocked(at: int) | Allowed

  /** The fields, with counters for the transitions and the reset callbacks. */
  datatype Breaker = Breaker(mode: Mode, failures: int, lastFailure: int, trips: nat, recoveries: nat, resets: nat)

  datatype Config = Config(threshold: int, resetAfter: int)

  const FRESH := Breaker(Closed, 0, 0, 0, 0, 0)

  function Apply(cfg: Config, b: Breaker, e: Event): Breaker {
    match e
    case Check(at) =>
      if b.mode == Open && at - b.lastFailure >= cfg.resetAfter then b.(mode := HalfOpen) else b
    case Blocked(at) =>
      var b' := b.(failures := b.failures + 1, lastFailure := at);
      if b'.mode == Closed && b'.failures >= cfg.threshold then b'.(mode := Open, trips := b'.trips + 1) else b'
    case Allowed =>
      if b.mode == HalfOpen || b.failures > 0 then
        b.(mode := Closed, failures := 0,
           recoveries := b.recoveries + (if b.mode == Closed then 0 else 1),
           resets := b.resets + (if b.mode == HalfOpen then 1 else 0))
      else b
  }

  function After(cfg: Config, h: seq<Event>): Breaker {
    if h == [] then FRESH else Apply(cfg, After(cfg, h[..|h| - 1]), h[|h| - 1])
  }

  // ----- the state in terms of the history alone

  /** A threshold below one trips on the first blocked request, like a threshold of one. */
  function Effective(cfg: Config): int { Max(1, cfg.threshold) }

  /** The blocked records since the last allowed one. */
  function Trailing(h: seq<Event>): nat {
    if h == [] then 0
    else match h[|h| - 1]
      case Check(_) => Trailing(h[..|h| - 1])
      case Blocked(_) => Trailing(h[..|h| - 1]) + 1
      case Allowed => 0
  }

  /** The reading of the latest blocked record, 0 if there is none. */
  function LastBlocked(h: seq<Event>): int {
    if h == [] then 0 else if h[|h| - 1].Blocked? then h[|h| - 1].at else LastBlocked(h[..|h| - 1])
  }

  /** Event `k` is a check that found a tripped circuit whose last blocked record was old enough. */
  predicate IsProbe(cfg: Config, h: seq<Event>, k: nat) {
    k < |h| && h[k].Check? && Trailing(h[..k]) >= Effective(cfg) && h[k].at - LastBlocked(h[..k]) >= cfg.resetAfter
  }

  ghost predicate NoAllowedSince(h: seq<Event>, k: nat) {
    forall j :: k <= j < |h| ==> !h[j].Allowed?
  }

  /** Some such check has happened and nothing has been allowed since. */
  ghost predicate Probed(cfg: Config, h: seq<Event>) {
    exists k :: 0 <= k < |h| && IsProbe(cfg, h, k) && NoAllowedSince(h, k)
  }

  ghost function ModeOf(cfg: Config, h: seq<Event>): Mode {
    if Trailing(h) < Effective(cfg) then Closed else if Probed(cfg, h) then HalfOpen else Open
  }

  predicate IsTrip(cfg: Config, h: seq<Event>, k: nat) {
    k < |h| && h[k].Blocked? && Trailing(h[..k]) == Effective(cfg) - 1
  }

  predicate IsRecovery(cfg: Config, h: seq<Event>, k: nat) {
    k < |h| && h[k].Allowed? && Trailing(h[..k]) >= Effective(cfg)
  }

  ghost predicate IsReset(cfg: Config, h: seq<Event>, k: nat) {
    k < |h| && h[k].Allowed? && Trailing(h[..k]) >= Effective(cfg) && Probed(cfg, h[..k])
  }

  function Trips(cfg: Config, h: seq<Event>): nat -> bool { (k: nat) => IsTrip(cfg, h, k) }

  function Recoveries(cfg: Config, h: seq<Event>): nat -> bool { (k: nat) => IsRecovery(cfg, h, k) }

  ghost function Resets(cfg: Config, h: seq<Event>): nat -> bool { (k: nat) => IsReset(cfg, h, k) }

  lemma ProbeExtends(cfg: Config, h: seq<Event>, e: Event, k: nat)
    requires k < |h|
    ensures IsProbe(cfg, h + [e], k) == IsProbe(cfg, h, k)
  {
    assert (h + [e])[..k] == h[..k];
  }

  lemma ProbedStep(cfg: Config, h: seq<Event>, e: Event)
    ensures Probed(cfg, h + [e]) <==>
            !e.Allowed? && (Probed(cfg, h) || IsProbe(cfg, h + [e], |h|))
  {
    hide IsProbe;
    var h' := h + [e];
    forall k | 0 <= k < |h| ensures IsProbe(cfg, h', k) == IsProbe(cfg, h, k) {
      ProbeExtends(cfg, h, e, k);
    }
    if Probed(cfg, h) && !e.Allowed? {
      var k :| 0 <= k < |h| && IsProbe(cfg, h, k) && NoAllowedSince(h, k);
      assert IsProbe(cfg, h', k) && NoAllowedSince(h', k);
    }
    if IsProbe(cfg, h', |h|) && !e.Allowed? {
      assert NoAllowedSince(h', |h|);
    }
    if Probed(cfg, h') {
      var k :| 0 <= k < |h'| && IsProbe(cfg, h', k) && NoAllowedSince(h', k);
      assert !h'[|h|].Allowed?;
      if k < |h| {
        assert forall j :: k <= j < |h| ==> h[j] == h'[j];
        assert IsProbe(cfg, h, k) && NoAllowedSince(h, k);
      }
    }
  }

  lemma {:induction false} TrailingGrows(h: seq<Event>, k: nat)
    requires k <= |h| && NoAllowedSince(h, k)
    ensures Trailing(h) >= Trailing(h[..k])
    decreases |h|
  {
    if k == |h| {
      assert h[..k] == h;
    } else {
      assert h[..|h| - 1][..k] == h[..k];
      TrailingGrows(h[..|h| - 1], k);
    }
  }

  lemma ProbedMeansTripped(cfg: Config, h: seq<Event>)
    requires Probed(cfg, h)
    ensures Trailing(h) >= Effective(cfg)
  {
    var k :| 0 <= k < |h| && IsProbe(cfg, h, k) && NoAllowedSince(h, k);
    TrailingGrows(h, k);
  }

  /** `failures` is the length of the trailing run of blocked records, and the mode is determined by
      the history: closed exactly while that run is below the threshold. */
  lemma {:induction false} StateIsHistory(cfg: Config, h: seq<Event>)
    ensures var b := After(cfg, h);
            b.failures == Trailing(h) && b.lastFailure == LastBlocked(h) && b.mode == ModeOf(cfg, h)
    decreases |h|
  {
    if h != [] {
      var h0, e := h[..|h| - 1], h[|h| - 1];
      assert h == h0 + [e];
      StateIsHistory(cfg, h0);
      ProbedStep(cfg, h0, e);
      if Probed(cfg, h0) {
        ProbedMeansTripped(cfg, h0);
      }
      assert h[..|h0|] == h0;
    }
  }

  // ----- transitions

  lemma CountsExtend(p: nat -> bool, q: nat -> bool, n: nat)
    requires forall k: nat :: k < n ==> p(k) == q(k)
    ensures CountRange(q, 0, n + 1) == CountRange(p, 0, n) + (if q(n) then 1 else 0)
  {}

  lemma HistoryExtends(cfg: Config, h: seq<Event>, e: Event, k: nat)
    requires k < |h|
    ensures Trips(cfg, h + [e])(k) == Trips(cfg, h)(k)
    ensures Recoveries(cfg, h + [e])(k) == Recoveries(cfg, h)(k)
    ensures Resets(cfg, h + [e])(k) == Resets(cfg, h)(k)
  {
    assert (h + [e])[..k] == h[..k];
  }

  lemma TransitionStep(cfg: Config, h: seq<Event>, e: Event)
    ensures var b, b', h' := After(cfg, h), After(cfg, h + [e]), h + [e];
            && b'.trips == b.trips + (if Trips(cfg, h')(|h|) then 1 else 0)
            && b'.recoveries == b.recoveries + (if Recoveries(cfg, h')(|h|) then 1 else 0)
            && b'.resets == b.resets + (if Resets(cfg, h')(|h|) then 1 else 0)
  {
    StateIsHistory(cfg, h);
    assert (h + [e])[..|h|] == h;
  }

  /** The counters, too, are determined by the history: a trip is a blocked record that brings the
      run to the threshold, a recovery an allowed record after it, and a reset callback an allowed
      record after a probe. */
  lemma {:induction false} TransitionsAreHistory(cfg: Config, h: seq<Event>)
    ensures var b := After(cfg, h);
            && b.trips == CountRange(Trips(cfg, h), 0, |h|)
            && b.recoveries == CountRange(Recoveries(cfg, h), 0, |h|)
            && b.resets == CountRange(Resets(cfg, h), 0, |h|)
    decreases |h|
  {
    hide Apply, Trips, Recoveries, Resets;
    if h != [] {
      var n := |h| - 1;
      var h0, e := h[..n], h[n];
      assert h == h0 + [e];
      TransitionsAreHistory(cfg, h0);
      TransitionStep(cfg, h0, e);
      forall k: nat | k < n
        ensures Trips(cfg, h0)(k) == Trips(cfg, h)(k) && Recoveries(cfg, h0)(k) == Recoveries(cfg, h)(k)
        ensures Resets(cfg, h0)(k) == Resets(cfg, h)(k)
      {
        HistoryExtends(cfg, h0, e, k);
      }
      CountsExtend(Trips(cfg, h0), Trips(cfg, h), n);
      CountsExtend(Recoveries(cfg, h0), Recoveries(cfg, h), n);
      CountsExtend(Resets(cfg, h0), Resets(cfg, h), n);
    }
  }

  /** Trips and recoveries alternate, and a reset callback fires at most once per trip. */
  lemma {:induction false} TripsBalance(cfg: Config, h: seq<Event>)
    ensures var b := After(cfg, h);
            b.trips - b.recoveries == (if b.mode == Closed then 0 else 1) && b.resets <= b.recoveries <= b.trips
    decreases |h|
  {
    if h != [] {
      TripsBalance(cfg, h[..|h| - 1]);
      StateIsHistory(cfg, h[..|h| - 1]);
    }
  }

  /** However many checks and blocked records follow, a half-open circuit stays half-open without tripping
      again until the first allowed record closes it. */
  lemma {:induction false} HalfOpenLeavesOnlyByAllowed(cfg: Config, h: seq<Event>, more: seq<Event>)
    requires After(cfg, h).mode == HalfOpen
    ensures NoAllowedSince(more, 0) ==>
              && After(cfg, h + more).mode == HalfOpen
              && After(cfg, h + more).trips == After(cfg, h).trips
              && After(cfg, h + more).resets == After(cfg, h).resets
    ensures more != [] && NoAllowedSince(more[..|more| - 1], 0) && more[|more| - 1].Allowed? ==>
              After(cfg, h + more).mode == Closed && After(cfg, h + more).resets == After(cfg, h).resets + 1
    decreases |more|
  {
    if more == [] {
      assert h + more == h;
    } else {
      var first := more[..|more| - 1];
      HalfOpenLeavesOnlyByAllowed(cfg, h, first);
      assert (h + more)[..|h + more| - 1] == h + first;
    }
  }

  // ----- the middleware: overlapping requests

  /** Where one request stands: to be checked, forwarded with the last status written so far,
      turned away, or recorded. */
  datatype Pc = Arriving | Forwarded(status: int) | TurnedAway | Recorded(blocked: bool)

  datatype State = State(breaker: Breaker, history: seq<Event>, pcs: seq<Pc>)

  datatype Step = Admit(t: nat, at: int) | WriteHeader(t: nat, code: int) | Record(t: nat, at: int)

  const OK := 200
  const TOO_MANY_REQUESTS := 429

  predicate Enabled(s: State, e: Step) {
    e.t < |s.pcs| && if e.Admit? then s.pcs[e.t].Arriving? else s.pcs[e.t].Forwarded?
  }

  function Perform(cfg: Config, s: State, e: Step): State
    requires Enabled(s, e)
  {
    match e
    case Admit(t, at) =>
      var b := Apply(cfg, s.breaker, Check(at));
      State(b, s.history + [Check(at)], s.pcs[t := if b.mode == Open then TurnedAway else Forwarded(OK)])
    case WriteHeader(t, code) => s.(pcs := s.pcs[t := Forwarded(code)])
    case Record(t, at) =>
      var blocked := s.pcs[t].status == TOO_MANY_REQUESTS;
      var event := if blocked then Blocked(at) else Allowed;
      State(Apply(cfg, s.breaker, event), s.history + [event], s.pcs[t := Recorded(blocked)])
  }

  ghost predicate IsRun(cfg: Config, tr: seq<State>, sched: seq<Step>) {
    && |tr| == |sched| + 1
    && tr[0].breaker == FRESH && tr[0].history == [] && (forall t :: 0 <= t < |tr[0].pcs| ==> tr[0].pcs[t].Arriving?)
    && forall i :: 0 <= i < |sched| ==> Enabled(tr[i], sched[i]) && tr[i + 1] == Perform(cfg, tr[i], sched[i])
  }

  predicate WasBlocked(pc: Pc) { pc == Recorded(true) }

  predicate WasAllowed(pc: Pc) { pc == Recorded(false) }

  predicate IsBlocked(e: Event) { e.Blocked? }

  predicate IsAllowed(e: Event) { e.Allowed? }

  lemma StepKeepsRecords(cfg: Config, s: State, e: Step)
    requires Enabled(s, e)
    ensures s.breaker == After(cfg, s.history) ==> Perform(cfg, s, e).breaker == After(cfg, Perform(cfg, s, e).history)
    ensures var s' := Perform(cfg, s, e);
            && Count(s'.history, IsBlocked) - Count(s.history, IsBlocked)
               == Count(s'.pcs, WasBlocked) - Count(s.pcs, WasBlocked)
            && Count(s'.history, IsAllowed) - Count(s.history, IsAllowed)
               == Count(s'.pcs, WasAllowed) - Count(s.pcs, WasAllowed)
  {
    var s' := Perform(cfg, s, e);
    CountUpdate(s.pcs, e.t, s'.pcs[e.t], WasBlocked);
    CountUpdate(s.pcs, e.t, s'.pcs[e.t], WasAllowed);
    if !e.WriteHeader? {
      assert s'.history[..|s.history|] == s.history;
      CountAppend(s.history, s'.history[|s.history|], IsBlocked);
      CountAppend(s.history, s'.history[|s.history|], IsAllowed);
    }
  }

  /** In every interleaving of overlapping requests the breaker is where its history puts it, and the
      history holds exactly one record per finished forwarded request. */
  lemma {:induction false} OverlappingRequestsAreSerialised(cfg: Config, tr: seq<State>, sched: seq<Step>, n: nat)
    requires IsRun(cfg, tr, sched) && n < |tr|
    ensures tr[n].breaker == After(cfg, tr[n].history)
    ensures Count(tr[n].history, IsBlocked) == Count(tr[n].pcs, WasBlocked)
    ensures Count(tr[n].history, IsAllowed) == Count(tr[n].pcs, WasAllowed)
  {
    hide Perform, Apply;
    if n == 0 {
      CountNone(tr[0].pcs, WasBlocked);
      CountNone(tr[0].pcs, WasAllowed);
    } else {
      OverlappingRequestsAreSerialised(cfg, tr, sched, n - 1);
      StepKeepsRecords(cfg, tr[n - 1], sched[n - 1]);
    }
  }

  /** The status that the handler of request `t` wrote last before step `n`, 200 if it wrote none. */
  function LastStatus(sched: seq<Step>, n: nat, t: nat): int
    requires n <= |sched|
  {
    if n == 0 then 200
    else if sched[n - 1].WriteHeader? && sched[n - 1].t == t then sched[n - 1].code
    else LastStatus(sched, n - 1, t)
  }

  lemma {:induction false} ForwardedStatus(cfg: Config, tr: seq<State>, sched: seq<Step>, n: nat, t: nat)
    requires IsRun(cfg, tr, sched) && n < |tr| && t < |tr[n].pcs|
    ensures tr[n].pcs[t].Forwarded? ==> tr[n].pcs[t].status == LastStatus(sched, n, t)
    ensures tr[n].pcs[t].Arriving? ==> LastStatus(sched, n, t) == 200
  {
    if n > 0 {
      ForwardedStatus(cfg, tr, sched, n - 1, t);
    }
  }

  /** What the breaker is told in the first `n` steps: a check per arrival, and per response a blocked record
      exactly for the status 429. */
  function Told(sched: seq<Step>, n: nat): seq<Event>
    requires n <= |sched|
  {
    if n == 0 then []
    else
      var told := Told(sched, n - 1);
      match sched[n - 1]
      case Admit(_, at) => told + [Check(at)]
      case WriteHeader(_, _) => told
      case Record(t, at) => told + [if LastStatus(sched, n - 1, t) == 429 then Blocked(at) else Allowed]
  }

  lemma {:induction false} HistoryIsTold(cfg: Config, tr: seq<State>, sched: seq<Step>, n: nat)
    requires IsRun(cfg, tr, sched) && n < |tr|
    ensures tr[n].history == Told(sched, n)
  {
    hide Apply;
    if n > 0 {
      HistoryIsTold(cfg, tr, sched, n - 1);
      if sched[n - 1].Record? {
        ForwardedStatus(cfg, tr, sched, n - 1, sched[n - 1].t);
      }
    }
  }

  /** A request is turned away exactly when the records so far leave the circuit tripped and neither an
      earlier check nor its own has come late enough to probe it. */
  lemma TurnedAwayIff(cfg: Config, tr: seq<State>, sched: seq<Step>, n: nat)
    requires IsRun(cfg, tr, sched) && n < |sched| && sched[n].Admit?
    ensures tr[n + 1].pcs[sched[n].t].TurnedAway? <==>
            && Trailing(tr[n].history) >= Effective(cfg)
            && !Probed(cfg, tr[n].history)
            && sched[n].at - LastBlocked(tr[n].history) < cfg.resetAfter
  {
    OverlappingRequestsAreSerialised(cfg, tr, sched, n);
    StateIsHistory(cfg, tr[n].history);
  }

  predicate IsDone(pc: Pc) { pc.TurnedAway? || pc.Recorded? }

  /** Whatever the breaker does, a request that has not been answered can go on. */
  lemma NeverStuck(s: State, t: nat) returns (e: Step)
    requires t < |s.pcs| && !IsDone(s.pcs[t])
    ensures e.t == t && Enabled(s, e) && !e.WriteHeader?
  {
    e := if s.pcs[t].Arriving? then Admit(t, 0) else Record(t, 0);
  }

  // ----- the breaker object

  datatype Option = TripThreshold(n: int) | ResetAfter(d: int)

  const DEFAULT := Config(5, 30_000_000_000)

  function With(cfg: Config, o: Option): Config {
    if o.TripThreshold? then cfg.(threshold := o.n) else cfg.(resetAfter := o.d)
  }

  /** `o` is the last option of its kind. */
  ghost predicate IsLast(options: seq<Option>, o: Option) {
    exists i :: 0 <= i < |options| && options[i] == o
                && forall j :: i < j < |options| ==> options[j].TripThreshold? != o.TripThreshold?
  }

  /** The last option of a kind decides; without one there is a default. */
  function Configured(options: seq<Option>): (cfg: Config)
    ensures (cfg.threshold == 5 && forall i :: 0 <= i < |options| ==> !options[i].TripThreshold?)
            || IsLast(options, TripThreshold(cfg.threshold))
    ensures (cfg.resetAfter == 30_000_000_000 && forall i :: 0 <= i < |options| ==> !options[i].ResetAfter?)
            || IsLast(options, ResetAfter(cfg.resetAfter))
  {
    if options == [] then DEFAULT else With(Configured(options[..|options| - 1]), options[|options| - 1])
  }

  class Circuit {
    const cfg: Config
    var mode: Mode
    var failures: int
    var lastFailure: int
    var trips: nat
    var recoveries: nat
    var resets: nat
    ghost var history: seq<Event>

    function Snapshot(): Breaker
      reads this
    {
      Breaker(mode, failures, lastFailure, trips, recoveries, resets)
    }

    ghost predicate Valid()
      reads this
    {
      Snapshot() == After(cfg, history)
    }

    constructor (options: seq<Option>)
      ensures Valid() && history == [] && cfg == Configured(options)
    {
      var c := DEFAULT;
      for i := 0 to |options|
        invariant c == Configured(options[..i])
      {
        assert options[..i + 1][..i] == options[..i];
        c := if options[i].TripThreshold? then c.(threshold := options[i].n) else c.(resetAfter := options[i].d);
      }
      assert options[..|options|] == options;
      cfg := c;
      mode, failures, lastFailure, trips, recoveries, resets := Closed, 0, 0, 0, 0, 0;
      history := [];
    }

    ghost method Log(e: Event)
      requires Snapshot() == Apply(cfg, After(cfg, history), e)
      modifies this`history
      ensures Valid() && history == old(history) + [e]
    {
      assert (history + [e])[..|history|] == history;
      history := history + [e];
    }

    method CurrentState(now: int) returns (state: Mode)
      requires Valid()
      modifies this
      ensures Valid() && history == old(history) + [Check(now)]
      ensures state == ModeOf(cfg, history)
    {
      if mode == Open && now - lastFailure >= cfg.resetAfter {
        mode := HalfOpen;
      }
      state := mode;
      Log(Check(now));
      StateIsHistory(cfg, history);
    }

    method RecordBlocked(now: int)
      requires Valid()
      modifies this
      ensures Valid() && history == old(history) + [Blocked(now)]
    {
      failures := failures + 1;
      lastFailure := now;
      if mode == Closed && failures >= cfg.threshold {
        mode := Open;
        trips := trips + 1;
      }
      Log(Blocked(now));
    }

    method RecordAllowed()
      requires Valid()
      modifies this
      ensures Valid() && history == old(history) + [Allowed]
    {
      if mode == HalfOpen || failures > 0 {
        var previous := mode;
        mode, failures := Closed, 0;
        if previous != Closed {
          recoveries := recoveries + 1;
        }
        if previous == HalfOpen {
          resets := resets + 1;
        }
      }
      Log(Allowed);
    }
  }
}

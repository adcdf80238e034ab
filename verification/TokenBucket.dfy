/** The token bucket over Redis. One clock in milliseconds; amounts are exact, in grains: a token is
    `window` grains, so that a millisecond refills `rate` grains. */
module TokenBucket {
  import opened Arithmetic
  import opened Counting
  import opened TimedStore

  /** `rate` requests per `window` milliseconds, up to `burst` at once. */
  datatype Config = Config(rate: nat, burst: int, window: nat)

  predicate ValidConfig(cfg: Config) { cfg.window >= 1 }

  function Capacity(cfg: Config): int { cfg.burst * cfg.window }

  /** The two stored keys of one bucket: the tokens left by the last admission and its time. */
  datatype Bucket = Absent | Held(grains: int, at: int)

  function Ttl(cfg: Config): nat { 2 * cfg.window }

  predicate Gone(cfg: Config, b: Bucket, now: int) { b.Absent? || now > b.at + Ttl(cfg) }

  function Refilled(cfg: Config, grains: int, at: int, now: int): int {
    Min(Capacity(cfg), grains + Max(0, now - at) * cfg.rate)
  }

  /** The tokens the script finds at `now`. */
  function Level(cfg: Config, b: Bucket, now: int): int {
    if Gone(cfg, b, now) then Capacity(cfg) else Refilled(cfg, b.grains, b.at, now)
  }

  predicate Admits(cfg: Config, b: Bucket, now: int) { Level(cfg, b, now) >= cfg.window }

  /** The script: a refusal writes nothing. */
  function Spend(cfg: Config, b: Bucket, now: int): Bucket {
    if Admits(cfg, b, now) then Held(Level(cfg, b, now) - cfg.window, now) else b
  }

  /** The bucket after the first `n` calls of a run that starts with `b`. */
  function After(cfg: Config, b: Bucket, times: seq<int>, n: nat): Bucket
    requires n <= |times|
  {
    if n == 0 then b else Spend(cfg, After(cfg, b, times, n - 1), times[n - 1])
  }

  predicate Verdict(cfg: Config, b: Bucket, times: seq<int>, i: nat) {
    i < |times| && Admits(cfg, After(cfg, b, times, i), times[i])
  }

  function Verdicts(cfg: Config, b: Bucket, times: seq<int>): nat -> bool {
    (i: nat) => Verdict(cfg, b, times, i)
  }

  // ----- the reference bucket: refills and writes on every call, and never expires

  datatype Reservoir = Reservoir(grains: int, at: int)

  function Fill(cfg: Config, r: Reservoir, now: int): int { Refilled(cfg, r.grains, r.at, now) }

  predicate Grants(cfg: Config, r: Reservoir, now: int) { Fill(cfg, r, now) >= cfg.window }

  function Draw(cfg: Config, r: Reservoir, now: int): Reservoir {
    Reservoir(Fill(cfg, r, now) - (if Grants(cfg, r, now) then cfg.window else 0), now)
  }

  function Full(cfg: Config, at: int): Reservoir { Reservoir(Capacity(cfg), at) }

  /** The reference bucket after the first `n` calls, full at the time of the first. */
  function RefAfter(cfg: Config, times: seq<int>, n: nat): Reservoir
    requires n <= |times|
  {
    if n == 0 then Full(cfg, if times == [] then 0 else times[0])
    else Draw(cfg, RefAfter(cfg, times, n - 1), times[n - 1])
  }

  predicate RefVerdict(cfg: Config, times: seq<int>, i: nat) {
    i < |times| && Grants(cfg, RefAfter(cfg, times, i), times[i])
  }

  function RefVerdicts(cfg: Config, times: seq<int>): nat -> bool {
    (i: nat) => RefVerdict(cfg, times, i)
  }

  // ----- refinement

  /** A key is dropped only after a time in which any bucket refills completely. */
  predicate ExpiryIsHarmless(cfg: Config) { Capacity(cfg) <= (Ttl(cfg) + 1) * cfg.rate }

  lemma Elapsed(rate: nat, d: nat, e: nat)
    ensures (d + e) * rate == d * rate + e * rate
    ensures d <= e ==> d * rate <= e * rate
    ensures 0 <= d * rate
  {}

  /** Refilling in two stages is refilling in one. */
  lemma RefillComposes(cfg: Config, grains: int, at: int, mid: int, now: int)
    requires at <= mid <= now
    ensures Refilled(cfg, Refilled(cfg, grains, at, mid), mid, now) == Refilled(cfg, grains, at, now)
  {}

  /** The reference bucket holds what the stored one would have refilled to by its time. */
  ghost predicate Tracks(cfg: Config, b: Bucket, r: Reservoir) {
    && (b.Absent? ==> r.grains == Capacity(cfg))
    && (b.Held? ==> 0 <= b.grains <= Capacity(cfg) && b.at <= r.at && r.grains == Refilled(cfg, b.grains, b.at, r.at))
  }

  lemma SameLevel(cfg: Config, b: Bucket, r: Reservoir, now: int)
    requires ValidConfig(cfg) && ExpiryIsHarmless(cfg) && Tracks(cfg, b, r) && r.at <= now
    ensures Level(cfg, b, now) == Fill(cfg, r, now)
  {
    Elapsed(cfg.rate, now - r.at, 0);
    if b.Held? {
      RefillComposes(cfg, b.grains, b.at, r.at, now);
      if Gone(cfg, b, now) {
        Elapsed(cfg.rate, Ttl(cfg) + 1, now - b.at);
      }
    }
  }

  lemma SameStep(cfg: Config, b: Bucket, r: Reservoir, now: int)
    requires ValidConfig(cfg) && ExpiryIsHarmless(cfg) && Tracks(cfg, b, r) && r.at <= now
    ensures Admits(cfg, b, now) == Grants(cfg, r, now)
    ensures Tracks(cfg, Spend(cfg, b, now), Draw(cfg, r, now))
  {
    SameLevel(cfg, b, r, now);
    if !Admits(cfg, b, now) && b.Held? {
      RefillComposes(cfg, b.grains, b.at, r.at, now);
    }
  }

  lemma {:induction false} RunsTrack(cfg: Config, times: seq<int>, n: nat)
    requires ValidConfig(cfg) && ExpiryIsHarmless(cfg) && Nondecreasing(times) && n <= |times|
    ensures Tracks(cfg, After(cfg, Absent, times, n), RefAfter(cfg, times, n))
    ensures n < |times| ==> RefAfter(cfg, times, n).at <= times[n]
  {
    if n > 0 {
      RunsTrack(cfg, times, n - 1);
      SameStep(cfg, After(cfg, Absent, times, n - 1), RefAfter(cfg, times, n - 1), times[n - 1]);
    }
  }

  lemma VerdictsAgree(cfg: Config, times: seq<int>, i: nat)
    requires ValidConfig(cfg) && ExpiryIsHarmless(cfg) && Nondecreasing(times)
    ensures Verdict(cfg, Absent, times, i) == RefVerdict(cfg, times, i)
  {
    if i < |times| {
      RunsTrack(cfg, times, i);
      SameStep(cfg, After(cfg, Absent, times, i), RefAfter(cfg, times, i), times[i]);
    }
  }

  // ----- the admission bound

  lemma {:induction false} RefWithin(cfg: Config, times: seq<int>, n: nat)
    requires n <= |times|
    ensures Min(0, Capacity(cfg)) <= RefAfter(cfg, times, n).grains <= Capacity(cfg)
    ensures n > 0 ==> RefAfter(cfg, times, n).at == times[n - 1]
  {
    if n > 0 {
      RefWithin(cfg, times, n - 1);
      Elapsed(cfg.rate, Max(0, times[n - 1] - RefAfter(cfg, times, n - 1).at), 0);
    }
  }

  /** The grains spent by the calls `i..j`. */
  function Spent(cfg: Config, times: seq<int>, i: nat, j: nat): nat
    requires i <= j
    decreases j
  {
    if i == j then 0 else Spent(cfg, times, i, j - 1) + (if RefVerdict(cfg, times, j - 1) then cfg.window else 0)
  }

  /** The grains refilled between the first and the last of the calls `i..j`. */
  function Flow(cfg: Config, times: seq<int>, i: nat, j: nat): int
    requires i < j <= |times|
    decreases j
  {
    if i + 1 == j then 0 else Flow(cfg, times, i, j - 1) + (times[j - 1] - times[j - 2]) * cfg.rate
  }

  lemma {:induction false} SpentIsAdmitted(cfg: Config, times: seq<int>, i: nat, j: nat)
    requires i <= j
    ensures Spent(cfg, times, i, j) == Times(CountRange(RefVerdicts(cfg, times), i, j), cfg.window)
    decreases j
  {
    hide RefVerdict;
    if i < j {
      SpentIsAdmitted(cfg, times, i, j - 1);
    }
  }

  lemma {:induction false} FlowIsElapsed(cfg: Config, times: seq<int>, i: nat, j: nat)
    requires i < j <= |times|
    ensures Flow(cfg, times, i, j) == (times[j - 1] - times[i]) * cfg.rate
    decreases j
  {
    if i + 1 < j {
      FlowIsElapsed(cfg, times, i, j - 1);
      SpanSplits(cfg.rate, times[i], times[j - 2], times[j - 1]);
    }
  }

  lemma SpanSplits(rate: nat, start: int, mid: int, end: int)
    ensures (end - start) * rate == (mid - start) * rate + (end - mid) * rate
  {}

  /** What was spent since call `i`, plus what is left, never exceeds what was there plus the refill. */
  lemma {:induction false} RefPotential(cfg: Config, times: seq<int>, i: nat, j: nat)
    requires ValidConfig(cfg) && Nondecreasing(times) && i < j <= |times|
    ensures Spent(cfg, times, i, j) + RefAfter(cfg, times, j).grains
         <= Fill(cfg, RefAfter(cfg, times, i), times[i]) + Flow(cfg, times, i, j)
    decreases j
  {
    if i + 1 < j {
      RefPotential(cfg, times, i, j - 1);
      RefWithin(cfg, times, j - 1);
    }
  }

  /** The reference bucket admits at most `burst` plus the refill over any stretch of calls. */
  lemma RefBound(cfg: Config, times: seq<int>, i: nat, j: nat)
    requires ValidConfig(cfg) && Nondecreasing(times) && i < j <= |times|
    ensures CountRange(RefVerdicts(cfg, times), i, j) * cfg.window
         <= Max(0, Capacity(cfg)) + (times[j - 1] - times[i]) * cfg.rate
  {
    RefPotential(cfg, times, i, j);
    SpentIsAdmitted(cfg, times, i, j);
    TimesIsProduct(CountRange(RefVerdicts(cfg, times), i, j), cfg.window);
    FlowIsElapsed(cfg, times, i, j);
    RefWithin(cfg, times, j);
    Elapsed(cfg.rate, times[j - 1] - times[i], 0);
    if Capacity(cfg) < 0 {
      forall k: nat | i <= k < j ensures !RefVerdicts(cfg, times)(k) {}
      CountRangeNone(RefVerdicts(cfg, times), i, j);
    }
  }

  /** Over every stretch of calls `i..j` of every run, at most `burst` plus the refill are admitted. */
  ghost predicate BoundHolds(cfg: Config, times: seq<int>) {
    forall i, j {:trigger CountRange(Verdicts(cfg, Absent, times), i, j)} :: 0 <= i < j <= |times| ==>
      CountRange(Verdicts(cfg, Absent, times), i, j) * cfg.window
        <= Max(0, Capacity(cfg)) + (times[j - 1] - times[i]) * cfg.rate
  }

  ghost predicate SameVerdicts(cfg: Config, times: seq<int>) {
    forall i: nat :: Verdict(cfg, Absent, times, i) == RefVerdict(cfg, times, i)
  }

  lemma SameVerdictsGiveBound(cfg: Config, times: seq<int>)
    requires ValidConfig(cfg) && Nondecreasing(times) && SameVerdicts(cfg, times)
    ensures BoundHolds(cfg, times)
  {
    forall i, j | 0 <= i < j <= |times|
      ensures CountRange(Verdicts(cfg, Absent, times), i, j) * cfg.window
           <= Max(0, Capacity(cfg)) + (times[j - 1] - times[i]) * cfg.rate
    {
      CountRangeImplies(Verdicts(cfg, Absent, times), RefVerdicts(cfg, times), i, j);
      CountRangeImplies(RefVerdicts(cfg, times), Verdicts(cfg, Absent, times), i, j);
      RefBound(cfg, times, i, j);
    }
  }

  // ----- when the expiry can be observed

  /** Drain a fresh bucket at time 0 and again just after its keys expire. */
  function DrainTwice(cfg: Config): seq<int>
    requires cfg.burst >= 0
  {
    seq(2 * cfg.burst, i => if i < cfg.burst then 0 else Ttl(cfg) + 1)
  }

  lemma FirstOfBurst(cfg: Config, b: Bucket, now: int)
    requires ValidConfig(cfg) && cfg.burst >= 1 && Gone(cfg, b, now)
    ensures Admits(cfg, b, now) && Spend(cfg, b, now) == Held((cfg.burst - 1) * cfg.window, now)
  {}

  lemma NextOfBurst(cfg: Config, m: nat, now: int)
    requires ValidConfig(cfg) && 1 <= m <= cfg.burst
    ensures Admits(cfg, Held(m * cfg.window, now), now)
    ensures Spend(cfg, Held(m * cfg.window, now), now) == Held((m - 1) * cfg.window, now)
  {}

  function DrainTwiceAt(cfg: Config, n: nat): Bucket {
    if n == 0 then Absent
    else if n <= cfg.burst then Held((cfg.burst - n) * cfg.window, 0)
    else Held((2 * cfg.burst - n) * cfg.window, Ttl(cfg) + 1)
  }

  lemma DrainTwiceStep(cfg: Config, n: nat)
    requires ValidConfig(cfg) && cfg.burst >= 1 && n < 2 * cfg.burst
    ensures Admits(cfg, DrainTwiceAt(cfg, n), DrainTwice(cfg)[n])
    ensures Spend(cfg, DrainTwiceAt(cfg, n), DrainTwice(cfg)[n]) == DrainTwiceAt(cfg, n + 1)
  {
    hide Admits, Spend;
    if n == 0 || n == cfg.burst {
      FirstOfBurst(cfg, DrainTwiceAt(cfg, n), DrainTwice(cfg)[n]);
    } else {
      NextOfBurst(cfg, if n < cfg.burst then cfg.burst - n else 2 * cfg.burst - n, DrainTwice(cfg)[n]);
    }
  }

  lemma {:induction false} DrainTwiceState(cfg: Config, n: nat)
    requires ValidConfig(cfg) && cfg.burst >= 1 && n <= 2 * cfg.burst
    ensures After(cfg, Absent, DrainTwice(cfg), n) == DrainTwiceAt(cfg, n)
    ensures n < 2 * cfg.burst ==> Verdict(cfg, Absent, DrainTwice(cfg), n)
  {
    hide Admits, Spend;
    if n > 0 {
      DrainTwiceState(cfg, n - 1);
      DrainTwiceStep(cfg, n - 1);
    }
    if n < 2 * cfg.burst {
      DrainTwiceStep(cfg, n);
    }
  }

  lemma HarmfulNeedsBurst(cfg: Config)
    requires !ExpiryIsHarmless(cfg)
    ensures cfg.burst >= 1
  {}

  lemma DrainTwiceAdmitsAll(cfg: Config)
    requires ValidConfig(cfg) && cfg.burst >= 1
    ensures CountRange(Verdicts(cfg, Absent, DrainTwice(cfg)), 0, 2 * cfg.burst) == 2 * cfg.burst
  {
    var p := Verdicts(cfg, Absent, DrainTwice(cfg));
    forall k: nat | 0 <= k < 2 * cfg.burst ensures p(k) { DrainTwiceState(cfg, k); }
    CountRangeAll(p, 0, 2 * cfg.burst);
  }

  lemma TwoBurstsAreTooMany(cfg: Config, n: nat)
    requires !ExpiryIsHarmless(cfg) && cfg.burst >= 1 && n == 2 * cfg.burst
    ensures n * cfg.window > Max(0, Capacity(cfg)) + (Ttl(cfg) + 1) * cfg.rate
  {}

  /** Two full bursts fit into `2 * window + 1` milliseconds when the expiry is not harmless. */
  lemma DrainTwiceBreaksBound(cfg: Config)
    requires ValidConfig(cfg) && !ExpiryIsHarmless(cfg)
    ensures cfg.burst >= 1 && Nondecreasing(DrainTwice(cfg)) && !BoundHolds(cfg, DrainTwice(cfg))
  {
    hide Verdicts, Capacity, ExpiryIsHarmless;
    HarmfulNeedsBurst(cfg);
    DrainTwiceAdmitsAll(cfg);
    var times, n := DrainTwice(cfg), 2 * cfg.burst;
    TwoBurstsAreTooMany(cfg, n);
    assert times[n - 1] - times[0] == Ttl(cfg) + 1;
    assert CountRange(Verdicts(cfg, Absent, times), 0, n) == n;
  }

  /** The code, which writes only on admission and lets its keys expire, cannot be told from the
      reference bucket on any run exactly when the expiry is harmless. */
  lemma RefinesReferenceIff(cfg: Config)
    requires ValidConfig(cfg)
    ensures cfg.burst * cfg.window <= (2 * cfg.window + 1) * cfg.rate
       <==> forall times :: Nondecreasing(times) ==> SameVerdicts(cfg, times)
  {
    if ExpiryIsHarmless(cfg) {
      forall times | Nondecreasing(times) ensures SameVerdicts(cfg, times) {
        forall i: nat ensures Verdict(cfg, Absent, times, i) == RefVerdict(cfg, times, i) {
          VerdictsAgree(cfg, times, i);
        }
      }
    } else {
      DrainTwiceBreaksBound(cfg);
      var times := DrainTwice(cfg);
      if SameVerdicts(cfg, times) {
        SameVerdictsGiveBound(cfg, times);
      }
    }
  }

  /** The admission bound holds over every stretch of every run under exactly the same condition. */
  lemma AdmissionBoundIff(cfg: Config)
    requires ValidConfig(cfg)
    ensures cfg.burst * cfg.window <= (2 * cfg.window + 1) * cfg.rate
       <==> forall times :: Nondecreasing(times) ==> BoundHolds(cfg, times)
  {
    if ExpiryIsHarmless(cfg) {
      RefinesReferenceIff(cfg);
      forall times | Nondecreasing(times) ensures BoundHolds(cfg, times) {
        SameVerdictsGiveBound(cfg, times);
      }
    } else {
      DrainTwiceBreaksBound(cfg);
    }
  }

  // ----- a call is refused only to keep the bound

  /** Admitting call `i` as well keeps the bound over every stretch that ends with it. */
  ghost predicate Fits(cfg: Config, times: seq<int>, admitted: nat -> bool, i: nat)
    requires i < |times|
  {
    forall k: nat {:trigger CountRange(admitted, k, i)} :: k <= i ==>
      (CountRange(admitted, k, i) + 1) * cfg.window <= cfg.burst * cfg.window + (times[i] - times[k]) * cfg.rate
  }

  lemma FillStep(cfg: Config, times: seq<int>, i: nat)
    requires Nondecreasing(times) && i + 1 < |times|
    ensures Fill(cfg, RefAfter(cfg, times, i + 1), times[i + 1])
         == Min(Capacity(cfg), Fill(cfg, RefAfter(cfg, times, i), times[i])
                               - (if RefVerdict(cfg, times, i) then cfg.window else 0)
                               + (times[i + 1] - times[i]) * cfg.rate)
  {}

  lemma FirstFindsFull(cfg: Config, times: seq<int>)
    requires times != []
    ensures Fill(cfg, RefAfter(cfg, times, 0), times[0]) == Capacity(cfg)
  {}

  /** Since it was last full the reference bucket has lost exactly what was spent and gained the refill. */
  lemma {:induction false} LastFull(cfg: Config, times: seq<int>, i: nat) returns (k: nat)
    requires ValidConfig(cfg) && Nondecreasing(times) && i < |times|
    ensures k <= i
    ensures Spent(cfg, times, k, i) + Fill(cfg, RefAfter(cfg, times, i), times[i])
         == Capacity(cfg) + (times[i] - times[k]) * cfg.rate
  {
    hide Fill, RefVerdict, Capacity, RefAfter;
    if i == 0 {
      FirstFindsFull(cfg, times);
      k := 0;
    } else if Fill(cfg, RefAfter(cfg, times, i), times[i]) == Capacity(cfg) {
      k := i;
    } else {
      k := LastFull(cfg, times, i - 1);
      FillStep(cfg, times, i - 1);
      SpanSplits(cfg.rate, times[k], times[i - 1], times[i]);
    }
  }

  lemma RefVerdictFits(cfg: Config, times: seq<int>, i: nat)
    requires ValidConfig(cfg) && Nondecreasing(times) && i < |times|
    ensures RefVerdict(cfg, times, i) <==> Fits(cfg, times, RefVerdicts(cfg, times), i)
  {
    var p := RefVerdicts(cfg, times);
    if RefVerdict(cfg, times, i) {
      RefWithin(cfg, times, i);
      assert Capacity(cfg) >= 0;
      hide Fill, RefVerdict, RefAfter;
      forall k: nat | k <= i
        ensures (CountRange(p, k, i) + 1) * cfg.window <= cfg.burst * cfg.window + (times[i] - times[k]) * cfg.rate
      {
        RefBound(cfg, times, k, i + 1);
        assert CountRange(p, k, i + 1) == CountRange(p, k, i) + 1;
      }
    } else {
      hide RefVerdicts, RefAfter;
      var k := LastFull(cfg, times, i);
      SpentIsAdmitted(cfg, times, k, i);
      TimesIsProduct(CountRange(p, k, i), cfg.window);
      OneMore(CountRange(p, k, i), cfg.window);
      assert (CountRange(p, k, i) + 1) * cfg.window > cfg.burst * cfg.window + (times[i] - times[k]) * cfg.rate;
    }
  }

  ghost predicate AdmitsWhatFits(cfg: Config, times: seq<int>) {
    forall i: nat :: i < |times| ==>
      (Verdict(cfg, Absent, times, i) <==> Fits(cfg, times, Verdicts(cfg, Absent, times), i))
  }

  lemma FitsDependsOnVerdicts(cfg: Config, times: seq<int>, p: nat -> bool, q: nat -> bool, i: nat)
    requires i < |times| && forall k: nat :: p(k) == q(k)
    ensures Fits(cfg, times, p, i) ==> Fits(cfg, times, q, i)
  {
    forall k: nat | k <= i ensures CountRange(p, k, i) == CountRange(q, k, i) {
      CountRangeImplies(p, q, k, i);
      CountRangeImplies(q, p, k, i);
    }
  }

  lemma {:induction false} FittingKeepsBound(cfg: Config, times: seq<int>, i: nat, j: nat)
    requires ValidConfig(cfg) && Nondecreasing(times) && AdmitsWhatFits(cfg, times) && i < j <= |times|
    ensures CountRange(Verdicts(cfg, Absent, times), i, j) * cfg.window
         <= Max(0, Capacity(cfg)) + (times[j - 1] - times[i]) * cfg.rate
    decreases j
  {
    hide Verdict, Verdicts;
    var p := Verdicts(cfg, Absent, times);
    assert CountRange(p, i, j) == CountRange(p, i, j - 1) + (if p(j - 1) then 1 else 0);
    Elapsed(cfg.rate, 0, times[j - 1] - times[i]);
    if p(j - 1) {
      VerdictsAt(cfg, times, j - 1);
      assert Fits(cfg, times, p, j - 1);
    } else if i + 1 < j {
      FittingKeepsBound(cfg, times, i, j - 1);
      Elapsed(cfg.rate, times[j - 2] - times[i], times[j - 1] - times[i]);
    }
  }

  lemma VerdictsAt(cfg: Config, times: seq<int>, i: nat)
    ensures Verdicts(cfg, Absent, times)(i) == Verdict(cfg, Absent, times, i)
  {}

  lemma HarmlessAdmitsWhatFits(cfg: Config, times: seq<int>, i: nat)
    requires ValidConfig(cfg) && ExpiryIsHarmless(cfg) && Nondecreasing(times) && i < |times|
    ensures Verdict(cfg, Absent, times, i) <==> Fits(cfg, times, Verdicts(cfg, Absent, times), i)
  {
    hide Verdict, RefVerdict, Fits, ExpiryIsHarmless;
    var p, q := Verdicts(cfg, Absent, times), RefVerdicts(cfg, times);
    forall k: nat ensures p(k) == q(k) { VerdictsAgree(cfg, times, k); }
    RefVerdictFits(cfg, times, i);
    FitsDependsOnVerdicts(cfg, times, p, q, i);
    FitsDependsOnVerdicts(cfg, times, q, p, i);
    VerdictsAgree(cfg, times, i);
  }

  /** The code admits a call exactly when that keeps the bound over every stretch ending with it, so that no
      call is refused without need, on every run under exactly the same condition. */
  lemma AdmitsWhatFitsIff(cfg: Config)
    requires ValidConfig(cfg)
    ensures cfg.burst * cfg.window <= (2 * cfg.window + 1) * cfg.rate
       <==> forall times :: Nondecreasing(times) ==> AdmitsWhatFits(cfg, times)
  {
    if ExpiryIsHarmless(cfg) {
      forall times, i: nat | Nondecreasing(times) && i < |times|
        ensures Verdict(cfg, Absent, times, i) <==> Fits(cfg, times, Verdicts(cfg, Absent, times), i)
      {
        HarmlessAdmitsWhatFits(cfg, times, i);
      }
    } else {
      DrainTwiceBreaksBound(cfg);
      var times := DrainTwice(cfg);
      if AdmitsWhatFits(cfg, times) {
        forall i, j | 0 <= i < j <= |times|
          ensures CountRange(Verdicts(cfg, Absent, times), i, j) * cfg.window
               <= Max(0, Capacity(cfg)) + (times[j - 1] - times[i]) * cfg.rate
        {
          FittingKeepsBound(cfg, times, i, j);
        }
      }
    }
  }

  /** A burst of at most twice the rate always satisfies the condition. */
  lemma BurstUpToTwiceRateIsHarmless(cfg: Config)
    requires ValidConfig(cfg) && cfg.burst <= 2 * cfg.rate
    ensures ExpiryIsHarmless(cfg)
  {}

  // ----- what is stored, and what Remaining promises

  ghost predicate Within(cfg: Config, b: Bucket) {
    b.Held? ==> 0 <= b.grains <= Capacity(cfg) - cfg.window
  }

  lemma {:induction false} StoredTokensStayWithin(cfg: Config, times: seq<int>, n: nat)
    requires ValidConfig(cfg) && n <= |times|
    ensures Within(cfg, After(cfg, Absent, times, n))
  {
    if n > 0 {
      StoredTokensStayWithin(cfg, times, n - 1);
    }
  }

  /** The count reported for a bucket: whole stored tokens, or the burst when nothing is stored. */
  function Reported(cfg: Config, b: Bucket, now: int): int
    requires ValidConfig(cfg)
  {
    if Gone(cfg, b, now) then cfg.burst else b.grains / cfg.window
  }

  lemma LevelNeverFalls(cfg: Config, b: Bucket, now: int, later: int)
    requires Within(cfg, b) && now <= later
    ensures Level(cfg, b, now) <= Level(cfg, b, later)
  {
    if b.Held? {
      Elapsed(cfg.rate, Max(0, now - b.at), Max(0, later - b.at));
    }
  }

  lemma ReportedIsCovered(cfg: Config, b: Bucket, now: int)
    requires ValidConfig(cfg) && Within(cfg, b)
    ensures Reported(cfg, b, now) * cfg.window <= Level(cfg, b, now)
  {}

  lemma {:induction false} CoveredCallsAreAdmitted(cfg: Config, b: Bucket, now: int, n: nat, times: seq<int>, i: nat)
    requires ValidConfig(cfg) && Within(cfg, b) && n * cfg.window <= Level(cfg, b, now)
    requires Nondecreasing(times) && i <= |times| <= n && (times != [] ==> now <= times[0])
    ensures Within(cfg, After(cfg, b, times, i))
    ensures (n - i) * cfg.window <= Level(cfg, After(cfg, b, times, i), if i == 0 then now else times[i - 1])
    ensures i < |times| ==> Verdict(cfg, b, times, i)
  {
    var w := cfg.window;
    if i > 0 {
      CoveredCallsAreAdmitted(cfg, b, now, n, times, i - 1);
      var prev := After(cfg, b, times, i - 1);
      LevelNeverFalls(cfg, prev, if i == 1 then now else times[i - 2], times[i - 1]);
      assert (n - (i - 1)) * w == (n - i) * w + w;
    }
    if i < |times| {
      LevelNeverFalls(cfg, After(cfg, b, times, i), if i == 0 then now else times[i - 1], times[i]);
      Elapsed(w, 1, n - i);
    }
  }

  /** `Remaining` is a sound promise: as many further calls as it reports are all admitted, whenever
      they come, whether or not the stored keys expire meanwhile. */
  lemma RemainingIsPromise(cfg: Config, past: seq<int>, now: int, times: seq<int>)
    requires ValidConfig(cfg) && Nondecreasing(times) && (times != [] ==> now <= times[0])
    requires |times| <= Reported(cfg, After(cfg, Absent, past, |past|), now)
    ensures forall i: nat :: i < |times| ==> Verdict(cfg, After(cfg, Absent, past, |past|), times, i)
  {
    var b := After(cfg, Absent, past, |past|);
    StoredTokensStayWithin(cfg, past, |past|);
    ReportedIsCovered(cfg, b, now);
    forall i: nat | i < |times| ensures Verdict(cfg, b, times, i) {
      CoveredCallsAreAdmitted(cfg, b, now, Reported(cfg, b, now), times, i);
    }
  }

  lemma SpendAtOnce(cfg: Config, b: Bucket, now: int)
    requires ValidConfig(cfg) && Admits(cfg, b, now)
    ensures Level(cfg, Spend(cfg, b, now), now) == Level(cfg, b, now) - cfg.window
  {
    hide Capacity;
  }

  /** Calls at one time each take one token, while there is one. */
  lemma {:induction false} CallsAtOnce(cfg: Config, b: Bucket, now: int, m: nat, i: nat)
    requires ValidConfig(cfg) && i <= m && i * cfg.window <= Max(0, Level(cfg, b, now))
    ensures Level(cfg, After(cfg, b, seq(m, _ => now), i), now) == Level(cfg, b, now) - i * cfg.window
  {
    hide Level, Spend;
    if i > 0 {
      OneMore(i - 1, cfg.window);
      CallsAtOnce(cfg, b, now, m, i - 1);
      SpendAtOnce(cfg, After(cfg, b, seq(m, _ => now), i - 1), now);
    }
  }

  /** The time as of which the count is reported: of the last admission, while its keys live. */
  function ReportTime(cfg: Config, b: Bucket, now: int): int { if Gone(cfg, b, now) then now else b.at }

  lemma ReportedIsLevel(cfg: Config, b: Bucket, now: int)
    requires ValidConfig(cfg) && Within(cfg, b)
    ensures var n, level := Reported(cfg, b, now), Level(cfg, b, ReportTime(cfg, b, now));
            n * cfg.window <= level < n * cfg.window + cfg.window
  {}

  /** And an exact one as of the last admission, or of now when nothing is stored: of calls at that time
      exactly as many as it reports are admitted. The refill since then is not reported. */
  lemma RemainingIsExact(cfg: Config, past: seq<int>, now: int, i: nat)
    requires ValidConfig(cfg)
    ensures var b := After(cfg, Absent, past, |past|);
            var n, t := Max(0, Reported(cfg, b, now)), ReportTime(cfg, b, now);
            i <= n ==> (Verdict(cfg, b, seq(n + 1, _ => t), i) <==> i < n)
  {
    var b := After(cfg, Absent, past, |past|);
    var n := Max(0, Reported(cfg, b, now));
    StoredTokensStayWithin(cfg, past, |past|);
    ReportedIsLevel(cfg, b, now);
    hide Reported, Level, Gone, ReportTime;
    if Reported(cfg, b, now) < 0 {
      Scale(Reported(cfg, b, now), -1, cfg.window);
    }
    if i <= n {
      Scale(i, n, cfg.window);
      CallsAtOnce(cfg, b, ReportTime(cfg, b, now), n + 1, i);
      if i < n {
        OneMoreFits(i, n, cfg.window);
      }
    }
  }

  // ----- the counter over the store

  function TokensKey(key: string): string { "tb:" + key + ":tokens" }

  function TimestampKey(key: string): string { "tb:" + key + ":ts" }

  lemma KeysAreDistinct(k: string, l: string)
    ensures TokensKey(k) != TimestampKey(l)
    ensures TokensKey(k) == TokensKey(l) || TimestampKey(k) == TimestampKey(l) ==> k == l
  {
    assert TokensKey(k)[|TokensKey(k)| - 2] == 'n';
    assert TimestampKey(l)[|TimestampKey(l)| - 2] == 't';
    assert TokensKey(k)[3..|TokensKey(k)| - 7] == k && TokensKey(l)[3..|TokensKey(l)| - 7] == l;
    assert TimestampKey(k)[3..|TimestampKey(k)| - 3] == k && TimestampKey(l)[3..|TimestampKey(l)| - 3] == l;
  }

  class TokenBucketCounter {
    const cfg: Config
    var db: Db

    /** The bucket that the two entries of `key` represent. */
    function Stored(key: string): Bucket
      reads this
    {
      if TokensKey(key) in db && TimestampKey(key) in db
      then Held(db[TokensKey(key)].value, db[TimestampKey(key)].value) else Absent
    }

    /** The two entries of a key come together and expire together. */
    ghost predicate Paired(key: string)
      reads this
    {
      && (TokensKey(key) in db <==> TimestampKey(key) in db)
      && (TokensKey(key) in db ==>
            db[TokensKey(key)].expiry == db[TimestampKey(key)].expiry == db[TimestampKey(key)].value + Ttl(cfg))
    }

    ghost predicate Valid()
      reads this
    {
      ValidConfig(cfg) && forall key :: Paired(key)
    }

    constructor (rate: nat, burst: int, window: nat)
      requires window >= 1
      ensures Valid() && cfg == Config(rate, burst, window) && db == map[]
    {
      cfg, db := Config(rate, burst, window), map[];
    }

    /** The script run by `Allow`. */
    method Allow(key: string, now: int) returns (ok: bool)
      requires Valid()
      modifies this`db
      ensures Valid()
      ensures ok == Admits(cfg, old(Stored(key)), now)
      ensures Stored(key) == Spend(cfg, old(Stored(key)), now)
      ensures forall k :: k != key ==> Stored(k) == old(Stored(k))
    {
      var tokensKey, tsKey := TokensKey(key), TimestampKey(key);
      assert Paired(key);
      var lastTokens := Capacity(cfg);
      if Live(db, tokensKey, now) {
        lastTokens := db[tokensKey].value;
      }
      var lastTs := now;
      if Live(db, tsKey, now) {
        lastTs := db[tsKey].value;
      }
      var newTokens := Min(Capacity(cfg), lastTokens + Max(0, now - lastTs) * cfg.rate);
      assert newTokens == Level(cfg, Stored(key), now);
      if newTokens < cfg.window {
        return false;
      }
      var expiry := now + Ttl(cfg);
      db := db[tokensKey := Entry(newTokens - cfg.window, expiry)][tsKey := Entry(now, expiry)];
      KeysAreDistinct(key, key);
      forall k | k != key ensures Stored(k) == old(Stored(k)) && Paired(k) {
        KeysAreDistinct(k, key);
        KeysAreDistinct(key, k);
        assert old(Paired(k));
      }
      return true;
    }

    /** Whole tokens currently stored for the key. */
    method Remaining(key: string, now: int) returns (n: int)
      requires Valid()
      ensures n == Reported(cfg, Stored(key), now)
    {
      assert Paired(key);
      if Live(db, TokensKey(key), now) {
        return db[TokensKey(key)].value / cfg.window;
      }
      return cfg.burst;
    }
  }
}

/** The leaky bucket over Redis, with calls on one key serialised. Times are nanoseconds on one clock. */
module LeakyBucket {
  import opened Arithmetic
  import opened Counting
  import opened TimedStore

  /** At most `rate` requests per `window` nanoseconds. */
  datatype Config = Config(rate: int, window: int)

  /** The source divides by `rate` and then by the leak interval. */
  predicate ValidConfig(cfg: Config) { 1 <= cfg.rate <= cfg.window }

  function LeakRate(cfg: Config): (interval: int)
    requires ValidConfig(cfg)
    ensures 1 <= interval && interval * cfg.rate <= cfg.window < (interval + 1) * cfg.rate
  {
    cfg.window / cfg.rate
  }

  /** Division that truncates toward zero. */
  function Quot(a: int, b: int): (q: int)
    requires b > 0
    ensures a >= 0 ==> 0 <= q * b <= a < q * b + b
    ensures a <= 0 ==> q * b - b < a <= q * b <= 0
  {
    if a >= 0 then a / b else -(-a / b)
  }

  datatype Bucket = Absent | Held(count: int, last: int)

  predicate Gone(cfg: Config, b: Bucket, now: int) { b.Absent? || now > b.last + cfg.window }

  function Leak(cfg: Config, count: int, last: int, now: int): int
    requires ValidConfig(cfg)
  {
    Max(0, count - Min(Quot(now - last, LeakRate(cfg)), count))
  }

  /** The level the call finds once the elapsed time has leaked. */
  function Level(cfg: Config, b: Bucket, now: int): int
    requires ValidConfig(cfg)
  {
    if Gone(cfg, b, now) then 0 else Leak(cfg, b.count, b.last, now)
  }

  predicate Admits(cfg: Config, b: Bucket, now: int)
    requires ValidConfig(cfg)
  {
    Level(cfg, b, now) < cfg.rate
  }

  function Pour(cfg: Config, b: Bucket, now: int): Bucket
    requires ValidConfig(cfg)
  {
    if Admits(cfg, b, now) then Held(Level(cfg, b, now) + 1, now) else b
  }

  function After(cfg: Config, times: seq<int>, n: nat): Bucket
    requires ValidConfig(cfg) && n <= |times|
  {
    if n == 0 then Absent else Pour(cfg, After(cfg, times, n - 1), times[n - 1])
  }

  predicate Verdict(cfg: Config, times: seq<int>, i: nat)
    requires ValidConfig(cfg)
  {
    i < |times| && Admits(cfg, After(cfg, times, i), times[i])
  }

  function Verdicts(cfg: Config, times: seq<int>): nat -> bool
    requires ValidConfig(cfg)
  {
    (i: nat) => Verdict(cfg, times, i)
  }

  // ----- the level stays within the bucket, and expiry is leaking to zero

  ghost predicate Within(cfg: Config, b: Bucket, now: int) {
    b.Held? ==> 1 <= b.count <= cfg.rate && b.last <= now
  }

  lemma {:induction false} LevelStaysWithin(cfg: Config, times: seq<int>, n: nat)
    requires ValidConfig(cfg) && Nondecreasing(times) && n <= |times|
    ensures Within(cfg, After(cfg, times, n), if n == 0 then 0 else times[n - 1])
  {
    if n > 0 {
      LevelStaysWithin(cfg, times, n - 1);
    }
  }

  /** The same bucket in a store that never drops a key. */
  function Kept(cfg: Config, b: Bucket, now: int): int
    requires ValidConfig(cfg)
  {
    if b.Absent? then 0 else Leak(cfg, b.count, b.last, now)
  }

  function KeptPour(cfg: Config, b: Bucket, now: int): Bucket
    requires ValidConfig(cfg)
  {
    if Kept(cfg, b, now) < cfg.rate then Held(Kept(cfg, b, now) + 1, now) else b
  }

  function KeptAfter(cfg: Config, times: seq<int>, n: nat): Bucket
    requires ValidConfig(cfg) && n <= |times|
  {
    if n == 0 then Absent else KeptPour(cfg, KeptAfter(cfg, times, n - 1), times[n - 1])
  }

  /** A window is long enough to leak a full bucket, however the division rounds. */
  lemma WindowLeaksAll(cfg: Config, elapsed: int)
    requires ValidConfig(cfg) && elapsed >= cfg.window
    ensures Quot(elapsed, LeakRate(cfg)) >= cfg.rate
  {
    assert cfg.rate * (cfg.window / cfg.rate) <= cfg.window;
    QuotientAtLeast(elapsed, LeakRate(cfg), cfg.rate);
  }

  lemma ExpiryIsLeakingToZero(cfg: Config, b: Bucket, now: int)
    requires ValidConfig(cfg) && Within(cfg, b, now)
    ensures Level(cfg, b, now) == Kept(cfg, b, now) && Pour(cfg, b, now) == KeptPour(cfg, b, now)
  {
    if b.Held? && Gone(cfg, b, now) {
      WindowLeaksAll(cfg, now - b.last);
    }
  }

  /** Dropping the keys after a window is never observed: every run passes through the same buckets,
      and so gives the same verdicts, as in a store that keeps them. */
  lemma {:induction false} ExpiryIsUnobservable(cfg: Config, times: seq<int>, n: nat)
    requires ValidConfig(cfg) && Nondecreasing(times) && n <= |times|
    ensures After(cfg, times, n) == KeptAfter(cfg, times, n)
    ensures n < |times| ==> Level(cfg, After(cfg, times, n), times[n]) == Kept(cfg, KeptAfter(cfg, times, n), times[n])
  {
    LevelStaysWithin(cfg, times, n);
    if n < |times| {
      ExpiryIsLeakingToZero(cfg, After(cfg, times, n), times[n]);
    }
    if n > 0 {
      ExpiryIsUnobservable(cfg, times, n - 1);
      LevelStaysWithin(cfg, times, n - 1);
      ExpiryIsLeakingToZero(cfg, After(cfg, times, n - 1), times[n - 1]);
    }
  }

  /** Call `k` is the last one admitted among the first `n`. */
  ghost predicate LastAdmitted(cfg: Config, times: seq<int>, k: nat, n: nat)
    requires ValidConfig(cfg)
  {
    k < n && Verdict(cfg, times, k) && forall j: nat :: k < j < n ==> !Verdict(cfg, times, j)
  }

  /** Nothing is stored until a call has been admitted... */
  lemma {:induction false} NothingStoredIff(cfg: Config, times: seq<int>, n: nat)
    requires ValidConfig(cfg) && n <= |times|
    ensures After(cfg, times, n).Absent? <==> forall k: nat :: k < n ==> !Verdict(cfg, times, k)
  {
    hide Level;
    if n > 0 {
      NothingStoredIff(cfg, times, n - 1);
      assert Verdict(cfg, times, n - 1) ==> After(cfg, times, n).Held?;
      assert !Verdict(cfg, times, n - 1) ==> After(cfg, times, n) == After(cfg, times, n - 1);
      assert (forall k: nat :: k < n ==> !Verdict(cfg, times, k)) <==>
             !Verdict(cfg, times, n - 1) && forall k: nat :: k < n - 1 ==> !Verdict(cfg, times, k);
    }
  }

  /** ... and then the level that the last admitted call found and one more, at the time of that call. */
  lemma {:induction false} StoredIsLastAdmission(cfg: Config, times: seq<int>, k: nat, n: nat)
    requires ValidConfig(cfg) && n <= |times| && LastAdmitted(cfg, times, k, n)
    ensures After(cfg, times, n) == Held(Level(cfg, After(cfg, times, k), times[k]) + 1, times[k])
  {
    hide Level;
    if k < n - 1 {
      assert !Verdict(cfg, times, n - 1);
      StoredIsLastAdmission(cfg, times, k, n - 1);
    }
  }

  /** The level a call finds is the stored count less one for every whole interval elapsed, down to zero. */
  lemma LevelIsLeaked(cfg: Config, times: seq<int>, i: nat)
    requires ValidConfig(cfg) && Nondecreasing(times) && i < |times| && After(cfg, times, i).Held?
    ensures var b := After(cfg, times, i);
            var l, n, elapsed := cfg.window / cfg.rate, Level(cfg, b, times[i]), times[i] - b.last;
            && 0 <= n <= b.count
            && (b.count - n) * l <= elapsed
            && (n == 0 || elapsed < (b.count - n + 1) * l)
            && (Verdict(cfg, times, i) <==> n < cfg.rate)
  {
    hide LeakRate, Level, Pour;
    IntervalIsQuotient(cfg);
    LevelStaysWithin(cfg, times, i);
    LevelBetween(cfg, After(cfg, times, i), times[i]);
  }

  lemma IntervalIsQuotient(cfg: Config)
    requires ValidConfig(cfg)
    ensures LeakRate(cfg) == cfg.window / cfg.rate
  {}

  lemma LevelBetween(cfg: Config, b: Bucket, now: int)
    requires ValidConfig(cfg) && b.Held? && Within(cfg, b, now)
    ensures var l, n, elapsed := LeakRate(cfg), Level(cfg, b, now), now - b.last;
            && 0 <= n <= b.count
            && (b.count - n) * l <= elapsed
            && (n == 0 || elapsed < (b.count - n + 1) * l)
  {
    var l := LeakRate(cfg);
    hide LeakRate, Leak;
    Scale(b.count, cfg.rate, l);
    assert l * cfg.rate == cfg.rate * l;
    LeakedBetween(cfg, b.count, b.last, now);
  }

  lemma LeakedBetween(cfg: Config, count: nat, last: int, now: int)
    requires ValidConfig(cfg) && last <= now
    ensures var l, n := LeakRate(cfg), Leak(cfg, count, last, now);
            && 0 <= n <= count
            && (count - n) * l <= now - last
            && (n == 0 || now - last < (count - n + 1) * l)
  {
    hide LeakRate, Quot;
    var l := LeakRate(cfg);
    var q := Quot(now - last, l);
    OneMore(q, l);
    if count < q {
      Scale(count, q, l);
    } else if q < 0 {
      Scale(q, -1, l);
    }
  }

  // ----- the exact bucket: continuous leak, fed the calls the code admits

  /** Contents in drops: a request is `LeakRate` drops and one drop leaks per nanosecond. */
  datatype Exact = Exact(drops: int, at: int)

  function Drops(x: Exact, now: int): int { Max(0, x.drops - Max(0, now - x.at)) }

  function ExactPour(cfg: Config, x: Exact, admitted: bool, now: int): Exact
    requires ValidConfig(cfg)
  {
    Exact(Drops(x, now) + (if admitted then LeakRate(cfg) else 0), now)
  }

  function ExactAfter(cfg: Config, times: seq<int>, n: nat): Exact
    requires ValidConfig(cfg) && n <= |times|
  {
    if n == 0 then Exact(0, if times == [] then 0 else times[0])
    else ExactPour(cfg, ExactAfter(cfg, times, n - 1), Verdict(cfg, times, n - 1), times[n - 1])
  }

  /** The exact contents are at most what remains of the stored level. */
  ghost predicate Covers(cfg: Config, b: Bucket, x: Exact)
    requires ValidConfig(cfg)
  {
    && (b.Absent? ==> x.drops == 0)
    && (b.Held? ==> b.last <= x.at && x.drops <= Max(0, b.count * LeakRate(cfg) - (x.at - b.last)))
  }

  lemma CoversLater(cfg: Config, b: Bucket, x: Exact, now: int)
    requires ValidConfig(cfg) && Within(cfg, b, now) && Covers(cfg, b, x) && x.at <= now
    ensures Drops(x, now) <= Level(cfg, b, now) * LeakRate(cfg)
  {}

  lemma StepCovers(cfg: Config, b: Bucket, x: Exact, now: int)
    requires ValidConfig(cfg) && Within(cfg, b, now) && Covers(cfg, b, x) && x.at <= now
    ensures Covers(cfg, Pour(cfg, b, now), ExactPour(cfg, x, Admits(cfg, b, now), now))
  {
    CoversLater(cfg, b, x, now);
    hide LeakRate, Level;
    OneMore(Level(cfg, b, now), LeakRate(cfg));
  }

  /** The level is always at least that of an exact fractional bucket fed the same admitted calls,
      at every call. */
  lemma {:induction false} LevelCoversExact(cfg: Config, times: seq<int>, n: nat)
    requires ValidConfig(cfg) && Nondecreasing(times) && n <= |times|
    ensures Covers(cfg, After(cfg, times, n), ExactAfter(cfg, times, n))
    ensures times != [] ==> ExactAfter(cfg, times, n).at == times[if n == 0 then 0 else n - 1]
    ensures n < |times| ==>
              Drops(ExactAfter(cfg, times, n), times[n]) <= Level(cfg, After(cfg, times, n), times[n]) * LeakRate(cfg)
  {
    if n > 0 {
      LevelCoversExact(cfg, times, n - 1);
      LevelStaysWithin(cfg, times, n - 1);
      StepCovers(cfg, After(cfg, times, n - 1), ExactAfter(cfg, times, n - 1), times[n - 1]);
    }
    if n < |times| {
      LevelStaysWithin(cfg, times, n);
      CoversLater(cfg, After(cfg, times, n), ExactAfter(cfg, times, n), times[n]);
    }
  }

  /** So the exact bucket never overflows on what the code admits. */
  lemma {:induction false} ExactNeverOverflows(cfg: Config, times: seq<int>, n: nat)
    requires ValidConfig(cfg) && Nondecreasing(times) && n <= |times|
    ensures 0 <= ExactAfter(cfg, times, n).drops <= cfg.rate * LeakRate(cfg)
  {
    hide LeakRate, Leak;
    if n > 0 {
      ExactNeverOverflows(cfg, times, n - 1);
      LevelCoversExact(cfg, times, n - 1);
      if Verdict(cfg, times, n - 1) {
        OneMoreFits(Level(cfg, After(cfg, times, n - 1), times[n - 1]), cfg.rate, LeakRate(cfg));
      }
    }
  }

  // ----- the admission bound

  function Poured(cfg: Config, times: seq<int>, i: nat, j: nat): nat
    requires ValidConfig(cfg) && i <= j
    decreases j
  {
    if i == j then 0 else Poured(cfg, times, i, j - 1) + (if Verdict(cfg, times, j - 1) then LeakRate(cfg) else 0)
  }

  lemma {:induction false} PouredIsAdmitted(cfg: Config, times: seq<int>, i: nat, j: nat)
    requires ValidConfig(cfg) && i <= j
    ensures Poured(cfg, times, i, j) == Times(CountRange(Verdicts(cfg, times), i, j), LeakRate(cfg))
    decreases j
  {
    hide LeakRate, Verdict;
    if i < j {
      PouredIsAdmitted(cfg, times, i, j - 1);
    }
  }

  lemma {:induction false} PouredStaysOrLeaks(cfg: Config, times: seq<int>, i: nat, j: nat)
    requires ValidConfig(cfg) && Nondecreasing(times) && i < j <= |times|
    ensures Poured(cfg, times, i, j) <= ExactAfter(cfg, times, j).drops + (times[j - 1] - times[i])
    decreases j
  {
    LevelCoversExact(cfg, times, j - 1);
    if i + 1 < j {
      PouredStaysOrLeaks(cfg, times, i, j - 1);
    }
  }

  /** Any stretch of serialised calls spanning `D` nanoseconds admits at most `rate + D / LeakRate`. */
  lemma AdmissionBound(cfg: Config, times: seq<int>, i: nat, j: nat)
    requires ValidConfig(cfg) && Nondecreasing(times) && i < j <= |times|
    ensures CountRange(Verdicts(cfg, times), i, j) <= cfg.rate + (times[j - 1] - times[i]) / LeakRate(cfg)
  {
    PouredIsAdmitted(cfg, times, i, j);
    PouredStaysOrLeaks(cfg, times, i, j);
    ExactNeverOverflows(cfg, times, j);
    TimesIsProduct(CountRange(Verdicts(cfg, times), i, j), LeakRate(cfg));
    QuotientBound(LeakRate(cfg), CountRange(Verdicts(cfg, times), i, j), cfg.rate, times[j - 1] - times[i]);
  }

  lemma QuotientBound(l: int, n: int, rate: int, span: int)
    requires l >= 1 && n * l <= rate * l + span
    ensures n <= rate + span / l
  {
    assert (n - rate) * l == n * l - rate * l;
    QuotientAtLeast(span, l, n - rate);
  }

  /** Fill the bucket at time 0, then call once per leak interval. */
  function SteadyAt(cfg: Config, k: nat): int
    requires ValidConfig(cfg)
  {
    if k < cfg.rate then 0 else (k - cfg.rate + 1) * LeakRate(cfg)
  }

  function Steady(cfg: Config, n: nat): seq<int>
    requires ValidConfig(cfg)
  {
    seq(n, k requires k >= 0 => SteadyAt(cfg, k))
  }

  lemma PourAtOnce(cfg: Config, k: nat, now: int)
    requires ValidConfig(cfg) && 1 <= k < cfg.rate
    ensures Admits(cfg, Held(k, now), now) && Pour(cfg, Held(k, now), now) == Held(k + 1, now)
  {}

  lemma IntervalFitsWindow(cfg: Config)
    requires ValidConfig(cfg)
    ensures LeakRate(cfg) <= cfg.window
  {}

  lemma PourAfterInterval(cfg: Config, last: int)
    requires ValidConfig(cfg)
    ensures var now := last + LeakRate(cfg);
            Admits(cfg, Held(cfg.rate, last), now) && Pour(cfg, Held(cfg.rate, last), now) == Held(cfg.rate, now)
  {
    IntervalFitsWindow(cfg);
    hide LeakRate;
    assert LeakRate(cfg) / LeakRate(cfg) == 1;
  }

  lemma SteadyStep(cfg: Config, k: nat)
    requires ValidConfig(cfg)
    ensures var b := if k == 0 then Absent else Held(Min(k, cfg.rate), SteadyAt(cfg, k - 1));
            && Admits(cfg, b, SteadyAt(cfg, k))
            && Pour(cfg, b, SteadyAt(cfg, k)) == Held(Min(k + 1, cfg.rate), SteadyAt(cfg, k))
  {
    hide LeakRate, Leak;
    if 0 < k < cfg.rate {
      PourAtOnce(cfg, k, 0);
    } else if cfg.rate <= k {
      var l := LeakRate(cfg);
      assert (k - cfg.rate + 1) * l == (k - cfg.rate) * l + l;
      PourAfterInterval(cfg, SteadyAt(cfg, k - 1));
    }
  }

  lemma {:induction false} SteadyState(cfg: Config, n: nat, k: nat)
    requires ValidConfig(cfg) && k <= n
    ensures After(cfg, Steady(cfg, n), k) == if k == 0 then Absent else Held(Min(k, cfg.rate), SteadyAt(cfg, k - 1))
    ensures k < n ==> Verdict(cfg, Steady(cfg, n), k)
  {
    hide Admits, Pour, SteadyAt;
    if k > 0 {
      SteadyState(cfg, n, k - 1);
      SteadyStep(cfg, k - 1);
    }
    if k < n {
      SteadyStep(cfg, k);
    }
  }

  /** The bound is attained for every configuration and every number of intervals, so that a window can
      see twice its rate. */
  lemma AdmissionBoundIsTight(cfg: Config, m: nat)
    requires ValidConfig(cfg)
    ensures var times, n := Steady(cfg, cfg.rate + m), cfg.rate + m;
            && CountRange(Verdicts(cfg, times), 0, n) == cfg.rate + m
            && times[n - 1] - times[0] == m * LeakRate(cfg)
  {
    var n := cfg.rate + m;
    forall k: nat | 0 <= k < n ensures Verdicts(cfg, Steady(cfg, n))(k) { SteadyState(cfg, n, k); }
    CountRangeAll(Verdicts(cfg, Steady(cfg, n)), 0, n);
    assert Steady(cfg, n)[n - 1] == SteadyAt(cfg, n - 1);
  }

  // ----- the two stored keys

  function BucketKey(key: string): string { "leaky:" + key }

  function LastLeakKey(key: string): string { "leaky:" + key + ":last" }

  /** Two clients share a stored key exactly when one is the other followed by `:last`. */
  lemma ClientsCollideIff(k: string, l: string)
    requires k != l
    ensures BucketKey(k) == LastLeakKey(l) || LastLeakKey(k) == BucketKey(l)
            || BucketKey(k) == BucketKey(l) || LastLeakKey(k) == LastLeakKey(l)
       <==> k == l + ":last" || l == k + ":last"
  {
    assert LastLeakKey(k) == BucketKey(k + ":last") && LastLeakKey(l) == BucketKey(l + ":last");
    BucketKeyInjective(k, l);
    BucketKeyInjective(k, l + ":last");
    BucketKeyInjective(k + ":last", l);
    assert (k + ":last")[..|k|] == k && (l + ":last")[..|l|] == l;
    BucketKeyInjective(k + ":last", l + ":last");
  }

  lemma BucketKeyInjective(k: string, l: string)
    ensures BucketKey(k) == BucketKey(l) ==> k == l
  {
    assert BucketKey(k)[6..] == k && BucketKey(l)[6..] == l;
  }

  ghost predicate Collide(k: string, l: string) { k == l + ":last" || l == k + ":last" }

  /** The bucket that the two entries of a client represent. */
  function BucketIn(db: Db, key: string): Bucket {
    if BucketKey(key) in db && LastLeakKey(key) in db
    then Held(db[BucketKey(key)].value, db[LastLeakKey(key)].value) else Absent
  }

  /** The two entries of a client come and expire together, as its own serialised calls leave them. */
  ghost predicate PairedIn(cfg: Config, db: Db, key: string) {
    && (BucketKey(key) in db <==> LastLeakKey(key) in db)
    && (BucketKey(key) in db ==>
          db[BucketKey(key)].expiry == db[LastLeakKey(key)].expiry == db[LastLeakKey(key)].value + cfg.window)
  }

  /** The level a call finds from its two reads, whatever is stored under the two keys. */
  function LevelRead(cfg: Config, db: Db, key: string, now: int): int
    requires ValidConfig(cfg)
  {
    Leak(cfg,
         if Live(db, BucketKey(key), now) then db[BucketKey(key)].value else 0,
         if Live(db, LastLeakKey(key), now) then db[LastLeakKey(key)].value else now,
         now)
  }

  lemma ReadIsLevel(cfg: Config, db: Db, key: string, now: int)
    requires ValidConfig(cfg)
    ensures PairedIn(cfg, db, key) ==> LevelRead(cfg, db, key, now) == Level(cfg, BucketIn(db, key), now)
  {}

  /** What the second transaction stores, at `at`, for a call whose clock reading was `now`. */
  function Written(cfg: Config, db: Db, key: string, count: int, now: int, at: int): Db {
    db[BucketKey(key) := Entry(count, at + cfg.window)][LastLeakKey(key) := Entry(now, at + cfg.window)]
  }

  // ----- calls on one key that overlap: the read and the write are transactions of their own

  /** A call that found room holds the count it is about to store, and its clock reading. */
  datatype Pc = Arriving | HasRead(count: int, now: int) | Refused | Admitted

  datatype State = State(db: Db, pcs: seq<Pc>)

  datatype Action = Read(t: nat, now: int) | Write(t: nat, at: int)

  predicate Enabled(s: State, a: Action) {
    a.t < |s.pcs| && if a.Read? then s.pcs[a.t].Arriving? else s.pcs[a.t].HasRead?
  }

  function Perform(cfg: Config, key: string, s: State, a: Action): State
    requires ValidConfig(cfg) && Enabled(s, a)
  {
    match a
    case Read(t, now) =>
      var level := LevelRead(cfg, s.db, key, now);
      s.(pcs := s.pcs[t := if level >= cfg.rate then Refused else HasRead(level + 1, now)])
    case Write(t, at) =>
      State(Written(cfg, s.db, key, s.pcs[t].count, s.pcs[t].now, at), s.pcs[t := Admitted])
  }

  ghost predicate IsRun(cfg: Config, key: string, n: nat, tr: seq<State>, sched: seq<Action>)
    requires ValidConfig(cfg)
  {
    && |tr| == |sched| + 1
    && tr[0] == State(map[], seq(n, _ => Arriving))
    && forall i :: 0 <= i < |sched| ==> Enabled(tr[i], sched[i]) && tr[i + 1] == Perform(cfg, key, tr[i], sched[i])
  }

  function Time(a: Action): int { if a.Read? then a.now else a.at }

  /** One clock for all steps. */
  ghost predicate Clock(sched: seq<Action>) {
    forall i, j :: 0 <= i <= j < |sched| ==> Time(sched[i]) <= Time(sched[j])
  }

  predicate Holding(pc: Pc) { pc.HasRead? }

  /** Never more than `c` calls are between their read and their write. */
  ghost predicate Overlaps(c: nat, tr: seq<State>) {
    forall i :: 0 <= i < |tr| ==> Count(tr[i].pcs, Holding) <= c
  }

  /** Step `k` is the read of a call that is admitted in the end. */
  predicate Admission(tr: seq<State>, sched: seq<Action>, k: nat) {
    && |tr| == |sched| + 1 && k < |sched| && sched[k].Read?
    && sched[k].t < |tr[|sched|].pcs| && tr[|sched|].pcs[sched[k].t].Admitted?
  }

  function Admissions(tr: seq<State>, sched: seq<Action>): nat -> bool { (k: nat) => Admission(tr, sched, k) }

  /** Every stretch of steps spanning `D` nanoseconds has at most `rate + D / LeakRate` admissions. */
  ghost predicate KeepsBound(cfg: Config, tr: seq<State>, sched: seq<Action>)
    requires ValidConfig(cfg)
  {
    forall i: nat, j: nat :: i < j <= |sched| ==>
      CountRange(Admissions(tr, sched), i, j) <= cfg.rate + (Time(sched[j - 1]) - Time(sched[i])) / LeakRate(cfg)
  }

  // ----- without overlap a run of steps is a run of the bucket

  /** Step `k` is a read that finds room. */
  predicate Finds(tr: seq<State>, sched: seq<Action>, k: nat) {
    && |tr| == |sched| + 1 && k < |sched| && sched[k].Read?
    && sched[k].t < |tr[k + 1].pcs| && tr[k + 1].pcs[sched[k].t].HasRead?
  }

  function Findings(tr: seq<State>, sched: seq<Action>): nat -> bool { (k: nat) => Finds(tr, sched, k) }

  /** The readings of those reads among the first `n` steps. */
  function Taken(tr: seq<State>, sched: seq<Action>, n: nat): seq<int>
    requires n <= |sched|
  {
    if n == 0 then [] else Taken(tr, sched, n - 1) + (if Finds(tr, sched, n - 1) then [Time(sched[n - 1])] else [])
  }

  lemma {:induction false} TakenBetween(tr: seq<State>, sched: seq<Action>, i: nat, j: nat)
    requires Clock(sched) && i <= j <= |sched|
    ensures var ti, tj := Taken(tr, sched, i), Taken(tr, sched, j);
            && ti <= tj && |tj| - |ti| == CountRange(Findings(tr, sched), i, j)
            && forall k :: |ti| <= k < |tj| ==> Time(sched[i]) <= tj[k] <= Time(sched[j - 1])
    decreases j
  {
    if i < j {
      TakenBetween(tr, sched, i, j - 1);
    }
  }

  lemma {:induction false} TakenInOrder(tr: seq<State>, sched: seq<Action>, n: nat)
    requires Clock(sched) && n <= |sched|
    ensures Nondecreasing(Taken(tr, sched, n))
    ensures forall k :: 0 <= k < |Taken(tr, sched, n)| ==> Taken(tr, sched, n)[k] <= Time(sched[n - 1])
  {
    if n > 0 {
      TakenInOrder(tr, sched, n - 1);
    }
  }

  lemma {:induction false} AfterPrefix(cfg: Config, times: seq<int>, more: seq<int>, n: nat)
    requires ValidConfig(cfg) && n <= |times|
    ensures After(cfg, times + more, n) == After(cfg, times, n)
    ensures n < |times| ==> Verdict(cfg, times + more, n) == Verdict(cfg, times, n)
  {
    hide Pour, Admits;
    if n > 0 {
      AfterPrefix(cfg, times, more, n - 1);
    }
  }

  function Full(cfg: Config, times: seq<int>): Bucket
    requires ValidConfig(cfg)
  {
    After(cfg, times, |times|)
  }

  ghost predicate AllAdmitted(cfg: Config, times: seq<int>)
    requires ValidConfig(cfg)
  {
    forall k: nat :: k < |times| ==> Verdict(cfg, times, k)
  }

  lemma AdmitOneMore(cfg: Config, times: seq<int>, now: int)
    requires ValidConfig(cfg) && AllAdmitted(cfg, times) && Admits(cfg, Full(cfg, times), now)
    ensures AllAdmitted(cfg, times + [now])
    ensures Full(cfg, times + [now]) == Held(Level(cfg, Full(cfg, times), now) + 1, now)
  {
    hide Admits, Level;
    AfterPrefix(cfg, times, [now], |times|);
    forall k: nat | k < |times| + 1 ensures Verdict(cfg, times + [now], k) {
      AfterPrefix(cfg, times, [now], k);
    }
  }

  /** The two entries hold the bucket, and live at least as long as it does. */
  ghost predicate Represents(cfg: Config, db: Db, key: string, b: Bucket) {
    if b.Absent? then BucketKey(key) !in db && LastLeakKey(key) !in db
    else
      && BucketKey(key) in db && LastLeakKey(key) in db
      && db[BucketKey(key)].value == b.count && db[LastLeakKey(key)].value == b.last
      && db[BucketKey(key)].expiry == db[LastLeakKey(key)].expiry >= b.last + cfg.window
  }

  lemma LevelReadIsLevel(cfg: Config, db: Db, key: string, b: Bucket, now: int)
    requires ValidConfig(cfg) && Represents(cfg, db, key, b) && Within(cfg, b, now)
    ensures LevelRead(cfg, db, key, now) == Level(cfg, b, now)
  {
    if b.Held? && now > b.last + cfg.window {
      WindowLeaksAll(cfg, now - b.last);
    }
  }

  lemma WriteRepresents(cfg: Config, db: Db, key: string, count: int, now: int, at: int)
    requires now <= at
    ensures Represents(cfg, Written(cfg, db, key, count, now, at), key, Held(count, now))
  {
    assert |BucketKey(key)| != |LastLeakKey(key)|;
  }

  /** With at most one call between its read and its write, what is stored is the bucket of the reads that
      found room so far; while a call holds its read, the bucket it is about to store. */
  ghost predicate Tracks(cfg: Config, key: string, s: State, times: seq<int>)
    requires ValidConfig(cfg)
  {
    && AllAdmitted(cfg, times)
    && (forall t :: 0 <= t < |s.pcs| && s.pcs[t].HasRead? ==> Full(cfg, times) == Held(s.pcs[t].count, s.pcs[t].now))
    && (Count(s.pcs, Holding) == 0 ==> Represents(cfg, s.db, key, Full(cfg, times)))
  }

  lemma ReadTracks(cfg: Config, key: string, s: State, times: seq<int>, t: nat, now: int)
    requires ValidConfig(cfg) && Tracks(cfg, key, s, times) && Enabled(s, Read(t, now))
    requires Nondecreasing(times) && Within(cfg, Full(cfg, times), now)
    requires Count(Perform(cfg, key, s, Read(t, now)).pcs, Holding) <= 1
    ensures var s' := Perform(cfg, key, s, Read(t, now));
            Tracks(cfg, key, s', if s'.pcs[t].HasRead? then times + [now] else times)
    ensures Count(s.pcs, Holding) == 0 ==>
              (Perform(cfg, key, s, Read(t, now)).pcs[t].HasRead? <==> Admits(cfg, Full(cfg, times), now))
  {
    hide LevelRead, Level, Represents, AllAdmitted, Full;
    var s' := Perform(cfg, key, s, Read(t, now));
    CountUpdate(s.pcs, t, s'.pcs[t], Holding);
    if Count(s.pcs, Holding) == 0 {
      LevelReadIsLevel(cfg, s.db, key, Full(cfg, times), now);
    }
    if s'.pcs[t].HasRead? {
      AdmitOneMore(cfg, times, now);
      forall u | 0 <= u < |s'.pcs| && s'.pcs[u].HasRead? ensures u == t {
        OnlyOne(s'.pcs, Holding, t, u);
      }
    }
  }

  lemma WriteTracks(cfg: Config, key: string, s: State, times: seq<int>, t: nat, at: int)
    requires ValidConfig(cfg) && Tracks(cfg, key, s, times) && Enabled(s, Write(t, at))
    requires Count(s.pcs, Holding) <= 1 && s.pcs[t].now <= at
    ensures Tracks(cfg, key, Perform(cfg, key, s, Write(t, at)), times)
  {
    hide Represents, AllAdmitted, Full, Written;
    WriteRepresents(cfg, s.db, key, s.pcs[t].count, s.pcs[t].now, at);
    forall u | 0 <= u < |s.pcs| && s.pcs[u].HasRead? ensures u == t {
      OnlyOne(s.pcs, Holding, t, u);
    }
  }

  lemma TakenWithin(cfg: Config, tr: seq<State>, sched: seq<Action>, n: nat)
    requires ValidConfig(cfg) && Clock(sched) && n < |sched|
    ensures var times := Taken(tr, sched, n);
            Nondecreasing(times) && Within(cfg, Full(cfg, times), Time(sched[n]))
  {
    hide Finds;
    var times := Taken(tr, sched, n);
    TakenInOrder(tr, sched, n);
    LevelStaysWithin(cfg, times, |times|);
  }

  lemma ActionTracks(cfg: Config, key: string, s: State, a: Action, s': State, times: seq<int>)
    requires ValidConfig(cfg) && Enabled(s, a) && s' == Perform(cfg, key, s, a) && Tracks(cfg, key, s, times)
    requires Count(s.pcs, Holding) <= 1 && Count(s'.pcs, Holding) <= 1
    requires Nondecreasing(times) && Within(cfg, Full(cfg, times), Time(a))
    ensures a.t < |s'.pcs|
    ensures Tracks(cfg, key, s', if a.Read? && s'.pcs[a.t].HasRead? then times + [Time(a)] else times)
    ensures a.Read? && Count(s.pcs, Holding) == 0 ==>
              (s'.pcs[a.t].HasRead? <==> Admits(cfg, Full(cfg, times), a.now))
  {
    hide Full, LevelRead, Represents, AllAdmitted, Level, Written, Count;
    if a.Read? {
      ReadTracks(cfg, key, s, times, a.t, a.now);
    } else {
      WriteTracks(cfg, key, s, times, a.t, a.at);
    }
  }

  lemma StepTracks(cfg: Config, key: string, n: nat, tr: seq<State>, sched: seq<Action>, i: nat)
    requires ValidConfig(cfg) && IsRun(cfg, key, n, tr, sched) && Clock(sched) && Overlaps(1, tr) && i < |sched|
    requires Tracks(cfg, key, tr[i], Taken(tr, sched, i))
    ensures Tracks(cfg, key, tr[i + 1], Taken(tr, sched, i + 1))
    ensures sched[i].Read? && Count(tr[i].pcs, Holding) == 0 ==>
              (Finds(tr, sched, i) <==> Admits(cfg, Full(cfg, Taken(tr, sched, i)), sched[i].now))
  {
    hide Tracks, Full, Perform, Enabled, Admits, Within, Count;
    TakenWithin(cfg, tr, sched, i);
    ActionTracks(cfg, key, tr[i], sched[i], tr[i + 1], Taken(tr, sched, i));
    assert Taken(tr, sched, i) + [] == Taken(tr, sched, i);
  }

  lemma EmptyTracks(cfg: Config, key: string, n: nat)
    requires ValidConfig(cfg)
    ensures Tracks(cfg, key, State(map[], seq(n, _ => Arriving)), [])
  {}

  /** On every run in which no two calls overlap, whatever time passes between a read and its write, the
      store holds the bucket of the admitted calls, and a call finds room exactly when that bucket admits it. */
  lemma {:induction false} SerialisedRunIsBucketRun(cfg: Config, key: string, n: nat, tr: seq<State>,
                                                    sched: seq<Action>, i: nat)
    requires ValidConfig(cfg) && IsRun(cfg, key, n, tr, sched) && Clock(sched) && Overlaps(1, tr) && i <= |sched|
    ensures Tracks(cfg, key, tr[i], Taken(tr, sched, i))
    ensures i < |sched| && sched[i].Read? && Count(tr[i].pcs, Holding) == 0 ==>
              (Finds(tr, sched, i) <==> Admits(cfg, Full(cfg, Taken(tr, sched, i)), sched[i].now))
  {
    hide Tracks, Overlaps, Finds, Admits, Perform;
    if i == 0 {
      EmptyTracks(cfg, key, n);
    } else {
      SerialisedRunIsBucketRun(cfg, key, n, tr, sched, i - 1);
      StepTracks(cfg, key, n, tr, sched, i - 1);
    }
    if i < |sched| {
      StepTracks(cfg, key, n, tr, sched, i);
    }
  }

  lemma {:induction false} RefusedStays(cfg: Config, key: string, n: nat, tr: seq<State>, sched: seq<Action>,
                                        t: nat, i: nat, j: nat)
    requires ValidConfig(cfg) && IsRun(cfg, key, n, tr, sched) && i <= j < |tr|
    requires t < |tr[i].pcs| && tr[i].pcs[t].Refused?
    ensures t < |tr[j].pcs| && tr[j].pcs[t].Refused?
    decreases j
  {
    if i < j {
      RefusedStays(cfg, key, n, tr, sched, t, i, j - 1);
    }
  }

  lemma AdmittedFoundRoom(cfg: Config, key: string, n: nat, tr: seq<State>, sched: seq<Action>, k: nat)
    requires ValidConfig(cfg) && IsRun(cfg, key, n, tr, sched) && Admission(tr, sched, k)
    ensures Finds(tr, sched, k)
  {
    var t := sched[k].t;
    assert tr[k + 1] == Perform(cfg, key, tr[k], sched[k]);
    if tr[k + 1].pcs[t].Refused? {
      RefusedStays(cfg, key, n, tr, sched, t, k + 1, |sched|);
    }
  }

  lemma AdmissionsAreTaken(cfg: Config, key: string, n: nat, tr: seq<State>, sched: seq<Action>, i: nat, j: nat)
    requires ValidConfig(cfg) && IsRun(cfg, key, n, tr, sched) && Clock(sched) && i <= j <= |sched|
    ensures CountRange(Admissions(tr, sched), i, j) <= |Taken(tr, sched, j)| - |Taken(tr, sched, i)|
  {
    hide Admission, Finds, Perform, Enabled, IsRun;
    var p, q := Admissions(tr, sched), Findings(tr, sched);
    forall k: nat | i <= k < j && p(k) ensures q(k) { AdmittedFoundRoom(cfg, key, n, tr, sched, k); }
    CountRangeImplies(p, q, i, j);
    TakenBetween(tr, sched, i, j);
  }

  lemma AdmittedSpan(cfg: Config, times: seq<int>, from: nat, first: int, last: int)
    requires ValidConfig(cfg) && Nondecreasing(times) && AllAdmitted(cfg, times) && from <= |times| && first <= last
    requires forall k :: from <= k < |times| ==> first <= times[k] <= last
    ensures |times| - from <= cfg.rate + (last - first) / LeakRate(cfg)
  {
    hide LeakRate, Verdict;
    QuotientMonotone(0, last - first, LeakRate(cfg));
    if from < |times| {
      CountRangeAll(Verdicts(cfg, times), from, |times|);
      AdmissionBound(cfg, times, from, |times|);
      QuotientMonotone(times[|times| - 1] - times[from], last - first, LeakRate(cfg));
    }
  }

  lemma TakenAreAdmitted(cfg: Config, key: string, n: nat, tr: seq<State>, sched: seq<Action>, j: nat)
    requires ValidConfig(cfg) && IsRun(cfg, key, n, tr, sched) && Clock(sched) && Overlaps(1, tr) && j <= |sched|
    ensures AllAdmitted(cfg, Taken(tr, sched, j))
  {
    hide IsRun, Clock, Overlaps, Taken, AllAdmitted, Finds, Admits, Full, Count;
    SerialisedRunIsBucketRun(cfg, key, n, tr, sched, j);
  }

  lemma SerialisedStretch(cfg: Config, key: string, n: nat, tr: seq<State>, sched: seq<Action>, i: nat, j: nat)
    requires ValidConfig(cfg) && IsRun(cfg, key, n, tr, sched) && Clock(sched) && Overlaps(1, tr) && i < j <= |sched|
    ensures CountRange(Admissions(tr, sched), i, j) <= cfg.rate + (Time(sched[j - 1]) - Time(sched[i])) / LeakRate(cfg)
  {
    hide IsRun, Admissions, LeakRate, Overlaps, AllAdmitted, Taken;
    TakenAreAdmitted(cfg, key, n, tr, sched, j);
    AdmissionsAreTaken(cfg, key, n, tr, sched, i, j);
    TakenBetween(tr, sched, i, j);
    TakenInOrder(tr, sched, j);
    AdmittedSpan(cfg, Taken(tr, sched, j), |Taken(tr, sched, i)|, Time(sched[i]), Time(sched[j - 1]));
  }

  // ----- two overlapping calls suffice to break the bound

  /** Pairs of calls at `now` that read together and then write one after the other, after `i` steps. */
  function PairsAt(cfg: Config, key: string, now: int, i: nat): State
    requires cfg.rate >= 0
  {
    var k, m := i / 4, i % 4;
    var count := if m == 3 then k + 1 else k;
    State(if count == 0 then map[] else Written(cfg, map[], key, count, now, now),
          seq(2 * cfg.rate, t requires t >= 0 => PairPc(k, m, now, t)))
  }

  function PairPc(k: nat, m: nat, now: int, t: nat): Pc {
    if t < 2 * k || (t == 2 * k && m == 3) then Admitted
    else if t < 2 * k + Min(m, 2) then HasRead(k + 1, now)
    else Arriving
  }

  function PairStep(now: int, i: nat): Action {
    var k, m := i / 4, i % 4;
    if m < 2 then Read(2 * k + m, now) else Write(2 * k + m - 2, now)
  }

  lemma SameInstantLevel(cfg: Config, key: string, count: nat, now: int)
    requires ValidConfig(cfg)
    ensures LevelRead(cfg, Written(cfg, map[], key, count, now, now), key, now) == count
    ensures LevelRead(cfg, map[], key, now) == 0
  {
    assert |BucketKey(key)| != |LastLeakKey(key)|;
  }

  lemma PairsStep(cfg: Config, key: string, now: int, i: nat)
    requires ValidConfig(cfg) && i < 4 * cfg.rate
    ensures var s, a := PairsAt(cfg, key, now, i), PairStep(now, i);
            Enabled(s, a) && Perform(cfg, key, s, a) == PairsAt(cfg, key, now, i + 1)
  {
    hide LevelRead;
    var s, a := PairsAt(cfg, key, now, i), PairStep(now, i);
    SameInstantLevel(cfg, key, i / 4, now);
    assert Perform(cfg, key, s, a).pcs == PairsAt(cfg, key, now, i + 1).pcs;
    assert Perform(cfg, key, s, a).db == PairsAt(cfg, key, now, i + 1).db;
  }

  lemma PairsOverlapInTwos(cfg: Config, key: string, now: int, i: nat)
    requires cfg.rate >= 0
    ensures Count(PairsAt(cfg, key, now, i).pcs, Holding) <= 2
  {
    CountInRange(PairsAt(cfg, key, now, i).pcs, Holding, 2 * (i / 4), 2 * (i / 4) + 2);
  }

  lemma PairStepsAt(now: int, k: nat)
    ensures PairStep(now, 4 * k) == Read(2 * k, now) && PairStep(now, 4 * k + 1) == Read(2 * k + 1, now)
    ensures PairStep(now, 4 * k + 2) == Write(2 * k, now) && PairStep(now, 4 * k + 3) == Write(2 * k + 1, now)
  {}

  ghost predicate ArePairs(cfg: Config, now: int, tr: seq<State>, sched: seq<Action>) {
    && cfg.rate >= 0 && |sched| == 4 * cfg.rate && |tr| == |sched| + 1
    && (forall i :: 0 <= i < |sched| ==> sched[i] == PairStep(now, i))
    && tr[|sched|].pcs == seq(2 * cfg.rate, _ => Admitted)
  }

  lemma {:induction false} PairsAreAdmitted(cfg: Config, now: int, tr: seq<State>, sched: seq<Action>, k: nat)
    requires ArePairs(cfg, now, tr, sched) && k <= cfg.rate
    ensures CountRange(Admissions(tr, sched), 0, 4 * k) == 2 * k
  {
    hide PairStep;
    if k > 0 {
      PairsAreAdmitted(cfg, now, tr, sched, k - 1);
      PairStepsAt(now, k - 1);
      var p, i := Admissions(tr, sched), 4 * (k - 1);
      CountRangeSplit(p, 0, i, i + 4);
      CountRangeSplit(p, i, i + 2, i + 4);
      CountRangeAll(p, i, i + 2);
      CountRangeNone(p, i + 2, i + 4);
    }
  }

  lemma PairsAreMany(cfg: Config, now: int, tr: seq<State>, sched: seq<Action>)
    requires ValidConfig(cfg) && ArePairs(cfg, now, tr, sched)
    ensures Clock(sched) && !KeepsBound(cfg, tr, sched)
    ensures CountRange(Admissions(tr, sched), 0, |sched|) == 2 * cfg.rate
  {
    hide LeakRate, Admissions;
    PairsAreAdmitted(cfg, now, tr, sched, cfg.rate);
    assert 0 / LeakRate(cfg) == 0;
  }

  function PairStates(cfg: Config, key: string, now: int): seq<State>
    requires cfg.rate >= 0
  {
    seq(4 * cfg.rate + 1, i requires i >= 0 => PairsAt(cfg, key, now, i))
  }

  function PairSteps(cfg: Config, now: int): seq<Action>
    requires cfg.rate >= 0
  {
    seq(4 * cfg.rate, i requires i >= 0 => PairStep(now, i))
  }

  lemma PairsAreRun(cfg: Config, key: string, now: int)
    requires ValidConfig(cfg)
    ensures IsRun(cfg, key, 2 * cfg.rate, PairStates(cfg, key, now), PairSteps(cfg, now))
  {
    var tr, sched := PairStates(cfg, key, now), PairSteps(cfg, now);
    assert tr[0].pcs == seq(2 * cfg.rate, _ => Arriving);
    hide PairsAt, PairStep, Perform, Enabled;
    forall i | 0 <= i < |sched| ensures Enabled(tr[i], sched[i]) && tr[i + 1] == Perform(cfg, key, tr[i], sched[i]) {
      PairsStep(cfg, key, now, i);
    }
  }

  /** Never more than two calls overlap, and twice the rate is admitted at one instant. */
  lemma PairsBreakBound(cfg: Config, key: string, now: int)
    requires ValidConfig(cfg)
    ensures var tr, sched := PairStates(cfg, key, now), PairSteps(cfg, now);
            && IsRun(cfg, key, 2 * cfg.rate, tr, sched) && Clock(sched) && Overlaps(2, tr)
            && CountRange(Admissions(tr, sched), 0, |sched|) == 2 * cfg.rate
            && !KeepsBound(cfg, tr, sched)
  {
    var tr := PairStates(cfg, key, now);
    assert tr[4 * cfg.rate].pcs == seq(2 * cfg.rate, _ => Admitted);
    hide PairsAt, PairStep, IsRun, Count;
    PairsAreRun(cfg, key, now);
    PairsAreMany(cfg, now, tr, PairSteps(cfg, now));
    forall i | 0 <= i < |tr| ensures Count(tr[i].pcs, Holding) <= 2 { PairsOverlapInTwos(cfg, key, now, i); }
  }

  /** The bound holds on every run with at most `c` calls between their read and their write exactly when
      calls do not overlap. */
  lemma BoundNeedsSerialisationIff(cfg: Config, key: string, c: nat)
    requires ValidConfig(cfg)
    ensures c <= 1 <==>
            forall n: nat, tr, sched ::
              IsRun(cfg, key, n, tr, sched) && Clock(sched) && Overlaps(c, tr) ==> KeepsBound(cfg, tr, sched)
  {
    hide IsRun, Admissions, Clock;
    if c <= 1 {
      forall n: nat, tr: seq<State>, sched, i: nat, j: nat |
        IsRun(cfg, key, n, tr, sched) && Clock(sched) && Overlaps(c, tr) && i < j <= |sched|
        ensures CountRange(Admissions(tr, sched), i, j)
             <= cfg.rate + (Time(sched[j - 1]) - Time(sched[i])) / LeakRate(cfg)
      {
        SerialisedStretch(cfg, key, n, tr, sched, i, j);
      }
    } else {
      PairsBreakBound(cfg, key, 0);
      assert Overlaps(c, PairStates(cfg, key, 0));
    }
  }

  /** `n` calls at `now` that all read before any of them writes, after `i` steps. */
  function CrowdAt(cfg: Config, key: string, n: nat, now: int, i: nat): State {
    if i <= n then State(map[], seq(n, t => if t < i then HasRead(1, now) else Arriving))
    else State(Written(cfg, map[], key, 1, now, now), seq(n, t => if t < i - n then Admitted else HasRead(1, now)))
  }

  lemma CrowdStep(cfg: Config, key: string, n: nat, now: int, i: nat)
    requires ValidConfig(cfg) && i < 2 * n
    ensures var s, a := CrowdAt(cfg, key, n, now, i), if i < n then Read(i, now) else Write(i - n, now);
            Enabled(s, a) && Perform(cfg, key, s, a) == CrowdAt(cfg, key, n, now, i + 1)
  {
    var s, a := CrowdAt(cfg, key, n, now, i), if i < n then Read(i, now) else Write(i - n, now);
    assert Perform(cfg, key, s, a).pcs == CrowdAt(cfg, key, n, now, i + 1).pcs;
  }

  /** Serialisation is needed: any number of overlapping calls on an empty key can all be admitted, and
      leave a count of one. */
  lemma OverlapAdmitsAll(cfg: Config, key: string, n: nat, now: int) returns (tr: seq<State>, sched: seq<Action>)
    requires ValidConfig(cfg)
    ensures IsRun(cfg, key, n, tr, sched) && |tr[|sched|].pcs| == n
    ensures forall t :: 0 <= t < n ==> tr[|sched|].pcs[t].Admitted?
    ensures n > 0 ==> tr[|sched|].db == Written(cfg, map[], key, 1, now, now)
  {
    tr := seq(2 * n + 1, i requires i >= 0 => CrowdAt(cfg, key, n, now, i));
    sched := seq(2 * n, i requires i >= 0 => if i < n then Read(i, now) else Write(i - n, now));
    hide Perform, Enabled;
    forall i | 0 <= i < |sched| ensures Enabled(tr[i], sched[i]) && tr[i + 1] == Perform(cfg, key, tr[i], sched[i]) {
      CrowdStep(cfg, key, n, now, i);
    }
  }

  // ----- the counter

  class LeakyBucketCounter {
    const cfg: Config
    var db: Db

    function Stored(key: string): Bucket
      reads this
    {
      BucketIn(db, key)
    }

    ghost predicate Paired(key: string)
      reads this
    {
      PairedIn(cfg, db, key)
    }

    constructor (rate: int, window: int)
      requires 1 <= rate <= window
      ensures cfg == Config(rate, window) && ValidConfig(cfg) && db == map[] && forall key :: Paired(key)
    {
      cfg, db := Config(rate, window), map[];
    }

    method Allow(key: string, now: int) returns (ok: bool, remaining: int)
      requires ValidConfig(cfg)
      modifies this`db
      ensures ok == (LevelRead(cfg, old(db), key, now) < cfg.rate)
      ensures db == if ok then Written(cfg, old(db), key, LevelRead(cfg, old(db), key, now) + 1, now, now) else old(db)
      ensures remaining == if ok then cfg.rate - LevelRead(cfg, old(db), key, now) - 1 else 0
      ensures ok ==> db[BucketKey(key)].expiry == db[LastLeakKey(key)].expiry == now + cfg.window
      ensures old(Paired(key)) ==>
                && Paired(key)
                && ok == Admits(cfg, old(Stored(key)), now)
                && Stored(key) == Pour(cfg, old(Stored(key)), now)
      ensures forall k :: k != key && !Collide(k, key) ==> Stored(k) == old(Stored(k)) && (old(Paired(k)) ==> Paired(k))
    {
      var count, lastLeak := 0, now;
      if Live(db, BucketKey(key), now) {
        count := db[BucketKey(key)].value;
      }
      if Live(db, LastLeakKey(key), now) {
        lastLeak := db[LastLeakKey(key)].value;
      }
      var leaked := Quot(now - lastLeak, LeakRate(cfg));
      if leaked > count {
        leaked := count;
      }
      count := count - leaked;
      if count < 0 {
        count := 0;
      }
      ReadIsLevel(cfg, db, key, now);
      if count >= cfg.rate {
        return false, 0;
      }
      count := count + 1;
      db := db[BucketKey(key) := Entry(count, now + cfg.window)][LastLeakKey(key) := Entry(now, now + cfg.window)];
      assert BucketKey(key) != LastLeakKey(key) by { assert |BucketKey(key)| != |LastLeakKey(key)|; }
      forall k | k != key && !Collide(k, key) ensures Stored(k) == old(Stored(k)) && (old(Paired(k)) ==> Paired(k)) {
        ClientsCollideIff(k, key);
      }
      return true, cfg.rate - count;
    }
  }
}

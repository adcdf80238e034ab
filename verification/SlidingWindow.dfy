/** The sliding-window log over a Redis sorted set. Calls carry nanosecond stamps; scores and the
    window are whole milliseconds. */
module SlidingWindow {
  import opened Counting

  const MILLI: int := 1_000_000
  const SECOND: int := 1_000_000_000

  function Ms(stamp: int): int { stamp / MILLI }

  /** At most `max` requests per `window` milliseconds. */
  datatype Config = Config(max: int, window: int)

  predicate ValidConfig(cfg: Config) { cfg.window >= 1 }

  /** The sorted set of one key, from member (the stamp) to score, and when the key expires. */
  datatype Log = Absent | Stored(scores: map<int, int>, expiry: int)

  function Scores(log: Log, now: int): map<int, int> {
    if log.Absent? || now > log.expiry then map[] else log.scores
  }

  /** `ZRemRangeByScore` from 0. */
  function Pruned(scores: map<int, int>, upTo: int): map<int, int> {
    map m | m in scores && !(0 <= scores[m] <= upTo) :: scores[m]
  }

  /** Remove the scores up to the window start, then add the call itself. */
  function Updated(cfg: Config, log: Log, now: int): map<int, int> {
    Pruned(Scores(log, now), Ms(now) - cfg.window)[now := Ms(now)]
  }

  /** A second more than the window, of which `Expire` sends the whole seconds. */
  function Expiry(cfg: Config, now: int): int { now + WholeSeconds(cfg.window * MILLI + SECOND) }

  function WholeSeconds(d: int): int { d / SECOND * SECOND }

  function Add(cfg: Config, log: Log, now: int): Log { Stored(Updated(cfg, log, now), Expiry(cfg, now)) }

  function Total(cfg: Config, log: Log, now: int): nat { |Updated(cfg, log, now)| }

  function After(cfg: Config, times: seq<int>, n: nat): Log
    requires n <= |times|
  {
    if n == 0 then Absent else Add(cfg, After(cfg, times, n - 1), times[n - 1])
  }

  predicate Verdict(cfg: Config, times: seq<int>, i: nat) {
    i < |times| && Total(cfg, After(cfg, times, i), times[i]) <= cfg.max
  }

  ghost predicate Clock(times: seq<int>) {
    Nondecreasing(times) && forall i :: 0 <= i < |times| ==> times[i] >= 0
  }

  ghost predicate StrictClock(times: seq<int>) {
    Clock(times) && forall i, j :: 0 <= i < j < |times| ==> times[i] < times[j]
  }

  // ----- the full log

  /** Attempt `k` of the run lies in the window that ends with attempt `i`. */
  predicate InWindow(cfg: Config, times: seq<int>, i: nat, k: nat) {
    k <= i < |times| && Ms(times[k]) > Ms(times[i]) - cfg.window
  }

  function WindowOf(cfg: Config, times: seq<int>, i: nat): nat -> bool {
    (k: nat) => InWindow(cfg, times, i, k)
  }

  ghost predicate HoldsRecent(cfg: Config, times: seq<int>, i: nat, scores: map<int, int>)
    requires i < |times|
  {
    && (forall k :: 0 <= k <= i && InWindow(cfg, times, i, k) ==> times[k] in scores)
    && (forall m :: m in scores ==>
          scores[m] == Ms(m) && exists k :: 0 <= k <= i && InWindow(cfg, times, i, k) && times[k] == m)
  }

  /** What attempt `i` finds stored: nothing before the first, else what attempt `i - 1` left. */
  ghost predicate Finds(cfg: Config, times: seq<int>, i: nat)
    requires i < |times|
  {
    var log := After(cfg, times, i);
    if i == 0 then log.Absent?
    else log.Stored? && log.expiry == Expiry(cfg, times[i - 1]) && HoldsRecent(cfg, times, i - 1, log.scores)
  }

  /** A key that holds something of the current window has not expired. */
  lemma RecentIsLive(cfg: Config, earlier: int, last: int, now: int)
    requires ValidConfig(cfg) && earlier <= last && Ms(earlier) > Ms(now) - cfg.window
    ensures now <= Expiry(cfg, last)
  {}

  lemma UpdatedKeeps(cfg: Config, log: Log, now: int, m: int)
    requires log.Stored? && now <= log.expiry && m in log.scores && log.scores[m] > Ms(now) - cfg.window
    ensures m in Updated(cfg, log, now)
  {}

  lemma RecentIsHeld(cfg: Config, times: seq<int>, i: nat, k: nat)
    requires ValidConfig(cfg) && Clock(times) && i < |times| && Finds(cfg, times, i) && InWindow(cfg, times, i, k)
    ensures times[k] in Updated(cfg, After(cfg, times, i), times[i])
  {
    if k < i {
      var log := After(cfg, times, i);
      assert InWindow(cfg, times, i - 1, k);
      hide Updated, Expiry;
      RecentIsLive(cfg, times[k], times[i - 1], times[i]);
      UpdatedKeeps(cfg, log, times[i], times[k]);
    }
  }

  lemma HeldIsRecent(cfg: Config, times: seq<int>, i: nat, m: int) returns (k: nat)
    requires ValidConfig(cfg) && Clock(times) && i < |times| && Finds(cfg, times, i)
    requires m in Updated(cfg, After(cfg, times, i), times[i])
    ensures InWindow(cfg, times, i, k) && times[k] == m
    ensures Updated(cfg, After(cfg, times, i), times[i])[m] == Ms(m)
  {
    if m == times[i] {
      k := i;
    } else {
      k :| 0 <= k <= i - 1 && InWindow(cfg, times, i - 1, k) && times[k] == m;
    }
  }

  /** The pruned and expiring set holds exactly the attempts, admitted or not, of the current window. */
  lemma {:induction false} SetIsRecentLog(cfg: Config, times: seq<int>, i: nat)
    requires ValidConfig(cfg) && Clock(times) && i < |times|
    ensures After(cfg, times, i + 1) == Stored(Updated(cfg, After(cfg, times, i), times[i]), Expiry(cfg, times[i]))
    ensures HoldsRecent(cfg, times, i, Updated(cfg, After(cfg, times, i), times[i]))
  {
    if i > 0 {
      SetIsRecentLog(cfg, times, i - 1);
    }
    hide InWindow, Updated;
    var scores := Updated(cfg, After(cfg, times, i), times[i]);
    forall k: nat | k <= i && InWindow(cfg, times, i, k) ensures times[k] in scores { RecentIsHeld(cfg, times, i, k); }
    forall m | m in scores
      ensures scores[m] == Ms(m) && exists k :: 0 <= k <= i && InWindow(cfg, times, i, k) && times[k] == m
    {
      var k := HeldIsRecent(cfg, times, i, m);
    }
  }

  ghost function RecentSet(cfg: Config, times: seq<int>, i: nat, n: nat): set<int>
    requires n <= |times|
  {
    set k | 0 <= k < n && InWindow(cfg, times, i, k) :: times[k]
  }

  /** The first `n` attempts have distinct stamps as far as they lie in the window of attempt `i`. */
  ghost predicate DistinctInWindow(cfg: Config, times: seq<int>, i: nat, n: nat)
    requires n <= |times|
  {
    forall j: nat, k: nat {:trigger InWindow(cfg, times, i, j), InWindow(cfg, times, i, k)} ::
      j < k < n && InWindow(cfg, times, i, j) && InWindow(cfg, times, i, k) ==> times[j] != times[k]
  }

  lemma NoneYet(cfg: Config, times: seq<int>, x: int, i: nat)
    ensures RecentSet(cfg, times, i, 0) == {} == AdmittedStamps(cfg, times, x, 0)
    ensures DistinctInWindow(cfg, times, i, 0)
  {}

  lemma RecentSetStep(cfg: Config, times: seq<int>, i: nat, n: nat)
    requires n < |times|
    ensures RecentSet(cfg, times, i, n + 1)
         == RecentSet(cfg, times, i, n) + (if InWindow(cfg, times, i, n) then {times[n]} else {})
  {}

  lemma DistinctStep(cfg: Config, times: seq<int>, i: nat, n: nat)
    requires n < |times|
    ensures DistinctInWindow(cfg, times, i, n + 1) <==>
            && DistinctInWindow(cfg, times, i, n)
            && !(InWindow(cfg, times, i, n) && times[n] in RecentSet(cfg, times, i, n))
  {
    hide InWindow;
    if InWindow(cfg, times, i, n) && times[n] in RecentSet(cfg, times, i, n) {
      var k: nat :| k < n && InWindow(cfg, times, i, k) && times[k] == times[n];
    }
  }

  /** Attempts of a window that share a stamp are one member, so the set is never larger than the number of
      attempts, and as large exactly when their stamps are distinct. */
  lemma {:induction false} RecentSetSize(cfg: Config, times: seq<int>, i: nat, n: nat)
    requires n <= |times|
    ensures |RecentSet(cfg, times, i, n)| <= CountRange(WindowOf(cfg, times, i), 0, n)
    ensures DistinctInWindow(cfg, times, i, n) <==>
            |RecentSet(cfg, times, i, n)| == CountRange(WindowOf(cfg, times, i), 0, n)
  {
    hide InWindow, DistinctInWindow, RecentSet;
    NoneYet(cfg, times, 0, i);
    if n > 0 {
      RecentSetSize(cfg, times, i, n - 1);
      RecentSetStep(cfg, times, i, n - 1);
      DistinctStep(cfg, times, i, n - 1);
    }
  }

  lemma MembersAreRecentSet(cfg: Config, times: seq<int>, i: nat, scores: map<int, int>)
    requires i < |times| && HoldsRecent(cfg, times, i, scores)
    ensures |scores| == |RecentSet(cfg, times, i, i + 1)|
  {
    var recent := RecentSet(cfg, times, i, i + 1);
    forall m | m in scores ensures m in recent {
      var k :| 0 <= k <= i && InWindow(cfg, times, i, k) && times[k] == m;
      assert 0 <= k < i + 1;
    }
    forall m | m in recent ensures m in scores {}
    assert scores.Keys == recent;
  }

  /** On every run a call is admitted exactly when the distinct stamps among the attempts of the window
      that ends with it, itself included, number at most `max`. */
  lemma AdmittedIffStampsFit(cfg: Config, times: seq<int>, i: nat)
    requires ValidConfig(cfg) && Clock(times) && i < |times|
    ensures Total(cfg, After(cfg, times, i), times[i]) == |RecentSet(cfg, times, i, i + 1)|
    ensures Verdict(cfg, times, i) <==> |RecentSet(cfg, times, i, i + 1)| <= cfg.max
  {
    SetIsRecentLog(cfg, times, i);
    MembersAreRecentSet(cfg, times, i, Updated(cfg, After(cfg, times, i), times[i]));
  }

  /** The count of a call is the number of attempts in its window exactly when no two of them have the
      same stamp; otherwise it is smaller. */
  lemma CountIsExactIff(cfg: Config, times: seq<int>, i: nat)
    requires ValidConfig(cfg) && Clock(times) && i < |times|
    ensures var count, attempts :=
              Total(cfg, After(cfg, times, i), times[i]), CountRange(WindowOf(cfg, times, i), 0, i + 1);
            count <= attempts && (count == attempts <==> DistinctInWindow(cfg, times, i, i + 1))
  {
    AdmittedIffStampsFit(cfg, times, i);
    RecentSetSize(cfg, times, i, i + 1);
  }

  ghost predicate CountsAreExact(cfg: Config, times: seq<int>) {
    forall i: nat :: i < |times| ==>
      Total(cfg, After(cfg, times, i), times[i]) == CountRange(WindowOf(cfg, times, i), 0, i + 1)
  }

  /** Every count of a run is right exactly when its stamps all differ. */
  lemma CountsAreExactIff(cfg: Config, times: seq<int>)
    requires ValidConfig(cfg) && Clock(times)
    ensures StrictClock(times) <==> CountsAreExact(cfg, times)
  {
    if i, j :| 0 <= i < j < |times| && times[i] == times[j] {
      CountIsExactIff(cfg, times, j);
      assert InWindow(cfg, times, j, i) && InWindow(cfg, times, j, j);
    } else {
      forall i: nat | i < |times|
        ensures Total(cfg, After(cfg, times, i), times[i]) == CountRange(WindowOf(cfg, times, i), 0, i + 1)
      {
        CountIsExactIff(cfg, times, i);
      }
    }
  }

  /** So with distinct stamps a call is admitted exactly when the attempts of its window number at
      most `max`. */
  lemma AdmittedIffWindowFits(cfg: Config, times: seq<int>, i: nat)
    requires ValidConfig(cfg) && StrictClock(times) && i < |times|
    ensures Verdict(cfg, times, i) <==> CountRange(WindowOf(cfg, times, i), 0, i + 1) <= cfg.max
  {
    AdmittedIffStampsFit(cfg, times, i);
    RecentSetSize(cfg, times, i, i + 1);
  }

  function Tied(t: int, n: nat): seq<int> { seq(n, _ => t) }

  /** Any number of calls at one instant are all admitted. */
  lemma SameInstantCountsOnce(cfg: Config, t: int, n: nat, i: nat)
    requires ValidConfig(cfg) && cfg.max >= 1 && t >= 0 && i < n
    ensures Clock(Tied(t, n)) && Verdict(cfg, Tied(t, n), i)
  {
    AdmittedIffStampsFit(cfg, Tied(t, n), i);
    assert InWindow(cfg, Tied(t, n), i, i);
    assert RecentSet(cfg, Tied(t, n), i, i + 1) == {t};
  }

  // ----- the admission bound

  /** Admitted calls that all fall in the window of the last of them number at most `max`. */
  lemma {:induction false} OneWindowBound(cfg: Config, times: seq<int>, p: nat -> bool, hi: nat)
    requires ValidConfig(cfg) && StrictClock(times) && hi <= |times|
    requires forall k: nat :: p(k) ==> Verdict(cfg, times, k)
    requires forall k: nat, j: nat {:trigger p(k), p(j)} :: k <= j && p(k) && p(j) ==> InWindow(cfg, times, j, k)
    ensures CountRange(p, 0, hi) <= Max(0, cfg.max)
  {
    if hi > 0 {
      OneWindowBound(cfg, times, p, hi - 1);
      if p(hi - 1) {
        CountRangeImplies(p, WindowOf(cfg, times, hi - 1), 0, hi);
        AdmittedIffWindowFits(cfg, times, hi - 1);
      }
    }
  }

  function AdmittedMs(cfg: Config, times: seq<int>, x: int): nat -> bool {
    (k: nat) => Verdict(cfg, times, k) && x < Ms(times[k]) <= x + cfg.window
  }

  /** Every span of `window` milliseconds of every run with distinct stamps has at most `max` admissions. */
  lemma AdmissionBound(cfg: Config, times: seq<int>, x: int)
    requires ValidConfig(cfg) && StrictClock(times)
    ensures CountRange(AdmittedMs(cfg, times, x), 0, |times|) <= Max(0, cfg.max)
  {
    OneWindowBound(cfg, times, AdmittedMs(cfg, times, x), |times|);
  }

  ghost function AdmittedStamps(cfg: Config, times: seq<int>, x: int, n: nat): set<int>
    requires n <= |times|
  {
    set k | 0 <= k < n && AdmittedMs(cfg, times, x)(k) :: times[k]
  }

  lemma StampsAreRecent(cfg: Config, times: seq<int>, x: int, n: nat)
    requires n < |times| && AdmittedMs(cfg, times, x)(n)
    ensures AdmittedStamps(cfg, times, x, n + 1) <= RecentSet(cfg, times, n, n + 1)
  {
    hide Verdict;
    forall k: nat | k <= n && AdmittedMs(cfg, times, x)(k) ensures InWindow(cfg, times, n, k) {}
  }

  lemma StampsStay(cfg: Config, times: seq<int>, x: int, n: nat)
    requires n < |times| && !AdmittedMs(cfg, times, x)(n)
    ensures AdmittedStamps(cfg, times, x, n + 1) == AdmittedStamps(cfg, times, x, n)
  {
    hide AdmittedMs;
  }

  lemma AdmittedWindowFits(cfg: Config, times: seq<int>, x: int, n: nat)
    requires ValidConfig(cfg) && Clock(times) && n < |times| && AdmittedMs(cfg, times, x)(n)
    ensures |RecentSet(cfg, times, n, n + 1)| <= cfg.max
  {
    AdmittedIffStampsFit(cfg, times, n);
  }

  /** Whether or not stamps tie, such a span admits at most `max` distinct ones. */
  lemma {:induction false} StampBound(cfg: Config, times: seq<int>, x: int, n: nat)
    requires ValidConfig(cfg) && Clock(times) && n <= |times|
    ensures |AdmittedStamps(cfg, times, x, n)| <= Max(0, cfg.max)
  {
    hide AdmittedMs, AdmittedStamps, RecentSet, Verdict;
    NoneYet(cfg, times, x, 0);
    if n > 0 {
      if AdmittedMs(cfg, times, x)(n - 1) {
        AdmittedWindowFits(cfg, times, x, n - 1);
        StampsAreRecent(cfg, times, x, n - 1);
        SubsetSize(AdmittedStamps(cfg, times, x, n), RecentSet(cfg, times, n - 1, n));
      } else {
        StampBound(cfg, times, x, n - 1);
        StampsStay(cfg, times, x, n - 1);
      }
    }
  }

  lemma SubsetSize(small: set<int>, large: set<int>)
    requires small <= large
    ensures |small| <= |large|
  {
    assert large == small + (large - small);
  }

  ghost predicate MsBound(cfg: Config, times: seq<int>) {
    forall x: int :: CountRange(AdmittedMs(cfg, times, x), 0, |times|) <= Max(0, cfg.max)
  }

  lemma TiedInSpan(cfg: Config, t: int, k: nat)
    requires ValidConfig(cfg) && 1 <= cfg.max && k <= cfg.max && t >= 0
    ensures AdmittedMs(cfg, Tied(t, cfg.max + 1), Ms(t) - 1)(k)
  {
    hide Verdict;
    SameInstantCountsOnce(cfg, t, cfg.max + 1, k);
  }

  lemma TiedBreaksBound(cfg: Config, t: int)
    requires ValidConfig(cfg) && cfg.max >= 1 && t >= 0
    ensures Clock(Tied(t, cfg.max + 1)) && !MsBound(cfg, Tied(t, cfg.max + 1))
  {
    hide AdmittedMs;
    var p, n := AdmittedMs(cfg, Tied(t, cfg.max + 1), Ms(t) - 1), cfg.max + 1;
    forall k: nat | 0 <= k < n ensures p(k) { TiedInSpan(cfg, t, k); }
    CountRangeAll(p, 0, n);
    assert CountRange(AdmittedMs(cfg, Tied(t, n), Ms(t) - 1), 0, |Tied(t, n)|) > Max(0, cfg.max);
  }

  ghost predicate NotBefore(since: int, times: seq<int>) {
    forall i :: 0 <= i < |times| ==> times[i] >= since
  }

  /** When stamps may tie, the limit is kept on every run only by admitting nothing, however late the runs. */
  lemma TiesBreakBoundIff(cfg: Config, since: int)
    requires ValidConfig(cfg)
    ensures cfg.max <= 0 <==> forall times :: Clock(times) && NotBefore(since, times) ==> MsBound(cfg, times)
  {
    if cfg.max <= 0 {
      forall times, x: int | Clock(times)
        ensures CountRange(AdmittedMs(cfg, times, x), 0, |times|) <= Max(0, cfg.max)
      {
        CountRangeNone(AdmittedMs(cfg, times, x), 0, |times|);
      }
    } else {
      TiedBreaksBound(cfg, Max(0, since));
      assert NotBefore(since, Tied(Max(0, since), cfg.max + 1));
    }
  }

  function AdmittedNs(cfg: Config, times: seq<int>, y: int, length: int): nat -> bool {
    (k: nat) => Verdict(cfg, times, k) && y <= times[k] <= y + length
  }

  ghost predicate SpanBound(cfg: Config, times: seq<int>, length: int) {
    forall y: int :: CountRange(AdmittedNs(cfg, times, y, length), 0, |times|) <= Max(0, cfg.max)
  }

  /** On the nanosecond scale scores round down, so a span is protected up to `window - 1` milliseconds. */
  lemma NanosecondBound(cfg: Config, times: seq<int>, y: int, length: int)
    requires ValidConfig(cfg) && StrictClock(times) && length <= (cfg.window - 1) * MILLI
    ensures CountRange(AdmittedNs(cfg, times, y, length), 0, |times|) <= Max(0, cfg.max)
  {
    OneWindowBound(cfg, times, AdmittedNs(cfg, times, y, length), |times|);
  }

  /** Fewer than `max` nanoseconds cannot hold more than `max` distinct stamps. */
  lemma {:induction false} FewStampsInShortSpan(cfg: Config, times: seq<int>, y: int, length: int, hi: nat)
    requires StrictClock(times) && hi <= |times|
    ensures CountRange(AdmittedNs(cfg, times, y, length), 0, hi)
         <= if hi == 0 then 0 else Max(0, Min(length, times[hi - 1] - y) + 1)
  {
    hide Verdict;
    if hi > 0 {
      FewStampsInShortSpan(cfg, times, y, length, hi - 1);
    }
  }

  /** `max + 1` attempts from millisecond `b` on, of which the last is the only one whose window leaves the
      first one out. */
  function Straddle(cfg: Config, b: nat): seq<int>
    requires cfg.max >= 1
  {
    seq(cfg.max + 1, k => StraddleAt(cfg, b, k))
  }

  function StraddleAt(cfg: Config, b: nat, k: int): int {
    b * MILLI + if k < cfg.max then MILLI - 1 + k else Max(cfg.window * MILLI, MILLI - 1 + cfg.max)
  }

  lemma StraddleIsStrict(cfg: Config, b: nat)
    requires ValidConfig(cfg) && cfg.max >= 1
    ensures StrictClock(Straddle(cfg, b)) && NotBefore(b, Straddle(cfg, b))
  {}

  lemma StraddleIsAdmitted(cfg: Config, b: nat, k: nat)
    requires ValidConfig(cfg) && cfg.max >= 1 && k <= cfg.max
    ensures Verdict(cfg, Straddle(cfg, b), k)
  {
    var times := Straddle(cfg, b);
    StraddleIsStrict(cfg, b);
    AdmittedIffWindowFits(cfg, times, k);
    if k == cfg.max {
      assert Ms(times[0]) == b;
      assert times[k] == StraddleAt(cfg, b, k) >= (b + cfg.window) * MILLI;
      CountRangeSplit(WindowOf(cfg, times, k), 0, 1, k + 1);
      CountRangeNone(WindowOf(cfg, times, k), 0, 1);
    }
  }

  lemma StraddleInSpan(cfg: Config, b: nat, length: int, k: nat)
    requires ValidConfig(cfg) && 1 <= cfg.max <= length && length > (cfg.window - 1) * MILLI && k <= cfg.max
    ensures AdmittedNs(cfg, Straddle(cfg, b), (b + 1) * MILLI - 1, length)(k)
  {
    StraddleIsAdmitted(cfg, b, k);
    assert Straddle(cfg, b)[k] == StraddleAt(cfg, b, k);
  }

  lemma SpanBoundAt(cfg: Config, times: seq<int>, length: int, y: int)
    requires SpanBound(cfg, times, length)
    ensures CountRange(AdmittedNs(cfg, times, y, length), 0, |times|) <= Max(0, cfg.max)
  {}

  lemma StraddleBreaksBound(cfg: Config, b: nat, length: int)
    requires ValidConfig(cfg) && 1 <= cfg.max <= length && length > (cfg.window - 1) * MILLI
    ensures !SpanBound(cfg, Straddle(cfg, b), length)
  {
    hide AdmittedNs;
    var times, y := Straddle(cfg, b), (b + 1) * MILLI - 1;
    var p, n := AdmittedNs(cfg, times, y, length), |times|;
    forall k: nat | 0 <= k < n ensures p(k) { StraddleInSpan(cfg, b, length, k); }
    CountRangeAll(p, 0, n);
    if SpanBound(cfg, times, length) {
      SpanBoundAt(cfg, times, length, y);
    }
  }

  /** The exact lengths for which every nanosecond span of every run keeps the limit, however late the runs. */
  lemma NanosecondBoundIff(cfg: Config, length: int, since: int)
    requires ValidConfig(cfg)
    ensures cfg.max <= 0 || length < cfg.max || length <= (cfg.window - 1) * 1_000_000
       <==> forall times :: StrictClock(times) && NotBefore(since, times) ==> SpanBound(cfg, times, length)
  {
    if cfg.max <= 0 || length < cfg.max || length <= (cfg.window - 1) * MILLI {
      forall times, y: int | StrictClock(times)
        ensures CountRange(AdmittedNs(cfg, times, y, length), 0, |times|) <= Max(0, cfg.max)
      {
        if cfg.max <= 0 {
          CountRangeNone(AdmittedNs(cfg, times, y, length), 0, |times|);
        } else if length < cfg.max {
          FewStampsInShortSpan(cfg, times, y, length, |times|);
        } else {
          NanosecondBound(cfg, times, y, length);
        }
      }
    } else {
      var b := Max(0, since);
      StraddleIsStrict(cfg, b);
      StraddleBreaksBound(cfg, b, length);
      assert NotBefore(since, Straddle(cfg, b));
    }
  }

  /** A key lives for the next whole number of seconds above its window after each attempt. */
  lemma KeyLivesForWindow(cfg: Config, now: int)
    ensures now + cfg.window * 1_000_000 < Expiry(cfg, now) <= now + cfg.window * 1_000_000 + 1_000_000_000
    ensures (Expiry(cfg, now) - now) % 1_000_000_000 == 0
  {}

  // ----- the counter

  class SlidingWindowCounter {
    var sets: map<string, Log>

    function LogOf(key: string): Log
      reads this
    {
      if key in sets then sets[key] else Absent
    }

    constructor ()
      ensures sets == map[]
    {
      sets := map[];
    }

    method RemoveUpTo(scores: map<int, int>, upTo: int) returns (kept: map<int, int>)
      ensures kept == Pruned(scores, upTo)
    {
      var stale := set m | m in scores && 0 <= scores[m] <= upTo;
      kept := scores - stale;
    }

    method Allow(key: string, max: int, window: int, now: int) returns (ok: bool, count: int)
      modifies this
      ensures LogOf(key) == Add(Config(max, window), old(LogOf(key)), now)
      ensures count == Total(Config(max, window), old(LogOf(key)), now)
      ensures ok == (count <= max)
      ensures forall k :: k != key ==> LogOf(k) == old(LogOf(k))
    {
      hide WholeSeconds, Pruned;
      var log := LogOf(key);
      var live := if log.Absent? || now > log.expiry then map[] else log.scores;
      var scores := RemoveUpTo(live, Ms(now) - window);
      scores := scores[now := Ms(now)];
      count := |scores|;
      sets := sets[key := Stored(scores, now + WholeSeconds(window * MILLI + SECOND))];
      ok := count <= max;
    }
  }
}

/** Counters over aligned windows: the fixed window, whose Redis keys expire at the end of the window,
    and the burst counter over `MemoryStore`. Times are nanoseconds since the zero time. */
module AlignedWindows {
  import opened Arithmetic
  import opened Counting
  import opened Text
  import opened TimedStore
  import Stores

  const SECOND: int := 1_000_000_000

  /** Seconds from the zero time to the Unix epoch. */
  const UNIX_EPOCH: int := 62_135_596_800

  datatype Kind = FixedWindow | Burst

  /** `limit` is `max` for the fixed window and `limit + burst` for the burst counter. */
  datatype Config = Config(kind: Kind, window: int, limit: int)

  /** Store keys name windows by whole seconds, so windows must not be shorter; and the keys of a fixed
      window, whose expiry is a time of day, must not expire before the window is over. */
  predicate KeepsWindows(cfg: Config) {
    cfg.window > 0 && if cfg.kind.Burst? then cfg.window >= SECOND else cfg.window % SECOND == 0
  }

  /** Windows are numbered from the zero time. */
  function Index(cfg: Config, now: int): int
    requires cfg.window > 0
  {
    now / cfg.window
  }

  function Start(cfg: Config, x: int): int { x * cfg.window }

  /** `Truncate`: the start of the window of `now`, which itself is the start without a proper window. */
  function StartOf(cfg: Config, now: int): int {
    if cfg.window <= 0 then now else now / cfg.window * cfg.window
  }

  function Unix(t: int): int { t / SECOND - UNIX_EPOCH }

  /** `ExpireAt` sends its time in whole Unix seconds. */
  function ExpireAt(t: int): int { (Unix(t) + UNIX_EPOCH) * SECOND }

  /** The stored key of a client's window. */
  function StoreKey(cfg: Config, key: string, start: int): string {
    (if cfg.kind.Burst? then key else "fw:" + key) + ":" + Decimal(Unix(start))
  }

  function WindowKey(cfg: Config, key: string, x: int): string { StoreKey(cfg, key, Start(cfg, x)) }

  /** The entry after counting one more call. */
  function Counted(cfg: Config, db: Db, key: string, now: int): Entry {
    var start := StartOf(cfg, now);
    var slot := Stores.SlotIn(db, StoreKey(cfg, key, start));
    match cfg.kind
    case FixedWindow =>
      Entry(if slot.Held? && !Expired(slot.entry, now) then slot.entry.value + 1 else 1, ExpireAt(start + cfg.window))
    case Burst => Stores.MemoryIncrement(slot, cfg.window, now)
  }

  function Step(cfg: Config, db: Db, key: string, now: int): Db {
    db[StoreKey(cfg, key, StartOf(cfg, now)) := Counted(cfg, db, key, now)]
  }

  datatype Call = Call(key: string, at: int)

  function After(cfg: Config, calls: seq<Call>, n: nat): Db
    requires n <= |calls|
  {
    if n == 0 then map[] else Step(cfg, After(cfg, calls, n - 1), calls[n - 1].key, calls[n - 1].at)
  }

  predicate Verdict(cfg: Config, calls: seq<Call>, i: nat) {
    i < |calls| && Counted(cfg, After(cfg, calls, i), calls[i].key, calls[i].at).value <= cfg.limit
  }

  /** Unix time is the whole seconds since the year 1970, of which 1969 years with their leap days have passed
      since the zero time. */
  lemma UnixCountsFrom1970(t: int)
    ensures var days := 1969 * 365 + 1969 / 4 - 1969 / 100 + 1969 / 400;
            var since := t - days * 24 * 3600 * 1_000_000_000;
            Unix(t) * 1_000_000_000 <= since < (Unix(t) + 1) * 1_000_000_000
  {}

  // ----- keys

  lemma UnixSeparates(window: int, x: int, y: int)
    requires window >= SECOND && x < y
    ensures Unix(x * window) < Unix(y * window)
  {}

  /** The start of a window in whole Unix seconds identifies the window exactly when windows last at
      least a second. */
  lemma WindowsHaveOwnSecondsIff(window: int)
    requires window > 0
    ensures window >= 1_000_000_000 <==> forall x: int, y: int :: Unix(x * window) == Unix(y * window) ==> x == y
  {
    if window >= SECOND {
      forall x: int, y: int | Unix(x * window) == Unix(y * window) ensures x == y {
        if x < y {
          UnixSeparates(window, x, y);
        } else if y < x {
          UnixSeparates(window, y, x);
        }
      }
    } else {
      assert Unix(0 * window) == Unix(1 * window);
    }
  }

  /** Distinct pairs of a client and a window have distinct stored keys. */
  lemma KeysSeparate(cfg: Config, key: string, x: int, key': string, x': int)
    requires cfg.window >= SECOND
    ensures WindowKey(cfg, key, x) == WindowKey(cfg, key', x') <==> key == key' && x == x'
  {
    if WindowKey(cfg, key, x) == WindowKey(cfg, key', x') {
      var u, u' := Unix(Start(cfg, x)), Unix(Start(cfg, x'));
      DecimalHasNoColon(u);
      DecimalHasNoColon(u');
      LastColonSplits(if cfg.kind.Burst? then key else "fw:" + key, Decimal(u),
                      if cfg.kind.Burst? then key' else "fw:" + key', Decimal(u'));
      assert ("fw:" + key)[3..] == key && ("fw:" + key')[3..] == key';
      DecimalInjective(u, u');
      WindowsHaveOwnSecondsIff(cfg.window);
    }
  }

  // ----- the store counts the calls of each window

  predicate InWindow(cfg: Config, calls: seq<Call>, key: string, x: int, i: nat)
    requires cfg.window > 0
  {
    i < |calls| && calls[i].key == key && Index(cfg, calls[i].at) == x
  }

  function Arrivals(cfg: Config, calls: seq<Call>, key: string, x: int): nat -> bool
    requires cfg.window > 0
  {
    (i: nat) => InWindow(cfg, calls, key, x, i)
  }

  lemma WindowEnds(cfg: Config, now: int)
    requires cfg.window > 0
    ensures Start(cfg, Index(cfg, now)) <= now < Start(cfg, Index(cfg, now)) + cfg.window
  {}

  /** The entry of a window counts its calls and does not expire before the window is over. */
  ghost predicate EntryOk(cfg: Config, calls: seq<Call>, n: nat, key: string, x: int)
    requires cfg.window > 0 && n <= |calls|
  {
    var db, k, c := After(cfg, calls, n), WindowKey(cfg, key, x), CountRange(Arrivals(cfg, calls, key, x), 0, n);
    if c == 0 then k !in db else k in db && db[k].value == c && db[k].expiry >= Start(cfg, x) + cfg.window
  }

  lemma WholeWindowExpiry(window: int, x: int)
    requires window % SECOND == 0
    ensures ExpireAt(x * window) == x * window
  {
    var seconds := window / SECOND;
    assert x * window == (x * seconds) * SECOND;
  }

  lemma ExpiresAfterWindow(cfg: Config, now: int)
    requires KeepsWindows(cfg) && cfg.kind.FixedWindow?
    ensures ExpireAt(StartOf(cfg, now) + cfg.window) == Start(cfg, Index(cfg, now)) + cfg.window
  {
    OneMore(Index(cfg, now), cfg.window);
    WholeWindowExpiry(cfg.window, Index(cfg, now) + 1);
  }

  lemma OwnWindowStep(cfg: Config, db: Db, key: string, now: int)
    requires KeepsWindows(cfg)
    requires var k := WindowKey(cfg, key, Index(cfg, now));
             k in db ==> db[k].expiry >= Start(cfg, Index(cfg, now)) + cfg.window
    ensures var k := WindowKey(cfg, key, Index(cfg, now));
            && Counted(cfg, db, key, now).value == (if k in db then db[k].value + 1 else 1)
            && Counted(cfg, db, key, now).expiry >= Start(cfg, Index(cfg, now)) + cfg.window
  {
    WindowEnds(cfg, now);
    if cfg.kind.FixedWindow? {
      hide ExpireAt;
      ExpiresAfterWindow(cfg, now);
    }
  }

  lemma OtherWindowStep(cfg: Config, db: Db, key: string, x: int, c: Call)
    requires KeepsWindows(cfg) && !(c.key == key && Index(cfg, c.at) == x)
    ensures var k := WindowKey(cfg, key, x); Stores.SlotIn(Step(cfg, db, c.key, c.at), k) == Stores.SlotIn(db, k)
  {
    KeysSeparate(cfg, key, x, c.key, Index(cfg, c.at));
  }

  lemma OwnCallCounts(cfg: Config, calls: seq<Call>, n: nat, key: string, x: int)
    requires KeepsWindows(cfg) && 0 < n <= |calls|
    ensures EntryOk(cfg, calls, n - 1, key, x) && InWindow(cfg, calls, key, x, n - 1) ==> EntryOk(cfg, calls, n, key, x)
  {
    if EntryOk(cfg, calls, n - 1, key, x) && InWindow(cfg, calls, key, x, n - 1) {
      OwnWindowStep(cfg, After(cfg, calls, n - 1), key, calls[n - 1].at);
    }
  }

  lemma OtherCallKeeps(cfg: Config, calls: seq<Call>, n: nat, key: string, x: int)
    requires KeepsWindows(cfg) && 0 < n <= |calls|
    ensures EntryOk(cfg, calls, n - 1, key, x) && !InWindow(cfg, calls, key, x, n - 1) ==>
              EntryOk(cfg, calls, n, key, x)
  {
    hide Step, WindowKey;
    if EntryOk(cfg, calls, n - 1, key, x) && !InWindow(cfg, calls, key, x, n - 1) {
      OtherWindowStep(cfg, After(cfg, calls, n - 1), key, x, calls[n - 1]);
    }
  }

  lemma NothingCountedYet(cfg: Config, calls: seq<Call>, key: string, x: int)
    requires cfg.window > 0
    ensures EntryOk(cfg, calls, 0, key, x)
  {}

  lemma {:induction false} StoreCountsWindow(cfg: Config, calls: seq<Call>, n: nat, key: string, x: int)
    requires KeepsWindows(cfg) && n <= |calls|
    ensures EntryOk(cfg, calls, n, key, x)
  {
    hide EntryOk, InWindow, Index;
    if n == 0 {
      NothingCountedYet(cfg, calls, key, x);
    } else {
      StoreCountsWindow(cfg, calls, n - 1, key, x);
      if InWindow(cfg, calls, key, x, n - 1) {
        OwnCallCounts(cfg, calls, n, key, x);
      } else {
        OtherCallKeeps(cfg, calls, n, key, x);
      }
    }
  }

  /** Call `i` is among the first `limit` of its client in its window. */
  predicate AmongFirst(cfg: Config, calls: seq<Call>, i: nat)
    requires cfg.window > 0 && i < |calls|
  {
    CountRange(Arrivals(cfg, calls, calls[i].key, Index(cfg, calls[i].at)), 0, i + 1) <= cfg.limit
  }

  /** Each window admits exactly its first `limit` calls. */
  lemma AdmittedIffAmongFirst(cfg: Config, calls: seq<Call>, i: nat)
    requires KeepsWindows(cfg) && i < |calls|
    ensures Verdict(cfg, calls, i) <==> AmongFirst(cfg, calls, i)
  {
    StoreCountsWindow(cfg, calls, i, calls[i].key, Index(cfg, calls[i].at));
    OwnWindowStep(cfg, After(cfg, calls, i), calls[i].key, calls[i].at);
  }

  function AdmittedIn(cfg: Config, calls: seq<Call>, key: string, x: int): nat -> bool
    requires cfg.window > 0
  {
    (i: nat) => InWindow(cfg, calls, key, x, i) && Verdict(cfg, calls, i)
  }

  lemma {:induction false} WindowAdmitsItsFirst(cfg: Config, calls: seq<Call>, key: string, x: int, n: nat)
    requires KeepsWindows(cfg) && n <= |calls|
    ensures CountRange(AdmittedIn(cfg, calls, key, x), 0, n)
         == Min(Max(0, cfg.limit), CountRange(Arrivals(cfg, calls, key, x), 0, n))
  {
    hide Index, Verdict;
    if n > 0 {
      WindowAdmitsItsFirst(cfg, calls, key, x, n - 1);
      AdmittedIffAmongFirst(cfg, calls, n - 1);
    }
  }

  // ----- the windows for which the verdicts are right

  ghost predicate Clock(calls: seq<Call>) {
    forall i, j :: 0 <= i <= j < |calls| ==> calls[i].at <= calls[j].at
  }

  ghost predicate NotBefore(since: int, calls: seq<Call>) {
    forall i :: 0 <= i < |calls| ==> calls[i].at >= since
  }

  ghost predicate VerdictsAreRight(cfg: Config, calls: seq<Call>)
    requires cfg.window > 0
  {
    forall i: nat :: i < |calls| ==> (Verdict(cfg, calls, i) <==> AmongFirst(cfg, calls, i))
  }

  lemma {:induction false} CountsArePositive(cfg: Config, calls: seq<Call>, n: nat)
    requires n <= |calls|
    ensures forall k :: k in After(cfg, calls, n) ==> After(cfg, calls, n)[k].value >= 1
  {
    if n > 0 {
      CountsArePositive(cfg, calls, n - 1);
    }
  }

  lemma NothingToAdmit(cfg: Config, calls: seq<Call>, i: nat)
    requires cfg.window > 0 && cfg.limit <= 0 && i < |calls|
    ensures !Verdict(cfg, calls, i) && !AmongFirst(cfg, calls, i)
  {
    CountsArePositive(cfg, calls, i);
  }

  function Repeated(at: int, n: nat): seq<Call> { seq(n, _ => Call("", at)) }

  /** The start of window `k * SECOND`, which falls on a whole second. */
  function Base(cfg: Config, k: int): int { k * SECOND * cfg.window }

  lemma FromBase(cfg: Config, k: int, d: int)
    requires cfg.window > 0
    ensures Index(cfg, Base(cfg, k) + d) == k * SECOND + d / cfg.window
    ensures StartOf(cfg, Base(cfg, k) + d) == Base(cfg, k) + d / cfg.window * cfg.window
  {
    var x := k * SECOND;
    assert (x * cfg.window + d) / cfg.window == x + d / cfg.window by { QuotientShift(d, cfg.window, x); }
    assert (x + d / cfg.window) * cfg.window == x * cfg.window + d / cfg.window * cfg.window;
  }

  lemma BaseIsWholeSecond(cfg: Config, k: int, d: int)
    ensures Unix(Base(cfg, k) + d) == k * cfg.window + Unix(d)
    ensures ExpireAt(Base(cfg, k) + d) == Base(cfg, k) + ExpireAt(d)
  {
    var seconds := k * cfg.window;
    assert Base(cfg, k) == seconds * SECOND;
  }

  lemma BaseIsLate(cfg: Config, since: int) returns (k: nat)
    requires cfg.window > 0
    ensures Base(cfg, k) >= since
  {
    k := Max(0, since);
    Scale(1, SECOND * cfg.window, k);
    assert k * (SECOND * cfg.window) == Base(cfg, k);
  }

  /** The last instant of the first window after the base, or of the second one when a window is a
      nanosecond longer than whole seconds. */
  function LastInstant(cfg: Config, k: int): int {
    Base(cfg, k) + (if cfg.window % SECOND == 1 then 2 * cfg.window - 1 else cfg.window - 1)
  }

  lemma WholeSecondBefore(end: int)
    requires end % SECOND >= 2
    ensures ExpireAt(end) < end - 1
  {}

  lemma LastInstantIsExpired(cfg: Config, k: int)
    requires cfg.window > 0 && cfg.window % SECOND != 0
    ensures ExpireAt(StartOf(cfg, LastInstant(cfg, k)) + cfg.window) < LastInstant(cfg, k)
  {
    var end := if cfg.window % SECOND == 1 then 2 * cfg.window else cfg.window;
    WholeSecondBefore(end);
    QuotientIs(end - 1, cfg.window, if cfg.window % SECOND == 1 then 1 else 0);
    assert (end - 1) / cfg.window * cfg.window + cfg.window == end;
    hide Base, StartOf, ExpireAt;
    FromBase(cfg, k, end - 1);
    BaseIsWholeSecond(cfg, k, end);
  }

  /** The key of a fixed window that does not end on a whole second expires within the window, so that
      each of these calls counts as the first. */
  lemma {:induction false} ForgottenAtOnce(cfg: Config, k: int, n: nat, i: nat)
    requires cfg.kind.FixedWindow? && cfg.window > 0 && cfg.window % SECOND != 0 && i < n
    ensures Counted(cfg, After(cfg, Repeated(LastInstant(cfg, k), n), i), "", LastInstant(cfg, k)).value == 1
  {
    hide StoreKey, ExpireAt, LastInstant;
    if i > 0 {
      ForgottenAtOnce(cfg, k, n, i - 1);
      LastInstantIsExpired(cfg, k);
    }
  }

  lemma RepeatedShareWindow(cfg: Config, at: int, n: nat)
    requires cfg.window > 0 && n > Max(0, cfg.limit)
    ensures Clock(Repeated(at, n)) && !AmongFirst(cfg, Repeated(at, n), n - 1)
  {
    hide Index;
    CountRangeAll(Arrivals(cfg, Repeated(at, n), "", Index(cfg, at)), 0, n);
  }

  lemma ShortFixedWindowFails(cfg: Config, k: int)
    requires cfg.kind.FixedWindow? && cfg.window > 0 && cfg.window % SECOND != 0 && cfg.limit >= 1
    ensures var calls := Repeated(LastInstant(cfg, k), cfg.limit + 1);
            Clock(calls) && NotBefore(Base(cfg, k), calls) && !VerdictsAreRight(cfg, calls)
  {
    assert LastInstant(cfg, k) >= Base(cfg, k);
    hide LastInstant, Base, Counted, After, AmongFirst;
    var calls, n := Repeated(LastInstant(cfg, k), cfg.limit + 1), cfg.limit;
    ForgottenAtOnce(cfg, k, n + 1, n);
    RepeatedShareWindow(cfg, LastInstant(cfg, k), n + 1);
    assert Verdict(cfg, calls, n);
  }

  /** Calls at the start of one window, and one at the start of the next. */
  function TwoStarts(cfg: Config, k: int): seq<Call>
    requires cfg.limit >= 1
  {
    Repeated(Base(cfg, k), cfg.limit) + [Call("", Base(cfg, k) + cfg.window)]
  }

  lemma StartsShareSecond(cfg: Config, k: int)
    requires 0 < cfg.window < SECOND
    ensures StartOf(cfg, Base(cfg, k)) == Base(cfg, k)
    ensures StartOf(cfg, Base(cfg, k) + cfg.window) == Base(cfg, k) + cfg.window
    ensures StoreKey(cfg, "", Base(cfg, k) + cfg.window) == StoreKey(cfg, "", Base(cfg, k))
    ensures Index(cfg, Base(cfg, k)) + 1 == Index(cfg, Base(cfg, k) + cfg.window)
  {
    assert Unix(cfg.window) == Unix(0);
    assert 0 / cfg.window == 0 && cfg.window / cfg.window == 1;
    hide Base, Index, StartOf, Unix;
    FromBase(cfg, k, 0);
    FromBase(cfg, k, cfg.window);
    BaseIsWholeSecond(cfg, k, 0);
    BaseIsWholeSecond(cfg, k, cfg.window);
  }

  lemma {:induction false} FirstStartCounts(cfg: Config, k: int, n: nat)
    requires cfg.kind.Burst? && 0 < cfg.window < SECOND && 1 <= n <= cfg.limit
    ensures After(cfg, TwoStarts(cfg, k), n)
         == map[StoreKey(cfg, "", Base(cfg, k)) := Entry(n, Base(cfg, k) + cfg.window)]
  {
    hide StoreKey, Base, StartOf, Index;
    StartsShareSecond(cfg, k);
    assert After(cfg, TwoStarts(cfg, k), n) == Step(cfg, After(cfg, TwoStarts(cfg, k), n - 1), "", Base(cfg, k));
    if n > 1 {
      FirstStartCounts(cfg, k, n - 1);
    }
  }

  lemma ShortBurstWindowFails(cfg: Config, k: int)
    requires cfg.kind.Burst? && 0 < cfg.window < SECOND && cfg.limit >= 1
    ensures var calls := TwoStarts(cfg, k);
            Clock(calls) && NotBefore(Base(cfg, k), calls) && !VerdictsAreRight(cfg, calls)
  {
    hide StoreKey, Base, StartOf, Index;
    var calls, n := TwoStarts(cfg, k), cfg.limit;
    FirstStartCounts(cfg, k, n);
    StartsShareSecond(cfg, k);
    assert !Verdict(cfg, calls, n);
    CountRangeNone(Arrivals(cfg, calls, "", Index(cfg, calls[n].at)), 0, n);
    assert AmongFirst(cfg, calls, n);
  }

  /** However late a run begins: each window admits exactly its first `limit` calls on every run, exactly
      when the store keeps the windows apart and to their end, or nothing is ever admitted. */
  lemma VerdictsAreRightIff(cfg: Config, since: int)
    requires cfg.window > 0
    ensures (if cfg.kind.Burst? then cfg.window >= 1_000_000_000 else cfg.window % 1_000_000_000 == 0)
            || cfg.limit <= 0 <==>
            forall calls :: Clock(calls) && NotBefore(since, calls) ==> VerdictsAreRight(cfg, calls)
  {
    if KeepsWindows(cfg) || cfg.limit <= 0 {
      forall calls, i: nat | i < |calls| ensures Verdict(cfg, calls, i) <==> AmongFirst(cfg, calls, i) {
        if cfg.limit <= 0 {
          NothingToAdmit(cfg, calls, i);
        } else {
          AdmittedIffAmongFirst(cfg, calls, i);
        }
      }
    } else {
      hide Base, VerdictsAreRight, TwoStarts, LastInstant;
      var k := BaseIsLate(cfg, since);
      if cfg.kind.Burst? {
        ShortBurstWindowFails(cfg, k);
        assert NotBefore(since, TwoStarts(cfg, k));
      } else {
        ShortFixedWindowFails(cfg, k);
        assert NotBefore(since, Repeated(LastInstant(cfg, k), cfg.limit + 1));
      }
    }
  }

  // ----- any stretch

  function AdmittedFor(cfg: Config, calls: seq<Call>, key: string): nat -> bool {
    (i: nat) => Verdict(cfg, calls, i) && calls[i].key == key
  }

  function WindowOf(cfg: Config, calls: seq<Call>): nat -> int
    requires cfg.window > 0
  {
    (k: nat) => if k < |calls| then Index(cfg, calls[k].at) else 0
  }

  lemma OneWindowBound(cfg: Config, calls: seq<Call>, key: string, i: nat, j: nat, x: int)
    requires KeepsWindows(cfg) && i <= j <= |calls|
    ensures CountRange(WithTag(AdmittedFor(cfg, calls, key), WindowOf(cfg, calls), x), i, j) <= Max(0, cfg.limit)
  {
    var p, q := WithTag(AdmittedFor(cfg, calls, key), WindowOf(cfg, calls), x), AdmittedIn(cfg, calls, key, x);
    CountRangeImplies(p, q, i, j);
    CountRangeSplit(q, 0, i, j);
    WindowAdmitsItsFirst(cfg, calls, key, x, j);
  }

  /** The windows of the calls `i..j` lie between those of the first and the last. */
  lemma WindowsInOrder(cfg: Config, calls: seq<Call>, i: nat, k: nat, j: nat)
    requires cfg.window > 0 && Clock(calls) && i <= k < j <= |calls|
    ensures Index(cfg, calls[i].at) <= WindowOf(cfg, calls)(k) <= Index(cfg, calls[j - 1].at)
  {
    QuotientMonotone(calls[i].at, calls[k].at, cfg.window);
    QuotientMonotone(calls[k].at, calls[j - 1].at, cfg.window);
  }

  lemma StretchByWindows(cfg: Config, calls: seq<Call>, key: string, i: nat, j: nat, d: nat)
    requires KeepsWindows(cfg) && Clock(calls) && i < j <= |calls|
    requires d == Index(cfg, calls[j - 1].at) - Index(cfg, calls[i].at) + 1
    ensures CountRange(AdmittedFor(cfg, calls, key), i, j) <= Times(d, Max(0, cfg.limit))
  {
    hide Index, Verdict;
    var p, window, first := AdmittedFor(cfg, calls, key), WindowOf(cfg, calls), Index(cfg, calls[i].at);
    forall k: nat | i <= k < j ensures first <= window(k) < first + d { WindowsInOrder(cfg, calls, i, k, j); }
    forall x: int ensures CountRange(WithTag(p, window, x), i, j) <= Max(0, cfg.limit) {
      OneWindowBound(cfg, calls, key, i, j, x);
    }
    Pigeonhole(p, window, i, j, first, d, Max(0, cfg.limit));
    CountRangeImplies(p, BelowTag(p, window, first + d), i, j);
  }

  lemma SpanWindows(cfg: Config, a: int, b: int, n: nat) returns (d: nat)
    requires cfg.window > 0 && a <= b
    ensures d == Index(cfg, b) - Index(cfg, a) + 1
    ensures Times(d, n) <= ((b - a) / cfg.window + 2) * n
  {
    QuotientMonotone(a, b, cfg.window);
    QuotientSpan(a, b, cfg.window);
    d := b / cfg.window - a / cfg.window + 1;
    TimesIsProduct(d, n);
    Scale(d, (b - a) / cfg.window + 2, n);
  }

  /** Any stretch of calls spanning `D` admits at most `D / window + 2` windows' worth per client. */
  lemma StretchBound(cfg: Config, calls: seq<Call>, key: string, i: nat, j: nat)
    requires KeepsWindows(cfg) && Clock(calls) && i < j <= |calls|
    ensures CountRange(AdmittedFor(cfg, calls, key), i, j)
         <= ((calls[j - 1].at - calls[i].at) / cfg.window + 2) * Max(0, cfg.limit)
  {
    hide Index, AdmittedFor, Times, CountRange;
    var d := SpanWindows(cfg, calls[i].at, calls[j - 1].at, Max(0, cfg.limit));
    StretchByWindows(cfg, calls, key, i, j, d);
  }

  /** Full windows from the end of one to the start of a later one. */
  function EdgeAt(cfg: Config, x: nat): int { if x == 0 then cfg.window - 1 else x * cfg.window }

  function Edges(cfg: Config, m: nat): seq<Call>
    requires cfg.limit >= 1
  {
    seq((m + 2) * cfg.limit, k requires k >= 0 => Call("", EdgeAt(cfg, k / cfg.limit)))
  }

  lemma EdgeWindow(cfg: Config, x: nat)
    requires cfg.window > 0
    ensures Index(cfg, EdgeAt(cfg, x)) == x
  {
    QuotientIs(EdgeAt(cfg, x), cfg.window, x);
  }

  lemma EdgeOrder(cfg: Config, x: nat, y: nat)
    requires cfg.window > 0 && x <= y
    ensures EdgeAt(cfg, x) <= EdgeAt(cfg, y)
  {
    Scale(x, y, cfg.window);
    if 0 < y {
      Scale(1, y, cfg.window);
    }
  }

  lemma EdgesAreOrdered(cfg: Config, m: nat)
    requires cfg.window > 0 && cfg.limit >= 1
    ensures Clock(Edges(cfg, m))
  {
    hide EdgeAt;
    var calls := Edges(cfg, m);
    forall i, j | 0 <= i <= j < |calls| ensures calls[i].at <= calls[j].at {
      QuotientMonotone(i, j, cfg.limit);
      EdgeOrder(cfg, i / cfg.limit, j / cfg.limit);
    }
  }

  lemma EarlierEdge(cfg: Config, m: nat, x: nat, j: nat)
    requires cfg.window > 0 && cfg.limit >= 1 && j < x * cfg.limit
    ensures !InWindow(cfg, Edges(cfg, m), "", x, j)
  {
    hide Index, EdgeAt;
    EdgeWindow(cfg, j / cfg.limit);
    QuotientBelow(j, cfg.limit, x);
  }

  lemma EdgeArrivals(cfg: Config, m: nat, x: nat, n: nat)
    requires cfg.window > 0 && cfg.limit >= 1 && x * cfg.limit <= n <= x * cfg.limit + cfg.limit
    ensures CountRange(Arrivals(cfg, Edges(cfg, m), "", x), 0, n) <= cfg.limit
  {
    hide InWindow, Edges;
    var p, first := Arrivals(cfg, Edges(cfg, m), "", x), x * cfg.limit;
    forall j: nat | j < first ensures !p(j) { EarlierEdge(cfg, m, x, j); }
    CountRangeNone(p, 0, first);
    CountRangeSplit(p, 0, first, n);
  }

  lemma EdgeIsAdmitted(cfg: Config, m: nat, k: nat)
    requires KeepsWindows(cfg) && cfg.limit >= 1 && k < (m + 2) * cfg.limit
    ensures Verdict(cfg, Edges(cfg, m), k)
  {
    hide Index, EdgeAt, Verdict, Arrivals;
    EdgeWindow(cfg, k / cfg.limit);
    QuotientEnds(k, cfg.limit);
    EdgeArrivals(cfg, m, k / cfg.limit, k + 1);
    AdmittedIffAmongFirst(cfg, Edges(cfg, m), k);
  }

  /** The bound is attained for every limit and every number of whole windows in the span. */
  lemma StretchBoundIsTight(cfg: Config, m: nat)
    requires KeepsWindows(cfg) && cfg.limit >= 1
    ensures var calls, n := Edges(cfg, m), (m + 2) * cfg.limit;
            && Clock(calls) && |calls| == n > 0
            && (calls[n - 1].at - calls[0].at) / cfg.window == m
            && CountRange(AdmittedFor(cfg, calls, ""), 0, n) == (m + 2) * cfg.limit
  {
    hide Verdict;
    var calls, n := Edges(cfg, m), (m + 2) * cfg.limit;
    EdgesAreOrdered(cfg, m);
    Scale(1, m + 2, cfg.limit);
    forall k: nat | 0 <= k < n ensures AdmittedFor(cfg, calls, "")(k) { EdgeIsAdmitted(cfg, m, k); }
    CountRangeAll(AdmittedFor(cfg, calls, ""), 0, n);
    OneMore(m + 1, cfg.limit);
    QuotientIs(n - 1, cfg.limit, m + 1);
    QuotientIs(0, cfg.limit, 0);
    OneMore(m, cfg.window);
    QuotientIs(calls[n - 1].at - calls[0].at, cfg.window, m);
  }

  // ----- the counters

  class FixedWindowCounter {
    const cfg: Config
    var db: Db

    constructor (window: int, max: int)
      ensures cfg == Config(FixedWindow, window, max) && db == map[]
    {
      cfg, db := Config(FixedWindow, window, max), map[];
    }

    method Allow(key: string, now: int) returns (ok: bool, remaining: int, resetAt: int)
      requires cfg.kind.FixedWindow?
      modifies this`db
      ensures db == Step(cfg, old(db), key, now)
      ensures ok == (Counted(cfg, old(db), key, now).value <= cfg.limit)
      ensures remaining == Max(0, cfg.limit - Counted(cfg, old(db), key, now).value)
      ensures cfg.window > 0 ==> resetAt - cfg.window <= now < resetAt == Start(cfg, Index(cfg, now) + 1)
    {
      var windowStart := if cfg.window <= 0 then now else now / cfg.window * cfg.window;
      resetAt := windowStart + cfg.window;
      if cfg.window > 0 {
        WindowEnds(cfg, now);
        assert resetAt == (now / cfg.window + 1) * cfg.window;
      }
      var redisKey := "fw:" + key + ":" + Decimal(Unix(windowStart));
      var count := if Live(db, redisKey, now) then db[redisKey].value + 1 else 1;
      db := db[redisKey := Entry(count, ExpireAt(resetAt))];
      remaining := cfg.limit - count;
      if remaining < 0 {
        remaining := 0;
      }
      ok := count <= cfg.limit;
    }
  }

  class BurstCounter {
    const cfg: Config
    const store: Stores.MemoryStore

    constructor (store: Stores.MemoryStore, limit: int, burst: int, window: int)
      ensures cfg == Config(Burst, window, limit + burst) && this.store == store
    {
      cfg, this.store := Config(Burst, window, limit + burst), store;
    }

    method Allow(key: string, now: int) returns (ok: bool, remaining: int)
      requires cfg.kind.Burst?
      modifies store
      ensures store.data == Step(cfg, old(store.data), key, now)
      ensures ok == (Counted(cfg, old(store.data), key, now).value <= cfg.limit)
      ensures remaining == Max(0, cfg.limit - Counted(cfg, old(store.data), key, now).value)
    {
      var windowStart := if cfg.window <= 0 then now else now / cfg.window * cfg.window;
      var windowKey := key + ":" + Decimal(Unix(windowStart));
      var count := store.Increment(windowKey, cfg.window, now);
      remaining := cfg.limit - count;
      if remaining < 0 {
        remaining := 0;
      }
      ok := !(count > cfg.limit);
    }
  }
}

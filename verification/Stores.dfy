/** The stores: `MemoryStore` with its lazy expiry, and `RedisStore.Increment` for comparison. */
module Stores {
  import opened Counting
  import opened TimedStore

  // ----- MemoryStore: one atomic operation at a clock reading

  datatype Op =
    | OpIncrement(key: string, window: int)
    | OpGet(key: string)
    | OpSet(key: string, value: int, ttl: int)
    | OpSetNX(key: string, value: int, ttl: int)
    | OpTtl(key: string)
    | OpDelete(key: string)

  datatype Reply = Number(n: int) | Flag(b: bool) | Done

  /** `get`: an absent or expired entry is deleted and not found. */
  function Touch(db: Db, key: string, now: int): Db { if Live(db, key, now) then db else db - {key} }

  datatype Slot = Free | Held(entry: Entry)

  function SlotIn(db: Db, key: string): Slot { if key in db then Held(db[key]) else Free }

  /** The expiry is set when the entry is created and kept from then on. */
  function MemoryIncrement(s: Slot, window: int, now: int): Entry {
    if s.Held? && !Expired(s.entry, now) then Entry(s.entry.value + 1, s.entry.expiry) else Entry(1, now + window)
  }

  function NewDb(db: Db, op: Op, now: int): Db {
    match op
    case OpIncrement(key, window) => db[key := MemoryIncrement(SlotIn(db, key), window, now)]
    case OpGet(key) => Touch(db, key, now)
    case OpSet(key, value, ttl) => db[key := Entry(value, now + ttl)]
    case OpSetNX(key, value, ttl) => if Live(db, key, now) then db else db[key := Entry(value, now + ttl)]
    case OpTtl(key) => Touch(db, key, now)
    case OpDelete(key) => db - {key}
  }

  function ReplyOf(db: Db, op: Op, now: int): Reply {
    match op
    case OpIncrement(key, window) => Number(MemoryIncrement(SlotIn(db, key), window, now).value)
    case OpGet(key) => Number(if Live(db, key, now) then db[key].value else 0)
    case OpSet(_, _, _) => Done
    case OpSetNX(key, _, _) => Flag(!Live(db, key, now))
    case OpTtl(key) => Number(if Live(db, key, now) then db[key].expiry - now else -1)
    case OpDelete(_) => Done
  }

  /** An operation and the clock reading it is made at. */
  datatype Call = Call(op: Op, at: int)

  ghost predicate Clock(calls: seq<Call>) {
    forall i, j :: 0 <= i <= j < |calls| ==> calls[i].at <= calls[j].at
  }

  function After(calls: seq<Call>, n: nat): Db
    requires n <= |calls|
  {
    if n == 0 then map[] else NewDb(After(calls, n - 1), calls[n - 1].op, calls[n - 1].at)
  }

  // ----- the reference: a store that drops every entry the moment it expires

  function Alive(db: Db, now: int): Db { map key | key in db && !Expired(db[key], now) :: db[key] }

  function EagerDb(db: Db, op: Op, now: int): Db { Alive(NewDb(Alive(db, now), op, now), now) }

  function EagerAfter(calls: seq<Call>, n: nat): Db
    requires n <= |calls|
  {
    if n == 0 then map[] else EagerDb(EagerAfter(calls, n - 1), calls[n - 1].op, calls[n - 1].at)
  }

  lemma AliveTwice(db: Db, now: int, later: int)
    requires now <= later
    ensures Alive(Alive(db, now), later) == Alive(db, later)
  {}

  lemma SameAlive(db: Db, op: Op, now: int)
    ensures Alive(NewDb(db, op, now), now) == Alive(NewDb(Alive(db, now), op, now), now)
    ensures ReplyOf(db, op, now) == ReplyOf(Alive(db, now), op, now)
  {
    assert Live(Alive(db, now), op.key, now) == Live(db, op.key, now);
  }

  lemma {:induction false} LazyTracksEager(calls: seq<Call>, n: nat, now: int)
    requires Clock(calls) && n <= |calls| && (n > 0 ==> calls[n - 1].at <= now)
    ensures Alive(After(calls, n), now) == Alive(EagerAfter(calls, n), now)
  {
    hide NewDb, Alive;
    if n > 0 {
      var c := calls[n - 1];
      var lazy, eager := After(calls, n - 1), EagerAfter(calls, n - 1);
      LazyTracksEager(calls, n - 1, c.at);
      SameAlive(lazy, c.op, c.at);
      SameAlive(eager, c.op, c.at);
      AliveTwice(After(calls, n), c.at, now);
      AliveTwice(EagerAfter(calls, n), c.at, now);
      AliveTwice(NewDb(Alive(eager, c.at), c.op, c.at), c.at, c.at);
    }
  }

  /** Lazy deletion cannot be observed: over every run of operations, every reply is the one a store
      that drops entries the moment they expire would give. */
  lemma LazyExpiryIsUnobservable(calls: seq<Call>, n: nat)
    requires Clock(calls) && n < |calls|
    ensures ReplyOf(After(calls, n), calls[n].op, calls[n].at)
         == ReplyOf(EagerAfter(calls, n), calls[n].op, calls[n].at)
  {
    var c := calls[n];
    LazyTracksEager(calls, n, c.at);
    SameAlive(After(calls, n), c.op, c.at);
    SameAlive(EagerAfter(calls, n), c.op, c.at);
  }

  /** Looking a key up leaves it stored exactly when it is live. */
  lemma ReadsDropExpired(calls: seq<Call>, i: nat)
    requires i < |calls| && (calls[i].op.OpGet? || calls[i].op.OpTtl?)
    ensures var db, op, now := After(calls, i), calls[i].op, calls[i].at;
            op.key in After(calls, i + 1) <==> op.key in db && now <= db[op.key].expiry
  {}

  // ----- what was set is read back

  /** Call `i` sets its key: unconditionally, or because nothing live was there. */
  ghost predicate Sets(calls: seq<Call>, i: nat)
    requires i < |calls|
  {
    calls[i].op.OpSet? || (calls[i].op.OpSetNX? && !Live(After(calls, i), calls[i].op.key, calls[i].at))
  }

  /** Between calls `i` and `n`, operations on the key only read it, or fail to set it. */
  ghost predicate OnlyRead(calls: seq<Call>, key: string, i: nat, n: nat)
    requires n <= |calls|
  {
    forall j :: i < j < n && calls[j].op.key == key ==>
      calls[j].op.OpGet? || calls[j].op.OpTtl? || (calls[j].op.OpSetNX? && !Sets(calls, j))
  }

  lemma {:induction false} SetEntryStays(calls: seq<Call>, i: nat, n: nat, now: int)
    requires Clock(calls) && i < n <= |calls| && Sets(calls, i) && OnlyRead(calls, calls[i].op.key, i, n)
    requires calls[n - 1].at <= now
    ensures var op := calls[i].op;
            var slot := SlotIn(After(calls, n), op.key);
            slot == Held(Entry(op.value, calls[i].at + op.ttl)) || (slot.Free? && now > calls[i].at + op.ttl)
    decreases n
  {
    if i < n - 1 {
      SetEntryStays(calls, i, n - 1, calls[n - 1].at);
    }
  }

  /** A value set with a time to live is read back until that time has passed and not after, its
      remaining time is reported, and only then can the key be set anew or counted from one. */
  lemma SetIsReadBack(calls: seq<Call>, i: nat, n: nat)
    requires Clock(calls) && i < n < |calls| && Sets(calls, i) && OnlyRead(calls, calls[i].op.key, i, n)
    requires calls[n].op.key == calls[i].op.key
    ensures var op, left := calls[i].op, calls[i].at + calls[i].op.ttl - calls[n].at;
            var reply := ReplyOf(After(calls, n), calls[n].op, calls[n].at);
            && (calls[n].op.OpGet? ==> reply == Number(if left >= 0 then op.value else 0))
            && (calls[n].op.OpTtl? ==> reply == Number(if left >= 0 then left else -1))
            && (calls[n].op.OpSetNX? ==> reply == Flag(left < 0))
            && (calls[n].op.OpIncrement? ==> reply == Number(if left >= 0 then op.value + 1 else 1))
  {
    SetEntryStays(calls, i, n, calls[n].at);
  }

  /** The entry that increment `i` leaves: a live one keeps its expiry. */
  ghost predicate Leaves(calls: seq<Call>, i: nat, value: int, expiry: int)
    requires i < |calls| && calls[i].op.OpIncrement?
  {
    var db, op, now := After(calls, i), calls[i].op, calls[i].at;
    && ReplyOf(db, op, now) == Number(value)
    && expiry == if Live(db, op.key, now) then db[op.key].expiry else now + op.window
  }

  lemma {:induction false} CountStays(calls: seq<Call>, i: nat, n: nat, now: int, value: int, expiry: int)
    requires Clock(calls) && i < n <= |calls| && calls[i].op.OpIncrement? && Leaves(calls, i, value, expiry)
    requires OnlyRead(calls, calls[i].op.key, i, n) && calls[n - 1].at <= now
    ensures var slot := SlotIn(After(calls, n), calls[i].op.key);
            slot == Held(Entry(value, expiry)) || (slot.Free? && now > expiry)
    decreases n
  {
    if i < n - 1 {
      CountStays(calls, i, n - 1, calls[n - 1].at, value, expiry);
    }
  }

  /** A count is read back, and counted on from, until the entry expires. */
  lemma CountIsReadBack(calls: seq<Call>, i: nat, n: nat, value: int, expiry: int)
    requires Clock(calls) && i < n < |calls| && calls[i].op.OpIncrement? && Leaves(calls, i, value, expiry)
    requires OnlyRead(calls, calls[i].op.key, i, n) && calls[n].op.key == calls[i].op.key
    ensures var left, reply := expiry - calls[n].at, ReplyOf(After(calls, n), calls[n].op, calls[n].at);
            && (calls[n].op.OpGet? ==> reply == Number(if left >= 0 then value else 0))
            && (calls[n].op.OpTtl? ==> reply == Number(if left >= 0 then left else -1))
            && (calls[n].op.OpSetNX? ==> reply == Flag(left < 0))
            && (calls[n].op.OpIncrement? ==> reply == Number(if left >= 0 then value + 1 else 1))
  {
    CountStays(calls, i, n, calls[n].at, value, expiry);
  }

  lemma {:induction false} DeletedStaysFree(calls: seq<Call>, i: nat, n: nat)
    requires i < n <= |calls| && calls[i].op.OpDelete? && OnlyRead(calls, calls[i].op.key, i, n)
    ensures SlotIn(After(calls, n), calls[i].op.key).Free?
    decreases n
  {
    if i < n - 1 {
      DeletedStaysFree(calls, i, n - 1);
    }
  }

  /** After a delete the key reads as absent until something is written to it. */
  lemma DeleteIsReadBack(calls: seq<Call>, i: nat, n: nat)
    requires i < n < |calls| && calls[i].op.OpDelete? && OnlyRead(calls, calls[i].op.key, i, n)
    requires calls[n].op.key == calls[i].op.key
    ensures var reply := ReplyOf(After(calls, n), calls[n].op, calls[n].at);
            && (calls[n].op.OpGet? ==> reply == Number(0))
            && (calls[n].op.OpTtl? ==> reply == Number(-1))
            && (calls[n].op.OpSetNX? ==> reply == Flag(true))
            && (calls[n].op.OpIncrement? ==> reply == Number(1))
  {
    DeletedStaysFree(calls, i, n);
  }

  // ----- increments of one key with one window: memory against Redis

  const SECOND: int := 1_000_000_000

  /** `Expire` sends whole seconds, and one second for anything shorter. */
  function RedisTtl(window: int): (ttl: int)
    ensures 0 < window < 1_000_000_000 ==> ttl == 1_000_000_000
    ensures 1_000_000_000 <= window ==> ttl <= window < ttl + 1_000_000_000
    ensures window <= 0 ==> ttl <= window
    ensures ttl % 1_000_000_000 == 0
  {
    if 0 < window < SECOND then SECOND else window / SECOND * SECOND
  }

  /** INCR and then EXPIRE, on every call. */
  function RedisIncrement(s: Slot, window: int, now: int): Entry {
    Entry(if s.Held? && !Expired(s.entry, now) then s.entry.value + 1 else 1, now + RedisTtl(window))
  }

  function MemoryAt(times: seq<int>, window: int, i: nat): Entry
    requires i < |times|
  {
    MemoryIncrement(if i == 0 then Free else Held(MemoryAt(times, window, i - 1)), window, times[i])
  }

  function RedisAt(times: seq<int>, window: int, i: nat): Entry
    requires i < |times|
  {
    RedisIncrement(if i == 0 then Free else Held(RedisAt(times, window, i - 1)), window, times[i])
  }

  /** The first call of the epoch of call `i`: an epoch ends once `window` has passed since its start. */
  function EpochStart(times: seq<int>, window: int, i: nat): (s: nat)
    requires i < |times|
    ensures s <= i
  {
    if i == 0 then 0
    else
      var s := EpochStart(times, window, i - 1);
      if times[i] - times[s] > window then i else s
  }

  /** The first call of the unbroken series of call `i`: a series ends with a pause longer than `ttl`. */
  function SeriesStart(times: seq<int>, ttl: int, i: nat): (s: nat)
    requires i < |times|
    ensures s <= i
  {
    if i == 0 || times[i] - times[i - 1] > ttl then i else SeriesStart(times, ttl, i - 1)
  }

  /** Memory counts the calls since the start of the epoch. */
  lemma {:induction false} MemoryCountsEpoch(times: seq<int>, window: int, i: nat)
    requires i < |times|
    ensures MemoryAt(times, window, i) ==
            Entry(i - EpochStart(times, window, i) + 1, times[EpochStart(times, window, i)] + window)
  {
    if i > 0 {
      MemoryCountsEpoch(times, window, i - 1);
    }
  }

  /** Redis counts the calls since the last pause longer than its time to live. */
  lemma {:induction false} RedisCountsSeries(times: seq<int>, window: int, i: nat)
    requires i < |times|
    ensures var ttl := RedisTtl(window);
            RedisAt(times, window, i) == Entry(i - SeriesStart(times, ttl, i) + 1, times[i] + ttl)
  {
    hide RedisTtl;
    if i > 0 {
      RedisCountsSeries(times, window, i - 1);
    }
  }

  lemma {:induction false} SeriesContainsEpoch(times: seq<int>, ttl: int, window: int, i: nat)
    requires Nondecreasing(times) && i < |times| && window <= ttl
    ensures SeriesStart(times, ttl, i) <= EpochStart(times, window, i)
  {
    if i > 0 {
      SeriesContainsEpoch(times, ttl, window, i - 1);
    }
  }

  /** The client does not shorten the window. */
  predicate KeepsWindow(window: int) { window < SECOND || window % SECOND == 0 }

  lemma KeptWindowLasts(window: int)
    requires window > 0
    ensures KeepsWindow(window) <==> window <= RedisTtl(window)
  {}

  ghost predicate NeverLaxer(times: seq<int>, window: int) {
    forall i: nat :: i < |times| ==> RedisAt(times, window, i).value >= MemoryAt(times, window, i).value
  }

  /** On the same timed increments the Redis count is never below the memory count. */
  lemma RedisIsNeverLaxer(times: seq<int>, window: int, i: nat)
    requires Nondecreasing(times) && window <= RedisTtl(window) && i < |times|
    ensures RedisAt(times, window, i).value >= MemoryAt(times, window, i).value
  {
    MemoryCountsEpoch(times, window, i);
    RedisCountsSeries(times, window, i);
    SeriesContainsEpoch(times, RedisTtl(window), window, i);
  }

  /** That is so on every run exactly for the windows that the client does not shorten. */
  lemma RedisIsNeverLaxerIff(window: int)
    requires window > 0
    ensures KeepsWindow(window) <==> forall times :: Nondecreasing(times) ==> NeverLaxer(times, window)
  {
    KeptWindowLasts(window);
    hide RedisTtl, KeepsWindow;
    if KeepsWindow(window) {
      forall times, i: nat | Nondecreasing(times) && i < |times|
        ensures RedisAt(times, window, i).value >= MemoryAt(times, window, i).value
      {
        RedisIsNeverLaxer(times, window, i);
      }
    } else {
      var times := [0, window];
      assert MemoryAt(times, window, 0) == Entry(1, window) && MemoryAt(times, window, 1).value == 2;
      assert RedisAt(times, window, 0) == Entry(1, RedisTtl(window)) && RedisAt(times, window, 1).value == 1;
      assert Nondecreasing(times) && !NeverLaxer(times, window);
    }
  }

  /** The two stores return the same count on a call exactly when its epoch began with its series. Unless
      the client shortens the window, that is when the call comes within a window of the beginning of the
      series: a later one is counted higher by Redis. */
  lemma StoresAgreeIff(times: seq<int>, window: int, i: nat)
    requires Nondecreasing(times) && i < |times|
    ensures var agree := RedisAt(times, window, i).value == MemoryAt(times, window, i).value;
            var series := SeriesStart(times, RedisTtl(window), i);
            && (agree <==> series == EpochStart(times, window, i))
            && (window <= RedisTtl(window) ==> (agree <==> times[i] - times[series] <= window || series == i))
  {
    MemoryCountsEpoch(times, window, i);
    RedisCountsSeries(times, window, i);
    if window <= RedisTtl(window) {
      EpochOfShortSeries(times, RedisTtl(window), window, i);
    }
  }

  lemma {:induction false} EpochOfShortSeries(times: seq<int>, ttl: int, window: int, i: nat)
    requires Nondecreasing(times) && i < |times| && window <= ttl
    ensures EpochStart(times, window, i) == SeriesStart(times, ttl, i)
       <==> times[i] - times[SeriesStart(times, ttl, i)] <= window || SeriesStart(times, ttl, i) == i
  {
    if i > 0 {
      EpochOfShortSeries(times, ttl, window, i - 1);
      SeriesContainsEpoch(times, ttl, window, i - 1);
      SeriesContainsEpoch(times, ttl, window, i);
    }
  }

  /** Within an epoch memory returns 1, 2, 3, ... */
  lemma EpochCountsUp(times: seq<int>, window: int, i: nat)
    requires i + 1 < |times|
    ensures MemoryAt(times, window, i + 1).value == MemoryAt(times, window, i).value + 1
            || MemoryAt(times, window, i + 1).value == 1
    ensures MemoryAt(times, window, 0).value == 1
    ensures MemoryAt(times, window, i + 1).value == 1 <==> times[i + 1] - times[EpochStart(times, window, i)] > window
  {
    MemoryCountsEpoch(times, window, i);
    MemoryCountsEpoch(times, window, i + 1);
  }

  lemma {:induction false} EpochCoversOneWindow(times: seq<int>, window: int, i: nat, j: nat)
    requires Nondecreasing(times) && i < j < |times| && EpochStart(times, window, j) == j
    ensures times[j] - times[EpochStart(times, window, i)] > window
    decreases j
  {
    if i < j - 1 {
      assert times[EpochStart(times, window, j - 1)] <= times[j];
      EpochsMoveOn(times, window, i, j - 1);
    }
  }

  lemma {:induction false} EpochsMoveOn(times: seq<int>, window: int, i: nat, j: nat)
    requires i <= j < |times|
    ensures EpochStart(times, window, i) <= EpochStart(times, window, j)
    decreases j
  {
    if i < j {
      EpochsMoveOn(times, window, i, j - 1);
    }
  }

  /** Two epochs of a key start more than a window apart. */
  lemma EpochsAreApart(times: seq<int>, window: int, i: nat, j: nat)
    requires Nondecreasing(times) && i < j < |times|
    requires MemoryAt(times, window, i).value == 1 && MemoryAt(times, window, j).value == 1
    ensures times[j] - times[i] > window
  {
    MemoryCountsEpoch(times, window, i);
    MemoryCountsEpoch(times, window, j);
    EpochCoversOneWindow(times, window, i, j);
  }

  // ----- the store objects

  class MemoryStore {
    var data: Db

    constructor ()
      ensures data == map[]
    {
      data := map[];
    }

    method Find(key: string, now: int) returns (found: bool)
      modifies this
      ensures found == old(Live(data, key, now)) && data == Touch(old(data), key, now)
    {
      found := key in data && !Expired(data[key], now);
      if !found {
        data := data - {key};
      }
    }

    method Increment(key: string, window: int, now: int) returns (count: int)
      modifies this
      ensures data == NewDb(old(data), OpIncrement(key, window), now)
      ensures Number(count) == ReplyOf(old(data), OpIncrement(key, window), now)
    {
      var found := Find(key, now);
      var e := if found then data[key] else Entry(0, now + window);
      e := e.(value := e.value + 1);
      data := data[key := e];
      count := e.value;
    }

    method Get(key: string, now: int) returns (value: int)
      modifies this
      ensures data == NewDb(old(data), OpGet(key), now)
      ensures Number(value) == ReplyOf(old(data), OpGet(key), now)
    {
      var found := Find(key, now);
      value := if found then data[key].value else 0;
    }

    method Set(key: string, value: int, ttl: int, now: int)
      modifies this
      ensures data == NewDb(old(data), OpSet(key, value, ttl), now)
    {
      data := data[key := Entry(value, now + ttl)];
    }

    method SetNX(key: string, value: int, ttl: int, now: int) returns (stored: bool)
      modifies this
      ensures data == NewDb(old(data), OpSetNX(key, value, ttl), now)
      ensures Flag(stored) == ReplyOf(old(data), OpSetNX(key, value, ttl), now)
    {
      var found := Find(key, now);
      if found {
        return false;
      }
      data := data[key := Entry(value, now + ttl)];
      return true;
    }

    method TTL(key: string, now: int) returns (left: int)
      modifies this
      ensures data == NewDb(old(data), OpTtl(key), now)
      ensures Number(left) == ReplyOf(old(data), OpTtl(key), now)
    {
      var found := Find(key, now);
      left := if found then data[key].expiry - now else -1;
    }

    method Delete(key: string)
      modifies this
      ensures forall now :: data == NewDb(old(data), OpDelete(key), now)
    {
      data := data - {key};
    }
  }

  class RedisStore {
    var data: Db

    constructor ()
      ensures data == map[]
    {
      data := map[];
    }

    method Increment(key: string, window: int, now: int) returns (count: int)
      modifies this
      ensures data == old(data)[key := RedisIncrement(SlotIn(old(data), key), window, now)]
      ensures count == data[key].value
    {
      var value := if Live(data, key, now) then data[key].value else 0;
      count := value + 1;
      data := data[key := Entry(count, now + RedisTtl(window))];
    }
  }
}

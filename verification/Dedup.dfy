/** The duplicate filter: fingerprints with expiry times, and a background sweep that evicts them. */
module Dedup {

  /** A request reads the clock to look its fingerprint up and again to record it. A sweep reads the
      clock before it takes the lock, so its reading may be older than earlier requests'. */
  datatype Event = Request(fp: string, seen: int, stamp: int) | Sweep(at: int)

  type Entries = map<string, int>

  predicate IsDup(entries: Entries, fp: string, seen: int) { fp in entries && seen < entries[fp] }

  function Swept(entries: Entries, at: int): Entries {
    map fp | fp in entries && !(at > entries[fp]) :: entries[fp]
  }

  function Apply(ttl: int, entries: Entries, e: Event): Entries {
    match e
    case Request(fp, seen, stamp) => if IsDup(entries, fp, seen) then entries else entries[fp := stamp + ttl]
    case Sweep(at) => Swept(entries, at)
  }

  function After(ttl: int, events: seq<Event>, n: nat): Entries
    requires n <= |events|
  {
    if n == 0 then map[] else Apply(ttl, After(ttl, events, n - 1), events[n - 1])
  }

  /** The answer to request `i`. */
  predicate Answer(ttl: int, events: seq<Event>, i: nat)
    requires i < |events| && events[i].Request?
  {
    IsDup(After(ttl, events, i), events[i].fp, events[i].seen)
  }

  /** Readings of requests follow one another, and a request after a sweep reads no earlier than it. */
  ghost predicate Clock(events: seq<Event>) {
    && (forall i :: 0 <= i < |events| && events[i].Request? ==> events[i].seen <= events[i].stamp)
    && (forall i, j :: 0 <= i < j < |events| && events[j].Request? ==> Reading(events[i]) <= events[j].seen)
  }

  function Reading(e: Event): int { if e.Request? then e.stamp else e.at }

  // ----- the reference: a store that never evicts

  function KeptAfter(ttl: int, events: seq<Event>, n: nat): Entries
    requires n <= |events|
  {
    if n == 0 then map[]
    else if events[n - 1].Sweep? then KeptAfter(ttl, events, n - 1)
    else Apply(ttl, KeptAfter(ttl, events, n - 1), events[n - 1])
  }

  predicate KeptAnswer(ttl: int, events: seq<Event>, i: nat)
    requires i < |events| && events[i].Request?
  {
    IsDup(KeptAfter(ttl, events, i), events[i].fp, events[i].seen)
  }

  /** Nothing from event `n` on can still find an entry that expires at `expiry`. */
  ghost predicate Stale(events: seq<Event>, n: nat, expiry: int) {
    forall j :: n <= j < |events| && events[j].Request? ==> events[j].seen >= expiry
  }

  /** The evicting store lacks only stale entries. */
  ghost predicate Tracks(events: seq<Event>, n: nat, entries: Entries, kept: Entries) {
    && (forall fp :: fp in entries ==> fp in kept && kept[fp] == entries[fp])
    && (forall fp :: fp in kept && fp !in entries ==> Stale(events, n, kept[fp]))
  }

  lemma {:induction false} EvictingTracksKeeping(ttl: int, events: seq<Event>, n: nat)
    requires Clock(events) && n <= |events|
    ensures Tracks(events, n, After(ttl, events, n), KeptAfter(ttl, events, n))
  {
    if n > 0 {
      EvictingTracksKeeping(ttl, events, n - 1);
    }
  }

  /** The sweep cannot be observed: in every interleaving of sweeps and requests, every answer is that
      of a store that never evicts. */
  lemma SweepIsUnobservable(ttl: int, events: seq<Event>, i: nat)
    requires Clock(events) && i < |events| && events[i].Request?
    ensures Answer(ttl, events, i) == KeptAnswer(ttl, events, i)
  {
    EvictingTracksKeeping(ttl, events, i);
  }

  // ----- the answers in terms of the history

  /** Request `j` was accepted, and its fingerprint is `fp`. */
  predicate Accepted(ttl: int, events: seq<Event>, j: nat, fp: string) {
    j < |events| && events[j].Request? && events[j].fp == fp && !Answer(ttl, events, j)
  }

  /** What a fingerprint's entry says: the latest expiry of the accepted requests with it. */
  lemma {:induction false} EntryIsLatestAccepted(ttl: int, events: seq<Event>, n: nat, fp: string)
    requires Clock(events) && n <= |events|
    ensures var kept := KeptAfter(ttl, events, n);
            && (fp in kept ==>
                  exists j :: 0 <= j < n && Accepted(ttl, events, j, fp) && kept[fp] == events[j].stamp + ttl)
            && (forall j :: 0 <= j < n && Accepted(ttl, events, j, fp) ==>
                  fp in kept && kept[fp] >= events[j].stamp + ttl)
  {
    if n > 0 {
      EntryIsLatestAccepted(ttl, events, n - 1, fp);
      var e := events[n - 1];
      if e.Request? {
        SweepIsUnobservable(ttl, events, n - 1);
        if e.fp == fp && !KeptAnswer(ttl, events, n - 1) {
          assert Accepted(ttl, events, n - 1, fp);
        }
      }
    }
  }

  lemma {:induction false} EvictedBySweep(ttl: int, events: seq<Event>, n: nat, fp: string)
    requires Clock(events) && n <= |events| && fp in KeptAfter(ttl, events, n) && fp !in After(ttl, events, n)
    ensures exists k :: 0 <= k < n && events[k].Sweep? && events[k].at > KeptAfter(ttl, events, n)[fp]
  {
    EvictingTracksKeeping(ttl, events, n - 1);
    if fp in KeptAfter(ttl, events, n - 1) && fp !in After(ttl, events, n - 1) {
      EvictedBySweep(ttl, events, n - 1, fp);
    }
  }

  /** When sweeps are in order, a sweep keeps exactly the fingerprints of accepted requests that it does not
      come later than `ttl` after. */
  lemma SweepKeepsIff(ttl: int, events: seq<Event>, i: nat, fp: string)
    requires Clock(events) && i < |events| && events[i].Sweep?
    requires forall k :: 0 <= k < i && events[k].Sweep? ==> events[k].at <= events[i].at
    ensures fp in After(ttl, events, i + 1) <==>
            exists j :: 0 <= j < i && Accepted(ttl, events, j, fp) && events[i].at <= events[j].stamp + ttl
  {
    EvictingTracksKeeping(ttl, events, i);
    EntryIsLatestAccepted(ttl, events, i, fp);
    if fp in KeptAfter(ttl, events, i) && fp !in After(ttl, events, i) {
      EvictedBySweep(ttl, events, i, fp);
    }
  }

  /** A request is called a duplicate exactly when an accepted request with its fingerprint was
      recorded less than `ttl` before. */
  lemma DuplicateIff(ttl: int, events: seq<Event>, i: nat)
    requires Clock(events) && i < |events| && events[i].Request?
    ensures Answer(ttl, events, i) <==>
            exists j :: 0 <= j < i && Accepted(ttl, events, j, events[i].fp) && events[i].seen < events[j].stamp + ttl
  {
    SweepIsUnobservable(ttl, events, i);
    EntryIsLatestAccepted(ttl, events, i, events[i].fp);
  }

  /** Accepted occurrences of one fingerprint are at least `ttl` apart. */
  lemma AcceptedAreApart(ttl: int, events: seq<Event>, i: nat, j: nat, fp: string)
    requires Clock(events) && i < j && Accepted(ttl, events, i, fp) && Accepted(ttl, events, j, fp)
    ensures events[j].seen - events[i].stamp >= ttl
  {
    DuplicateIff(ttl, events, j);
  }

  // ----- the store

  class DedupStore {
    const ttl: int
    var entries: Entries

    constructor (ttl: int)
      ensures this.ttl == ttl && entries == map[]
    {
      this.ttl, entries := ttl, map[];
    }

    method IsDuplicate(fp: string, seen: int, stamp: int) returns (dup: bool)
      modifies this`entries
      ensures dup == IsDup(old(entries), fp, seen)
      ensures entries == Apply(ttl, old(entries), Request(fp, seen, stamp))
    {
      if fp in entries && seen < entries[fp] {
        return true;
      }
      entries := entries[fp := stamp + ttl];
      return false;
    }

    /** One sweep: every entry is looked at once, in any order, and deleted if it has expired. */
    method Evict(now: int)
      modifies this`entries
      ensures entries == Apply(ttl, old(entries), Sweep(now))
    {
      var todo := entries.Keys;
      while todo != {}
        invariant todo <= entries.Keys
        invariant forall fp :: fp in entries ==> fp in old(entries) && entries[fp] == old(entries)[fp]
        invariant forall fp :: fp in old(entries) && fp !in entries ==> now > old(entries)[fp]
        invariant forall fp :: fp in entries && fp !in todo ==> !(now > entries[fp])
        decreases todo
      {
        var fp :| fp in todo;
        if now > entries[fp] {
          entries := entries - {fp};
        }
        todo := todo - {fp};
      }
    }
  }
}

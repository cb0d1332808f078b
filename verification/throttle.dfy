// The limiter of failed attempts (agent/internal/throttle/throttle.go).
//
// A block end that was never set is the zero time, 0, which no reading of the
// clock comes before.
module Throttle {
  import opened Common
  import Sorting

  type Key = string

  const WINDOW := 10 * MINUTE
  const THRESHOLD := 10
  const BASE_PENALTY := MINUTE
  const MAX_PENALTY := 15 * MINUTE
  const MAX_FAILURES := THRESHOLD + 4
  const MAX_ADDRESSES := 10000
  const EVICT_BATCH := MAX_ADDRESSES / 10

  datatype Entry = Entry(failures: seq<Time>, blockedUntil: Time)

  type Table = map<Key, Entry>

  const NEW_ENTRY := Entry([], 0)

  function At(t: Table, key: Key): Entry {
    if key in t then t[key] else NEW_ENTRY
  }

  /** How much longer a key is blocked; 0 when it is not. */
  function Left(e: Entry, now: Time): nat {
    if e.blockedUntil > now then e.blockedUntil - now else 0
  }

  /** What is left of a list of failures once those that have left the window are dropped from its front. */
  function Recent(failures: seq<Time>, now: Time): seq<Time> {
    if failures != [] && now - failures[0] >= WINDOW then Recent(failures[1..], now) else failures
  }

  /** The newest MAX_FAILURES of a list. */
  function Newest(failures: seq<Time>): seq<Time> {
    if |failures| > MAX_FAILURES then failures[|failures| - MAX_FAILURES..] else failures
  }

  function Min(a: nat, b: nat): nat {
    if a < b then a else b
  }

  function Max(a: nat, b: nat): nat {
    if a < b then b else a
  }

  function Power2(n: nat): nat {
    if n == 0 then 1 else 2 * Power2(n - 1)
  }

  /** The block earned by the n-th failure in the window: none below the threshold, then doubling up to the cap. */
  function Penalty(n: nat): nat {
    if n < THRESHOLD then 0 else Min(MAX_PENALTY, BASE_PENALTY * Power2(n - THRESHOLD))
  }

  function FailEntry(e: Entry, now: Time): Entry {
    var failures := Newest(Recent(e.failures, now) + [now]);
    var n := |failures|;
    Entry(failures, if n >= THRESHOLD then Max(e.blockedUntil, now + Penalty(n)) else e.blockedUntil)
  }

  // Making room.

  predicate Idle(e: Entry, now: Time) {
    Recent(e.failures, now) == [] && e.blockedUntil <= now
  }

  function Pruned(e: Entry, now: Time): Entry {
    e.(failures := Recent(e.failures, now))
  }

  function Prune(t: Table, now: Time): Table {
    map k | k in t && !Idle(t[k], now) :: Pruned(t[k], now)
  }

  /** Where an entry stands in the order of eviction. */
  datatype Rank = Rank(blocked: bool, at: Time)

  function RankOf(e: Entry, now: Time): Rank
    requires e.blockedUntil > now || e.failures != []
  {
    if e.blockedUntil > now then Rank(true, e.blockedUntil) else Rank(false, e.failures[|e.failures| - 1])
  }

  predicate Before(a: Rank, b: Rank) {
    (!a.blocked && b.blocked) || (a.blocked == b.blocked && a.at < b.at)
  }

  ghost predicate Ranked(t: Table, now: Time) {
    forall k :: k in t ==> t[k].blockedUntil > now || t[k].failures != []
  }

  /** A batch that may be dropped: no entry that stays comes before one that goes. */
  ghost predicate IsBatch(t: Table, now: Time, dropped: set<Key>)
    requires Ranked(t, now)
  {
    && dropped <= t.Keys && |dropped| == EVICT_BATCH
    && forall a, b :: a in dropped && b in t.Keys - dropped ==> !Before(RankOf(t[b], now), RankOf(t[a], now))
  }

  lemma PrunedIsRanked(t: Table, now: Time)
    ensures Ranked(Prune(t, now), now)
  {
  }

  /** Which keys a pass over a full table may give up; which of several equals goes is open. */
  ghost predicate MayEvict(t: Table, now: Time, dropped: set<Key>) {
    PrunedIsRanked(t, now);
    var pruned := Prune(t, now);
    if |pruned| < MAX_ADDRESSES then dropped == {} else IsBatch(pruned, now, dropped)
  }

  ghost predicate NeedsRoom(t: Table, key: Key) {
    key !in t && |t| >= MAX_ADDRESSES
  }

  ghost predicate MayDrop(t: Table, key: Key, now: Time, dropped: set<Key>) {
    if NeedsRoom(t, key) then MayEvict(t, now, dropped) else dropped == {}
  }

  ghost function Roomy(t: Table, key: Key, now: Time, dropped: set<Key>): Table {
    if NeedsRoom(t, key) then Prune(t, now) - dropped else t
  }

  ghost function FailIn(t: Table, key: Key, now: Time, dropped: set<Key>): Table {
    var u := Roomy(t, key, now, dropped);
    u[key := FailEntry(At(u, key), now)]
  }

  /** recent, the scan of the source. */
  method RecentOf(failures: seq<Time>, now: Time) returns (kept: seq<Time>)
    ensures kept == Recent(failures, now)
  {
    var cut := 0;
    while cut < |failures| && now - failures[cut] >= WINDOW
      invariant 0 <= cut <= |failures|
      invariant Recent(failures, now) == Recent(failures[cut..], now)
    {
      cut := cut + 1;
    }
    kept := failures[cut..];
  }

  /** The doubling loop of Fail. */
  method PenaltyOf(n: nat) returns (penalty: nat)
    requires n >= THRESHOLD
    ensures penalty == Penalty(n)
  {
    penalty := BASE_PENALTY;
    var i := THRESHOLD;
    while i < n && penalty < MAX_PENALTY
      invariant THRESHOLD <= i <= n
      invariant penalty == BASE_PENALTY * Power2(i - THRESHOLD)
    {
      penalty := penalty * 2;
      i := i + 1;
    }
    Power2Grows(i - THRESHOLD, n - THRESHOLD);
    if penalty > MAX_PENALTY {
      penalty := MAX_PENALTY;
    }
  }

  lemma {:induction false} Power2Grows(a: nat, b: nat)
    requires a <= b
    ensures Power2(a) <= Power2(b)
    decreases b
  {
    if a < b {
      Power2Grows(a, b - 1);
    }
  }

  /** The table with one of its entries pruned or forgotten. */
  function PruneThis(t: Table, key: Key, now: Time): Table
    requires key in t
  {
    if Idle(t[key], now) then t - {key} else t[key := Pruned(t[key], now)]
  }

  /** The table with all but some of its entries pruned. */
  function PrunedBut(t: Table, now: Time, todo: set<Key>): Table {
    map k | k in t && (k in todo || !Idle(t[k], now)) :: if k in todo then t[k] else Pruned(t[k], now)
  }

  lemma PrunedButOneLess(t: Table, now: Time, todo: set<Key>, key: Key)
    requires key in todo && todo <= t.Keys
    ensures PruneThis(PrunedBut(t, now, todo), key, now) == PrunedBut(t, now, todo - {key})
  {
  }

  // The sorted list of candidates.

  datatype Candidate = Candidate(key: Key, rank: Rank)

  ghost predicate DistinctKeys(cs: seq<Candidate>) {
    forall i, j :: 0 <= i < j < |cs| ==> cs[i].key != cs[j].key
  }

  /** Every entry of the table once, with its rank. */
  ghost predicate Covers(cs: seq<Candidate>, t: Table, now: Time)
    requires Ranked(t, now)
  {
    && DistinctKeys(cs)
    && (forall c :: c in cs ==> c.key in t && c.rank == RankOf(t[c.key], now))
    && (forall k :: k in t ==> Candidate(k, RankOf(t[k], now)) in cs)
  }

  function KeysOf(cs: seq<Candidate>): set<Key> {
    set c | c in cs :: c.key
  }

  predicate Sooner(a: Candidate, b: Candidate) {
    Before(a.rank, b.rank)
  }

  /** slices.SortFunc; any list in order of the same candidates would do. */
  function Sorted(cs: seq<Candidate>): seq<Candidate> {
    Sorting.Sort(Sooner, cs)
  }

  lemma SortedIsInOrder(cs: seq<Candidate>, t: Table, now: Time)
    requires Ranked(t, now) && Covers(cs, t, now)
    ensures Covers(Sorted(cs), t, now) && Sorting.InOrder(Sooner, Sorted(cs)) && |Sorted(cs)| == |cs|
  {
    Sorting.SortPutsInOrder(Sooner, cs);
    Sorting.SortNoDuplicates(Sooner, cs);
    var r := Sorted(cs);
    forall i, j | 0 <= i < j < |r| ensures r[i].key != r[j].key {
      assert r[i] in r && r[j] in r;
    }
  }

  lemma KeysOfOneMore(cs: seq<Candidate>, i: nat)
    requires i < |cs|
    ensures KeysOf(cs[..i + 1]) == KeysOf(cs[..i]) + {cs[i].key}
  {
    assert cs[..i + 1] == cs[..i] + [cs[i]];
  }

  lemma {:induction false} CountKeys(cs: seq<Candidate>)
    requires DistinctKeys(cs)
    ensures |KeysOf(cs)| == |cs|
  {
    if cs != [] {
      var front, last := cs[..|cs| - 1], cs[|cs| - 1];
      CountKeys(front);
      assert cs == front + [last];
      assert KeysOf(cs) == KeysOf(front) + {last.key};
      assert last.key !in KeysOf(front);
    }
  }

  lemma KeptComesLater(cs: seq<Candidate>, t: Table, now: Time, a: Key, b: Key)
    requires Ranked(t, now) && Covers(cs, t, now) && Sorting.InOrder(Sooner, cs) && |cs| >= EVICT_BATCH
    requires a in KeysOf(cs[..EVICT_BATCH]) && b in t.Keys - KeysOf(cs[..EVICT_BATCH])
    ensures a in t && !Before(RankOf(t[b], now), RankOf(t[a], now))
  {
    var first := cs[..EVICT_BATCH];
    forall k | 0 <= k < EVICT_BATCH ensures cs[k].key in KeysOf(first) {
      assert first[k] in first;
    }
    var c :| c in first && c.key == a;
    var i :| 0 <= i < EVICT_BATCH && cs[i] == c;
    var j :| 0 <= j < |cs| && cs[j] == Candidate(b, RankOf(t[b], now));
    assert j >= EVICT_BATCH;
    assert !Sooner(cs[j], cs[i]);
  }

  /** The first of a list in order are a batch that may go. */
  lemma FirstAreABatch(cs: seq<Candidate>, t: Table, now: Time)
    requires Ranked(t, now) && Covers(cs, t, now) && Sorting.InOrder(Sooner, cs) && |cs| >= EVICT_BATCH
    ensures IsBatch(t, now, KeysOf(cs[..EVICT_BATCH]))
  {
    var dropped := KeysOf(cs[..EVICT_BATCH]);
    CountKeys(cs[..EVICT_BATCH]);
    forall k | k in dropped ensures k in t {
      var c :| c in cs[..EVICT_BATCH] && c.key == k;
      assert c in cs;
    }
    forall a, b | a in dropped && b in t.Keys - dropped
      ensures !Before(RankOf(t[b], now), RankOf(t[a], now))
    {
      KeptComesLater(cs, t, now, a, b);
    }
    hide KeysOf;
    hide Covers;
  }

  lemma SetTwice(t: Table, key: Key, a: Entry, b: Entry)
    ensures t[key := a][key := b] == t[key := b]
  {
  }

  /** A record of the table; the object is shared between the table and the method at work on it. */
  class Record {
    /** The key the record was made for. */
    ghost const key: Key
    var failures: seq<Time>
    var blockedUntil: Time

    constructor (ghost key: Key)
      ensures this.key == key && failures == [] && blockedUntil == 0
    {
      this.key := key;
      failures, blockedUntil := [], 0;
    }

    /** What Fail does to the record, once it has it. */
    method Add(now: Time)
      modifies this
      ensures Entry(failures, blockedUntil) == FailEntry(Entry(old(failures), old(blockedUntil)), now)
    {
      failures := RecentOf(failures, now);
      failures := failures + [now];
      if |failures| > MAX_FAILURES {
        failures := failures[|failures| - MAX_FAILURES..];
      }
      var n := |failures|;
      if n >= THRESHOLD {
        var penalty := PenaltyOf(n);
        if now + penalty > blockedUntil {
          blockedUntil := now + penalty;
        }
      }
    }
  }

  class Limiter {
    var addrs: map<Key, Record>

    /** The table as a value, and the records it owns; Valid ties both to addrs. */
    ghost var table: Table
    ghost var records: set<Record>

    ghost predicate Valid()
      reads this, records
    {
      && addrs.Keys == table.Keys
      && forall k :: k in addrs ==>
           && addrs[k] in records && addrs[k].key == k
           && addrs[k].failures == table[k].failures && addrs[k].blockedUntil == table[k].blockedUntil
    }

    constructor ()
      ensures Valid() && table == map[] && records == {}
    {
      addrs, table, records := map[], map[], {};
    }

    method Blocked(key: Key, now: Time) returns (left: nat, blocked: bool)
      requires Valid()
      ensures left == Left(At(table, key), now) && (blocked <==> left > 0)
      ensures blocked <==> key in addrs && addrs[key].blockedUntil > now
      ensures blocked ==> left == addrs[key].blockedUntil - now
    {
      if key !in addrs {
        return 0, false;
      }
      var e := addrs[key];
      if e.blockedUntil > now {
        return e.blockedUntil - now, true;
      }
      return 0, false;
    }

    /** The first pass of evictLocked over one record. */
    method PruneOne(key: Key, now: Time)
      requires Valid() && key in addrs
      modifies this, addrs[key]
      ensures Valid() && records == old(records)
      ensures table == PruneThis(old(table), key, now)
    {
      var e := addrs[key];
      var kept := RecentOf(e.failures, now);
      e.failures := kept;
      table := PruneThis(table, key, now);
      if |kept| == 0 && e.blockedUntil <= now {
        addrs := addrs - {key};
      }
    }

    method PruneAll(now: Time)
      requires Valid()
      modifies this, records
      ensures Valid() && records == old(records)
      ensures table == Prune(old(table), now)
    {
      ghost var before := table;
      var todo := addrs.Keys;
      while todo != {}
        invariant Valid() && records == old(records)
        invariant todo <= addrs.Keys
        invariant table == PrunedBut(before, now, todo)
        decreases todo
      {
        var key :| key in todo;
        PruneOne(key, now);
        PrunedButOneLess(before, now, todo, key);
        todo := todo - {key};
      }
    }

    /** The loop that ranks every address. */
    method Candidates(now: Time) returns (cs: seq<Candidate>)
      requires Valid() && Ranked(table, now)
      ensures Covers(cs, table, now) && |cs| == |table|
    {
      cs := [];
      var todo := addrs.Keys;
      while todo != {}
        invariant todo <= addrs.Keys
        invariant DistinctKeys(cs) && |cs| + |todo| == |addrs.Keys|
        invariant forall c :: c in cs ==> c.key in table && c.key !in todo && c.rank == RankOf(table[c.key], now)
        invariant forall k :: k in table && k !in todo ==> Candidate(k, RankOf(table[k], now)) in cs
        decreases todo
      {
        var key :| key in todo;
        var e := addrs[key];
        assert e.blockedUntil > now || e.failures != [];
        var blocked := e.blockedUntil > now;
        var at := e.blockedUntil;
        if !blocked {
          at := e.failures[|e.failures| - 1];
        }
        cs := cs + [Candidate(key, Rank(blocked, at))];
        todo := todo - {key};
      }
    }

    /** The last loop of evictLocked. */
    method Drop(cs: seq<Candidate>)
      requires Valid()
      modifies this
      ensures Valid() && records == old(records)
      ensures table == old(table) - KeysOf(cs)
    {
      table := table - KeysOf(cs);
      assert KeysOf(cs[..0]) == {} && addrs - {} == addrs;
      hide KeysOf;
      for i := 0 to |cs|
        invariant records == old(records) && table == old(table) - KeysOf(cs)
        invariant addrs == old(addrs) - KeysOf(cs[..i])
      {
        KeysOfOneMore(cs, i);
        addrs := addrs - {cs[i].key};
      }
      assert cs[..|cs|] == cs;
    }

    /** evictLocked, from the ranking on. */
    method EvictBatch(now: Time) returns (ghost dropped: set<Key>)
      requires Valid() && |table| >= MAX_ADDRESSES && Ranked(table, now)
      modifies this
      ensures Valid() && records == old(records)
      ensures IsBatch(old(table), now, dropped) && table == old(table) - dropped
    {
      var cs := Candidates(now);
      SortedIsInOrder(cs, table, now);
      var sorted := Sorted(cs);
      FirstAreABatch(sorted, table, now);
      hide Covers;
      hide IsBatch;
      hide Ranked;
      dropped := KeysOf(sorted[..EVICT_BATCH]);
      Drop(sorted[..EVICT_BATCH]);
    }

    /** Makes room in a full table; dropped is what it gives up although there was something to remember. */
    method EvictLocked(now: Time) returns (ghost dropped: set<Key>)
      requires Valid() && |table| >= MAX_ADDRESSES
      modifies this, records
      ensures Valid() && records == old(records)
      ensures MayEvict(old(table), now, dropped)
      ensures table == Prune(old(table), now) - dropped
    {
      PrunedIsRanked(table, now);
      PruneAll(now);
      hide Prune;
      hide Ranked;
      dropped := {};
      assert |addrs.Keys| == |table.Keys|;
      if |addrs| < MAX_ADDRESSES {
        assert table - {} == table;
        return;
      }
      dropped := EvictBatch(now);
    }

    /** Records one failed attempt. */
    method Fail(key: Key, now: Time) returns (ghost dropped: set<Key>)
      requires Valid()
      modifies this, records
      ensures Valid() && fresh(records - old(records))
      ensures MayDrop(old(table), key, now, dropped)
      ensures table == FailIn(old(table), key, now, dropped)
    {
      dropped := {};
      assert |addrs.Keys| == |table.Keys|;
      assert table - {} == table;
      if key !in addrs {
        if |addrs| >= MAX_ADDRESSES {
          dropped := EvictLocked(now);
        }
      }
      FailKey(key, now);
    }

    /** The record of an address, made if there is none. */
    method Obtain(key: Key) returns (e: Record)
      requires Valid()
      modifies this
      ensures Valid() && fresh(records - old(records))
      ensures key in addrs && e == addrs[key] && (e in old(records) || fresh(e))
      ensures table == old(table)[key := At(old(table), key)]
    {
      if key in addrs {
        e := addrs[key];
        assert table == table[key := table[key]];
      } else {
        e := new Record(key);
        addrs, table, records := addrs[key := e], table[key := NEW_ENTRY], records + {e};
      }
    }

    /** Records the failure in a record of the table. */
    method AddTo(e: Record, key: Key, now: Time)
      requires Valid() && key in addrs && e == addrs[key]
      modifies this`table, e
      ensures Valid() && table == old(table)[key := FailEntry(old(table)[key], now)]
    {
      hide FailEntry;
      table := table[key := FailEntry(table[key], now)];
      e.Add(now);
    }

    /** Fail, from the look-up of the record on. */
    method FailKey(key: Key, now: Time)
      requires Valid()
      modifies this, records
      ensures Valid() && fresh(records - old(records))
      ensures table == old(table)[key := FailEntry(At(old(table), key), now)]
    {
      hide FailEntry;
      SetTwice(table, key, At(table, key), FailEntry(At(table, key), now));
      var e := Obtain(key);
      AddTo(e, key, now);
    }
  }
}

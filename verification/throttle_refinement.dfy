// The limiter against one that never forgets anything.
module ThrottleRefinement {
  import opened Common
  import opened Throttle
  import Runs

  type History = seq<Time>

  /** How many failures of a history lie in the window that ends at now. */
  function FailuresWithin(h: History, now: Time): nat {
    if h == [] then 0
    else FailuresWithin(h[..|h| - 1], now) + (if now - h[|h| - 1] < WINDOW then 1 else 0)
  }

  /**
   * When the block of an address with this history ends: the latest end that
   * any of its failures earned, counted over the window up to that failure.
   */
  function BlockEnd(h: History): Time {
    if h == [] then 0
    else
      var last := h[|h| - 1];
      var n := FailuresWithin(h, last);
      Max(BlockEnd(h[..|h| - 1]), if n >= THRESHOLD then last + Penalty(n) else 0)
  }

  /** In order, and none after now. */
  ghost predicate Chronicle(h: History, now: Time) {
    && (forall i, j :: 0 <= i <= j < |h| ==> h[i] <= h[j])
    && (forall i :: 0 <= i < |h| ==> h[i] <= now)
  }

  /** The entry knows as much of the history as matters from now on. */
  ghost predicate Knows(e: Entry, h: History, now: Time) {
    && Recent(e.failures, now) == Newest(Recent(h, now))
    && Max(e.blockedUntil, now) == Max(BlockEnd(h), now)
  }

  lemma {:induction false} RecentIsSuffix(f: History, now: Time) returns (cut: nat)
    ensures cut <= |f| && Recent(f, now) == f[cut..]
    ensures forall i :: 0 <= i < cut ==> now - f[i] >= WINDOW
    ensures cut < |f| ==> now - f[cut] < WINDOW
  {
    if f != [] && now - f[0] >= WINDOW {
      var c := RecentIsSuffix(f[1..], now);
      cut := c + 1;
      assert f[1..][c..] == f[cut..];
      forall i | 0 <= i < cut ensures now - f[i] >= WINDOW {
        if i > 0 {
          assert f[i] == f[1..][i - 1];
        }
      }
    } else {
      cut := 0;
      assert f[0..] == f;
    }
  }

  lemma {:induction false} RecentOfSuffix(f: History, cut: nat, now: Time)
    requires cut <= |f| && forall i :: 0 <= i < cut ==> now - f[i] >= WINDOW
    ensures Recent(f, now) == Recent(f[cut..], now)
  {
    if cut > 0 {
      RecentOfSuffix(f[1..], cut - 1, now);
      assert f[1..][cut - 1..] == f[cut..];
    } else {
      assert f[0..] == f;
    }
  }

  lemma RecentAgain(f: History, now: Time, later: Time)
    requires now <= later
    ensures Recent(Recent(f, now), later) == Recent(f, later)
  {
    var cut := RecentIsSuffix(f, now);
    RecentOfSuffix(f, cut, later);
  }

  lemma RecentKeepsAll(f: History, now: Time)
    requires f == [] || now - f[0] < WINDOW
    ensures Recent(f, now) == f
  {
  }

  /** On a list in order the newest of the recent are the recent of the newest. */
  lemma RecentOfNewest(f: History, now: Time, later: Time)
    requires Chronicle(f, now) && now <= later
    ensures Recent(Newest(f), later) == Newest(Recent(f, later))
  {
    var cut := RecentIsSuffix(f, later);
    var drop := if |f| > MAX_FAILURES then |f| - MAX_FAILURES else 0;
    assert f[0..] == f && Newest(f) == f[drop..];
    if cut <= drop {
      if drop < |f| {
        assert f[cut] <= f[drop];
      }
      RecentKeepsAll(f[drop..], later);
      assert f[cut..][drop - cut..] == f[drop..];
    } else {
      forall i | 0 <= i < cut - drop ensures later - f[drop..][i] >= WINDOW {
        assert f[drop..][i] == f[drop + i];
      }
      RecentOfSuffix(f[drop..], cut - drop, later);
      assert f[drop..][cut - drop..] == f[cut..];
      RecentKeepsAll(f[cut..], later);
    }
  }

  lemma {:induction false} CountFrom(h: History, now: Time, cut: nat)
    requires cut <= |h| && forall i :: 0 <= i < |h| ==> (now - h[i] < WINDOW <==> i >= cut)
    ensures FailuresWithin(h, now) == |h| - cut
  {
    if h != [] {
      CountFrom(h[..|h| - 1], now, if cut < |h| then cut else cut - 1);
    }
  }

  /** Recent drops exactly what is outside the window. */
  lemma CountIsRecent(h: History, now: Time)
    requires Chronicle(h, now)
    ensures FailuresWithin(h, now) == |Recent(h, now)|
  {
    var cut := RecentIsSuffix(h, now);
    hide Recent;
    forall i | cut <= i < |h| ensures now - h[i] < WINDOW {
      assert h[cut] <= h[i];
    }
    CountFrom(h, now, cut);
  }

  // The three things that happen to an entry: time passes, it is pruned, a failure is recorded.

  lemma TimePasses(e: Entry, h: History, now: Time, later: Time)
    requires Knows(e, h, now) && Chronicle(h, now) && now <= later
    ensures Knows(e, h, later) && Chronicle(h, later)
  {
    RecentAgain(e.failures, now, later);
    RecentAgain(h, now, later);
    var r := Recent(h, now);
    var cut := RecentIsSuffix(h, now);
    RecentOfNewest(r, now, later);
  }

  lemma PruneKeepsKnowledge(e: Entry, h: History, now: Time)
    requires Knows(e, h, now)
    ensures Knows(if Idle(e, now) then NEW_ENTRY else Pruned(e, now), h, now)
  {
    RecentAgain(e.failures, now, now);
  }

  lemma PenaltyIsCapped(n: nat)
    ensures Penalty(Min(n, MAX_FAILURES)) == Penalty(n) <= MAX_PENALTY
  {
    if n > MAX_FAILURES {
      Power2Grows(4, n - THRESHOLD);
      assert Power2(4) == 16;
    }
  }

  lemma ChronicleAppended(h: History, now: Time)
    requires Chronicle(h, now)
    ensures Chronicle(h + [now], now)
  {
  }

  /** A list that was cut before the new failure is cut to the same as one that was not. */
  lemma NewestAppended(r: History, now: Time)
    ensures Newest(Newest(r) + [now]) == Newest(r + [now])
    ensures |Newest(r + [now])| == Min(|r| + 1, MAX_FAILURES)
  {
  }

  lemma BlockEndAppended(h: History, now: Time)
    requires Chronicle(h, now)
    ensures var n := |Recent(h, now)| + 1;
            BlockEnd(h + [now]) == Max(BlockEnd(h), if n >= THRESHOLD then now + Penalty(n) else 0)
  {
    var h' := h + [now];
    ChronicleAppended(h, now);
    CountIsRecent(h', now);
    RecentOfAppended(h, now);
    hide Recent;
    hide FailuresWithin;
    hide Penalty;
    assert h'[..|h'| - 1] == h;
  }

  lemma FailuresRecorded(e: Entry, h: History, now: Time)
    requires Recent(e.failures, now) == Newest(Recent(h, now)) && Chronicle(h, now)
    ensures var failures := FailEntry(e, now).failures;
            Recent(failures, now) == failures == Newest(Recent(h + [now], now)) && |failures| == Min(|Recent(h, now)| + 1, MAX_FAILURES)
  {
    hide Chronicle;
    hide Recent;
    hide Newest;
    hide Penalty;
    ChronicleAppended(h, now);
    RecentOfAppended(h, now);
    NewestAppended(Recent(h, now), now);
    NewestIsRecent(h + [now], now);
  }

  lemma BlockRecorded(e: Entry, h: History, now: Time)
    requires |FailEntry(e, now).failures| == Min(|Recent(h, now)| + 1, MAX_FAILURES) && Chronicle(h, now)
    requires Max(e.blockedUntil, now) == Max(BlockEnd(h), now)
    ensures Max(FailEntry(e, now).blockedUntil, now) == Max(BlockEnd(h + [now]), now)
  {
    hide Chronicle;
    hide Recent;
    hide Newest;
    hide Penalty;
    hide BlockEnd;
    PenaltyIsCapped(|Recent(h, now)| + 1);
    BlockEndAppended(h, now);
  }

  lemma FailureIsRecorded(e: Entry, h: History, now: Time)
    requires Knows(e, h, now) && Chronicle(h, now)
    ensures Knows(FailEntry(e, now), h + [now], now) && Chronicle(h + [now], now)
  {
    hide Chronicle;
    hide Recent;
    hide Newest;
    hide BlockEnd;
    hide FailEntry;
    ChronicleAppended(h, now);
    FailuresRecorded(e, h, now);
    BlockRecorded(e, h, now);
  }

  lemma RecentOfAppended(h: History, now: Time)
    requires Chronicle(h, now)
    ensures Recent(h + [now], now) == Recent(h, now) + [now]
  {
    var h' := h + [now];
    var cut := RecentIsSuffix(h, now);
    forall i | 0 <= i < cut ensures now - h'[i] >= WINDOW {
      assert h'[i] == h[i];
    }
    RecentOfSuffix(h', cut, now);
    assert h'[cut..] == h[cut..] + [now];
    RecentKeepsAll(h'[cut..], now);
  }

  lemma NewestIsRecent(h: History, now: Time)
    requires Chronicle(h, now)
    ensures Recent(Newest(Recent(h, now)), now) == Newest(Recent(h, now))
  {
    RecentAgain(h, now, now);
    var cut := RecentIsSuffix(h, now);
    RecentOfNewest(Recent(h, now), now, now);
  }

  // Forgetting the beginning of a history only makes a block shorter.

  lemma {:induction false} FewerFailures(p: History, h: History, now: Time)
    ensures FailuresWithin(h, now) <= FailuresWithin(p + h, now)
  {
    if h != [] {
      FewerFailures(p, h[..|h| - 1], now);
      assert (p + h)[..|p + h| - 1] == p + h[..|h| - 1];
    }
  }

  lemma PenaltyGrows(m: nat, n: nat)
    requires m <= n
    ensures Penalty(m) <= Penalty(n)
  {
    if m >= THRESHOLD {
      Power2Grows(m - THRESHOLD, n - THRESHOLD);
    }
  }

  lemma {:induction false} ShorterBlock(p: History, h: History)
    ensures BlockEnd(h) <= BlockEnd(p + h)
  {
    if h != [] {
      var last := h[|h| - 1];
      ShorterBlock(p, h[..|h| - 1]);
      assert (p + h)[..|p + h| - 1] == p + h[..|h| - 1];
      FewerFailures(p, h, last);
      PenaltyGrows(FailuresWithin(h, last), FailuresWithin(p + h, last));
    }
  }

  // Runs.

  /**
   * full is every failure there ever was, kept the failures since the address
   * was last given up in a batch, and cleared the moment the last check of an
   * address found it not blocked, with no failure since. Only table and clock
   * are the limiter's.
   */
  datatype State = State(
    table: Table, clock: Time, full: map<Key, History>, kept: map<Key, History>, dropped: set<Key>,
    cleared: map<Key, Time>)

  const INITIAL := State(map[], 0, map[], map[], {}, map[])

  datatype Event =
    | Check(key: Key, now: Time)
    | Fail(key: Key, now: Time, batch: set<Key>)

  function Of(m: map<Key, History>, key: Key): History {
    if key in m then m[key] else []
  }

  ghost predicate Next(s: State, e: Event, u: State) {
    && s.clock <= e.now
    && match e
       case Check(key, now) =>
         u == s.(clock := now, cleared := if Left(At(s.table, key), now) == 0 then s.cleared[key := now] else s.cleared)
       case Fail(key, now, batch) =>
         && MayDrop(s.table, key, now, batch)
         && u == State(FailIn(s.table, key, now, batch), now,
                       s.full[key := Of(s.full, key) + [now]],
                       (s.kept - batch)[key := Of(s.kept - batch, key) + [now]],
                       s.dropped + batch, s.cleared - {key})
  }

  ghost predicate Reachable(s: State) {
    Runs.Reachable(INITIAL, Next, s)
  }

  predicate IsSuffix(a: History, b: History) {
    |a| <= |b| && b[|b| - |a|..] == a
  }

  ghost predicate KeyOk(s: State, key: Key) {
    && Chronicle(Of(s.kept, key), s.clock)
    && Knows(At(s.table, key), Of(s.kept, key), s.clock)
    && IsSuffix(Of(s.kept, key), Of(s.full, key))
    && (key !in s.dropped ==> Of(s.kept, key) == Of(s.full, key))
  }

  /** Making room keeps what is known of every address that is not given up. */
  lemma RoomKeepsKnowledge(t: Table, kept: map<Key, History>, key: Key, now: Time, batch: set<Key>, k: Key)
    requires MayDrop(t, key, now, batch)
    requires Knows(At(t, k), Of(kept, k), now)
    ensures Knows(At(Roomy(t, key, now, batch), k), Of(kept - batch, k), now)
  {
    if NeedsRoom(t, key) {
      if k !in batch {
        PruneKeepsKnowledge(At(t, k), Of(kept, k), now);
      }
    } else {
      assert kept - batch == kept;
    }
  }

  lemma SuffixAppended(a: History, b: History, now: Time)
    requires IsSuffix(a, b)
    ensures IsSuffix(a + [now], b + [now])
  {
    var k := |b| - |a|;
    assert (b + [now])[k..] == b[k..] + [now];
  }

  lemma NothingIsSuffix(b: History)
    ensures IsSuffix([], b)
  {
  }

  function Kept(m: map<Key, History>, batch: set<Key>, k: Key): History {
    if k in batch then [] else Of(m, k)
  }

  lemma OfAfter(m: map<Key, History>, batch: set<Key>, key: Key, now: Time, k: Key)
    ensures var u := (m - batch)[key := Of(m - batch, key) + [now]];
            Of(u, k) == if k == key then Kept(m, batch, k) + [now] else Kept(m, batch, k)
  {
  }

  lemma HistoryStep(s: State, key: Key, now: Time, batch: set<Key>, k: Key)
    requires IsSuffix(Of(s.kept, k), Of(s.full, k))
    requires k !in s.dropped ==> Of(s.kept, k) == Of(s.full, k)
    ensures var kept := (s.kept - batch)[key := Of(s.kept - batch, key) + [now]];
            var full := s.full[key := Of(s.full, key) + [now]];
            && IsSuffix(Of(kept, k), Of(full, k))
            && (k !in s.dropped + batch ==> Of(kept, k) == Of(full, k))
  {
    OfAfter(s.kept, batch, key, now, k);
    NothingIsSuffix(Of(s.full, k));
    SuffixAppended(Kept(s.kept, batch, k), Of(s.full, k), now);
    hide IsSuffix;
  }

  lemma FailStepKnows(s: State, key: Key, now: Time, batch: set<Key>, k: Key)
    requires Knows(At(s.table, k), Of(s.kept, k), now) && Chronicle(Of(s.kept, k), now)
    requires MayDrop(s.table, key, now, batch)
    ensures var kept := (s.kept - batch)[key := Of(s.kept - batch, key) + [now]];
            Knows(At(FailIn(s.table, key, now, batch), k), Of(kept, k), now) && Chronicle(Of(kept, k), now)
  {
    RoomKeepsKnowledge(s.table, s.kept, key, now, batch, k);
    hide Knows;
    hide Chronicle;
    hide Roomy;
    assert Chronicle(Of(s.kept - batch, k), now) by {
      NothingIsChronicle(now);
    }
    if k == key {
      FailureIsRecorded(At(Roomy(s.table, k, now, batch), k), Of(s.kept - batch, k), now);
    }
  }

  lemma NothingIsChronicle(now: Time)
    ensures Chronicle([], now)
  {
  }

  lemma KeyStep(s: State, e: Event, u: State, k: Key)
    requires KeyOk(s, k) && Next(s, e, u)
    ensures KeyOk(u, k)
  {
    TimePasses(At(s.table, k), Of(s.kept, k), s.clock, e.now);
    hide Knows;
    hide Chronicle;
    hide FailIn;
    hide IsSuffix;
    if e.Fail? {
      HistoryStep(s, e.key, e.now, e.batch, k);
      FailStepKnows(s, e.key, e.now, e.batch, k);
    }
  }

  ghost predicate Inv(s: State) {
    |s.table| <= MAX_ADDRESSES && forall k :: KeyOk(s, k)
  }

  lemma {:induction false} SizeWithout(t: Table, batch: set<Key>)
    requires batch <= t.Keys
    ensures |t - batch| == |t| - |batch|
  {
    assert (t - batch).Keys == t.Keys - batch;
  }

  lemma PruneIsSmaller(t: Table, now: Time)
    ensures |Prune(t, now)| <= |t|
  {
    var gone := set k | k in t && Idle(t[k], now);
    assert Prune(t, now).Keys == t.Keys - gone;
  }

  /** The table stays within its bound, whatever a full table gives up. */
  lemma TableBounded(t: Table, key: Key, now: Time, batch: set<Key>)
    requires |t| <= MAX_ADDRESSES && MayDrop(t, key, now, batch)
    ensures |FailIn(t, key, now, batch)| <= MAX_ADDRESSES
  {
    var u := Roomy(t, key, now, batch);
    if NeedsRoom(t, key) {
      PruneIsSmaller(t, now);
      SizeWithout(Prune(t, now), batch);
    }
    assert FailIn(t, key, now, batch).Keys == u.Keys + {key};
  }

  /** A full pass drops a tenth of the table, and blocked addresses only when no other is left. */
  lemma BlockedGoLast(t: Table, key: Key, now: Time, batch: set<Key>, gone: Key, stays: Key)
    requires NeedsRoom(t, key) && MayDrop(t, key, now, batch) && gone in batch
    ensures gone in t && |Roomy(t, key, now, batch)| == |Prune(t, now)| - EVICT_BATCH
    ensures stays in Roomy(t, key, now, batch) && Left(t[gone], now) > 0 ==> Left(t[gone], now) <= Left(t[stays], now)
  {
    var p := Prune(t, now);
    PrunedIsRanked(t, now);
    SizeWithout(p, batch);
    if stays in Roomy(t, key, now, batch) {
      assert !Before(RankOf(p[stays], now), RankOf(p[gone], now));
    }
  }

  /** The last of the failures that still count is the last of all. */
  lemma RecentKeepsTheLast(f: History, now: Time)
    requires Recent(f, now) != []
    ensures f != [] && Recent(f, now)[|Recent(f, now)| - 1] == f[|f| - 1]
  {
    var cut := RecentIsSuffix(f, now);
  }

  /** Of the addresses that are not blocked, those go whose last failure is oldest. */
  lemma OldestGoFirst(t: Table, now: Time, batch: set<Key>, gone: Key, stays: Key)
    requires MayEvict(t, now, batch) && gone in batch && stays in Prune(t, now) - batch
    ensures gone in t && stays in t
    ensures t[gone].blockedUntil <= now ==> t[gone].failures != []
    ensures t[gone].blockedUntil <= now && t[stays].blockedUntil <= now ==>
              t[stays].failures != []
              && t[gone].failures[|t[gone].failures| - 1] <= t[stays].failures[|t[stays].failures| - 1]
    ensures t[gone].blockedUntil > now ==> t[stays].blockedUntil > now && t[gone].blockedUntil <= t[stays].blockedUntil
  {
    var p := Prune(t, now);
    PrunedIsRanked(t, now);
    assert !Before(RankOf(p[stays], now), RankOf(p[gone], now));
    if t[gone].blockedUntil <= now {
      RecentKeepsTheLast(t[gone].failures, now);
    }
    if t[stays].blockedUntil <= now {
      RecentKeepsTheLast(t[stays].failures, now);
    }
  }

  /** Something of a list counts exactly when one of its failures is less than ten minutes old. */
  lemma SomethingCounts(f: History, now: Time)
    ensures Recent(f, now) != [] <==> exists i :: 0 <= i < |f| && now - f[i] < 10 * MINUTE
  {
    var cut := RecentIsSuffix(f, now);
    if cut < |f| {
      assert now - f[cut] < 10 * MINUTE;
    }
  }

  /**
   * What a pass over a full table forgets outside the batch is exactly the
   * addresses that are not blocked and have no failure of the last ten minutes;
   * the rest keep their blocks. A batch is a thousand, and goes only when the
   * table is full without those.
   */
  lemma OnlyIdleAreForgotten(t: Table, now: Time, batch: set<Key>, k: Key)
    requires MayEvict(t, now, batch) && k in t
    ensures k !in Prune(t, now) <==>
              t[k].blockedUntil <= now && forall i :: 0 <= i < |t[k].failures| ==> now - t[k].failures[i] >= 10 * MINUTE
    ensures k in Prune(t, now) ==> Prune(t, now)[k].blockedUntil == t[k].blockedUntil
    ensures |batch| == if |Prune(t, now)| < 10000 then 0 else 1000
  {
    SomethingCounts(t[k].failures, now);
  }

  /** On a list in order those count that are less than ten minutes old, and no others. */
  lemma OnlyTheWindowCounts(f: History, now: Time)
    requires Chronicle(f, now)
    ensures exists cut :: 0 <= cut <= |f| && Recent(f, now) == f[cut..]
                          && forall i :: 0 <= i < |f| ==> (now - f[i] < 10 * MINUTE <==> i >= cut)
  {
    var cut := RecentIsSuffix(f, now);
    forall i | cut <= i < |f| ensures now - f[i] < 10 * MINUTE {
      assert f[cut] <= f[i];
    }
  }

  /** A recorded failure is the newest of its address, and changes no other address; the block, if there is one, does not end sooner. */
  lemma FailureIsNewest(t: Table, key: Key, now: Time, batch: set<Key>)
    requires MayDrop(t, key, now, batch)
    ensures var u := FailIn(t, key, now, batch);
            && key in u && u[key].failures != [] && u[key].failures[|u[key].failures| - 1] == now
            && (key in t ==> u[key].blockedUntil >= t[key].blockedUntil)
            && (key in t || |t| < 10000 ==> u - {key} == t - {key})
  {
    hide MayEvict;
    var e := At(Roomy(t, key, now, batch), key);
    var failures := Recent(e.failures, now) + [now];
    assert Newest(failures)[|Newest(failures)| - 1] == now;
    hide Recent;
    hide Penalty;
    if !NeedsRoom(t, key) {
      assert t[key := FailEntry(e, now)] - {key} == t - {key};
    }
  }

  lemma InvStep(s: State, e: Event, u: State)
    requires Inv(s) && Next(s, e, u)
    ensures Inv(u)
  {
    forall k ensures KeyOk(u, k) {
      KeyStep(s, e, u, k);
    }
    if e.Fail? {
      TableBounded(s.table, e.key, e.now, e.batch);
    }
  }

  lemma ReachableInv(s: State)
    requires Reachable(s)
    ensures Inv(s)
  {
    forall s, e, u | Inv(s) && Next(s, e, u)
      ensures Inv(u)
    {
      InvStep(s, e, u);
    }
    Runs.InvariantHolds(INITIAL, Next, Inv, s);
  }

  lemma KnownNow(s: State, key: Key, now: Time)
    requires Inv(s) && s.clock <= now
    ensures Knows(At(s.table, key), Of(s.kept, key), now) && Chronicle(Of(s.kept, key), now)
  {
    assert KeyOk(s, key);
    TimePasses(At(s.table, key), Of(s.kept, key), s.clock, now);
  }

  /** How much longer a limiter that forgets nothing blocks an address with this history. */
  function ReferenceLeft(h: History, now: Time): nat {
    if BlockEnd(h) > now then BlockEnd(h) - now else 0
  }

  /**
   * The limiter answers what one with unbounded history answers, as long as
   * the address was not given up in a batch; if it was, it answers what that
   * limiter answers from the failures since, and never blocks for longer.
   */
  lemma LimiterRefinesReference(s: State, key: Key, now: Time)
    requires Reachable(s) && s.clock <= now
    ensures |s.table| <= MAX_ADDRESSES
    ensures Left(At(s.table, key), now) == ReferenceLeft(Of(s.kept, key), now)
    ensures key !in s.dropped ==> Left(At(s.table, key), now) == ReferenceLeft(Of(s.full, key), now)
    ensures Left(At(s.table, key), now) <= ReferenceLeft(Of(s.full, key), now)
  {
    ReachableInv(s);
    hide Reachable;
    KnownNow(s, key, now);
    KeptIsSuffix(s, key);
    hide Inv;
    KnowsLeft(At(s.table, key), Of(s.kept, key), now);
    ShorterLeft(Of(s.kept, key), Of(s.full, key), now);
    hide *;
  }

  lemma KeptIsSuffix(s: State, key: Key)
    requires Inv(s)
    ensures IsSuffix(Of(s.kept, key), Of(s.full, key)) && (key !in s.dropped ==> Of(s.kept, key) == Of(s.full, key))
  {
    assert KeyOk(s, key);
    hide Chronicle;
    hide Knows;
  }

  lemma KnowsLeft(e: Entry, h: History, now: Time)
    requires Knows(e, h, now)
    ensures Left(e, now) == ReferenceLeft(h, now)
  {
    hide Recent;
    hide BlockEnd;
  }

  lemma ShorterLeft(a: History, b: History, now: Time)
    requires IsSuffix(a, b)
    ensures ReferenceLeft(a, now) <= ReferenceLeft(b, now)
  {
    var front := b[..|b| - |a|];
    assert b == front + a;
    ShorterBlock(front, a);
    hide BlockEnd;
  }

  // A caller who never calls Fail while blocked.

  /** No failure of the history was recorded while the failures before it still blocked. */
  ghost predicate Patient(h: History) {
    forall i :: 0 < i < |h| ==> BlockEnd(h[..i]) <= h[i]
  }

  /** Failures that lie close together are all in the window of the last of them. */
  lemma {:induction false} CloseTogether(h: History, now: Time, i: nat)
    requires Chronicle(h, now) && i < |h| && now - h[i] < WINDOW
    ensures FailuresWithin(h, now) >= |h| - i
  {
    if i < |h| - 1 {
      CloseTogether(h[..|h| - 1], now, i);
    }
    assert h[i] <= h[|h| - 1];
  }

  /** A block never ends sooner for what comes after it. */
  lemma {:induction false} BlockStays(h: History, m: nat)
    requires m <= |h|
    ensures BlockEnd(h[..m]) <= BlockEnd(h)
  {
    if m < |h| {
      var front := h[..|h| - 1];
      assert front[..m] == h[..m];
      BlockStays(front, m);
      hide Penalty;
      hide FailuresWithin;
    } else {
      assert h[..m] == h;
    }
  }

  lemma ChroniclePrefix(h: History, now: Time, j: nat)
    requires Chronicle(h, now) && j < |h|
    ensures Chronicle(h[..j + 1], h[j])
  {
  }

  /** The last of a history earns at least the penalty of the failures that lie close before it. */
  lemma LastEarns(g: History, i: nat)
    requires i < |g| && Chronicle(g, g[|g| - 1]) && g[|g| - 1] - g[i] < WINDOW && |g| - i >= THRESHOLD
    ensures BlockEnd(g) >= g[|g| - 1] + Penalty(|g| - i)
  {
    var last := g[|g| - 1];
    CloseTogether(g, last, i);
    PenaltyGrows(|g| - i, FailuresWithin(g, last));
    hide Penalty;
    hide FailuresWithin;
    hide Chronicle;
  }

  /** The k-th of a run of failures within one window blocks for at least the k-th penalty. */
  lemma BlockEarned(h: History, now: Time, i: nat, j: nat)
    requires Chronicle(h, now) && i <= j < |h| && h[j] - h[i] < WINDOW && j - i + 1 >= THRESHOLD
    ensures BlockEnd(h[..j + 1]) >= h[j] + Penalty(j - i + 1)
  {
    ChroniclePrefix(h, now, j);
    LastEarns(h[..j + 1], i);
  }

  /** So, for a caller who waits, the next failure comes after that. */
  lemma BlockAfter(h: History, i: nat, j: nat)
    requires |h| > 0 && Patient(h) && Chronicle(h, h[|h| - 1])
    requires i <= j && j + 1 < |h| && h[j] - h[i] < WINDOW
    requires j - i + 1 >= THRESHOLD
    ensures h[j + 1] >= h[j] + Penalty(j - i + 1)
  {
    BlockEarned(h, h[|h| - 1], i, j);
    hide Penalty;
    hide BlockEnd;
    hide Chronicle;
    assert BlockEnd(h[..j + 1]) <= h[j + 1];
  }

  /** The four and eight minutes earned by the 12th and 13th failure push a 14th out of the window. */
  lemma FourteenthIsOutside(h: History, i: nat)
    requires Patient(h) && |h| > 0 && Chronicle(h, h[|h| - 1]) && i + 13 < |h|
    ensures forall j :: i + 13 <= j < |h| ==> h[j] - h[i] >= WINDOW
  {
    assert forall j :: i + 13 <= j < |h| ==> h[i + 13] <= h[j];
    assert Power2(2) == 4 && Power2(3) == 8;
    assert h[i] <= h[i + 11] <= h[i + 12] <= h[i + 13];
    if h[i + 12] - h[i] < WINDOW {
      BlockAfter(h, i, i + 11);
      BlockAfter(h, i, i + 12);
    }
  }

  /** How many failures of a history lie in the window that begins at from. */
  function FailuresIn(h: History, from: Time): nat {
    if h == [] then 0
    else FailuresIn(h[..|h| - 1], from) + (if from <= h[|h| - 1] < from + WINDOW then 1 else 0)
  }

  /** Two failures in the window that are as far apart in the history as there are failures between them. */
  lemma {:induction false} Span(h: History, from: Time) returns (i: nat, j: nat)
    requires FailuresIn(h, from) > 0
    ensures i <= j < |h| && j - i + 1 >= FailuresIn(h, from)
    ensures from <= h[i] < from + WINDOW && from <= h[j] < from + WINDOW
  {
    var front, last := h[..|h| - 1], h[|h| - 1];
    if FailuresIn(front, from) > 0 {
      i, j := Span(front, from);
      if from <= last < from + WINDOW {
        j := |h| - 1;
      }
    } else {
      i, j := |h| - 1, |h| - 1;
    }
  }

  lemma AtMostThirteen(h: History, from: Time)
    requires |h| > 0 && Patient(h) && Chronicle(h, h[|h| - 1])
    ensures FailuresIn(h, from) <= 13
  {
    if FailuresIn(h, from) > 13 {
      var i, j := Span(h, from);
      FourteenthIsOutside(h, i);
      assert false;
    }
  }

  /** The count behind every penalty stays at 13 or less. */
  lemma CountAtMostThirteen(h: History)
    requires |h| > 0 && Patient(h) && Chronicle(h, h[|h| - 1])
    ensures FailuresWithin(h, h[|h| - 1]) <= 13
  {
    var last := h[|h| - 1];
    CountIsRecent(h, last);
    var cut := RecentIsSuffix(h, last);
    if |h| - cut > 13 {
      FourteenthIsOutside(h, cut);
      assert false;
    }
  }

  lemma ThirteenthPenalty(n: nat)
    requires n <= 13
    ensures Penalty(n) <= 8 * MINUTE
  {
    PenaltyGrows(n, 13);
    assert Power2(3) == 8;
  }

  lemma {:induction false} NoLongBlock(h: History)
    requires |h| > 0 && Patient(h) && Chronicle(h, h[|h| - 1])
    ensures BlockEnd(h) <= h[|h| - 1] + 8 * MINUTE
  {
    var front, last := h[..|h| - 1], h[|h| - 1];
    CountAtMostThirteen(h);
    ThirteenthPenalty(FailuresWithin(h, last));
    if front != [] {
      assert forall i :: 0 <= i < |front| ==> front[..i] == h[..i];
      NoLongBlock(front);
      assert front[|front| - 1] <= last;
    }
    hide FailuresWithin;
    hide Penalty;
  }

  /** What a caller who checks before it fails knows about one key. */
  ghost predicate Guarded(s: State, key: Key) {
    && Inv(s)
    && Patient(Of(s.kept, key))
    && |At(s.table, key).failures| <= 13
    && (key in s.cleared ==> BlockEnd(Of(s.kept, key)) <= s.cleared[key] <= s.clock)
  }

  /** A step of a run in which nobody fails key without a check that found it not blocked, one check for each failure. */
  ghost predicate GuardedNext(key: Key, s: State, e: Event, u: State) {
    Next(s, e, u) && (e.Fail? && e.key == key ==> key in s.cleared)
  }

  lemma PatientAppended(h: History, now: Time)
    requires Patient(h) && BlockEnd(h) <= now
    ensures Patient(h + [now])
  {
    var g := h + [now];
    forall i | 0 < i < |g| ensures BlockEnd(g[..i]) <= g[i] {
      assert g[..i] == h[..i];
      assert h[..|h|] == h;
    }
  }

  lemma RoomNeverAdds(t: Table, key: Key, now: Time, batch: set<Key>, k: Key)
    ensures |At(Roomy(t, key, now, batch), k).failures| <= |At(t, k).failures|
  {
    if k in t {
      var cut := RecentIsSuffix(t[k].failures, now);
    }
  }

  lemma GuardedFailure(e: Entry, h: History, now: Time)
    requires Knows(e, h, now) && Chronicle(h, now) && Patient(h) && BlockEnd(h) <= now
    ensures Patient(h + [now]) && |FailEntry(e, now).failures| <= 13
  {
    PatientAppended(h, now);
    FailureIsRecorded(e, h, now);
    CountAtMostThirteen(h + [now]);
    CountIsRecent(h + [now], now);
    RecentOfAppended(h, now);
  }

  lemma GuardedFailStep(s: State, key: Key, now: Time, batch: set<Key>, k: Key)
    requires Knows(At(s.table, k), Of(s.kept, k), now) && Chronicle(Of(s.kept, k), now)
    requires MayDrop(s.table, key, now, batch) && Patient(Of(s.kept, k)) && |At(s.table, k).failures| <= 13
    requires key == k ==> BlockEnd(Of(s.kept, k)) <= now
    ensures var kept := (s.kept - batch)[key := Of(s.kept - batch, key) + [now]];
            Patient(Of(kept, k)) && |At(FailIn(s.table, key, now, batch), k).failures| <= 13
            && (k != key ==> BlockEnd(Of(kept, k)) <= BlockEnd(Of(s.kept, k)))
  {
    RoomKeepsKnowledge(s.table, s.kept, key, now, batch, k);
    RoomNeverAdds(s.table, key, now, batch, k);
    NothingIsChronicle(now);
    hide Knows;
    hide Chronicle;
    hide Roomy;
    hide FailEntry;
    if k == key {
      GuardedFailure(At(Roomy(s.table, key, now, batch), k), Of(s.kept - batch, k), now);
    }
  }

  lemma FreeMeansOver(e: Entry, h: History, now: Time)
    requires Knows(e, h, now) && Left(e, now) == 0
    ensures BlockEnd(h) <= now
  {
  }

  lemma GuardedCheckStep(key: Key, s: State, k: Key, now: Time, u: State)
    requires Guarded(s, key) && Inv(u) && Next(s, Check(k, now), u)
    ensures Guarded(u, key)
  {
    KnownNow(s, key, now);
    hide Inv;
    hide Knows;
    hide Chronicle;
    hide Patient;
    hide BlockEnd;
    if k == key && Left(At(s.table, key), now) == 0 {
      FreeMeansOver(At(s.table, key), Of(s.kept, key), now);
    }
  }

  lemma GuardedStep(key: Key, s: State, e: Event, u: State)
    requires Guarded(s, key) && GuardedNext(key, s, e, u)
    ensures Guarded(u, key)
  {
    InvStep(s, e, u);
    match e
    case Check(k, now) =>
      GuardedCheckStep(key, s, k, now, u);
      hide Guarded;
    case Fail(k, now, batch) =>
      KnownNow(s, key, now);
      hide Inv;
      hide Knows;
      hide Chronicle;
      hide Patient;
      hide BlockEnd;
      hide Of;
      hide FailIn;
      hide MayDrop;
      GuardedFailStep(s, k, now, batch, key);
  }

  lemma ReachableGuarded(key: Key, s: State)
    requires Runs.Reachable(INITIAL, (s, e, u) => GuardedNext(key, s, e, u), s)
    ensures Guarded(s, key)
  {
    var guarded := (s: State) => Guarded(s, key);
    var next := (s, e, u) => GuardedNext(key, s, e, u);
    forall s, e, u | guarded(s) && next(s, e, u)
      ensures guarded(u)
    {
      GuardedStep(key, s, e, u);
    }
    hide Runs.Reachable;
    hide GuardedNext;
    assert guarded(INITIAL);
    hide Guarded;
    Runs.InvariantHolds(INITIAL, next, guarded, s);
  }

  lemma GuardedIsBounded(key: Key, s: State, from: Time)
    requires Guarded(s, key)
    ensures FailuresIn(Of(s.kept, key), from) <= 13
    ensures |At(s.table, key).failures| <= 13
    ensures Left(At(s.table, key), s.clock) <= 8 * MINUTE
  {
    KnownNow(s, key, s.clock);
    var h := Of(s.kept, key);
    if h != [] {
      AtMostThirteen(h, from);
      NoLongBlock(h);
    }
  }

  /**
   * Such a caller records at most 13 failures of an address in any ten
   * minutes since it was last given up in a batch; so the cap on the list
   * never hides a failure, and no block is longer than 8 minutes.
   */
  lemma GuardedCallerAtMostThirteen(key: Key, s: State, from: Time)
    requires Runs.Reachable(INITIAL, (s, e, u) => GuardedNext(key, s, e, u), s)
    ensures FailuresIn(Of(s.kept, key), from) <= 13
    ensures |At(s.table, key).failures| <= 13
    ensures Left(At(s.table, key), s.clock) <= 8 * MINUTE
  {
    ReachableGuarded(key, s);
    GuardedIsBounded(key, s, from);
    hide Runs.Reachable;
    hide Guarded;
  }
}

// What callers who check before they fail can record when their requests
// overlap: several have been checked and found free, and none has failed yet.
module ThrottleOverlap {
  import opened Common
  import opened Throttle
  import opened ThrottleRefinement
  import Runs

  /** open counts the requests of an address that were checked, found free, and are not over. */
  datatype World = World(s: State, open: map<Key, nat>)

  const START := World(ThrottleRefinement.INITIAL, map[])

  datatype Act =
    | Ask(key: Key, now: Time)
    | Wrong(key: Key, now: Time, batch: set<Key>)
    | Right(key: Key)

  function OpenOf(w: World, key: Key): nat {
    if key in w.open then w.open[key] else 0
  }

  ghost predicate Step(w: World, a: Act, v: World) {
    match a
    case Ask(key, now) =>
      && ThrottleRefinement.Next(w.s, Check(key, now), v.s)
      && v.open == if Left(At(w.s.table, key), now) == 0 then w.open[key := OpenOf(w, key) + 1] else w.open
    case Wrong(key, now, batch) =>
      && OpenOf(w, key) > 0 && ThrottleRefinement.Next(w.s, Fail(key, now, batch), v.s)
      && v.open == w.open[key := OpenOf(w, key) - 1]
    case Right(key) =>
      OpenOf(w, key) > 0 && v == w.(open := w.open[key := OpenOf(w, key) - 1])
  }

  /** At most k requests of the address overlap. */
  ghost predicate AtMost(k: nat, key: Key, w: World, a: Act, v: World) {
    Step(w, a, v) && OpenOf(v, key) <= k
  }

  ghost predicate Reachable(k: nat, key: Key, w: World) {
    Runs.Reachable(START, (w, a, v) => AtMost(k, key, w, a, v), w)
  }

  // The bound.

  /** c failures within one window, from i on, the last of which blocks. */
  ghost predicate Burst(h: History, i: int, c: int) {
    0 <= i && THRESHOLD <= c && i + c <= |h| && h[i + c - 1] - h[i] < WINDOW
  }

  /** When the block ends that the last of a burst begins. */
  ghost function EndOf(h: History, i: int, c: int): Time
    requires Burst(h, i, c)
  {
    h[i + c - 1] + Penalty(c)
  }

  /** During that block only k - 1 can follow: those that were checked before it. */
  ghost predicate BurstsEnd(h: History, k: nat) {
    forall i, j, c :: Burst(h, i, c) && i + c <= j < |h| && h[j] < EndOf(h, i, c) ==> j - (i + c) + 1 <= k - 1
  }

  /** While it lasts, those that followed and those still to follow are k - 1 at most. */
  ghost predicate StillToCome(h: History, open: nat, now: Time, k: nat) {
    forall i, c :: Burst(h, i, c) && now < EndOf(h, i, c) ==> |h| - (i + c) + open <= k - 1
  }

  ghost predicate HistoryOk(h: History, open: nat, now: Time, k: nat) {
    BurstsEnd(h, k) && StillToCome(h, open, now, k) && open <= k
  }

  lemma BurstBlocks(h: History, now: Time, i: int, c: int)
    requires Chronicle(h, now) && Burst(h, i, c)
    ensures BlockEnd(h) >= EndOf(h, i, c)
  {
    BlockEarned(h, now, i, i + c - 1);
    BlockStays(h, i + c);
    hide Penalty;
    hide BlockEnd;
  }

  /** A check that finds the address free is made outside every burst's block. */
  lemma AskedOk(e: Entry, h: History, open: nat, now: Time, later: Time, k: nat)
    requires Chronicle(h, later) && Knows(e, h, later) && HistoryOk(h, open, now, k) && now <= later
    requires Left(e, later) == 0 ==> open + 1 <= k
    ensures HistoryOk(h, if Left(e, later) == 0 then open + 1 else open, later, k)
  {
    if Left(e, later) == 0 {
      FreeMeansOver(e, h, later);
      forall i, c | Burst(h, i, c) ensures EndOf(h, i, c) <= later {
        BurstBlocks(h, later, i, c);
      }
    }
    hide Knows;
    hide BlockEnd;
    hide Penalty;
  }

  lemma BurstBefore(h: History, now: Time, i: int, c: int)
    requires Burst(h + [now], i, c)
    ensures i + c <= |h| ==> Burst(h, i, c) && EndOf(h, i, c) == EndOf(h + [now], i, c)
    ensures i + c > |h| ==> i + c == |h| + 1
  {
    hide Penalty;
  }

  lemma FailedOk(h: History, open: nat, now: Time, later: Time, k: nat)
    requires HistoryOk(h, open, now, k) && now <= later && open > 0
    ensures HistoryOk(h + [later], open - 1, later, k)
  {
    var g := h + [later];
    hide Penalty;
    forall i, j, c | Burst(g, i, c) && i + c <= j < |g| && g[j] < EndOf(g, i, c) ensures j - (i + c) + 1 <= k - 1 {
      BurstBefore(h, later, i, c);
      if j < |h| {
        assert g[j] == h[j];
      }
    }
    forall i, c | Burst(g, i, c) && later < EndOf(g, i, c) ensures |g| - (i + c) + (open - 1) <= k - 1 {
      BurstBefore(h, later, i, c);
    }
  }

  lemma ForgottenOk(open: nat, now: Time, k: nat)
    requires open <= k
    ensures HistoryOk([], open, now, k)
  {
  }

  ghost predicate WorldOk(w: World, k: nat, key: Key) {
    Inv(w.s) && HistoryOk(Of(w.s.kept, key), OpenOf(w, key), w.s.clock, k)
  }

  lemma LaterOk(h: History, open: nat, now: Time, later: Time, k: nat)
    requires HistoryOk(h, open, now, k) && now <= later
    ensures HistoryOk(h, open, later, k)
  {
  }

  lemma WrongStep(w: World, k: nat, key: Key, x: Key, now: Time, batch: set<Key>, v: World)
    requires WorldOk(w, k, key) && AtMost(k, key, w, Wrong(x, now, batch), v)
    ensures HistoryOk(Of(v.s.kept, key), OpenOf(v, key), v.s.clock, k)
  {
    OfAfter(w.s.kept, batch, x, now, key);
    hide Inv;
    hide MayDrop;
    hide FailIn;
    var h, open := Of(w.s.kept, key), OpenOf(w, key);
    ForgottenOk(open, w.s.clock, k);
    if x == key {
      FailedOk(h, open, w.s.clock, now, k);
      FailedOk([], open, w.s.clock, now, k);
    } else {
      LaterOk(h, open, w.s.clock, now, k);
      LaterOk([], open, w.s.clock, now, k);
    }
    hide HistoryOk;
  }

  lemma AskStep(w: World, k: nat, key: Key, x: Key, now: Time, v: World)
    requires WorldOk(w, k, key) && AtMost(k, key, w, Ask(x, now), v)
    ensures HistoryOk(Of(v.s.kept, key), OpenOf(v, key), v.s.clock, k)
  {
    KnownNow(w.s, key, now);
    hide Inv;
    hide Knows;
    hide Chronicle;
    hide HistoryOk;
    var h, open := Of(w.s.kept, key), OpenOf(w, key);
    if x == key {
      AskedOk(At(w.s.table, key), h, open, w.s.clock, now, k);
    } else {
      LaterOk(h, open, w.s.clock, now, k);
    }
  }

  lemma WorldStep(w: World, k: nat, key: Key, a: Act, v: World)
    requires WorldOk(w, k, key) && AtMost(k, key, w, a, v)
    ensures WorldOk(v, k, key)
  {
    match a
    case Ask(x, now) =>
      InvStep(w.s, Check(x, now), v.s);
      AskStep(w, k, key, x, now, v);
    case Wrong(x, now, batch) =>
      InvStep(w.s, Fail(x, now, batch), v.s);
      WrongStep(w, k, key, x, now, batch, v);
    case Right(x) =>
  }

  lemma StartOk(k: nat, key: Key)
    ensures WorldOk(START, k, key)
  {
    ForgottenOk(0, 0, k);
    Runs.InitReachable(ThrottleRefinement.INITIAL, ThrottleRefinement.Next);
    ReachableInv(ThrottleRefinement.INITIAL);
  }

  lemma ReachableOk(k: nat, key: Key, w: World)
    requires Reachable(k, key, w)
    ensures WorldOk(w, k, key)
  {
    var next := (w, a, v) => AtMost(k, key, w, a, v);
    var ok := (w: World) => WorldOk(w, k, key);
    StartOk(k, key);
    forall w, a, v | ok(w) && next(w, a, v) ensures ok(v) {
      WorldStep(w, k, key, a, v);
    }
    Runs.InvariantHolds(START, next, ok, w);
  }

  /** The most that ten minutes can hold. */
  function Most(k: nat): nat {
    if k <= 2 then 12 + k else 13 + k
  }

  lemma Penalties()
    ensures Penalty(10) == MINUTE && Penalty(11) == 2 * MINUTE && Penalty(12) == 4 * MINUTE
    ensures Penalty(13) == 8 * MINUTE && Penalty(14) == 15 * MINUTE
  {
    assert Power2(0) == 1;
    assert Power2(1) == 2 * Power2(0);
    assert Power2(2) == 2 * Power2(1);
    assert Power2(3) == 2 * Power2(2);
    assert Power2(4) == 2 * Power2(3);
  }

  /** After c failures within one window the next but k - 1 waits for the end of the block. */
  lemma NextWaits(h: History, k: nat, i: nat, c: nat)
    requires BurstsEnd(h, k) && k > 0 && Burst(h, i, c) && i + c + k - 1 < |h|
    ensures h[i + c + k - 1] >= EndOf(h, i, c)
  {
    hide Burst;
    hide EndOf;
  }

  lemma SpanBound(h: History, k: nat, i: nat, j: nat)
    requires BurstsEnd(h, k) && k > 0 && |h| > 0 && Chronicle(h, h[|h| - 1])
    requires i <= j < |h| && h[j] - h[i] < WINDOW
    ensures j - i + 1 <= Most(k)
  {
    Penalties();
    hide Penalty;
    hide BurstsEnd;
    if j - i + 1 > Most(k) {
      assert forall m :: i <= m <= j ==> h[i] <= h[m] <= h[j];
      if k == 1 {
        NextWaits(h, k, i, 12);
        NextWaits(h, k, i, 13);
      } else if k == 2 {
        NextWaits(h, k, i, 11);
        NextWaits(h, k, i, 13);
      } else {
        NextWaits(h, k, i, 14);
      }
      assert false;
    }
  }

  lemma BurstsBound(h: History, k: nat, from: Time)
    requires BurstsEnd(h, k) && k > 0 && |h| > 0 && Chronicle(h, h[|h| - 1])
    ensures FailuresIn(h, from) <= Most(k)
  {
    if FailuresIn(h, from) > 0 {
      var i, j := Span(h, from);
      SpanBound(h, k, i, j);
    }
  }

  /** With at most k requests of the address at a time, ten minutes hold 13 of its failures for one, 14 for two, and 13 + k for more, at most. */
  lemma OverlapIsBounded(k: nat, key: Key, w: World, from: Time)
    requires Reachable(k, key, w) && k > 0
    ensures FailuresIn(Of(w.s.kept, key), from) <= Most(k)
  {
    ReachableOk(k, key, w);
    KnownNow(w.s, key, w.s.clock);
    hide Inv;
    hide Knows;
    var h := Of(w.s.kept, key);
    if h != [] {
      BurstsBound(h, k, from);
    }
  }

  // The bound is met.

  function Times(n: nat, at: Time): History {
    seq(n, _ => at)
  }

  /** open requests of the address are under way, h is what it failed, and the table has no other. */
  ghost predicate Busy(k: nat, key: Key, w: World, h: History, open: nat) {
    && Reachable(k, key, w) && OpenOf(w, key) == open <= k
    && Of(w.s.kept, key) == h && w.s.table.Keys <= {key}
  }

  lemma Acted(k: nat, key: Key, w: World, a: Act, v: World)
    requires Reachable(k, key, w) && AtMost(k, key, w, a, v)
    ensures Reachable(k, key, v)
  {
    Runs.StepReachable(START, (w, a, v) => AtMost(k, key, w, a, v), w, a, v);
  }

  /** n requests are checked and found free. */
  lemma {:induction false} AskMany(k: nat, key: Key, w: World, now: Time, n: nat) returns (v: World)
    requires Reachable(k, key, w) && w.s.clock <= now && OpenOf(w, key) + n <= k && n > 0
    requires Left(At(w.s.table, key), now) == 0
    ensures Reachable(k, key, v) && OpenOf(v, key) == OpenOf(w, key) + n && v.s.clock == now
    ensures v.s.table == w.s.table && v.s.kept == w.s.kept
    decreases n
  {
    v := World(w.s.(clock := now, cleared := w.s.cleared[key := now]), w.open[key := OpenOf(w, key) + 1]);
    Acted(k, key, w, Ask(key, now), v);
    hide Reachable;
    if n > 1 {
      v := AskMany(k, key, v, now, n - 1);
    }
  }

  /** n of them fail. */
  lemma {:induction false} FailMany(k: nat, key: Key, w: World, n: nat) returns (v: World)
    requires Reachable(k, key, w) && OpenOf(w, key) >= n && w.s.table.Keys <= {key} && OpenOf(w, key) <= k
    ensures Reachable(k, key, v) && OpenOf(v, key) == OpenOf(w, key) - n && v.s.clock == w.s.clock
    ensures v.s.table.Keys <= {key} && Of(v.s.kept, key) == Of(w.s.kept, key) + Times(n, w.s.clock)
    decreases n
  {
    v := w;
    if n > 0 {
      v := FailOne(k, key, w);
      var h, now := Of(w.s.kept, key), w.s.clock;
      hide Reachable;
      v := FailMany(k, key, v, n - 1);
      assert (h + [now]) + Times(n - 1, now) == h + Times(n, now);
    }
  }

  lemma FailOne(k: nat, key: Key, w: World) returns (v: World)
    requires Reachable(k, key, w) && 0 < OpenOf(w, key) <= k && w.s.table.Keys <= {key}
    ensures Reachable(k, key, v) && OpenOf(v, key) == OpenOf(w, key) - 1 && v.s.clock == w.s.clock
    ensures v.s.table.Keys <= {key} && Of(v.s.kept, key) == Of(w.s.kept, key) + [w.s.clock]
  {
    var now, s := w.s.clock, w.s;
    RoomForOne(s.table, key, now);
    assert s.kept - {} == s.kept && s.dropped + {} == s.dropped;
    hide MayDrop;
    hide FailIn;
    var u := State(
      FailIn(s.table, key, now, {}), now, s.full[key := Of(s.full, key) + [now]],
      s.kept[key := Of(s.kept, key) + [now]], s.dropped, s.cleared - {key});
    v := World(u, w.open[key := OpenOf(w, key) - 1]);
    Acted(k, key, w, Wrong(key, now, {}), v);
    hide Reachable;
  }

  lemma RoomForOne(t: Table, key: Key, now: Time)
    requires t.Keys <= {key}
    ensures MayDrop(t, key, now, {}) && FailIn(t, key, now, {}).Keys <= {key}
  {
    if t.Keys != {} {
      assert key in t.Keys;
    } else {
      assert |t| == |t.Keys| == 0;
    }
  }

  /** n more requests are checked while the address is free, and m of those under way fail. */
  lemma Wave(k: nat, key: Key, w: World, h: History, open: nat, now: Time, n: nat, m: nat) returns (v: World)
    requires Busy(k, key, w, h, open) && w.s.clock <= now && BlockEnd(h) <= now
    requires 0 < n && m <= open + n <= k
    ensures Busy(k, key, v, h + Times(m, now), open + n - m) && v.s.clock == now
  {
    ReachableOk(k, key, w);
    KnownNow(w.s, key, now);
    KnowsLeft(At(w.s.table, key), h, now);
    hide WorldOk;
    hide Knows;
    hide Reachable;
    var u := AskMany(k, key, w, now, n);
    v := FailMany(k, key, u, m);
  }

  lemma {:induction false} WithinIsFew(h: History, at: Time)
    ensures FailuresWithin(h, at) <= |h|
  {
    if h != [] {
      WithinIsFew(h[..|h| - 1], at);
    }
  }

  /** A block lasts no longer than if all failures counted for it. */
  lemma {:induction false} BlockEndsBy(h: History, now: Time)
    requires Chronicle(h, now)
    ensures BlockEnd(h) <= now + Penalty(|h|)
  {
    if h != [] {
      var n, last := |h|, h[|h| - 1];
      BlockEndsBy(h[..n - 1], last);
      WithinIsFew(h, last);
      PenaltyGrows(n - 1, n);
      PenaltyGrows(FailuresWithin(h, last), n);
      hide Penalty;
      hide FailuresWithin;
    }
  }

  lemma TimesIsChronicle(n: nat, at: Time)
    ensures Chronicle(Times(n, at), at)
  {
  }

  lemma ChronicleGoesOn(h: History, was: Time, n: nat, now: Time)
    requires Chronicle(h, was) && was <= now
    ensures Chronicle(h + Times(n, now), now)
  {
  }

  lemma NoPenaltyYet(n: nat)
    requires n < THRESHOLD
    ensures Penalty(n) == 0
  {
  }

  /** Nine in the first moment, one by one: none of them blocks. */
  lemma {:induction false} OneByOne(k: nat, key: Key, n: nat) returns (w: World)
    requires k > 0 && n < THRESHOLD
    ensures Busy(k, key, w, Times(n, 0), 0) && w.s.clock == 0
  {
    if n == 0 {
      Runs.InitReachable(START, (w, a, v) => AtMost(k, key, w, a, v));
      w := START;
    } else {
      w := OneByOne(k, key, n - 1);
      NoPenaltyYet(n - 1);
      TimesIsChronicle(n - 1, 0);
      BlockEndsBy(Times(n - 1, 0), 0);
      hide Busy;
      hide Penalty;
      hide BlockEnd;
      w := Wave(k, key, w, Times(n - 1, 0), 0, 0, 1, 1);
      assert Times(n - 1, 0) + Times(1, 0) == Times(n, 0);
    }
  }

  /** Ten in the first moment, when some more have been checked. */
  lemma Ten(k: nat, key: Key, held: nat) returns (w: World)
    requires held < k
    ensures Busy(k, key, w, Times(10, 0), held) && w.s.clock == 0
  {
    w := OneByOne(k, key, 9);
    NoPenaltyYet(9);
    TimesIsChronicle(9, 0);
    BlockEndsBy(Times(9, 0), 0);
    hide Busy;
    hide Penalty;
    hide BlockEnd;
    w := Wave(k, key, w, Times(9, 0), 0, 0, held + 1, 1);
    assert Times(9, 0) + Times(1, 0) == Times(10, 0);
  }

  /** The next wave, as soon as the block is over that as many failures bring at most. */
  lemma NextWave(k: nat, key: Key, w: World, h: History, open: nat, was: Time, now: Time, n: nat, m: nat) returns (v: World)
    requires Busy(k, key, w, h, open) && w.s.clock == was && Chronicle(h, was) && was + Penalty(|h|) <= now
    requires 0 < n && m <= open + n <= k
    ensures Busy(k, key, v, h + Times(m, now), open + n - m) && v.s.clock == now
    ensures Chronicle(h + Times(m, now), now)
  {
    BlockEndsBy(h, was);
    ChronicleGoesOn(h, was, m, now);
    hide Busy;
    hide Penalty;
    hide BlockEnd;
    v := Wave(k, key, w, h, open, now, n, m);
  }

  /** For one or two at a time: one each after one, three and seven minutes, and the second, if there is one, with the last. */
  lemma FewAtATime(k: nat, key: Key) returns (w: World, h: History)
    requires 1 <= k <= 2
    ensures Busy(k, key, w, h, 0) && |h| == 12 + k && forall i :: 0 <= i < |h| ==> h[i] <= 7 * MINUTE
  {
    w := Ten(k, key, k - 1);
    h := Times(10, 0);
    Penalties();
    TimesIsChronicle(10, 0);
    hide Busy;
    hide Penalty;
    w := NextWave(k, key, w, h, k - 1, 0, MINUTE, 1, 1);
    h := h + Times(1, MINUTE);
    w := NextWave(k, key, w, h, k - 1, MINUTE, 3 * MINUTE, 1, 1);
    h := h + Times(1, 3 * MINUTE);
    w := NextWave(k, key, w, h, k - 1, 3 * MINUTE, 7 * MINUTE, 1, k);
    h := h + Times(k, 7 * MINUTE);
  }

  /** For more: the eleventh to the thirteenth together after one minute, and k more after nine. */
  lemma ManyAtATime(k: nat, key: Key) returns (w: World, h: History)
    requires 3 <= k
    ensures Busy(k, key, w, h, 0) && |h| == 13 + k && forall i :: 0 <= i < |h| ==> h[i] <= 9 * MINUTE
  {
    w := Ten(k, key, 2);
    h := Times(10, 0);
    Penalties();
    TimesIsChronicle(10, 0);
    hide Busy;
    hide Penalty;
    w := NextWave(k, key, w, h, 2, 0, MINUTE, 1, 3);
    h := h + Times(3, MINUTE);
    w := NextWave(k, key, w, h, 0, MINUTE, 9 * MINUTE, k, k);
    h := h + Times(k, 9 * MINUTE);
  }

  lemma {:induction false} AllIn(h: History, from: Time)
    requires forall i :: 0 <= i < |h| ==> from <= h[i] < from + WINDOW
    ensures FailuresIn(h, from) == |h|
  {
    if h != [] {
      AllIn(h[..|h| - 1], from);
    }
  }

  /** For every k there is a run that has so many in its first ten minutes. */
  lemma OverlapBoundIsMet(k: nat, key: Key) returns (w: World)
    requires k > 0
    ensures Reachable(k, key, w) && FailuresIn(Of(w.s.kept, key), 0) == Most(k)
  {
    var h;
    if k <= 2 {
      w, h := FewAtATime(k, key);
    } else {
      w, h := ManyAtATime(k, key);
    }
    AllIn(h, 0);
    hide FailuresIn;
  }
}

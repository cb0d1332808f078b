// The pairing stream of the admin socket (handlePair in
// agent/internal/admin/admin.go): one handler for each pairing, each waiting
// for its channel, its timer and the end of its request at the same time.
module PairStream {
  import opened Common
  import opened Pairing
  import opened PairingRuns
  import Runs

  /** The lines of a stream; what else a line carries is left out. */
  datatype Line = Started | Ending(result: Result)

  datatype Stage =
    | Selecting
    | TimedOut                     // the timer's case was chosen, Expire comes next
    | Left                         // the case of the request's end was chosen, Cancel comes next
    | Draining(left: bool)         // the second receive comes next
    | Received(result: Result, left: bool)
    | Over(left: bool)

  /** The case that the select chose. */
  datatype Chosen = NoneYet | TheResult | TheTimer | TheRequest

  datatype Handler = Handler(stage: Stage, lines: seq<Line>, chosen: Chosen)

  /** A handler goes by the id of its pairing; received counts what it took off its channel. */
  datatype World = World(s: State, handlers: map<PairingId, Handler>, received: map<PairingId, nat>)

  const START := World(PairingRuns.INITIAL, map[], map[])

  datatype Act =
    | Begin(p: Pairing)
    | Phone(now: Time, a: Attempt, luck: Luck)
    | FirstReceive(id: PairingId)
    | TimerFires(id: PairingId)
    | RequestEnds(id: PairingId)
    | CallExpire(id: PairingId)
    | CallCancel(id: PairingId)
    | SecondReceive(id: PairingId)
    | Finish(id: PairingId)

  /** What lies in the one slot of the channel, or nothing. */
  function Buffered(w: World, id: PairingId): seq<Result> {
    var sent := SentTo(w.s.book, id);
    var n := if id in w.received then w.received[id] else 0;
    if n <= |sent| then sent[n..] else []
  }

  predicate InStage(w: World, id: PairingId, stage: Stage) {
    id in w.handlers && w.handlers[id].stage == stage
  }

  function SetStage(w: World, id: PairingId, stage: Stage): World
    requires id in w.handlers
  {
    w.(handlers := w.handlers[id := w.handlers[id].(stage := stage)])
  }

  /** The select takes one of its cases. */
  function Choose(w: World, id: PairingId, chosen: Chosen): World
    requires id in w.handlers
  {
    w.(handlers := w.handlers[id := w.handlers[id].(chosen := chosen)])
  }

  function Take(w: World, id: PairingId, left: bool): World
    requires id in w.handlers && Buffered(w, id) != []
  {
    var n := if id in w.received then w.received[id] else 0;
    SetStage(w, id, Received(Buffered(w, id)[0], left)).(received := w.received[id := n + 1])
  }

  /** The lines after the result is known: nothing more when the request has ended without a device. */
  function LinesAfter(lines: seq<Line>, result: Result, left: bool): seq<Line> {
    if left && result.outcome != Paired then lines else lines + [Ending(result)]
  }

  ghost predicate StepTo(w: World, a: Act, v: World) {
    match a
    case Begin(p) =>
      && PairingRuns.Next(w.s, Start(p), v.s)
      && v == World(v.s, w.handlers[p.id := Handler(Selecting, [Started], NoneYet)], w.received)
    case Phone(now, a, luck) =>
      PairingRuns.Next(w.s, Redeem(now, a, luck), v.s) && v == w.(s := v.s)
    case FirstReceive(id) =>
      InStage(w, id, Selecting) && Buffered(w, id) != [] && v == Take(Choose(w, id, TheResult), id, false)
    case TimerFires(id) => InStage(w, id, Selecting) && v == SetStage(Choose(w, id, TheTimer), id, TimedOut)
    case RequestEnds(id) => InStage(w, id, Selecting) && v == SetStage(Choose(w, id, TheRequest), id, Left)
    case CallExpire(id) =>
      && InStage(w, id, TimedOut) && PairingRuns.Next(w.s, Expire(id), v.s)
      && v == SetStage(w, id, Draining(false)).(s := v.s)
    case CallCancel(id) =>
      && InStage(w, id, Left) && PairingRuns.Next(w.s, Cancel(id), v.s)
      && v == SetStage(w, id, Draining(true)).(s := v.s)
    case SecondReceive(id) =>
      && id in w.handlers && w.handlers[id].stage.Draining? && Buffered(w, id) != []
      && v == Take(w, id, w.handlers[id].stage.left)
    case Finish(id) =>
      && id in w.handlers && w.handlers[id].stage.Received?
      && var h := w.handlers[id];
         v == w.(handlers := w.handlers[id := Handler(Over(h.stage.left), LinesAfter(h.lines, h.stage.result, h.stage.left), h.chosen)])
  }

  ghost predicate Reachable(w: World) {
    Runs.Reachable(START, StepTo, w)
  }

  /** Whether the handler has taken the result of its pairing. */
  predicate HasReceived(h: Handler) {
    h.stage.Received? || h.stage.Over?
  }

  predicate WasCancelled(s: State, id: PairingId) {
    |SentTo(s.book, id)| == 1 && SentTo(s.book, id)[0].outcome == Cancelled
  }

  /** Where a handler is, by the case that was chosen; only the end of its request makes it leave. */
  predicate ChosenOk(h: Handler) {
    match h.stage
    case Selecting => h.chosen == NoneYet
    case TimedOut => h.chosen == TheTimer
    case Left => h.chosen == TheRequest
    case Draining(left) => h.chosen == if left then TheRequest else TheTimer
    case Received(_, left) => h.chosen != NoneYet && (left <==> h.chosen == TheRequest)
    case Over(left) => h.chosen != NoneYet && (left <==> h.chosen == TheRequest)
  }

  ghost predicate HandlerOk(w: World, id: PairingId) {
    && (id in w.handlers <==> id in w.s.started)
    && (id !in w.handlers ==> id !in w.received)
    && (id in w.handlers ==>
          var h := w.handlers[id];
          && (id in w.received <==> HasReceived(h))
          && (id in w.received ==> w.received[id] == 1 && |SentTo(w.s.book, id)| == 1)
          && (h.stage.Draining? ==> !IsPending(w.s, id))
          && ChosenOk(h)
          // Only the handler itself cancels, on its way out.
          && (WasCancelled(w.s, id) ==>
                (h.stage.Draining? || h.stage.Received? || h.stage.Over?) && h.stage.left)
          && (h.stage.Received? ==> Sent(w.s, id, h.stage.result))
          && (!h.stage.Over? ==> h.lines == [Started])
          && (h.stage.Over? ==> |SentTo(w.s.book, id)| == 1
                                && h.lines == LinesAfter([Started], SentTo(w.s.book, id)[0], h.stage.left)))
  }

  ghost predicate WorldOk(w: World) {
    Inv(w.s) && forall id :: HandlerOk(w, id)
  }

  /** Nothing is sent to a pairing that has its result. */
  lemma ResultStays(s: State, e: Event, u: State, id: PairingId)
    requires Inv(s) && PairingRuns.Next(s, e, u) && id in s.started
    ensures id in u.started
    ensures !IsPending(s, id) ==> !IsPending(u, id) && SentTo(u.book, id) == SentTo(s.book, id)
    ensures |SentTo(s.book, id)| == 1 ==> !IsPending(s, id)
    ensures WasCancelled(u, id) ==> WasCancelled(s, id) || e == Cancel(id)
  {
    assert PairingOk(s, id);
  }

  lemma EndIfEnds(b: Book, id: PairingId, r: Result)
    ensures EndIf(b, id, r).cur.Some? ==> EndIf(b, id, r).cur.value.pairing.id != id
  {
  }

  /** The manager moves and no handler does. */
  lemma ManagerMoves(w: World, e: Event, v: World, id: PairingId)
    requires WorldOk(w) && PairingRuns.Next(w.s, e, v.s) && v == w.(s := v.s) && !e.Start? && !e.Cancel?
    ensures HandlerOk(v, id)
  {
    assert HandlerOk(w, id);
    assert PairingOk(w.s, id);
    if id in w.s.started {
      ResultStays(w.s, e, v.s, id);
    }
  }

  lemma BeginStep(w: World, p: Pairing, v: World, id: PairingId)
    requires WorldOk(w) && StepTo(w, Begin(p), v)
    ensures HandlerOk(v, id)
  {
    assert HandlerOk(w, id);
    assert PairingOk(w.s, id);
    if id in w.s.started {
      ResultStays(w.s, Start(p), v.s, id);
    }
  }

  /** A handler ends its pairing, whether or not something else has done so before. */
  lemma EndStep(w: World, me: PairingId, left: bool, v: World, id: PairingId)
    requires WorldOk(w) && StepTo(w, if left then CallCancel(me) else CallExpire(me), v)
    ensures HandlerOk(v, id)
  {
    assert HandlerOk(w, id);
    var e := if left then Cancel(me) else Expire(me);
    if id in w.s.started {
      ResultStays(w.s, e, v.s, id);
    }
    EndIfEnds(w.s.book, me, if left then CANCELLED else EXPIRED);
  }

  lemma TakeStep(w: World, me: PairingId, left: bool, v: World, id: PairingId)
    requires WorldOk(w) && StepTo(w, if left then SecondReceive(me) else FirstReceive(me), v)
    ensures HandlerOk(v, id)
  {
    assert HandlerOk(w, id);
    assert PairingOk(w.s, id);
  }

  lemma HandlerStep(w: World, a: Act, v: World, id: PairingId)
    requires WorldOk(w) && StepTo(w, a, v)
    ensures HandlerOk(v, id)
  {
    match a
    case Begin(p) => BeginStep(w, p, v, id);
    case Phone(now, at, luck) => ManagerMoves(w, Redeem(now, at, luck), v, id);
    case CallExpire(me) => EndStep(w, me, false, v, id);
    case CallCancel(me) => EndStep(w, me, true, v, id);
    case FirstReceive(me) => TakeStep(w, me, false, v, id);
    case SecondReceive(me) => TakeStep(w, me, true, v, id);
    case _ => assert HandlerOk(w, id);
  }

  lemma WorldStep(w: World, a: Act, v: World)
    requires WorldOk(w) && StepTo(w, a, v)
    ensures WorldOk(v)
  {
    forall id ensures HandlerOk(v, id) {
      HandlerStep(w, a, v, id);
    }
    match a
    case Begin(p) => InvStep(w.s, Start(p), v.s);
    case Phone(now, at, luck) => InvStep(w.s, Redeem(now, at, luck), v.s);
    case CallExpire(me) => InvStep(w.s, Expire(me), v.s);
    case CallCancel(me) => InvStep(w.s, Cancel(me), v.s);
    case _ =>
  }

  lemma ReachableOk(w: World)
    requires Reachable(w)
    ensures WorldOk(w)
  {
    forall w, a, v | WorldOk(w) && StepTo(w, a, v)
      ensures WorldOk(v)
    {
      WorldStep(w, a, v);
    }
    Runs.InvariantHolds(START, StepTo, WorldOk, w);
  }

  /** A handler that has called Expire or Cancel finds a result waiting: its second receive never blocks. */
  lemma SecondReceiveNeverBlocks(w: World, id: PairingId)
    requires Reachable(w) && id in w.handlers && w.handlers[id].stage.Draining?
    ensures |Buffered(w, id)| == 1
  {
    ReachableOk(w);
    assert HandlerOk(w, id) && PairingOk(w.s, id);
  }

  /**
   * A finished stream is "started" and one ending, and the ending is never
   * "cancelled"; or it is "started" alone, exactly when the request ended and
   * nothing was stored. A stored device is always its last line.
   */
  lemma StreamIsComplete(w: World, id: PairingId)
    requires Reachable(w) && id in w.handlers && w.handlers[id].stage.Over?
    ensures var h := w.handlers[id];
            || (exists r :: h.lines == [Started, Ending(r)] && SentTo(w.s.book, id) == [r] && r.outcome != Cancelled)
            || (h.lines == [Started] && h.chosen == TheRequest && forall d :: !IsCreated(w.s, id, Some(d)))
    ensures w.handlers[id].chosen == TheRequest && (forall d :: !IsCreated(w.s, id, Some(d))) ==> w.handlers[id].lines == [Started]
    ensures forall d :: IsCreated(w.s, id, Some(d)) ==>
              w.handlers[id].lines == [Started, Ending(Result(Paired, Some(d)))]
  {
    ReachableOk(w);
    assert HandlerOk(w, id);
    var h, r := w.handlers[id], SentTo(w.s.book, id)[0];
    assert SentTo(w.s.book, id) == [r];
    if r.outcome == Paired {
      assert PairedMeansCreated(w.s, id);
      assert IsCreated(w.s, id, Some(r.device.value));
    }
    forall d | IsCreated(w.s, id, Some(d))
      ensures r == Result(Paired, Some(d))
    {
      StoredIsSent(w.s, id, d);
    }
  }
}

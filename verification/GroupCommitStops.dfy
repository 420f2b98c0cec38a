/** How the group-commit writer stops, and what a shutdown message that outlives its writer does to the next one
    (Runtime/wal_memory_manager.py). */
module GroupCommitStops {
  import opened Results
  import opened GroupCommit
  import opened GroupCommitRuns

  function Quiet(clock: Clock): Pass {
    Pass([], clock, None, {})
  }

  /** One action ends a live writer exactly when it is a `get` that finds a shutdown in front, or a look at the stop
      event once that is set. */
  lemma WriterEndsExactly(raw: RawSql, w: Manager, a: Action)
    requires w.alive
    ensures !Next(raw, w, a).alive <==>
            (a.Get? && Takes(w) && w.queue[0].ShutdownOp?) || (a.FlagCheck? && !w.waiting && w.stopping)
  {
  }

  // ---- After the stop event ----

  lemma StoppedStep(raw: RawSql, w: Manager, a: Action)
    requires w.stopping && !a.StartCall?
    ensures var after := Next(raw, w, a);
            after.stopping && (after.alive && after.waiting ==> w.alive && w.waiting) &&
            (a.Get? && Works(w) ==> !after.waiting)
  {
  }

  /** Once the stop event is set at most one more batch is taken, and only by a writer already at its `get`. */
  lemma {:induction false} AtMostOneBatchAfterStop(raw: RawSql, w: Manager, actions: seq<Action>)
    requires w.stopping && forall i :: 0 <= i < |actions| ==> !actions[i].StartCall?
    ensures After(raw, w, actions).stopping
    ensures var left := After(raw, w, actions);
            |Rounds(raw, w, actions)| + (if left.alive && left.waiting then 1 else 0) <=
            if w.alive && w.waiting then 1 else 0
  {
    if actions != [] {
      var n := |actions| - 1;
      assert forall i :: 0 <= i < n ==> actions[..n][i] == actions[i];
      AtMostOneBatchAfterStop(raw, w, actions[..n]);
      StoppedStep(raw, After(raw, w, actions[..n]), actions[n]);
    }
  }

  /** A writer blocked at an empty queue takes the shutdown itself: the stop leaves nothing behind. */
  lemma BlockedWriterTakesItsShutdown(raw: RawSql, w: Manager, clock: Clock)
    requires w.alive && w.waiting && w.queue == []
    ensures var after := Got(raw, ShutdownPut(w.(stopping := true)), Quiet(clock));
            !after.alive && after.queue == []
  {
    assert ShutdownPut(w.(stopping := true)).queue == [ShutdownOp];
  }

  /** A writer that reads the stop event instead leaves every message where it is. */
  lemma FlaggedWriterLeavesItsShutdown(w: Manager)
    requires w.alive && !w.waiting
    ensures var after := FlagChecked(ShutdownPut(w.(stopping := true)));
            !after.alive && after.queue == w.queue + [ShutdownOp]
  {
  }

  // ---- A stale shutdown ----

  /** The action belongs to no stop. */
  predicate NoStop(a: Action) {
    !a.StopSignal? && !a.StopMessage? && !a.StopEnd? && (a.Get? ==> !StopsIn(Flat(a.pass.arrivals)))
  }

  /** A full batch is followed by an empty one. */
  function Slot(filled: nat): nat {
    if filled >= BatchLimit then 0 else filled
  }

  function Further(place: Option<nat>, n: nat): Option<nat> {
    if place.None? then None else Some(place.value + n)
  }

  /** The place of the first shutdown that a `get` meets, when the current batch is filled that far: a shutdown inside a
      batch is swallowed and ends the batch, and after a full batch or an ended one the next message meets a `get`. */
  function Meets(queue: seq<WriteOp>, filled: nat): Option<nat> {
    if queue == [] then None
    else if queue[0].ShutdownOp? then if filled == 0 then Some(0) else Further(Meets(queue[1..], 0), 1)
    else Further(Meets(queue[1..], Slot(filled + 1)), 1)
  }

  lemma {:induction false} NoShutdownNoMeeting(queue: seq<WriteOp>, filled: nat)
    requires !StopsIn(queue)
    ensures Meets(queue, filled).None?
  {
    if queue != [] {
      assert !queue[0].ShutdownOp?;
      assert forall i :: 0 <= i < |queue| - 1 ==> queue[1..][i] == queue[i + 1];
      NoShutdownNoMeeting(queue[1..], Slot(filled + 1));
    }
  }

  lemma {:induction false} MeetsIgnoresLater(queue: seq<WriteOp>, more: seq<WriteOp>, filled: nat)
    requires !StopsIn(more)
    ensures Meets(queue + more, filled) == Meets(queue, filled)
  {
    if queue == [] {
      assert queue + more == more;
      NoShutdownNoMeeting(more, filled);
    } else {
      assert (queue + more)[1..] == queue[1..] + more;
      MeetsIgnoresLater(queue[1..], more, if queue[0].ShutdownOp? then 0 else Slot(filled + 1));
    }
  }

  lemma PartsHaveNoStops(a: seq<WriteOp>, b: seq<WriteOp>)
    requires !StopsIn(a + b)
    ensures !StopsIn(a) && !StopsIn(b)
  {
    assert forall i :: 0 <= i < |a| ==> (a + b)[i] == a[i];
    assert forall i :: 0 <= i < |b| ==> (a + b)[|a| + i] == b[i];
  }

  lemma NoStopsSplit(arrivals: seq<seq<WriteOp>>)
    requires !StopsIn(Flat(arrivals))
    ensures !StopsIn(First(arrivals)) && !StopsIn(Flat(Later(arrivals)))
  {
    if arrivals != [] { PartsHaveNoStops(arrivals[0], Flat(arrivals[1..])); }
  }

  /** A drain leaves the meeting where it was. */
  lemma {:induction false} DrainKeepsMeeting(batch: seq<WriteOp>, queue: seq<WriteOp>, arrivals: seq<seq<WriteOp>>)
    requires 0 < |batch| <= BatchLimit && !StopsIn(Flat(arrivals))
    ensures var d := Drain(batch, queue, arrivals);
            |TakenOf(d)| >= |batch| &&
            Meets(queue, Slot(|batch|)) ==
            Further(Meets(d.queue + Flat(d.arrivals), 0), |TakenOf(d)| - |batch|)
    decreases BatchLimit - |batch|
  {
    if |batch| >= BatchLimit {
      MeetsIgnoresLater(queue, Flat(arrivals), 0);
    } else {
      var now, later := queue + First(arrivals), Later(arrivals);
      NoStopsSplit(arrivals);
      MeetsIgnoresLater(queue, First(arrivals), |batch|);
      if now == [] {
        assert now + Flat(later) == Flat(later);
        NoShutdownNoMeeting(Flat(later), 0);
      } else if now[0].ShutdownOp? {
        MeetsIgnoresLater(now[1..], Flat(later), 0);
      } else {
        DrainKeepsMeeting(batch + [now[0]], now[1..], later);
      }
    }
  }

  /** Where a run stands that was to meet a shutdown at this place, after taking t messages. */
  ghost predicate Standing(w: Manager, place: Option<nat>, t: nat) {
    w.initialized && !w.stopping &&
    if w.alive then place == Further(Meets(w.queue, 0), t) else place.Some? && t > place.value
  }

  lemma GetStands(raw: RawSql, w: Manager, pass: Pass, place: Option<nat>, t: nat)
    requires Standing(w, place, t) && Takes(w) && !StopsIn(Flat(pass.arrivals))
    ensures Standing(Got(raw, w, pass), place, t + |Taking(w, Get(pass))|)
  {
    if Works(w) {
      DrainKeepsMeeting([w.queue[0]], w.queue[1..], pass.arrivals);
      WorkingPass(raw, w, pass);
    }
  }

  lemma ArrivalsStand(w: Manager, more: seq<WriteOp>, place: Option<nat>, t: nat)
    requires Standing(w, place, t) && !StopsIn(more)
    ensures Standing(w.(queue := w.queue + more), place, t)
    ensures Standing(w.(queue := w.queue + more, waiting := false), place, t)
  {
    MeetsIgnoresLater(w.queue, more, 0);
  }

  lemma NextStands(raw: RawSql, w: Manager, a: Action, place: Option<nat>, t: nat)
    requires Standing(w, place, t) && NoStop(a)
    ensures Standing(Next(raw, w, a), place, t + |Taking(w, a)|)
  {
    match a
    case EnqueueCall(op) =>
      if !op.ShutdownOp? { ArrivalsStand(w, [op], place, t); }
    case Get(pass) =>
      if Takes(w) { GetStands(raw, w, pass, place, t); } else { ArrivalsStand(w, Flat(pass.arrivals), place, t); }
    case _ =>
  }

  lemma {:induction false} RunStands(raw: RawSql, w: Manager, actions: seq<Action>)
    requires w.alive && w.initialized && !w.stopping
    requires forall i :: 0 <= i < |actions| ==> NoStop(actions[i])
    ensures Standing(After(raw, w, actions), Meets(w.queue, 0), |Taken(raw, w, actions)|)
  {
    if actions != [] {
      var n := |actions| - 1;
      assert forall i :: 0 <= i < n ==> actions[..n][i] == actions[i];
      RunStands(raw, w, actions[..n]);
      NextStands(raw, After(raw, w, actions[..n]), actions[n], Meets(w.queue, 0), |Taken(raw, w, actions[..n])|);
    }
  }

  /** Whatever shutdowns earlier stops have left in the queue: without another stop the new writer ends exactly when it
      has taken one that stands where a `get` meets it. */
  lemma LeftoversEndWriterExactly(raw: RawSql, w: Manager, actions: seq<Action>)
    requires w.alive && w.initialized && !w.stopping
    requires forall i :: 0 <= i < |actions| ==> NoStop(actions[i])
    ensures !After(raw, w, actions).alive <==>
            Meets(w.queue, 0).Some? && |Taken(raw, w, actions)| > Meets(w.queue, 0).value
  {
    RunStands(raw, w, actions);
  }

  /** The only shutdown of the queue stands at this position. */
  predicate StaleAt(queue: seq<WriteOp>, p: int) {
    0 <= p < |queue| && forall i :: 0 <= i < |queue| ==> (queue[i].ShutdownOp? <==> i == p)
  }

  lemma SlotStep(filled: nat, p: nat)
    requires filled < BatchLimit && p > 0
    ensures (Slot(filled + 1) + (p - 1)) % BatchLimit == (filled + p) % BatchLimit
  {
    if filled + 1 == BatchLimit {
      assert filled + p == BatchLimit + (p - 1);
    }
  }

  lemma {:induction false} SingleMeeting(queue: seq<WriteOp>, p: nat, filled: nat)
    requires StaleAt(queue, p) && filled < BatchLimit
    ensures Meets(queue, filled) == if (filled + p) % BatchLimit == 0 then Some(p) else None
    decreases p
  {
    if p == 0 {
      NoShutdownNoMeeting(queue[1..], 0);
    } else {
      assert !queue[0].ShutdownOp? && StaleAt(queue[1..], p - 1);
      SlotStep(filled, p);
      SingleMeeting(queue[1..], p - 1, Slot(filled + 1));
    }
  }

  lemma MeetingFromStart(queue: seq<WriteOp>, p: nat)
    requires StaleAt(queue, p)
    ensures Meets(queue, 0) == if p % BatchLimit == 0 then Some(p) else None
  {
    SingleMeeting(queue, p, 0);
  }

  /** A single shutdown left over from an earlier stop, p writes ahead in the queue, ends the new writer exactly when it
      is taken and p is a multiple of the batch size. Otherwise some batch swallows it and the writer lives on. */
  lemma StaleShutdownEndsWriterExactly(raw: RawSql, w: Manager, actions: seq<Action>, p: nat)
    requires w.alive && w.initialized && !w.stopping && StaleAt(w.queue, p)
    requires forall i :: 0 <= i < |actions| ==> NoStop(actions[i])
    ensures !After(raw, w, actions).alive <==> p % BatchLimit == 0 && |Taken(raw, w, actions)| > p
  {
    MeetingFromStart(w.queue, p);
    LeftoversEndWriterExactly(raw, w, actions);
  }

  /** The whole story with an idle writer: it reads the stop event before its queue, and the writer of the next start
      takes the message that was left and ends, with the manager counting as initialised. */
  lemma StaleShutdownEndsTheNextWriter(raw: RawSql, w: Manager, clock: Clock)
    requires w.alive && !w.waiting && w.queue == []
    ensures var ended := FlagChecked(ShutdownPut(w.(stopping := true))).(initialized := false);
            var after := Got(raw, FlagChecked(Started(ended)), Quiet(clock));
            !after.alive && after.initialized && !after.stopping && after.queue == []
  {
    FlaggedWriterLeavesItsShutdown(w);
  }

  lemma EndedStep(raw: RawSql, w: Manager, a: Action)
    requires !w.alive && w.initialized && !a.StopEnd?
    ensures var after := Next(raw, w, a); after.db == w.db && !after.alive && after.initialized
    ensures Taking(w, a) == []
  {
  }

  /** A writer that ended while the manager counts as initialised is never replaced: until a stop is completed nothing
      more is taken or stored, however much is enqueued and however often start is called. */
  lemma {:induction false} EndedWriterStoresNothing(raw: RawSql, w: Manager, actions: seq<Action>)
    requires !w.alive && w.initialized
    requires forall i :: 0 <= i < |actions| ==> !actions[i].StopEnd?
    ensures After(raw, w, actions).db == w.db && !After(raw, w, actions).alive && After(raw, w, actions).initialized
    ensures Taken(raw, w, actions) == []
  {
    if actions != [] {
      var n := |actions| - 1;
      assert forall i :: 0 <= i < n ==> actions[..n][i] == actions[i];
      EndedWriterStoresNothing(raw, w, actions[..n]);
      EndedStep(raw, After(raw, w, actions[..n]), actions[n]);
    }
  }

  // ---- The stop event and the next writer ----

  /** The event is set by a stop, and across a `get` exactly by one whose message arrived meanwhile. */
  lemma EventIsSetByStops(raw: RawSql, w: Manager, pass: Pass)
    ensures Got(raw, w, pass).stopping <==>
            w.stopping || exists i :: 0 <= i < |Flat(pass.arrivals)| && Flat(pass.arrivals)[i].ShutdownOp?
  {
  }

  /** Start makes a writer only where none runs and none is counted as running; queue, tables and futures stay. */
  lemma StartsOnlyAfterTheEnd(w: Manager)
    ensures if !w.alive && !w.initialized then
              Started(w) == Manager(w.queue, w.db, w.futures, true, false, false, true)
            else Started(w) == w
  {
  }
}

/**
 * Bounded drain of the delivery protocol: although a large queue is read from both ends in turn
 * and collectors keep appending, an event leaves the spool after a bounded number of completed
 * sender iterations that depends only on how many older events are queued.
 */
module Drain {
  import opened Contracts
  import opened Spool
  import opened Transport
  import opened Delivery
  import I = Ingestion

  predicate Queued(w: World, x: nat) {
    x in RowIds(w.spool.rows)
  }

  /** The event ids of the batch that the current iteration is about to settle. */
  function Busy(w: World): set<EventId> {
    match w.sender
    case Sending(records) => EventIds(Events(records))
    case Acknowledging(records, _) => EventIds(Events(records))
    case Quarantining(records, _) => EventIds(Events(records))
    case _ => {}
  }

  predicate MidIteration(w: World) {
    !w.sender.Idle? && !w.sender.Counted?
  }

  /** The keys up to x that the current iteration will not remove. */
  function Waiting(rows: seq<Row>, x: nat, busy: set<EventId>): set<nat> {
    set r | r in rows && r.id <= x && r.event.id !in busy :: r.id
  }

  /**
   * Iterations that may still complete before x is gone: two per waiting row, because at most every
   * other iteration reads from the newest end, one less when the next one surely reads the oldest.
   */
  function Potential(w: World, x: nat): int {
    var n := 2 * |Waiting(w.spool.rows, x, Busy(w))| - (if w.newestNext then 0 else 1);
    if !MidIteration(w) then n
    else if n + 1 < 1 then 1 else n + 1
  }

  /** Between acknowledging and quarantining, no old row with an acknowledged id is left. */
  predicate DrainInv(w: World, x: nat) {
    && x < w.spool.nextId
    && (w.sender.Quarantining? ==>
          forall r | r in w.spool.rows && r.id <= x :: r.event.id !in Acked(w.sender.response))
  }

  lemma WaitingShrinks(a: seq<Row>, b: seq<Row>, x: nat, busyA: set<EventId>, busyB: set<EventId>)
    requires forall r | r in b && r.id <= x && r.event.id !in busyB :: r in a && r.event.id !in busyA
    ensures |Waiting(b, x, busyB)| <= |Waiting(a, x, busyA)|
  {
    assert Waiting(b, x, busyB) <= Waiting(a, x, busyA);
    SubsetSize(Waiting(b, x, busyB), Waiting(a, x, busyA));
  }

  lemma SubsetSize(a: set<nat>, b: set<nat>)
    requires a <= b
    ensures |a| <= |b|
  {
    assert b == a + (b - a);
  }

  /** Only appends add rows, and they add them above x. */
  lemma OldRowsStay(cfg: Config, w: World, step: Step, x: nat)
    requires Inv(cfg, w) && x < w.spool.nextId
    ensures var w' := Apply(cfg, w, step);
            && w.spool.nextId <= w'.spool.nextId
            && (forall r | r in w'.spool.rows && r.id <= x :: r in w.spool.rows)
  {
    match step
    case Append(batch, _) => AppendedAbove(w.spool, batch);
    case Refuse(status) =>
      if w.sender.Sending? {
        QuarantineRule(w.spool, RefuseAll(w.sender.records, status));
      }
    case Quarantine =>
      if w.sender.Quarantining? {
        QuarantineRule(w.spool, Rejects(w.sender.response.rejected, w.sender.records));
      }
    case _ =>
  }

  lemma AppendedAbove(t: Tables, batch: seq<Encoded>)
    requires Valid(t)
    ensures t.nextId <= InsertAll(t, batch).nextId
    ensures forall r | r in InsertAll(t, batch).rows && r.id < t.nextId :: r in t.rows
  {
    InsertAllStays(t, batch);
    var u := InsertAll(t, batch);
    forall r | r in u.rows && r.id < t.nextId
      ensures r in t.rows
    {
      var i :| 0 <= i < |u.rows| && u.rows[i] == r;
      assert i < |t.rows|;
      assert u.rows[i] == t.rows[i];
    }
  }

  /** An iteration that reads from the oldest end takes the oldest row, so one row less waits. */
  lemma OldestFetched(cfg: Config, w: World, x: nat)
    requires Inv(cfg, w) && w.sender.Counted? && Queued(w, x)
    ensures var records := FetchBatch(w.spool.rows, w.sender.backfilling, w.newestNext);
            var waiting, left := Waiting(w.spool.rows, x, {}), Waiting(w.spool.rows, x, EventIds(Events(records)));
            && records != [] && |waiting| >= 1 && |left| <= |waiting|
            && (!(w.sender.backfilling && w.newestNext) ==> |left| <= |waiting| - 1)
  {
    var rows := w.spool.rows;
    var records := FetchBatch(rows, w.sender.backfilling, w.newestNext);
    var busy := EventIds(Events(records));
    var waiting, left := Waiting(rows, x, {}), Waiting(rows, x, busy);
    var row :| row in rows && row.id == x;
    BatchShape(rows, w.spool.nextId, if w.sender.backfilling then BACKFILL_EVENTS else NORMAL_EVENTS, BATCH_BYTES,
               w.sender.backfilling && w.newestNext);
    assert x in waiting;
    WaitingShrinks(rows, rows, x, {}, busy);
    SubsetSize({x}, waiting);
    if !(w.sender.backfilling && w.newestNext) {
      OldestLeaves(rows, w.spool.nextId, x, records);
    }
  }

  lemma OldestLeaves(rows: seq<Row>, nextId: nat, x: nat, records: seq<Row>)
    requires ValidRows(rows, nextId) && x in RowIds(rows)
    requires records != [] && |records| <= |rows| && records == rows[..|records|]
    ensures |Waiting(rows, x, EventIds(Events(records)))| <= |Waiting(rows, x, {})| - 1
  {
    var busy := EventIds(Events(records));
    var oldest := rows[0];
    RowHasId(records, records[0]);
    var i :| 0 <= i < |rows| && rows[i].id == x;
    assert oldest.id <= x;
    forall r | r in rows && r.id == oldest.id
      ensures r == oldest
    {
      KeysDetermineRows(rows, nextId, r, oldest);
    }
    assert oldest.id in Waiting(rows, x, {}) && oldest.id !in Waiting(rows, x, busy);
    SubsetSize(Waiting(rows, x, busy), Waiting(rows, x, {}) - {oldest.id});
  }

  /** Acknowledging and then quarantining a settled batch leaves none of its old rows behind. */
  lemma QuarantineFinishes(cfg: Config, w: World, x: nat)
    requires Inv(cfg, w) && DrainInv(w, x) && w.sender.Quarantining?
    ensures forall r | r in DoQuarantine(w, w.sender.records, w.sender.response).spool.rows && r.id <= x ::
              r in w.spool.rows && r.event.id !in Busy(w)
  {
    SettledIds(cfg, w);
    hide Inv, Busy, QuarantineAll, Rejects, Acked, RejectIds;
    QuarantineRule(w.spool, Rejects(w.sender.response.rejected, w.sender.records));
  }

  /** What is acknowledged and what is quarantined together are the ids of the batch. */
  lemma SettledIds(cfg: Config, w: World)
    requires Inv(cfg, w) && w.sender.Quarantining?
    ensures Valid(w.spool)
    ensures Acked(w.sender.response) + RejectIds(Rejects(w.sender.response.rejected, w.sender.records)) == Busy(w)
  {
    assert Settles(w.store.receipts, Events(w.sender.records), w.sender.response);
    RejectsAreNamed(w.sender.response.rejected, w.sender.records);
  }

  lemma RefuseFinishes(cfg: Config, w: World, status: string)
    requires Inv(cfg, w) && w.sender.Sending?
    ensures forall r | r in DoRefuse(w, w.sender.records, status).spool.rows :: r in w.spool.rows && r.event.id !in Busy(w)
  {
    RefuseIds(w.sender.records, status);
    hide Events, QuarantineAll, RefuseAll, RejectIds, EventIds;
    QuarantineRule(w.spool, RefuseAll(w.sender.records, status));
  }

  lemma AcknowledgeRemoves(cfg: Config, w: World)
    requires Inv(cfg, w) && w.sender.Acknowledging?
    ensures forall r | r in DoAcknowledge(w, w.sender.records, w.sender.response).spool.rows ::
              r in w.spool.rows && r.event.id !in Acked(w.sender.response)
  {
    AcknowledgeRule(w.spool, Acked(w.sender.response));
  }

  lemma WaitingRow(w: World, x: nat)
    requires Queued(w, x) && !MidIteration(w)
    ensures |Waiting(w.spool.rows, x, Busy(w))| >= 1
  {
    SubsetSize({x}, Waiting(w.spool.rows, x, Busy(w)));
  }

  /** As long as x stays queued, completed iterations are paid for by the potential. */
  lemma StepPays(cfg: Config, w: World, step: Step, x: nat)
    requires Injective(cfg) && Inv(cfg, w) && DrainInv(w, x)
    requires !step.Crash? && !step.Retry?
    requires Queued(Apply(cfg, w, step), x)
    ensures var w' := Apply(cfg, w, step);
            && Queued(w, x) && DrainInv(w', x)
            && w'.completed + Potential(w', x) <= w.completed + Potential(w, x)
  {
    hide SpoolInv, WireInv, StoreInv;
    var w' := Apply(cfg, w, step);
    OldRowsStay(cfg, w, step, x);
    if w' == w {
    } else if step.Fetch? && w.sender.Counted? {
      OldestFetched(cfg, w, x);
    } else if step.Quarantine? && w.sender.Quarantining? {
      QuarantineFinishes(cfg, w, x);
      IterationPays(w, w', x);
    } else if step.Refuse? && w.sender.Sending? {
      RefuseFinishes(cfg, w, step.status);
      IterationPays(w, w', x);
    } else {
      if step.Acknowledge? && w.sender.Acknowledging? {
        AcknowledgeRemoves(cfg, w);
      }
      OtherPays(cfg, w, step, x);
    }
  }

  lemma IterationPays(w: World, w': World, x: nat)
    requires MidIteration(w) && !MidIteration(w') && w'.newestNext == w.newestNext && Queued(w', x)
    requires forall r | r in w'.spool.rows && r.id <= x :: r in w.spool.rows && r.event.id !in Busy(w)
    ensures 1 + Potential(w', x) <= Potential(w, x)
  {
    WaitingRow(w', x);
    WaitingShrinks(w.spool.rows, w'.spool.rows, x, Busy(w), Busy(w'));
  }

  lemma OtherPays(cfg: Config, w: World, step: Step, x: nat)
    requires Inv(cfg, w) && x < w.spool.nextId
    requires !step.Crash? && !step.Retry? && !step.Fetch? && !step.Quarantine? && !step.Refuse?
    ensures var w' := Apply(cfg, w, step);
            w'.completed == w.completed && Potential(w', x) <= Potential(w, x)
  {
    OldRowsStay(cfg, w, step, x);
    OtherSteps(cfg, w, step);
    hide Inv, Apply, Busy, Waiting, MidIteration;
    var w' := Apply(cfg, w, step);
    WaitingShrinks(w.spool.rows, w'.spool.rows, x, Busy(w), Busy(w'));
  }

  lemma OtherSteps(cfg: Config, w: World, step: Step)
    requires !step.Crash? && !step.Retry? && !step.Fetch? && !step.Quarantine? && !step.Refuse?
    ensures var w' := Apply(cfg, w, step);
            && w'.completed == w.completed && w'.newestNext == w.newestNext
            && MidIteration(w') == MidIteration(w) && Busy(w') == Busy(w)
  {
  }

  lemma {:induction false} RunPays(cfg: Config, w: World, steps: seq<Step>, x: nat)
    requires Injective(cfg) && Inv(cfg, w) && DrainInv(w, x)
    requires forall s | s in steps :: !s.Crash? && !s.Retry?
    requires Queued(Run(cfg, w, steps), x)
    ensures var w' := Run(cfg, w, steps);
            && Queued(w, x)
            && w'.completed + Potential(w', x) <= w.completed + Potential(w, x)
            && Potential(w', x) >= 1
    decreases steps
  {
    if steps == [] {
      if !MidIteration(w) {
        WaitingRow(w, x);
      }
    } else {
      var step, rest := steps[0], steps[1..];
      var w1 := Apply(cfg, w, step);
      StillQueued(cfg, w, step, rest, x);
      StepPays(cfg, w, step, x);
      StepKeeps(cfg, w, step);
      RunPays(cfg, w1, rest, x);
    }
  }

  /** A key that is queued at the end of a run was queued all along. */
  lemma {:induction false} StillQueued(cfg: Config, w: World, step: Step, rest: seq<Step>, x: nat)
    requires Injective(cfg) && Inv(cfg, w) && x < w.spool.nextId
    requires Queued(Run(cfg, Apply(cfg, w, step), rest), x)
    ensures Queued(Apply(cfg, w, step), x)
    decreases rest
  {
    var w1 := Apply(cfg, w, step);
    OldRowsStay(cfg, w, step, x);
    StepKeeps(cfg, w, step);
    if rest != [] {
      StillQueued(cfg, w1, rest[0], rest[1..], x);
      OldRowsStay(cfg, w1, rest[0], x);
    }
  }

  /**
   * Bounded drain: take any reachable state between two iterations and any queued row with k older
   * ones. Once 2(k + 1) iterations have completed without a crash or a retry, interleaved with any
   * appends, evictions and network behaviour, the row has left the spool.
   */
  lemma BoundedDrain(cfg: Config, before: seq<Step>, steps: seq<Step>, x: nat)
    requires Injective(cfg)
    requires forall s | s in steps :: !s.Crash? && !s.Retry?
    requires var w := Run(cfg, INITIAL, before);
             && w.sender.Idle? && Queued(w, x)
             && Run(cfg, w, steps).completed >= w.completed + 2 * (|Older(w, x)| + 1)
    ensures !Queued(Run(cfg, Run(cfg, INITIAL, before), steps), x)
  {
    var w := Run(cfg, INITIAL, before);
    Reachable(cfg, before);
    WaitingIsOlder(w, x);
    if Queued(Run(cfg, w, steps), x) {
      var row :| row in w.spool.rows && row.id == x;
      RunPays(cfg, w, steps, x);
    }
  }

  lemma WaitingIsOlder(w: World, x: nat)
    ensures |Waiting(w.spool.rows, x, {})| <= |Older(w, x)| + 1
  {
    SubsetSize(Waiting(w.spool.rows, x, {}), Older(w, x) + {x});
  }

  function Older(w: World, x: nat): set<nat> {
    set r | r in w.spool.rows && r.id < x :: r.id
  }

  /** After an iteration that reads from the newest end, the next fetch of the same process reads from the oldest end. */
  lemma NewestNeverTwice(cfg: Config, w: World, steps: seq<Step>)
    requires w.sender.Counted? && w.sender.backfilling && w.newestNext
    requires forall s | s in steps :: !s.Crash? && !s.Fetch?
    ensures var next := Run(cfg, Apply(cfg, w, Fetch), steps);
            next.sender.Counted? ==> FetchBatch(next.spool.rows, next.sender.backfilling, next.newestNext)
                                     == BatchOf(next.spool.rows, if next.sender.backfilling then BACKFILL_EVENTS else NORMAL_EVENTS, BATCH_BYTES, false)
  {
    FlagStays(cfg, Apply(cfg, w, Fetch), steps);
    hide BatchOf;
  }

  /** A process that starts again on a large queue begins with the newest end, over the tables that it left. */
  lemma RestartReadsNewest(cfg: Config, w: World)
    requires Valid(w.spool) && |w.spool.rows| > 500
    ensures var w' := Run(cfg, w, [Crash, Count, Fetch]);
            && w'.spool == w.spool && w'.store == w.store && w'.sender.Sending?
            && w'.sender.records == FetchBatch(w.spool.rows, true, true)
            && w'.sender.records == w.spool.rows[|w.spool.rows| - |w'.sender.records|..]
  {
    FetchedBatchIs(w.spool.rows, w.spool.nextId, true);
    hide FetchBatch, Valid;
    ThreeSteps(cfg, w, Crash, Count, Fetch);
  }

  lemma {:induction false} FlagStays(cfg: Config, w: World, steps: seq<Step>)
    requires forall s | s in steps :: !s.Crash? && !s.Fetch?
    ensures Run(cfg, w, steps).newestNext == w.newestNext
    decreases steps
  {
    if steps != [] {
      FlagStays(cfg, Apply(cfg, w, steps[0]), steps[1..]);
    }
  }
}

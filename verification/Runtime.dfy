/**
 * The agent of agent/src/temporalrca_agent/runtime.py: `emit` with its explicit loss report, and
 * the sender loop, tied to the delivery state machine.
 */
module Runtime {
  import opened Contracts
  import opened ProcessIdentity
  import opened Spool
  import opened Transport
  import D = Delivery
  import I = Ingestion

  // ----- One sender iteration -----

  /** A response as the agent reads it; older servers may omit the list of acknowledged ids. */
  datatype HttpResult = HttpResult(status: Option<nat>, acknowledged: Option<set<EventId>>,
                                   duplicates: set<EventId>, rejected: seq<Rejection>)

  datatype SenderState = SenderState(tables: Tables, newestNext: bool, attempt: nat)

  function ToAcknowledge(result: HttpResult, records: seq<Row>): set<EventId> {
    match result.acknowledged
    case Some(ids) => ids + result.duplicates
    case None => EventIds(Events(records)) - RejectIds(Rejects(result.rejected, records))
  }

  function Settle(s: SenderState, records: seq<Row>, result: HttpResult): SenderState {
    if Retryable(result.status) then s.(attempt := s.attempt + 1)
    else if 200 <= result.status.value < 300 then
      s.(tables := QuarantineAll(Acknowledged(s.tables, ToAcknowledge(result, records)), Rejects(result.rejected, records)), attempt := 0)
    else
      s.(tables := QuarantineAll(s.tables, RefuseAll(records, "HTTP " + Decimal(result.status.value))), attempt := 0)
  }

  function Iterate(s: SenderState, post: seq<Event> -> HttpResult): SenderState {
    var backfilling := Backfilling(|s.tables.rows|);
    var records := FetchBatch(s.tables.rows, backfilling, s.newestNext);
    var s1 := s.(newestNext := if backfilling then !s.newestNext else s.newestNext);
    if records == [] then s1 else Settle(s1, records, post(Events(records)))
  }

  function IterateAll(s: SenderState, posts: seq<seq<Event> -> HttpResult>): SenderState
    decreases posts
  {
    if posts == [] then s else IterateAll(Iterate(s, posts[0]), posts[1..])
  }

  /**
   * What the status decides. A retry leaves every table alone. A success takes the acknowledged, the duplicate
   * and the rejected ids from the queue, and everything fetched when it lists no ids. A permanent refusal
   * moves exactly the batch to the quarantine, under its status.
   */
  lemma IterationByStatus(s: SenderState, post: seq<Event> -> HttpResult)
    requires Valid(s.tables) && FetchBatch(s.tables.rows, Backfilling(|s.tables.rows|), s.newestNext) != []
    ensures var records := FetchBatch(s.tables.rows, Backfilling(|s.tables.rows|), s.newestNext);
            var result, next := post(Events(records)), Iterate(s, post);
            && next.newestNext == (if |s.tables.rows| > 500 then !s.newestNext else s.newestNext)
            && if result.status.None? || result.status.value in {401, 403, 408, 429} || 500 <= result.status.value then
                 next.tables == s.tables && next.attempt == s.attempt + 1
               else
                 && next.attempt == 0
                 && if 200 <= result.status.value < 300 then
                      forall row :: row in next.tables.rows
                        <==> row in s.tables.rows && !IsRejected(result.rejected, records, row.event.id)
                             && match result.acknowledged
                                case Some(ids) => row.event.id !in ids && row.event.id !in result.duplicates
                                case None => row !in records
                    else
                      && (forall row :: row in next.tables.rows <==> row in s.tables.rows && row !in records)
                      && (forall row | row in records ::
                            Quarantined(row.event, "HTTP " + Decimal(result.status.value)) in next.tables.quarantine)
  {
    var records := FetchBatch(s.tables.rows, Backfilling(|s.tables.rows|), s.newestNext);
    var result := post(Events(records));
    BatchRows(s.tables.rows, s.tables.nextId, Backfilling(|s.tables.rows|), s.newestNext);
    hide FetchBatch, QuarantineAll, Acknowledged, Rejects, RefuseAll, ValidRows, Events, EventIds, RejectIds, IsRejected, ToAcknowledge, Decimal;
    if !Retryable(result.status) {
      if 200 <= result.status.value < 300 {
        SuccessRemoves(s.tables, records, result);
      } else {
        RefusalMovesBatch(s.tables, records, "HTTP " + Decimal(result.status.value));
      }
    }
  }

  lemma BatchRows(rows: seq<Row>, nextId: nat, backfilling: bool, newestNext: bool)
    requires ValidRows(rows, nextId)
    ensures forall r | r in FetchBatch(rows, backfilling, newestNext) :: r in rows
  {
    BatchShape(rows, nextId, if backfilling then BACKFILL_EVENTS else NORMAL_EVENTS, BATCH_BYTES, backfilling && newestNext);
  }

  /** In a table an event id names one row. */
  lemma FetchedById(t: Tables, records: seq<Row>, row: Row)
    requires Valid(t) && (forall r | r in records :: r in t.rows) && row in t.rows
    ensures row.event.id in EventIds(Events(records)) <==> row in records
  {
    if row in records {
      RowHasId(records, row);
    } else if row.event.id in EventIds(Events(records)) {
      KeysDetermineRows(t.rows, t.nextId, row, Find(records, row.event.id));
    }
  }

  lemma SuccessRemoves(t: Tables, records: seq<Row>, result: HttpResult)
    requires Valid(t) && forall r | r in records :: r in t.rows
    ensures var u := QuarantineAll(Acknowledged(t, ToAcknowledge(result, records)), Rejects(result.rejected, records));
            forall row :: row in u.rows
              <==> row in t.rows && !IsRejected(result.rejected, records, row.event.id)
                   && match result.acknowledged
                      case Some(ids) => row.event.id !in ids && row.event.id !in result.duplicates
                      case None => row !in records
  {
    var ids := ToAcknowledge(result, records);
    AcknowledgeRule(t, ids);
    QuarantineRule(Acknowledged(t, ids), Rejects(result.rejected, records));
    hide Acknowledged, QuarantineAll, Rejects, ValidRows, EventIds, Events, RejectIds, IsRejected;
    forall row | row in t.rows
      ensures row.event.id in RejectIds(Rejects(result.rejected, records)) <==> IsRejected(result.rejected, records, row.event.id)
      ensures row.event.id in EventIds(Events(records)) <==> row in records
    {
      RejectsAre(result.rejected, records, row.event.id);
      FetchedById(t, records, row);
    }
  }

  lemma RefusalMovesBatch(t: Tables, records: seq<Row>, reason: string)
    requires Valid(t) && forall r | r in records :: r in t.rows
    ensures var u := QuarantineAll(t, RefuseAll(records, reason));
            && (forall row :: row in u.rows <==> row in t.rows && row !in records)
            && (forall row | row in records :: Quarantined(row.event, reason) in u.quarantine)
  {
    RefuseIds(records, reason);
    QuarantineRule(t, RefuseAll(records, reason));
    hide QuarantineAll, EventIds, ValidRows, Events;
    forall row | row in t.rows
      ensures row.event.id in EventIds(Events(records)) <==> row in records
    {
      FetchedById(t, records, row);
    }
    forall row | row in records
      ensures Quarantined(row.event, reason) in QuarantineAll(t, RefuseAll(records, reason)).quarantine
    {
      RefusedEntry(t, records, reason, row);
    }
  }

  lemma RefusedEntry(t: Tables, records: seq<Row>, reason: string, row: Row)
    requires Valid(t) && (forall r | r in records :: r in t.rows) && row in records
    ensures Quarantined(row.event, reason) in QuarantineAll(t, RefuseAll(records, reason)).quarantine
  {
    var rejects := RefuseAll(records, reason);
    var from := QuarantinedEntries(t, rejects);
    var u := QuarantineAll(t, rejects);
    hide QuarantineAll;
    var i := FirstNamed(records, row.event.id);
    assert IsTaken(t, rejects, i);
    var k :| 0 <= k < |from| && from[k] == i;
    var q := u.quarantine[|t.quarantine| + k];
    assert EntryOf(q, t.rows, rejects[i]);
    var r :| r in t.rows && r.event.id == row.event.id && q.event == r.event;
    KeysDetermineRows(t.rows, t.nextId, r, row);
  }

  lemma {:induction false} FirstNamed(records: seq<Row>, id: EventId) returns (i: nat)
    requires exists r :: r in records && r.event.id == id
    ensures i < |records| && records[i].event.id == id && forall j | 0 <= j < i :: records[j].event.id != id
  {
    if records[0].event.id == id {
      i := 0;
    } else {
      i := FirstNamed(records[1..], id);
      i := i + 1;
    }
  }

  // ----- Against the server -----

  /** A 200 that carries a batch response. */
  function Accepts(r: BatchResponse): HttpResult {
    HttpResult(Some(200), Some(set id | id in r.accepted), r.duplicates, r.rejected)
  }

  function Fetched(w: D.World): seq<Row> {
    FetchBatch(w.spool.rows, Backfilling(|w.spool.rows|), w.newestNext)
  }

  function Answer(cfg: D.Config, w: D.World, owned: I.Owned): I.Reply
    requires Events(Fetched(w)) != []
  {
    I.Ingest(w.store, BodyOf(cfg.batchId, Events(Fetched(w))), owned).1
  }

  lemma FetchIsSent(cfg: D.Config, w: D.World)
    requires D.Injective(cfg) && D.Inv(cfg, w) && w.sender.Idle? && Fetched(w) != []
    ensures var w1 := D.DoFetch(w.(sender := D.Counted(Backfilling(|w.spool.rows|))), Backfilling(|w.spool.rows|));
            D.Inv(cfg, w1) && Events(Fetched(w)) in w1.sent && w1.store == w.store
  {
    hide D.Inv, D.Injective, FetchBatch;
    var backfilling := Backfilling(|w.spool.rows|);
    D.StepKeeps(cfg, w, D.Count);
    D.FetchKeeps(cfg, w.(sender := D.Counted(backfilling)), backfilling);
  }

  /** Whatever is fetched from a non-empty spool, the server commits it and settles each of its events. */
  lemma FetchedIsSettled(cfg: D.Config, w: D.World, owned: I.Owned)
    requires D.Injective(cfg) && D.Inv(cfg, w) && w.sender.Idle? && w.spool.rows != []
    ensures var records := Fetched(w);
            && Valid(w.spool) && records != [] && (forall x | x in records :: x in w.spool.rows)
            && Events(records) != []
            && Answer(cfg, w, owned).Committed?
            && var r := Answer(cfg, w, owned).response;
            && Acked(r) + I.RejectedIds(r.rejected) == EventIds(Events(records))
            && (forall x | x in r.rejected :: x.eventId.Some? && x.eventId.value != "")
  {
    var backfilling := Backfilling(|w.spool.rows|);
    assert Valid(w.spool);
    FetchedBatchIsAdmissible(cfg.batchId, w.spool.rows, w.spool.nextId, backfilling, w.newestNext);
    hide D.Inv, D.Injective, D.DoFetch, I.Ingest, FetchBatch, BodyOf, Admissible, DistinctIds, ValidRows, Events;
    FetchIsSent(cfg, w);
    D.DeliverySettles(cfg, D.DoFetch(w.(sender := D.Counted(backfilling)), backfilling), Events(Fetched(w)), owned);
  }

  function OneIteration(events: seq<Event>, owned: I.Owned, r: BatchResponse): seq<D.Step> {
    [D.Count, D.Fetch] + [D.Deliver(events, owned), D.Receive(r), D.Acknowledge, D.Quarantine]
  }

  /**
   * An undisturbed iteration of the sender against the server is a run of the state machine, from any
   * state that satisfies the invariant: same tables, same flag. It removes exactly the fetched batch.
   */
  lemma IterationIsARun(cfg: D.Config, w: D.World, owned: I.Owned)
    requires D.Injective(cfg) && D.Inv(cfg, w) && w.sender.Idle? && w.spool.rows != []
    ensures Events(Fetched(w)) != [] && Answer(cfg, w, owned).Committed?
    ensures var r := Answer(cfg, w, owned).response;
            var w' := D.Run(cfg, w, OneIteration(Events(Fetched(w)), owned, r));
            var s' := Iterate(SenderState(w.spool, w.newestNext, 0), events => Accepts(r));
            && w'.sender.Idle? && w'.completed == w.completed + 1
            && w'.spool == s'.tables && w'.newestNext == s'.newestNext
            && (forall row :: row in w'.spool.rows <==> row in w.spool.rows && row !in Fetched(w))
  {
    FetchedIsSettled(cfg, w, owned);
    hide D.Inv, D.Injective, D.Run, D.Apply, I.Ingest, I.RejectedIds, FetchBatch, BodyOf, ValidRows, Events, EventIds;
    hide QuarantineAll, Rejects, Acknowledged, Iterate;
    var records := Fetched(w);
    var r := Answer(cfg, w, owned).response;
    var backfilling := Backfilling(|w.spool.rows|);
    FetchSteps(cfg, w, backfilling);
    SettleSteps(cfg, D.DoFetch(w.(sender := D.Counted(backfilling)), backfilling), records, owned);
    RunInTwo(cfg, w, [D.Count, D.Fetch], [D.Deliver(Events(records), owned), D.Receive(r), D.Acknowledge, D.Quarantine]);
    SettledBatchLeaves(w.spool, records, r);
    IterateSettles(w, r);
  }

  /** What one iteration does when the server commits. */
  lemma IterateSettles(w: D.World, r: BatchResponse)
    requires Fetched(w) != []
    ensures var s := Iterate(SenderState(w.spool, w.newestNext, 0), events => Accepts(r));
            && s.tables == QuarantineAll(Acknowledged(w.spool, Acked(r)), Rejects(r.rejected, Fetched(w)))
            && s.newestNext == (if Backfilling(|w.spool.rows|) then !w.newestNext else w.newestNext)
  {
  }

  lemma {:induction false} RunInTwo(cfg: D.Config, w: D.World, a: seq<D.Step>, b: seq<D.Step>)
    ensures D.Run(cfg, w, a + b) == D.Run(cfg, D.Run(cfg, w, a), b)
    decreases a
  {
    if a == [] {
      assert a + b == b;
    } else {
      assert (a + b)[1..] == a[1..] + b;
      RunInTwo(cfg, D.Apply(cfg, w, a[0]), a[1..], b);
    }
  }

  lemma OneStep(cfg: D.Config, w: D.World, step: D.Step, rest: seq<D.Step>)
    ensures D.Run(cfg, w, [step] + rest) == D.Run(cfg, D.Apply(cfg, w, step), rest)
  {
  }

  lemma FetchSteps(cfg: D.Config, w: D.World, backfilling: bool)
    requires w.sender.Idle? && backfilling == Backfilling(|w.spool.rows|)
    ensures D.Run(cfg, w, [D.Count, D.Fetch]) == D.DoFetch(w.(sender := D.Counted(backfilling)), backfilling)
  {
  }

  lemma SettleSteps(cfg: D.Config, w: D.World, records: seq<Row>, owned: I.Owned)
    requires w.sender == D.Sending(records) && Events(records) in w.sent && Events(records) != []
    requires I.Ingest(w.store, BodyOf(cfg.batchId, Events(records)), owned).1.Committed?
    ensures var (store, reply) := I.Ingest(w.store, BodyOf(cfg.batchId, Events(records)), owned);
            var r := reply.response;
            D.Run(cfg, w, [D.Deliver(Events(records), owned), D.Receive(r), D.Acknowledge, D.Quarantine])
            == w.(store := store, responses := w.responses + {(Events(records), r)}, sender := D.Idle, completed := w.completed + 1,
                  spool := QuarantineAll(Acknowledged(w.spool, Acked(r)), Rejects(r.rejected, records)))
  {
    hide I.Ingest, BodyOf, QuarantineAll, Acknowledged, Rejects, Acked, Events;
    var r := I.Ingest(w.store, BodyOf(cfg.batchId, Events(records)), owned).1.response;
    var w1 := D.Apply(cfg, w, D.Deliver(Events(records), owned));
    var w2 := D.Apply(cfg, w1, D.Receive(r));
    var w3 := D.Apply(cfg, w2, D.Acknowledge);
    OneStep(cfg, w, D.Deliver(Events(records), owned), [D.Receive(r), D.Acknowledge, D.Quarantine]);
    OneStep(cfg, w1, D.Receive(r), [D.Acknowledge, D.Quarantine]);
    OneStep(cfg, w2, D.Acknowledge, [D.Quarantine]);
    OneStep(cfg, w3, D.Quarantine, []);
  }

  lemma SettledBatchLeaves(t: Tables, records: seq<Row>, r: BatchResponse)
    requires Valid(t) && forall x | x in records :: x in t.rows
    requires Acked(r) + I.RejectedIds(r.rejected) == EventIds(Events(records))
    requires forall x | x in r.rejected :: x.eventId.Some? && x.eventId.value != ""
    ensures forall row :: row in QuarantineAll(Acknowledged(t, Acked(r)), Rejects(r.rejected, records)).rows
                          <==> row in t.rows && row !in records
  {
    AcknowledgeRule(t, Acked(r));
    RejectsAreNamed(r.rejected, records);
    QuarantineRule(Acknowledged(t, Acked(r)), Rejects(r.rejected, records));
    forall row | row in t.rows
      ensures row.event.id in EventIds(Events(records)) <==> row in records
    {
      if row in records {
        RowHasId(records, row);
      } else if row.event.id in EventIds(Events(records)) {
        KeysDetermineRows(t.rows, t.nextId, row, Find(records, row.event.id));
      }
    }
  }

  // ----- emit -----

  /** `append`: insert, then enforce the limits. */
  function AppendTo(t: Tables, batch: seq<Encoded>, updates: map<string, string>, cutoff: int, maxBytes: nat): Tables {
    var inserted := InsertAll(t, batch);
    Enforce(inserted.(state := inserted.state + updates), cutoff, maxBytes)
  }

  function Lost(t: Tables, batch: seq<Encoded>, cutoff: int, maxBytes: nat): seq<Eviction> {
    Report(Evicted(InsertAll(t, batch).rows, cutoff, maxBytes))
  }

  /**
   * `append` is a run of the state machine: events and cursors become durable in one step, then the limits are
   * enforced, then the list is returned; the cursors are the old ones with the updates.
   */
  lemma AppendIsARun(cfg: D.Config, w: D.World, batch: seq<Encoded>, updates: map<string, string>, cutoff: int)
    requires D.Inv(cfg, w) && D.FreshIds(w.appended, batch)
    ensures var w' := D.Run(cfg, w, [D.Append(batch, updates), D.Evict(cutoff), D.Return]);
            var after := AppendTo(w.spool, batch, updates, cutoff, cfg.maxBytes);
            && w'.spool == after && after.state == w.spool.state + updates && after.quarantine == w.spool.quarantine
            && w'.appended == w.appended + D.Offers(batch) && w'.unreported == {}
            && (forall e | e in Lost(w.spool, batch, cutoff, cfg.maxBytes) :: exists x :: x in w'.evicted && x.id == e.eventId)
  {
    var w1 := D.Apply(cfg, w, D.Append(batch, updates));
    var w2 := D.Apply(cfg, w1, D.Evict(cutoff));
    InsertAllStays(w.spool, batch);
    ReportedAreEvicted(InsertAll(w.spool, batch).rows, cutoff, cfg.maxBytes);
    hide D.Inv, InsertAll, Evicted, Kept, D.Run, Report, D.RowEvents, ValidRows;
    D.ThreeSteps(cfg, w, D.Append(batch, updates), D.Evict(cutoff), D.Return);
  }

  lemma ReportedAreEvicted(rows: seq<Row>, cutoff: int, maxBytes: nat)
    ensures forall e | e in Report(Evicted(rows, cutoff, maxBytes)) ::
              exists x :: x in D.RowEvents(Evicted(rows, cutoff, maxBytes)) && x.id == e.eventId
  {
    var out := Evicted(rows, cutoff, maxBytes);
    forall i | 0 <= i < |out|
      ensures out[i].event in D.RowEvents(out)
    {
      assert out[i] in out;
    }
    hide Evicted;
  }

  /**
   * The loss event is appended after an eviction, and what that second append evicts is reported
   * nowhere (runtime.py:77). It evicts nothing exactly when nothing has expired by then, neither a row
   * nor the event itself, and the event fits under the cap together with what survived the first append.
   */
  lemma LossReportIsComplete(t: Tables, loss: Encoded, cutoff: int, maxBytes: nat)
    requires Valid(t) && loss.event.id !in EventIds(Events(t.rows))
    ensures Lost(t, [loss], cutoff, maxBytes) == []
            <==> (forall r | r in t.rows :: r.created >= cutoff) && loss.created >= cutoff
                 && Bytes(t.rows) + loss.event.size <= maxBytes
  {
    var row := Row(t.nextId, loss.created, loss.event);
    var rows := t.rows + [row];
    InsertsOne(t, loss);
    BytesConcat(t.rows, [row]);
    BytesOne(row);
    InsertOrIgnoreStays(t, loss);
    assert row in rows;
    hide InsertAll, ValidRows, Evicted, Bytes;
    EvictsWhen(rows, t.nextId + 1, cutoff, maxBytes);
  }

  lemma InsertsOne(t: Tables, x: Encoded)
    ensures InsertAll(t, [x]) == InsertOrIgnore(t, x)
  {
    assert [x][1..] == [];
    assert InsertAll(t, [x]) == InsertAll(InsertOrIgnore(t, x), []);
  }

  lemma EvictsWhen(rows: seq<Row>, nextId: nat, cutoff: int, maxBytes: nat)
    requires ValidRows(rows, nextId)
    ensures Evicted(rows, cutoff, maxBytes) == [] <==> (forall r | r in rows :: r.created >= cutoff) && Bytes(rows) <= maxBytes
  {
    EvictionExact(rows, nextId, cutoff, maxBytes);
    var out := Evicted(rows, cutoff, maxBytes);
    if r :| r in rows && r.created < cutoff {
      assert r in out;
    } else {
      assert ExpiredKeys(rows, cutoff) == {};
      SelectNone(rows);
      NothingExpiredEvicts(rows, nextId, cutoff, maxBytes);
    }
  }

  lemma {:induction false} SelectNone(rows: seq<Row>)
    ensures Select(rows, {}) == []
  {
    if rows != [] {
      SelectNone(rows[1..]);
    }
  }

  lemma WalkStarts(rows: seq<Row>, cutoff: int, maxBytes: nat)
    requires Select(rows, ExpiredKeys(rows, cutoff)) == []
    ensures Stop(rows, cutoff, maxBytes) == 0 <==> rows == [] || Bytes(rows) <= maxBytes
  {
  }

  lemma NothingExpiredEvicts(rows: seq<Row>, nextId: nat, cutoff: int, maxBytes: nat)
    requires ValidRows(rows, nextId) && Select(rows, ExpiredKeys(rows, cutoff)) == [] && forall r | r in rows :: r.created >= cutoff
    ensures Evicted(rows, cutoff, maxBytes) == [] <==> Bytes(rows) <= maxBytes
  {
    EvictionExact(rows, nextId, cutoff, maxBytes);
    WalkStarts(rows, cutoff, maxBytes);
    hide ValidRows, Bytes, WalkEnd, Stop;
    if rows != [] && Bytes(rows) > maxBytes {
      assert rows[0] in Evicted(rows, cutoff, maxBytes);
    } else {
      assert rows[..0] == [];
    }
  }

  /**
   * Such a loss does happen, under every cap: the second of two events that fill the cap evicts the
   * first, which is reported, and the report evicts the second, which is not.
   */
  lemma ReportEvictsAgain(a: Encoded, b: Encoded, loss: Encoded, cutoff: int, maxBytes: nat)
    requires a.event.id != b.event.id && a.event.id != loss.event.id && b.event.id != loss.event.id
    requires a.created >= cutoff && b.created >= cutoff && loss.created >= cutoff
    requires a.event.size == b.event.size == maxBytes && loss.event.size > 0 && maxBytes > 0
    ensures var one := AppendTo(EMPTY_TABLES, [a], map[], cutoff, maxBytes);
            var two := AppendTo(one, [b], map[], cutoff, maxBytes);
            && Events(one.rows) == [a.event] && Events(two.rows) == [b.event]
            && Lost(one, [b], cutoff, maxBytes) == [Eviction(a.event.id, maxBytes)]
            && Lost(two, [loss], cutoff, maxBytes) != []
  {
    hide AppendTo, Lost, Bytes, Select;
    var rowA, rowB := Row(0, a.created, a.event), Row(1, b.created, b.event);
    FillsOnce(a, cutoff, maxBytes);
    FillsAgain(rowA, b, cutoff, maxBytes);
    BytesOne(rowB);
    assert loss.event.id !in EventIds(Events([rowB]));
    LossReportIsComplete(Tables([rowB], 2, [], map[]), loss, cutoff, maxBytes);
  }

  lemma FillsOnce(a: Encoded, cutoff: int, maxBytes: nat)
    requires a.created >= cutoff && a.event.size <= maxBytes
    ensures AppendTo(EMPTY_TABLES, [a], map[], cutoff, maxBytes) == Tables([Row(0, a.created, a.event)], 1, [], map[])
    ensures Events([Row(0, a.created, a.event)]) == [a.event]
  {
    InsertsOne(EMPTY_TABLES, a);
    assert Events([]) == [];
    assert EMPTY_TABLES.state + map[] == map[];
    hide InsertAll, Kept;
    OneStays(Row(0, a.created, a.event), 1, cutoff, maxBytes);
  }

  lemma FillsAgain(row: Row, b: Encoded, cutoff: int, maxBytes: nat)
    requires row.id == 0 && row.event.id != b.event.id && row.created >= cutoff && b.created >= cutoff
    requires row.event.size == b.event.size == maxBytes > 0
    ensures var t := Tables([row], 1, [], map[]);
            && AppendTo(t, [b], map[], cutoff, maxBytes) == Tables([Row(1, b.created, b.event)], 2, [], map[])
            && Lost(t, [b], cutoff, maxBytes) == [Eviction(row.event.id, maxBytes)]
    ensures Events([Row(1, b.created, b.event)]) == [b.event]
  {
    var t := Tables([row], 1, [], map[]);
    InsertsOne(t, b);
    SecondRow(row, b);
    TwoLoseOne(row, Row(1, b.created, b.event), cutoff, maxBytes);
    assert map[] + map[] == t.state;
    hide InsertAll, InsertOrIgnore, Kept, Evicted;
  }

  lemma SecondRow(row: Row, b: Encoded)
    requires row.event.id != b.event.id
    ensures InsertOrIgnore(Tables([row], 1, [], map[]), b) == Tables([row, Row(1, b.created, b.event)], 2, [], map[])
  {
    assert Events([row]) == [row.event];
  }

  lemma OneStays(row: Row, nextId: nat, cutoff: int, maxBytes: nat)
    requires row.id < nextId && row.created >= cutoff && row.event.size <= maxBytes
    ensures Kept([row], cutoff, maxBytes) == [row]
  {
    BytesOne(row);
    EvictsWhen([row], nextId, cutoff, maxBytes);
  }

  lemma TwoLoseOne(a: Row, b: Row, cutoff: int, maxBytes: nat)
    requires a.id < b.id && a.event.id != b.event.id && a.created >= cutoff && b.created >= cutoff
    requires a.event.size == b.event.size == maxBytes > 0
    ensures Evicted([a, b], cutoff, maxBytes) == [a] && Kept([a, b], cutoff, maxBytes) == [b]
  {
    var rows, live := [a, b], LiveKeys([a, b], cutoff);
    var expired := ExpiredKeys(rows, cutoff);
    assert expired == {} && a.id in live && b.id in live;
    assert rows[1..] == [b] && [b][1..] == [] && rows[..1] == [a] && [a][1..] == [];
    assert Select(rows, expired) == [];
    BytesOne(a);
    BytesOne(b);
    assert Bytes(rows) == 2 * maxBytes;
    assert WalkEnd([b], maxBytes, maxBytes) == 0;
    assert Stop(rows, cutoff, maxBytes) == 1;
    assert Select([a], live) == [a] && Select([b], live) == [b];
    KeptIsLiveSuffix(rows, b.id + 1, cutoff, maxBytes);
  }

  class Agent {
    const spool: SQLiteSpool
    var sequence: nat

    constructor (spool: SQLiteSpool, sequence: nat)
      ensures this.spool == spool && this.sequence == sequence
    {
      this.spool, this.sequence := spool, sequence;
    }

    /**
     * Append events and collector cursors in one transaction; report evictions by one more event.
     * `describe` builds that event from the evictions; it consumes one sequence number. Each append
     * reads the clock for itself.
     */
    method Emit(batch: seq<Encoded>, updates: map<string, string>, describe: seq<Eviction> -> Encoded, now: int, later: int)
      returns (evictions: seq<Eviction>)
      requires Valid(spool.View())
      modifies this, spool
      ensures Valid(spool.View())
      ensures batch == [] && updates == map[] ==> spool.View() == old(spool.View()) && evictions == [] && sequence == old(sequence)
      ensures batch != [] || updates != map[] ==>
                var once := AppendTo(old(spool.View()), batch, updates, now - spool.maxAge, spool.maxBytes);
                var twice := if evictions == [] then once else AppendTo(once, [describe(evictions)], map[], later - spool.maxAge, spool.maxBytes);
                && evictions == Lost(old(spool.View()), batch, now - spool.maxAge, spool.maxBytes)
                && sequence == old(sequence) + (if evictions == [] then 0 else 1)
                && spool.View() == twice.(state := twice.state["sequence" := Decimal(sequence)])
    {
      hide Enforce, InsertAll, Evicted, Report, Decimal, ValidRows;
      if batch == [] && updates == map[] {
        return [];
      }
      evictions := spool.AppendSync(batch, updates, now);
      if evictions != [] {
        sequence := sequence + 1;
        var _ := spool.AppendSync([describe(evictions)], map[], later);
      }
      spool.SetState("sequence", Decimal(sequence));
    }

    /** The sender loop, until the stop event: one answer of the network per iteration. */
    method Sender(posts: seq<seq<Event> -> HttpResult>) returns (newestNext: bool, attempt: nat)
      modifies spool
      ensures SenderState(spool.View(), newestNext, attempt) == IterateAll(SenderState(old(spool.View()), true, 0), posts)
    {
      newestNext, attempt := true, 0;
      var i := 0;
      while i < |posts|
        invariant 0 <= i <= |posts|
        invariant IterateAll(SenderState(spool.View(), newestNext, attempt), posts[i..])
                  == IterateAll(SenderState(old(spool.View()), true, 0), posts)
      {
        assert posts[i..][1..] == posts[i + 1..];
        ghost var start := SenderState(spool.View(), newestNext, attempt);
        var events, _, _ := spool.Usage();
        var backfilling := Backfilling(events);
        var records := spool.BatchSync(if backfilling then BACKFILL_EVENTS else NORMAL_EVENTS, BATCH_BYTES, backfilling && newestNext);
        if backfilling {
          newestNext := !newestNext;
        }
        if records != [] {
          var result := posts[i](Events(records));
          if Retryable(result.status) {
            attempt := attempt + 1;
          } else if 200 <= result.status.value < 300 {
            spool.Acknowledge(ToAcknowledge(result, records));
            spool.QuarantineSync(Rejects(result.rejected, records));
            attempt := 0;
          } else {
            spool.QuarantineSync(RefuseAll(records, "HTTP " + Decimal(result.status.value)));
            attempt := 0;
          }
        }
        assert SenderState(spool.View(), newestNext, attempt) == Iterate(start, posts[i]);
        i := i + 1;
      }
    }
  }
}

/**
 * The delivery protocol as a state machine: collectors append to the spool and limits evict from
 * it while the sender takes batches, the network loses, delays and repeats requests and responses,
 * the server commits, and the agent may crash between any two steps.
 */
module Delivery {
  import opened Contracts
  import opened Spool
  import opened Transport
  import I = Ingestion

  /** Where the sender coroutine is. Every spool call in between is its own transaction. */
  datatype Sender =
    | Idle
    | Counted(backfilling: bool)
    | Sending(records: seq<Row>)
    | Acknowledging(records: seq<Row>, response: BatchResponse)
    | Quarantining(records: seq<Row>, response: BatchResponse)

  /**
   * `sent` holds every batch ever put on the wire and `responses` every response the server ever
   * gave, each with its batch; both may be delivered late, more than once, or never. `appended` and
   * `evicted` are the events ever offered to `append` and ever returned by it. An eviction is
   * committed first and returned afterwards: `unreported` has been deleted and not yet returned, and
   * `cutOff` was unreported when the process crashed or the waiting task was cancelled.
   */
  datatype World = World(
    spool: Tables, sender: Sender, newestNext: bool,
    sent: set<seq<Event>>, responses: set<(seq<Event>, BatchResponse)>,
    store: I.Store,
    appended: set<Event>, evicted: set<Event>, unreported: set<Event>, cutOff: set<Event>,
    completed: nat)

  const INITIAL := World(EMPTY_TABLES, Idle, true, {}, {}, I.EMPTY_STORE, {}, {}, {}, {}, 0)

  datatype Step =
    | Append(batch: seq<Encoded>, updates: map<string, string>)
    | Evict(cutoff: int)
    | Return
    | Cancel
    | Count
    | Fetch
    | Deliver(events: seq<Event>, owned: I.Owned)
    | Receive(response: BatchResponse)
    | Refuse(status: string)
    | Retry
    | Acknowledge
    | Quarantine
    | Crash

  /** The batch id function and the byte cap of the spool. */
  datatype Config = Config(batchId: seq<Event> -> I.BatchId, maxBytes: nat)

  /** UUIDv5 over SHA-256, taken to be injective. */
  ghost predicate Injective(cfg: Config) {
    forall a, b :: cfg.batchId(a) == cfg.batchId(b) ==> a == b
  }

  /** Such a configuration exists for every cap. */
  lemma InjectiveExists(maxBytes: nat)
    ensures Injective(Config(events => I.BatchId(events), maxBytes))
  {
    var cfg := Config(events => I.BatchId(events), maxBytes);
    assert forall a :: cfg.batchId(a).content == a;
  }

  /** Event ids are fresh UUIDs: never empty, and never reused for another event. */
  predicate FreshIds(appended: set<Event>, batch: seq<Encoded>) {
    forall x | x in batch ::
      x.event.id != "" && (forall e | e in appended + Offers(batch) :: e.id == x.event.id ==> e == x.event)
  }

  function Offers(batch: seq<Encoded>): set<Event> {
    set x | x in batch :: x.event
  }

  function RowEvents(rows: seq<Row>): set<Event> {
    set r | r in rows :: r.event
  }

  // ----- Steps; a step that is not enabled does nothing -----

  function Apply(cfg: Config, w: World, step: Step): World {
    match step
    case Append(batch, updates) => DoAppend(w, batch, updates)
    case Evict(cutoff) => DoEvict(cfg, w, cutoff)
    case Count => if w.sender.Idle? then w.(sender := Counted(Backfilling(|w.spool.rows|))) else w
    case Fetch => if w.sender.Counted? then DoFetch(w, w.sender.backfilling) else w
    case Deliver(events, owned) => if events in w.sent && events != [] then DoDeliver(cfg, w, events, owned) else w
    case Receive(r) =>
      if w.sender.Sending? && (Events(w.sender.records), r) in w.responses
      then w.(sender := Acknowledging(w.sender.records, r)) else w
    case Refuse(status) => if w.sender.Sending? then DoRefuse(w, w.sender.records, status) else w
    case Retry => if w.sender.Sending? then w.(sender := Idle) else w
    case Acknowledge =>
      if w.sender.Acknowledging?
      then DoAcknowledge(w, w.sender.records, w.sender.response) else w
    case Quarantine => if w.sender.Quarantining? then DoQuarantine(w, w.sender.records, w.sender.response) else w
    case Return => w.(evicted := w.evicted + w.unreported, unreported := {})
    case Cancel => CutOff(w)
    case Crash => CutOff(w).(sender := Idle, newestNext := true)
  }

  function DoAppend(w: World, batch: seq<Encoded>, updates: map<string, string>): World {
    if FreshIds(w.appended, batch) then
      var t := InsertAll(w.spool, batch);
      w.(spool := t.(state := t.state + updates), appended := w.appended + Offers(batch))
    else w
  }

  /** The deletion is committed; the list of what was deleted is still on its way to the caller. */
  function DoEvict(cfg: Config, w: World, cutoff: int): World {
    w.(spool := Enforce(w.spool, cutoff, cfg.maxBytes),
       unreported := w.unreported + RowEvents(Evicted(w.spool.rows, cutoff, cfg.maxBytes)))
  }

  /** Whoever waits for the list never gets it. */
  function CutOff(w: World): World {
    w.(cutOff := w.cutOff + w.unreported, unreported := {})
  }

  function DoFetch(w: World, backfilling: bool): World {
    var records := FetchBatch(w.spool.rows, backfilling, w.newestNext);
    var w1 := w.(newestNext := if backfilling then !w.newestNext else w.newestNext);
    if records == [] then w1.(sender := Idle)
    else w1.(sender := Sending(records), sent := w.sent + {Events(records)})
  }

  function DoDeliver(cfg: Config, w: World, events: seq<Event>, owned: I.Owned): World
    requires events != []
  {
    var (store, reply) := I.Ingest(w.store, BodyOf(cfg.batchId, events), owned);
    w.(store := store, responses := w.responses + if reply.Committed? then {(events, reply.response)} else {})
  }

  function DoRefuse(w: World, records: seq<Row>, status: string): World {
    w.(spool := QuarantineAll(w.spool, RefuseAll(records, status)), sender := Idle, completed := w.completed + 1)
  }

  function DoAcknowledge(w: World, records: seq<Row>, r: BatchResponse): World {
    w.(spool := Acknowledged(w.spool, Acked(r)), sender := Quarantining(records, r))
  }

  function DoQuarantine(w: World, records: seq<Row>, r: BatchResponse): World {
    w.(spool := QuarantineAll(w.spool, Rejects(r.rejected, records)), sender := Idle, completed := w.completed + 1)
  }

  function Run(cfg: Config, w: World, steps: seq<Step>): World
    decreases steps
  {
    if steps == [] then w else Run(cfg, Apply(cfg, w, steps[0]), steps[1..])
  }

  // ----- The invariant -----

  /** An event is somewhere: still queued, stored, in quarantine, or evicted, whatever became of the list. */
  predicate Accounted(w: World, e: Event) {
    || e in RowEvents(w.spool.rows) || e.id in w.store.receipts || Holds(w.spool.quarantine, e)
    || e in w.evicted || e in w.unreported || e in w.cutOff
  }

  function Gone(w: World): set<Event> {
    w.evicted + w.unreported + w.cutOff
  }

  predicate IdsDetermine(appended: set<Event>) {
    && (forall a, b | a in appended && b in appended :: a.id == b.id ==> a == b)
    && (forall a | a in appended :: a.id != "")
  }

  predicate SpoolInv(w: World) {
    && Valid(w.spool)
    && IdsDetermine(w.appended)
    && RowEvents(w.spool.rows) <= w.appended
    && (forall e | e in w.appended :: Accounted(w, e))
  }

  /** What is on the wire was in the spool, and the server will let it through. */
  predicate Sound(cfg: Config, appended: set<Event>, events: seq<Event>) {
    && events != [] && DistinctIds(events)
    && Admissible(BodyOf(cfg.batchId, events))
    && (forall e | e in events :: e in appended)
  }

  /** A response settles each event of its batch, and the server holds a receipt for each id it acknowledges. */
  predicate Settles(receipts: set<EventId>, events: seq<Event>, r: BatchResponse) {
    && Acked(r) <= receipts
    && Acked(r) + I.RejectedIds(r.rejected) == EventIds(events)
    && (forall x | x in r.rejected :: x.eventId.Some? && x.eventId.value != "")
  }

  predicate WireInv(cfg: Config, w: World) {
    && (forall b | b in w.sent :: Sound(cfg, w.appended, b))
    && (forall x | x in w.responses :: x.0 in w.sent && Settles(w.store.receipts, x.0, x.1))
  }

  predicate StoreInv(cfg: Config, w: World) {
    && I.Once(w.store)
    && w.store.receipts <= IdsOf(w.appended)
    && (forall e | e in w.appended && e.id in w.store.receipts :: I.StoredIn(w.store, e))
    && (forall id | id in w.store.batches :: ReceiptInv(cfg, w, id))
  }

  function IdsOf(events: set<Event>): set<EventId> {
    set e | e in events :: e.id
  }

  predicate ReceiptInv(cfg: Config, w: World, id: I.BatchId)
    requires id in w.store.batches
  {
    var receipt := w.store.batches[id];
    var b := receipt.digest.events;
    && b in w.sent && b != []
    && receipt.digest == BodyOf(cfg.batchId, b)
    && id == cfg.batchId(b)
    && Settles(w.store.receipts, b, receipt.response)
  }

  predicate SenderInv(w: World) {
    match w.sender
    case Sending(records) => Events(records) in w.sent
    case Acknowledging(records, r) => (Events(records), r) in w.responses
    case Quarantining(records, r) => (Events(records), r) in w.responses
    case _ => true
  }

  predicate Inv(cfg: Config, w: World) {
    SpoolInv(w) && WireInv(cfg, w) && StoreInv(cfg, w) && SenderInv(w)
  }

  // ----- Each step keeps the invariant -----

  lemma RowEventsAre(rows: seq<Row>)
    ensures forall e :: e in RowEvents(rows) <==> e in Events(rows)
    ensures forall r | r in rows :: r.event in RowEvents(rows)
  {
    forall r | r in rows
      ensures r.event in Events(rows)
    {
      RowHasId(rows, r);
    }
  }

  lemma AppendKeeps(cfg: Config, w: World, batch: seq<Encoded>, updates: map<string, string>)
    requires Inv(cfg, w) && FreshIds(w.appended, batch)
    ensures Inv(cfg, DoAppend(w, batch, updates))
    ensures Offers(batch) <= RowEvents(DoAppend(w, batch, updates).spool.rows)
  {
    var w' := DoAppend(w, batch, updates);
    InsertAllStays(w.spool, batch);
    InsertedEvents(w.spool, batch);
    OffersHaveIds(w, batch);
    forall e | e in w'.appended
      ensures Accounted(w', e)
    {
      if e in w.appended {
        assert Accounted(w, e);
      } else {
        OfferIsQueued(w, batch, e);
      }
    }
    forall e | e in Offers(batch)
      ensures e in RowEvents(w'.spool.rows)
    {
      OfferIsQueued(w, batch, e);
    }
    AppendKeepsStore(cfg, w, batch, updates);
    forall b | b in w'.sent
      ensures Sound(cfg, w'.appended, b)
    {
      assert Sound(cfg, w.appended, b);
    }
  }

  lemma InsertedEvents(t: Tables, batch: seq<Encoded>)
    requires Valid(t)
    ensures RowEvents(t.rows) <= RowEvents(InsertAll(t, batch).rows) <= RowEvents(t.rows) + Offers(batch)
  {
    InsertAllStays(t, batch);
    var u := InsertAll(t, batch);
    forall r | r in t.rows
      ensures r in u.rows
    {
      var i :| 0 <= i < |t.rows| && t.rows[i] == r;
      assert u.rows[i] == r;
    }
    forall r | r in u.rows
      ensures r.event in RowEvents(t.rows) + Offers(batch)
    {
      var i :| 0 <= i < |u.rows| && u.rows[i] == r;
      if i < |t.rows| {
        assert r == t.rows[i];
      } else {
        assert Offered(batch, r.event);
      }
    }
  }

  lemma OffersHaveIds(w: World, batch: seq<Encoded>)
    requires IdsDetermine(w.appended) && FreshIds(w.appended, batch)
    ensures IdsDetermine(w.appended + Offers(batch))
  {
  }

  /** An offered event is in the table afterwards, because its id is and the id has no other event. */
  lemma OfferIsQueued(w: World, batch: seq<Encoded>, e: Event)
    requires SpoolInv(w) && FreshIds(w.appended, batch) && e in Offers(batch)
    ensures e in RowEvents(InsertAll(w.spool, batch).rows)
  {
    var u := InsertAll(w.spool, batch);
    InsertAllStays(w.spool, batch);
    InsertedEvents(w.spool, batch);
    OffersHaveIds(w, batch);
    var x :| x in batch && x.event == e;
    var r := Find(u.rows, e.id);
    assert r.event in RowEvents(u.rows);
  }

  lemma AppendKeepsStore(cfg: Config, w: World, batch: seq<Encoded>, updates: map<string, string>)
    requires Inv(cfg, w) && FreshIds(w.appended, batch)
    ensures StoreInv(cfg, DoAppend(w, batch, updates))
  {
  }

  /** A step that only shrinks the spool keeps the invariant if each row it removes stays accounted for. */
  lemma ShrinkKeeps(cfg: Config, w: World, w': World)
    requires Inv(cfg, w)
    requires w' == w.(spool := w'.spool, sender := w'.sender, unreported := w'.unreported, completed := w'.completed)
    requires Valid(w'.spool) && w.unreported <= w'.unreported && w.spool.quarantine <= w'.spool.quarantine
    requires forall r | r in w'.spool.rows :: r in w.spool.rows
    requires forall r | r in w.spool.rows ::
               r in w'.spool.rows || r.event.id in w.store.receipts || Holds(w'.spool.quarantine, r.event) || r.event in w'.unreported
    requires SenderInv(w')
    ensures Inv(cfg, w')
  {
    hide Valid, Sound, Settles, I.Once, I.StoredIn, Events, IdsDetermine, SenderInv;
    AccountedStill(w, w');
    hide Accounted, RowEvents;
  }

  lemma AccountedStill(w: World, w': World)
    requires SpoolInv(w)
    requires w' == w.(spool := w'.spool, sender := w'.sender, unreported := w'.unreported, completed := w'.completed)
    requires w.unreported <= w'.unreported && w.spool.quarantine <= w'.spool.quarantine
    requires forall r | r in w'.spool.rows :: r in w.spool.rows
    requires forall r | r in w.spool.rows ::
               r in w'.spool.rows || r.event.id in w.store.receipts || Holds(w'.spool.quarantine, r.event) || r.event in w'.unreported
    ensures forall e | e in w.appended :: Accounted(w', e)
    ensures RowEvents(w'.spool.rows) <= RowEvents(w.spool.rows)
  {
  }

  lemma EvictKeeps(cfg: Config, w: World, cutoff: int)
    requires Inv(cfg, w)
    ensures Inv(cfg, DoEvict(cfg, w, cutoff))
    ensures var w' := DoEvict(cfg, w, cutoff);
            forall r | r in w.spool.rows :: r in w'.spool.rows || r.event in w'.unreported
  {
    var rows := w.spool.rows;
    EvictionConserves(rows, w.spool.nextId, cutoff, cfg.maxBytes);
    var out, kept := Evicted(rows, cutoff, cfg.maxBytes), Kept(rows, cutoff, cfg.maxBytes);
    forall r | r in rows
      ensures r in kept || r in out
    {
      assert r in multiset(out) + multiset(kept);
    }
    ShrinkKeeps(cfg, w, DoEvict(cfg, w, cutoff));
  }

  lemma FetchKeeps(cfg: Config, w: World, backfilling: bool)
    requires Inv(cfg, w)
    ensures Inv(cfg, DoFetch(w, backfilling))
  {
    hide Inv, SpoolInv, WireInv, StoreInv, FetchBatch, Sound, Valid, Events;
    var records := FetchBatch(w.spool.rows, backfilling, w.newestNext);
    if records != [] {
      FetchedIsSound(cfg, w, backfilling);
    }
    SendKeeps(cfg, w, DoFetch(w, backfilling));
  }

  /** Putting a sound batch on the wire and moving the sender keeps the invariant. */
  lemma SendKeeps(cfg: Config, w: World, w': World)
    requires Inv(cfg, w)
    requires w' == w.(sender := w'.sender, newestNext := w'.newestNext, sent := w'.sent, evicted := w'.evicted,
                      unreported := w'.unreported, cutOff := w'.cutOff)
    requires w.sent <= w'.sent && SenderInv(w') && Gone(w) == Gone(w')
    requires forall b | b in w'.sent :: b in w.sent || Sound(cfg, w.appended, b)
    ensures Inv(cfg, w')
  {
  }

  lemma AccountedFrame(w: World, w': World, e: Event)
    requires Accounted(w, e) && w'.spool == w.spool && Gone(w') == Gone(w) && w.store.receipts <= w'.store.receipts
    ensures Accounted(w', e)
  {
  }

  lemma ReceiptFrame(cfg: Config, w: World, w': World, id: I.BatchId)
    requires id in w.store.batches && ReceiptInv(cfg, w, id)
    requires id in w'.store.batches && w'.store.batches[id] == w.store.batches[id]
    requires w.sent <= w'.sent && w.store.receipts <= w'.store.receipts
    ensures ReceiptInv(cfg, w', id)
  {
  }

  lemma FetchOfNothing(backfilling: bool, newestNext: bool)
    ensures FetchBatch([], backfilling, newestNext) == []
  {
  }

  lemma FetchedIsSound(cfg: Config, w: World, backfilling: bool)
    requires Inv(cfg, w) && FetchBatch(w.spool.rows, backfilling, w.newestNext) != []
    ensures Sound(cfg, w.appended, Events(FetchBatch(w.spool.rows, backfilling, w.newestNext)))
  {
    FetchOfNothing(backfilling, w.newestNext);
    hide FetchBatch, WireInv, StoreInv, SenderInv, ValidRows, Admissible, BodyOf;
    FetchedBatchIsAdmissible(cfg.batchId, w.spool.rows, w.spool.nextId, backfilling, w.newestNext);
    RowEventsAre(FetchBatch(w.spool.rows, backfilling, w.newestNext));
  }

  lemma {:induction false} ValidKeepsDistinct(events: seq<Event>, o: I.Owned, receipts: set<EventId>)
    requires DistinctIds(events)
    ensures DistinctIds(I.Unseen(events, receipts)) && DistinctIds(I.ValidEvents(events, o))
  {
    if events != [] {
      var front, e := events[..|events| - 1], I.Last(events);
      assert events == front + [e];
      ValidKeepsDistinct(front, o, receipts);
      I.UnseenAre(front, receipts);
      I.ValidAre(front, o);
      assert e.id !in EventIds(front);
      SnocDistinct(I.Unseen(front, receipts), e);
      SnocDistinct(I.ValidEvents(front, o), e);
    }
  }

  lemma SnocDistinct(events: seq<Event>, e: Event)
    requires DistinctIds(events) && forall x | x in events :: x.id != e.id
    ensures DistinctIds(events + [e]) && DistinctIds(events + [])
  {
  }

  /** The server answers every batch an agent sends with a response that settles it; the 413 for many events, 422, 409 and 500 branches are not taken. */
  lemma DeliverySettles(cfg: Config, w: World, events: seq<Event>, owned: I.Owned)
    requires Injective(cfg) && Inv(cfg, w) && events in w.sent && events != []
    ensures var (store, reply) := I.Ingest(w.store, BodyOf(cfg.batchId, events), owned);
            && reply.Committed? && Settles(store.receipts, events, reply.response)
  {
    var body := BodyOf(cfg.batchId, events);
    assert Sound(cfg, w.appended, events);
    if body.batchId in w.store.batches {
      assert ReceiptInv(cfg, w, body.batchId);
    } else {
      ValidKeepsDistinct(events, owned, {});
      ValidKeepsDistinct(I.ValidEvents(events, owned), owned, w.store.receipts);
      forall e | e in events
        ensures e.id != ""
      {
        assert e in w.appended;
      }
      I.OutcomesPartition(w.store, events, owned);
      I.RejectedAre(events, owned);
    }
  }

  lemma DeliverKeeps(cfg: Config, w: World, events: seq<Event>, owned: I.Owned)
    requires Injective(cfg) && Inv(cfg, w) && events in w.sent && events != []
    ensures Inv(cfg, DoDeliver(cfg, w, events, owned))
  {
    var w' := DoDeliver(cfg, w, events, owned);
    I.IngestStores(w.store, BodyOf(cfg.batchId, events), owned);
    DeliverKeepsStore(cfg, w, events, owned);
    DeliverKeepsWire(cfg, w, events, owned);
    hide I.Ingest, I.StoredIn, StoreInv, WireInv, Valid, Accounted, BodyOf;
    forall e | e in w'.appended
      ensures Accounted(w', e)
    {
      AccountedFrame(w, w', e);
    }
  }

  lemma DeliverKeepsWire(cfg: Config, w: World, events: seq<Event>, owned: I.Owned)
    requires Injective(cfg) && Inv(cfg, w) && events in w.sent && events != []
    ensures WireInv(cfg, DoDeliver(cfg, w, events, owned))
  {
    var w' := DoDeliver(cfg, w, events, owned);
    DeliverySettles(cfg, w, events, owned);
    I.IngestStores(w.store, BodyOf(cfg.batchId, events), owned);
    hide I.Ingest, I.StoredIn, StoreInv, SpoolInv, Sound, BodyOf;
    forall x | x in w'.responses
      ensures x.0 in w'.sent && Settles(w'.store.receipts, x.0, x.1)
    {
      if x in w.responses {
        assert Settles(w.store.receipts, x.0, x.1);
      }
    }
  }

  lemma DeliverKeepsStore(cfg: Config, w: World, events: seq<Event>, owned: I.Owned)
    requires Injective(cfg) && Inv(cfg, w) && events in w.sent && events != []
    ensures StoreInv(cfg, DoDeliver(cfg, w, events, owned))
  {
    var body := BodyOf(cfg.batchId, events);
    var w' := DoDeliver(cfg, w, events, owned);
    DeliverySettles(cfg, w, events, owned);
    I.IngestKeepsOnce(w.store, body, owned);
    I.IngestStores(w.store, body, owned);
    DeliverKeepsReceipts(cfg, w, events, owned);
    hide I.Once, I.StoredIn, I.Accepted, I.StoreAll, Settles, SpoolInv, WireInv, DistinctIds, Sound;
    forall e | e in w'.appended && e.id in w'.store.receipts
      ensures I.StoredIn(w'.store, e)
    {
      ReceiptMeansStored(cfg, w, events, owned, e);
    }
  }

  /** The receipts stay those of appended events, and a receipt of this batch names this batch. */
  lemma DeliverKeepsReceipts(cfg: Config, w: World, events: seq<Event>, owned: I.Owned)
    requires Injective(cfg) && Inv(cfg, w) && events in w.sent && events != []
    ensures var w' := DoDeliver(cfg, w, events, owned);
            && w'.store.receipts <= IdsOf(w'.appended)
            && (forall id | id in w'.store.batches :: ReceiptInv(cfg, w', id))
  {
    hide I.Ingest, I.Once, I.StoredIn, I.Accepted, Settles, SpoolInv, DistinctIds, Injective;
    var body, w' := BodyOf(cfg.batchId, events), DoDeliver(cfg, w, events, owned);
    DeliverySettles(cfg, w, events, owned);
    I.IngestStores(w.store, body, owned);
    I.NewReceipt(w.store, body, owned);
    I.AcceptedAre(w.store, events, owned);
    assert Sound(cfg, w.appended, events);
    hide WireInv;
    forall id | id in w'.store.batches
      ensures ReceiptInv(cfg, w', id)
    {
      if id in w.store.batches {
        ReceiptFrameGrows(cfg, w, w', id);
      }
    }
  }

  lemma ReceiptFrameGrows(cfg: Config, w: World, w': World, id: I.BatchId)
    requires Inv(cfg, w) && id in w.store.batches
    requires id in w'.store.batches && w'.store.batches[id] == w.store.batches[id]
    requires w.sent <= w'.sent && w.store.receipts <= w'.store.receipts
    ensures ReceiptInv(cfg, w', id)
  {
    ReceiptFrame(cfg, w, w', id);
  }

  lemma ReceiptMeansStored(cfg: Config, w: World, events: seq<Event>, owned: I.Owned, e: Event)
    requires Injective(cfg) && Inv(cfg, w) && events in w.sent && events != []
    requires e in w.appended && e.id in DoDeliver(cfg, w, events, owned).store.receipts
    ensures I.StoredIn(DoDeliver(cfg, w, events, owned).store, e)
  {
    var body := BodyOf(cfg.batchId, events);
    I.IngestStores(w.store, body, owned);
    I.AcceptedAre(w.store, events, owned);
    assert Sound(cfg, w.appended, events);
    hide I.Ingest, I.Once, I.StoredIn, I.Accepted, Settles, BodyOf;
    if e.id !in w.store.receipts {
      var a :| a in I.Accepted(w.store, events, owned) && a.id == e.id;
      assert a == e;
    }
  }

  lemma AckedHaveReceipts(cfg: Config, w: World)
    requires Inv(cfg, w) && w.sender.Acknowledging?
    ensures var t := Acknowledged(w.spool, Acked(w.sender.response));
            && Valid(t)
            && (forall r | r in t.rows :: r in w.spool.rows)
            && (forall r | r in w.spool.rows :: r in t.rows || r.event.id in w.store.receipts)
  {
    assert Acked(w.sender.response) <= w.store.receipts;
    AcknowledgeRule(w.spool, Acked(w.sender.response));
  }

  lemma AcknowledgeKeeps(cfg: Config, w: World)
    requires Inv(cfg, w) && w.sender.Acknowledging?
    ensures Inv(cfg, DoAcknowledge(w, w.sender.records, w.sender.response))
    ensures forall r | r in w.spool.rows && r !in DoAcknowledge(w, w.sender.records, w.sender.response).spool.rows ::
              r.event.id in w.store.receipts
  {
    hide WireInv, StoreInv, SpoolInv, Acknowledged, Acked, Valid, Holds, Events;
    AckedHaveReceipts(cfg, w);
    AcknowledgedFrame(w.spool, Acked(w.sender.response));
    ShrinkKeeps(cfg, w, DoAcknowledge(w, w.sender.records, w.sender.response));
  }

  lemma AcknowledgedFrame(t: Tables, ids: set<EventId>)
    ensures Acknowledged(t, ids).quarantine == t.quarantine
  {
  }

  lemma QuarantineKeeps(cfg: Config, w: World)
    requires Inv(cfg, w) && w.sender.Quarantining?
    ensures Inv(cfg, DoQuarantine(w, w.sender.records, w.sender.response))
  {
    hide WireInv, StoreInv, QuarantineAll, Rejects, ValidRows, Holds, Events;
    QuarantineRule(w.spool, Rejects(w.sender.response.rejected, w.sender.records));
    ShrinkKeeps(cfg, w, DoQuarantine(w, w.sender.records, w.sender.response));
  }

  lemma RefuseKeeps(cfg: Config, w: World, status: string)
    requires Inv(cfg, w) && w.sender.Sending?
    ensures Inv(cfg, DoRefuse(w, w.sender.records, status))
  {
    hide WireInv, StoreInv, QuarantineAll, RefuseAll, ValidRows, Holds, Events;
    QuarantineRule(w.spool, RefuseAll(w.sender.records, status));
    ShrinkKeeps(cfg, w, DoRefuse(w, w.sender.records, status));
  }

  lemma StepKeeps(cfg: Config, w: World, step: Step)
    requires Injective(cfg) && Inv(cfg, w)
    ensures Inv(cfg, Apply(cfg, w, step))
  {
    hide SpoolInv, WireInv, StoreInv, DoEvict, DoFetch, DoDeliver, DoRefuse, DoAcknowledge, DoQuarantine, Sound;
    if Apply(cfg, w, step) == w {
      return;
    }
    match step
    case Append(batch, updates) => AppendKeeps(cfg, w, batch, updates);
    case Evict(cutoff) => EvictKeeps(cfg, w, cutoff);
    case Fetch => FetchKeeps(cfg, w, w.sender.backfilling);
    case Deliver(events, owned) => DeliverKeeps(cfg, w, events, owned);
    case Refuse(status) => RefuseKeeps(cfg, w, status);
    case Acknowledge => AcknowledgeKeeps(cfg, w);
    case Quarantine => QuarantineKeeps(cfg, w);
    case _ => SendKeeps(cfg, w, Apply(cfg, w, step));
  }

  lemma {:induction false} RunKeeps(cfg: Config, w: World, steps: seq<Step>)
    requires Injective(cfg) && Inv(cfg, w)
    ensures Inv(cfg, Run(cfg, w, steps))
    decreases steps
  {
    if steps != [] {
      StepKeeps(cfg, w, steps[0]);
      RunKeeps(cfg, Apply(cfg, w, steps[0]), steps[1..]);
    }
  }

  // ----- The theorems, over every run from the initial state -----

  lemma Reachable(cfg: Config, steps: seq<Step>)
    requires Injective(cfg)
    ensures Inv(cfg, Run(cfg, INITIAL, steps))
  {
    assert I.Once(I.EMPTY_STORE);
    RunKeeps(cfg, INITIAL, steps);
  }

  /**
   * No event is lost unseen and none is stored twice: after any run, each event ever appended is
   * queued, stored in the table of its kind, in quarantine, was returned by `append` as evicted, or
   * is about to be, unless that return was cut off; and over the three tables every id is stored
   * exactly as often as it has a receipt.
   */
  lemma NoSilentLoss(cfg: Config, steps: seq<Step>, e: Event)
    requires Injective(cfg)
    requires e in Run(cfg, INITIAL, steps).appended
    ensures var w := Run(cfg, INITIAL, steps);
            && (e in RowEvents(w.spool.rows) || I.StoredIn(w.store, e) || Holds(w.spool.quarantine, e)
                || e in w.evicted || e in w.unreported || e in w.cutOff)
            && I.StoredIds(w.store)[e.id] == (if e.id in w.store.receipts then 1 else 0)
            && (w.cutOff == {} <==> Uninterrupted(cfg, INITIAL, steps))
  {
    Reachable(cfg, steps);
    CutOffIff(cfg, INITIAL, steps);
    var w := Run(cfg, INITIAL, steps);
    assert Accounted(w, e);
    assert I.StoredIds(w.store) == multiset(w.store.receipts);
  }

  /** No crash or cancellation falls between the commit of an eviction and its return. */
  predicate Uninterrupted(cfg: Config, w: World, steps: seq<Step>)
    decreases steps
  {
    steps != [] ==>
      && (steps[0].Crash? || steps[0].Cancel? ==> w.unreported == {})
      && Uninterrupted(cfg, Apply(cfg, w, steps[0]), steps[1..])
  }

  lemma {:induction false} CutOffIff(cfg: Config, w: World, steps: seq<Step>)
    ensures w.cutOff <= Run(cfg, w, steps).cutOff
    ensures w.cutOff == {} ==> (Run(cfg, w, steps).cutOff == {} <==> Uninterrupted(cfg, w, steps))
    decreases steps
  {
    if steps != [] {
      CutOffStep(cfg, w, steps[0]);
      hide Apply;
      CutOffIff(cfg, Apply(cfg, w, steps[0]), steps[1..]);
    }
  }

  lemma CutOffStep(cfg: Config, w: World, step: Step)
    ensures Apply(cfg, w, step).cutOff == w.cutOff + if step.Crash? || step.Cancel? then w.unreported else {}
  {
  }

  /** A crash right after the deletion is committed loses the event without a report, whatever the cap. */
  lemma CrashCutsOff(cfg: Config, e: Event)
    requires e.id != ""
    ensures var w := Run(cfg, INITIAL, [Append([Encoded(e, 0)], map[]), Evict(1), Crash]);
            && e in w.appended && w.cutOff == {e}
            && e !in RowEvents(w.spool.rows) && e.id !in w.store.receipts && w.spool.quarantine == []
            && e !in w.evicted && e !in w.unreported
  {
    var offer, row := [Encoded(e, 0)], Row(0, 0, e);
    FirstAppend(e);
    ExpiredGoes(row, cfg.maxBytes);
    ThreeSteps(cfg, INITIAL, Append(offer, map[]), Evict(1), Crash);
    hide Run, DoAppend, Kept, Evicted, RowEvents;
    var w2 := Apply(cfg, Apply(cfg, INITIAL, Append(offer, map[])), Evict(1));
    assert w2.unreported == {e};
    assert RowEvents([]) == {};
  }

  lemma FirstAppend(e: Event)
    requires e.id != ""
    ensures DoAppend(INITIAL, [Encoded(e, 0)], map[]) == INITIAL.(spool := Tables([Row(0, 0, e)], 1, [], map[]), appended := {e})
  {
    var offer := [Encoded(e, 0)];
    assert offer[1..] == [];
    assert InsertAll(EMPTY_TABLES, offer) == InsertAll(InsertOrIgnore(EMPTY_TABLES, offer[0]), []);
    assert Offers(offer) == {e};
    assert EMPTY_TABLES.state + map[] == map[];
  }

  lemma ThreeSteps(cfg: Config, w: World, a: Step, b: Step, c: Step)
    ensures Run(cfg, w, [a, b, c]) == Apply(cfg, Apply(cfg, Apply(cfg, w, a), b), c)
  {
    hide Apply;
    var w1 := Apply(cfg, w, a);
    var w2 := Apply(cfg, w1, b);
    assert [a, b, c][1..] == [b, c] && [b, c][1..] == [c] && [c][1..] == [];
    assert Run(cfg, w, [a, b, c]) == Run(cfg, w1, [b, c]) == Run(cfg, w2, [c]);
  }

  lemma ExpiredGoes(row: Row, maxBytes: nat)
    requires row == Row(0, 0, row.event)
    ensures Kept([row], 1, maxBytes) == [] && RowEvents(Evicted([row], 1, maxBytes)) == {row.event}
  {
    EvictionExact([row], 1, 1, maxBytes);
    EvictionConserves([row], 1, 1, maxBytes);
    assert [row][0] in Evicted([row], 1, maxBytes);
  }

  /** Acknowledging deletes only what the server has stored. */
  lemma AcknowledgedIsStored(cfg: Config, steps: seq<Step>, r: Row)
    requires Injective(cfg)
    requires var w := Run(cfg, INITIAL, steps);
             r in w.spool.rows && r !in Apply(cfg, w, Acknowledge).spool.rows
    ensures I.StoredIn(Run(cfg, INITIAL, steps).store, r.event)
  {
    hide Run, Acknowledged, WireInv, SenderInv, I.StoredIn, I.Once, Valid, ReceiptInv;
    Reachable(cfg, steps);
    var w := Run(cfg, INITIAL, steps);
    AcknowledgeKeeps(cfg, w);
    assert r.event in RowEvents(w.spool.rows);
  }

  /**
   * Whatever the server did before, a batch that an agent has sent is committed when it arrives, unless its
   * compressed form is too large: none of the other refusals, nor the 409, is reached.
   */
  lemma SentBatchIsCommitted(cfg: Config, steps: seq<Step>, events: seq<Event>, owned: I.Owned, rawSize: nat)
    requires Injective(cfg)
    requires events in Run(cfg, INITIAL, steps).sent
    ensures events != []
    ensures var st, body := Run(cfg, INITIAL, steps).store, BodyOf(cfg.batchId, events);
            && I.Ingest(st, body, owned).1.Committed?
            && I.Receive(st, st, rawSize, Some(body), owned)
               == (if rawSize <= I.MAX_COMPRESSED then I.Ingest(st, body, owned) else (st, I.TooLarge))
  {
    Reachable(cfg, steps);
    var w := Run(cfg, INITIAL, steps);
    assert Sound(cfg, w.appended, events);
    DeliverySettles(cfg, w, events, owned);
    hide Run, I.Ingest, I.IngestRaced, Inv, Sound;
    I.UndisturbedIsIngest(w.store, BodyOf(cfg.batchId, events), owned);
  }

  lemma {:induction false} ReceiptsSurvive(cfg: Config, w: World, steps: seq<Step>, id: I.BatchId)
    requires id in w.store.batches
    ensures var w' := Run(cfg, w, steps); id in w'.store.batches && w'.store.batches[id] == w.store.batches[id]
    decreases steps
  {
    if steps != [] {
      ReceiptSurvives(cfg, w, steps[0], id);
      hide Apply;
      ReceiptsSurvive(cfg, Apply(cfg, w, steps[0]), steps[1..], id);
    }
  }

  lemma ReceiptSurvives(cfg: Config, w: World, step: Step, id: I.BatchId)
    requires id in w.store.batches
    ensures var w' := Apply(cfg, w, step); id in w'.store.batches && w'.store.batches[id] == w.store.batches[id]
  {
    hide I.Ingest, BodyOf, FetchBatch, QuarantineAll, Enforce, Evicted, InsertAll, RefuseAll, Rejects;
    if step.Deliver? && step.events != [] {
      I.ReceiptsAreKept(w.store, BodyOf(cfg.batchId, step.events), step.owned, id);
    }
  }

  /**
   * Retries are deterministic: once a batch is committed, delivering it again after any further
   * steps, crashes and inventory changes returns the first response, marked as a duplicate, and
   * leaves every server table as it was.
   */
  lemma RetryIsDeterministic(cfg: Config, w: World, events: seq<Event>, o1: I.Owned, steps: seq<Step>, o2: I.Owned)
    requires events != [] && cfg.batchId(events) !in w.store.batches
    requires I.Ingest(w.store, BodyOf(cfg.batchId, events), o1).1.Committed? && events in w.sent
    ensures var body := BodyOf(cfg.batchId, events);
            var first := I.Ingest(w.store, body, o1).1.response;
            var later := Run(cfg, Apply(cfg, w, Deliver(events, o1)), steps);
            I.Ingest(later.store, body, o2) == (later.store, I.Committed(first.(duplicateBatch := true)))
  {
    var body := BodyOf(cfg.batchId, events);
    var w1 := Apply(cfg, w, Deliver(events, o1));
    ReceiptsSurvive(cfg, w1, steps, body.batchId);
    I.RedeliveryReplays(w.store, body, o1, Run(cfg, w1, steps).store, o2);
  }
}

/**
 * The server side of delivery: `telemetry_batch` (server/temporalrca_server/api.py) and
 * `ingest_batch` (server/temporalrca_server/ingestion.py) for one authenticated agent, with the
 * receipt tables and the three event tables. One call is one transaction.
 */
module Ingestion {
  import opened Contracts

  /** A batch id stands for the digest of the events: it is what they are. */
  datatype BatchId = BatchId(content: seq<Event>)

  /** The request body. Schema version and creation time are functions of the events and left implicit. */
  datatype Body = Body(batchId: BatchId, firstSequence: nat, lastSequence: nat, backfill: bool, events: seq<Event>)

  /** The host of the agent and the inventory rows that belong to it when the batch arrives. */
  datatype Owned = Owned(hostId: string, services: set<string>, processes: set<string>,
                         containers: set<string>, dependencies: set<string>)

  /** A batch receipt. SHA-256 is taken to be injective, so the digest is the body itself. */
  datatype Receipt = Receipt(digest: Body, response: BatchResponse)

  datatype Store = Store(batches: map<BatchId, Receipt>, receipts: set<EventId>,
                         metrics: seq<Event>, logs: seq<Event>, timeline: seq<Event>)

  const EMPTY_STORE := Store(map[], {}, [], [], [])

  const NORMAL_LIMIT: nat := 500
  const BACKFILL_LIMIT: nat := 2000
  const MAX_COMPRESSED: nat := 2 * 1024 * 1024

  /** 2xx with a response; 422; 413; 409; or an unhandled integrity error, which is a 500. */
  datatype Reply = Committed(response: BatchResponse) | Unprocessable | TooLarge | Conflict | ServerError

  // ----- Classifying events -----

  predicate Refers(reference: Option<string>, owned: set<string>) {
    reference.Some? ==> reference.value in owned
  }

  predicate Acceptable(e: Event, o: Owned) {
    && e.wellFormed
    && (e.hostId.Some? ==> e.hostId.value == o.hostId)
    && Refers(e.serviceId, o.services)
    && Refers(e.processId, o.processes)
    && Refers(e.containerId, o.containers)
    && Refers(e.dependencyId, o.dependencies)
  }

  function ValidEvents(events: seq<Event>, o: Owned): seq<Event> {
    if events == [] then []
    else ValidEvents(events[..|events| - 1], o) + (if Acceptable(Last(events), o) then [Last(events)] else [])
  }

  function Last<T>(s: seq<T>): T
    requires s != []
  {
    s[|s| - 1]
  }

  function RejectedEvents(events: seq<Event>, o: Owned): seq<Rejection> {
    if events == [] then []
    else RejectedEvents(events[..|events| - 1], o)
         + (if Acceptable(Last(events), o) then [] else [Rejection(|events| - 1, Named(Last(events).id))])
  }

  /** An empty id counts as missing. */
  function Named(id: EventId): Option<EventId> {
    if id == "" then None else Some(id)
  }

  function Unseen(events: seq<Event>, receipts: set<EventId>): seq<Event> {
    if events == [] then []
    else Unseen(events[..|events| - 1], receipts) + (if Last(events).id in receipts then [] else [Last(events)])
  }

  function Ids(events: seq<Event>): seq<EventId> {
    seq(|events|, i requires 0 <= i < |events| => events[i].id)
  }

  // ----- The transaction -----

  function OfMetrics(events: seq<Event>): seq<Event> {
    if events == [] then []
    else OfMetrics(events[..|events| - 1]) + (if Last(events).signal.Metric? then [Last(events)] else [])
  }

  function OfLogs(events: seq<Event>): seq<Event> {
    if events == [] then []
    else OfLogs(events[..|events| - 1]) + (if Last(events).signal.Log? then [Last(events)] else [])
  }

  function OfTimeline(events: seq<Event>): seq<Event> {
    if events == [] then []
    else OfTimeline(events[..|events| - 1])
         + (if Last(events).signal.Metric? || Last(events).signal.Log? then [] else [Last(events)])
  }

  function Accepted(st: Store, events: seq<Event>, o: Owned): seq<Event> {
    Unseen(ValidEvents(events, o), st.receipts)
  }

  function Respond(st: Store, events: seq<Event>, o: Owned): BatchResponse {
    BatchResponse(false, Ids(Accepted(st, events, o)), EventIds(ValidEvents(events, o)) * st.receipts, RejectedEvents(events, o))
  }

  function StoreAll(st: Store, accepted: seq<Event>): Store {
    st.(receipts := st.receipts + EventIds(accepted), metrics := st.metrics + OfMetrics(accepted),
        logs := st.logs + OfLogs(accepted), timeline := st.timeline + OfTimeline(accepted))
  }

  /** Two accepted events with one id violate the primary key of the receipts: everything rolls back. */
  function Ingest(st: Store, body: Body, o: Owned): (Store, Reply) {
    if |body.events| > BACKFILL_LIMIT || body.lastSequence < body.firstSequence then (st, Unprocessable)
    else if !body.backfill && |body.events| > NORMAL_LIMIT then (st, TooLarge)
    else if body.batchId in st.batches then
      var saved := st.batches[body.batchId];
      if saved.digest != body then (st, Conflict)
      else (st, Committed(saved.response.(duplicateBatch := true)))
    else
      var accepted := Accepted(st, body.events, o);
      if !DistinctIds(accepted) then (st, ServerError)
      else
        var response := Respond(st, body.events, o);
        (StoreAll(st, accepted).(batches := st.batches[body.batchId := Receipt(body, response)]), Committed(response))
  }

  // ----- Exactly once -----

  /** How often each id is stored, over all three tables. */
  function StoredIds(st: Store): multiset<EventId> {
    multiset(Ids(st.metrics)) + multiset(Ids(st.logs)) + multiset(Ids(st.timeline))
  }

  /** Every id with a receipt is stored exactly once, and no other id is stored. */
  predicate Once(st: Store) {
    StoredIds(st) == multiset(st.receipts)
  }

  lemma IdsConcat(a: seq<Event>, b: seq<Event>)
    ensures Ids(a + b) == Ids(a) + Ids(b)
    ensures multiset(Ids(a + b)) == multiset(Ids(a)) + multiset(Ids(b))
  {
  }

  lemma IdsOne(e: Event)
    ensures Ids([e]) == [e.id]
  {
  }

  /** The three tables between them receive each accepted event once. */
  lemma {:induction false} RoutingPartitions(events: seq<Event>)
    ensures multiset(Ids(OfMetrics(events))) + multiset(Ids(OfLogs(events))) + multiset(Ids(OfTimeline(events)))
            == multiset(Ids(events))
  {
    if events != [] {
      var front, e := events[..|events| - 1], Last(events);
      assert events == front + [e];
      RoutingPartitions(front);
      RoutedOne(events);
      OneBag(front, e);
      OneBag(OfMetrics(front), e);
      OneBag(OfLogs(front), e);
      OneBag(OfTimeline(front), e);
      hide Ids, OfMetrics, OfLogs, OfTimeline;
    }
  }

  lemma RoutedOne(events: seq<Event>)
    requires events != []
    ensures var front, e := events[..|events| - 1], Last(events);
            && OfMetrics(events) == (if e.signal.Metric? then OfMetrics(front) + [e] else OfMetrics(front))
            && OfLogs(events) == (if e.signal.Log? then OfLogs(front) + [e] else OfLogs(front))
            && OfTimeline(events) == (if e.signal.Metric? || e.signal.Log? then OfTimeline(front) else OfTimeline(front) + [e])
  {
  }

  lemma OneBag(events: seq<Event>, e: Event)
    ensures multiset(Ids(events + [e])) == multiset(Ids(events)) + multiset{e.id}
  {
    assert Ids(events + [e]) == Ids(events) + [e.id];
  }

  lemma BagUnion<T>(a: set<T>, b: set<T>)
    requires a !! b
    ensures multiset(a + b) == multiset(a) + multiset(b)
  {
  }

  lemma {:induction false} DistinctBag(events: seq<Event>)
    requires DistinctIds(events)
    ensures multiset(Ids(events)) == multiset(EventIds(events))
  {
    if events != [] {
      var front, e := events[..|events| - 1], Last(events);
      DistinctBag(front);
      SplitIds(events);
      hide Ids, EventIds, DistinctIds, Last;
      IdsConcat(front, [e]);
      IdsOne(e);
      BagUnion(EventIds(front), {e.id});
      assert events == front + [e];
    }
  }

  lemma SplitIds(events: seq<Event>)
    requires events != [] && DistinctIds(events)
    ensures var front, e := events[..|events| - 1], Last(events);
            EventIds(events) == EventIds(front) + {e.id} && e.id !in EventIds(front)
  {
  }

  lemma {:induction false} UnseenAre(events: seq<Event>, receipts: set<EventId>)
    ensures forall e :: e in Unseen(events, receipts) <==> e in events && e.id !in receipts
  {
    if events != [] {
      assert events == events[..|events| - 1] + [Last(events)];
      UnseenAre(events[..|events| - 1], receipts);
    }
  }

  lemma {:induction false} ValidAre(events: seq<Event>, o: Owned)
    ensures forall e :: e in ValidEvents(events, o) <==> e in events && Acceptable(e, o)
  {
    if events != [] {
      assert events == events[..|events| - 1] + [Last(events)];
      ValidAre(events[..|events| - 1], o);
    }
  }

  lemma AcceptedAre(st: Store, events: seq<Event>, o: Owned)
    ensures forall e :: e in Accepted(st, events, o) <==> e in events && Acceptable(e, o) && e.id !in st.receipts
  {
    ValidAre(events, o);
    UnseenAre(ValidEvents(events, o), st.receipts);
  }

  /** Every ingestion, whatever its outcome, keeps each receipted event stored exactly once. */
  lemma IngestKeepsOnce(st: Store, body: Body, o: Owned)
    requires Once(st)
    ensures Once(Ingest(st, body, o).0)
  {
    var next := Ingest(st, body, o).0;
    var accepted := Accepted(st, body.events, o);
    if next != st {
      AcceptedAre(st, body.events, o);
      assert st.receipts !! EventIds(accepted);
      BagUnion(st.receipts, EventIds(accepted));
      hide Ids, EventIds, Accepted, OfMetrics, OfLogs, OfTimeline;
      IdsConcat(st.metrics, OfMetrics(accepted));
      IdsConcat(st.logs, OfLogs(accepted));
      IdsConcat(st.timeline, OfTimeline(accepted));
      RoutingPartitions(accepted);
      DistinctBag(accepted);
      assert StoredIds(next) == StoredIds(st) + multiset(EventIds(accepted));
    }
  }

  /** Where an event belongs. */
  predicate StoredIn(st: Store, e: Event) {
    match e.signal
    case Metric => e in st.metrics
    case Log => e in st.logs
    case _ => e in st.timeline
  }

  lemma {:induction false} Routed(events: seq<Event>, e: Event)
    requires e in events
    ensures match e.signal
            case Metric => e in OfMetrics(events)
            case Log => e in OfLogs(events)
            case _ => e in OfTimeline(events)
  {
    var front := events[..|events| - 1];
    assert events == front + [Last(events)];
    if e in front {
      Routed(front, e);
    }
  }

  // ----- The outcome of a committed batch -----

  function RejectedIds(rejected: seq<Rejection>): set<EventId> {
    set r | r in rejected && r.eventId.Some? :: r.eventId.value
  }

  /** Rejections name precisely the unacceptable events, each at its own index. */
  lemma {:induction false} RejectedAre(events: seq<Event>, o: Owned)
    ensures forall r :: r in RejectedEvents(events, o)
                        <==> r.index < |events| && !Acceptable(events[r.index], o) && r.eventId == Named(events[r.index].id)
  {
    if events != [] {
      RejectedAre(events[..|events| - 1], o);
    }
  }

  /** Accepted, duplicate and rejected ids partition the ids of a batch with distinct, non-empty ids. */
  lemma OutcomesPartition(st: Store, events: seq<Event>, o: Owned)
    requires DistinctIds(events) && "" !in EventIds(events)
    ensures var r := Respond(st, events, o);
            var accepted := EventIds(Accepted(st, events, o));
            && (set id | id in r.accepted) == accepted
            && accepted + r.duplicates + RejectedIds(r.rejected) == EventIds(events)
            && accepted !! r.duplicates && accepted !! RejectedIds(r.rejected) && r.duplicates !! RejectedIds(r.rejected)
            && r.duplicates <= st.receipts && accepted !! st.receipts
  {
    var r := Respond(st, events, o);
    var accepted := Accepted(st, events, o);
    AcceptedAre(st, events, o);
    ValidAre(events, o);
    IdsAreEventIds(accepted);
    RejectedIdsAre(events, o);
    forall a, b | a in events && b in events && a.id == b.id
      ensures a == b
    {
      SameId(events, a, b);
    }
  }

  lemma SameId(events: seq<Event>, a: Event, b: Event)
    requires DistinctIds(events) && a in events && b in events && a.id == b.id
    ensures a == b
  {
  }

  lemma IdsAreEventIds(events: seq<Event>)
    ensures (set id | id in Ids(events)) == EventIds(events)
  {
    forall e | e in events
      ensures e.id in Ids(events)
    {
      var i :| 0 <= i < |events| && events[i] == e;
      assert Ids(events)[i] == e.id;
    }
  }

  lemma RejectedIdsAre(events: seq<Event>, o: Owned)
    requires "" !in EventIds(events)
    ensures RejectedIds(RejectedEvents(events, o)) == set e | e in events && !Acceptable(e, o) :: e.id
  {
    RejectedAre(events, o);
    var rejected := RejectedEvents(events, o);
    forall e | e in events && !Acceptable(e, o)
      ensures e.id in RejectedIds(rejected)
    {
      var i :| 0 <= i < |events| && events[i] == e;
      assert e.id in EventIds(events);
      assert Rejection(i, Some(e.id)) in rejected;
    }
    forall id | id in RejectedIds(rejected)
      ensures exists e :: e in events && !Acceptable(e, o) && e.id == id
    {
      var r :| r in rejected && r.eventId.Some? && r.eventId.value == id;
      assert events[r.index] in events;
    }
  }

  /** An accepted event is stored in the table of its kind, and what was stored stays. */
  lemma IngestStores(st: Store, body: Body, o: Owned)
    ensures var next := Ingest(st, body, o).0;
            && st.receipts <= next.receipts
            && (forall e | StoredIn(st, e) :: StoredIn(next, e))
            && (next != st ==> next.receipts == st.receipts + EventIds(Accepted(st, body.events, o))
                               && forall e | e in Accepted(st, body.events, o) :: StoredIn(next, e))
  {
    var next := Ingest(st, body, o).0;
    if next != st {
      forall e | e in Accepted(st, body.events, o)
        ensures StoredIn(next, e)
      {
        Routed(Accepted(st, body.events, o), e);
      }
    }
  }

  /** At most the receipt of this batch is new. */
  lemma NewReceipt(st: Store, body: Body, o: Owned)
    ensures var (next, reply) := Ingest(st, body, o);
            next.batches == st.batches
            || (body.batchId !in st.batches && reply.Committed?
                && next.batches == st.batches[body.batchId := Receipt(body, reply.response)])
  {
  }

  /** Each table receives the accepted events of its signal: metrics, logs, and everything else. */
  lemma {:induction false} RoutedBySignal(events: seq<Event>)
    ensures forall e :: e in OfMetrics(events) <==> e in events && e.signal == Metric
    ensures forall e :: e in OfLogs(events) <==> e in events && e.signal == Log
    ensures forall e :: e in OfTimeline(events) <==> e in events && e.signal in {Lifecycle, CollectorHealth, GroundTruth}
  {
    if events != [] {
      assert events == events[..|events| - 1] + [Last(events)];
      RoutedBySignal(events[..|events| - 1]);
    }
  }

  /**
   * An event is rejected, by its index, exactly if it is malformed, claims another host, or refers to a service, a
   * process, a container or a dependency that is not one of the agent's host.
   */
  lemma RejectedIff(st: Store, events: seq<Event>, o: Owned, i: nat)
    requires i < |events|
    ensures var e := events[i];
            (exists r :: r in Respond(st, events, o).rejected && r.index == i)
            <==> !e.wellFormed || (e.hostId != None && e.hostId != Some(o.hostId))
                 || (e.serviceId != None && forall s | s in o.services :: e.serviceId != Some(s))
                 || (e.processId != None && forall p | p in o.processes :: e.processId != Some(p))
                 || (e.containerId != None && forall c | c in o.containers :: e.containerId != Some(c))
                 || (e.dependencyId != None && forall d | d in o.dependencies :: e.dependencyId != Some(d))
  {
    RejectedAre(events, o);
    var r := Rejection(i, Named(events[i].id));
    assert r in Respond(st, events, o).rejected <==> !Acceptable(events[i], o);
    hide Respond;
  }

  // ----- Refusals -----

  /** The body passes its schema and the limit for its kind. */
  predicate Passes(body: Body) {
    |body.events| <= 2000 && body.firstSequence <= body.lastSequence && (body.backfill || |body.events| <= 500)
  }

  /** Two events of the batch that would both be stored have one id. */
  predicate Collides(st: Store, events: seq<Event>, o: Owned) {
    exists i, j :: 0 <= i < j < |events| && events[i].id == events[j].id && events[i].id !in st.receipts
                   && Acceptable(events[i], o) && Acceptable(events[j], o)
  }

  lemma {:induction false} CollidesIff(st: Store, events: seq<Event>, o: Owned)
    ensures DistinctIds(Accepted(st, events, o)) <==> !Collides(st, events, o)
  {
    if events != [] {
      var n := |events| - 1;
      var front, e := events[..n], events[n];
      CollidesIff(st, front, o);
      AcceptedAre(st, front, o);
      AcceptedOne(st, events, o);
      CollidesOne(st, events, o);
      hide Accepted, Collides, Acceptable, DistinctIds;
      var before := Accepted(st, front, o);
      if Acceptable(e, o) && e.id !in st.receipts {
        DistinctOne(before, e);
      } else {
        assert before + [] == before;
      }
    }
  }

  lemma AcceptedOne(st: Store, events: seq<Event>, o: Owned)
    requires events != []
    ensures var n := |events| - 1;
            Accepted(st, events, o)
            == Accepted(st, events[..n], o) + if Acceptable(events[n], o) && events[n].id !in st.receipts then [events[n]] else []
  {
    assert Accepted(st, events[..|events| - 1], o) + [] == Accepted(st, events[..|events| - 1], o);
    assert ValidEvents(events[..|events| - 1], o) + [] == ValidEvents(events[..|events| - 1], o);
  }

  lemma CollidesOne(st: Store, events: seq<Event>, o: Owned)
    requires events != []
    ensures var n := |events| - 1;
            Collides(st, events, o)
            <==> Collides(st, events[..n], o)
                 || (Acceptable(events[n], o) && events[n].id !in st.receipts
                     && exists e :: e in events[..n] && e.id == events[n].id && Acceptable(e, o))
  {
    hide Acceptable;
    var n := |events| - 1;
    if e :| e in events[..n] && e.id == events[n].id && Acceptable(e, o) {
      var i :| 0 <= i < n && events[i] == e;
    }
    assert forall i | 0 <= i < n :: events[..n][i] == events[i];
    if i, j :| 0 <= i < j < |events| && events[i].id == events[j].id && events[i].id !in st.receipts
               && Acceptable(events[i], o) && Acceptable(events[j], o) {
      if j == n {
        assert events[i] in events[..n];
      }
    }
  }

  lemma DistinctOne(before: seq<Event>, e: Event)
    ensures DistinctIds(before + [e]) <==> DistinctIds(before) && forall a | a in before :: a.id != e.id
  {
    var all := before + [e];
    assert all[|before|] == e;
    assert forall i | 0 <= i < |before| :: all[i] == before[i];
  }

  /** When each refusal is the answer, on the request, the tables and nothing else; a refusal changes no table. */
  lemma RefusalsAre(st: Store, rawSize: nat, parsed: Option<Body>, o: Owned)
    ensures var (after, reply) := Receive(st, st, rawSize, parsed, o);
            && (reply == TooLarge
                <==> rawSize > 2097152
                     || (parsed.Some? && 500 < |parsed.value.events| <= 2000 && !parsed.value.backfill
                         && parsed.value.firstSequence <= parsed.value.lastSequence))
            && (reply == Unprocessable
                <==> rawSize <= 2097152
                     && (parsed.None? || |parsed.value.events| > 2000 || parsed.value.firstSequence > parsed.value.lastSequence))
            && (reply == Conflict
                <==> rawSize <= 2097152 && parsed.Some? && Passes(parsed.value)
                     && parsed.value.batchId in st.batches && st.batches[parsed.value.batchId].digest != parsed.value)
            && (reply == ServerError
                <==> rawSize <= 2097152 && parsed.Some? && Passes(parsed.value)
                     && parsed.value.batchId !in st.batches && Collides(st, parsed.value.events, o))
            && (!reply.Committed? ==> after == st)
  {
    if parsed.Some? {
      UndisturbedIsIngest(st, parsed.value, o);
      CollidesIff(st, parsed.value.events, o);
    }
    hide IngestRaced, Accepted, Collides, DistinctIds, StoreAll, Respond;
  }

  // ----- Redelivery -----

  /** Once a batch is committed, delivering it again changes nothing and repeats the first response, marked as a duplicate. */
  lemma RedeliveryReplays(st: Store, body: Body, o: Owned, later: Store, o2: Owned)
    requires body.batchId !in st.batches && Ingest(st, body, o).1.Committed?
    requires body.batchId in later.batches && later.batches[body.batchId] == Ingest(st, body, o).0.batches[body.batchId]
    ensures Ingest(later, body, o2) == (later, Committed(Ingest(st, body, o).1.response.(duplicateBatch := true)))
  {
  }

  /** A batch id belongs to the payload that was committed under it: from then on any other is answered with 409. */
  lemma OtherPayloadConflicts(st: Store, body: Body, o: Owned, later: Store, other: Body, o2: Owned)
    requires body.batchId !in st.batches && Ingest(st, body, o).1.Committed?
    requires body.batchId in later.batches && later.batches[body.batchId] == Ingest(st, body, o).0.batches[body.batchId]
    requires other.batchId == body.batchId && Passes(other)
    ensures Ingest(later, other, o2).0 == later && (Ingest(later, other, o2).1 == Conflict <==> other != body)
  {
  }

  /** No ingestion alters or removes a batch receipt. */
  lemma ReceiptsAreKept(st: Store, body: Body, o: Owned, id: BatchId)
    requires id in st.batches
    ensures id in Ingest(st, body, o).0.batches && Ingest(st, body, o).0.batches[id] == st.batches[id]
  {
  }

  // ----- Races -----

  /**
   * The same ingestion with its reads from `seen` and its commit on `now`. A violated key rolls it back; the
   * receipt of a concurrent delivery of the same payload is then replayed.
   */
  function IngestRaced(seen: Store, now: Store, body: Body, o: Owned): (Store, Reply) {
    if !Reaches(seen, body) then Ingest(seen, body, o)
    else
      var accepted := Accepted(seen, body.events, o);
      if !DistinctIds(accepted) || !(EventIds(accepted) !! now.receipts) || body.batchId in now.batches then
        (now, if body.batchId in now.batches && now.batches[body.batchId].digest == body
              then Committed(now.batches[body.batchId].response.(duplicateBatch := true)) else ServerError)
      else
        var response := Respond(seen, body.events, o);
        (StoreAll(now, accepted).(batches := now.batches[body.batchId := Receipt(body, response)]), Committed(response))
  }

  /** The body passes the checks and has no receipt yet. */
  predicate Reaches(seen: Store, body: Body) {
    && |body.events| <= BACKFILL_LIMIT && body.firstSequence <= body.lastSequence
    && (body.backfill || |body.events| <= NORMAL_LIMIT)
    && body.batchId !in seen.batches
  }

  /** The endpoint; `parsed` is None when the body does not decompress, parse or validate. */
  function Receive(seen: Store, now: Store, rawSize: nat, parsed: Option<Body>, o: Owned): (Store, Reply) {
    if rawSize > MAX_COMPRESSED then (seen, TooLarge)
    else if parsed.None? then (seen, Unprocessable)
    else IngestRaced(seen, now, parsed.value, o)
  }

  /** Undisturbed, no key is violated that the batch itself does not violate. */
  lemma UndisturbedIsIngest(st: Store, body: Body, o: Owned)
    ensures IngestRaced(st, st, body, o) == Ingest(st, body, o)
  {
    AcceptedAre(st, body.events, o);
    assert EventIds(Accepted(st, body.events, o)) !! st.receipts;
    hide Accepted, Respond, StoreAll, EventIds, DistinctIds;
  }

  function IngestAll(st: Store, deliveries: seq<(Body, Owned)>): Store {
    if deliveries == [] then st
    else
      var last := deliveries[|deliveries| - 1];
      Ingest(IngestAll(st, deliveries[..|deliveries| - 1]), last.0, last.1).0
  }

  predicate Later(st: Store, now: Store) {
    st.receipts <= now.receipts && forall id | id in st.batches :: id in now.batches && now.batches[id] == st.batches[id]
  }

  lemma {:induction false} AllLater(st: Store, deliveries: seq<(Body, Owned)>)
    ensures Later(st, IngestAll(st, deliveries)) && (Once(st) ==> Once(IngestAll(st, deliveries)))
  {
    if deliveries != [] {
      var n := |deliveries| - 1;
      var before, last := IngestAll(st, deliveries[..n]), deliveries[n];
      AllLater(st, deliveries[..n]);
      hide Ingest, Once, StoredIn, Accepted, EventIds;
      IngestStores(before, last.0, last.1);
      NewReceipt(before, last.0, last.1);
      if Once(before) {
        IngestKeepsOnce(before, last.0, last.1);
      }
    }
  }

  /** What nobody has recorded since is unseen still. */
  lemma {:induction false} UnseenLater(events: seq<Event>, receipts: set<EventId>, now: set<EventId>)
    requires receipts <= now && EventIds(Unseen(events, receipts)) !! now
    ensures Unseen(events, now) == Unseen(events, receipts)
  {
    if events != [] {
      var n := |events| - 1;
      var front, all := Unseen(events[..n], receipts), Unseen(events, receipts);
      assert forall e | e in front :: e in all;
      assert EventIds(front) <= EventIds(all);
      UnseenLater(events[..n], receipts, now);
      if events[n].id !in receipts {
        assert all[|all| - 1] == events[n];
        assert events[n].id in EventIds(all);
      }
    }
  }

  lemma RespondLater(seen: Store, now: Store, body: Body, o: Owned)
    requires Later(seen, now) && EventIds(Accepted(seen, body.events, o)) !! now.receipts
    ensures Accepted(now, body.events, o) == Accepted(seen, body.events, o) && Respond(now, body.events, o) == Respond(seen, body.events, o)
  {
    var valid := ValidEvents(body.events, o);
    UnseenLater(valid, seen.receipts, now.receipts);
    UnseenAre(valid, seen.receipts);
    hide Unseen, ValidEvents, RejectedEvents, Ids;
    forall e | e in valid && e.id !in seen.receipts
      ensures e.id !in now.receipts
    {
      assert e in Accepted(seen, body.events, o);
      assert e.id in EventIds(Accepted(seen, body.events, o));
    }
    assert EventIds(valid) * seen.receipts == EventIds(valid) * now.receipts;
  }

  /**
   * With deliveries committed between its reads and its own commit, an ingestion does and says what it would
   * have after them, or fails and changes nothing; it never fails when one of them was the same payload.
   */
  lemma RacesSerialise(seen: Store, meanwhile: seq<(Body, Owned)>, body: Body, o: Owned)
    requires Reaches(seen, body)
    ensures var now := IngestAll(seen, meanwhile);
            var (after, reply) := IngestRaced(seen, now, body, o);
            && ((after, reply) == Ingest(now, body, o) || (after == now && reply == ServerError))
            && (body.batchId in now.batches && now.batches[body.batchId].digest == body
                ==> (after, reply) == (now, Committed(now.batches[body.batchId].response.(duplicateBatch := true))))
            && (Once(seen) ==> Once(after))
  {
    hide IngestAll, Accepted, Respond, StoreAll, EventIds, Once, DistinctIds;
    var now := IngestAll(seen, meanwhile);
    AllLater(seen, meanwhile);
    if EventIds(Accepted(seen, body.events, o)) !! now.receipts {
      RespondLater(seen, now, body, o);
    }
    if Once(seen) {
      IngestKeepsOnce(now, body, o);
    }
  }

  // ----- The class -----

  class Server {
    var batches: map<BatchId, Receipt>
    var receipts: set<EventId>
    var metrics: seq<Event>
    var logs: seq<Event>
    var timeline: seq<Event>

    function View(): Store
      reads this
    {
      Store(batches, receipts, metrics, logs, timeline)
    }

    constructor ()
      ensures View() == EMPTY_STORE
    {
      batches, receipts, metrics, logs, timeline := map[], {}, [], [], [];
    }

    /** One POST to /telemetry/batches, from the size checks to the commit; `meanwhile` are the deliveries that commit in between. */
    method TelemetryBatch(rawSize: nat, parsed: Option<Body>, o: Owned, meanwhile: seq<(Body, Owned)>) returns (reply: Reply)
      modifies this
      ensures (View(), reply) == Receive(old(View()), IngestAll(old(View()), meanwhile), rawSize, parsed, o)
    {
      if rawSize > MAX_COMPRESSED {
        return TooLarge;
      }
      if parsed.None? {
        return Unprocessable;
      }
      reply := IngestBatch(parsed.value, o, meanwhile);
    }

    method IngestBatch(body: Body, o: Owned, meanwhile: seq<(Body, Owned)>) returns (reply: Reply)
      modifies this
      ensures (View(), reply) == IngestRaced(old(View()), IngestAll(old(View()), meanwhile), body, o)
    {
      if |body.events| > BACKFILL_LIMIT || body.lastSequence < body.firstSequence {
        return Unprocessable;
      }
      if !body.backfill && |body.events| > NORMAL_LIMIT {
        return TooLarge;
      }
      if body.batchId in batches {
        if batches[body.batchId].digest != body {
          return Conflict;
        }
        return Committed(batches[body.batchId].response.(duplicateBatch := true));
      }
      var valid, rejected := Classify(body.events, o);
      var duplicates := EventIds(valid) * receipts;
      var accepted := Unseen(valid, receipts);
      var response := BatchResponse(false, Ids(accepted), duplicates, rejected);
      CommitOthers(meanwhile);
      if !DistinctIds(accepted) || !(EventIds(accepted) !! receipts) || body.batchId in batches {
        // The transaction is rolled back; a receipt of the same payload is replayed.
        if body.batchId in batches && batches[body.batchId].digest == body {
          return Committed(batches[body.batchId].response.(duplicateBatch := true));
        }
        return ServerError;
      }
      InsertAccepted(accepted);
      batches := batches[body.batchId := Receipt(body, response)];
      return Committed(response);
    }

    /** Other deliveries commit. */
    method CommitOthers(meanwhile: seq<(Body, Owned)>)
      modifies this
      ensures View() == IngestAll(old(View()), meanwhile)
    {
      var now := IngestAll(View(), meanwhile);
      batches, receipts, metrics, logs, timeline := now.batches, now.receipts, now.metrics, now.logs, now.timeline;
    }

    /** Add a receipt and a row for each accepted event. */
    method InsertAccepted(accepted: seq<Event>)
      modifies `receipts, `metrics, `logs, `timeline
      ensures View() == StoreAll(old(View()), accepted)
    {
      for i := 0 to |accepted|
        invariant View() == StoreAll(old(View()), accepted[..i])
      {
        var e := accepted[i];
        StoreOneMore(old(View()), accepted, i);
        hide StoreAll;
        receipts := receipts + {e.id};
        match e.signal
        case Metric => metrics := metrics + [e];
        case Log => logs := logs + [e];
        case _ => timeline := timeline + [e];
      }
      assert accepted[..|accepted|] == accepted;
    }
  }

  function StoreOne(st: Store, e: Event): Store {
    var st1 := st.(receipts := st.receipts + {e.id});
    match e.signal
    case Metric => st1.(metrics := st.metrics + [e])
    case Log => st1.(logs := st.logs + [e])
    case _ => st1.(timeline := st.timeline + [e])
  }

  lemma StoreOneMore(st: Store, accepted: seq<Event>, i: nat)
    requires i < |accepted|
    ensures StoreAll(st, accepted[..i + 1]) == StoreOne(StoreAll(st, accepted[..i]), accepted[i])
  {
    assert accepted[..i + 1][..i] == accepted[..i];
    assert EventIds(accepted[..i + 1]) == EventIds(accepted[..i]) + {accepted[i].id};
    var e := accepted[i];
    assert st.metrics + OfMetrics(accepted[..i]) + [e] == st.metrics + (OfMetrics(accepted[..i]) + [e]);
    assert st.logs + OfLogs(accepted[..i]) + [e] == st.logs + (OfLogs(accepted[..i]) + [e]);
    assert st.timeline + OfTimeline(accepted[..i]) + [e] == st.timeline + (OfTimeline(accepted[..i]) + [e]);
    hide EventIds;
  }

  /** Split a batch into valid events and explicit rejections. */
  method Classify(events: seq<Event>, o: Owned) returns (valid: seq<Event>, rejected: seq<Rejection>)
    ensures valid == ValidEvents(events, o) && rejected == RejectedEvents(events, o)
  {
    valid, rejected := [], [];
    for i := 0 to |events|
      invariant valid == ValidEvents(events[..i], o) && rejected == RejectedEvents(events[..i], o)
    {
      assert events[..i + 1][..i] == events[..i];
      if Acceptable(events[i], o) {
        valid := valid + [events[i]];
      } else {
        rejected := rejected + [Rejection(i, Named(events[i].id))];
      }
    }
    assert events[..|events|] == events;
  }
}

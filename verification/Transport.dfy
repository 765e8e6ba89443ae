/**
 * What one sender iteration computes from the spool and from a response:
 * agent/src/temporalrca_agent/transport.py and the body of `Agent.sender` in runtime.py.
 */
module Transport {
  import opened Contracts
  import opened Spool
  import I = Ingestion

  const BATCH_BYTES: nat := 1024 * 1024
  const NORMAL_EVENTS: nat := 500
  const BACKFILL_EVENTS: nat := 2000

  /** Authentication failures, timeouts, rate limits and server errors are retried; no status at all is a transport error. */
  predicate Retryable(status: Option<nat>) {
    status.None? || status.value in {401, 403, 408, 429} || status.value >= 500
  }

  // ----- The request -----

  function MinSequence(events: seq<Event>): (m: nat)
    requires events != []
    ensures forall e | e in events :: m <= e.sequence
    ensures exists e :: e in events && e.sequence == m
  {
    if |events| == 1 then events[0].sequence
    else
      var m := MinSequence(events[1..]);
      if events[0].sequence < m then events[0].sequence else m
  }

  function MaxSequence(events: seq<Event>): (m: nat)
    requires events != []
    ensures forall e | e in events :: e.sequence <= m
    ensures exists e :: e in events && e.sequence == m
  {
    if |events| == 1 then events[0].sequence
    else
      var m := MaxSequence(events[1..]);
      if events[0].sequence > m then events[0].sequence else m
  }

  /** `batchId` stands for UUIDv5 (section 5.5 of RFC 9562) over the SHA-256 of the canonical JSON. */
  function BodyOf(batchId: seq<Event> -> I.BatchId, events: seq<Event>): I.Body
    requires events != []
  {
    I.Body(batchId(events), MinSequence(events), MaxSequence(events), |events| > NORMAL_EVENTS, events)
  }

  // ----- Fetching -----

  function Backfilling(count: nat): bool {
    count > NORMAL_EVENTS
  }

  function FetchBatch(rows: seq<Row>, backfilling: bool, newestNext: bool): seq<Row> {
    BatchOf(rows, if backfilling then BACKFILL_EVENTS else NORMAL_EVENTS, BATCH_BYTES, backfilling && newestNext)
  }

  /** A fetched batch of distinct events passes every count and sequence check of the server. */
  lemma FetchedBatchIsAdmissible(batchId: seq<Event> -> I.BatchId, rows: seq<Row>, nextId: nat, backfilling: bool, newestNext: bool)
    requires ValidRows(rows, nextId) && rows != []
    ensures var b := FetchBatch(rows, backfilling, newestNext);
            && b != [] && ValidRows(b, nextId) && (forall r | r in b :: r in rows)
            && DistinctIds(Events(b))
            && Admissible(BodyOf(batchId, Events(b)))
  {
  }

  /** The checks in front of the receipt lookup: the schema and both event limits. */
  predicate Admissible(body: I.Body) {
    && |body.events| <= I.BACKFILL_LIMIT
    && body.firstSequence <= body.lastSequence
    && (!body.backfill ==> |body.events| <= I.NORMAL_LIMIT)
  }

  /**
   * What one iteration reads: above 500 queued events up to 2,000, from the newest end when it is its turn, else
   * up to 500 of the oldest; at most 1 MiB unless a single record is larger; and as many as these allow.
   */
  lemma FetchedBatchIs(rows: seq<Row>, nextId: nat, newestNext: bool)
    requires ValidRows(rows, nextId)
    ensures var b, limit := FetchBatch(rows, Backfilling(|rows|), newestNext), if |rows| > 500 then 2000 else 500;
            var newest := |rows| > 500 && newestNext;
            && |b| <= |rows| && |b| <= limit
            && b == (if newest then rows[|rows| - |b|..] else rows[..|b|])
            && (|b| <= 1 || Bytes(b) <= 1048576)
            && (|b| < |rows| && |b| < limit ==> b != [] && Bytes(b) + (if newest then rows[|rows| - |b| - 1] else rows[|b|]).event.size > 1048576)
  {
    BatchShape(rows, nextId, if |rows| > 500 then 2000 else 500, 1048576, |rows| > 500 && newestNext);
    hide BatchOf, ValidRows, Bytes;
  }

  /** The request of a batch: it asks for the backfill limit exactly above 500 events, and names the range of its sequences. */
  lemma BodyIs(batchId: seq<Event> -> I.BatchId, events: seq<Event>)
    requires events != []
    ensures var body := BodyOf(batchId, events);
            && body.events == events && body.batchId == batchId(events) && (body.backfill <==> |events| > 500)
            && (forall e | e in events :: body.firstSequence <= e.sequence <= body.lastSequence)
            && (exists e :: e in events && e.sequence == body.firstSequence)
            && (exists e :: e in events && e.sequence == body.lastSequence)
  {
  }

  // ----- The response -----

  /** The ids that the agent deletes: accepted plus duplicate. */
  function Acked(r: BatchResponse): set<EventId> {
    (set id | id in r.accepted) + r.duplicates
  }

  const PERMANENT := "permanent rejection"

  /** The quarantine dictionary: the named id, else the id of the record at the given index. */
  function Rejects(rejected: seq<Rejection>, records: seq<Row>): seq<Reject> {
    if rejected == [] then []
    else
      var item := rejected[|rejected| - 1];
      var id := if item.eventId.Some? && item.eventId.value != "" then item.eventId.value
                else if item.index < |records| then records[item.index].event.id
                else "";
      Rejects(rejected[..|rejected| - 1], records) + (if id == "" then [] else [Reject(id, PERMANENT)])
  }

  function RefuseAll(records: seq<Row>, status: string): seq<Reject> {
    seq(|records|, i requires 0 <= i < |records| => Reject(records[i].event.id, status))
  }

  /** A rejection with an id means that id; one without means the record at its index, if there is one. */
  predicate IsRejected(rejected: seq<Rejection>, records: seq<Row>, id: EventId) {
    id != "" && exists i :: 0 <= i < |rejected| && Means(rejected[i], records, id)
  }

  predicate Means(item: Rejection, records: seq<Row>, id: EventId) {
    if item.eventId == None || item.eventId == Some("") then item.index < |records| && records[item.index].event.id == id
    else item.eventId == Some(id)
  }

  lemma {:induction false} RejectsAre(rejected: seq<Rejection>, records: seq<Row>, id: EventId)
    ensures id in RejectIds(Rejects(rejected, records)) <==> IsRejected(rejected, records, id)
  {
    if rejected != [] {
      var n := |rejected| - 1;
      RejectsAre(rejected[..n], records, id);
      RejectsOne(rejected, records, id);
      assert forall i | 0 <= i < n :: rejected[..n][i] == rejected[i];
      assert IsRejected(rejected, records, id) <==> IsRejected(rejected[..n], records, id) || IsRejected([rejected[n]], records, id) by {
        assert [rejected[n]][0] == rejected[n];
      }
    }
  }

  lemma RejectsOne(rejected: seq<Rejection>, records: seq<Row>, id: EventId)
    requires rejected != []
    ensures var n := |rejected| - 1;
            id in RejectIds(Rejects(rejected, records)) <==> id in RejectIds(Rejects(rejected[..n], records)) || IsRejected([rejected[n]], records, id)
  {
    var n := |rejected| - 1;
    var before := Rejects(rejected[..n], records);
    assert before + [] == before;
    if IsRejected([rejected[n]], records, id) {
      assert Rejects(rejected, records) == before + [Reject(id, PERMANENT)];
      assert Reject(id, PERMANENT) in Rejects(rejected, records);
    }
    assert [rejected[n]][0] == rejected[n];
  }

  /** When every rejection names a non-empty id, exactly the named ids are quarantined. */
  lemma {:induction false} RejectsAreNamed(rejected: seq<Rejection>, records: seq<Row>)
    requires forall r | r in rejected :: r.eventId.Some? && r.eventId.value != ""
    ensures RejectIds(Rejects(rejected, records)) == I.RejectedIds(rejected)
  {
    if rejected != [] {
      var front, item := rejected[..|rejected| - 1], rejected[|rejected| - 1];
      assert rejected == front + [item];
      RejectsAreNamed(front, records);
      assert I.RejectedIds(rejected) == I.RejectedIds(front) + {item.eventId.value};
      assert Rejects(rejected, records) == Rejects(front, records) + [Reject(item.eventId.value, PERMANENT)];
    }
  }

  lemma RefuseIds(records: seq<Row>, status: string)
    ensures RejectIds(RefuseAll(records, status)) == EventIds(Events(records))
  {
    forall i | 0 <= i < |records|
      ensures records[i].event.id in RejectIds(RefuseAll(records, status))
    {
      assert RefuseAll(records, status)[i] in RefuseAll(records, status);
    }
    forall r | r in RefuseAll(records, status)
      ensures r.id in EventIds(Events(records))
    {
      var i :| 0 <= i < |records| && RefuseAll(records, status)[i] == r;
      assert Events(records)[i] in Events(records);
    }
  }
}

/**
 * The durable event queue of agent/src/temporalrca_agent/spool.py: an ordered table with
 * unique event ids, a byte and age limit, a quarantine table and a key/value table.
 */
module Spool {
  import opened Contracts

  datatype Row = Row(id: nat, created: int, event: Event)

  datatype Quarantined = Quarantined(event: Event, reason: string)

  /** The three tables. `nextId` is the AUTOINCREMENT counter. */
  datatype Tables = Tables(rows: seq<Row>, nextId: nat, quarantine: seq<Quarantined>, state: map<string, string>)

  const EMPTY_TABLES := Tables([], 0, [], map[])

  // ----- Rows -----

  function RowIds(rows: seq<Row>): set<nat> {
    set r | r in rows :: r.id
  }

  function Events(rows: seq<Row>): seq<Event> {
    seq(|rows|, i requires 0 <= i < |rows| => rows[i].event)
  }

  function Bytes(rows: seq<Row>): nat {
    if rows == [] then 0 else rows[0].event.size + Bytes(rows[1..])
  }

  /** What the schema guarantees: ascending primary keys below the counter, and unique event ids. */
  predicate ValidRows(rows: seq<Row>, nextId: nat) {
    && (forall i | 0 <= i < |rows| :: rows[i].id < nextId)
    && (forall i, j | 0 <= i < j < |rows| :: rows[i].id < rows[j].id)
    && (forall i, j | 0 <= i < j < |rows| :: rows[i].event.id != rows[j].event.id)
  }

  /** The rows whose primary key is in `keys`, in table order. */
  function Select(rows: seq<Row>, keys: set<nat>): (r: seq<Row>)
    ensures forall x :: x in r <==> x in rows && x.id in keys
    ensures |r| <= |rows|
  {
    if rows == [] then []
    else
      var rest := Select(rows[1..], keys);
      if rows[0].id in keys then [rows[0]] + rest else rest
  }

  /** The primary keys of the rows whose event id is not in `ids`. */
  function KeysWithout(rows: seq<Row>, ids: set<EventId>): set<nat> {
    set r | r in rows && r.event.id !in ids :: r.id
  }

  lemma {:induction false} SelectKeepsOrder(rows: seq<Row>, nextId: nat, keys: set<nat>)
    requires ValidRows(rows, nextId)
    ensures ValidRows(Select(rows, keys), nextId)
  {
    if rows != [] {
      TailValid(rows, nextId);
      SelectKeepsOrder(rows[1..], nextId, keys);
      var rest := Select(rows[1..], keys);
      hide Select;
      forall i | 0 <= i < |rest|
        ensures rows[0].id < rest[i].id && rows[0].event.id != rest[i].event.id
      {
        assert rest[i] in rows[1..];
      }
      ConsValid(rows[0], rest, nextId);
    }
  }

  lemma TailValid(rows: seq<Row>, nextId: nat)
    requires ValidRows(rows, nextId) && rows != []
    ensures ValidRows(rows[1..], nextId)
    ensures forall r | r in rows[1..] :: rows[0].id < r.id && rows[0].event.id != r.event.id
  {
  }

  lemma ConsValid(r: Row, rest: seq<Row>, nextId: nat)
    requires ValidRows(rest, nextId) && r.id < nextId
    requires forall i | 0 <= i < |rest| :: r.id < rest[i].id && r.event.id != rest[i].event.id
    ensures ValidRows([r] + rest, nextId)
  {
  }

  /** Splitting a table by primary key loses and duplicates nothing, and splits the byte count. */
  lemma {:induction false} SelectPartitions(rows: seq<Row>, a: set<nat>, b: set<nat>)
    requires RowIds(rows) <= a + b && a !! b
    ensures multiset(Select(rows, a)) + multiset(Select(rows, b)) == multiset(rows)
    ensures Bytes(Select(rows, a)) + Bytes(Select(rows, b)) == Bytes(rows)
  {
    if rows != [] {
      assert rows == [rows[0]] + rows[1..];
      assert rows[0].id in RowIds(rows);
      SelectPartitions(rows[1..], a, b);
      assert Bytes([rows[0]] + Select(rows[1..], a)) == rows[0].event.size + Bytes(Select(rows[1..], a)) by {
        assert ([rows[0]] + Select(rows[1..], a))[1..] == Select(rows[1..], a);
      }
      assert Bytes([rows[0]] + Select(rows[1..], b)) == rows[0].event.size + Bytes(Select(rows[1..], b)) by {
        assert ([rows[0]] + Select(rows[1..], b))[1..] == Select(rows[1..], b);
      }
    }
  }

  lemma BytesOne(r: Row)
    ensures Bytes([r]) == r.event.size
  {
  }

  lemma {:induction false} BytesConcat(a: seq<Row>, b: seq<Row>)
    ensures Bytes(a + b) == Bytes(a) + Bytes(b)
  {
    if a == [] {
      assert a + b == b;
    } else {
      assert (a + b)[1..] == a[1..] + b;
      BytesConcat(a[1..], b);
    }
  }

  // ----- append -----

  datatype Encoded = Encoded(event: Event, created: int)

  /** INSERT OR IGNORE of one row. */
  function InsertOrIgnore(t: Tables, e: Encoded): Tables {
    if e.event.id in EventIds(Events(t.rows)) then t
    else t.(rows := t.rows + [Row(t.nextId, e.created, e.event)], nextId := t.nextId + 1)
  }

  function InsertAll(t: Tables, batch: seq<Encoded>): Tables
    decreases batch
  {
    if batch == [] then t else InsertAll(InsertOrIgnore(t, batch[0]), batch[1..])
  }

  predicate Valid(t: Tables) {
    ValidRows(t.rows, t.nextId)
  }

  lemma InsertOrIgnoreStays(t: Tables, e: Encoded)
    requires Valid(t)
    ensures Valid(InsertOrIgnore(t, e))
    ensures EventIds(Events(InsertOrIgnore(t, e).rows)) == EventIds(Events(t.rows)) + {e.event.id}
  {
    var u := InsertOrIgnore(t, e);
    if u != t {
      assert forall i | 0 <= i < |t.rows| :: Events(t.rows)[i] == t.rows[i].event && t.rows[i].event.id in EventIds(Events(t.rows));
      assert Events(u.rows) == Events(t.rows) + [e.event];
    }
  }

  predicate Offered(batch: seq<Encoded>, e: Event) {
    exists x :: x in batch && x.event == e
  }

  /**
   * After an insert every offered event id is in the table, old rows are untouched and stay in
   * front, and each new row carries an offered event under a key above all old ones.
   */
  lemma {:induction false} InsertAllStays(t: Tables, batch: seq<Encoded>)
    requires Valid(t)
    ensures var u := InsertAll(t, batch);
            && Valid(u) && t.nextId <= u.nextId
            && t.rows <= u.rows && u.quarantine == t.quarantine && u.state == t.state
            && (forall x | x in batch :: x.event.id in EventIds(Events(u.rows)))
            && (forall i | |t.rows| <= i < |u.rows| :: u.rows[i].id >= t.nextId && Offered(batch, u.rows[i].event))
    decreases batch
  {
    if batch != [] {
      var first, rest := batch[0], batch[1..];
      var t1 := InsertOrIgnore(t, first);
      var u := InsertAll(t, batch);
      InsertOrIgnoreStays(t, first);
      InsertAllStays(t1, rest);
      assert |t.rows| < |t1.rows| ==> t1.rows[|t.rows|].event == first.event;
      hide InsertAll, Valid;
      forall x | x in batch
        ensures x.event.id in EventIds(Events(u.rows))
      {
        if x == first {
          EventsMonotone(t1.rows, u.rows);
        }
      }
      forall i | |t.rows| <= i < |u.rows|
        ensures u.rows[i].id >= t.nextId && Offered(batch, u.rows[i].event)
      {
        if i < |t1.rows| {
          assert u.rows[i] == t1.rows[i];
          assert first in batch;
        } else {
          var x :| x in rest && x.event == u.rows[i].event;
          assert x in batch;
        }
      }
    }
  }

  /** The offer is not in the table, and is the first of the batch with its id. */
  predicate IsNew(t: Tables, batch: seq<Encoded>, i: nat)
    requires i < |batch|
  {
    && (forall r | r in t.rows :: r.event.id != batch[i].event.id)
    && (forall j | 0 <= j < i :: batch[j].event.id != batch[i].event.id)
  }

  /** The rows that u has more than t are those of the chosen offers, in order, under the next keys. */
  predicate RowsFrom(t: Tables, u: Tables, batch: seq<Encoded>, from: seq<nat>) {
    && |u.rows| == |t.rows| + |from| && u.nextId == t.nextId + |from|
    && forall k | 0 <= k < |from| ::
         from[k] < |batch| && u.rows[|t.rows| + k] == Row(t.nextId + k, batch[from[k]].created, batch[from[k]].event)
  }

  predicate ListsNew(t: Tables, batch: seq<Encoded>, from: seq<nat>) {
    && (forall k, l | 0 <= k < l < |from| :: from[k] < from[l])
    && (forall i | 0 <= i < |batch| :: i in from <==> IsNew(t, batch, i))
  }

  /**
   * The new rows, one for one: `from` lists the offers that are new, in the order of the batch, and each has a row
   * with its event and its time under the next key.
   */
  lemma {:induction false} InsertedRows(t: Tables, batch: seq<Encoded>) returns (from: seq<nat>)
    requires Valid(t)
    ensures RowsFrom(t, InsertAll(t, batch), batch, from) && ListsNew(t, batch, from)
    decreases batch
  {
    if batch == [] {
      from := [];
    } else {
      var t1 := InsertOrIgnore(t, batch[0]);
      InsertOrIgnoreStays(t, batch[0]);
      InsertAllStays(t1, batch[1..]);
      FirstIsNew(t, batch);
      var later := InsertedRows(t1, batch[1..]);
      hide Valid, InsertOrIgnore, RowsFrom, ListsNew, IsNew;
      from := Shifted(later, IsNew(t, batch, 0));
      RowsFromFirst(t, t1, InsertAll(t1, batch[1..]), batch, later);
      ListsFirst(t, t1, batch, later);
    }
  }

  function Shifted(later: seq<nat>, first: bool): seq<nat> {
    (if first then [0] else []) + seq(|later|, k requires 0 <= k < |later| => later[k] + 1)
  }

  lemma RowsFromFirst(t: Tables, t1: Tables, u: Tables, batch: seq<Encoded>, later: seq<nat>)
    requires batch != [] && t1.rows <= u.rows && RowsFrom(t1, u, batch[1..], later)
    requires if IsNew(t, batch, 0) then t1 == t.(rows := t.rows + [Row(t.nextId, batch[0].created, batch[0].event)], nextId := t.nextId + 1)
             else t1 == t
    ensures RowsFrom(t, u, batch, Shifted(later, IsNew(t, batch, 0)))
  {
    hide IsNew;
    var n := |t1.rows| - |t.rows|;
    var from := Shifted(later, IsNew(t, batch, 0));
    forall k | 0 <= k < |from|
      ensures from[k] < |batch| && u.rows[|t.rows| + k] == Row(t.nextId + k, batch[from[k]].created, batch[from[k]].event)
    {
      if k >= n {
        assert from[k] == later[k - n] + 1 && batch[1..][later[k - n]] == batch[from[k]];
        assert u.rows[|t1.rows| + (k - n)].event == batch[from[k]].event;
      } else {
        assert u.rows[|t.rows|] == t1.rows[|t.rows|];
      }
    }
  }

  lemma ListsFirst(t: Tables, t1: Tables, batch: seq<Encoded>, later: seq<nat>)
    requires batch != [] && ListsNew(t1, batch[1..], later)
    requires if IsNew(t, batch, 0) then t1.rows == t.rows + [Row(t.nextId, batch[0].created, batch[0].event)] else t1.rows == t.rows
    ensures ListsNew(t, batch, Shifted(later, IsNew(t, batch, 0)))
  {
    hide IsNew;
    var from := Shifted(later, IsNew(t, batch, 0));
    forall i | 0 <= i < |batch|
      ensures i in from <==> IsNew(t, batch, i)
    {
      ShiftedHas(later, IsNew(t, batch, 0), i);
      if i > 0 {
        LaterIsNew(t, t1, batch, i);
      }
    }
  }

  lemma ShiftedHas(later: seq<nat>, first: bool, i: nat)
    ensures i in Shifted(later, first) <==> if i == 0 then first else i - 1 in later
  {
    var from, n := Shifted(later, first), if first then 1 else 0;
    assert forall k | 0 <= k < |later| :: from[n + k] == later[k] + 1;
    if i > 0 && i - 1 in later {
      var k :| 0 <= k < |later| && later[k] == i - 1;
      assert from[n + k] == i;
    }
    if i == 0 && first {
      assert from[0] == 0;
    }
    if i in from {
      var k :| 0 <= k < |from| && from[k] == i;
      assert k >= n ==> later[k - n] == i - 1;
    }
  }

  lemma FirstIsNew(t: Tables, batch: seq<Encoded>)
    requires batch != []
    ensures var t1 := InsertOrIgnore(t, batch[0]);
            if IsNew(t, batch, 0) then t1 == t.(rows := t.rows + [Row(t.nextId, batch[0].created, batch[0].event)], nextId := t.nextId + 1)
            else t1 == t
  {
    forall r | r in t.rows
      ensures r.event.id in EventIds(Events(t.rows))
    {
      RowHasId(t.rows, r);
    }
  }

  lemma LaterIsNew(t: Tables, t1: Tables, batch: seq<Encoded>, i: nat)
    requires 0 < i < |batch|
    requires if IsNew(t, batch, 0) then t1.rows == t.rows + [Row(t.nextId, batch[0].created, batch[0].event)] else t1.rows == t.rows
    ensures IsNew(t1, batch[1..], i - 1) <==> IsNew(t, batch, i)
  {
    assert forall j | 0 <= j < i - 1 :: batch[1..][j] == batch[j + 1];
    if !IsNew(t, batch, 0) {
      var r :| r in t.rows && r.event.id == batch[0].event.id;
    } else {
      assert Row(t.nextId, batch[0].created, batch[0].event) in t1.rows;
    }
    if IsNew(t1, batch[1..], i - 1) {
      assert forall j | 0 < j < i :: batch[j] == batch[1..][j - 1];
    }
  }

  // ----- limits -----

  function ExpiredKeys(rows: seq<Row>, cutoff: int): set<nat> {
    set r | r in rows && r.created < cutoff :: r.id
  }

  function LiveKeys(rows: seq<Row>, cutoff: int): set<nat> {
    set r | r in rows && r.created >= cutoff :: r.id
  }

  /** Where the eviction walk stops: it goes on while the running total exceeds the cap. */
  function WalkEnd(rows: seq<Row>, total: int, maxBytes: nat): (k: nat)
    ensures k <= |rows|
  {
    if rows == [] || total <= maxBytes then 0
    else 1 + WalkEnd(rows[1..], total - rows[0].event.size, maxBytes)
  }

  /** The walk starts from the bytes of the rows that have not expired. */
  function Stop(rows: seq<Row>, cutoff: int, maxBytes: nat): (k: nat)
    ensures k <= |rows|
  {
    WalkEnd(rows, Bytes(rows) - Bytes(Select(rows, ExpiredKeys(rows, cutoff))), maxBytes)
  }

  function Evicted(rows: seq<Row>, cutoff: int, maxBytes: nat): seq<Row> {
    Select(rows, ExpiredKeys(rows, cutoff))
    + Select(rows[..Stop(rows, cutoff, maxBytes)], LiveKeys(rows, cutoff))
  }

  function Kept(rows: seq<Row>, cutoff: int, maxBytes: nat): seq<Row> {
    Select(rows, RowIds(rows) - RowIds(Evicted(rows, cutoff, maxBytes)))
  }

  function Enforce(t: Tables, cutoff: int, maxBytes: nat): Tables {
    t.(rows := Kept(t.rows, cutoff, maxBytes))
  }

  lemma {:induction false} WalkTotal(rows: seq<Row>, total: int, maxBytes: nat)
    ensures var k := WalkEnd(rows, total, maxBytes);
            && (k < |rows| ==> total - Bytes(rows[..k]) <= maxBytes)
            && (forall j | 0 <= j < k :: total - Bytes(rows[..j]) > maxBytes)
  {
    var k := WalkEnd(rows, total, maxBytes);
    if rows != [] && total > maxBytes {
      WalkTotal(rows[1..], total - rows[0].event.size, maxBytes);
      assert rows[..k][1..] == rows[1..][..k - 1];
      forall j | 0 <= j < k
        ensures total - Bytes(rows[..j]) > maxBytes
      {
        if j > 0 {
          assert rows[..j][1..] == rows[1..][..j - 1];
        }
      }
    }
  }

  lemma KeysDetermineRows(rows: seq<Row>, nextId: nat, a: Row, b: Row)
    requires ValidRows(rows, nextId) && a in rows && b in rows
    ensures a.id == b.id ==> a == b
    ensures a.event.id == b.event.id ==> a == b
  {
  }

  /** The survivors are the live rows behind the point where the walk stopped. */
  lemma KeptIsLiveSuffix(rows: seq<Row>, nextId: nat, cutoff: int, maxBytes: nat)
    requires ValidRows(rows, nextId)
    ensures Kept(rows, cutoff, maxBytes) == Select(rows[Stop(rows, cutoff, maxBytes)..], LiveKeys(rows, cutoff))
  {
    var k := Stop(rows, cutoff, maxBytes);
    var gone := RowIds(Evicted(rows, cutoff, maxBytes));
    assert rows == rows[..k] + rows[k..];
    forall i | 0 <= i < |rows|
      ensures rows[i].id in RowIds(rows) - gone <==> k <= i && rows[i].id in LiveKeys(rows, cutoff)
    {
      EvictedKey(rows, nextId, cutoff, maxBytes, i);
    }
    SelectAgrees(rows, k, RowIds(rows) - gone, LiveKeys(rows, cutoff));
  }

  lemma EvictedKey(rows: seq<Row>, nextId: nat, cutoff: int, maxBytes: nat, i: nat)
    requires ValidRows(rows, nextId) && i < |rows|
    ensures rows[i].id in RowIds(Evicted(rows, cutoff, maxBytes))
            <==> rows[i].created < cutoff || i < Stop(rows, cutoff, maxBytes)
    ensures rows[i].id in LiveKeys(rows, cutoff) <==> rows[i].created >= cutoff
    ensures rows[i].id in ExpiredKeys(rows, cutoff) <==> rows[i].created < cutoff
  {
    var k := Stop(rows, cutoff, maxBytes);
    var out := Evicted(rows, cutoff, maxBytes);
    forall r | r in rows && r.id == rows[i].id
      ensures r == rows[i]
    {
      KeysDetermineRows(rows, nextId, r, rows[i]);
    }
    hide ValidRows, Stop, Bytes;
    if i < k {
      assert rows[i] in rows[..k];
    }
    if rows[i].created < cutoff || i < k {
      assert rows[i] in out;
    } else {
      assert rows[i] !in rows[..k];
      forall r | r in out
        ensures r.id != rows[i].id
      {
        assert r in rows;
      }
    }
  }

  lemma {:induction false} SelectAgrees(rows: seq<Row>, k: nat, a: set<nat>, b: set<nat>)
    requires k <= |rows|
    requires forall i | 0 <= i < |rows| :: rows[i].id in a <==> k <= i && rows[i].id in b
    ensures Select(rows, a) == Select(rows[k..], b)
  {
    if rows == [] {
    } else if k > 0 {
      assert rows[k..] == rows[1..][k - 1..];
      SelectAgrees(rows[1..], k - 1, a, b);
    } else {
      assert rows[0..] == rows;
      assert rows[1..][0..] == rows[1..];
      SelectAgrees(rows[1..], 0, a, b);
    }
  }

  /** The returned list and the surviving rows together are the table, row for row. */
  lemma EvictionConserves(rows: seq<Row>, nextId: nat, cutoff: int, maxBytes: nat)
    requires ValidRows(rows, nextId)
    ensures ValidRows(Kept(rows, cutoff, maxBytes), nextId)
    ensures multiset(Evicted(rows, cutoff, maxBytes)) + multiset(Kept(rows, cutoff, maxBytes)) == multiset(rows)
  {
    var k := Stop(rows, cutoff, maxBytes);
    SelectKeepsOrder(rows, nextId, RowIds(rows) - RowIds(Evicted(rows, cutoff, maxBytes)));
    KeptIsLiveSuffix(rows, nextId, cutoff, maxBytes);
    LiveAndExpired(rows, nextId, cutoff);
    ThreeParts(rows, k, ExpiredKeys(rows, cutoff), LiveKeys(rows, cutoff));
  }

  lemma ThreeParts(rows: seq<Row>, k: nat, expired: set<nat>, live: set<nat>)
    requires k <= |rows| && RowIds(rows) <= expired + live && expired !! live
    ensures multiset(Select(rows, expired) + Select(rows[..k], live)) + multiset(Select(rows[k..], live)) == multiset(rows)
  {
    hide Select, Bytes;
    SelectPartitions(rows, expired, live);
    assert Select(rows, live) == Select(rows[..k], live) + Select(rows[k..], live) by {
      SelectConcat(rows[..k], rows[k..], live);
      assert rows == rows[..k] + rows[k..];
    }
  }

  /** A row is evicted exactly when it has expired or lies in front of the point where the walk stopped. */
  lemma EvictionExact(rows: seq<Row>, nextId: nat, cutoff: int, maxBytes: nat)
    requires ValidRows(rows, nextId)
    ensures forall i | 0 <= i < |rows| ::
              rows[i] in Evicted(rows, cutoff, maxBytes) <==> rows[i].created < cutoff || i < Stop(rows, cutoff, maxBytes)
  {
  }

  /** The walk passes a row only while the live rows from it onwards exceed the cap. */
  lemma EvictionOnlyOverCap(rows: seq<Row>, nextId: nat, cutoff: int, maxBytes: nat, i: nat)
    requires ValidRows(rows, nextId) && i < Stop(rows, cutoff, maxBytes)
    ensures Bytes(Select(rows[i..], LiveKeys(rows, cutoff))) > maxBytes
  {
    hide Bytes, Select, WalkEnd, ValidRows, LiveKeys, ExpiredKeys;
    LiveAfter(rows, nextId, cutoff, i);
    WalkTotal(rows, Bytes(rows) - Bytes(Select(rows, ExpiredKeys(rows, cutoff))), maxBytes);
  }

  lemma LiveAndExpired(rows: seq<Row>, nextId: nat, cutoff: int)
    requires ValidRows(rows, nextId)
    ensures RowIds(rows) <= ExpiredKeys(rows, cutoff) + LiveKeys(rows, cutoff)
    ensures ExpiredKeys(rows, cutoff) !! LiveKeys(rows, cutoff)
  {
  }

  lemma {:induction false} SelectConcat(a: seq<Row>, b: seq<Row>, keys: set<nat>)
    ensures Select(a + b, keys) == Select(a, keys) + Select(b, keys)
  {
    if a == [] {
      assert a + b == b;
    } else {
      assert (a + b)[1..] == a[1..] + b;
      SelectConcat(a[1..], b, keys);
    }
  }

  /** Live bytes from row i on: all live bytes, less all walked bytes, plus the expired bytes among those walked. */
  lemma LiveAfter(rows: seq<Row>, nextId: nat, cutoff: int, i: nat)
    requires ValidRows(rows, nextId) && i <= |rows|
    ensures var expired, live := ExpiredKeys(rows, cutoff), LiveKeys(rows, cutoff);
            Bytes(Select(rows[i..], live))
            == Bytes(rows) - Bytes(Select(rows, expired)) - Bytes(rows[..i]) + Bytes(Select(rows[..i], expired))
  {
    var expired, live := ExpiredKeys(rows, cutoff), LiveKeys(rows, cutoff);
    LiveAndExpired(rows, nextId, cutoff);
    assert rows == rows[..i] + rows[i..];
    SelectPartitions(rows, expired, live);
    assert RowIds(rows[..i]) <= RowIds(rows);
    SelectPartitions(rows[..i], expired, live);
    SelectConcat(rows[..i], rows[i..], live);
    BytesConcat(Select(rows[..i], live), Select(rows[i..], live));
  }

  /** The live bytes among the first j rows. */
  function LiveBytes(rows: seq<Row>, j: nat, cutoff: int): nat
    requires j <= |rows|
  {
    Bytes(Select(rows[..j], LiveKeys(rows, cutoff)))
  }

  /**
   * Read off the table before the call: as long as the first j rows hold fewer live bytes than have to
   * go, they hold fewer bytes at all, so expired bytes never stand in for live ones.
   */
  ghost predicate LiveLeads(rows: seq<Row>, cutoff: int, maxBytes: nat) {
    var over := LiveBytes(rows, |rows|, cutoff) - maxBytes;
    forall j | 0 <= j <= |rows| && LiveBytes(rows, j, cutoff) < over :: Bytes(rows[..j]) < over
  }

  /**
   * The byte cap. The walk also subtracts rows that had already been selected as expired
   * (spool.py:89), so what stays can exceed the cap, by at most the expired bytes walked over; the
   * cap holds exactly when live bytes lead all the way.
   */
  lemma ByteCap(rows: seq<Row>, nextId: nat, cutoff: int, maxBytes: nat)
    requires ValidRows(rows, nextId)
    ensures Bytes(Kept(rows, cutoff, maxBytes)) <= maxBytes + WalkedExpired(rows, cutoff, maxBytes)
    ensures Bytes(Kept(rows, cutoff, maxBytes)) <= maxBytes <==> LiveLeads(rows, cutoff, maxBytes)
  {
    var k, over := Stop(rows, cutoff, maxBytes), LiveBytes(rows, |rows|, cutoff) - maxBytes;
    KeptBytes(rows, nextId, cutoff, maxBytes);
    StopRest(rows, nextId, cutoff, maxBytes);
    StopIsFirst(rows, nextId, cutoff, maxBytes);
    hide Bytes, Select, Stop, LiveBytes, ValidRows, Kept, WalkedExpired, WalkRest;
    forall j | 0 <= j <= |rows| && LiveBytes(rows, k, cutoff) >= over && LiveBytes(rows, j, cutoff) < over
      ensures Bytes(rows[..j]) < over
    {
      if k <= j {
        LiveGrows(rows, k, j, cutoff);
      }
    }
  }

  /** The walk stops at the first row before which there are enough bytes, live or not. */
  lemma StopIsFirst(rows: seq<Row>, nextId: nat, cutoff: int, maxBytes: nat)
    requires ValidRows(rows, nextId)
    ensures var k, over := Stop(rows, cutoff, maxBytes), LiveBytes(rows, |rows|, cutoff) - maxBytes;
            && (forall j | 0 <= j < k :: Bytes(rows[..j]) < over)
            && (k < |rows| ==> Bytes(rows[..k]) >= over)
            && Bytes(Kept(rows, cutoff, maxBytes)) == LiveBytes(rows, |rows|, cutoff) - LiveBytes(rows, k, cutoff)
  {
    hide Bytes, Select, WalkEnd, LiveBytes, ValidRows, Kept, ExpiredKeys, LiveKeys;
    var k := Stop(rows, cutoff, maxBytes);
    WalkTotal(rows, Bytes(rows) - Bytes(Select(rows, ExpiredKeys(rows, cutoff))), maxBytes);
    LiveTotal(rows, nextId, cutoff);
    KeptIsLiveSuffix(rows, nextId, cutoff, maxBytes);
    LiveSplit(rows, k, cutoff);
  }

  lemma LiveTotal(rows: seq<Row>, nextId: nat, cutoff: int)
    requires ValidRows(rows, nextId)
    ensures LiveBytes(rows, |rows|, cutoff) == Bytes(rows) - Bytes(Select(rows, ExpiredKeys(rows, cutoff)))
  {
    LiveAndExpired(rows, nextId, cutoff);
    SelectPartitions(rows, ExpiredKeys(rows, cutoff), LiveKeys(rows, cutoff));
    assert rows[..|rows|] == rows;
  }

  lemma LiveSplit(rows: seq<Row>, k: nat, cutoff: int)
    requires k <= |rows|
    ensures LiveBytes(rows, |rows|, cutoff) == LiveBytes(rows, k, cutoff) + Bytes(Select(rows[k..], LiveKeys(rows, cutoff)))
  {
    var live := LiveKeys(rows, cutoff);
    assert rows[..|rows|] == rows && rows == rows[..k] + rows[k..];
    SelectConcat(rows[..k], rows[k..], live);
    BytesConcat(Select(rows[..k], live), Select(rows[k..], live));
  }

  lemma LiveGrows(rows: seq<Row>, i: nat, j: nat, cutoff: int)
    requires i <= j <= |rows|
    ensures LiveBytes(rows, i, cutoff) <= LiveBytes(rows, j, cutoff)
  {
    var live := LiveKeys(rows, cutoff);
    assert rows[..j] == rows[..i] + rows[i..j];
    SelectConcat(rows[..i], rows[i..j], live);
    BytesConcat(Select(rows[..i], live), Select(rows[i..j], live));
  }

  lemma StopRest(rows: seq<Row>, nextId: nat, cutoff: int, maxBytes: nat)
    requires ValidRows(rows, nextId)
    ensures Stop(rows, cutoff, maxBytes) < |rows| ==> WalkRest(rows, cutoff, maxBytes) <= maxBytes
    ensures Stop(rows, cutoff, maxBytes) == |rows| ==> Kept(rows, cutoff, maxBytes) == []
  {
    WalkTotal(rows, Bytes(rows) - Bytes(Select(rows, ExpiredKeys(rows, cutoff))), maxBytes);
    if Stop(rows, cutoff, maxBytes) == |rows| {
      KeptIsLiveSuffix(rows, nextId, cutoff, maxBytes);
      assert rows[|rows|..] == [];
    }
  }

  lemma KeptBytes(rows: seq<Row>, nextId: nat, cutoff: int, maxBytes: nat)
    requires ValidRows(rows, nextId)
    ensures Bytes(Kept(rows, cutoff, maxBytes)) == WalkRest(rows, cutoff, maxBytes) + WalkedExpired(rows, cutoff, maxBytes)
  {
    KeptIsLiveSuffix(rows, nextId, cutoff, maxBytes);
    LiveAfter(rows, nextId, cutoff, Stop(rows, cutoff, maxBytes));
  }

  /** The expired bytes among the rows that the walk passed. */
  function WalkedExpired(rows: seq<Row>, cutoff: int, maxBytes: nat): nat {
    Bytes(Select(rows[..Stop(rows, cutoff, maxBytes)], ExpiredKeys(rows, cutoff)))
  }

  /** The running total with which the walk stopped. */
  function WalkRest(rows: seq<Row>, cutoff: int, maxBytes: nat): int {
    Bytes(rows) - Bytes(Select(rows, ExpiredKeys(rows, cutoff))) - Bytes(rows[..Stop(rows, cutoff, maxBytes)])
  }

  /** With nothing expired the cap always holds. */
  lemma NothingExpiredMeetsCap(rows: seq<Row>, nextId: nat, cutoff: int, maxBytes: nat)
    requires ValidRows(rows, nextId)
    requires forall r | r in rows :: r.created >= cutoff
    ensures Bytes(Kept(rows, cutoff, maxBytes)) <= maxBytes
  {
    ByteCap(rows, nextId, cutoff, maxBytes);
    assert Select(rows[..Stop(rows, cutoff, maxBytes)], ExpiredKeys(rows, cutoff)) == [];
  }

  /** An expired row of 50 bytes in front of a live row of 60: the walk stops after the 50 bytes, with 60 live bytes left under a cap of 40. */
  lemma CapCanBeExceeded(e: Event)
    ensures var rows := [Row(0, 0, e.(id := "a", size := 50)), Row(1, 10, e.(id := "b", size := 60))];
            ValidRows(rows, 2) && Bytes(Kept(rows, 10, 40)) == 60
  {
    var a, b := Row(0, 0, e.(id := "a", size := 50)), Row(1, 10, e.(id := "b", size := 60));
    var rows := [a, b];
    assert a.event.id[0] != b.event.id[0];
    assert rows[1..] == [b];
    var expired, live := ExpiredKeys(rows, 10), LiveKeys(rows, 10);
    assert a.id in expired && b.id in live;
    assert expired == {0};
    assert Select([b], expired) == [];
    BytesOne(a);
    BytesOne(b);
    assert Select(rows, expired) == [a];
    assert Bytes(rows) == 110;
    assert WalkEnd([b], 10, 40) == 0;
    assert Stop(rows, 10, 40) == WalkEnd(rows, 60, 40) == 1;
    KeptIsLiveSuffix(rows, 2, 10, 40);
    assert Select([b], live) == [b];
  }

  /** A second pass with the same cutoff always meets the cap: nothing expired is left to mislead it. */
  lemma SecondPassMeetsCap(rows: seq<Row>, nextId: nat, cutoff: int, maxBytes: nat)
    requires ValidRows(rows, nextId)
    ensures Bytes(Kept(Kept(rows, cutoff, maxBytes), cutoff, maxBytes)) <= maxBytes
  {
    EvictionConserves(rows, nextId, cutoff, maxBytes);
    var once := Kept(rows, cutoff, maxBytes);
    forall r | r in once
      ensures r.created >= cutoff
    {
      var i :| 0 <= i < |rows| && rows[i] == r;
      EvictedKey(rows, nextId, cutoff, maxBytes, i);
    }
    NothingExpiredMeetsCap(once, nextId, cutoff, maxBytes);
  }

  // ----- batch -----

  /** The i-th row in reading order: ascending keys, or descending when the newest rows are wanted. */
  function At(rows: seq<Row>, newest: bool, i: nat): Row
    requires i < |rows|
  {
    if newest then rows[|rows| - 1 - i] else rows[i]
  }

  /** How many rows in reading order fit, given that `i` rows of `total` bytes have been taken. */
  function Fit(rows: seq<Row>, newest: bool, maxEvents: nat, maxBytes: nat, i: nat, total: nat): (n: nat)
    requires i <= |rows|
    ensures i <= n <= |rows|
    ensures n <= maxEvents || n == i
    decreases |rows| - i
  {
    if i == |rows| || i >= maxEvents then i
    else if i > 0 && total + At(rows, newest, i).event.size > maxBytes then i
    else Fit(rows, newest, maxEvents, maxBytes, i + 1, total + At(rows, newest, i).event.size)
  }

  function End(rows: seq<Row>, newest: bool, n: nat): seq<Row>
    requires n <= |rows|
  {
    if newest then rows[|rows| - n..] else rows[..n]
  }

  function BatchOf(rows: seq<Row>, maxEvents: nat, maxBytes: nat, newest: bool): seq<Row> {
    End(rows, newest, Fit(rows, newest, maxEvents, maxBytes, 0, 0))
  }

  lemma EndValid(rows: seq<Row>, nextId: nat, newest: bool, n: nat)
    requires ValidRows(rows, nextId) && n <= |rows|
    ensures ValidRows(End(rows, newest, n), nextId)
  {
  }

  lemma EndGrows(rows: seq<Row>, newest: bool, i: nat)
    requires i < |rows|
    ensures Bytes(End(rows, newest, i + 1)) == Bytes(End(rows, newest, i)) + At(rows, newest, i).event.size
  {
    var one := [At(rows, newest, i)];
    if newest {
      assert End(rows, newest, i + 1) == one + End(rows, newest, i);
      BytesConcat(one, End(rows, newest, i));
    } else {
      assert End(rows, newest, i + 1) == End(rows, newest, i) + one;
      BytesConcat(End(rows, newest, i), one);
    }
    BytesOne(one[0]);
  }

  lemma {:induction false} FitIsMaximal(rows: seq<Row>, newest: bool, maxEvents: nat, maxBytes: nat, i: nat, total: nat)
    requires i <= |rows| && total == Bytes(End(rows, newest, i))
    requires i <= 1 || total <= maxBytes
    ensures Fitting(rows, newest, maxEvents, maxBytes, Fit(rows, newest, maxEvents, maxBytes, i, total))
    decreases |rows| - i
  {
    if i < |rows| && i < maxEvents {
      EndGrows(rows, newest, i);
      var more := total + At(rows, newest, i).event.size;
      if i == 0 || more <= maxBytes {
        FitIsMaximal(rows, newest, maxEvents, maxBytes, i + 1, more);
      }
    }
  }

  /** Taking n rows respects the byte limit, one oversized row excepted, and n + 1 rows would break a limit. */
  predicate Fitting(rows: seq<Row>, newest: bool, maxEvents: nat, maxBytes: nat, n: nat)
    requires n <= |rows|
  {
    && (n <= 1 || Bytes(End(rows, newest, n)) <= maxBytes)
    && (n < |rows| && n < maxEvents ==> n > 0 && Bytes(End(rows, newest, n + 1)) > maxBytes)
  }

  /**
   * A batch is a contiguous end segment of the table in ascending key order; it is empty only if the
   * table is; it stays within both limits unless it is a single oversized record; and no further
   * record would have fitted.
   */
  lemma BatchShape(rows: seq<Row>, nextId: nat, maxEvents: nat, maxBytes: nat, newest: bool)
    requires ValidRows(rows, nextId) && maxEvents >= 1
    ensures var b := BatchOf(rows, maxEvents, maxBytes, newest);
            && |b| <= |rows| && |b| <= maxEvents
            && b == (if newest then rows[|rows| - |b|..] else rows[..|b|])
            && ValidRows(b, nextId)
            && (b == [] ==> rows == [])
            && (|b| <= 1 || Bytes(b) <= maxBytes)
            && (|b| < |rows| && |b| < maxEvents ==>
                  Bytes(b) + (if newest then rows[|rows| - |b| - 1] else rows[|b|]).event.size > maxBytes)
  {
    hide Fit, ValidRows;
    var n := Fit(rows, newest, maxEvents, maxBytes, 0, 0);
    EndValid(rows, nextId, newest, n);
    assert End(rows, newest, 0) == [] && Bytes([]) == 0;
    hide Bytes;
    if n < |rows| {
      EndGrows(rows, newest, n);
    }
    FitIsMaximal(rows, newest, maxEvents, maxBytes, 0, 0);
  }

  // ----- acknowledge and quarantine -----

  function Acknowledged(t: Tables, ids: set<EventId>): Tables {
    t.(rows := Select(t.rows, KeysWithout(t.rows, ids)))
  }

  /** One entry of `_quarantine_sync`: copy the payload if the row is still there, then delete it. */
  function QuarantineOne(t: Tables, id: EventId, reason: string): Tables {
    if id in EventIds(Events(t.rows)) then
      var r := Find(t.rows, id);
      Acknowledged(t, {id}).(quarantine := t.quarantine + [Quarantined(r.event, reason)])
    else t
  }

  function Find(rows: seq<Row>, id: EventId): (r: Row)
    requires id in EventIds(Events(rows))
    ensures r in rows && r.event.id == id
  {
    if rows[0].event.id == id then rows[0]
    else
      assert Events(rows) == [rows[0].event] + Events(rows[1..]);
      Find(rows[1..], id)
  }

  datatype Reject = Reject(id: EventId, reason: string)

  function QuarantineAll(t: Tables, rejects: seq<Reject>): Tables
    decreases rejects
  {
    if rejects == [] then t
    else QuarantineAll(QuarantineOne(t, rejects[0].id, rejects[0].reason), rejects[1..])
  }

  function RejectIds(rejects: seq<Reject>): set<EventId> {
    set r | r in rejects :: r.id
  }

  /** Acknowledging removes exactly the named rows. */
  lemma AcknowledgeRule(t: Tables, ids: set<EventId>)
    requires Valid(t)
    ensures Valid(Acknowledged(t, ids))
    ensures forall r :: r in Acknowledged(t, ids).rows <==> r in t.rows && r.event.id !in ids
  {
    SelectKeepsOrder(t.rows, t.nextId, KeysWithout(t.rows, ids));
    forall r
      ensures r in Acknowledged(t, ids).rows <==> r in t.rows && r.event.id !in ids
    {
      if r in t.rows && r.id in KeysWithout(t.rows, ids) {
        var q :| q in t.rows && q.event.id !in ids && q.id == r.id;
        KeysDetermineRows(t.rows, t.nextId, q, r);
      }
    }
  }

  lemma RowHasId(rows: seq<Row>, r: Row)
    requires r in rows
    ensures r.event.id in EventIds(Events(rows))
    ensures r.event in Events(rows)
  {
    var i :| 0 <= i < |rows| && rows[i] == r;
    assert Events(rows)[i] == r.event;
  }

  /** Every entry from index n on is the payload of a row. */
  predicate TakenFrom(entries: seq<Quarantined>, n: nat, rows: seq<Row>) {
    forall i | n <= i < |entries| :: entries[i].event in Events(rows)
  }

  predicate Holds(entries: seq<Quarantined>, e: Event) {
    exists q :: q in entries && q.event == e
  }

  /**
   * Quarantining moves the named rows and nothing else: what leaves the table is exactly what is
   * named, each with its payload in the quarantine, and earlier quarantine entries stay.
   */
  lemma {:induction false} QuarantineRule(t: Tables, rejects: seq<Reject>)
    requires Valid(t)
    ensures var u := QuarantineAll(t, rejects);
            && Valid(u) && u.nextId == t.nextId && u.state == t.state
            && t.quarantine <= u.quarantine
            && (forall r :: r in u.rows <==> r in t.rows && r.event.id !in RejectIds(rejects))
            && (forall r | r in t.rows && r.event.id in RejectIds(rejects) :: Holds(u.quarantine, r.event))
            && TakenFrom(u.quarantine, |t.quarantine|, t.rows)
    decreases rejects
  {
    if rejects != [] {
      var first := rejects[0];
      var t1 := QuarantineOne(t, first.id, first.reason);
      var u := QuarantineAll(t, rejects);
      QuarantineOneRule(t, first.id, first.reason);
      QuarantineRule(t1, rejects[1..]);
      hide QuarantineAll, QuarantineOne, Valid;
      assert RejectIds(rejects) == {first.id} + RejectIds(rejects[1..]);
      forall r | r in t.rows && r.event.id in RejectIds(rejects)
        ensures Holds(u.quarantine, r.event)
      {
        if r.event.id == first.id {
          assert Holds(t1.quarantine, r.event);
        } else {
          assert r in t1.rows;
        }
      }
      TakenFromChains(t1.quarantine, u.quarantine, |t.quarantine|, t.rows, t1.rows);
    }
  }

  lemma TakenFromChains(a: seq<Quarantined>, b: seq<Quarantined>, n: nat, rows: seq<Row>, rows1: seq<Row>)
    requires a <= b && n <= |a| && (forall r | r in rows1 :: r in rows)
    requires TakenFrom(a, n, rows) && TakenFrom(b, |a|, rows1)
    ensures TakenFrom(b, n, rows)
  {
    EventsMonotone(rows1, rows);
    forall i | n <= i < |b|
      ensures b[i].event in Events(rows)
    {
      if i < |a| {
        assert b[i] == a[i];
      }
    }
  }

  lemma EventsMonotone(a: seq<Row>, b: seq<Row>)
    requires forall r | r in a :: r in b
    ensures forall e | e in Events(a) :: e in Events(b)
  {
    forall i | 0 <= i < |a|
      ensures Events(a)[i] in Events(b)
    {
      assert a[i] in b;
      RowHasId(b, a[i]);
    }
  }

  lemma QuarantineOneRule(t: Tables, id: EventId, reason: string)
    requires Valid(t)
    ensures var u := QuarantineOne(t, id, reason);
            && Valid(u) && u.nextId == t.nextId && u.state == t.state
            && t.quarantine <= u.quarantine
            && (forall r :: r in u.rows <==> r in t.rows && r.event.id != id)
            && (forall r | r in t.rows && r.event.id == id :: Holds(u.quarantine, r.event))
            && TakenFrom(u.quarantine, |t.quarantine|, t.rows)
  {
    var u := QuarantineOne(t, id, reason);
    AcknowledgeRule(t, {id});
    hide Select, KeysWithout;
    if id in EventIds(Events(t.rows)) {
      var found := Find(t.rows, id);
      var entry := Quarantined(found.event, reason);
      assert entry in u.quarantine;
      RowHasId(t.rows, found);
      forall r | r in t.rows && r.event.id == id
        ensures Holds(u.quarantine, r.event)
      {
        KeysDetermineRows(t.rows, t.nextId, r, found);
      }
    } else {
      forall r | r in t.rows
        ensures r.event.id != id
      {
        RowHasId(t.rows, r);
      }
    }
  }

  predicate Queues(rows: seq<Row>, id: EventId) {
    exists r :: r in rows && r.event.id == id
  }

  /** The rejection names a row, and is the first to name it. */
  predicate IsTaken(t: Tables, rejects: seq<Reject>, i: nat)
    requires i < |rejects|
  {
    Queues(t.rows, rejects[i].id) && forall j | 0 <= j < i :: rejects[j].id != rejects[i].id
  }

  /** The entry is the payload of the row that the rejection names, with its reason. */
  predicate EntryOf(q: Quarantined, rows: seq<Row>, reject: Reject) {
    q.reason == reject.reason && exists r :: r in rows && r.event.id == reject.id && q.event == r.event
  }

  /** The entries that u has more than t are those of the chosen rejections, in order. */
  predicate EntriesFrom(t: Tables, u: Tables, rejects: seq<Reject>, from: seq<nat>) {
    && |u.quarantine| == |t.quarantine| + |from|
    && forall k | 0 <= k < |from| :: from[k] < |rejects| && EntryOf(u.quarantine[|t.quarantine| + k], t.rows, rejects[from[k]])
  }

  predicate ListsTaken(t: Tables, rejects: seq<Reject>, from: seq<nat>) {
    && (forall k, l | 0 <= k < l < |from| :: from[k] < from[l])
    && (forall i | 0 <= i < |rejects| :: i in from <==> IsTaken(t, rejects, i))
  }

  /** The new quarantine entries, one for one: each row that leaves has one, with the reason that it was named with. */
  lemma {:induction false} QuarantinedEntries(t: Tables, rejects: seq<Reject>) returns (from: seq<nat>)
    requires Valid(t)
    ensures EntriesFrom(t, QuarantineAll(t, rejects), rejects, from) && ListsTaken(t, rejects, from)
    decreases rejects
  {
    if rejects == [] {
      from := [];
    } else {
      var t1 := QuarantineOne(t, rejects[0].id, rejects[0].reason);
      QuarantineOneRule(t, rejects[0].id, rejects[0].reason);
      QuarantineRule(t1, rejects[1..]);
      FirstIsTaken(t, rejects);
      var later := QuarantinedEntries(t1, rejects[1..]);
      hide Valid, QuarantineOne, EntriesFrom, ListsTaken, IsTaken, Holds, TakenFrom;
      from := Shifted(later, IsTaken(t, rejects, 0));
      EntriesFromFirst(t, t1, QuarantineAll(t1, rejects[1..]), rejects, later);
      TakenFirst(t, t1, rejects, later);
    }
  }

  lemma FirstIsTaken(t: Tables, rejects: seq<Reject>)
    requires Valid(t) && rejects != []
    ensures var t1 := QuarantineOne(t, rejects[0].id, rejects[0].reason);
            if IsTaken(t, rejects, 0)
            then |t1.quarantine| == |t.quarantine| + 1 && EntryOf(t1.quarantine[|t.quarantine|], t.rows, rejects[0])
            else t1 == t
  {
    var id := rejects[0].id;
    if Queues(t.rows, id) {
      var r :| r in t.rows && r.event.id == id;
      RowHasId(t.rows, r);
    } else if id in EventIds(Events(t.rows)) {
      var r := Find(t.rows, id);
    }
    hide Valid, Acknowledged, EventIds;
  }

  lemma EntriesFromFirst(t: Tables, t1: Tables, u: Tables, rejects: seq<Reject>, later: seq<nat>)
    requires rejects != [] && t1.quarantine <= u.quarantine && EntriesFrom(t1, u, rejects[1..], later)
    requires forall r | r in t1.rows :: r in t.rows
    requires if IsTaken(t, rejects, 0)
             then |t1.quarantine| == |t.quarantine| + 1 && EntryOf(t1.quarantine[|t.quarantine|], t.rows, rejects[0])
             else t1 == t
    ensures EntriesFrom(t, u, rejects, Shifted(later, IsTaken(t, rejects, 0)))
  {
    hide IsTaken;
    var n := |t1.quarantine| - |t.quarantine|;
    var from := Shifted(later, IsTaken(t, rejects, 0));
    forall k | 0 <= k < |from|
      ensures from[k] < |rejects| && EntryOf(u.quarantine[|t.quarantine| + k], t.rows, rejects[from[k]])
    {
      if k >= n {
        assert from[k] == later[k - n] + 1 && rejects[1..][later[k - n]] == rejects[from[k]];
        assert EntryOf(u.quarantine[|t1.quarantine| + (k - n)], t1.rows, rejects[from[k]]);
      } else {
        assert u.quarantine[|t.quarantine|] == t1.quarantine[|t.quarantine|];
      }
    }
  }

  lemma TakenFirst(t: Tables, t1: Tables, rejects: seq<Reject>, later: seq<nat>)
    requires rejects != [] && ListsTaken(t1, rejects[1..], later)
    requires forall r :: r in t1.rows <==> r in t.rows && r.event.id != rejects[0].id
    ensures ListsTaken(t, rejects, Shifted(later, IsTaken(t, rejects, 0)))
  {
    hide IsTaken;
    var from := Shifted(later, IsTaken(t, rejects, 0));
    forall i | 0 <= i < |rejects|
      ensures i in from <==> IsTaken(t, rejects, i)
    {
      ShiftedHas(later, IsTaken(t, rejects, 0), i);
      if i > 0 {
        LaterIsTaken(t, t1, rejects, i);
      }
    }
  }

  lemma LaterIsTaken(t: Tables, t1: Tables, rejects: seq<Reject>, i: nat)
    requires 0 < i < |rejects| && forall r :: r in t1.rows <==> r in t.rows && r.event.id != rejects[0].id
    ensures IsTaken(t1, rejects[1..], i - 1) <==> IsTaken(t, rejects, i)
  {
    assert forall j | 0 <= j < i - 1 :: rejects[1..][j] == rejects[j + 1];
    if IsTaken(t1, rejects[1..], i - 1) {
      assert forall j | 0 < j < i :: rejects[j] == rejects[1..][j - 1];
    }
    if IsTaken(t, rejects, i) {
      var r :| r in t.rows && r.event.id == rejects[i].id;
      assert r in t1.rows;
    }
  }

  /**
   * What is stored with a batch is what is read back: the updates of an append win over older values,
   * and neither the limits, nor acknowledging, nor quarantining touches the state table.
   */
  lemma StateIsKept(t: Tables, batch: seq<Encoded>, updates: map<string, string>, cutoff: int, maxBytes: nat,
                    ids: set<EventId>, rejects: seq<Reject>)
    requires Valid(t)
    ensures var inserted := InsertAll(t, batch);
            var stored := Enforce(inserted.(state := inserted.state + updates), cutoff, maxBytes);
            && Valid(stored)
            && QuarantineAll(Acknowledged(stored, ids), rejects).state == t.state + updates
  {
    var inserted := InsertAll(t, batch);
    var stored := Enforce(inserted.(state := inserted.state + updates), cutoff, maxBytes);
    InsertAllStays(t, batch);
    SelectKeepsOrder(inserted.rows, inserted.nextId, RowIds(inserted.rows) - RowIds(Evicted(inserted.rows, cutoff, maxBytes)));
    hide InsertAll, Evicted, QuarantineAll, ValidRows, Select;
    AcknowledgeRule(stored, ids);
    QuarantineRule(Acknowledged(stored, ids), rejects);
  }

  // ----- The class -----

  datatype Eviction = Eviction(eventId: EventId, bytes: nat)

  function Report(rows: seq<Row>): seq<Eviction> {
    seq(|rows|, i requires 0 <= i < |rows| => Eviction(rows[i].event.id, rows[i].event.size))
  }

  /** Every row that the limits delete is reported once, with its id and its size, and nothing else is. */
  lemma ReportIsComplete(rows: seq<Row>, nextId: nat, cutoff: int, maxBytes: nat)
    requires ValidRows(rows, nextId)
    ensures var report, kept := Report(Evicted(rows, cutoff, maxBytes)), Kept(rows, cutoff, maxBytes);
            && |report| + |kept| == |rows|
            && (forall r | r in rows && r !in kept :: Eviction(r.event.id, r.event.size) in report)
            && (forall e | e in report :: exists r :: r in rows && r !in kept && e == Eviction(r.event.id, r.event.size))
  {
    hide Evicted, Kept;
    EvictionConserves(rows, nextId, cutoff, maxBytes);
    var out, kept := Evicted(rows, cutoff, maxBytes), Kept(rows, cutoff, maxBytes);
    assert |multiset(out)| + |multiset(kept)| == |multiset(rows)|;
    forall r | r in rows && r !in kept
      ensures Eviction(r.event.id, r.event.size) in Report(out)
    {
      assert r in multiset(out) + multiset(kept);
      var i :| 0 <= i < |out| && out[i] == r;
      assert Report(out)[i] == Eviction(r.event.id, r.event.size);
    }
    forall i | 0 <= i < |out|
      ensures out[i] in rows && out[i] !in kept
    {
      assert out[i] in multiset(out) + multiset(kept);
      RowOnce(rows, nextId, out, kept, out[i]);
    }
  }

  lemma RowOnce(rows: seq<Row>, nextId: nat, out: seq<Row>, kept: seq<Row>, r: Row)
    requires ValidRows(rows, nextId) && multiset(out) + multiset(kept) == multiset(rows) && r in out
    ensures r in rows && r !in kept
  {
    assert r in multiset(rows);
    var i :| 0 <= i < |rows| && rows[i] == r;
    assert rows == rows[..i] + [r] + rows[i + 1..];
    assert multiset(rows)[r] == multiset(rows[..i])[r] + 1 + multiset(rows[i + 1..])[r];
    assert r !in rows[..i] && r !in rows[i + 1..];
  }

  lemma {:induction false} SelectAll(rows: seq<Row>, keys: set<nat>)
    requires RowIds(rows) <= keys
    ensures Select(rows, keys) == rows
  {
    if rows != [] {
      assert rows[0].id in RowIds(rows);
      SelectAll(rows[1..], keys);
    }
  }

  lemma SelectSnoc(rows: seq<Row>, i: nat, keys: set<nat>)
    requires i < |rows|
    ensures Select(rows[..i + 1], keys) == Select(rows[..i], keys) + (if rows[i].id in keys then [rows[i]] else [])
    ensures Bytes(rows[..i + 1]) == Bytes(rows[..i]) + rows[i].event.size
  {
    assert rows[..i + 1] == rows[..i] + [rows[i]];
    SelectConcat(rows[..i], [rows[i]], keys);
    BytesConcat(rows[..i], [rows[i]]);
    BytesOne(rows[i]);
  }

  /** The selection half of `_enforce_limits_sync`: expired rows first, then the walk in key order. */
  method ChooseEvictions(rows: seq<Row>, ghost nextId: nat, cutoff: int, maxBytes: nat)
    returns (selected: seq<Row>, selectedIds: set<nat>)
    requires ValidRows(rows, nextId)
    ensures selected == Evicted(rows, cutoff, maxBytes)
    ensures selectedIds == RowIds(selected)
  {
    WalkEnds(rows, cutoff, maxBytes);
    hide Bytes, Select, WalkEnd, RowIds, ValidRows, ExpiredKeys, LiveKeys, SelectedBy, Stop, Evicted;
    selected := Select(rows, ExpiredKeys(rows, cutoff));
    var total := Bytes(rows) - Bytes(selected);
    selectedIds := RowIds(selected);
    var i := 0;
    while i < |rows| && total > maxBytes
      invariant 0 <= i <= |rows|
      invariant i + WalkEnd(rows[i..], total, maxBytes) == Stop(rows, cutoff, maxBytes)
      invariant selected == SelectedBy(rows, cutoff, i)
      invariant selectedIds == RowIds(selected)
    {
      WalkStep(rows, nextId, cutoff, i);
      WalkOn(rows, i, total, maxBytes);
      if rows[i].id !in selectedIds {
        selected := selected + [rows[i]];
        selectedIds := selectedIds + {rows[i].id};
      }
      total := total - rows[i].event.size;
      i := i + 1;
    }
    WalkDone(rows, i, total, maxBytes);
  }

  /** Where the walk starts, and what it has selected when it stops. */
  lemma WalkEnds(rows: seq<Row>, cutoff: int, maxBytes: nat)
    ensures SelectedBy(rows, cutoff, 0) == Select(rows, ExpiredKeys(rows, cutoff))
    ensures WalkEnd(rows[0..], Bytes(rows) - Bytes(Select(rows, ExpiredKeys(rows, cutoff))), maxBytes) == Stop(rows, cutoff, maxBytes)
    ensures SelectedBy(rows, cutoff, Stop(rows, cutoff, maxBytes)) == Evicted(rows, cutoff, maxBytes)
  {
    assert rows[0..] == rows;
  }

  lemma WalkDone(rows: seq<Row>, i: nat, total: int, maxBytes: nat)
    requires i <= |rows|
    requires i == |rows| || total <= maxBytes
    ensures WalkEnd(rows[i..], total, maxBytes) == 0
  {
  }

  /** What the walk has selected after passing i rows. */
  ghost function SelectedBy(rows: seq<Row>, cutoff: int, i: nat): seq<Row>
    requires i <= |rows|
  {
    Select(rows, ExpiredKeys(rows, cutoff)) + Select(rows[..i], LiveKeys(rows, cutoff))
  }

  lemma WalkStep(rows: seq<Row>, nextId: nat, cutoff: int, i: nat)
    requires ValidRows(rows, nextId) && i < |rows|
    ensures var before, after := SelectedBy(rows, cutoff, i), SelectedBy(rows, cutoff, i + 1);
            && after == (if rows[i].id in RowIds(before) then before else before + [rows[i]])
            && RowIds(after) == RowIds(before) + {rows[i].id}
  {
    SelectSnoc(rows, i, LiveKeys(rows, cutoff));
    SelectedSoFar(rows, nextId, cutoff, i);
    var before, after := SelectedBy(rows, cutoff, i), SelectedBy(rows, cutoff, i + 1);
    if rows[i].id !in RowIds(before) {
      RowIdsSnoc(before, rows[i]);
    }
  }

  lemma RowIdsSnoc(rows: seq<Row>, r: Row)
    ensures RowIds(rows + [r]) == RowIds(rows) + {r.id}
  {
  }

  lemma WalkOn(rows: seq<Row>, i: nat, total: int, maxBytes: nat)
    requires i < |rows| && total > maxBytes
    ensures WalkEnd(rows[i..], total, maxBytes) == 1 + WalkEnd(rows[i + 1..], total - rows[i].event.size, maxBytes)
  {
  }

  class SQLiteSpool {
    const maxBytes: nat
    const maxAge: nat
    var rows: seq<Row>
    var nextId: nat
    var quarantine: seq<Quarantined>
    var state: map<string, string>

    /** The contents of the three tables. */
    function View(): Tables
      reads this
    {
      Tables(rows, nextId, quarantine, state)
    }

    constructor (maxBytes: nat, maxAge: nat)
      ensures View() == EMPTY_TABLES && this.maxBytes == maxBytes && this.maxAge == maxAge
    {
      this.maxBytes, this.maxAge := maxBytes, maxAge;
      rows, nextId, quarantine, state := [], 0, [], map[];
    }

    /** Insert the events and the state updates in one transaction, then enforce the limits in a second one. */
    method AppendSync(encoded: seq<Encoded>, updates: map<string, string>, now: int) returns (evictions: seq<Eviction>)
      requires Valid(View())
      modifies this
      ensures var inserted := InsertAll(old(View()), encoded);
              && View() == Enforce(inserted.(state := inserted.state + updates), now - maxAge, maxBytes)
              && evictions == Report(Evicted(inserted.rows, now - maxAge, maxBytes))
      ensures Valid(View())
    {
      hide InsertAll, Enforce, Evicted, Report, ValidRows;
      InsertMany(encoded);
      state := state + updates;
      evictions := EnforceLimitsSync(now);
    }

    /** The executemany of INSERT OR IGNORE. */
    method InsertMany(encoded: seq<Encoded>)
      requires Valid(View())
      modifies `rows, `nextId
      ensures View() == InsertAll(old(View()), encoded) && Valid(View())
    {
      hide ValidRows;
      var i := 0;
      while i < |encoded|
        invariant 0 <= i <= |encoded|
        invariant Valid(View())
        invariant InsertAll(View(), encoded[i..]) == InsertAll(old(View()), encoded)
      {
        InsertOrIgnoreStays(View(), encoded[i]);
        assert encoded[i..][1..] == encoded[i + 1..];
        if encoded[i].event.id !in EventIds(Events(rows)) {
          rows := rows + [Row(nextId, encoded[i].created, encoded[i].event)];
          nextId := nextId + 1;
        }
        i := i + 1;
      }
    }

    /** Delete everything too old, then the oldest rows until the cap is met; report what was deleted. */
    method EnforceLimitsSync(now: int) returns (evictions: seq<Eviction>)
      requires Valid(View())
      modifies `rows
      ensures View() == Enforce(old(View()), now - maxAge, maxBytes)
      ensures evictions == Report(Evicted(old(rows), now - maxAge, maxBytes))
      ensures Valid(View())
    {
      hide Bytes, Select, WalkEnd, ValidRows, Stop, Evicted;
      var selected, selectedIds := ChooseEvictions(rows, nextId, now - maxAge, maxBytes);
      SelectKeepsOrder(rows, nextId, RowIds(rows) - selectedIds);
      if selected != [] {
        rows := Select(rows, RowIds(rows) - selectedIds);
      } else {
        SelectAll(rows, RowIds(rows) - selectedIds);
      }
      evictions := Report(selected);
    }

    /** Read a batch from one end of the table; always in ascending key order. */
    method BatchSync(maxEvents: nat, limit: nat, newest: bool) returns (records: seq<Row>)
      ensures records == BatchOf(rows, maxEvents, limit, newest)
    {
      records := [];
      var total: nat := 0;
      var i: nat := 0;
      while i < |rows| && i < maxEvents && (i == 0 || total + At(rows, newest, i).event.size <= limit)
        invariant 0 <= i <= |rows| && |records| == i
        invariant forall j | 0 <= j < i :: records[j] == At(rows, newest, j)
        invariant Fit(rows, newest, maxEvents, limit, i, total) == Fit(rows, newest, maxEvents, limit, 0, 0)
      {
        records := records + [At(rows, newest, i)];
        total := total + At(rows, newest, i).event.size;
        i := i + 1;
      }
      if newest {
        records := seq(|records|, j requires 0 <= j < |records| => records[|records| - 1 - j]);
      }
    }

    method Acknowledge(ids: set<EventId>)
      modifies `rows
      ensures View() == Acknowledged(old(View()), ids)
    {
      rows := Select(rows, KeysWithout(rows, ids));
    }

    method QuarantineSync(rejects: seq<Reject>)
      modifies this
      ensures View() == QuarantineAll(old(View()), rejects)
    {
      var i := 0;
      while i < |rejects|
        invariant 0 <= i <= |rejects|
        invariant QuarantineAll(View(), rejects[i..]) == QuarantineAll(old(View()), rejects)
      {
        assert rejects[i..][1..] == rejects[i + 1..];
        if rejects[i].id in EventIds(Events(rows)) {
          quarantine := quarantine + [Quarantined(Find(rows, rejects[i].id).event, rejects[i].reason)];
          rows := Select(rows, KeysWithout(rows, {rejects[i].id}));
        }
        i := i + 1;
      }
    }

    method Usage() returns (events: nat, bytes: nat, quarantined: nat)
      ensures events == |rows| && bytes == Bytes(rows) && quarantined == |quarantine|
    {
      events, bytes, quarantined := |rows|, Bytes(rows), |quarantine|;
    }

    method SetState(key: string, value: string)
      modifies `state
      ensures state == old(state)[key := value]
    {
      state := state[key := value];
    }

    method GetState(key: string) returns (value: Option<string>)
      ensures value == if key in state then Some(state[key]) else None
    {
      value := if key in state then Some(state[key]) else None;
    }
  }

  /** During the walk, row i has been selected already exactly if it has expired. */
  lemma SelectedSoFar(rows: seq<Row>, nextId: nat, cutoff: int, i: nat)
    requires ValidRows(rows, nextId) && i < |rows|
    ensures var selected := Select(rows, ExpiredKeys(rows, cutoff)) + Select(rows[..i], LiveKeys(rows, cutoff));
            rows[i].id in RowIds(selected) <==> rows[i].id !in LiveKeys(rows, cutoff)
  {
  }
}

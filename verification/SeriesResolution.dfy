/**
 * Bulk resolution of metric series: `series_fingerprint`, `_metric_series_batch` and
 * `_insert_ignore_conflicts` of server/temporalrca_server/ingestion.py. The bulk form refines a loop
 * that gets or creates the definition and the series of each event in turn.
 */
module SeriesResolution {
  import opened Contracts

  // ----- A table with an autoincrement id and a unique key -----

  datatype Entry<K, V> = Entry(key: K, value: V)

  datatype Row<K, V> = Row(id: nat, key: K, value: V)

  /** The rows in the order of their ids, and the id that the sequence gives next. */
  datatype Table<K, V> = Table(rows: seq<Row<K, V>>, next: nat)

  predicate Keyed<K(==), V>(t: Table<K, V>) {
    && (forall i, j | 0 <= i < j < |t.rows| :: t.rows[i].key != t.rows[j].key && t.rows[i].id < t.rows[j].id)
    && (forall i | 0 <= i < |t.rows| :: t.rows[i].id < t.next)
  }

  predicate Has<K(==), V>(t: Table<K, V>, key: K) {
    exists i :: 0 <= i < |t.rows| && t.rows[i].key == key
  }

  function Find<K(==), V>(rows: seq<Row<K, V>>, key: K): (r: Row<K, V>)
    requires exists i :: 0 <= i < |rows| && rows[i].key == key
    ensures r in rows && r.key == key
  {
    if rows[0].key == key then rows[0] else Find(rows[1..], key)
  }

  function Append<K, V>(t: Table<K, V>, e: Entry<K, V>): Table<K, V> {
    Table(t.rows + [Row(t.next, e.key, e.value)], t.next + 1)
  }

  /** Get or create. */
  function Ensure<K(==), V>(t: Table<K, V>, e: Entry<K, V>): Table<K, V> {
    if Has(t, e.key) then t else Append(t, e)
  }

  function EnsureAll<K(==), V>(t: Table<K, V>, entries: seq<Entry<K, V>>): Table<K, V> {
    if entries == [] then t else Ensure(EnsureAll(t, entries[..|entries| - 1]), entries[|entries| - 1])
  }

  /** ON CONFLICT DO NOTHING: a row that loses still uses up an id. */
  function InsertIgnore<K(==), V>(t: Table<K, V>, e: Entry<K, V>): Table<K, V> {
    if Has(t, e.key) then t.(next := t.next + 1) else Append(t, e)
  }

  function InsertAll<K(==), V>(t: Table<K, V>, entries: seq<Entry<K, V>>): Table<K, V> {
    if entries == [] then t else InsertIgnore(InsertAll(t, entries[..|entries| - 1]), entries[|entries| - 1])
  }

  predicate Mentions<K(==), V>(entries: seq<Entry<K, V>>, key: K) {
    exists i :: 0 <= i < |entries| && entries[i].key == key
  }

  /** The ordered dictionary that `setdefault` builds: the first entry of each key. */
  function FirstSeen<K(==), V>(entries: seq<Entry<K, V>>): seq<Entry<K, V>> {
    if entries == [] then []
    else
      var before, last := entries[..|entries| - 1], entries[|entries| - 1];
      FirstSeen(before) + if Mentions(before, last.key) then [] else [last]
  }

  function Missing<K(==), V, W>(t: Table<K, V>, entries: seq<Entry<K, W>>): seq<Entry<K, W>> {
    if entries == [] then []
    else
      var before, last := entries[..|entries| - 1], entries[|entries| - 1];
      Missing(t, before) + if Has(t, last.key) then [] else [last]
  }

  // ----- Bulk insertion refines get-or-create -----

  lemma {:induction false} EnsureAllHas<K, V>(t: Table<K, V>, entries: seq<Entry<K, V>>, key: K)
    ensures Has(EnsureAll(t, entries), key) <==> Has(t, key) || Mentions(entries, key)
  {
    if entries != [] {
      var n := |entries| - 1;
      var before := EnsureAll(t, entries[..n]);
      EnsureAllHas(t, entries[..n], key);
      AppendHas(before, entries[n], key);
      assert Mentions(entries, key) <==> Mentions(entries[..n], key) || entries[n].key == key by {
        assert entries == entries[..n] + [entries[n]];
        MentionsOne(entries[..n], entries[n], key);
      }
    }
  }

  lemma AppendHas<K, V>(t: Table<K, V>, e: Entry<K, V>, key: K)
    ensures Has(Append(t, e), key) <==> Has(t, key) || e.key == key
  {
    var rows := Append(t, e).rows;
    assert rows[|t.rows|].key == e.key;
    assert forall i | 0 <= i < |t.rows| :: rows[i] == t.rows[i];
  }

  lemma MentionsOne<K, V>(entries: seq<Entry<K, V>>, e: Entry<K, V>, key: K)
    ensures Mentions(entries + [e], key) <==> Mentions(entries, key) || e.key == key
  {
    assert (entries + [e])[|entries|] == e;
    assert forall i | 0 <= i < |entries| :: (entries + [e])[i] == entries[i];
  }

  lemma {:induction false} FirstSeenMentions<K, V>(entries: seq<Entry<K, V>>, key: K)
    ensures Mentions(FirstSeen(entries), key) <==> Mentions(entries, key)
  {
    if entries != [] {
      var before, last := entries[..|entries| - 1], entries[|entries| - 1];
      assert entries == before + [last];
      FirstSeenMentions(before, key);
      MentionsOne(before, last, key);
      MentionsOne(FirstSeen(before), last, key);
      assert FirstSeen(before) + [] == FirstSeen(before);
    }
  }

  lemma {:induction false} MissingMentions<K, V, W>(t: Table<K, V>, entries: seq<Entry<K, W>>, key: K)
    ensures Mentions(Missing(t, entries), key) <==> Mentions(entries, key) && !Has(t, key)
  {
    if entries != [] {
      var before, last := entries[..|entries| - 1], entries[|entries| - 1];
      assert entries == before + [last];
      MissingMentions(t, before, key);
      MentionsOne(before, last, key);
      MentionsOne(Missing(t, before), last, key);
      assert Missing(t, before) + [] == Missing(t, before);
    }
  }

  predicate Distinct<K(==), V>(entries: seq<Entry<K, V>>) {
    forall i, j | 0 <= i < j < |entries| :: entries[i].key != entries[j].key
  }

  lemma {:induction false} FirstSeenDistinct<K, V>(entries: seq<Entry<K, V>>)
    ensures Distinct(FirstSeen(entries))
  {
    if entries != [] {
      var before, last := entries[..|entries| - 1], entries[|entries| - 1];
      FirstSeenDistinct(before);
      FirstSeenMentions(before, last.key);
    }
  }

  lemma {:induction false} MissingDistinct<K, V>(t: Table<K, V>, entries: seq<Entry<K, V>>)
    requires Distinct(entries)
    ensures Distinct(Missing(t, entries))
  {
    if entries != [] {
      var before, last := entries[..|entries| - 1], entries[|entries| - 1];
      MissingDistinct(t, before);
      MissingMentions(t, before, last.key);
    }
  }

  /** Entries whose key came before change nothing. */
  lemma {:induction false} EnsureFirstSeen<K, V>(t: Table<K, V>, entries: seq<Entry<K, V>>)
    ensures EnsureAll(t, FirstSeen(entries)) == EnsureAll(t, entries)
  {
    if entries != [] {
      var before, last := entries[..|entries| - 1], entries[|entries| - 1];
      EnsureFirstSeen(t, before);
      EnsureAllHas(t, before, last.key);
      hide Has, Mentions, Append;
      if Mentions(before, last.key) {
        assert FirstSeen(before) + [] == FirstSeen(before);
      } else {
        assert (FirstSeen(before) + [last])[..|FirstSeen(before)|] == FirstSeen(before);
      }
    }
  }

  /** Entries that the first select found change nothing. */
  lemma {:induction false} EnsureMissing<K, V>(t: Table<K, V>, entries: seq<Entry<K, V>>)
    ensures EnsureAll(t, Missing(t, entries)) == EnsureAll(t, entries)
  {
    if entries != [] {
      var before, last := entries[..|entries| - 1], entries[|entries| - 1];
      EnsureMissing(t, before);
      EnsureAllHas(t, before, last.key);
      hide Mentions, Append;
      if Has(t, last.key) {
        assert Missing(t, before) + [] == Missing(t, before);
      } else {
        assert (Missing(t, before) + [last])[..|Missing(t, before)|] == Missing(t, before);
      }
    }
  }

  /** Without conflicts the bulk insert is get-or-create, and uses up no further id. */
  lemma {:induction false} InsertIsEnsure<K, V>(t: Table<K, V>, entries: seq<Entry<K, V>>)
    requires Distinct(entries) && forall i | 0 <= i < |entries| :: !Has(t, entries[i].key)
    ensures InsertAll(t, entries) == EnsureAll(t, entries)
  {
    if entries != [] {
      var before, last := entries[..|entries| - 1], entries[|entries| - 1];
      InsertIsEnsure(t, before);
      EnsureAllHas(t, before, last.key);
      assert !Mentions(before, last.key);
      hide Has, Mentions, Append, Distinct;
    }
  }

  /** One writer: select, insert what is missing, once per key. */
  lemma BulkIsEnsure<K, V>(t: Table<K, V>, entries: seq<Entry<K, V>>)
    ensures InsertAll(t, Missing(t, FirstSeen(entries))) == EnsureAll(t, entries)
  {
    var seen := FirstSeen(entries);
    FirstSeenDistinct(entries);
    MissingDistinct(t, seen);
    forall i | 0 <= i < |Missing(t, seen)|
      ensures !Has(t, Missing(t, seen)[i].key)
    {
      MissingMentions(t, seen, Missing(t, seen)[i].key);
    }
    InsertIsEnsure(t, Missing(t, seen));
    EnsureMissing(t, seen);
    EnsureFirstSeen(t, entries);
  }

  // ----- Growth -----

  /** Rows are only appended, with later ids. */
  predicate Grows<K(==), V(==)>(t: Table<K, V>, u: Table<K, V>) {
    t.rows <= u.rows && t.next <= u.next
  }

  lemma {:induction false} InsertAllKeeps<K, V>(t: Table<K, V>, entries: seq<Entry<K, V>>)
    requires Keyed(t)
    ensures Keyed(InsertAll(t, entries)) && Grows(t, InsertAll(t, entries))
  {
    if entries != [] {
      var before, last := entries[..|entries| - 1], entries[|entries| - 1];
      InsertAllKeeps(t, before);
      AppendKeyed(InsertAll(t, before), last);
      hide Has, Mentions, Append, Keyed;
      assert Grows(InsertAll(t, before), InsertAll(t, entries)) by {
        InsertGrows(InsertAll(t, before), last);
      }
    }
  }

  lemma {:induction false} InsertAllHas<K, V>(t: Table<K, V>, entries: seq<Entry<K, V>>, key: K)
    ensures Has(InsertAll(t, entries), key) <==> Has(t, key) || Mentions(entries, key)
  {
    if entries != [] {
      var before, last := entries[..|entries| - 1], entries[|entries| - 1];
      assert entries == before + [last];
      InsertAllHas(t, before, key);
      AppendHas(InsertAll(t, before), last, key);
      MentionsOne(before, last, key);
      BumpHas(InsertAll(t, before), key);
    }
  }

  lemma BumpHas<K, V>(t: Table<K, V>, key: K)
    ensures Has(t.(next := t.next + 1), key) <==> Has(t, key)
  {
  }

  lemma InsertGrows<K, V>(t: Table<K, V>, e: Entry<K, V>)
    ensures Grows(t, InsertIgnore(t, e))
  {
  }

  lemma AppendKeyed<K, V>(t: Table<K, V>, e: Entry<K, V>)
    requires Keyed(t)
    ensures Keyed(InsertIgnore(t, e))
  {
  }

  /** A key that was there keeps its row. */
  lemma FindStays<K, V>(t: Table<K, V>, u: Table<K, V>, key: K)
    requires Keyed(u) && Grows(t, u) && Has(t, key)
    ensures Has(u, key) && Find(u.rows, key) == Find(t.rows, key)
  {
  }

  // ----- Definitions and series -----

  datatype Metric = Metric(name: string, unit: Option<string>, service: Option<string>, process: Option<string>,
                           container: Option<string>, dependency: Option<string>, source: string,
                           attributes: map<string, string>)

  /** The identity that is hashed; the unit is not part of it. */
  datatype Fingerprint = Fingerprint(name: string, host: string, service: Option<string>, process: Option<string>,
                                     container: Option<string>, dependency: Option<string>, source: string,
                                     attributes: map<string, string>)

  function FingerprintOf(e: Metric, host: string): Fingerprint {
    Fingerprint(e.name, host, e.service, e.process, e.container, e.dependency, e.source, e.attributes)
  }

  type Definitions = Table<string, Option<string>>

  /** The value of a series row is the id of its definition. */
  type SeriesTable = Table<Fingerprint, nat>

  datatype Tables = Tables(definitions: Definitions, series: SeriesTable)

  /** Unique names and fingerprints, and every series belongs to the definition of its own name. */
  ghost predicate Valid(t: Tables) {
    && Keyed(t.definitions) && Keyed(t.series)
    && forall r | r in t.series.rows :: Has(t.definitions, r.key.name) && r.value == IdOf(t.definitions, r.key.name)
  }

  function IdOf(t: Definitions, name: string): nat {
    if Has(t, name) then Find(t.rows, name).id else 0
  }

  function NameEntries(events: seq<Metric>): seq<Entry<string, Option<string>>> {
    seq(|events|, i requires 0 <= i < |events| => Entry(events[i].name, events[i].unit))
  }

  function PrintEntries(events: seq<Metric>, host: string): seq<Entry<Fingerprint, Metric>> {
    seq(|events|, i requires 0 <= i < |events| => Entry(FingerprintOf(events[i], host), events[i]))
  }

  /** The series rows to insert, once the definitions are known. */
  function Resolve(t: Definitions, entries: seq<Entry<Fingerprint, Metric>>): seq<Entry<Fingerprint, nat>> {
    seq(|entries|, i requires 0 <= i < |entries| => Entry(entries[i].key, IdOf(t, entries[i].value.name)))
  }

  /** The reference: for each event in turn, get or create its definition, then its series. */
  function PerEvent(t: Tables, events: seq<Metric>, host: string): Tables {
    if events == [] then t
    else
      var before, e := PerEvent(t, events[..|events| - 1], host), events[|events| - 1];
      var definitions := Ensure(before.definitions, Entry(e.name, e.unit));
      Tables(definitions, Ensure(before.series, Entry(FingerprintOf(e, host), IdOf(definitions, e.name))))
  }

  // ----- The reference, table by table -----

  lemma EnsureAllKeyed<K, V>(t: Table<K, V>, entries: seq<Entry<K, V>>)
    requires Keyed(t)
    ensures Keyed(EnsureAll(t, entries)) && Grows(t, EnsureAll(t, entries))
  {
  }

  lemma ResolvePrefix(t: Definitions, u: Definitions, entries: seq<Entry<Fingerprint, Metric>>)
    requires Keyed(u) && Grows(t, u) && forall e | e in entries :: Has(t, e.value.name)
    ensures Resolve(t, entries) == Resolve(u, entries)
  {
  }

  /** The definitions grow by the names alone, and the series by the fingerprints against the final definitions. */
  lemma {:induction false} PerEventSplits(t: Tables, events: seq<Metric>, host: string)
    requires Keyed(t.definitions)
    ensures var definitions := EnsureAll(t.definitions, NameEntries(events));
            PerEvent(t, events, host) == Tables(definitions, EnsureAll(t.series, Resolve(definitions, PrintEntries(events, host))))
  {
    if events != [] {
      var n := |events| - 1;
      var before, e := events[..n], events[n];
      assert events == before + [e];
      PerEventSplits(t, before, host);
      hide Resolve, NameEntries, PrintEntries, Keyed, Has, Ensure, IdOf;
      NamesOne(t.definitions, before, e);
      ResolveLast(t.definitions, before, e, host);
      EnsureAllOne(t.series, Resolve(EnsureAll(t.definitions, NameEntries(events)), PrintEntries(before, host)),
                   Entry(FingerprintOf(e, host), IdOf(EnsureAll(t.definitions, NameEntries(events)), e.name)));
    }
  }

  lemma EnsureAllOne<K, V>(t: Table<K, V>, entries: seq<Entry<K, V>>, e: Entry<K, V>)
    ensures EnsureAll(t, entries + [e]) == Ensure(EnsureAll(t, entries), e)
  {
    assert (entries + [e])[..|entries|] == entries;
  }

  lemma NamesOne(t: Definitions, before: seq<Metric>, e: Metric)
    ensures EnsureAll(t, NameEntries(before + [e])) == Ensure(EnsureAll(t, NameEntries(before)), Entry(e.name, e.unit))
  {
    assert NameEntries(before + [e]) == NameEntries(before) + [Entry(e.name, e.unit)];
    EnsureAllOne(t, NameEntries(before), Entry(e.name, e.unit));
  }

  /** The definition of a later event does not change what earlier ones resolve to. */
  lemma ResolveLast(t: Definitions, before: seq<Metric>, e: Metric, host: string)
    requires Keyed(t)
    ensures var d0, d1 := EnsureAll(t, NameEntries(before)), EnsureAll(t, NameEntries(before + [e]));
            && Resolve(d1, PrintEntries(before + [e], host))
               == Resolve(d1, PrintEntries(before, host)) + [Entry(FingerprintOf(e, host), IdOf(d1, e.name))]
            && Resolve(d1, PrintEntries(before, host)) == Resolve(d0, PrintEntries(before, host))
  {
    var d0, d1 := EnsureAll(t, NameEntries(before)), EnsureAll(t, NameEntries(before + [e]));
    NamesOne(t, before, e);
    EnsureAllKeyed(t, NameEntries(before + [e]));
    NamesPresent(t, before, host);
    assert Grows(d0, d1);
    ResolvePrefix(d0, d1, PrintEntries(before, host));
    assert PrintEntries(before + [e], host) == PrintEntries(before, host) + [Entry(FingerprintOf(e, host), e)];
    hide IdOf, Keyed, Has, EnsureAll;
  }

  lemma NamesPresent(t: Definitions, events: seq<Metric>, host: string)
    ensures forall e | e in PrintEntries(events, host) :: Has(EnsureAll(t, NameEntries(events)), e.value.name)
  {
    forall i | 0 <= i < |events|
      ensures Has(EnsureAll(t, NameEntries(events)), events[i].name)
    {
      assert NameEntries(events)[i].key == events[i].name;
      EnsureAllHas(t, NameEntries(events), events[i].name);
    }
  }

  // ----- Other writers -----

  /** What other transactions commit between two statements: definitions, and series of existing definitions. */
  datatype Foreign = Foreign(definitions: seq<Entry<string, Option<string>>>, series: seq<Fingerprint>)

  const NOTHING := Foreign([], [])

  function Linked(t: Definitions, prints: seq<Fingerprint>): seq<Entry<Fingerprint, nat>> {
    if prints == [] then []
    else
      var before, last := prints[..|prints| - 1], prints[|prints| - 1];
      Linked(t, before) + if Has(t, last.name) then [Entry(last, IdOf(t, last.name))] else []
  }

  function Interfere(t: Tables, f: Foreign): Tables {
    var definitions := InsertAll(t.definitions, f.definitions);
    Tables(definitions, InsertAll(t.series, Linked(definitions, f.series)))
  }

  // ----- The bulk form -----

  /** A select of the rows whose key is listed, as a dictionary. */
  function Select<K(==), V, W>(t: Table<K, V>, entries: seq<Entry<K, W>>): map<K, Row<K, V>> {
    map key | key in Keys(entries) && Has(t, key) :: Find(t.rows, key)
  }

  function Keys<K(==), W>(entries: seq<Entry<K, W>>): set<K> {
    set i | 0 <= i < |entries| :: entries[i].key
  }

  /** The state of a resolution after its definitions: the tables, and those definitions it knows. */
  function DefinitionPhase(t: Tables, events: seq<Metric>, others: seq<Foreign>): (Tables, Definitions)
    requires |others| == 5
  {
    var missing := Missing(t.definitions, FirstSeen(NameEntries(events)));
    var t1 := Interfere(t, others[0]);
    var t2 := t1.(definitions := InsertAll(t1.definitions, missing));
    var t3 := Interfere(t2, others[1]);
    (t3, if missing == [] then t.definitions else t3.definitions)
  }

  function SeriesPhase(t: Tables, known: Definitions, events: seq<Metric>, host: string, others: seq<Foreign>): (Tables, SeriesTable)
    requires |others| == 5
  {
    var t4 := Interfere(t, others[2]);
    var missing := Missing(t4.series, FirstSeen(PrintEntries(events, host)));
    var t5 := Interfere(t4, others[3]);
    var t6 := t5.(series := InsertAll(t5.series, Resolve(known, missing)));
    var t7 := Interfere(t6, others[4]);
    (t7, if missing == [] then t4.series else t7.series)
  }

  // ----- Concurrent writers -----

  predicate GrowsBoth(t: Tables, u: Tables) {
    Grows(t.definitions, u.definitions) && Grows(t.series, u.series)
  }

  lemma DefinitionsGrow(t: Tables, entries: seq<Entry<string, Option<string>>>)
    requires Valid(t)
    ensures var u := t.(definitions := InsertAll(t.definitions, entries)); Valid(u) && GrowsBoth(t, u)
  {
    InsertAllKeeps(t.definitions, entries);
    var d := InsertAll(t.definitions, entries);
    forall r | r in t.series.rows
      ensures Has(d, r.key.name) && r.value == IdOf(d, r.key.name)
    {
      FindStays(t.definitions, d, r.key.name);
    }
    hide Keyed, InsertAll, Has;
  }

  /** The rows name the definitions that they belong to. */
  predicate Linking(t: Definitions, entries: seq<Entry<Fingerprint, nat>>) {
    forall i | 0 <= i < |entries| :: Has(t, entries[i].key.name) && entries[i].value == IdOf(t, entries[i].key.name)
  }

  lemma {:induction false} SeriesGrow(t: Tables, entries: seq<Entry<Fingerprint, nat>>)
    requires Valid(t) && Linking(t.definitions, entries)
    ensures var u := t.(series := InsertAll(t.series, entries)); Valid(u) && GrowsBoth(t, u)
  {
    InsertAllKeeps(t.series, entries);
    if entries != [] {
      var before, last := entries[..|entries| - 1], entries[|entries| - 1];
      SeriesGrow(t, before);
      hide Keyed, Has, IdOf;
    }
  }

  lemma {:induction false} LinkedLinks(t: Definitions, prints: seq<Fingerprint>)
    ensures Linking(t, Linked(t, prints))
  {
    if prints != [] {
      LinkedLinks(t, prints[..|prints| - 1]);
    }
  }

  lemma InterfereKeeps(t: Tables, f: Foreign)
    requires Valid(t)
    ensures Valid(Interfere(t, f)) && GrowsBoth(t, Interfere(t, f))
  {
    DefinitionsGrow(t, f.definitions);
    var u := t.(definitions := InsertAll(t.definitions, f.definitions));
    LinkedLinks(u.definitions, f.series);
    SeriesGrow(u, Linked(u.definitions, f.series));
    hide Valid, Linked, InsertAll, Linking;
  }

  predicate KnowsNames(known: Definitions, events: seq<Metric>) {
    forall i | 0 <= i < |events| :: Has(known, events[i].name)
  }

  lemma NamesKnown(t: Definitions, u: Definitions, events: seq<Metric>)
    requires forall key :: Mentions(NameEntries(events), key) ==> Has(u, key)
    ensures KnowsNames(u, events)
  {
    forall i | 0 <= i < |events|
      ensures Has(u, events[i].name)
    {
      assert NameEntries(events)[i].key == events[i].name;
    }
  }

  lemma GrowsOn<K, V>(t: Table<K, V>, u: Table<K, V>, v: Table<K, V>)
    requires Grows(t, u) && Grows(u, v)
    ensures Grows(t, v)
    ensures forall key :: Has(t, key) ==> Has(v, key)
  {
  }

  /** Inserting what the first select missed leaves every key present, whatever came in between. */
  lemma InsertMissingHasAll<K, V, W>(t: Table<K, V>, u: Table<K, V>, entries: seq<Entry<K, W>>, rows: seq<Entry<K, V>>, key: K)
    requires Grows(t, u) && Mentions(entries, key)
    requires forall k :: Mentions(rows, k) <==> Mentions(Missing(t, FirstSeen(entries)), k)
    ensures Has(InsertAll(u, rows), key)
  {
    FirstSeenMentions(entries, key);
    MissingMentions(t, FirstSeen(entries), key);
    InsertAllHas(u, rows, key);
    GrowsOn(t, u, u);
  }

  lemma NothingMissing<K, V, W>(t: Table<K, V>, entries: seq<Entry<K, W>>, key: K)
    requires Missing(t, FirstSeen(entries)) == [] && Mentions(entries, key)
    ensures Has(t, key)
  {
    FirstSeenMentions(entries, key);
    MissingMentions(t, FirstSeen(entries), key);
  }

  lemma DefinitionPhaseKeeps(t: Tables, events: seq<Metric>, others: seq<Foreign>)
    requires Valid(t) && |others| == 5
    ensures var (u, known) := DefinitionPhase(t, events, others);
            Valid(u) && GrowsBoth(t, u) && Grows(known, u.definitions) && KnowsNames(known, events)
  {
    var entries := NameEntries(events);
    var missing := Missing(t.definitions, FirstSeen(entries));
    var t1 := Interfere(t, others[0]);
    InterfereKeeps(t, others[0]);
    var t2 := t1.(definitions := InsertAll(t1.definitions, missing));
    DefinitionsGrow(t1, missing);
    var t3 := Interfere(t2, others[1]);
    InterfereKeeps(t2, others[1]);
    var known := DefinitionPhase(t, events, others).1;
    assert DefinitionPhase(t, events, others).0 == t3;
    forall key | Mentions(entries, key)
      ensures Has(known, key)
    {
      if missing == [] {
        NothingMissing(t.definitions, entries, key);
      } else {
        InsertMissingHasAll(t.definitions, t1.definitions, entries, missing, key);
        GrowsOn(t2.definitions, t3.definitions, t3.definitions);
      }
    }
    NamesKnown(t.definitions, known, events);
    hide Valid, InsertAll, Interfere, Missing, FirstSeen, NameEntries, KnowsNames, Mentions, Has;
  }

  lemma {:induction false} PrintsOnly(events: seq<Metric>, host: string, entries: seq<Entry<Fingerprint, Metric>>)
    requires forall e | e in entries :: e in PrintEntries(events, host)
    ensures forall e | e in FirstSeen(entries) :: e in PrintEntries(events, host)
  {
    if entries != [] {
      PrintsOnly(events, host, entries[..|entries| - 1]);
    }
  }

  lemma {:induction false} MissingOnly(s: SeriesTable, entries: seq<Entry<Fingerprint, Metric>>)
    ensures forall e | e in Missing(s, entries) :: e in entries
  {
    if entries != [] {
      MissingOnly(s, entries[..|entries| - 1]);
    }
  }

  lemma ResolveLinks(known: Definitions, t: Definitions, events: seq<Metric>, host: string, entries: seq<Entry<Fingerprint, Metric>>)
    requires Keyed(t) && Grows(known, t) && KnowsNames(known, events)
    requires forall e | e in entries :: e in PrintEntries(events, host)
    ensures Linking(t, Resolve(known, entries))
    ensures forall key :: Mentions(Resolve(known, entries), key) <==> Mentions(entries, key)
  {
    forall i | 0 <= i < |entries|
      ensures Has(t, entries[i].key.name) && Resolve(known, entries)[i].value == IdOf(t, entries[i].key.name)
    {
      assert entries[i] in entries;
      var j :| 0 <= j < |events| && PrintEntries(events, host)[j] == entries[i];
      FindStays(known, t, events[j].name);
    }
    forall key
      ensures Mentions(Resolve(known, entries), key) <==> Mentions(entries, key)
    {
      assert forall i | 0 <= i < |entries| :: Resolve(known, entries)[i].key == entries[i].key;
    }
  }

  predicate KnowsPrints(found: SeriesTable, events: seq<Metric>, host: string) {
    forall i | 0 <= i < |events| :: Has(found, FingerprintOf(events[i], host))
  }

  /** The insert of the missing series is sound for any tables that have grown since the definitions were read. */
  lemma MissingLinks(known: Definitions, t: Definitions, found: SeriesTable, events: seq<Metric>, host: string)
    requires Keyed(t) && Grows(known, t) && KnowsNames(known, events)
    ensures var missing := Missing(found, FirstSeen(PrintEntries(events, host)));
            && Linking(t, Resolve(known, missing))
            && forall key :: Mentions(Resolve(known, missing), key) <==> Mentions(missing, key)
  {
    var entries := PrintEntries(events, host);
    PrintsOnly(events, host, entries);
    MissingOnly(found, FirstSeen(entries));
    hide Keyed, KnowsNames, Resolve, PrintEntries;
    ResolveLinks(known, t, events, host, Missing(found, FirstSeen(entries)));
  }

  lemma PrintsKnown(found: SeriesTable, events: seq<Metric>, host: string)
    requires forall key :: Mentions(PrintEntries(events, host), key) ==> Has(found, key)
    ensures KnowsPrints(found, events, host)
  {
    forall i | 0 <= i < |events|
      ensures Has(found, FingerprintOf(events[i], host))
    {
      assert PrintEntries(events, host)[i].key == FingerprintOf(events[i], host);
    }
  }

  lemma FoundAfter(before: SeriesTable, at: SeriesTable, after: SeriesTable, rows: seq<Entry<Fingerprint, nat>>, events: seq<Metric>, host: string)
    requires Grows(before, at) && Grows(InsertAll(at, rows), after)
    requires forall key :: Mentions(rows, key) <==> Mentions(Missing(before, FirstSeen(PrintEntries(events, host))), key)
    ensures KnowsPrints(if Missing(before, FirstSeen(PrintEntries(events, host))) == [] then before else after, events, host)
  {
    var entries := PrintEntries(events, host);
    var missing := Missing(before, FirstSeen(entries));
    var found := if missing == [] then before else after;
    forall key | Mentions(entries, key)
      ensures Has(found, key)
    {
      if missing == [] {
        NothingMissing(before, entries, key);
      } else {
        InsertMissingHasAll(before, at, entries, rows, key);
        GrowsOn(InsertAll(at, rows), after, after);
      }
    }
    hide Has, Mentions, Missing, FirstSeen, PrintEntries, InsertAll, KnowsPrints;
    PrintsKnown(found, events, host);
  }

  lemma SeriesPhaseKeeps(t: Tables, known: Definitions, events: seq<Metric>, host: string, others: seq<Foreign>)
    requires Valid(t) && |others| == 5 && Grows(known, t.definitions) && KnowsNames(known, events)
    ensures var (u, found) := SeriesPhase(t, known, events, host, others);
            Valid(u) && GrowsBoth(t, u) && Grows(found, u.series) && KnowsPrints(found, events, host)
  {
    hide Keyed, Interfere, Missing, FirstSeen, PrintEntries, Mentions, Has, Resolve, KnowsNames, Linking, KnowsPrints, InsertAll;
    var t4 := Interfere(t, others[2]);
    InterfereKeeps(t, others[2]);
    var t5 := Interfere(t4, others[3]);
    InterfereKeeps(t4, others[3]);
    var missing := Missing(t4.series, FirstSeen(PrintEntries(events, host)));
    var rows := Resolve(known, missing);
    MissingLinks(known, t5.definitions, t4.series, events, host);
    SeriesGrow(t5, rows);
    var t6 := t5.(series := InsertAll(t5.series, rows));
    InterfereKeeps(t6, others[4]);
    FoundAfter(t4.series, t5.series, Interfere(t6, others[4]).series, rows, events, host);
  }

  // ----- One writer -----

  predicate Alone(others: seq<Foreign>) {
    |others| == 5 && forall i | 0 <= i < 5 :: others[i] == NOTHING
  }

  lemma ResolveOne(t: Definitions, entries: seq<Entry<Fingerprint, Metric>>, e: Entry<Fingerprint, Metric>)
    ensures Resolve(t, entries + [e]) == Resolve(t, entries) + [Entry(e.key, IdOf(t, e.value.name))]
    ensures forall key :: Mentions(Resolve(t, entries), key) <==> Mentions(entries, key)
  {
    forall key
      ensures Mentions(Resolve(t, entries), key) <==> Mentions(entries, key)
    {
      assert forall i | 0 <= i < |entries| :: Resolve(t, entries)[i].key == entries[i].key;
    }
  }

  /** Resolving the definitions commutes with dropping repeated keys and known keys. */
  lemma {:induction false} ResolveFirstSeen(t: Definitions, entries: seq<Entry<Fingerprint, Metric>>)
    ensures FirstSeen(Resolve(t, entries)) == Resolve(t, FirstSeen(entries))
  {
    if entries != [] {
      var before, last := entries[..|entries| - 1], entries[|entries| - 1];
      assert entries == before + [last];
      ResolveFirstSeen(t, before);
      ResolveOne(t, before, last);
      ResolveOne(t, FirstSeen(before), last);
      assert FirstSeen(before) + [] == FirstSeen(before);
      assert Resolve(t, entries)[..|before|] == Resolve(t, before);
      hide Resolve, Mentions, IdOf;
    }
  }

  lemma {:induction false} ResolveMissing(t: Definitions, s: SeriesTable, entries: seq<Entry<Fingerprint, Metric>>)
    ensures Missing(s, Resolve(t, entries)) == Resolve(t, Missing(s, entries))
  {
    if entries != [] {
      var before, last := entries[..|entries| - 1], entries[|entries| - 1];
      assert entries == before + [last];
      ResolveMissing(t, s, before);
      ResolveOne(t, before, last);
      ResolveOne(t, Missing(s, before), last);
      assert Missing(s, before) + [] == Missing(s, before);
      assert Resolve(t, entries)[..|before|] == Resolve(t, before);
      hide Resolve, Has, IdOf;
    }
  }

  lemma InterfereNothing(t: Tables)
    ensures Interfere(t, NOTHING) == t
  {
  }

  /** Undisturbed, the bulk form is the per-event form: same definitions with the first unit seen, same series, same ids. */
  lemma BulkIsPerEvent(t: Tables, events: seq<Metric>, host: string, others: seq<Foreign>)
    requires Valid(t) && Alone(others)
    ensures var (u, known) := DefinitionPhase(t, events, others);
            SeriesPhase(u, known, events, host, others).0 == PerEvent(t, events, host)
  {
    var definitions := EnsureAll(t.definitions, NameEntries(events));
    var (u, known) := DefinitionPhase(t, events, others);
    DefinitionsAlone(t, events, others);
    SeriesAlone(u, known, events, host, others);
    hide Interfere, DefinitionPhase, SeriesPhase, Valid, Alone;
    PerEventSplits(t, events, host);
  }

  lemma DefinitionsAlone(t: Tables, events: seq<Metric>, others: seq<Foreign>)
    requires Keyed(t.definitions) && Alone(others)
    ensures var definitions := EnsureAll(t.definitions, NameEntries(events));
            DefinitionPhase(t, events, others) == (t.(definitions := definitions), definitions)
  {
    var entries := NameEntries(events);
    var missing := Missing(t.definitions, FirstSeen(entries));
    BulkIsEnsure(t.definitions, entries);
    InterfereNothing(t);
    InterfereNothing(t.(definitions := InsertAll(t.definitions, missing)));
    hide Interfere, Keyed, EnsureAll, Missing, FirstSeen, NameEntries;
  }

  lemma SeriesAlone(t: Tables, known: Definitions, events: seq<Metric>, host: string, others: seq<Foreign>)
    requires Alone(others)
    ensures SeriesPhase(t, known, events, host, others).0
         == t.(series := EnsureAll(t.series, Resolve(known, PrintEntries(events, host))))
  {
    var entries := PrintEntries(events, host);
    ResolveFirstSeen(known, entries);
    ResolveMissing(known, t.series, FirstSeen(entries));
    BulkIsEnsure(t.series, Resolve(known, entries));
    InterfereNothing(t);
    InterfereNothing(t.(series := InsertAll(t.series, Resolve(known, Missing(t.series, FirstSeen(entries))))));
    hide Interfere, EnsureAll, Missing, FirstSeen, PrintEntries, Resolve, InsertAll;
  }

  /** Every event finds its series row in the table, and only fingerprints of events are in the result. */
  predicate Resolves(resolved: map<Fingerprint, Row<Fingerprint, nat>>, t: SeriesTable, events: seq<Metric>, host: string) {
    && (forall i | 0 <= i < |events| :: FingerprintOf(events[i], host) in resolved)
    && (forall key | key in resolved :: key in Keys(PrintEntries(events, host)) && resolved[key].key == key && resolved[key] in t.rows)
  }

  /** What makes two events one series, apart from the host. The unit, the value and the times do not count. */
  predicate SameSeries(e: Metric, f: Metric) {
    && e.name == f.name && e.service == f.service && e.process == f.process && e.container == f.container
    && e.dependency == f.dependency && e.source == f.source && e.attributes == f.attributes
  }

  /** Two events of a batch resolve to one series row exactly if they agree in all of these; events of two hosts never do. */
  lemma SharedSeriesIff(t: SeriesTable, resolved: map<Fingerprint, Row<Fingerprint, nat>>, events: seq<Metric>, host: string, i: nat, j: nat)
    requires Keyed(t) && Resolves(resolved, t, events, host) && i < |events| && j < |events|
    ensures var a, b := FingerprintOf(events[i], host), FingerprintOf(events[j], host);
            a in resolved && b in resolved && (resolved[a].id == resolved[b].id <==> SameSeries(events[i], events[j]))
    ensures forall other | other != host :: FingerprintOf(events[i], host) != FingerprintOf(events[j], other)
  {
  }

  /** Every row of a statement uses up one id, whether it is inserted or loses; a row that is inserted has the id of its place. */
  lemma {:induction false} InsertedIds<K, V>(t: Table<K, V>, entries: seq<Entry<K, V>>, i: nat)
    requires Keyed(t) && i < |entries| && !Has(t, entries[i].key) && !Mentions(entries[..i], entries[i].key)
    ensures InsertAll(t, entries).next == t.next + |entries|
    ensures Row(t.next + i, entries[i].key, entries[i].value) in InsertAll(t, entries).rows
  {
    var n := |entries| - 1;
    InsertedNext(t, entries);
    if i < n {
      assert entries[..n][..i] == entries[..i];
      InsertedIds(t, entries[..n], i);
    } else {
      InsertedNext(t, entries[..n]);
      InsertAllHas(t, entries[..n], entries[n].key);
      hide Has, Mentions, Keyed, InsertAll;
      AppendedLast(InsertAll(t, entries[..n]), entries[n]);
      InsertAllLast(t, entries);
    }
  }

  lemma AppendedLast<K, V>(t: Table<K, V>, e: Entry<K, V>)
    requires !Has(t, e.key)
    ensures Row(t.next, e.key, e.value) in InsertIgnore(t, e).rows
  {
  }

  lemma InsertAllLast<K, V>(t: Table<K, V>, entries: seq<Entry<K, V>>)
    requires entries != []
    ensures InsertAll(t, entries) == InsertIgnore(InsertAll(t, entries[..|entries| - 1]), entries[|entries| - 1])
  {
  }

  lemma {:induction false} InsertedNext<K, V>(t: Table<K, V>, entries: seq<Entry<K, V>>)
    ensures InsertAll(t, entries).next == t.next + |entries|
  {
    if entries != [] {
      InsertedNext(t, entries[..|entries| - 1]);
    }
  }

  lemma {:induction false} FirstEntryWins<K, V>(t: Table<K, V>, entries: seq<Entry<K, V>>, i: nat)
    requires Keyed(t) && i < |entries| && !Has(t, entries[i].key) && forall k | 0 <= k < i :: entries[k].key != entries[i].key
    ensures var u := EnsureAll(t, entries); Has(u, entries[i].key) && Find(u.rows, entries[i].key).value == entries[i].value
  {
    hide Has, Keyed, Grows, EnsureAll, Mentions;
    var n := |entries| - 1;
    var before := EnsureAll(t, entries[..n]);
    EnsureAllKeyed(t, entries[..n]);
    EnsureAllKeyed(t, entries);
    if i < n {
      FirstEntryWins(t, entries[..n], i);
      EnsureGrows(before, entries[n]);
      assert EnsureAll(t, entries) == Ensure(before, entries[n]) by {
        EnsureAllLast(t, entries);
      }
      FindStays(before, EnsureAll(t, entries), entries[i].key);
    } else {
      NotMentioned(entries, n);
      EnsureAllHas(t, entries[..n], entries[n].key);
      EnsureAllLast(t, entries);
      AppendedIsFound(before, entries[n]);
    }
  }

  lemma EnsureAllLast<K, V>(t: Table<K, V>, entries: seq<Entry<K, V>>)
    requires entries != []
    ensures EnsureAll(t, entries) == Ensure(EnsureAll(t, entries[..|entries| - 1]), entries[|entries| - 1])
  {
  }

  lemma EnsureGrows<K, V>(t: Table<K, V>, e: Entry<K, V>)
    ensures Grows(t, Ensure(t, e))
  {
  }

  lemma NotMentioned<K, V>(entries: seq<Entry<K, V>>, n: nat)
    requires n < |entries| && forall k | 0 <= k < n :: entries[k].key != entries[n].key
    ensures !Mentions(entries[..n], entries[n].key)
  {
  }

  lemma AppendedIsFound<K, V>(t: Table<K, V>, e: Entry<K, V>)
    requires Keyed(t) && !Has(t, e.key)
    ensures var u := Append(t, e); Has(u, e.key) && Find(u.rows, e.key).value == e.value
  {
    var u := Append(t, e);
    assert u.rows[|t.rows|].key == e.key;
    var r := Find(u.rows, e.key);
    var i :| 0 <= i < |u.rows| && u.rows[i] == r;
  }

  /** A new metric gets the unit of its first event; a known one keeps its row. */
  lemma FirstUnitWins(t: Tables, events: seq<Metric>, host: string, i: nat)
    requires Keyed(t.definitions) && i < |events| && forall k | 0 <= k < i :: events[k].name != events[i].name
    ensures var u, name := PerEvent(t, events, host).definitions, events[i].name;
            && Has(u, name)
            && if Has(t.definitions, name) then Find(u.rows, name) == Find(t.definitions.rows, name) else Find(u.rows, name).value == events[i].unit
  {
    PerEventSplits(t, events, host);
    var entries := NameEntries(events);
    EnsureAllKeyed(t.definitions, entries);
    if Has(t.definitions, events[i].name) {
      FindStays(t.definitions, EnsureAll(t.definitions, entries), events[i].name);
    } else {
      hide Has, Keyed, EnsureAll;
      FirstEntryWins(t.definitions, entries, i);
    }
  }

  // ----- The statements -----

  class Database {
    var definitions: Definitions
    var series: SeriesTable

    ghost function View(): Tables
      reads this
    {
      Tables(definitions, series)
    }

    constructor ()
      ensures Valid(View())
    {
      definitions, series := Table([], 1), Table([], 1);
    }

    method Commit(f: Foreign)
      modifies this
      ensures View() == Interfere(old(View()), f)
    {
      definitions := InsertAll(definitions, f.definitions);
      series := InsertAll(series, Linked(definitions, f.series));
    }

    /** `_insert_ignore_conflicts` for either table. */
    method InsertDefinitions(rows: seq<Entry<string, Option<string>>>)
      modifies `definitions
      ensures definitions == InsertAll(old(definitions), rows)
    {
      for i := 0 to |rows|
        invariant definitions == InsertAll(old(definitions), rows[..i])
      {
        assert rows[..i + 1][..i] == rows[..i];
        definitions := InsertIgnore(definitions, rows[i]);
      }
      assert rows[..|rows|] == rows;
    }

    method InsertSeries(rows: seq<Entry<Fingerprint, nat>>)
      modifies `series
      ensures series == InsertAll(old(series), rows)
    {
      for i := 0 to |rows|
        invariant series == InsertAll(old(series), rows[..i])
      {
        assert rows[..i + 1][..i] == rows[..i];
        series := InsertIgnore(series, rows[i]);
      }
      assert rows[..|rows|] == rows;
    }

    /**
     * `others[k]` is what other writers commit between the statements. Every event finds its series,
     * names and fingerprints stay unique, and without other writers the outcome is the per-event one.
     */
    method MetricSeriesBatch(events: seq<Metric>, host: string, others: seq<Foreign>) returns (resolved: map<Fingerprint, Row<Fingerprint, nat>>)
      requires Valid(View()) && |others| == 5
      modifies this
      ensures Valid(View()) && GrowsBoth(old(View()), View())
      ensures Resolves(resolved, series, events, host)
      ensures Alone(others) ==> View() == PerEvent(old(View()), events, host)
    {
      if events == [] {
        return map[];
      }
      hide DefinitionPhase, SeriesPhase, PerEvent, Select, KnowsPrints, KnowsNames, Keys, PrintEntries, NameEntries, FirstSeen, Valid, Resolves, Alone, Grows;
      var byName, known := ResolveDefinitions(events, others);
      DefinitionPhaseKeeps(old(View()), events, others);
      ghost var middle := View();
      ghost var found;
      resolved, found := ResolveSeries(byName, known, events, host, others);
      SeriesPhaseKeeps(middle, known, events, host, others);
      GrowsOn(old(definitions), middle.definitions, definitions);
      GrowsOn(old(series), middle.series, series);
      SelectFinds(found, series, events, host);
      if Alone(others) {
        BulkIsPerEvent(old(View()), events, host, others);
      }
    }

    method ResolveDefinitions(events: seq<Metric>, others: seq<Foreign>)
      returns (byName: map<string, Row<string, Option<string>>>, ghost known: Definitions)
      requires |others| == 5
      modifies this
      ensures (View(), known) == DefinitionPhase(old(View()), events, others)
      ensures byName == Select(known, FirstSeen(NameEntries(events)))
    {
      var units := FirstEntries(NameEntries(events));
      byName, known := Select(definitions, units), definitions;
      var missing := MissingEntries(definitions, byName, units);
      Commit(others[0]);
      InsertDefinitions(missing);
      Commit(others[1]);
      if missing != [] {
        byName, known := Select(definitions, units), definitions;
      }
    }

    method ResolveSeries(byName: map<string, Row<string, Option<string>>>, ghost known: Definitions,
                         events: seq<Metric>, host: string, others: seq<Foreign>)
      returns (resolved: map<Fingerprint, Row<Fingerprint, nat>>, ghost found: SeriesTable)
      requires |others| == 5 && KnowsNames(known, events) && byName == Select(known, FirstSeen(NameEntries(events)))
      modifies this
      ensures (View(), found) == SeriesPhase(old(View()), known, events, host, others)
      ensures resolved == Select(found, FirstSeen(PrintEntries(events, host)))
    {
      var prints := FirstEntries(PrintEntries(events, host));
      Commit(others[2]);
      resolved, found := Select(series, prints), series;
      var missing := MissingEntries(series, resolved, prints);
      MissingIsKnown(known, series, events, host);
      var rows := SeriesRows(byName, known, missing);
      hide Interfere, InsertAll, Resolve, Missing, FirstSeen, Select;
      Commit(others[3]);
      InsertSeries(rows);
      Commit(others[4]);
      if missing != [] {
        resolved, found := Select(series, prints), series;
      }
    }
  }

  /** The ordered dictionary of `setdefault`. */
  method FirstEntries<K(==), V>(entries: seq<Entry<K, V>>) returns (first: seq<Entry<K, V>>)
    ensures first == FirstSeen(entries)
  {
    first := [];
    for i := 0 to |entries|
      invariant first == FirstSeen(entries[..i])
    {
      assert entries[..i + 1][..i] == entries[..i];
      FirstSeenMentions(entries[..i], entries[i].key);
      if !Mentions(first, entries[i].key) {
        first := first + [entries[i]];
      }
    }
    assert entries[..|entries|] == entries;
  }

  method MissingEntries<K(==), V, W>(ghost t: Table<K, V>, found: map<K, Row<K, V>>, entries: seq<Entry<K, W>>) returns (missing: seq<Entry<K, W>>)
    requires found == Select(t, entries)
    ensures missing == Missing(t, entries)
  {
    missing := [];
    for i := 0 to |entries|
      invariant missing == Missing(t, entries[..i])
    {
      assert entries[..i + 1][..i] == entries[..i];
      assert entries[i].key in Keys(entries);
      if entries[i].key !in found {
        missing := missing + [entries[i]];
      }
    }
    assert entries[..|entries|] == entries;
  }

  method SeriesRows(byName: map<string, Row<string, Option<string>>>, ghost known: Definitions,
                    missing: seq<Entry<Fingerprint, Metric>>) returns (rows: seq<Entry<Fingerprint, nat>>)
    requires forall i | 0 <= i < |missing| :: missing[i].value.name in byName && byName[missing[i].value.name].id == IdOf(known, missing[i].value.name)
    ensures rows == Resolve(known, missing)
  {
    rows := [];
    for i := 0 to |missing|
      invariant |rows| == i && forall j | 0 <= j < i :: rows[j] == Resolve(known, missing)[j]
    {
      rows := rows + [Entry(missing[i].key, byName[missing[i].value.name].id)];
    }
  }

  lemma MissingIsKnown(known: Definitions, found: SeriesTable, events: seq<Metric>, host: string)
    requires KnowsNames(known, events)
    ensures var byName, missing := Select(known, FirstSeen(NameEntries(events))), Missing(found, FirstSeen(PrintEntries(events, host)));
            forall i | 0 <= i < |missing| :: missing[i].value.name in byName && byName[missing[i].value.name].id == IdOf(known, missing[i].value.name)
  {
    var entries := PrintEntries(events, host);
    var byName, missing := Select(known, FirstSeen(NameEntries(events))), Missing(found, FirstSeen(entries));
    PrintsOnly(events, host, entries);
    MissingOnly(found, FirstSeen(entries));
    forall i | 0 <= i < |missing|
      ensures missing[i].value.name in byName && byName[missing[i].value.name].id == IdOf(known, missing[i].value.name)
    {
      assert missing[i] in entries;
      var j :| 0 <= j < |events| && entries[j] == missing[i];
      assert NameEntries(events)[j].key == events[j].name;
      FirstSeenMentions(NameEntries(events), events[j].name);
    }
  }

  lemma SelectFinds(t: SeriesTable, u: SeriesTable, events: seq<Metric>, host: string)
    requires KnowsPrints(t, events, host) && Grows(t, u)
    ensures var resolved := Select(t, FirstSeen(PrintEntries(events, host)));
            Resolves(resolved, u, events, host)
  {
    var entries := PrintEntries(events, host);
    forall i | 0 <= i < |events|
      ensures FingerprintOf(events[i], host) in Keys(FirstSeen(entries))
    {
      assert entries[i].key == FingerprintOf(events[i], host);
      FirstSeenMentions(entries, entries[i].key);
    }
    forall key | key in Keys(FirstSeen(entries))
      ensures key in Keys(entries)
    {
      var i :| 0 <= i < |FirstSeen(entries)| && FirstSeen(entries)[i].key == key;
      FirstSeenMentions(entries, key);
    }
    forall key | Has(t, key)
      ensures Find(t.rows, key) in u.rows
    {
      var i :| 0 <= i < |t.rows| && t.rows[i] == Find(t.rows, key);
      assert u.rows[i] == t.rows[i];
    }
  }
}

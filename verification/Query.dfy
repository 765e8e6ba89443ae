/**
 * `query_metrics` of server/temporalrca_server/api.py: grouping rollup rows and raw samples into slots,
 * and the splice of a raw tail onto the rollups.
 */
module Query {
  import opened Contracts
  import opened Aggregates
  import opened Maintenance
  import opened Slots

  // ----- Rollup rows -----

  datatype Row = Row(bucket: nat, series: nat, rollup: Rollup)

  function RowKey(r: Row): Key {
    Key(r.bucket, r.series)
  }

  /** SELECT with the filters of the rollup branch; the rows come in bucket order. */
  predicate RowSelected(r: Row, ids: seq<nat>, start: Time, end: Time) {
    r.series in ids && start <= r.bucket < end
  }

  function RowPart(r: Row, width: nat): Part
    requires width > 0
  {
    Part(Spot(r.series, SlotOf(r.bucket, width)), r.rollup.stats)
  }

  function RowParts(rows: seq<Row>, ids: seq<nat>, start: Time, end: Time, width: nat): seq<Part>
    requires width > 0
  {
    if rows == [] then []
    else
      var n := |rows| - 1;
      RowParts(rows[..n], ids, start, end, width)
      + if RowSelected(rows[n], ids, start, end) then [RowPart(rows[n], width)] else []
  }

  function SamplePart(x: Sample, width: nat): Part
    requires width > 0
  {
    Part(SpotOf(x, width), One(x))
  }

  function SampleParts(raw: seq<Sample>, ids: seq<nat>, start: Time, end: Time, width: nat): seq<Part>
    requires width > 0
  {
    if raw == [] then []
    else
      var n := |raw| - 1;
      SampleParts(raw[..n], ids, start, end, width)
      + if SampleSelected(raw[n], ids, start, end) then [SamplePart(raw[n], width)] else []
  }

  predicate SampleSelected(x: Sample, ids: seq<nat>, start: Time, end: Time) {
    x.series in ids && start <= x.timestamp < end
  }

  // ----- What the rows chart -----

  function Keys(rows: seq<Row>): set<Key> {
    set r | r in rows :: RowKey(r)
  }

  predicate UniqueKeys(rows: seq<Row>) {
    forall i, j | 0 <= i < j < |rows| :: RowKey(rows[i]) != RowKey(rows[j])
  }

  /** The samples that the selected rows stand for. */
  function Behind(history: set<Sample>, rows: seq<Row>, ids: seq<nat>, start: Time, end: Time): set<Sample> {
    set x | x in history && KeyOf(x) in Keys(rows) && x.series in ids && start <= BucketOf(x.timestamp) < end
  }

  /** The selected rows are current: each summarises all samples of its bucket. */
  ghost predicate RowsExact(history: set<Sample>, rows: seq<Row>, ids: seq<nat>, start: Time, end: Time) {
    forall r | r in rows && RowSelected(r, ids, start, end) :: Describes(r.rollup.stats, Group(history, RowKey(r)))
  }

  lemma BehindOne(history: set<Sample>, rows: seq<Row>, r: Row, ids: seq<nat>, start: Time, end: Time)
    requires UniqueKeys(rows + [r])
    ensures Behind(history, rows + [r], ids, start, end)
         == Behind(history, rows, ids, start, end) + if RowSelected(r, ids, start, end) then Group(history, RowKey(r)) else {}
    ensures Behind(history, rows, ids, start, end) !! Group(history, RowKey(r))
  {
    assert Keys(rows + [r]) == Keys(rows) + {RowKey(r)};
    assert RowKey(r) !in Keys(rows) by {
      forall q | q in rows
        ensures RowKey(q) != RowKey(r)
      {
        var i :| 0 <= i < |rows| && rows[i] == q;
        assert (rows + [r])[i] == q && (rows + [r])[|rows|] == r;
      }
    }
    hide Keys, UniqueKeys, BucketOf;
  }

  lemma {:induction false} RowsChart(history: set<Sample>, rows: seq<Row>, ids: seq<nat>, start: Time, end: Time, width: nat)
    requires width > 0 && Multiple(width, 300) && UniqueKeys(rows) && RowsExact(history, rows, ids, start, end)
    ensures Charts(AbsorbAll(RowParts(rows, ids, start, end, width)).points, Behind(history, rows, ids, start, end), width)
  {
    if rows != [] {
      var n := |rows| - 1;
      var r := rows[n];
      assert rows == rows[..n] + [r];
      RowsChart(history, rows[..n], ids, start, end, width);
      BehindOne(history, rows[..n], r, ids, start, end);
      if RowSelected(r, ids, start, end) {
        GroupSpot(history, r, width);
        hide Behind, Charts, Describes, Group, SpotOf, Multiple, RowPart;
        ChartsMore(RowParts(rows[..n], ids, start, end, width), RowPart(r, width),
                   Behind(history, rows[..n], ids, start, end), Group(history, RowKey(r)), width);
      } else {
        assert RowParts(rows[..n], ids, start, end, width) + [] == RowParts(rows[..n], ids, start, end, width);
        assert Behind(history, rows[..n], ids, start, end) + {} == Behind(history, rows[..n], ids, start, end);
      }
    }
  }

  lemma GroupSpot(history: set<Sample>, r: Row, width: nat)
    requires width > 0 && Multiple(width, 300)
    ensures forall x | x in Group(history, RowKey(r)) :: SpotOf(x, width) == RowPart(r, width).spot
  {
    forall x | x in Group(history, RowKey(r))
      ensures SpotOf(x, width) == RowPart(r, width).spot
    {
      SlotOfBucket(x.timestamp, width);
    }
  }

  /** The samples that a raw select returns. */
  function Range(s: set<Sample>, ids: seq<nat>, start: Time, end: Time): set<Sample> {
    set x | x in s && SampleSelected(x, ids, start, end)
  }

  lemma RangeOne(raw: seq<Sample>, x: Sample, ids: seq<nat>, start: Time, end: Time)
    ensures Range(AsSet(raw + [x]), ids, start, end)
         == Range(AsSet(raw), ids, start, end) + if SampleSelected(x, ids, start, end) then {x} else {}
  {
  }

  /** Raw samples extend a chart of other samples by themselves. */
  lemma {:induction false} SamplesChart(parts: seq<Part>, s: set<Sample>, raw: seq<Sample>, ids: seq<nat>, start: Time, end: Time, width: nat)
    requires width > 0 && Charts(AbsorbAll(parts).points, s, width)
    requires NoRepeats(raw) && Range(AsSet(raw), ids, start, end) !! s
    ensures Charts(AbsorbAll(parts + SampleParts(raw, ids, start, end, width)).points, s + Range(AsSet(raw), ids, start, end), width)
  {
    if raw == [] {
      assert parts + [] == parts;
      assert s + Range(AsSet([]), ids, start, end) == s;
    } else {
      var n := |raw| - 1;
      var x := raw[n];
      assert raw == raw[..n] + [x] && x !in raw[..n];
      RangeOne(raw[..n], x, ids, start, end);
      SamplesChart(parts, s, raw[..n], ids, start, end, width);
      SamplesChartOne(parts + SampleParts(raw[..n], ids, start, end, width), s + Range(AsSet(raw[..n]), ids, start, end), x, ids, start, end, width);
      hide Charts, AbsorbAll, Range;
      var more := if SampleSelected(x, ids, start, end) then [SamplePart(x, width)] else [];
      var mine := if SampleSelected(x, ids, start, end) then {x} else {};
      assert parts + SampleParts(raw[..n], ids, start, end, width) + more == parts + (SampleParts(raw[..n], ids, start, end, width) + more);
      assert s + Range(AsSet(raw[..n]), ids, start, end) + mine == s + (Range(AsSet(raw[..n]), ids, start, end) + mine);
    }
  }

  lemma SamplesChartOne(parts: seq<Part>, s: set<Sample>, x: Sample, ids: seq<nat>, start: Time, end: Time, width: nat)
    requires width > 0 && Charts(AbsorbAll(parts).points, s, width)
    requires SampleSelected(x, ids, start, end) ==> x !in s
    ensures var selected := SampleSelected(x, ids, start, end);
            Charts(AbsorbAll(parts + if selected then [SamplePart(x, width)] else []).points, s + if selected then {x} else {}, width)
  {
    OneDescribes(x);
    hide Charts, Describes, SpotOf, AbsorbAll;
    if SampleSelected(x, ids, start, end) {
      ChartsMore(parts, SamplePart(x, width), s, {x}, width);
    } else {
      assert parts + [] == parts && s + {} == s;
    }
  }

  // ----- The query -----

  datatype Aggregation = Auto | Raw | FiveMinutes

  datatype Query = Query(ids: seq<nat>, start: nat, end: nat, aggregation: Aggregation, maxPoints: nat)

  predicate Valid(q: Query) {
    q.start < q.end && q.maxPoints > 0
  }

  function Chosen(q: Query): nat
    requires Valid(q)
  {
    SelectBucketSeconds(q.end - q.start, q.maxPoints)
  }

  predicate UsesRollup(q: Query)
    requires Valid(q)
  {
    q.aggregation == FiveMinutes || (q.aggregation == Auto && Chosen(q) >= 300)
  }

  function Width(q: Query): nat
    requires Valid(q)
  {
    if UsesRollup(q) && Chosen(q) < 300 then 300 else Chosen(q)
  }

  lemma WidthFits(q: Query)
    requires Valid(q)
    ensures Width(q) > 0 && Chosen(q) <= Width(q)
    ensures UsesRollup(q) ==> Multiple(Width(q), 300)
  {
    var size := Chosen(q);
    WidthIsLeast(q.end - q.start, q.maxPoints);
    assert size >= 300 ==> size == size / 300 * 300;
    assert 300 == 1 * 300;
  }

  /**
   * Which table serves a query: `raw` never the rollups, `5m` always, `auto` exactly when the range is longer
   * than two minutes a point; then a slot is at least five minutes wide.
   */
  lemma RollupsServe(q: Query)
    requires Valid(q)
    ensures match q.aggregation
            case Raw => !UsesRollup(q)
            case FiveMinutes => UsesRollup(q)
            case Auto => UsesRollup(q) <==> q.end - q.start > 120 * SECOND * q.maxPoints
    ensures UsesRollup(q) ==> Width(q) >= 300 && Width(q) % 300 == 0
    ensures Width(q) != SelectBucketSeconds(q.end - q.start, q.maxPoints) ==> Width(q) == 300 && UsesRollup(q)
  {
    hide SelectBucketSeconds;
    var span, size := q.end - q.start, SelectBucketSeconds(q.end - q.start, q.maxPoints);
    TwoMinutes(span, q.maxPoints, size);
    assert 120 * SECOND * q.maxPoints == 120 * (SECOND * q.maxPoints);
    WidthIsLeast(span, q.maxPoints);
  }

  lemma TwoMinutes(span: nat, maxPoints: nat, size: nat)
    requires maxPoints > 0 && size == SelectBucketSeconds(span, maxPoints)
    ensures size >= 300 <==> span > 120 * (SECOND * maxPoints)
  {
    WidthIsLeast(span, maxPoints);
    hide SelectBucketSeconds;
    assert 120 in BUCKETS && (size <= 120 || size >= 300);
    if size <= 120 {
      Widen(size, 120, SECOND * maxPoints);
    }
  }

  /** Rollups serve the range up to here; after it, raw samples do. */
  function RollupEnd(q: Query, now: Time, lateness: nat): Time {
    if q.aggregation == Auto && BucketOf(now - lateness) < q.end then BucketOf(now - lateness) else q.end
  }

  function TailStart(q: Query, rollupEnd: Time): Time {
    if rollupEnd > q.start then rollupEnd else q.start
  }

  function TailParts(q: Query, raw: seq<Sample>, rollupEnd: Time): seq<Part>
    requires Valid(q) && Width(q) > 0
  {
    if q.aggregation == Auto && rollupEnd < q.end then
      SampleParts(raw, q.ids, TailStart(q, rollupEnd), q.end, Width(q))
    else []
  }

  function Splice(q: Query, rows: seq<Row>, raw: seq<Sample>, rollupEnd: Time): Grouped
    requires Valid(q) && Width(q) > 0
  {
    AbsorbAll(RowParts(rows, q.ids, q.start, rollupEnd, Width(q)) + TailParts(q, raw, rollupEnd))
  }

  // ----- The answer -----

  datatype Point = Point(timestamp: nat, min: real, max: real, average: real, last: real, count: nat)

  datatype Series = Series(id: nat, points: seq<Point>)

  function PointOf(slot: nat, p: Stats): Point {
    Point(slot, p.min, p.max, if p.count == 0 then 0.0 else p.sum / p.count as real, p.last, p.count)
  }

  /** The points of one series, in the order of the dictionary. */
  function PointsOf(points: map<Spot, Stats>, order: seq<Spot>, id: nat): seq<Point>
    requires forall spot | spot in order :: spot in points
  {
    if order == [] then []
    else
      var n := |order| - 1;
      PointsOf(points, order[..n], id) + if order[n].series == id then [PointOf(order[n].slot, points[order[n]])] else []
  }

  /** The numbers of a point are those of its samples; `last` is the value of some sample with the greatest timestamp. */
  ghost predicate IsPoint(p: Point, s: set<Sample>) {
    && s != {} && p.count == |s| && p.average * |s| as real == SumOf(s)
    && (forall x | x in s :: p.min <= x.value <= p.max)
    && (exists x :: x in s && x.value == p.min)
    && (exists x :: x in s && x.value == p.max)
    && (exists x :: x in s && x.value == p.last && forall y | y in s :: y.timestamp <= x.timestamp)
  }

  lemma PointIs(slot: nat, stats: Stats, s: set<Sample>)
    requires Describes(stats, s)
    ensures IsPoint(PointOf(slot, stats), s)
  {
    var x :| x in s && x.timestamp == stats.lastTimestamp && x.value == stats.last;
    assert forall y | y in s :: y.timestamp <= x.timestamp;
    Quotient(stats.sum, stats.count);
    hide SumOf;
  }

  lemma Quotient(sum: real, count: nat)
    requires count > 0
    ensures sum / count as real * count as real == sum
  {
  }

  /** One point for each slot that has samples, in the order of time. */
  ghost predicate AnswersSlots(points: seq<Point>, id: nat, s: set<Sample>, width: nat)
    requires width > 0
  {
    && (forall i | 0 <= i < |points| :: IsPoint(points[i], At(s, Spot(id, points[i].timestamp), width)))
    && (forall slot | At(s, Spot(id, slot), width) != {} :: exists i :: 0 <= i < |points| && points[i].timestamp == slot)
    && Increasing(points)
  }

  function InSlot(s: set<Sample>, id: nat, from: nat, width: nat): set<Sample> {
    set x | x in s && x.series == id && from * SECOND <= x.timestamp < (from + width) * SECOND
  }

  /**
   * The right answer for one series: points at strictly increasing multiples of the width, each with the
   * numbers of the samples in the `width` seconds from its timestamp on, and every sample in one of them.
   */
  ghost predicate Answers(points: seq<Point>, id: nat, s: set<Sample>, width: nat) {
    && Increasing(points)
    && (forall p | p in points :: Multiple(p.timestamp, width) && IsPoint(p, InSlot(s, id, p.timestamp, width)))
    && (forall x | x in s && x.series == id :: exists p :: p in points && p.timestamp * SECOND <= x.timestamp < (p.timestamp + width) * SECOND)
  }

  /** A slot is the `width` seconds from its multiple on. */
  lemma SlotHolds(t: nat, width: nat)
    requires width > 0
    ensures Multiple(SlotOf(t, width), width)
    ensures SlotOf(t, width) * SECOND <= t < (SlotOf(t, width) + width) * SECOND
    ensures forall m: nat | Multiple(m, width) && m * SECOND <= t < (m + width) * SECOND :: m == SlotOf(t, width)
  {
    FloorBounds(t / SECOND, width);
    forall m: nat | Multiple(m, width) && m * SECOND <= t < (m + width) * SECOND
      ensures m == SlotOf(t, width)
    {
      FloorIsUnique(t / SECOND, width, m);
    }
    hide Floor, Multiple;
  }

  lemma SlotIs(s: set<Sample>, id: nat, slot: nat, width: nat)
    requires width > 0 && Multiple(slot, width)
    ensures At(s, Spot(id, slot), width) == InSlot(s, id, slot, width)
  {
    forall x: Sample
      ensures SlotOf(x.timestamp, width) == slot <==> slot * SECOND <= x.timestamp < (slot + width) * SECOND
    {
      SlotHolds(x.timestamp, width);
    }
    hide SlotOf, Multiple;
  }

  lemma SlotsAnswer(points: seq<Point>, id: nat, s: set<Sample>, width: nat)
    requires width > 0 && AnswersSlots(points, id, s, width)
    ensures Answers(points, id, s, width)
  {
    hide IsPoint, InSlot, Increasing, SlotOf;
    forall p | p in points
      ensures Multiple(p.timestamp, width) && IsPoint(p, InSlot(s, id, p.timestamp, width))
    {
      var i :| 0 <= i < |points| && points[i] == p;
      PointHasSlot(p, s, id, width);
      SlotIs(s, id, p.timestamp, width);
    }
    forall x | x in s && x.series == id
      ensures exists p :: p in points && p.timestamp * SECOND <= x.timestamp < (p.timestamp + width) * SECOND
    {
      var slot := SlotOf(x.timestamp, width);
      SlotHolds(x.timestamp, width);
      assert x in At(s, Spot(id, slot), width);
      var i :| 0 <= i < |points| && points[i].timestamp == slot;
      assert points[i] in points;
    }
  }

  lemma PointHasSlot(p: Point, s: set<Sample>, id: nat, width: nat)
    requires width > 0 && IsPoint(p, At(s, Spot(id, p.timestamp), width))
    ensures Multiple(p.timestamp, width)
  {
    var x :| x in At(s, Spot(id, p.timestamp), width);
    SlotHolds(x.timestamp, width);
  }

  /** Only the samples of the series matter. */
  lemma AnswersOfSeries(points: seq<Point>, id: nat, s: set<Sample>, t: set<Sample>, width: nat)
    requires Answers(points, id, s, width) && forall x: Sample | x.series == id :: x in s <==> x in t
    ensures Answers(points, id, t, width)
  {
    hide IsPoint, InSlot, Increasing, Multiple;
    forall from: nat
      ensures InSlot(t, id, from, width) == InSlot(s, id, from, width)
    {
      SlotOfSeries(s, t, id, from, width);
    }
  }

  lemma SlotOfSeries(s: set<Sample>, t: set<Sample>, id: nat, from: nat, width: nat)
    requires forall x: Sample | x.series == id :: x in s <==> x in t
    ensures InSlot(t, id, from, width) == InSlot(s, id, from, width)
  {
  }

  predicate Increasing(points: seq<Point>) {
    forall i, j | 0 <= i < j < |points| :: points[i].timestamp < points[j].timestamp
  }

  predicate FromOrder(points: seq<Point>, order: seq<Spot>, id: nat) {
    forall i | 0 <= i < |points| :: Spot(id, points[i].timestamp) in order
  }

  lemma {:induction false} PointsOrdered(g: Grouped, n: nat, id: nat)
    requires WellOrdered(g) && n <= |g.order|
    ensures var points := PointsOf(g.points, g.order[..n], id);
            FromOrder(points, g.order[..n], id) && Increasing(points)
  {
    if n > 0 {
      var before := PointsOf(g.points, g.order[..n - 1], id);
      PointsOrdered(g, n - 1, id);
      assert g.order[..n][..n - 1] == g.order[..n - 1];
      if g.order[n - 1].series == id {
        PointsGrow(g, n - 1, id, before);
      } else {
        assert before + [] == before;
      }
      hide Increasing;
    }
  }

  lemma PointsGrow(g: Grouped, n: nat, id: nat, before: seq<Point>)
    requires n < |g.order| && WellOrdered(g) && Increasing(before) && g.order[n].series == id
    requires FromOrder(before, g.order[..n], id)
    ensures forall p: Point | p.timestamp == g.order[n].slot :: Increasing(before + [p])
  {
  }

  /** What the points of a prefix of the order say. */
  ghost predicate Covers(points: seq<Point>, order: seq<Spot>, id: nat, s: set<Sample>, width: nat)
    requires width > 0
  {
    && (forall i | 0 <= i < |points| :: IsPoint(points[i], At(s, Spot(id, points[i].timestamp), width)))
    && (forall slot | Spot(id, slot) in order :: exists i :: 0 <= i < |points| && points[i].timestamp == slot)
  }

  lemma CoversMore(before: seq<Point>, p: Point, order: seq<Spot>, id: nat, s: set<Sample>, width: nat)
    requires width > 0 && Covers(before, order, id, s, width) && IsPoint(p, At(s, Spot(id, p.timestamp), width))
    ensures Covers(before + [p], order + [Spot(id, p.timestamp)], id, s, width)
  {
    var points := before + [p];
    hide IsPoint, At;
    assert forall i | 0 <= i < |before| :: points[i] == before[i];
    assert points[|before|] == p;
  }

  lemma CoversOther(before: seq<Point>, spot: Spot, order: seq<Spot>, id: nat, s: set<Sample>, width: nat)
    requires width > 0 && Covers(before, order, id, s, width) && spot.series != id
    ensures Covers(before, order + [spot], id, s, width)
  {
  }

  lemma {:induction false} PointsAnswer(g: Grouped, n: nat, id: nat, s: set<Sample>, width: nat)
    requires width > 0 && Charts(g.points, s, width) && WellOrdered(g) && n <= |g.order|
    ensures Covers(PointsOf(g.points, g.order[..n], id), g.order[..n], id, s, width)
  {
    if n > 0 {
      var spot, before := g.order[n - 1], PointsOf(g.points, g.order[..n - 1], id);
      PointsAnswer(g, n - 1, id, s, width);
      assert g.order[..n][..n - 1] == g.order[..n - 1];
      assert g.order[..n] == g.order[..n - 1] + [spot];
      assert spot in g.order;
      if spot.series == id {
        var p := PointOf(spot.slot, g.points[spot]);
        assert Describes(g.points[spot], At(s, spot, width));
        PointIs(spot.slot, g.points[spot], At(s, spot, width));
        hide IsPoint, At, Describes, PointOf;
        CoversMore(before, p, g.order[..n - 1], id, s, width);
      } else {
        hide IsPoint, At, Describes, PointOf;
        CoversOther(before, spot, g.order[..n - 1], id, s, width);
        assert before + [] == before;
      }
    }
  }

  lemma DictionaryAnswers(g: Grouped, id: nat, s: set<Sample>, width: nat)
    requires width > 0 && Charts(g.points, s, width) && WellOrdered(g)
    ensures Answers(PointsOf(g.points, g.order, id), id, s, width)
  {
    PointsAnswer(g, |g.order|, id, s, width);
    PointsOrdered(g, |g.order|, id);
    assert g.order[..|g.order|] == g.order;
    hide IsPoint, At, Describes, PointsOf, Answers;
    SlotsAnswer(PointsOf(g.points, g.order, id), id, s, width);
  }

  // ----- The order of the rows -----

  predicate RowsSorted(rows: seq<Row>) {
    forall i, j | 0 <= i < j < |rows| :: rows[i].bucket <= rows[j].bucket
  }

  predicate SamplesSorted(raw: seq<Sample>) {
    forall i, j | 0 <= i < j < |raw| :: raw[i].timestamp <= raw[j].timestamp
  }

  /** Some time in the range lies in the slot. */
  ghost predicate SlotInRange(slot: nat, start: nat, end: Time, width: nat)
    requires width > 0
  {
    exists t: nat :: start <= t < end && slot == SlotOf(t, width)
  }

  lemma {:induction false} RowPartsOrdered(rows: seq<Row>, ids: seq<nat>, start: nat, end: Time, width: nat)
    requires width > 0 && RowsSorted(rows)
    ensures var parts := RowParts(rows, ids, start, end, width);
            && Nondecreasing(parts)
            && (forall p | p in parts :: exists r :: r in rows && start <= r.bucket < end && p.spot == Spot(r.series, SlotOf(r.bucket, width)))
  {
    if rows != [] {
      var n := |rows| - 1;
      var r := rows[n];
      var before := RowParts(rows[..n], ids, start, end, width);
      RowPartsOrdered(rows[..n], ids, start, end, width);
      assert r in rows;
      forall p | p in before
        ensures p.spot.slot <= SlotOf(r.bucket, width)
        ensures exists q :: q in rows && start <= q.bucket < end && p.spot == Spot(q.series, SlotOf(q.bucket, width))
      {
        var q :| q in rows[..n] && start <= q.bucket < end && p.spot == Spot(q.series, SlotOf(q.bucket, width));
        assert q in rows;
        SlotMonotone(q.bucket, r.bucket, width);
      }
      hide SlotOf, RowsSorted;
    }
  }

  lemma {:induction false} SamplePartsOrdered(raw: seq<Sample>, ids: seq<nat>, start: nat, end: Time, width: nat)
    requires width > 0 && SamplesSorted(raw)
    ensures var parts := SampleParts(raw, ids, start, end, width);
            && Nondecreasing(parts)
            && (forall p | p in parts :: exists x :: x in raw && start <= x.timestamp < end && p.spot == SpotOf(x, width))
  {
    if raw != [] {
      var n := |raw| - 1;
      var x := raw[n];
      var before := SampleParts(raw[..n], ids, start, end, width);
      SamplePartsOrdered(raw[..n], ids, start, end, width);
      assert x in raw;
      forall p | p in before
        ensures p.spot.slot <= SlotOf(x.timestamp, width)
        ensures exists y :: y in raw && start <= y.timestamp < end && p.spot == SpotOf(y, width)
      {
        var y :| y in raw[..n] && start <= y.timestamp < end && p.spot == SpotOf(y, width);
        assert y in raw;
        SlotMonotone(y.timestamp, x.timestamp, width);
      }
      hide SlotOf, SamplesSorted, One;
    }
  }

  /** Rows come before the tail, so the slots of the splice never go back. */
  lemma SpliceOrdered(q: Query, rows: seq<Row>, raw: seq<Sample>, rollupEnd: Time)
    requires Valid(q) && Width(q) > 0 && RowsSorted(rows) && SamplesSorted(raw) && rollupEnd <= q.end
    ensures WellOrdered(Splice(q, rows, raw, rollupEnd))
    ensures forall spot | spot in Splice(q, rows, raw, rollupEnd).points :: SlotInRange(spot.slot, q.start, q.end, Width(q))
  {
    var width := Width(q);
    var head, tail := RowParts(rows, q.ids, q.start, rollupEnd, width), TailParts(q, raw, rollupEnd);
    RowPartsOrdered(rows, q.ids, q.start, rollupEnd, width);
    SamplePartsOrdered(raw, q.ids, TailStart(q, rollupEnd), q.end, width);
    PartsMeet(q, rows, raw, rollupEnd, head, tail, width);
    hide RowParts, TailParts, SampleParts, SlotOf, SpotOf, Width, RowsSorted, SamplesSorted, SlotInRange;
    OrderIncreases(head + tail);
  }

  lemma PartsMeet(q: Query, rows: seq<Row>, raw: seq<Sample>, rollupEnd: Time, head: seq<Part>, tail: seq<Part>, width: nat)
    requires width > 0 && rollupEnd <= q.end
    requires forall p | p in head :: exists r :: r in rows && q.start <= r.bucket < rollupEnd && p.spot == Spot(r.series, SlotOf(r.bucket, width))
    requires forall p | p in tail :: exists x :: x in raw && TailStart(q, rollupEnd) <= x.timestamp < q.end && p.spot == SpotOf(x, width)
    ensures forall p, t | p in head && t in tail :: p.spot.slot <= t.spot.slot
    ensures forall p | p in head + tail :: SlotInRange(p.spot.slot, q.start, q.end, width)
  {
    forall p, t | p in head && t in tail
      ensures p.spot.slot <= t.spot.slot
    {
      var r :| r in rows && q.start <= r.bucket < rollupEnd && p.spot == Spot(r.series, SlotOf(r.bucket, width));
      var x :| x in raw && TailStart(q, rollupEnd) <= x.timestamp < q.end && t.spot == SpotOf(x, width);
      SlotMonotone(r.bucket, x.timestamp, width);
    }
    hide Floor;
  }

  // ----- The number of points -----

  lemma MultipleStep(a: nat, b: nat, d: nat)
    requires d > 0 && Multiple(a, d) && Multiple(b, d) && a < b
    ensures a + d <= b
  {
    var p: nat, q: nat :| a == p * d && b == q * d;
    Scale(p, q, d);
    Scale(q, p, d);
  }

  lemma {:induction false} PointsSpread(points: seq<Point>, n: nat, width: nat)
    requires width > 0 && n < |points| && Increasing(points)
    requires forall p | p in points :: Multiple(p.timestamp, width)
    ensures points[0].timestamp + n * width <= points[n].timestamp
  {
    if n > 0 {
      PointsSpread(points, n - 1, width);
      MultipleStep(points[n - 1].timestamp, points[n].timestamp, width);
      assert n * width == (n - 1) * width + width;
    }
  }

  lemma SlotGap(t0: nat, t1: nat, width: nat, span: nat)
    requires width > 0 && t1 < t0 + span
    ensures (SlotOf(t1, width) - SlotOf(t0, width) - width) * SECOND < span
  {
  }

  lemma CountFromGap(n: nat, width: nat, maxPoints: nat, gap: int)
    requires width > 0 && n * width <= gap && (gap - width) * SECOND < width * (SECOND * maxPoints)
    ensures n <= maxPoints
  {
    assert width * (SECOND * maxPoints) == (width * maxPoints) * SECOND;
    assert gap - width < width * maxPoints;
    assert n * width < (maxPoints + 1) * width;
    Scale(maxPoints + 1, n, width);
  }

  /** When a day is wide enough for the span, a series has at most one point more than was asked for. */
  lemma PointCount(q: Query, points: seq<Point>)
    requires Valid(q) && q.end - q.start <= WIDEST * (SECOND * q.maxPoints)
    requires Width(q) > 0 && Increasing(points)
    requires forall p | p in points :: SlotInRange(p.timestamp, q.start, q.end, Width(q))
    ensures |points| <= q.maxPoints + 1
  {
    if points != [] {
      var n, width, span := |points| - 1, Width(q), q.end - q.start;
      WidthFits(q);
      WidthIsLeast(span, q.maxPoints);
      Widen(Chosen(q), width, SECOND * q.maxPoints);
      forall p | p in points
        ensures Multiple(p.timestamp, width)
      {
        var t: nat :| q.start <= t < q.end && p.timestamp == SlotOf(t, width);
        FloorBounds(t / SECOND, width);
      }
      PointsSpread(points, n, width);
      assert points[0] in points && points[n] in points;
      var t0: nat :| q.start <= t0 < q.end && points[0].timestamp == SlotOf(t0, width);
      var t1: nat :| q.start <= t1 < q.end && points[n].timestamp == SlotOf(t1, width);
      SlotGap(t0, t1, width, span);
      hide SlotOf, Multiple, Width, Chosen, Increasing, SlotInRange;
      CountFromGap(n, width, q.maxPoints, points[n].timestamp - points[0].timestamp);
    }
  }

  lemma Widen(a: nat, b: nat, c: nat)
    requires a <= b
    ensures a * c <= b * c
  {
  }

  /** Slot-aligned timestamps that strictly increase, and at most one point more than asked for when a day is wide enough. */
  ghost predicate WellSpaced(points: seq<Point>, q: Query)
    requires Valid(q)
  {
    && Increasing(points)
    && (forall p | p in points :: Multiple(p.timestamp, Width(q)))
    && (q.end - q.start <= WIDEST * (SECOND * q.maxPoints) ==> |points| <= q.maxPoints + 1)
  }

  lemma SlotsAreSpaced(q: Query, points: seq<Point>)
    requires Valid(q) && Width(q) > 0 && Increasing(points)
    requires forall p | p in points :: SlotInRange(p.timestamp, q.start, q.end, Width(q))
    ensures WellSpaced(points, q)
  {
    forall p | p in points
      ensures Multiple(p.timestamp, Width(q))
    {
      var t: nat :| q.start <= t < q.end && p.timestamp == SlotOf(t, Width(q));
      FloorBounds(t / SECOND, Width(q));
    }
    hide SlotInRange, Increasing, Multiple, Width;
    if q.end - q.start <= WIDEST * (SECOND * q.maxPoints) {
      PointCount(q, points);
    }
  }

  lemma SplicedCount(q: Query, rows: seq<Row>, raw: seq<Sample>, rollupEnd: Time, id: nat)
    requires Valid(q) && RowsSorted(rows) && SamplesSorted(raw) && rollupEnd <= q.end && Width(q) > 0
    ensures var g := Splice(q, rows, raw, rollupEnd);
            WellOrdered(g) && WellSpaced(PointsOf(g.points, g.order, id), q)
  {
    var g := Splice(q, rows, raw, rollupEnd);
    SpliceOrdered(q, rows, raw, rollupEnd);
    PointsOrdered(g, |g.order|, id);
    assert g.order[..|g.order|] == g.order;
    var points := PointsOf(g.points, g.order, id);
    hide Splice, Increasing, PointsOf, SlotInRange, WellSpaced;
    forall p | p in points
      ensures SlotInRange(p.timestamp, q.start, q.end, Width(q))
    {
      assert Spot(id, p.timestamp) in g.points;
    }
    SlotsAreSpaced(q, points);
  }

  /** A point has samples, and its average and last value lie between its extremes. */
  predicate WithinBounds(p: Point) {
    p.count > 0 && p.min <= p.average <= p.max && p.min <= p.last <= p.max
  }

  lemma PointBounds(p: Point, s: set<Sample>)
    requires IsPoint(p, s)
    ensures WithinBounds(p)
  {
    hide SumOf;
    SumBounds(s, p.min, p.max);
    assert Times(p.average, |s|) == SumOf(s);
    hide Times;
    Unscale(p.min, p.average, p.max, |s|);
  }

  lemma Unscale(lo: real, v: real, hi: real, n: nat)
    requires n > 0 && Times(lo, n) <= Times(v, n) <= Times(hi, n)
    ensures lo <= v <= hi
  {
  }

  lemma AnswersAreBounded(points: seq<Point>, id: nat, s: set<Sample>, width: nat)
    requires Answers(points, id, s, width)
    ensures forall p | p in points :: WithinBounds(p)
  {
    hide IsPoint, InSlot, WithinBounds, Multiple, Increasing;
    forall p | p in points
      ensures WithinBounds(p)
    {
      PointBounds(p, InSlot(s, id, p.timestamp, width));
    }
  }

  // ----- The loops -----

  /** `setdefault` and the update of the entry, for one row. */
  method Add(g: Grouped, part: Part) returns (after: Grouped)
    ensures after == Absorb(g, part)
  {
    var q := part.stats;
    after := g;
    if part.spot !in g.points {
      after := Grouped(g.points[part.spot := Stats(q.min, q.max, 0.0, 0, q.last, q.lastTimestamp)], g.order + [part.spot]);
    }
    var p := after.points[part.spot];
    p := p.(min := Min(p.min, q.min), max := Max(p.max, q.max), sum := p.sum + q.sum, count := p.count + q.count);
    if q.lastTimestamp >= p.lastTimestamp {
      p := p.(last := q.last, lastTimestamp := q.lastTimestamp);
    }
    after := after.(points := after.points[part.spot := p]);
    assert after.points == Absorb(g, part).points;
  }

  method GroupRows(rows: seq<Row>, ids: seq<nat>, start: Time, end: Time, width: nat) returns (g: Grouped)
    requires width > 0
    ensures g == AbsorbAll(RowParts(rows, ids, start, end, width))
  {
    g := EMPTY_GROUP;
    for i := 0 to |rows|
      invariant g == AbsorbAll(RowParts(rows[..i], ids, start, end, width))
    {
      assert rows[..i + 1][..i] == rows[..i];
      if RowSelected(rows[i], ids, start, end) {
        AbsorbOne(RowParts(rows[..i], ids, start, end, width), RowPart(rows[i], width));
        g := Add(g, RowPart(rows[i], width));
      } else {
        assert RowParts(rows[..i], ids, start, end, width) + [] == RowParts(rows[..i], ids, start, end, width);
      }
    }
    assert rows[..|rows|] == rows;
  }

  method AddSamples(before: Grouped, ghost parts: seq<Part>, raw: seq<Sample>, ids: seq<nat>, start: Time, end: Time, width: nat) returns (g: Grouped)
    requires width > 0 && before == AbsorbAll(parts)
    ensures g == AbsorbAll(parts + SampleParts(raw, ids, start, end, width))
  {
    g := before;
    assert parts + [] == parts;
    for i := 0 to |raw|
      invariant g == AbsorbAll(parts + SampleParts(raw[..i], ids, start, end, width))
    {
      ghost var done := SampleParts(raw[..i], ids, start, end, width);
      assert raw[..i + 1][..i] == raw[..i];
      if SampleSelected(raw[i], ids, start, end) {
        var part := SamplePart(raw[i], width);
        assert parts + (done + [part]) == parts + done + [part];
        AbsorbOne(parts + done, part);
        g := Add(g, part);
      } else {
        assert done + [] == done;
      }
    }
    assert raw[..|raw|] == raw;
  }

  /** The loops over the requested series and the dictionary. */
  method Respond(g: Grouped, ids: seq<nat>) returns (series: seq<Series>)
    requires forall spot | spot in g.order :: spot in g.points
    ensures |series| == |ids|
    ensures forall i | 0 <= i < |ids| :: series[i] == Series(ids[i], PointsOf(g.points, g.order, ids[i]))
  {
    series := [];
    for i := 0 to |ids|
      invariant |series| == i
      invariant forall j | 0 <= j < i :: series[j] == Series(ids[j], PointsOf(g.points, g.order, ids[j]))
    {
      var points := [];
      for j := 0 to |g.order|
        invariant points == PointsOf(g.points, g.order[..j], ids[i])
      {
        var spot := g.order[j];
        assert g.order[..j + 1][..j] == g.order[..j];
        if spot.series == ids[i] {
          points := points + [PointOf(spot.slot, g.points[spot])];
        }
      }
      assert g.order[..|g.order|] == g.order;
      series := series + [Series(ids[i], points)];
    }
  }

  // ----- The raw branch -----

  ghost predicate ListsCover(lists: map<Spot, seq<Sample>>, s: set<Sample>, width: nat)
    requires width > 0
  {
    && (forall spot :: spot in lists <==> At(s, spot, width) != {})
    && (forall spot | spot in lists :: NoRepeats(lists[spot]) && AsSet(lists[spot]) == At(s, spot, width))
  }

  function Append(lists: map<Spot, seq<Sample>>, spot: Spot, x: Sample): map<Spot, seq<Sample>> {
    lists[spot := (if spot in lists then lists[spot] else []) + [x]]
  }

  lemma AppendCovers(lists: map<Spot, seq<Sample>>, s: set<Sample>, x: Sample, width: nat)
    requires width > 0 && ListsCover(lists, s, width) && x !in s
    ensures ListsCover(Append(lists, SpotOf(x, width), x), s + {x}, width)
  {
    var own := SpotOf(x, width);
    forall spot
      ensures At(s + {x}, spot, width) == At(s, spot, width) + if spot == own then {x} else {}
    {
      AtUnion(s, {x}, spot, own, width);
    }
    assert x !in At(s, own, width);
    var list := if own in lists then lists[own] else [];
    assert AsSet(list) == At(s, own, width);
    assert x !in AsSet(list);
    AsSetAppend(list, x);
    hide At, SpotOf, AsSet, NoRepeats;
  }

  lemma AsSetAppend(list: seq<Sample>, x: Sample)
    requires NoRepeats(list) && x !in list
    ensures NoRepeats(list + [x]) && AsSet(list + [x]) == AsSet(list) + {x}
  {
  }

  /** The dictionary of lists after the first i samples. */
  ghost predicate Collected(lists: map<Spot, seq<Sample>>, order: seq<Spot>, raw: seq<Sample>, i: nat,
                            ids: seq<nat>, start: Time, end: Time, width: nat)
    requires width > 0 && i <= |raw|
  {
    && ListsCover(lists, Range(AsSet(raw[..i]), ids, start, end), width)
    && OrderOf(order, lists.Keys)
    && (i < |raw| ==> forall spot | spot in order :: spot.slot <= SlotOf(raw[i].timestamp, width))
  }

  lemma CollectedSkip(lists: map<Spot, seq<Sample>>, order: seq<Spot>, raw: seq<Sample>, i: nat,
                      ids: seq<nat>, start: Time, end: Time, width: nat)
    requires width > 0 && i < |raw| && SamplesSorted(raw)
    requires Collected(lists, order, raw, i, ids, start, end, width) && !SampleSelected(raw[i], ids, start, end)
    ensures Collected(lists, order, raw, i + 1, ids, start, end, width)
  {
    assert raw[..i + 1] == raw[..i] + [raw[i]];
    RangeOne(raw[..i], raw[i], ids, start, end);
    var seen := Range(AsSet(raw[..i]), ids, start, end);
    assert seen + {} == seen;
    if i + 1 < |raw| {
      SlotMonotone(raw[i].timestamp, raw[i + 1].timestamp, width);
    }
    hide ListsCover, OrderOf, Range, AsSet, SlotOf;
  }

  lemma CollectedAdd(lists: map<Spot, seq<Sample>>, order: seq<Spot>, raw: seq<Sample>, i: nat,
                     ids: seq<nat>, start: Time, end: Time, width: nat)
    requires width > 0 && i < |raw| && SamplesSorted(raw) && NoRepeats(raw)
    requires Collected(lists, order, raw, i, ids, start, end, width) && SampleSelected(raw[i], ids, start, end)
    ensures var spot := SpotOf(raw[i], width);
            Collected(Append(lists, spot, raw[i]), if spot in lists then order else order + [spot], raw, i + 1, ids, start, end, width)
  {
    hide ListsCover, OrderOf, Range, AsSet, SlotOf, NoRepeats;
    var spot := SpotOf(raw[i], width);
    AddToList(lists, raw, i, ids, start, end, width);
    OrderAppend(order, lists.Keys, spot);
    if i + 1 < |raw| {
      SlotMonotone(raw[i].timestamp, raw[i + 1].timestamp, width);
    }
    assert Append(lists, spot, raw[i]).Keys == lists.Keys + {spot};
  }

  lemma AddToList(lists: map<Spot, seq<Sample>>, raw: seq<Sample>, i: nat, ids: seq<nat>, start: Time, end: Time, width: nat)
    requires width > 0 && i < |raw| && NoRepeats(raw) && SampleSelected(raw[i], ids, start, end)
    requires ListsCover(lists, Range(AsSet(raw[..i]), ids, start, end), width)
    ensures ListsCover(Append(lists, SpotOf(raw[i], width), raw[i]), Range(AsSet(raw[..i + 1]), ids, start, end), width)
  {
    assert raw[..i + 1] == raw[..i] + [raw[i]] && raw[i] !in raw[..i];
    RangeOne(raw[..i], raw[i], ids, start, end);
    assert raw[i] !in Range(AsSet(raw[..i]), ids, start, end);
    hide ListsCover, Range, AsSet, SpotOf, Append, NoRepeats, SampleSelected;
    AppendCovers(lists, Range(AsSet(raw[..i]), ids, start, end), raw[i], width);
  }

  method GroupRaw(raw: seq<Sample>, ids: seq<nat>, start: Time, end: Time, width: nat)
    returns (lists: map<Spot, seq<Sample>>, order: seq<Spot>)
    requires width > 0 && NoRepeats(raw) && SamplesSorted(raw)
    ensures ListsCover(lists, Range(AsSet(raw), ids, start, end), width)
    ensures OrderOf(order, lists.Keys)
  {
    lists, order := map[], [];
    for i := 0 to |raw|
      invariant Collected(lists, order, raw, i, ids, start, end, width)
    {
      if SampleSelected(raw[i], ids, start, end) {
        var spot := SpotOf(raw[i], width);
        CollectedAdd(lists, order, raw, i, ids, start, end, width);
        if spot !in lists {
          order := order + [spot];
        }
        lists := Append(lists, spot, raw[i]);
      } else {
        CollectedSkip(lists, order, raw, i, ids, start, end, width);
      }
    }
    assert raw[..|raw|] == raw;
  }

  lemma OrderAppend(order: seq<Spot>, keys: set<Spot>, spot: Spot)
    requires OrderOf(order, keys) && forall other | other in order :: other.slot <= spot.slot
    ensures OrderOf(if spot in keys then order else order + [spot], keys + {spot})
  {
  }

  /** One more value: `max(samples, key=timestamp)` keeps the first sample on ties. */
  function Include(p: Stats, x: Sample): Stats {
    Stats(Min(p.min, x.value), Max(p.max, x.value), p.sum + x.value, p.count + 1,
          if x.timestamp > p.lastTimestamp then x.value else p.last,
          if x.timestamp > p.lastTimestamp then x.timestamp else p.lastTimestamp)
  }

  lemma IncludeDescribes(p: Stats, x: Sample, s: set<Sample>)
    requires Describes(p, s) && x !in s
    ensures Describes(Include(p, x), s + {x})
  {
    OneDescribes(x);
    MergeDescribes(p, One(x), s, {x});
    assert forall y | y in s :: y in s + {x};
    hide SumOf;
  }

  lemma Prefix(samples: seq<Sample>, i: nat)
    requires NoRepeats(samples) && i < |samples|
    ensures samples[i] !in AsSet(samples[..i]) && AsSet(samples[..i + 1]) == AsSet(samples[..i]) + {samples[i]}
  {
  }

  /** min, max, sum, len and the latest of the samples of one slot. */
  method Summarise(samples: seq<Sample>) returns (p: Stats)
    requires samples != [] && NoRepeats(samples)
    ensures Describes(p, AsSet(samples))
  {
    p := One(samples[0]);
    OneDescribes(samples[0]);
    assert AsSet(samples[..1]) == {samples[0]};
    hide Describes, AsSet, Include, One, NoRepeats;
    for i := 1 to |samples|
      invariant Describes(p, AsSet(samples[..i]))
    {
      Prefix(samples, i);
      IncludeDescribes(p, samples[i], AsSet(samples[..i]));
      p := Include(p, samples[i]);
    }
    assert samples[..|samples|] == samples;
  }

  lemma ListOf(lists: map<Spot, seq<Sample>>, s: set<Sample>, width: nat, spot: Spot)
    requires width > 0 && ListsCover(lists, s, width) && spot in lists
    ensures lists[spot] != [] && NoRepeats(lists[spot]) && AsSet(lists[spot]) == At(s, spot, width)
  {
  }

  /** Points for all keys of a prefix of the order. */
  ghost predicate Summarised(points: map<Spot, Stats>, done: seq<Spot>, s: set<Sample>, width: nat)
    requires width > 0
  {
    && (forall spot :: spot in points <==> spot in done)
    && (forall spot | spot in points :: Describes(points[spot], At(s, spot, width)))
  }

  lemma SummarisedMore(points: map<Spot, Stats>, done: seq<Spot>, s: set<Sample>, width: nat, spot: Spot, p: Stats)
    requires width > 0 && Summarised(points, done, s, width) && Describes(p, At(s, spot, width))
    ensures Summarised(points[spot := p], done + [spot], s, width)
  {
  }

  /** The points of the raw branch. */
  method SummariseAll(lists: map<Spot, seq<Sample>>, order: seq<Spot>, ghost s: set<Sample>, width: nat) returns (g: Grouped)
    requires width > 0 && ListsCover(lists, s, width) && OrderOf(order, lists.Keys)
    ensures Charts(g.points, s, width) && WellOrdered(g)
  {
    var points: map<Spot, Stats> := map[];
    for i := 0 to |order|
      invariant Summarised(points, order[..i], s, width)
    {
      assert order[..i + 1] == order[..i] + [order[i]];
      assert order[i] in order;
      ListOf(lists, s, width, order[i]);
      hide Describes, At, AsSet, Summarised, ListsCover, NoRepeats;
      var p := Summarise(lists[order[i]]);
      SummarisedMore(points, order[..i], s, width, order[i], p);
      points := points[order[i] := p];
    }
    g := Grouped(points, order);
    assert order[..|order|] == order;
    assert points.Keys == lists.Keys;
    hide Describes, At, AsSet;
  }

  // ----- The endpoint -----

  /** `Rejected` is the 422 of an empty range. */
  datatype Outcome = Rejected | Answered(width: nat, series: seq<Series>)

  /** The answer of the rollup branch, for the rows and samples that the selects list. */
  ghost predicate Spliced(q: Query, rows: seq<Row>, raw: seq<Sample>, rollupEnd: Time, series: seq<Series>)
    requires Valid(q)
  {
    && Width(q) > 0
    && var g := Splice(q, rows, raw, rollupEnd);
       WellOrdered(g) && |series| == |q.ids|
       && forall i | 0 <= i < |q.ids| :: series[i] == Series(q.ids[i], PointsOf(g.points, g.order, q.ids[i]))
  }

  /** The answer of the raw branch: the numbers of the raw samples of the range. */
  ghost predicate Direct(q: Query, raw: seq<Sample>, series: seq<Series>)
    requires Valid(q)
  {
    && Width(q) > 0 && |series| == |q.ids|
    && forall i | 0 <= i < |q.ids| ::
         series[i].id == q.ids[i] && Answers(series[i].points, q.ids[i], Between(AsSet(raw), q.start, q.end), Width(q))
  }

  lemma NothingAsked(q: Query, rows: seq<Row>, raw: seq<Sample>, rollupEnd: Time)
    requires Valid(q) && q.ids == [] && RowsSorted(rows) && SamplesSorted(raw) && rollupEnd <= q.end
    ensures Spliced(q, rows, raw, rollupEnd, []) && Direct(q, raw, [])
  {
    WidthFits(q);
    SpliceOrdered(q, rows, raw, rollupEnd);
  }

  lemma RollupEndAtMost(q: Query, now: Time, lateness: nat)
    ensures RollupEnd(q, now, lateness) <= q.end
  {
  }

  /** The shape of every raw answer. */
  lemma DirectShape(q: Query, raw: seq<Sample>, series: seq<Series>, i: nat)
    requires Valid(q) && Direct(q, raw, series) && i < |series|
    ensures WellSpaced(series[i].points, q) && forall p | p in series[i].points :: WithinBounds(p)
  {
    hide SlotInRange, Increasing, WellSpaced, IsPoint, Multiple, WithinBounds, InSlot, Between;
    var width, points, s := Width(q), series[i].points, Between(AsSet(raw), q.start, q.end);
    AnswersAreBounded(points, q.ids[i], s, width);
    SlotsInRange(q, raw, points, q.ids[i]);
    SlotsAreSpaced(q, points);
  }

  lemma SlotsInRange(q: Query, raw: seq<Sample>, points: seq<Point>, id: nat)
    requires Valid(q) && Width(q) > 0 && Answers(points, id, Between(AsSet(raw), q.start, q.end), Width(q))
    ensures forall p | p in points :: SlotInRange(p.timestamp, q.start, q.end, Width(q))
  {
    hide IsPoint, SlotInRange, Width, Multiple, Increasing;
    forall p | p in points
      ensures SlotInRange(p.timestamp, q.start, q.end, Width(q))
    {
      PointInRange(p, InSlot(Between(AsSet(raw), q.start, q.end), id, p.timestamp, Width(q)), q);
    }
  }

  lemma PointInRange(p: Point, mine: set<Sample>, q: Query)
    requires Valid(q) && Width(q) > 0 && IsPoint(p, mine) && Multiple(p.timestamp, Width(q))
    requires forall x | x in mine :: q.start <= x.timestamp < q.end && p.timestamp * SECOND <= x.timestamp < (p.timestamp + Width(q)) * SECOND
    ensures SlotInRange(p.timestamp, q.start, q.end, Width(q))
  {
    var x :| x in mine;
    SlotHolds(x.timestamp, Width(q));
    assert p.timestamp == SlotOf(x.timestamp, Width(q));
  }

  /** `rows` and `raw` are the two tables in the order of the selects: by bucket and by timestamp. */
  method QueryMetrics(q: Query, rows: seq<Row>, raw: seq<Sample>, now: Time, lateness: nat) returns (answer: Outcome)
    requires q.maxPoints > 0
    requires RowsSorted(rows) && NoRepeats(raw) && SamplesSorted(raw)
    ensures answer.Rejected? <==> q.end <= q.start
    ensures answer.Answered? ==> answer.width == if q.ids == [] then Chosen(q) else Width(q)
    ensures answer.Answered? && q.ids == [] ==> answer.series == []
    ensures answer.Answered? && UsesRollup(q) ==> Spliced(q, rows, raw, RollupEnd(q, now, lateness), answer.series)
    ensures answer.Answered? && !UsesRollup(q) ==> Direct(q, raw, answer.series)
  {
    hide RowsSorted, SamplesSorted, NoRepeats, Spliced, Direct, SelectBucketSeconds, RollupEnd, Multiple;
    if q.end <= q.start {
      return Rejected;
    }
    WidthFits(q);
    var width := SelectBucketSeconds(q.end - q.start, q.maxPoints);
    if q.ids == [] {
      RollupEndAtMost(q, now, lateness);
      NothingAsked(q, rows, raw, RollupEnd(q, now, lateness));
      return Answered(width, []);
    }
    if q.aggregation == FiveMinutes || (q.aggregation == Auto && width >= 300) {
      var series := QueryRollups(q, rows, raw, now, lateness);
      return Answered(Width(q), series);
    }
    var series := QueryRaw(q, raw);
    return Answered(width, series);
  }

  method QueryRollups(q: Query, rows: seq<Row>, raw: seq<Sample>, now: Time, lateness: nat) returns (series: seq<Series>)
    requires Valid(q) && Width(q) > 0 && RowsSorted(rows) && SamplesSorted(raw)
    ensures Spliced(q, rows, raw, RollupEnd(q, now, lateness), series)
  {
    var width := Width(q);
    var rollupEnd: Time := q.end;
    if q.aggregation == Auto {
      var safe := BucketOf(now - lateness);
      if safe < rollupEnd {
        rollupEnd := safe;
      }
    }
    SpliceOrdered(q, rows, raw, rollupEnd);
    var g := GroupRows(rows, q.ids, q.start, rollupEnd, width);
    ghost var head := RowParts(rows, q.ids, q.start, rollupEnd, width);
    assert head + [] == head;
    if q.aggregation == Auto && rollupEnd < q.end {
      var rawStart := if rollupEnd > q.start then rollupEnd else q.start;
      g := AddSamples(g, head, raw, q.ids, rawStart, q.end, width);
    }
    assert g == Splice(q, rows, raw, rollupEnd);
    hide BucketOf, RowParts, SampleParts, AbsorbAll, RowsSorted, SamplesSorted;
    series := Respond(g, q.ids);
  }

  method QueryRaw(q: Query, raw: seq<Sample>) returns (series: seq<Series>)
    requires Valid(q) && Width(q) > 0 && NoRepeats(raw) && SamplesSorted(raw)
    ensures Direct(q, raw, series)
  {
    hide Charts, Answers, Range, ListsCover, OrderOf, PointsOf, AsSet, NoRepeats, SamplesSorted, Width;
    var width := Width(q);
    var lists, order := GroupRaw(raw, q.ids, q.start, q.end, width);
    ghost var selected := Range(AsSet(raw), q.ids, q.start, q.end);
    var g := SummariseAll(lists, order, selected, width);
    OrderInPoints(g);
    series := Respond(g, q.ids);
    forall i | 0 <= i < |q.ids|
      ensures Answers(series[i].points, q.ids[i], Between(AsSet(raw), q.start, q.end), width)
    {
      DictionaryAnswers(g, q.ids[i], selected, width);
      RangeOfSeries(raw, q, q.ids[i]);
      AnswersOfSeries(series[i].points, q.ids[i], selected, Between(AsSet(raw), q.start, q.end), width);
    }
  }

  lemma RangeOfSeries(raw: seq<Sample>, q: Query, id: nat)
    requires id in q.ids
    ensures forall x: Sample | x.series == id ::
              x in Range(AsSet(raw), q.ids, q.start, q.end) <==> x in Between(AsSet(raw), q.start, q.end)
  {
  }

  lemma OrderInPoints(g: Grouped)
    requires WellOrdered(g)
    ensures forall spot | spot in g.order :: spot in g.points
  {
  }

  // ----- What a spliced answer stands for -----

  function Tail(q: Query, s: set<Sample>, rollupEnd: Time): set<Sample> {
    if q.aggregation == Auto && rollupEnd < q.end then Range(s, q.ids, TailStart(q, rollupEnd), q.end) else {}
  }

  /**
   * Whatever history the selected rows summarise: the splice is the direct grouping of the samples
   * behind the rows and the samples of the tail, each in exactly one slot.
   */
  lemma SpliceCharts(history: set<Sample>, q: Query, rows: seq<Row>, raw: seq<Sample>, rollupEnd: Time)
    requires Valid(q) && UsesRollup(q) && Width(q) > 0
    requires UniqueKeys(rows) && NoRepeats(raw) && RowsExact(history, rows, q.ids, q.start, rollupEnd)
    requires rollupEnd < q.end ==> rollupEnd % BUCKET == 0
    ensures Charts(Splice(q, rows, raw, rollupEnd).points,
                   Behind(history, rows, q.ids, q.start, rollupEnd) + Tail(q, AsSet(raw), rollupEnd), Width(q))
  {
    var width := Width(q);
    var behind := Behind(history, rows, q.ids, q.start, rollupEnd);
    var head := RowParts(rows, q.ids, q.start, rollupEnd, width);
    WidthFits(q);
    RowsChart(history, rows, q.ids, q.start, rollupEnd, width);
    if q.aggregation == Auto && rollupEnd < q.end {
      TailApart(history, q, rows, AsSet(raw), rollupEnd);
      hide Charts, Behind, Range, AbsorbAll, Width, TailStart;
      SamplesChart(head, behind, raw, q.ids, TailStart(q, rollupEnd), q.end, width);
    } else {
      assert head + [] == head && behind + {} == behind;
    }
  }

  lemma TailApart(history: set<Sample>, q: Query, rows: seq<Row>, raw: set<Sample>, rollupEnd: Time)
    requires rollupEnd % BUCKET == 0
    ensures Behind(history, rows, q.ids, q.start, rollupEnd) !! Range(raw, q.ids, TailStart(q, rollupEnd), q.end)
  {
  }

  // ----- End to end -----

  /** The tables as the two selects list them. */
  ghost predicate Lists(rows: seq<Row>, raw: seq<Sample>, db: Db) {
    && UniqueKeys(rows) && RowsSorted(rows)
    && (forall r | r in rows :: RowKey(r) in db.rollups && db.rollups[RowKey(r)] == r.rollup)
    && (forall k | k in db.rollups :: k in Keys(rows))
    && NoRepeats(raw) && SamplesSorted(raw) && AsSet(raw) == db.raw
  }

  /** A partial first bucket is dropped and a partial last one is taken whole, where rollups serve it. */
  function From(q: Query, rollupEnd: Time): Time {
    if q.start <= rollupEnd then CeilBucket(q.start) else q.start
  }

  function Until(q: Query, rollupEnd: Time): Time {
    if rollupEnd < q.end then q.end else CeilBucket(q.end)
  }

  /** The rollup rows of the range are all behind the lateness of the last pass. */
  predicate Current(cfg: Config, rolled: Option<Time>, q: Query, now: Time) {
    var rollupEnd := RollupEnd(q, now, Lateness(cfg));
    CeilBucket(q.start) >= rollupEnd || (rolled.Some? && rollupEnd <= rolled.value - Lateness(cfg))
  }

  /** The samples of the history that the range asks for, less those whose rollup row has expired. */
  function Visible(cfg: Config, db: Db, q: Query, now: Time): set<Sample> {
    var rollupEnd := RollupEnd(q, now, Lateness(cfg));
    set x | x in OnTime(db) && SampleSelected(x, q.ids, From(q, rollupEnd), Until(q, rollupEnd))
            && (BucketOf(x.timestamp) < rollupEnd ==> KeyOf(x) in db.rollups)
  }

  lemma RollupEndBounds(cfg: Config, db: Db, q: Query, now: Time)
    requires Aligned(cfg) && Inv(cfg, db) && db.clock <= now
    ensures var rollupEnd := RollupEnd(q, now, Lateness(cfg));
            && rollupEnd <= q.end
            && (rollupEnd < q.end ==> rollupEnd % BUCKET == 0)
            && (rollupEnd < q.end && db.rolled.Some? ==> rollupEnd >= db.rolled.value - Lateness(cfg))
            && (q.aggregation == Auto && db.rolled.Some? && BucketOf(now) <= db.rolled.value ==> Current(cfg, db.rolled, q, now))
  {
    LatenessAligned(cfg);
    BucketMonotone(db.clock, now);
    ShiftAligned(now, Lateness(cfg));
  }

  lemma ShiftAligned(t: Time, d: nat)
    requires d % BUCKET == 0
    ensures BucketOf(t - d) == BucketOf(t) - d
  {
  }

  /** In the tail the raw table holds every sample that came on time and no other. */
  lemma TailIsHistory(cfg: Config, db: Db, q: Query, rollupEnd: Time)
    requires Aligned(cfg) && Inv(cfg, db)
    requires rollupEnd < q.end && db.rolled.Some? ==> rollupEnd >= db.rolled.value - Lateness(cfg)
    ensures Tail(q, db.raw, rollupEnd) == Tail(q, OnTime(db), rollupEnd)
  {
    if db.rolled.Some? {
      SafeIs(cfg, db.rolled.value);
    }
    hide Safe, ExactBelow, Group;
  }

  lemma RowsAreExact(cfg: Config, db: Db, q: Query, rows: seq<Row>, raw: seq<Sample>, now: Time)
    requires Inv(cfg, db) && Lists(rows, raw, db) && Current(cfg, db.rolled, q, now)
    ensures RowsExact(OnTime(db), rows, q.ids, q.start, RollupEnd(q, now, Lateness(cfg)))
  {
    var rollupEnd := RollupEnd(q, now, Lateness(cfg));
    forall r | r in rows && RowSelected(r, q.ids, q.start, rollupEnd)
      ensures Describes(r.rollup.stats, Group(OnTime(db), RowKey(r)))
    {
      var k := RowKey(r);
      assert k in db.rollups;
      assert Group(OnTime(db), k) != {};
      GroupAligned(OnTime(db), k);
      CeilBelow(q.start, k.bucket);
      assert IsRollup(db.rollups[k], Group(OnTime(db), k));
    }
  }

  lemma CeilBelow(t: Time, bucket: Time)
    requires bucket % BUCKET == 0
    ensures t <= bucket <==> CeilBucket(t) <= bucket
  {
  }

  lemma ShownIsVisible(cfg: Config, db: Db, q: Query, rows: seq<Row>, raw: seq<Sample>, now: Time)
    requires Aligned(cfg) && Inv(cfg, db) && db.clock <= now && Valid(q) && UsesRollup(q) && Lists(rows, raw, db)
    ensures var rollupEnd := RollupEnd(q, now, Lateness(cfg));
            Behind(OnTime(db), rows, q.ids, q.start, rollupEnd) + Tail(q, OnTime(db), rollupEnd) == Visible(cfg, db, q, now)
  {
    var rollupEnd := RollupEnd(q, now, Lateness(cfg));
    RollupEndBounds(cfg, db, q, now);
    forall k
      ensures k in Keys(rows) <==> k in db.rollups
    {
    }
    hide Keys, OnTime, Lists, Inv, RollupEnd;
    forall x: Sample
      ensures x in Behind(OnTime(db), rows, q.ids, q.start, rollupEnd) + Tail(q, OnTime(db), rollupEnd) <==> x in Visible(cfg, db, q, now)
    {
      Splits(q, rollupEnd, x.timestamp);
      hide BucketOf, From, Until, TailStart;
    }
  }

  /** Where the two halves of the splice meet, and what they leave out at the ends. */
  lemma Splits(q: Query, rollupEnd: Time, t: Time)
    requires Valid(q) && rollupEnd <= q.end && (rollupEnd < q.end ==> rollupEnd % BUCKET == 0)
    ensures var byRows, byTail := q.start <= BucketOf(t) < rollupEnd, rollupEnd < q.end && TailStart(q, rollupEnd) <= t < q.end;
            && (From(q, rollupEnd) <= t < Until(q, rollupEnd) <==> byRows || byTail)
            && (byTail ==> BucketOf(t) >= rollupEnd)
  {
    CeilBelow(q.start, BucketOf(t));
    CeilAbove(q.start, t);
    CeilAbove(q.end, t);
    hide CeilBucket;
    if rollupEnd < q.end {
      assert BucketOf(t) < rollupEnd <==> t < rollupEnd;
    }
  }

  lemma CeilAbove(t: Time, u: Time)
    ensures CeilBucket(t) >= t
    ensures CeilBucket(t) <= u <==> t <= BucketOf(u)
    ensures CeilBucket(t) % BUCKET == 0
  {
  }

  /**
   * The splice over any run: as long as every rollup row of the range is behind the lateness of the
   * last pass, an answer of the rollup branch, `auto` or `5m`, is the direct grouping of the whole history
   * that came on time, whatever raw partitions have been dropped, with no sample counted twice.
   */
  lemma RollupsAreExact(cfg: Config, run: seq<Db>, i: nat, q: Query, rows: seq<Row>, raw: seq<Sample>, now: Time, id: nat)
    requires Aligned(cfg) && Behaviour(cfg, run) && i < |run| && run[i].clock <= now
    requires Valid(q) && UsesRollup(q) && Lists(rows, raw, run[i])
    requires Current(cfg, run[i].rolled, q, now)
    ensures Width(q) > 0
    ensures var g := Splice(q, rows, raw, RollupEnd(q, now, Lateness(cfg)));
            WellOrdered(g) && Answers(PointsOf(g.points, g.order, id), id, Visible(cfg, run[i], q, now), Width(q))
  {
    var db, rollupEnd := run[i], RollupEnd(q, now, Lateness(cfg));
    BehaviourKeeps(cfg, run, i);
    hide Behaviour;
    WidthFits(q);
    RollupEndBounds(cfg, db, q, now);
    RowsAreExact(cfg, db, q, rows, raw, now);
    ShownIsVisible(cfg, db, q, rows, raw, now);
    TailIsHistory(cfg, db, q, rollupEnd);
    hide Inv, RollupEnd, Behind, Tail, Visible, RowsExact, Splice, Charts, WellOrdered, Answers, OnTime, Width, Current, PointsOf;
    SpliceCharts(OnTime(db), q, rows, raw, rollupEnd);
    SpliceOrdered(q, rows, raw, rollupEnd);
    DictionaryAnswers(Splice(q, rows, raw, rollupEnd), id, Visible(cfg, db, q, now), Width(q));
  }

  /** With aligned ends and a start inside the rollup retention nothing of the range is missing. */
  lemma VisibleIsRange(cfg: Config, db: Db, q: Query, now: Time)
    requires Aligned(cfg) && Inv(cfg, db) && db.clock <= now && Valid(q) && UsesRollup(q)
    requires q.start % BUCKET == 0 && q.end % BUCKET == 0 && DayOf(q.start) + DAY > db.clock - cfg.rollupDays * DAY
    requires Current(cfg, db.rolled, q, now)
    ensures Visible(cfg, db, q, now) == set x | x in db.history && x !in db.late && x.series in q.ids && q.start <= x.timestamp < q.end
  {
    var rollupEnd := RollupEnd(q, now, Lateness(cfg));
    RollupEndBounds(cfg, db, q, now);
    CeilAligned(q.start);
    CeilAligned(q.end);
    forall x | x in OnTime(db) && q.start <= x.timestamp && BucketOf(x.timestamp) < rollupEnd
      ensures KeyOf(x) in db.rollups
    {
      RowPresent(cfg, db, q, now, x);
    }
    hide OnTime, BucketOf, CeilBucket, Inv, Current, RollupExpires, RollupEnd;
  }

  lemma CeilAligned(t: Time)
    requires t % BUCKET == 0
    ensures CeilBucket(t) == t
  {
  }

  lemma RowPresent(cfg: Config, db: Db, q: Query, now: Time, x: Sample)
    requires Inv(cfg, db) && q.start % BUCKET == 0 && !RollupExpires(cfg, q.start, db.clock)
    requires Current(cfg, db.rolled, q, now)
    requires x in OnTime(db) && q.start <= x.timestamp && BucketOf(x.timestamp) < RollupEnd(q, now, Lateness(cfg))
    ensures KeyOf(x) in db.rollups
  {
    var k := KeyOf(x);
    assert x in Group(OnTime(db), k);
    AlignedBelow(q.start, x.timestamp);
    CeilAligned(q.start);
    hide RollupExpires, BucketOf, OnTime, Group, RollupEnd, CeilBucket;
    RetainedAfter(cfg, q.start, k.bucket, db.clock);
  }

  lemma RetainedAfter(cfg: Config, a: Time, b: Time, now: Time)
    requires a <= b && !RollupExpires(cfg, a, now)
    ensures !RollupExpires(cfg, b, now)
  {
  }

  // ----- The shape of every spliced answer -----

  /** Rows of different keys stand for disjoint samples; together these are a history that the rows summarise. */
  lemma {:induction false} HistoryOfRows(rows: seq<Row>) returns (history: set<Sample>)
    requires UniqueKeys(rows) && forall r | r in rows :: Stands(r.rollup, RowKey(r))
    ensures forall r | r in rows :: Describes(r.rollup.stats, Group(history, RowKey(r)))
    ensures forall x | x in history :: KeyOf(x) in Keys(rows)
  {
    hide Describes, Group;
    if rows == [] {
      history := {};
    } else {
      var n := |rows| - 1;
      var r := rows[n];
      assert rows == rows[..n] + [r];
      var before := HistoryOfRows(rows[..n]);
      assert r in rows;
      var s :| IsRollup(r.rollup, s) && s == Group(s, RowKey(r));
      history := before + s;
      assert Keys(rows) == Keys(rows[..n]) + {RowKey(r)};
      LastKeyIsNew(rows);
      JoinGroups(before, s, RowKey(r));
      hide IsRollup;
      forall o | o in rows
        ensures Describes(o.rollup.stats, Group(history, RowKey(o)))
      {
      }
    }
  }

  lemma LastKeyIsNew(rows: seq<Row>)
    requires UniqueKeys(rows) && rows != []
    ensures RowKey(rows[|rows| - 1]) !in Keys(rows[..|rows| - 1])
  {
  }

  lemma JoinGroups(a: set<Sample>, b: set<Sample>, k: Key)
    requires b == Group(b, k) && forall x | x in a :: KeyOf(x) != k
    ensures Group(a + b, k) == b
    ensures forall o | o != k :: Group(a + b, o) == Group(a, o)
    ensures forall x | x in a + b :: x in a || KeyOf(x) == k
  {
  }

  /**
   * The shape of every answer of the rollup branch, for `5m` as for `auto`, in every state that any run
   * reaches, with any configuration and however far maintenance lags.
   */
  lemma SplicedShape(cfg: Config, run: seq<Db>, i: nat, q: Query, rows: seq<Row>, raw: seq<Sample>, now: Time, lateness: nat, id: nat)
    requires Behaviour(cfg, run) && i < |run| && Lists(rows, raw, run[i]) && Valid(q) && UsesRollup(q)
    ensures Width(q) > 0
    ensures var g := Splice(q, rows, raw, RollupEnd(q, now, lateness));
            && WellOrdered(g)
            && var points := PointsOf(g.points, g.order, id);
               WellSpaced(points, q) && forall p | p in points :: WithinBounds(p)
  {
    var rollupEnd := RollupEnd(q, now, lateness);
    WidthFits(q);
    RowsStand(cfg, run, i);
    hide Behaviour, Stands, Splice, WellSpaced, PointsOf, WithinBounds, Charts, WellOrdered, Answers;
    var history := HistoryOfRows(rows);
    assert RowsExact(history, rows, q.ids, q.start, rollupEnd);
    SpliceCharts(history, q, rows, raw, rollupEnd);
    SplicedCount(q, rows, raw, rollupEnd, id);
    var g := Splice(q, rows, raw, rollupEnd);
    var shown := Behind(history, rows, q.ids, q.start, rollupEnd) + Tail(q, AsSet(raw), rollupEnd);
    DictionaryAnswers(g, id, shown, Width(q));
    AnswersAreBounded(PointsOf(g.points, g.order, id), id, shown, Width(q));
  }

  /**
   * A `5m` answer takes every row of [start, end), whatever the rows hold: it is the direct grouping of the
   * samples that these rows stand for.
   */
  lemma FiveMinutesTakesAll(cfg: Config, run: seq<Db>, i: nat, q: Query, rows: seq<Row>, raw: seq<Sample>, now: Time, lateness: nat, id: nat)
    returns (history: set<Sample>)
    requires Behaviour(cfg, run) && i < |run| && Lists(rows, raw, run[i]) && Valid(q) && q.aggregation == FiveMinutes
    ensures forall k | k in run[i].rollups :: Describes(run[i].rollups[k].stats, Group(history, k))
    ensures forall x | x in history :: KeyOf(x) in run[i].rollups
    ensures Width(q) > 0
    ensures var g := Splice(q, rows, raw, RollupEnd(q, now, lateness));
            && WellOrdered(g)
            && Answers(PointsOf(g.points, g.order, id), id,
                       (set x | x in history && x.series in q.ids && q.start <= BucketOf(x.timestamp) < q.end), Width(q))
  {
    WidthFits(q);
    RowsStand(cfg, run, i);
    hide Behaviour, Stands, Splice, PointsOf, Charts, WellOrdered, Answers, Describes, Group, RowsSorted, SamplesSorted;
    history := HistoryOfRows(rows);
    assert RowsExact(history, rows, q.ids, q.start, q.end);
    SpliceCharts(history, q, rows, raw, q.end);
    SplicedCount(q, rows, raw, q.end, id);
    ListedRows(rows, raw, run[i], history);
    hide BucketOf, SlotInRange, WellSpaced;
    var shown := Behind(history, rows, q.ids, q.start, q.end);
    assert shown + Tail(q, AsSet(raw), q.end) == shown;
    AllBehind(history, rows, q);
    hide Behind;
    DictionaryAnswers(Splice(q, rows, raw, q.end), id, shown, Width(q));
  }

  lemma AllBehind(history: set<Sample>, rows: seq<Row>, q: Query)
    requires forall x | x in history :: KeyOf(x) in Keys(rows)
    ensures Behind(history, rows, q.ids, q.start, q.end)
         == set x | x in history && x.series in q.ids && q.start <= BucketOf(x.timestamp) < q.end
  {
  }

  lemma ListedRows(rows: seq<Row>, raw: seq<Sample>, db: Db, history: set<Sample>)
    requires Lists(rows, raw, db) && forall r | r in rows :: Describes(r.rollup.stats, Group(history, RowKey(r)))
    ensures forall k | k in db.rollups :: Describes(db.rollups[k].stats, Group(history, k))
    ensures forall k :: k in Keys(rows) <==> k in db.rollups
  {
    hide Describes, Group, UniqueKeys, RowsSorted, SamplesSorted, NoRepeats;
  }

  // ----- Maintenance that lags behind -----

  /** An on-time sample in a bucket that the splice takes from rollups, but no pass has yet rolled up. */
  function Unrolled(cfg: Config, clock: Option<nat>, q: Query): Sample
    requires q.ids != []
  {
    var at := match clock
              case None => CeilBucket(q.start)
              case Some(c) => if CeilBucket(q.start) < BucketOf(c) - Lateness(cfg) then BucketOf(c) - Lateness(cfg) else CeilBucket(q.start);
    Sample(q.ids[0], "unrolled", if at < 0 then 0 else at, 1.0)
  }

  function LagRun(cfg: Config, clock: Option<nat>, q: Query): seq<Db>
    requires q.ids != []
  {
    var x := Unrolled(cfg, clock, q);
    match clock
    case None => [EMPTY, EMPTY.(raw := {x}, history := {x})]
    case Some(c) =>
      var db := Db({}, map[], Some(BucketOf(c)), {}, {}, c);
      [EMPTY, db, db.(raw := {x}, history := {x})]
  }

  /**
   * The condition is exact: whenever some bucket of the range is rolled up no further than the
   * lateness of the last pass, there is a run that ends with just that pass and a sample that came on
   * time, and that the answer leaves out.
   */
  lemma LagLosesSamples(cfg: Config, clock: Option<nat>, q: Query, now: Time)
    requires Aligned(cfg) && Valid(q) && UsesRollup(q) && q.ids != []
    requires clock.Some? ==> clock.value <= now
    requires !Current(cfg, if clock.Some? then Some(BucketOf(clock.value)) else None, q, now)
    ensures var run := LagRun(cfg, clock, q);
            var db, x := run[|run| - 1], Unrolled(cfg, clock, q);
            && Behaviour(cfg, run) && Lists([], [x], db)
            && db.clock == (if clock.Some? then clock.value else 0)
            && db.rolled == (if clock.Some? then Some(BucketOf(clock.value)) else None)
            && x in OnTime(db) && q.start <= BucketOf(x.timestamp) == x.timestamp < q.end && x.series == q.ids[0]
            && Splice(q, [], [x], RollupEnd(q, now, Lateness(cfg))) == EMPTY_GROUP
  {
    var x, rollupEnd := Unrolled(cfg, clock, q), RollupEnd(q, now, Lateness(cfg));
    UnrolledPlace(cfg, clock, q, now);
    WidthFits(q);
    if rollupEnd < q.end {
      SkippedSample(x, q.ids, TailStart(q, rollupEnd), q.end, Width(q));
    }
    assert TailParts(q, [x], rollupEnd) == [];
    hide BucketOf, Unrolled, Behaviour, Current, RollupEnd, Lateness;
    LagIsRun(cfg, clock, q);
  }

  lemma SkippedSample(x: Sample, ids: seq<nat>, start: Time, end: Time, width: nat)
    requires width > 0 && !SampleSelected(x, ids, start, end)
    ensures SampleParts([x], ids, start, end, width) == []
  {
  }

  lemma UnrolledPlace(cfg: Config, clock: Option<nat>, q: Query, now: Time)
    requires Aligned(cfg) && Valid(q) && UsesRollup(q) && q.ids != []
    requires clock.Some? ==> clock.value <= now
    requires !Current(cfg, if clock.Some? then Some(BucketOf(clock.value)) else None, q, now)
    ensures var t := Unrolled(cfg, clock, q).timestamp;
            && BucketOf(t) == t && q.start <= t < RollupEnd(q, now, Lateness(cfg)) <= q.end
            && (clock.Some? ==> t >= BucketOf(clock.value) - Lateness(cfg))
  {
    hide BucketOf, CeilBucket, Lateness, RollupEnd;
    CeilAbove(q.start, q.start);
    LatenessAligned(cfg);
    RollupEndAtMost(q, now, Lateness(cfg));
    if clock.Some? {
      DifferenceAligned(BucketOf(clock.value), Lateness(cfg));
    }
    AlignedIsOwn(Unrolled(cfg, clock, q).timestamp);
  }

  lemma DifferenceAligned(a: Time, b: Time)
    requires a % BUCKET == 0 && b % BUCKET == 0
    ensures (a - b) % BUCKET == 0
  {
  }

  lemma AlignedIsOwn(t: Time)
    requires t % BUCKET == 0
    ensures BucketOf(t) == t
  {
  }

  lemma LagIsRun(cfg: Config, clock: Option<nat>, q: Query)
    requires q.ids != []
    requires clock.Some? ==> Unrolled(cfg, clock, q).timestamp >= BucketOf(clock.value) - Lateness(cfg)
    ensures Behaviour(cfg, LagRun(cfg, clock, q))
  {
    var run, x := LagRun(cfg, clock, q), Unrolled(cfg, clock, q);
    assert {} + {x} == {x};
    hide Unrolled, BucketOf, Lateness;
    assert Arrive(cfg, run[|run| - 2], run[|run| - 1], x);
    if clock.Some? {
      EmptyPass(cfg, run[1], clock.value);
      assert Next(cfg, run[0], run[1]);
    }
  }

  lemma EmptyPass(cfg: Config, db: Db, now: nat)
    requires db == Db({}, map[], Some(BucketOf(now)), {}, {}, now)
    ensures Pass(cfg, EMPTY, db, now, None)
  {
    var end := BucketOf(now);
    assert BucketOf(end) == end;
    assert IsOldest({}, None, end, end);
    assert StartsAt(cfg, EMPTY, None, end, end);
    assert Upserted(map[], map[], Between({}, end, end));
    assert Retained(cfg, map[], map[], now);
  }
}

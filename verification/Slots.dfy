/**
 * Slots of `query_metrics` (server/temporalrca_server/api.py): the choice of a slot width, the slot of
 * a timestamp, and the dictionary in which rows of one slot are merged.
 */
module Slots {
  import opened Aggregates

  // ----- Slot widths -----

  const BUCKETS: seq<nat> :=
    [1, 2, 5, 10, 15, 30, 60, 120, 300, 600, 900, 1800, 3600, 7200, 21600, 43200, 86400]

  const WIDEST: nat := 86400

  function FirstAtLeast(sizes: seq<nat>, needed: nat): nat {
    if sizes == [] then WIDEST
    else if sizes[0] >= needed then sizes[0]
    else FirstAtLeast(sizes[1..], needed)
  }

  predicate Ascends(sizes: seq<nat>) {
    sizes != [] && sizes[|sizes| - 1] == WIDEST && forall i, j | 0 <= i < j < |sizes| :: sizes[i] < sizes[j]
  }

  lemma {:induction false} FirstIsLeast(sizes: seq<nat>, needed: nat)
    requires Ascends(sizes)
    ensures var size := FirstAtLeast(sizes, needed);
            && size in sizes
            && (size >= needed || size == WIDEST)
            && (forall s | s in sizes && s < size :: s < needed)
  {
    assert forall s | s in sizes :: s == sizes[0] || s in sizes[1..];
    if sizes[0] < needed && |sizes| > 1 {
      assert Ascends(sizes[1..]);
      FirstIsLeast(sizes[1..], needed);
    }
  }

  /** ceil(span / max_points) in seconds, at least one. */
  function Needed(span: nat, maxPoints: nat): nat
    requires maxPoints > 0
  {
    var unit := SECOND * maxPoints;
    var ceiling := (span + unit - 1) / unit;
    if ceiling < 1 then 1 else ceiling
  }

  function SelectBucketSeconds(span: nat, maxPoints: nat): nat
    requires maxPoints > 0
  {
    FirstAtLeast(BUCKETS, Needed(span, maxPoints))
  }

  lemma Ceiling(span: nat, maxPoints: nat, size: nat)
    requires maxPoints > 0 && size > 0
    ensures size >= Needed(span, maxPoints) <==> span <= size * (SECOND * maxPoints)
  {
    var unit := SECOND * maxPoints;
    var c := (span + unit - 1) / unit;
    assert unit * c <= span + unit - 1 < unit * c + unit;
    if size >= c {
      assert unit * size >= unit * c;
    } else {
      assert unit * (size + 1) <= unit * c;
    }
  }

  /**
   * The chosen width is the least of the list whose `maxPoints` slots span the range, or a day when
   * even a day is too small; and a width that rollups can serve is a whole number of their buckets.
   */
  lemma WidthIsLeast(span: nat, maxPoints: nat)
    requires maxPoints > 0
    ensures var size := SelectBucketSeconds(span, maxPoints);
            && size in BUCKETS && size > 0
            && (size >= 300 ==> size % 300 == 0)
            && (span <= size * (SECOND * maxPoints) || size == WIDEST)
            && (forall s | s in BUCKETS && s < size :: span > s * (SECOND * maxPoints))
  {
    var needed := Needed(span, maxPoints);
    var size := FirstAtLeast(BUCKETS, needed);
    BucketsAscend();
    FirstIsLeast(BUCKETS, needed);
    BucketsDivide(size);
    hide Needed, Ascends, FirstAtLeast;
    Ceiling(span, maxPoints, size);
    Ceiling(span, maxPoints, WIDEST);
    forall s | s in BUCKETS && s < size
      ensures span > s * (SECOND * maxPoints)
    {
      BucketsDivide(s);
      Ceiling(span, maxPoints, s);
    }
  }

  lemma BucketsAscend()
    ensures Ascends(BUCKETS)
  {
  }

  lemma BucketsDivide(size: nat)
    requires size in BUCKETS
    ensures size > 0 && (size >= 300 ==> size % 300 == 0)
  {
  }

  // ----- Slots -----

  /** A key of the `grouped` dictionary; the slot is in seconds. */
  datatype Spot = Spot(series: nat, slot: nat)

  function Floor(n: nat, d: nat): nat
    requires d > 0
  {
    n / d * d
  }

  function SlotOf(t: nat, width: nat): nat
    requires width > 0
  {
    Floor(t / SECOND, width)
  }

  function SpotOf(x: Sample, width: nat): Spot
    requires width > 0
  {
    Spot(x.series, SlotOf(x.timestamp, width))
  }

  function At(s: set<Sample>, spot: Spot, width: nat): set<Sample>
    requires width > 0
  {
    set x | x in s && SpotOf(x, width) == spot
  }

  /** The points are the direct aggregation of s, one for each slot that s reaches. */
  ghost predicate Charts(points: map<Spot, Stats>, s: set<Sample>, width: nat)
    requires width > 0
  {
    && (forall spot :: spot in points <==> At(s, spot, width) != {})
    && (forall spot | spot in points :: Describes(points[spot], At(s, spot, width)))
  }

  lemma Scale(a: nat, b: nat, d: nat)
    requires d > 0
    ensures a < b ==> a * d + d <= b * d
  {
    if a < b {
      Distribute(a, b - a - 1, d);
    }
  }

  lemma Distribute(a: nat, k: nat, d: nat)
    ensures (a + k + 1) * d == a * d + k * d + d
    ensures k * d >= 0
  {
  }

  lemma DivBounds(n: nat, d: nat)
    requires d > 0
    ensures n / d * d <= n < n / d * d + d
  {
  }

  lemma DivIsUnique(n: nat, d: nat, q: nat)
    requires d > 0 && q * d <= n < q * d + d
    ensures n / d == q
  {
    DivBounds(n, d);
    Scale(q, n / d, d);
    Scale(n / d, q, d);
  }

  ghost predicate Multiple(n: nat, d: nat) {
    exists q: nat :: n == q * d
  }

  lemma FloorBounds(n: nat, d: nat)
    requires d > 0
    ensures Floor(n, d) <= n < Floor(n, d) + d
    ensures Multiple(Floor(n, d), d)
  {
  }

  /** The floor is the only multiple in reach. */
  lemma FloorIsUnique(n: nat, d: nat, m: nat)
    requires d > 0 && Multiple(m, d) && m <= n < m + d
    ensures Floor(n, d) == m
  {
    var q: nat :| m == q * d;
    DivIsUnique(n, d, q);
  }

  lemma FloorMonotone(a: nat, b: nat, d: nat)
    requires d > 0 && a <= b
    ensures Floor(a, d) <= Floor(b, d)
  {
    DivBounds(a, d);
    DivBounds(b, d);
    Scale(b / d, a / d, d);
  }

  /** The greatest multiple below n is also the greatest below any coarser floor of n. */
  lemma FloorOfFloor(n: nat, d: nat, e: nat)
    requires d > 0 && e > 0 && Multiple(d, e)
    ensures Floor(Floor(n, e), d) == Floor(n, d)
  {
    FloorBounds(n, d);
    FloorBounds(n, e);
    MultipleOfMultiple(Floor(n, d), d, e);
    MultipleBelow(Floor(n, d), n, e);
    hide Floor, Multiple;
    FloorIsUnique(Floor(n, e), d, Floor(n, d));
  }

  lemma MultipleOfMultiple(a: nat, b: nat, c: nat)
    requires Multiple(a, b) && Multiple(b, c)
    ensures Multiple(a, c)
  {
    var p: nat, q: nat :| a == p * b && b == q * c;
    assert a == (p * q) * c;
  }

  lemma MultipleBelow(m: nat, n: nat, d: nat)
    requires d > 0 && Multiple(m, d) && m <= n
    ensures m <= Floor(n, d)
  {
    var q: nat :| m == q * d;
    DivBounds(n, d);
    Scale(n / d, q, d);
  }

  lemma SlotMonotone(a: nat, b: nat, width: nat)
    requires width > 0 && a <= b
    ensures SlotOf(a, width) <= SlotOf(b, width)
  {
    assert a / SECOND <= b / SECOND;
    FloorMonotone(a / SECOND, b / SECOND, width);
  }

  /**
   * A rollup row can stand for its samples because a slot of a multiple of five minutes never splits
   * a five-minute bucket.
   */
  lemma SlotOfBucket(t: nat, width: nat)
    requires width > 0 && Multiple(width, 300)
    ensures BucketOf(t) >= 0 && SlotOf(BucketOf(t), width) == SlotOf(t, width)
  {
    BucketInSeconds(t);
    hide Floor, Multiple;
    FloorOfFloor(t / SECOND, width, 300);
  }

  lemma BucketInSeconds(t: nat)
    ensures BucketOf(t) >= 0 && BucketOf(t) / SECOND == Floor(t / SECOND, 300)
  {
    var q := t / BUCKET;
    assert BucketOf(t) == BUCKET * q == SECOND * (300 * q);
    assert t / SECOND / 300 == q;
  }

  // ----- The dictionary -----

  /** What one row adds: a rollup row its summary, a raw sample a summary of itself. */
  datatype Part = Part(spot: Spot, stats: Stats)

  /** A dictionary that remembers the order of first insertion. */
  datatype Grouped = Grouped(points: map<Spot, Stats>, order: seq<Spot>)

  const EMPTY_GROUP := Grouped(map[], [])

  function Absorb(g: Grouped, part: Part): Grouped {
    if part.spot in g.points then
      g.(points := g.points[part.spot := Merge(g.points[part.spot], part.stats)])
    else
      Grouped(g.points[part.spot := part.stats], g.order + [part.spot])
  }

  function AbsorbAll(parts: seq<Part>): Grouped {
    if parts == [] then EMPTY_GROUP else Absorb(AbsorbAll(parts[..|parts| - 1]), parts[|parts| - 1])
  }

  lemma AbsorbOne(parts: seq<Part>, part: Part)
    ensures AbsorbAll(parts + [part]) == Absorb(AbsorbAll(parts), part)
  {
  }

  /** A row that summarises c, all of it in one slot, extends what is charted by c. */
  lemma ChartsMore(parts: seq<Part>, part: Part, s: set<Sample>, c: set<Sample>, width: nat)
    requires width > 0 && Charts(AbsorbAll(parts).points, s, width)
    requires c !! s && Describes(part.stats, c) && forall x | x in c :: SpotOf(x, width) == part.spot
    ensures Charts(AbsorbAll(parts + [part]).points, s + c, width)
  {
    AbsorbOne(parts, part);
    hide Charts, Describes, AbsorbAll, SpotOf;
    AbsorbCharts(AbsorbAll(parts), part, s, c, width);
  }

  lemma AbsorbCharts(g: Grouped, part: Part, s: set<Sample>, c: set<Sample>, width: nat)
    requires width > 0 && Charts(g.points, s, width)
    requires c !! s && Describes(part.stats, c) && forall x | x in c :: SpotOf(x, width) == part.spot
    ensures Charts(Absorb(g, part).points, s + c, width)
  {
    hide Describes, SpotOf, Merge;
    var after := Absorb(g, part).points;
    assert At(s, part.spot, width) !! c;
    hide At;
    forall spot
      ensures spot in after <==> At(s + c, spot, width) != {}
      ensures spot in after ==> Describes(after[spot], At(s + c, spot, width))
    {
      AtUnion(s, c, spot, part.spot, width);
      if spot == part.spot {
        AbsorbHere(g, part, At(s, spot, width), c);
      } else {
        assert At(s, spot, width) + {} == At(s, spot, width);
      }
    }
  }

  lemma AbsorbHere(g: Grouped, part: Part, mine: set<Sample>, c: set<Sample>)
    requires part.spot in g.points <==> mine != {}
    requires part.spot in g.points ==> Describes(g.points[part.spot], mine)
    requires c !! mine && Describes(part.stats, c)
    ensures mine + c != {} && Describes(Absorb(g, part).points[part.spot], mine + c)
  {
    if part.spot in g.points {
      MergeDescribes(g.points[part.spot], part.stats, mine, c);
    } else {
      assert mine + c == c;
    }
    hide SumOf, Merge;
  }

  lemma AtUnion(s: set<Sample>, c: set<Sample>, spot: Spot, own: Spot, width: nat)
    requires width > 0 && forall x | x in c :: SpotOf(x, width) == own
    ensures At(s + c, spot, width) == At(s, spot, width) + if spot == own then c else {}
  {
  }

  // ----- Order -----

  predicate Nondecreasing(parts: seq<Part>) {
    forall i, j | 0 <= i < j < |parts| :: parts[i].spot.slot <= parts[j].spot.slot
  }

  /** The keys in order of first insertion: each once, and slots never go back. */
  ghost predicate OrderOf(order: seq<Spot>, keys: set<Spot>) {
    && (forall spot :: spot in order <==> spot in keys)
    && (forall i, j | 0 <= i < j < |order| :: order[i] != order[j] && order[i].slot <= order[j].slot)
  }

  ghost predicate WellOrdered(g: Grouped) {
    OrderOf(g.order, g.points.Keys)
  }

  lemma {:induction false} OrderIncreases(parts: seq<Part>)
    requires Nondecreasing(parts)
    ensures WellOrdered(AbsorbAll(parts))
    ensures forall spot | spot in AbsorbAll(parts).points :: exists part :: part in parts && part.spot == spot
  {
    if parts != [] {
      var n := |parts| - 1;
      var g := AbsorbAll(parts[..n]);
      OrderIncreases(parts[..n]);
      assert parts[n] in parts;
      forall spot | spot in g.points
        ensures spot.slot <= parts[n].spot.slot
        ensures exists part :: part in parts && part.spot == spot
      {
        var part :| part in parts[..n] && part.spot == spot;
        assert part in parts;
      }
      hide Merge, AbsorbAll;
      OrderStep(g, parts[n]);
      assert AbsorbAll(parts) == Absorb(g, parts[n]);
    }
  }

  lemma OrderStep(g: Grouped, part: Part)
    requires WellOrdered(g) && forall spot | spot in g.points :: spot.slot <= part.spot.slot
    ensures WellOrdered(Absorb(g, part))
  {
  }
}

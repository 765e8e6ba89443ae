/**
 * Metric samples, their five-minute buckets, and what a summary of a set of samples means,
 * independent of the order in which they were read.
 */
module Aggregates {

  /** Microseconds since 1970. */
  type Time = int

  const SECOND: nat := 1_000_000
  const MINUTE: nat := 60 * SECOND
  const BUCKET: nat := 5 * MINUTE
  const HOUR: nat := 60 * MINUTE
  const DAY: nat := 24 * HOUR

  datatype Sample = Sample(series: nat, eventId: string, timestamp: nat, value: real)

  function AsSet(rows: seq<Sample>): set<Sample> {
    set x | x in rows
  }

  /** The primary key of the sample table. */
  predicate NoRepeats(rows: seq<Sample>) {
    forall i, j | 0 <= i < j < |rows| :: rows[i] != rows[j]
  }

  /** `date_bin('5 minutes', t, 1970)`. */
  function BucketOf(t: Time): (b: Time)
    ensures b <= t < b + BUCKET && b % BUCKET == 0
  {
    t - t % BUCKET
  }

  /** `floor_hour` and `floor_day`, in UTC. */
  function HourOf(t: Time): (h: Time)
    ensures h <= t < h + HOUR && h % HOUR == 0
  {
    t - t % HOUR
  }

  function DayOf(t: Time): (d: Time)
    ensures d <= t < d + DAY && d % DAY == 0
  {
    t - t % DAY
  }

  // ----- Sums -----

  ghost function SumOf(s: set<Sample>): real {
    if s == {} then 0.0
    else
      var x :| x in s;
      x.value + SumOf(s - {x})
  }

  /** The sum does not depend on which sample is taken out first. */
  lemma {:induction false} SumRemove(s: set<Sample>, y: Sample)
    requires y in s
    ensures SumOf(s) == y.value + SumOf(s - {y})
    decreases s
  {
    var x :| x in s && SumOf(s) == x.value + SumOf(s - {x});
    if x != y {
      SumRemove(s - {x}, y);
      assert s - {x} - {y} == s - {y} - {x};
      SumRemove(s - {y}, x);
    }
  }

  lemma {:induction false} SumUnion(a: set<Sample>, b: set<Sample>)
    requires a !! b
    ensures SumOf(a + b) == SumOf(a) + SumOf(b)
    decreases b
  {
    if b == {} {
      assert a + b == a;
    } else {
      var y :| y in b;
      SumRemove(b, y);
      SumRemove(a + b, y);
      assert a + b - {y} == a + (b - {y});
      SumUnion(a, b - {y});
    }
  }

  function Times(v: real, n: nat): real {
    v * n as real
  }

  lemma TimesStep(v: real, n: nat)
    ensures Times(v, n + 1) == Times(v, n) + v
  {
  }

  lemma {:induction false} SumBounds(s: set<Sample>, lo: real, hi: real)
    requires forall x | x in s :: lo <= x.value <= hi
    ensures Times(lo, |s|) <= SumOf(s) <= Times(hi, |s|)
    decreases s
  {
    if s != {} {
      var y :| y in s;
      SumRemove(s, y);
      SumBounds(s - {y}, lo, hi);
      hide SumOf, Times;
      TimesStep(lo, |s - {y}|);
      TimesStep(hi, |s - {y}|);
      assert |s| == |s - {y}| + 1;
    }
  }

  // ----- Summaries -----

  datatype Stats = Stats(min: real, max: real, sum: real, count: nat, last: real, lastTimestamp: nat)

  /** p summarises s. `last` is the value of some sample with the greatest timestamp. */
  ghost predicate Describes(p: Stats, s: set<Sample>) {
    && p.count == |s| && s != {} && p.sum == SumOf(s)
    && (forall x | x in s :: p.min <= x.value <= p.max && x.timestamp <= p.lastTimestamp)
    && (exists x :: x in s && x.value == p.min)
    && (exists x :: x in s && x.value == p.max)
    && (exists x :: x in s && x.timestamp == p.lastTimestamp && x.value == p.last)
  }

  function Min(a: real, b: real): real {
    if b < a then b else a
  }

  function Max(a: real, b: real): real {
    if b > a then b else a
  }

  function One(x: Sample): Stats {
    Stats(x.value, x.value, x.value, 1, x.value, x.timestamp)
  }

  /** Add a later row to a running point; on equal timestamps the row wins. */
  function Merge(p: Stats, q: Stats): Stats {
    Stats(Min(p.min, q.min), Max(p.max, q.max), p.sum + q.sum, p.count + q.count,
          if q.lastTimestamp >= p.lastTimestamp then q.last else p.last,
          if q.lastTimestamp >= p.lastTimestamp then q.lastTimestamp else p.lastTimestamp)
  }

  lemma OneDescribes(x: Sample)
    ensures Describes(One(x), {x})
  {
  }

  /** Merging summaries of disjoint sets summarises the union. */
  lemma MergeDescribes(p: Stats, q: Stats, a: set<Sample>, b: set<Sample>)
    requires Describes(p, a) && Describes(q, b) && a !! b
    ensures Describes(Merge(p, q), a + b)
  {
    SumUnion(a, b);
    assert forall x | x in a :: x in a + b;
    assert forall x | x in b :: x in a + b;
  }

  /** A summary fixes everything but the choice among samples with the greatest timestamp. */
  lemma DescribesOnce(p: Stats, q: Stats, s: set<Sample>)
    requires Describes(p, s) && Describes(q, s)
    ensures p == q.(last := p.last)
    ensures (forall x, y | x in s && y in s :: x.timestamp == y.timestamp ==> x.value == y.value) ==> p == q
  {
  }

  lemma AverageBounds(p: Stats, s: set<Sample>)
    requires Describes(p, s)
    ensures p.count > 0
    ensures p.min <= p.sum / p.count as real <= p.max
    ensures p.min <= p.last <= p.max
  {
    SumBounds(s, p.min, p.max);
    Divide(p.min, p.sum, p.max, p.count as real);
  }

  lemma Divide(lo: real, sum: real, hi: real, n: real)
    requires n > 0.0 && lo * n <= sum <= hi * n
    ensures lo <= sum / n <= hi
  {
  }
}

/**
 * Rollups and retention: `rollup_once` and `apply_retention` of
 * server/temporalrca_server/maintenance.py. The rollup table is an index that must agree with the
 * direct aggregation of every sample ever ingested, also after the raw partitions are gone.
 */
module Maintenance {
  import opened Contracts
  import opened Aggregates

  /** Raw retention in hours, rollup retention in days, lateness in minutes. */
  datatype Config = Config(rawHours: nat, rollupDays: nat, lateness: nat)

  datatype Key = Key(bucket: Time, series: nat)

  datatype Rollup = Rollup(stats: Stats, average: real, completed: Time)

  /**
   * The tables, and for the statement: `history`, every sample ever ingested; `late`, those that came
   * when their timestamp was already behind `rolled` by more than the lateness; and the clock of the
   * last pass.
   */
  datatype Db = Db(raw: set<Sample>, rollups: map<Key, Rollup>, rolled: Option<Time>,
                   history: set<Sample>, late: set<Sample>, clock: Time)

  const EMPTY := Db({}, map[], None, {}, {}, 0)

  function Lateness(cfg: Config): nat {
    cfg.lateness * MINUTE
  }

  function KeyOf(x: Sample): Key {
    Key(BucketOf(x.timestamp), x.series)
  }

  function Group(s: set<Sample>, k: Key): set<Sample> {
    set x | x in s && x.series == k.series && BucketOf(x.timestamp) == k.bucket
  }

  function Between(s: set<Sample>, start: Time, end: Time): set<Sample> {
    set x | x in s && start <= x.timestamp < end
  }

  ghost predicate IsRollup(r: Rollup, s: set<Sample>) {
    Describes(r.stats, s) && r.average == r.stats.sum / r.stats.count as real
  }

  // ----- Steps -----

  /** Retention of a raw partition that ends at `end`. */
  predicate RawExpires(cfg: Config, end: Time, now: Time, rolled: Time) {
    end <= now - cfg.rawHours * HOUR - Lateness(cfg) && rolled >= end
  }

  /** The first bucket boundary from t on. */
  function CeilBucket(t: Time): Time {
    BucketOf(t + BUCKET - 1)
  }

  function RawEnd(t: Time): Time {
    HourOf(t) + HOUR
  }

  predicate RollupExpires(cfg: Config, bucket: Time, now: Time) {
    DayOf(bucket) + DAY <= now - cfg.rollupDays * DAY
  }

  /** The least of the raw timestamps, the oldest log timestamp, and the end of the window. */
  predicate IsOldest(raw: set<Sample>, oldestLog: Option<Time>, end: Time, oldest: Time) {
    && oldest <= end && (oldestLog.Some? ==> oldest <= oldestLog.value) && (forall x | x in raw :: oldest <= x.timestamp)
    && (oldest == end || Some(oldest) == oldestLog || exists x :: x in raw && x.timestamp == oldest)
  }

  /** Before the first pass everything counts; after it, a window behind the last pass. */
  ghost predicate StartsAt(cfg: Config, db: Db, oldestLog: Option<Time>, end: Time, start: Time) {
    match db.rolled
    case Some(r) => start == (if r <= end then r else end) - Lateness(cfg)
    case None => exists oldest :: IsOldest(db.raw, oldestLog, end, oldest) && start == BucketOf(oldest)
  }

  /** The rows that the upsert leaves: recomputed where the window has samples, unchanged elsewhere. */
  ghost predicate Upserted(before: map<Key, Rollup>, after: map<Key, Rollup>, window: set<Sample>) {
    && (forall k :: k in after <==> k in before || Group(window, k) != {})
    && (forall k | k in after :: if Group(window, k) != {} then IsRollup(after[k], Group(window, k)) else after[k] == before[k])
  }

  ghost predicate Retained(cfg: Config, before: map<Key, Rollup>, after: map<Key, Rollup>, now: Time) {
    && (forall k :: k in after <==> k in before && !RollupExpires(cfg, k.bucket, now))
    && (forall k | k in after :: after[k] == before[k])
  }

  /** One pass that holds the advisory lock. */
  ghost predicate Pass(cfg: Config, db: Db, next: Db, now: Time, oldestLog: Option<Time>) {
    var end := BucketOf(now);
    && next.rolled == Some(end) && next.clock == now
    && next.history == db.history && next.late == db.late
    && next.raw == (set x | x in db.raw && !RawExpires(cfg, RawEnd(x.timestamp), now, end))
    && exists start, upserted ::
         && StartsAt(cfg, db, oldestLog, end, start)
         && Upserted(db.rollups, upserted, Between(db.raw, start, end))
         && Retained(cfg, upserted, next.rollups, now)
  }

  /** A new sample is committed; the receipts guarantee that it is new. */
  predicate Arrive(cfg: Config, db: Db, next: Db, x: Sample) {
    && x !in db.history
    && next == db.(raw := db.raw + {x}, history := db.history + {x},
                   late := db.late + if IsLate(cfg, db, x) then {x} else {})
  }

  predicate IsLate(cfg: Config, db: Db, x: Sample) {
    db.rolled.Some? && x.timestamp < db.rolled.value - Lateness(cfg)
  }

  ghost predicate Next(cfg: Config, db: Db, next: Db) {
    || (exists x :: Arrive(cfg, db, next, x))
    || Passes(cfg, db, next)
  }

  /** A pass at a clock that has not gone back. */
  ghost predicate Passes(cfg: Config, db: Db, next: Db) {
    db.clock <= next.clock && exists oldestLog :: Pass(cfg, db, next, next.clock, oldestLog)
  }

  ghost predicate Behaviour(cfg: Config, run: seq<Db>) {
    run != [] && run[0] == EMPTY && forall i | 0 <= i < |run| - 1 :: Next(cfg, run[i], run[i + 1])
  }

  // ----- The invariant -----

  function OnTime(db: Db): set<Sample> {
    db.history - db.late
  }

  /** Rows below `limit` are exact for the samples that came on time, and only expired ones are missing. */
  ghost predicate ExactBelow(cfg: Config, db: Db, limit: Time) {
    && (forall k | k in db.rollups && k.bucket < limit :: IsRollup(db.rollups[k], Group(OnTime(db), k)))
    && (forall k: Key | k.bucket < limit && Group(OnTime(db), k) != {} :: k in db.rollups || RollupExpires(cfg, k.bucket, db.clock))
  }

  /** The first bucket that lies wholly inside the next window. */
  function Safe(cfg: Config, r: Time): Time {
    CeilBucket(r - Lateness(cfg))
  }

  /** Raw data is missing only from partitions that end before every bucket that a later window covers. */
  predicate RawComplete(cfg: Config, db: Db, r: Time) {
    && db.raw <= db.history && db.late <= db.history
    && (forall x | x in db.history && x !in db.raw :: RawEnd(x.timestamp) <= Safe(cfg, r))
    && (forall x | x in db.late :: x.timestamp < r - Lateness(cfg))
  }

  ghost predicate Inv(cfg: Config, db: Db) {
    match db.rolled
    case None => db.rollups == map[] && db.raw == db.history && db.late == {}
    case Some(r) =>
      && r == BucketOf(db.clock)
      && RawComplete(cfg, db, r)
      && (forall k | k in db.rollups :: k.bucket < r && Group(OnTime(db), k) != {} && !RollupExpires(cfg, k.bucket, db.clock))
      && ExactBelow(cfg, db, Safe(cfg, r))
  }

  predicate Aligned(cfg: Config) {
    cfg.lateness % 5 == 0
  }

  /** A window cuts no bucket in two, or only one whose row has outlived the rollup retention. */
  predicate Converging(cfg: Config) {
    Aligned(cfg) || cfg.lateness + 5 > 1440 * (cfg.rollupDays + 1)
  }

  lemma LatenessAligned(cfg: Config)
    requires Aligned(cfg)
    ensures Lateness(cfg) % BUCKET == 0
  {
  }

  lemma SafeIs(cfg: Config, r: Time)
    requires r % BUCKET == 0
    ensures var safe := Safe(cfg, r);
            && safe % BUCKET == 0 && r - Lateness(cfg) <= safe < r - Lateness(cfg) + BUCKET && safe <= r
            && (Aligned(cfg) ==> safe == r - Lateness(cfg))
  {
    if Aligned(cfg) {
      LatenessAligned(cfg);
      AlignedDifference(r, Lateness(cfg));
    }
    CeilIs(r - Lateness(cfg), r);
    hide CeilBucket, Lateness;
  }

  lemma CeilIs(t: Time, r: Time)
    ensures CeilBucket(t) % BUCKET == 0 && t <= CeilBucket(t) < t + BUCKET
    ensures t % BUCKET == 0 ==> CeilBucket(t) == t
    ensures r % BUCKET == 0 && t <= r ==> CeilBucket(t) <= r
  {
  }

  lemma AlignedDifference(a: Time, b: Time)
    requires a % BUCKET == 0 && b % BUCKET == 0
    ensures (a - b) % BUCKET == 0
  {
  }

  lemma SafeMonotone(cfg: Config, a: Time, b: Time)
    requires a <= b
    ensures Safe(cfg, a) <= Safe(cfg, b)
  {
  }

  /** In a bucket that a window does not wholly cover the row is cut only if it has expired. */
  lemma CutHasExpired(cfg: Config, bucket: Time, r: Time, now: Time)
    requires Converging(cfg) && !Aligned(cfg) && r % BUCKET == 0 && r <= now
    requires bucket % BUCKET == 0 && bucket < Safe(cfg, r)
    ensures RollupExpires(cfg, bucket, now)
  {
    SafeIs(cfg, r);
    var q := cfg.lateness % 5;
    var d := r - bucket;
    AlignedDifference(r, bucket);
    assert d > MINUTE * cfg.lateness;
    LeastCover(d, cfg.lateness);
    assert (cfg.lateness + 5 - q) % 5 == 0;
    FullDays(cfg.lateness + 5 - q, cfg.rollupDays + 1);
    hide Safe;
  }

  lemma LeastCover(d: Time, lateness: nat)
    requires d % BUCKET == 0 && d > MINUTE * lateness
    ensures d >= MINUTE * (lateness + 5 - lateness % 5)
  {
    var n := d / BUCKET;
    assert d == MINUTE * (5 * n);
    assert 5 * n > lateness;
  }

  lemma FullDays(minutes: nat, days: nat)
    requires minutes % 5 == 0 && minutes > 1440 * days - 5
    ensures MINUTE * minutes >= DAY * days
  {
    assert minutes >= 1440 * days;
  }

  /** In a window with aligned ends a bucket is either wholly inside or wholly outside. */
  lemma WindowGroup(s: set<Sample>, start: Time, end: Time, k: Key)
    requires start % BUCKET == 0 && end % BUCKET == 0
    ensures Group(Between(s, start, end), k) == if start <= k.bucket < end then Group(s, k) else {}
  {
  }

  /** A bucket from the first aligned time on is wholly inside. */
  lemma WindowCovers(s: set<Sample>, start: Time, end: Time, k: Key)
    requires end % BUCKET == 0 && CeilBucket(start) <= k.bucket
    ensures Group(Between(s, start, end), k) == if k.bucket < end then Group(s, k) else {}
  {
    CeilIs(start, start);
    hide CeilBucket;
    forall x | x in Group(s, k)
      ensures start <= x.timestamp && (x.timestamp < end <==> k.bucket < end)
    {
    }
  }

  lemma GroupAligned(s: set<Sample>, k: Key)
    requires Group(s, k) != {}
    ensures k.bucket % BUCKET == 0 && k.bucket >= 0
  {
    var x :| x in Group(s, k);
  }

  /** Inside the window the raw table still holds all samples that came on time, and no late one. */
  lemma RawGroupIsHistory(cfg: Config, db: Db, r: Time, k: Key)
    requires r % BUCKET == 0 && RawComplete(cfg, db, r) && k.bucket >= Safe(cfg, r)
    ensures Group(db.raw, k) == Group(OnTime(db), k)
  {
    SafeIs(cfg, r);
    hide Safe;
    forall x | x in db.history && x.series == k.series && BucketOf(x.timestamp) == k.bucket
      ensures x in db.raw && x !in db.late
    {
    }
  }

  lemma ArriveKeeps(cfg: Config, db: Db, next: Db, x: Sample)
    requires Converging(cfg) && Inv(cfg, db) && Arrive(cfg, db, next, x)
    ensures Inv(cfg, next)
  {
    if db.rolled.Some? {
      var r := db.rolled.value;
      forall k: Key | k.bucket < Safe(cfg, r)
        ensures k in db.rollups ==> Group(OnTime(next), k) == Group(OnTime(db), k)
        ensures Group(OnTime(next), k) != {} ==> RollupExpires(cfg, k.bucket, db.clock) || Group(OnTime(next), k) == Group(OnTime(db), k)
      {
        ArriveBelow(cfg, db, next, x, k);
      }
      forall k | k in db.rollups
        ensures Group(OnTime(next), k) != {}
      {
        var y :| y in Group(OnTime(db), k);
        assert y in Group(OnTime(next), k);
      }
      hide IsRollup, Group, OnTime, RollupExpires, HourOf, BucketOf, Safe;
    }
  }

  lemma ArriveBelow(cfg: Config, db: Db, next: Db, x: Sample, k: Key)
    requires Converging(cfg) && Inv(cfg, db) && Arrive(cfg, db, next, x) && db.rolled.Some? && k.bucket < Safe(cfg, db.rolled.value)
    ensures k in db.rollups ==> Group(OnTime(next), k) == Group(OnTime(db), k)
    ensures Group(OnTime(next), k) != {} ==> RollupExpires(cfg, k.bucket, db.clock) || Group(OnTime(next), k) == Group(OnTime(db), k)
  {
    var r := db.rolled.value;
    if Aligned(cfg) {
      SafeIs(cfg, r);
      LatenessAligned(cfg);
      ArriveGroup(cfg, db, next, x, k);
    } else if k.bucket % BUCKET == 0 {
      assert r <= db.clock;
      hide Inv, Arrive, Safe, Group, RollupExpires, Converging;
      CutHasExpired(cfg, k.bucket, r, db.clock);
      assert k in db.rollups ==> !RollupExpires(cfg, k.bucket, db.clock) by {
        NotExpired(cfg, db, k);
      }
    } else {
      if Group(OnTime(next), k) != {} {
        GroupAligned(OnTime(next), k);
      }
      if Group(OnTime(db), k) != {} {
        GroupAligned(OnTime(db), k);
      }
    }
  }

  lemma NotExpired(cfg: Config, db: Db, k: Key)
    requires Inv(cfg, db)
    ensures k in db.rollups ==> !RollupExpires(cfg, k.bucket, db.clock)
  {
  }

  lemma ArriveGroup(cfg: Config, db: Db, next: Db, x: Sample, k: Key)
    requires Arrive(cfg, db, next, x) && db.late <= db.history
    requires db.rolled.Some? && k.bucket < db.rolled.value - Lateness(cfg)
    requires db.rolled.value % BUCKET == 0 && Lateness(cfg) % BUCKET == 0
    ensures Group(OnTime(next), k) == Group(OnTime(db), k)
  {
  }

  /** A raw partition expires only when it ends before the buckets that the next window covers. */
  lemma ExpiredBeforeWindow(cfg: Config, t: Time, now: Time, rolled: Time)
    requires RawExpires(cfg, RawEnd(t), now, rolled)
    ensures RawEnd(t) <= Safe(cfg, BucketOf(now))
    ensures Aligned(cfg) ==> RawEnd(t) <= BucketOf(now) - Lateness(cfg)
  {
    var end := BucketOf(now);
    SafeIs(cfg, end);
    HourAligned(t);
    hide Safe, HourOf;
    AlignedStep(RawEnd(t), Safe(cfg, end));
  }

  lemma HourAligned(t: Time)
    ensures RawEnd(t) % BUCKET == 0
  {
  }

  lemma AlignedStep(a: Time, b: Time)
    requires a % BUCKET == 0 && b % BUCKET == 0 && a < b + BUCKET
    ensures a <= b
  {
  }

  lemma AlignedBelow(a: Time, t: Time)
    requires a % BUCKET == 0 && a <= t
    ensures a <= BucketOf(t)
  {
  }

  lemma BucketMonotone(a: Time, b: Time)
    requires a <= b
    ensures BucketOf(a) <= BucketOf(b)
  {
  }

  /** What a pass recomputes: for each bucket that stays, all samples that came on time. */
  lemma PassWindow(cfg: Config, db: Db, now: Time, oldestLog: Option<Time>, start: Time, k: Key)
    requires Converging(cfg) && Inv(cfg, db) && db.clock <= now
    requires StartsAt(cfg, db, oldestLog, BucketOf(now), start) && !RollupExpires(cfg, k.bucket, now)
    ensures var window := Between(db.raw, start, BucketOf(now));
            Group(window, k) == if CeilBucket(start) <= k.bucket < BucketOf(now) then Group(OnTime(db), k) else {}
    ensures db.rolled.Some? ==> start == db.rolled.value - Lateness(cfg)
    ensures db.rolled.None? && k.bucket < CeilBucket(start) ==> Group(OnTime(db), k) == {}
  {
    var end := BucketOf(now);
    match db.rolled
    case Some(r) =>
      BucketMonotone(db.clock, now);
      assert start == r - Lateness(cfg);
      if Safe(cfg, r) <= k.bucket {
        RawGroupIsHistory(cfg, db, r, k);
        WindowCovers(db.raw, start, end, k);
      } else {
        OutsideWindow(cfg, db.raw, r, start, end, now, k);
      }
    case None =>
      FirstWindow(cfg, db, oldestLog, end, start, k);
  }

  lemma OutsideWindow(cfg: Config, raw: set<Sample>, r: Time, start: Time, end: Time, now: Time, k: Key)
    requires Converging(cfg) && start == r - Lateness(cfg) && r % BUCKET == 0 && end % BUCKET == 0 && r <= now
    requires k.bucket < Safe(cfg, r) && !RollupExpires(cfg, k.bucket, now)
    ensures Group(Between(raw, start, end), k) == {}
  {
    SafeIs(cfg, r);
    if Aligned(cfg) {
      WindowGroup(raw, start, end, k);
    } else if Group(Between(raw, start, end), k) != {} {
      GroupAligned(Between(raw, start, end), k);
      CutHasExpired(cfg, k.bucket, r, now);
    }
  }

  lemma FirstWindow(cfg: Config, db: Db, oldestLog: Option<Time>, end: Time, start: Time, k: Key)
    requires Inv(cfg, db) && db.rolled.None? && StartsAt(cfg, db, oldestLog, end, start) && end % BUCKET == 0
    ensures Group(Between(db.raw, start, end), k) == if CeilBucket(start) <= k.bucket < end then Group(OnTime(db), k) else {}
    ensures k.bucket < CeilBucket(start) ==> Group(OnTime(db), k) == {}
  {
    assert OnTime(db) == db.raw;
    CeilIs(start, start);
    WindowGroup(db.raw, start, end, k);
    forall x | x in db.raw
      ensures BucketOf(x.timestamp) >= start
    {
      var oldest :| IsOldest(db.raw, oldestLog, end, oldest) && start == BucketOf(oldest);
      BucketMonotone(oldest, x.timestamp);
    }
    hide CeilBucket;
  }

  /** After a pass the rows are exact up to the end of its window, not only behind the lateness. */
  lemma PassIsExact(cfg: Config, db: Db, next: Db, now: Time, oldestLog: Option<Time>)
    requires Converging(cfg) && Inv(cfg, db) && db.clock <= now && Pass(cfg, db, next, now, oldestLog)
    ensures ExactBelow(cfg, next, BucketOf(now))
    ensures forall k | k in next.rollups ::
              k.bucket < BucketOf(now) && Group(OnTime(next), k) != {} && !RollupExpires(cfg, k.bucket, now)
  {
    var end := BucketOf(now);
    var start, upserted :| StartsAt(cfg, db, oldestLog, end, start)
                           && Upserted(db.rollups, upserted, Between(db.raw, start, end))
                           && Retained(cfg, upserted, next.rollups, now);
    assert OnTime(next) == OnTime(db);
    BucketMonotone(db.clock, now);
    forall k: Key
      ensures k in next.rollups ==> k.bucket < end && Group(OnTime(next), k) != {} && !RollupExpires(cfg, k.bucket, now)
      ensures k in next.rollups ==> IsRollup(next.rollups[k], Group(OnTime(next), k))
      ensures k.bucket < end && Group(OnTime(next), k) != {} ==> k in next.rollups || RollupExpires(cfg, k.bucket, now)
    {
      if !RollupExpires(cfg, k.bucket, now) {
        PassWindow(cfg, db, now, oldestLog, start, k);
        PassRow(cfg, db, next, now, start, upserted, k);
      }
    }
  }

  lemma PassRow(cfg: Config, db: Db, next: Db, now: Time, start: Time, upserted: map<Key, Rollup>, k: Key)
    requires Inv(cfg, db) && db.clock <= now && BucketOf(db.clock) <= BucketOf(now)
    requires var window := Between(db.raw, start, BucketOf(now));
             && Upserted(db.rollups, upserted, window) && Retained(cfg, upserted, next.rollups, now)
             && Group(window, k) == if CeilBucket(start) <= k.bucket < BucketOf(now) then Group(OnTime(db), k) else {}
    requires !RollupExpires(cfg, k.bucket, now)
    requires db.rolled.Some? ==> start == db.rolled.value - Lateness(cfg)
    requires db.rolled.None? && k.bucket < CeilBucket(start) ==> Group(OnTime(db), k) == {}
    ensures k in next.rollups ==> k.bucket < BucketOf(now) && Group(OnTime(db), k) != {} && IsRollup(next.rollups[k], Group(OnTime(db), k))
    ensures k.bucket < BucketOf(now) && Group(OnTime(db), k) != {} ==> k in next.rollups
  {
    hide IsRollup, Group, OnTime, RollupExpires, BucketOf, CeilBucket, RawComplete, Between;
    if RollupExpires(cfg, k.bucket, db.clock) {
      ExpiryIsForever(cfg, k.bucket, db.clock, now);
    }
  }

  lemma ExpiryIsForever(cfg: Config, bucket: Time, a: Time, b: Time)
    requires a <= b && RollupExpires(cfg, bucket, a)
    ensures RollupExpires(cfg, bucket, b)
  {
  }

  lemma PassKeeps(cfg: Config, db: Db, next: Db, now: Time, oldestLog: Option<Time>)
    requires Converging(cfg) && Inv(cfg, db) && db.clock <= now && Pass(cfg, db, next, now, oldestLog)
    ensures Inv(cfg, next)
  {
    var end := BucketOf(now);
    PassIsExact(cfg, db, next, now, oldestLog);
    BucketMonotone(db.clock, now);
    SafeIs(cfg, end);
    forall x | x in next.history && x !in next.raw
      ensures RawEnd(x.timestamp) <= Safe(cfg, end)
    {
      if x in db.raw {
        ExpiredBeforeWindow(cfg, x.timestamp, now, end);
      } else {
        SafeMonotone(cfg, db.rolled.value, end);
      }
    }
    hide IsRollup, Group, OnTime, RollupExpires, HourOf, BucketOf, Safe, StartsAt, Upserted, Retained, RawExpires;
  }

  lemma {:induction false} BehaviourKeeps(cfg: Config, run: seq<Db>, i: nat)
    requires Converging(cfg) && Behaviour(cfg, run) && i < |run|
    ensures Inv(cfg, run[i])
  {
    if i > 0 {
      BehaviourKeeps(cfg, run, i - 1);
      StepKeeps(cfg, run[i - 1], run[i]);
    }
  }

  lemma StepKeeps(cfg: Config, db: Db, next: Db)
    requires Converging(cfg) && Inv(cfg, db) && Next(cfg, db, next)
    ensures Inv(cfg, next)
  {
    if x :| Arrive(cfg, db, next, x) {
      ArriveKeeps(cfg, db, next, x);
    } else {
      var oldestLog :| Pass(cfg, db, next, next.clock, oldestLog);
      PassKeeps(cfg, db, next, next.clock, oldestLog);
    }
  }

  // ----- The theorems, over every run -----

  /** The step to run[i] is a pass. */
  ghost predicate PassedAt(cfg: Config, run: seq<Db>, i: nat) {
    0 < i < |run| && Passes(cfg, run[i - 1], run[i])
  }

  /**
   * Convergence: after every pass of a run, each retained row summarises exactly the samples of its
   * bucket that came on time, over the whole history, whatever has been dropped; so it equals the
   * direct aggregation of everything ever ingested if and only if the bucket never got a late sample.
   * A row is missing only if its bucket has no such sample or has outlived the rollup retention.
   */
  lemma RollupsConverge(cfg: Config, run: seq<Db>, i: nat)
    requires Converging(cfg) && Behaviour(cfg, run) && PassedAt(cfg, run, i)
    ensures var db := run[i];
            && (forall k | k in db.rollups :: IsRollup(db.rollups[k], Group(OnTime(db), k)))
            && (forall k | k in db.rollups :: IsRollup(db.rollups[k], Group(db.history, k)) <==> Group(db.late, k) == {})
            && (forall k: Key | k.bucket < db.rolled.value && Group(OnTime(db), k) != {} ::
                  k in db.rollups || DayOf(k.bucket) + DAY <= db.clock - cfg.rollupDays * DAY)
  {
    BehaviourKeeps(cfg, run, i - 1);
    hide Behaviour, Pass, Inv, IsRollup, Group, OnTime, RollupExpires;
    var oldestLog :| Pass(cfg, run[i - 1], run[i], run[i].clock, oldestLog);
    PassConverges(cfg, run[i - 1], run[i], oldestLog);
  }

  lemma PassConverges(cfg: Config, db: Db, next: Db, oldestLog: Option<Time>)
    requires Converging(cfg) && Inv(cfg, db) && db.clock <= next.clock && Pass(cfg, db, next, next.clock, oldestLog)
    ensures next.rolled == Some(BucketOf(next.clock)) && next.late <= next.history
    ensures ExactBelow(cfg, next, BucketOf(next.clock))
    ensures forall k | k in next.rollups :: k.bucket < BucketOf(next.clock)
    ensures forall k | k in next.rollups :: IsRollup(next.rollups[k], Group(next.history, k)) <==> Group(next.late, k) == {}
  {
    PassIsExact(cfg, db, next, next.clock, oldestLog);
    assert db.late <= db.history;
    hide Pass, Inv, IsRollup, Group, OnTime, RollupExpires;
    forall k | k in next.rollups
      ensures IsRollup(next.rollups[k], Group(next.history, k)) <==> Group(next.late, k) == {}
    {
      LateOrExact(next, k);
    }
  }

  lemma LateOrExact(db: Db, k: Key)
    requires k in db.rollups && IsRollup(db.rollups[k], Group(OnTime(db), k)) && db.late <= db.history
    ensures IsRollup(db.rollups[k], Group(db.history, k)) <==> Group(db.late, k) == {}
  {
    assert Group(db.history, k) == Group(OnTime(db), k) + Group(db.late, k);
    assert |Group(db.history, k)| == |Group(OnTime(db), k)| + |Group(db.late, k)|;
    if Group(db.late, k) == {} {
      assert Group(db.history, k) == Group(OnTime(db), k);
    }
  }

  /** After every pass of every run the rows are those of the samples that came on time. */
  ghost predicate Converges(cfg: Config) {
    forall run, i: nat | Behaviour(cfg, run) && PassedAt(cfg, run, i) :: RowsOnTime(run[i])
  }

  ghost predicate RowsOnTime(db: Db) {
    forall k | k in db.rollups :: IsRollup(db.rollups[k], Group(OnTime(db), k))
  }

  /** The rollups converge on all runs exactly for the configurations that the condition names. */
  lemma ConvergesIff(cfg: Config)
    ensures Converges(cfg) <==> Converging(cfg)
  {
    if Converging(cfg) {
      forall run, i: nat | Behaviour(cfg, run) && PassedAt(cfg, run, i)
        ensures RowsOnTime(run[i])
      {
        RollupsConverge(cfg, run, i);
      }
    } else {
      UnalignedLatenessBreaks(cfg);
      assert OnTime(BrokenRun(cfg)[4]) == BrokenRun(cfg)[4].history;
      assert !RowsOnTime(BrokenRun(cfg)[4]);
    }
  }

  /**
   * Raw data is missing only where no later pass looks, or only at a row that has expired: a pass never
   * replaces a row that stays by one whose samples are gone.
   */
  lemma DroppedStaysOutside(cfg: Config, run: seq<Db>, i: nat, now: Time, oldestLog: Option<Time>, start: Time, x: Sample)
    requires Converging(cfg) && Behaviour(cfg, run) && i < |run| && run[i].clock <= now
    requires StartsAt(cfg, run[i], oldestLog, BucketOf(now), start)
    requires x in run[i].history && x !in run[i].raw
    ensures RawEnd(x.timestamp) <= CeilBucket(start)
    ensures RawEnd(x.timestamp) <= start || RollupExpires(cfg, BucketOf(x.timestamp), now)
  {
    BehaviourKeeps(cfg, run, i);
    var r := run[i].rolled.value;
    BucketMonotone(run[i].clock, now);
    SafeIs(cfg, r);
    if !Aligned(cfg) {
      hide Inv, Safe, RollupExpires, Behaviour;
      CutHasExpired(cfg, BucketOf(x.timestamp), r, now);
    }
  }

  // ----- Retention, for any configuration -----

  /** A pass keeps a raw sample exactly while its hour ends inside the retention, or after the last bucket boundary. */
  lemma RawStays(cfg: Config, db: Db, next: Db, now: Time, oldestLog: Option<Time>, x: Sample)
    requires Pass(cfg, db, next, now, oldestLog) && x in db.raw
    ensures x in next.raw
            <==> HourOf(x.timestamp) + HOUR > now - cfg.rawHours * HOUR - cfg.lateness * MINUTE || HourOf(x.timestamp) + HOUR > BucketOf(now)
  {
  }

  /** A pass keeps a row exactly while its day ends inside the retention. */
  lemma RowStays(cfg: Config, db: Db, next: Db, now: Time, oldestLog: Option<Time>, k: Key)
    requires Pass(cfg, db, next, now, oldestLog)
    ensures k in next.rollups ==> DayOf(k.bucket) + DAY > now - cfg.rollupDays * DAY
    ensures k in db.rollups && DayOf(k.bucket) + DAY > now - cfg.rollupDays * DAY ==> k in next.rollups
  {
  }

  /** The hour of a sample has not ended, or not long enough ago. */
  predicate Recent(cfg: Config, x: Sample, clock: Time) {
    || HourOf(x.timestamp) + HOUR > clock - cfg.rawHours * HOUR - cfg.lateness * MINUTE
    || HourOf(x.timestamp) + HOUR > BucketOf(clock)
  }

  lemma RecentBefore(cfg: Config, x: Sample, a: Time, b: Time)
    requires a <= b && Recent(cfg, x, b)
    ensures Recent(cfg, x, a)
  {
  }

  lemma {:induction false} RecentInRaw(cfg: Config, run: seq<Db>, i: nat)
    requires Behaviour(cfg, run) && i < |run|
    ensures forall x | x in run[i].history && Recent(cfg, x, run[i].clock) :: x in run[i].raw
    ensures run[i].raw <= run[i].history
  {
    if i > 0 {
      RecentInRaw(cfg, run, i - 1);
      var db, next := run[i - 1], run[i];
      assert Next(cfg, db, next);
      hide Behaviour, Recent, Pass;
      if x :| Arrive(cfg, db, next, x) {
      } else {
        var oldestLog :| Pass(cfg, db, next, next.clock, oldestLog);
        PassKeepsRecent(cfg, db, next, oldestLog);
      }
    }
  }

  lemma PassKeepsRecent(cfg: Config, db: Db, next: Db, oldestLog: Option<Time>)
    requires Pass(cfg, db, next, next.clock, oldestLog) && db.clock <= next.clock && db.raw <= db.history
    requires forall x | x in db.history && Recent(cfg, x, db.clock) :: x in db.raw
    ensures forall x | x in db.history && Recent(cfg, x, next.clock) :: x in next.raw
    ensures forall x | x in next.raw :: Recent(cfg, x, next.clock)
    ensures next.raw <= db.history == next.history
  {
    assert next.raw <= db.raw;
    forall x | x in db.history
      ensures Recent(cfg, x, next.clock) ==> x in next.raw
      ensures x in next.raw ==> Recent(cfg, x, next.clock)
    {
      if x in db.raw {
        RawStays(cfg, db, next, next.clock, oldestLog, x);
      } else if Recent(cfg, x, next.clock) {
        RecentBefore(cfg, x, db.clock, next.clock);
      }
      hide Pass;
    }
  }

  /**
   * Over every run the raw table after a pass is exactly the part of the history that is inside the retention,
   * or in an hour that the passes have not closed; and at any time a sample is there that is not older than
   * the retention at the last pass.
   */
  lemma RawIsRecent(cfg: Config, run: seq<Db>, i: nat)
    requires Behaviour(cfg, run) && i < |run|
    ensures PassedAt(cfg, run, i) ==>
              forall x :: x in run[i].raw
                <==> x in run[i].history
                     && (HourOf(x.timestamp) + HOUR > run[i].clock - cfg.rawHours * HOUR - cfg.lateness * MINUTE
                         || HourOf(x.timestamp) + HOUR > BucketOf(run[i].clock))
    ensures forall x | x in run[i].history && x.timestamp >= run[i].clock - cfg.rawHours * HOUR :: x in run[i].raw
  {
    RecentInRaw(cfg, run, i);
    if PassedAt(cfg, run, i) {
      RecentInRaw(cfg, run, i - 1);
      hide Pass, Behaviour, Recent;
      var oldestLog :| Pass(cfg, run[i - 1], run[i], run[i].clock, oldestLog);
      PassKeepsRecent(cfg, run[i - 1], run[i], oldestLog);
    }
    hide Pass, Behaviour;
  }

  /** A row that is there stays there until its day has outlived the retention. */
  lemma {:induction false} RowsStay(cfg: Config, run: seq<Db>, i: nat, j: nat, k: Key)
    requires Behaviour(cfg, run) && i <= j < |run| && k in run[i].rollups
    requires DayOf(k.bucket) + DAY > run[j].clock - cfg.rollupDays * DAY
    ensures k in run[j].rollups
  {
    if i < j {
      var db, next := run[j - 1], run[j];
      assert Next(cfg, db, next);
      hide Pass;
      RowsStay(cfg, run, i, j - 1, k);
      if !(exists x :: Arrive(cfg, db, next, x)) {
        var oldestLog :| Pass(cfg, db, next, next.clock, oldestLog);
        RowStays(cfg, db, next, next.clock, oldestLog, k);
      }
    }
  }

  /** And none stays longer, past the first pass that finds it so. */
  lemma RowsGo(cfg: Config, run: seq<Db>, i: nat, k: Key)
    requires Behaviour(cfg, run) && PassedAt(cfg, run, i) && k in run[i].rollups
    ensures DayOf(k.bucket) + DAY > run[i].clock - cfg.rollupDays * DAY
  {
    hide Pass;
    var oldestLog :| Pass(cfg, run[i - 1], run[i], run[i].clock, oldestLog);
    RowStays(cfg, run[i - 1], run[i], run[i].clock, oldestLog, k);
  }

  // ----- What every row is, at any time and for any configuration -----

  /** The row summarises some samples of its own bucket and series. */
  ghost predicate Stands(r: Rollup, k: Key) {
    exists s :: IsRollup(r, s) && s == Group(s, k)
  }

  lemma {:induction false} RowsStand(cfg: Config, run: seq<Db>, i: nat)
    requires Behaviour(cfg, run) && i < |run|
    ensures forall k | k in run[i].rollups :: Stands(run[i].rollups[k], k)
  {
    if i > 0 {
      RowsStand(cfg, run, i - 1);
      assert Next(cfg, run[i - 1], run[i]);
      hide Behaviour, Next, Stands;
      NextStands(cfg, run[i - 1], run[i]);
    }
  }

  lemma NextStands(cfg: Config, db: Db, next: Db)
    requires Next(cfg, db, next) && forall k | k in db.rollups :: Stands(db.rollups[k], k)
    ensures forall k | k in next.rollups :: Stands(next.rollups[k], k)
  {
    if !(exists x :: Arrive(cfg, db, next, x)) {
      hide Pass, Stands;
      var oldestLog :| Pass(cfg, db, next, next.clock, oldestLog);
      PassStands(cfg, db, next, oldestLog);
    }
    hide Pass, Stands;
  }

  lemma PassStands(cfg: Config, db: Db, next: Db, oldestLog: Option<Time>)
    requires Pass(cfg, db, next, next.clock, oldestLog) && forall k | k in db.rollups :: Stands(db.rollups[k], k)
    ensures forall k | k in next.rollups :: Stands(next.rollups[k], k)
  {
    var end := BucketOf(next.clock);
    var start, upserted :| StartsAt(cfg, db, oldestLog, end, start)
                           && Upserted(db.rollups, upserted, Between(db.raw, start, end))
                           && Retained(cfg, upserted, next.rollups, next.clock);
    var window := Between(db.raw, start, end);
    hide Stands, IsRollup, Between;
    forall k | k in next.rollups
      ensures Stands(next.rollups[k], k)
    {
      if Group(window, k) != {} {
        GroupStands(next.rollups[k], window, k);
      }
    }
  }

  lemma GroupStands(r: Rollup, s: set<Sample>, k: Key)
    requires IsRollup(r, Group(s, k))
    ensures Stands(r, k)
  {
    assert Group(Group(s, k), k) == Group(s, k);
  }

  // ----- A lateness that is not a multiple of five minutes -----

  /** How far the window starts behind the bucket boundary before it. */
  function Offset(cfg: Config): nat
    requires !Aligned(cfg)
  {
    (5 - cfg.lateness % 5) * MINUTE
  }

  function BrokenNow(cfg: Config): Time
    requires !Aligned(cfg)
  {
    DAY + Lateness(cfg) + Offset(cfg)
  }

  /** One sample at the start of a bucket, one where the window of the second pass will start. */
  function Early(): Sample {
    Sample(0, "early", DAY, 1.0)
  }

  function Later(cfg: Config): Sample
    requires !Aligned(cfg)
  {
    Sample(0, "later", DAY + Offset(cfg), 1.0)
  }

  const BROKEN_KEY := Key(DAY, 0)

  lemma BrokenTimes(cfg: Config)
    requires !Aligned(cfg) && cfg.lateness + 5 <= 1440 * (cfg.rollupDays + 1)
    ensures 0 < Offset(cfg) < BUCKET && Lateness(cfg) > 0
    ensures BucketOf(BrokenNow(cfg)) == BrokenNow(cfg)
    ensures BucketOf(DAY) == BucketOf(DAY + Offset(cfg)) == DAY
    ensures forall t: nat | t == DAY || t == DAY + Offset(cfg) :: !RawExpires(cfg, RawEnd(t), BrokenNow(cfg), BrokenNow(cfg))
    ensures !RollupExpires(cfg, DAY, BrokenNow(cfg))
  {
  }

  function RollupOf(p: Stats, now: Time): Rollup
    requires p.count > 0
  {
    Rollup(p, p.sum / p.count as real, now)
  }

  function BrokenRun(cfg: Config): seq<Db>
    requires !Aligned(cfg)
  {
    var x, y, now := Early(), Later(cfg), BrokenNow(cfg);
    var db2 := EMPTY.(raw := {x, y}, history := {x, y});
    var db3 := Db({x, y}, map[BROKEN_KEY := RollupOf(Merge(One(x), One(y)), now)], Some(now), {x, y}, {}, now);
    [EMPTY, EMPTY.(raw := {x}, history := {x}), db2, db3, db3.(rollups := map[BROKEN_KEY := RollupOf(One(y), now)])]
  }

  /**
   * A lateness that is not a multiple of five minutes breaks the index: there is a run of two
   * punctual samples and two passes after which a row has forgotten one of them.
   */
  lemma UnalignedLatenessBreaks(cfg: Config)
    requires !Aligned(cfg) && cfg.lateness + 5 <= 1440 * (cfg.rollupDays + 1)
    ensures Behaviour(cfg, BrokenRun(cfg))
    ensures var db := BrokenRun(cfg)[4];
            && PassedAt(cfg, BrokenRun(cfg), 4) && db.late == {} && BROKEN_KEY in db.rollups
            && !IsRollup(db.rollups[BROKEN_KEY], Group(db.history, BROKEN_KEY))
  {
    var run := BrokenRun(cfg);
    BrokenSteps(cfg);
    BrokenRow(cfg, run[4]);
    hide Next, Group, IsRollup, Behaviour, RollupOf, BrokenNow;
    FiveStates(cfg, run);
  }

  lemma FiveStates(cfg: Config, run: seq<Db>)
    requires |run| == 5 && run[0] == EMPTY
    requires Next(cfg, run[0], run[1]) && Next(cfg, run[1], run[2]) && Next(cfg, run[2], run[3]) && Next(cfg, run[3], run[4])
    ensures Behaviour(cfg, run)
  {
  }

  lemma BrokenSteps(cfg: Config)
    requires !Aligned(cfg) && cfg.lateness + 5 <= 1440 * (cfg.rollupDays + 1)
    ensures var run := BrokenRun(cfg);
            Next(cfg, run[0], run[1]) && Next(cfg, run[1], run[2]) && Next(cfg, run[2], run[3]) && Next(cfg, run[3], run[4])
  {
    var run := BrokenRun(cfg);
    BrokenArrivals(cfg);
    FirstPass(cfg, run[2], run[3]);
    SecondPass(cfg, run[3], run[4]);
    BrokenTimes(cfg);
    hide Arrive, Pass, RollupOf, BrokenNow, Offset, Lateness, RawExpires, RollupExpires, BucketOf;
    PassIsNext(cfg, run[2], run[3]);
    PassIsNext(cfg, run[3], run[4]);
  }

  lemma PassIsNext(cfg: Config, db: Db, next: Db)
    requires db.clock <= next.clock && Pass(cfg, db, next, next.clock, None)
    ensures Next(cfg, db, next)
  {
  }

  lemma BrokenArrivals(cfg: Config)
    requires !Aligned(cfg) && cfg.lateness + 5 <= 1440 * (cfg.rollupDays + 1)
    ensures Arrive(cfg, EMPTY, BrokenRun(cfg)[1], Early()) && Arrive(cfg, BrokenRun(cfg)[1], BrokenRun(cfg)[2], Later(cfg))
  {
  }

  lemma BrokenRow(cfg: Config, db: Db)
    requires !Aligned(cfg) && cfg.lateness + 5 <= 1440 * (cfg.rollupDays + 1)
    requires db.history == {Early(), Later(cfg)}
    requires BROKEN_KEY in db.rollups && db.rollups[BROKEN_KEY] == RollupOf(One(Later(cfg)), BrokenNow(cfg))
    ensures !IsRollup(db.rollups[BROKEN_KEY], Group(db.history, BROKEN_KEY))
  {
    BrokenTimes(cfg);
    OneGroup(cfg, db.history);
    assert |{Early(), Later(cfg)}| == 2;
  }

  lemma FirstPass(cfg: Config, db: Db, next: Db)
    requires !Aligned(cfg) && cfg.lateness + 5 <= 1440 * (cfg.rollupDays + 1)
    requires var x, y := Early(), Later(cfg);
             && db == EMPTY.(raw := {x, y}, history := {x, y})
             && next == Db({x, y}, map[BROKEN_KEY := RollupOf(Merge(One(x), One(y)), BrokenNow(cfg))], Some(BrokenNow(cfg)), {x, y}, {}, BrokenNow(cfg))
    ensures Pass(cfg, db, next, BrokenNow(cfg), None)
  {
    BrokenTimes(cfg);
    var x, y, now := Early(), Later(cfg), BrokenNow(cfg);
    assert IsOldest(db.raw, None, now, DAY);
    assert StartsAt(cfg, db, None, now, DAY);
    var window := Between(db.raw, DAY, now);
    assert window == {x, y};
    OneDescribes(x);
    OneDescribes(y);
    MergeDescribes(One(x), One(y), {x}, {y});
    assert {x} + {y} == {x, y};
    OneGroup(cfg, {x, y});
    hide Describes, IsOldest;
    assert Upserted(db.rollups, next.rollups, window);
    assert Retained(cfg, next.rollups, next.rollups, now);
  }

  lemma SecondPass(cfg: Config, db: Db, next: Db)
    requires !Aligned(cfg) && cfg.lateness + 5 <= 1440 * (cfg.rollupDays + 1)
    requires var x, y := Early(), Later(cfg);
             && db.raw == {x, y} && db.rolled == Some(BrokenNow(cfg)) && db.clock == BrokenNow(cfg)
             && db.rollups.Keys == {BROKEN_KEY}
             && next == db.(rollups := map[BROKEN_KEY := RollupOf(One(y), BrokenNow(cfg))])
    ensures Pass(cfg, db, next, BrokenNow(cfg), None)
  {
    BrokenTimes(cfg);
    var x, y, now := Early(), Later(cfg), BrokenNow(cfg);
    var start := DAY + Offset(cfg);
    assert StartsAt(cfg, db, None, now, start);
    var window := Between(db.raw, start, now);
    assert window == {y};
    OneDescribes(y);
    OneGroup(cfg, {y});
    hide Describes;
    assert Upserted(db.rollups, next.rollups, window);
    assert Retained(cfg, next.rollups, next.rollups, now);
  }

  /** Both samples fall into one bucket. */
  lemma OneGroup(cfg: Config, s: set<Sample>)
    requires !Aligned(cfg) && cfg.lateness + 5 <= 1440 * (cfg.rollupDays + 1)
    requires s <= {Early(), Later(cfg)}
    ensures Group(s, BROKEN_KEY) == s
    ensures forall k | k != BROKEN_KEY :: Group(s, k) == {}
  {
  }
}

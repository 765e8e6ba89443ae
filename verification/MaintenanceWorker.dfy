/**
 * The maintenance worker and its partitioned tables: `rollup_once`, `apply_retention` and
 * `ensure_partitions` (server/temporalrca_server/maintenance.py and partitions.py), proved against the
 * pass of the Maintenance module.
 */
module MaintenanceWorker {
  import opened Contracts
  import opened Aggregates
  import opened Maintenance

  /** DROP TABLE of one hourly partition. */
  function WithoutHour(rows: seq<Sample>, hour: Time): (r: seq<Sample>)
    ensures forall x :: x in r <==> x in rows && HourOf(x.timestamp) != hour
  {
    if rows == [] then []
    else
      var rest := WithoutHour(rows[1..], hour);
      if HourOf(rows[0].timestamp) == hour then rest else [rows[0]] + rest
  }

  lemma {:induction false} WithoutHourKeeps(rows: seq<Sample>, hour: Time)
    requires NoRepeats(rows)
    ensures NoRepeats(WithoutHour(rows, hour))
  {
    if rows != [] {
      var rest := WithoutHour(rows[1..], hour);
      assert forall i | 0 <= i < |rows[1..]| :: rows[1..][i] == rows[i + 1];
      WithoutHourKeeps(rows[1..], hour);
      assert rows[0] !in rows[1..];
      assert rows[0] !in rest;
    }
  }

  // ----- Grouping -----

  /** Running summaries per bucket and series describe the rows seen so far. */
  ghost predicate Grouped(points: map<Key, Stats>, seen: set<Sample>) {
    && (forall k :: k in points <==> Group(seen, k) != {})
    && (forall k | k in points :: Describes(points[k], Group(seen, k)))
  }

  function AddSample(points: map<Key, Stats>, x: Sample): map<Key, Stats> {
    points[KeyOf(x) := if KeyOf(x) in points then Merge(points[KeyOf(x)], One(x)) else One(x)]
  }

  lemma AddSampleGroups(points: map<Key, Stats>, seen: set<Sample>, x: Sample)
    requires Grouped(points, seen) && x !in seen
    ensures Grouped(AddSample(points, x), seen + {x})
  {
    var k := KeyOf(x);
    GroupAdds(seen, x);
    OneDescribes(x);
    hide Group, Describes;
    if k in points {
      MergeDescribes(points[k], One(x), Group(seen, k), {x});
    } else {
      assert {} + {x} == {x};
    }
  }

  lemma GroupAdds(seen: set<Sample>, x: Sample)
    ensures Group(seen + {x}, KeyOf(x)) == Group(seen, KeyOf(x)) + {x}
    ensures x !in seen ==> Group(seen, KeyOf(x)) !! {x}
    ensures forall k | k != KeyOf(x) :: Group(seen + {x}, k) == Group(seen, k)
  {
  }

  /** The SELECT ... GROUP BY of the rollup statement. */
  method GroupSamples(rows: seq<Sample>, start: Time, end: Time) returns (points: map<Key, Stats>)
    requires NoRepeats(rows)
    ensures Grouped(points, Between(AsSet(rows), start, end))
  {
    points := map[];
    ghost var seen: set<Sample> := {};
    var i := 0;
    while i < |rows|
      invariant 0 <= i <= |rows|
      invariant seen == Between(AsSet(rows[..i]), start, end)
      invariant Grouped(points, seen)
    {
      var x := rows[i];
      assert AsSet(rows[..i + 1]) == AsSet(rows[..i]) + {x};
      assert x !in rows[..i];
      if start <= x.timestamp < end {
        AddSampleGroups(points, seen, x);
        points := AddSample(points, x);
        seen := seen + {x};
      }
      i := i + 1;
    }
    assert rows[..i] == rows;
  }

  method OldestOf(rows: seq<Sample>, oldestLog: Option<Time>, end: Time) returns (oldest: Time)
    ensures IsOldest(AsSet(rows), oldestLog, end, oldest)
  {
    oldest := end;
    if oldestLog.Some? && oldestLog.value < oldest {
      oldest := oldestLog.value;
    }
    for i := 0 to |rows|
      invariant oldest <= end && (oldestLog.Some? ==> oldest <= oldestLog.value)
      invariant forall j | 0 <= j < i :: oldest <= rows[j].timestamp
      invariant oldest == end || Some(oldest) == oldestLog || exists j :: 0 <= j < i && rows[j].timestamp == oldest
    {
      if rows[i].timestamp < oldest {
        oldest := rows[i].timestamp;
      }
    }
  }

  /** The days of the rollup partitions that a pass creates. */
  method DaysOf(start: Time, end: Time) returns (days: seq<Time>)
    ensures forall t: Time | start <= t < end :: DayOf(t) in days
  {
    days := [];
    var day := DayOf(start);
    while day <= DayOf(end - 1)
      invariant day % DAY == 0
      invariant forall d: Time | DayOf(start) <= d < day && d % DAY == 0 :: d in days
      decreases end - day
    {
      days := days + [day];
      DayAfter(day);
      day := day + DAY;
    }
    forall t: Time | start <= t < end
      ensures DayOf(t) in days
    {
      DayMonotone(start, t);
      DayMonotone(t, end - 1);
    }
  }

  lemma DayAfter(day: Time)
    requires day % DAY == 0
    ensures (day + DAY) % DAY == 0
    ensures forall d: Time | day <= d < day + DAY && d % DAY == 0 :: d == day
  {
  }

  lemma DayMonotone(a: Time, b: Time)
    requires a <= b
    ensures DayOf(a) <= DayOf(b)
  {
  }

  /** A bucket never straddles midnight. */
  lemma BucketInDay(t: Time)
    ensures DayOf(BucketOf(t)) == DayOf(t)
  {
    var d := DayOf(t);
    assert d == DAY * (d / DAY);
    assert d == BUCKET * (288 * (d / DAY));
    assert BucketOf(t) >= d;
    DayIsUnique(BucketOf(t), d);
  }

  lemma DayIsUnique(t: Time, d: Time)
    requires d % DAY == 0 && d <= t < d + DAY
    ensures DayOf(t) == d
  {
  }

  lemma GroupDay(rows: set<Sample>, start: Time, end: Time, k: Key)
    requires Group(Between(rows, start, end), k) != {}
    ensures exists t: Time :: start <= t < end && DayOf(k.bucket) == DayOf(t)
  {
    var x :| x in Group(Between(rows, start, end), k);
    BucketInDay(x.timestamp);
  }

  lemma RowsHaveDays(rows: set<Sample>, start: Time, end: Time, points: map<Key, Stats>, days: seq<Time>)
    requires Grouped(points, Between(rows, start, end))
    requires forall t: Time | start <= t < end :: DayOf(t) in days
    ensures forall k | k in points :: DayOf(k.bucket) in days
  {
    hide Describes, DayOf;
    forall k | k in points
      ensures DayOf(k.bucket) in days
    {
      GroupDay(rows, start, end, k);
    }
  }

  /** The rows that the upsert statement writes. */
  function RowsOf(points: map<Key, Stats>, now: Time): map<Key, Rollup> {
    map k | k in points :: Rollup(points[k], Average(points[k]), now)
  }

  lemma UpsertedFrom(before: map<Key, Rollup>, points: map<Key, Stats>, now: Time, window: set<Sample>)
    requires Grouped(points, window)
    ensures Upserted(before, before + RowsOf(points, now), window)
  {
  }

  lemma RowsHavePartitions(before: map<Key, Rollup>, rollupDays: seq<Time>, points: map<Key, Stats>, now: Time, days: seq<Time>)
    requires forall k | k in points :: DayOf(k.bucket) in days
    requires forall k | k in before :: DayOf(k.bucket) in rollupDays
    ensures forall k | k in before + RowsOf(points, now) :: DayOf(k.bucket) in rollupDays + days
  {
  }

  class Worker {
    const cfg: Config
    var raw: seq<Sample>
    var rawHours: seq<Time>
    var rollups: map<Key, Rollup>
    var rollupDays: seq<Time>
    var rolled: Option<Time>
    ghost var history: set<Sample>
    ghost var late: set<Sample>
    ghost var clock: Time

    ghost function View(): Db
      reads this
    {
      Db(AsSet(raw), rollups, rolled, history, late, clock)
    }

    /** Unique samples, and a partition for every row. */
    ghost predicate Valid()
      reads this
    {
      && NoRepeats(raw)
      && (forall x | x in raw :: HourOf(x.timestamp) in rawHours)
      && (forall k | k in rollups :: DayOf(k.bucket) in rollupDays)
    }

    constructor (cfg: Config)
      ensures Valid() && View() == EMPTY && this.cfg == cfg
    {
      this.cfg := cfg;
      raw, rawHours, rollups, rollupDays, rolled := [], [], map[], [], None;
      history, late, clock := {}, {}, 0;
    }

    /** What ingestion does to the sample table. */
    method Ingest(x: Sample)
      requires Valid() && x !in history && AsSet(raw) <= history
      modifies this
      ensures Valid() && Arrive(cfg, old(View()), View(), x)
      ensures AsSet(raw) <= history
    {
      if HourOf(x.timestamp) !in rawHours {
        rawHours := rawHours + [HourOf(x.timestamp)];
      }
      late := late + if IsLate(cfg, View(), x) then {x} else {};
      assert x !in AsSet(raw);
      raw := raw + [x];
      assert AsSet(raw) == AsSet(old(raw)) + {x};
      history := history + {x};
    }

    /** One maintenance pass; without the advisory lock it does nothing. */
    method RollupOnce(now: Time, locked: bool, oldestLog: Option<Time>) returns (done: bool)
      requires Valid()
      modifies this
      ensures Valid() && done == locked
      ensures !locked ==> View() == old(View())
      ensures locked ==> Pass(cfg, old(View()), View(), now, oldestLog)
    {
      if !locked {
        return false;
      }
      var end := BucketOf(now);
      var start := end;
      match rolled {
        case None =>
          var oldest := OldestOf(raw, oldestLog, end);
          start := BucketOf(oldest);
        case Some(r) =>
          start := (if r <= end then r else end) - Lateness(cfg);
      }
      assert StartsAt(cfg, View(), oldestLog, end, start);
      ghost var before := View();
      Upsert(start, end, now);
      ghost var upserted := rollups;
      rolled := Some(end);
      clock := now;
      ApplyRetention(now, end);
      assert Upserted(before.rollups, upserted, Between(before.raw, start, end));
      return true;
    }

    /** Create the rollup partitions of the window, then recompute the rows of every bucket that has samples in it. */
    method Upsert(start: Time, end: Time, now: Time)
      requires Valid()
      modifies `rollups, `rollupDays
      ensures Valid()
      ensures Upserted(old(rollups), rollups, Between(AsSet(raw), start, end))
    {
      var days := DaysOf(start, end);
      var points := GroupSamples(raw, start, end);
      RowsHaveDays(AsSet(raw), start, end, points, days);
      RowsHavePartitions(rollups, rollupDays, points, now, days);
      UpsertedFrom(rollups, points, now, Between(AsSet(raw), start, end));
      hide Group, Grouped, Between, Describes, NoRepeats, AsSet, Upserted, DayOf, HourOf, RowsOf;
      rollupDays := rollupDays + days;
      rollups := rollups + RowsOf(points, now);
    }

    /** Drop the partitions that have outlived their retention. */
    method ApplyRetention(now: Time, through: Time)
      requires Valid()
      modifies `raw, `rawHours, `rollups, `rollupDays
      ensures Valid()
      ensures AsSet(raw) == set x | x in AsSet(old(raw)) && (HourOf(x.timestamp) + HOUR > now - cfg.rawHours * HOUR - cfg.lateness * MINUTE
                                                            || HourOf(x.timestamp) + HOUR > through)
      ensures Retained(cfg, old(rollups), rollups, now)
      ensures forall k :: k in rollups <==> k in old(rollups) && DayOf(k.bucket) + DAY > now - cfg.rollupDays * DAY
    {
      DropRaw(now, through);
      DropRollups(now);
    }

    method DropRaw(now: Time, through: Time)
      requires Valid()
      modifies `raw, `rawHours
      ensures Valid()
      ensures AsSet(raw) == set x | x in AsSet(old(raw)) && (HourOf(x.timestamp) + HOUR > now - cfg.rawHours * HOUR - cfg.lateness * MINUTE
                                                            || HourOf(x.timestamp) + HOUR > through)
    {
      var hours, kept := rawHours, [];
      for i := 0 to |hours|
        invariant NoRepeats(raw)
        invariant forall x :: x in raw <==> x in old(raw) && (RawExpires(cfg, RawEnd(x.timestamp), now, through) ==> HourOf(x.timestamp) !in hours[..i])
        invariant forall h | h in hours[..i] && !RawExpires(cfg, h + HOUR, now, through) :: h in kept
      {
        assert hours[..i + 1] == hours[..i] + [hours[i]];
        if RawExpires(cfg, hours[i] + HOUR, now, through) {
          WithoutHourKeeps(raw, hours[i]);
          raw := WithoutHour(raw, hours[i]);
        } else {
          kept := kept + [hours[i]];
        }
      }
      assert hours[..|hours|] == hours;
      rawHours := kept;
    }

    method DropRollups(now: Time)
      requires Valid()
      modifies `rollups, `rollupDays
      ensures Valid()
      ensures Retained(cfg, old(rollups), rollups, now)
      ensures forall k :: k in rollups <==> k in old(rollups) && DayOf(k.bucket) + DAY > now - cfg.rollupDays * DAY
    {
      var days, kept := rollupDays, [];
      for i := 0 to |days|
        invariant forall k :: k in rollups <==> k in old(rollups) && (RollupExpires(cfg, k.bucket, now) ==> DayOf(k.bucket) !in days[..i])
        invariant forall k | k in rollups :: rollups[k] == old(rollups)[k]
        invariant forall d | d in days[..i] && !(d + DAY <= now - cfg.rollupDays * DAY) :: d in kept
      {
        assert days[..i + 1] == days[..i] + [days[i]];
        if days[i] + DAY <= now - cfg.rollupDays * DAY {
          rollups := map k | k in rollups && DayOf(k.bucket) != days[i] :: rollups[k];
        } else {
          kept := kept + [days[i]];
        }
      }
      assert days[..|days|] == days;
      rollupDays := kept;
    }
  }

  function Average(p: Stats): real {
    if p.count == 0 then 0.0 else p.sum / p.count as real
  }
}

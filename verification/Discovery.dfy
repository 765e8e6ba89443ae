/**
 * Process discovery: `assign_service` and `DiscoveryState.reconcile` of
 * agent/src/temporalrca_agent/discovery.py. The changes it reports replay to the current associations.
 */
module Discovery {
  import opened Contracts
  import opened ProcessIdentity

  datatype Process = Process(pid: nat, ticks: nat, cgroup: string, executable: string, command: string)

  datatype Kind = Started | AssociationChanged | Stopped

  datatype Change = Change(identity: Identity, previous: Option<string>, service: Option<string>, kind: Kind)

  /** What one scan says about one process. */
  datatype Entry = Entry(identity: Identity, service: Option<string>)

  type Associations = map<Identity, Option<string>>

  // ----- Rules -----

  datatype Rule = Rule(service: string, name: nat)

  /** `matching` stands for `matches`: the unit, executable, command, pid file and cgroup tests of a rule. */
  function ServiceOf(rules: seq<Rule>, matching: (Rule, Process) -> bool, process: Process): Option<string> {
    if rules == [] then None
    else if matching(rules[0], process) then Some(rules[0].service)
    else ServiceOf(rules[1..], matching, process)
  }

  /** The order of the rules is their precedence. */
  lemma {:induction false} FirstMatchWins(rules: seq<Rule>, matching: (Rule, Process) -> bool, process: Process)
    ensures ServiceOf(rules, matching, process).None? <==> forall r | r in rules :: !matching(r, process)
    ensures forall k | 0 <= k < |rules| && matching(rules[k], process) && (forall j | 0 <= j < k :: !matching(rules[j], process)) ::
              ServiceOf(rules, matching, process) == Some(rules[k].service)
  {
    if rules != [] && !matching(rules[0], process) {
      FirstMatchWins(rules[1..], matching, process);
      assert forall k | 0 < k < |rules| :: rules[k] == rules[1..][k - 1];
      forall k | 0 <= k < |rules| && matching(rules[k], process) && (forall j | 0 <= j < k :: !matching(rules[j], process))
        ensures ServiceOf(rules, matching, process) == Some(rules[k].service)
      {
        assert forall j | 0 <= j < k - 1 :: rules[1..][j] == rules[j + 1];
      }
    }
  }

  method AssignService(rules: seq<Rule>, matching: (Rule, Process) -> bool, process: Process) returns (service: Option<string>)
    ensures service == ServiceOf(rules, matching, process)
  {
    for i := 0 to |rules|
      invariant ServiceOf(rules, matching, process) == ServiceOf(rules[i..], matching, process)
    {
      if matching(rules[i], process) {
        return Some(rules[i].service);
      }
    }
    service := None;
  }

  // ----- One reconcile -----

  /** The dictionary of one scan: for a repeated key the last service, in the place of the first. */
  function Current(entries: seq<Entry>): Associations {
    if entries == [] then map[]
    else
      var last := entries[|entries| - 1];
      Current(entries[..|entries| - 1])[last.identity := last.service]
  }

  function OrderOf(entries: seq<Entry>): seq<Identity> {
    if entries == [] then []
    else
      var before, last := entries[..|entries| - 1], entries[|entries| - 1];
      OrderOf(before) + if last.identity in Current(before) then [] else [last.identity]
  }

  function Difference(was: Associations, e: Entry): seq<Change> {
    if e.identity !in was then [Change(e.identity, None, e.service, Started)]
    else if was[e.identity] != e.service then [Change(e.identity, was[e.identity], e.service, AssociationChanged)]
    else []
  }

  function Appeared(was: Associations, entries: seq<Entry>): seq<Change> {
    if entries == [] then [] else Appeared(was, entries[..|entries| - 1]) + Difference(was, entries[|entries| - 1])
  }

  function Vanished(was: Associations, order: seq<Identity>, current: Associations): seq<Change>
    requires forall id | id in order :: id in was
  {
    if order == [] then []
    else
      var last := order[|order| - 1];
      Vanished(was, order[..|order| - 1], current) + if last in current then [] else [Change(last, was[last], None, Stopped)]
  }

  function Changes(was: Associations, order: seq<Identity>, entries: seq<Entry>): seq<Change>
    requires forall id | id in order :: id in was
  {
    Appeared(was, entries) + Vanished(was, order, Current(entries))
  }

  // ----- Replay -----

  function ReplayOne(a: Associations, c: Change): Associations {
    if c.kind == Stopped then a - {c.identity} else a[c.identity := c.service]
  }

  function Replay(a: Associations, changes: seq<Change>): Associations {
    if changes == [] then a else ReplayOne(Replay(a, changes[..|changes| - 1]), changes[|changes| - 1])
  }

  lemma {:induction false} ReplayJoin(a: Associations, c: seq<Change>, d: seq<Change>)
    ensures Replay(a, c + d) == Replay(Replay(a, c), d)
  {
    if d == [] {
      assert c + d == c;
    } else {
      ReplayJoin(a, c, d[..|d| - 1]);
      assert (c + d)[..|c + d| - 1] == c + d[..|d| - 1];
    }
  }

  ghost predicate Differs(was: Associations, entries: seq<Entry>, id: Identity)
    requires id in was
  {
    exists i :: 0 <= i < |entries| && entries[i].identity == id && entries[i].service != was[id]
  }

  /** No process is seen to change and then, later in the same scan, as it was before. */
  ghost predicate Steady(was: Associations, entries: seq<Entry>) {
    forall id | id in was && id in Current(entries) && Current(entries)[id] == was[id] :: !Differs(was, entries, id)
  }

  /** What the first loop's changes replay to. */
  ghost predicate Follows(was: Associations, entries: seq<Entry>, now: Associations) {
    && now.Keys == was.Keys + Current(entries).Keys
    && (forall id | id in Current(entries) && id !in was :: now[id] == Current(entries)[id])
    && (forall id | id in was :: now[id] == was[id] <==> !Differs(was, entries, id))
    && (forall id | id in was && id in Current(entries) && Current(entries)[id] != was[id] :: now[id] == Current(entries)[id])
  }

  lemma FollowsStep(was: Associations, entries: seq<Entry>, e: Entry, before: Associations)
    requires Follows(was, entries, before) && Current(entries + [e]) == Current(entries)[e.identity := e.service]
    ensures Follows(was, entries + [e], if e.identity !in was || was[e.identity] != e.service then before[e.identity := e.service] else before)
  {
  }

  lemma {:induction false} AppearedFollows(was: Associations, entries: seq<Entry>)
    ensures Follows(was, entries, Replay(was, Appeared(was, entries)))
  {
    if entries != [] {
      var n := |entries| - 1;
      assert entries == entries[..n] + [entries[n]];
      var before := Replay(was, Appeared(was, entries[..n]));
      AppearedFollows(was, entries[..n]);
      ReplayJoin(was, Appeared(was, entries[..n]), Difference(was, entries[n]));
      OneDifference(was, before, entries[n]);
      hide Follows, Replay, Difference;
      FollowsStep(was, entries[..n], entries[n], before);
    }
  }

  lemma OneDifference(was: Associations, before: Associations, e: Entry)
    ensures Replay(before, Difference(was, e)) == if e.identity !in was || was[e.identity] != e.service then before[e.identity := e.service] else before
  {
  }

  lemma {:induction false} VanishedRemoves(was: Associations, order: seq<Identity>, current: Associations, a: Associations)
    requires forall id | id in order :: id in was
    ensures var b := Replay(a, Vanished(was, order, current));
            b.Keys == (set id | id in a && (id in order ==> id in current)) && forall id | id in b :: b[id] == a[id]
  {
    if order != [] {
      var n := |order| - 1;
      var last := order[n];
      assert order == order[..n] + [last];
      VanishedRemoves(was, order[..n], current, a);
      var before := Vanished(was, order[..n], current);
      if last in current {
        assert before + [] == before;
      } else {
        assert (before + [Change(last, was[last], None, Stopped)])[..|before|] == before;
      }
    }
  }

  /** The keys of the dictionary, in its order. */
  ghost predicate Orders(order: seq<Identity>, a: Associations) {
    (forall id :: id in order <==> id in a) && forall i, j | 0 <= i < j < |order| :: order[i] != order[j]
  }

  /** The changes of a scan replay to the new associations exactly when the scan is steady. */
  lemma ReplayIsCurrent(was: Associations, order: seq<Identity>, entries: seq<Entry>)
    requires Orders(order, was)
    ensures Replay(was, Changes(was, order, entries)) == Current(entries) <==> Steady(was, entries)
  {
    hide Replay, Appeared, Vanished, Current, Differs;
    var middle := Replay(was, Appeared(was, entries));
    var after := Replay(was, Changes(was, order, entries));
    AppearedFollows(was, entries);
    ReplayJoin(was, Appeared(was, entries), Vanished(was, order, Current(entries)));
    VanishedRemoves(was, order, Current(entries), middle);
    assert after.Keys == Current(entries).Keys;
    if Steady(was, entries) {
      forall id | id in after
        ensures after[id] == Current(entries)[id]
      {
      }
    } else {
      var id :| id in was && id in Current(entries) && Current(entries)[id] == was[id] && Differs(was, entries, id);
      assert after[id] != was[id];
    }
  }

  // ----- The life of an identity -----

  /** The change fits what the log said before: started when absent, then changed or stopped from the current service. */
  predicate Fits(a: Associations, c: Change) {
    match c.kind
    case Started => c.identity !in a && c.previous == None
    case AssociationChanged => c.identity in a && c.previous == a[c.identity] && c.service != c.previous
    case Stopped => c.identity in a && c.previous == a[c.identity] && c.service == None
  }

  predicate Legal(a: Associations, changes: seq<Change>) {
    changes != [] ==>
      var n := |changes| - 1;
      Legal(a, changes[..n]) && Fits(Replay(a, changes[..n]), changes[n])
  }

  lemma {:induction false} LegalJoin(a: Associations, c: seq<Change>, d: seq<Change>)
    requires Legal(a, c) && Legal(Replay(a, c), d)
    ensures Legal(a, c + d)
  {
    if d == [] {
      assert c + d == c;
    } else {
      var n := |d| - 1;
      LegalJoin(a, c, d[..n]);
      assert (c + d)[..|c + d| - 1] == c + d[..n];
      ReplayJoin(a, c, d[..n]);
      hide Fits, Replay;
    }
  }

  /** The entry says what was known. */
  predicate Same(was: Associations, e: Entry) {
    e.identity in was && was[e.identity] == e.service
  }

  /** Only the last entry of an identity says anything new. */
  predicate Clean(was: Associations, entries: seq<Entry>) {
    forall i, j | 0 <= i < j < |entries| && entries[i].identity == entries[j].identity :: Same(was, entries[i])
  }

  /** The operating system lists a process once. */
  predicate Distinct(entries: seq<Entry>) {
    forall i, j | 0 <= i < j < |entries| :: entries[i].identity != entries[j].identity
  }

  /** The last entry of an identity gives its association. */
  lemma {:induction false} CurrentAt(entries: seq<Entry>, i: nat) returns (l: nat)
    requires i < |entries|
    ensures i <= l < |entries| && entries[l].identity == entries[i].identity
    ensures entries[l].identity in Current(entries) && Current(entries)[entries[l].identity] == entries[l].service
    ensures forall k | l < k < |entries| :: entries[k].identity != entries[l].identity
  {
    var n := |entries| - 1;
    if entries[n].identity == entries[i].identity {
      l := n;
    } else {
      l := CurrentAt(entries[..n], i);
      assert forall k | 0 <= k < n :: entries[..n][k] == entries[k];
    }
  }

  lemma {:induction false} CurrentKeys(entries: seq<Entry>)
    ensures forall id :: id in Current(entries) <==> exists i :: 0 <= i < |entries| && entries[i].identity == id
  {
    if entries != [] {
      var n := |entries| - 1;
      CurrentKeys(entries[..n]);
      assert forall i | 0 <= i < n :: entries[..n][i] == entries[i];
      forall id
        ensures id in Current(entries) <==> exists i :: 0 <= i < |entries| && entries[i].identity == id
      {
        if id == entries[n].identity {
          assert entries[n].identity == id;
        }
      }
    }
  }

  lemma CleanIsSteady(was: Associations, entries: seq<Entry>)
    requires Clean(was, entries)
    ensures Steady(was, entries)
  {
    forall i | 0 <= i < |entries| && entries[i].identity in was && entries[i].service != was[entries[i].identity]
      ensures entries[i].identity in Current(entries) && Current(entries)[entries[i].identity] == entries[i].service
    {
      var l := CurrentAt(entries, i);
      assert l == i;
    }
    hide Current;
  }

  lemma {:induction false} AppearedLegal(was: Associations, entries: seq<Entry>)
    requires Clean(was, entries)
    ensures Legal(was, Appeared(was, entries))
  {
    if entries != [] {
      var n := |entries| - 1;
      var e := entries[n];
      var c, d := Appeared(was, entries[..n]), Difference(was, e);
      AppearedLegal(was, entries[..n]);
      assert forall i | 0 <= i < n && entries[..n][i].identity == e.identity :: Same(was, entries[..n][i]);
      UntouchedSoFar(was, entries[..n], e.identity);
      if d != [] {
        OneLegal(Replay(was, c), d[0]);
        assert d == [d[0]];
      }
      hide Fits, Replay, Appeared, Current, Differs;
      LegalJoin(was, c, d);
      assert Appeared(was, entries) == c + d by {
        AppearedOne(was, entries);
      }
    }
  }

  lemma AppearedOne(was: Associations, entries: seq<Entry>)
    requires entries != []
    ensures Appeared(was, entries) == Appeared(was, entries[..|entries| - 1]) + Difference(was, entries[|entries| - 1])
  {
  }

  lemma OneLegal(a: Associations, c: Change)
    requires Fits(a, c)
    ensures Legal(a, [c])
  {
  }

  /** Entries that say nothing new leave an identity as it was. */
  lemma UntouchedSoFar(was: Associations, entries: seq<Entry>, id: Identity)
    requires forall i | 0 <= i < |entries| && entries[i].identity == id :: Same(was, entries[i])
    ensures var now := Replay(was, Appeared(was, entries));
            (id in now <==> id in was) && (id in was ==> now[id] == was[id])
  {
    AppearedFollows(was, entries);
    CurrentKeys(entries);
    hide Replay, Appeared, Current;
  }

  lemma {:induction false} VanishedLegal(was: Associations, order: seq<Identity>, current: Associations, a: Associations)
    requires forall i, j | 0 <= i < j < |order| :: order[i] != order[j]
    requires forall id | id in order :: id in was && (id !in current ==> id in a && a[id] == was[id])
    ensures Legal(a, Vanished(was, order, current))
  {
    if order != [] {
      var n := |order| - 1;
      var last := order[n];
      var c := Vanished(was, order[..n], current);
      VanishedLegal(was, order[..n], current, a);
      VanishedRemoves(was, order[..n], current, a);
      if last in current {
        assert c + [] == c;
      } else {
        var d := Change(last, was[last], None, Stopped);
        assert last in order && last !in order[..n];
        assert last in Replay(a, c);
        OneLegal(Replay(a, c), d);
        LegalJoin(a, c, [d]);
      }
    }
  }

  /** The changes of a clean scan fit. */
  lemma ChangesLegal(was: Associations, order: seq<Identity>, entries: seq<Entry>)
    requires Orders(order, was) && Clean(was, entries)
    ensures Legal(was, Changes(was, order, entries))
  {
    var current := Current(entries);
    AppearedLegal(was, entries);
    forall id | id in was && id !in current
      ensures var now := Replay(was, Appeared(was, entries)); id in now && now[id] == was[id]
    {
      CurrentKeys(entries);
      UntouchedSoFar(was, entries, id);
    }
    hide Replay, Appeared, Current, Legal;
    VanishedLegal(was, order, current, Replay(was, Appeared(was, entries)));
    LegalJoin(was, Appeared(was, entries), Vanished(was, order, current));
  }

  lemma {:induction false} LegalSplit(a: Associations, c: seq<Change>, d: seq<Change>)
    requires Legal(a, c + d)
    ensures Legal(a, c) && Legal(Replay(a, c), d)
  {
    if d == [] {
      assert c + d == c;
    } else {
      var n := |d| - 1;
      assert (c + d)[..|c + d| - 1] == c + d[..n];
      LegalSplit(a, c, d[..n]);
      ReplayJoin(a, c, d[..n]);
      hide Fits, Replay;
    }
  }

  lemma SecondMisfits(was: Associations, entries: seq<Entry>, i: nat, e: Entry)
    requires i < |entries| && entries[i].identity == e.identity && !Same(was, entries[i]) && !Same(was, e)
    ensures !Legal(Replay(was, Appeared(was, entries)), Difference(was, e))
  {
    var now, d := Replay(was, Appeared(was, entries)), Difference(was, e);
    AppearedFollows(was, entries);
    CurrentKeys(entries);
    assert e.identity in was ==> Differs(was, entries, e.identity);
    assert d == [d[0]] && d[..0] == [];
    assert Replay(now, d[..0]) == now;
    hide Appeared, Current;
  }

  /** A second record of one identity in one scan does not fit, as both compare with what was known before the scan. */
  lemma {:induction false} TwoRecords(was: Associations, entries: seq<Entry>, i: nat, j: nat)
    requires i < j < |entries| && entries[i].identity == entries[j].identity && !Same(was, entries[i]) && !Same(was, entries[j])
    ensures !Legal(was, Appeared(was, entries))
  {
    var n := |entries| - 1;
    var c, d := Appeared(was, entries[..n]), Difference(was, entries[n]);
    if j < n {
      TwoRecords(was, entries[..n], i, j);
    } else {
      SecondMisfits(was, entries[..n], i, entries[n]);
    }
    hide Legal, Replay, Difference, Same;
    if Legal(was, c + d) {
      LegalSplit(was, c, d);
    }
  }

  lemma UncleanFails(was: Associations, entries: seq<Entry>)
    requires !Clean(was, entries)
    ensures !Steady(was, entries) || !Legal(was, Appeared(was, entries))
  {
    hide Legal, Appeared, Current;
    var i, j :| 0 <= i < j < |entries| && entries[i].identity == entries[j].identity && !Same(was, entries[i]);
    var l := CurrentAt(entries, j);
    if Same(was, entries[l]) {
      assert Differs(was, entries, entries[i].identity);
    } else {
      TwoRecords(was, entries, i, l);
    }
  }

  /** The changes of a scan replay to the new associations, each fitting those before it, exactly when the scan is clean. */
  lemma ReplaysLegally(was: Associations, order: seq<Identity>, entries: seq<Entry>)
    requires Orders(order, was)
    ensures Replay(was, Changes(was, order, entries)) == Current(entries) && Legal(was, Changes(was, order, entries)) <==> Clean(was, entries)
  {
    hide Legal, Replay, Appeared, Vanished, Current;
    ReplayIsCurrent(was, order, entries);
    if Clean(was, entries) {
      CleanIsSteady(was, entries);
      ChangesLegal(was, order, entries);
    } else {
      UncleanFails(was, entries);
      if Legal(was, Changes(was, order, entries)) {
        LegalSplit(was, Appeared(was, entries), Vanished(was, order, Current(entries)));
      }
    }
  }

  // ----- Runs -----

  lemma {:induction false} OrderIsKeys(entries: seq<Entry>)
    ensures Orders(OrderOf(entries), Current(entries))
  {
    if entries != [] {
      OrderIsKeys(entries[..|entries| - 1]);
    }
  }

  function Known(scans: seq<seq<Entry>>): Associations {
    if scans == [] then map[] else Current(scans[|scans| - 1])
  }

  function KnownOrder(scans: seq<seq<Entry>>): (order: seq<Identity>)
    ensures Orders(order, Known(scans))
  {
    if scans == [] then []
    else
      OrderIsKeys(scans[|scans| - 1]);
      OrderOf(scans[|scans| - 1])
  }

  /** All records since the start. */
  function Log(scans: seq<seq<Entry>>): seq<Change> {
    if scans == [] then []
    else
      var before := scans[..|scans| - 1];
      Log(before) + Changes(Known(before), KnownOrder(before), scans[|scans| - 1])
  }

  /** Every scan is clean against the one before it. */
  predicate CleanRun(scans: seq<seq<Entry>>) {
    scans != [] ==> CleanRun(scans[..|scans| - 1]) && Clean(Known(scans[..|scans| - 1]), scans[|scans| - 1])
  }

  /** At every point of the run the records so far reconstruct the associations, and the last ones fit those before them. */
  predicate Faithful(scans: seq<seq<Entry>>) {
    && Replay(map[], Log(scans)) == Known(scans)
    && (scans != [] ==> Faithful(scans[..|scans| - 1]) && Legal(map[], Log(scans)))
  }

  /**
   * Over any run, the records alone reconstruct the associations after every scan, each record fitting those
   * before it, exactly when every scan is clean.
   */
  lemma {:induction false} LogReplays(scans: seq<seq<Entry>>)
    ensures Faithful(scans) <==> CleanRun(scans)
    ensures CleanRun(scans) ==> Replay(map[], Log(scans)) == Known(scans) && Legal(map[], Log(scans))
  {
    if scans != [] {
      var before, last := scans[..|scans| - 1], scans[|scans| - 1];
      var changes := Changes(Known(before), KnownOrder(before), last);
      LogReplays(before);
      ReplaysLegally(Known(before), KnownOrder(before), last);
      hide Replay, Legal, Changes, Current, Clean;
      ReplayJoin(map[], Log(before), changes);
      if Legal(map[], Log(scans)) {
        LegalSplit(map[], Log(before), changes);
      }
      if CleanRun(scans) {
        LegalJoin(map[], Log(before), changes);
      }
    }
  }

  /** A scan that lists a new process twice breaks the log. */
  lemma ListedTwice(e: Entry, f: Entry)
    requires e.identity == f.identity
    ensures !Faithful([[e, f]])
  {
    LogReplays([[e, f]]);
    assert [[e, f]][..0] == [];
    assert !Clean(map[], [e, f]) by {
      assert [e, f][0].identity == [e, f][1].identity;
    }
  }

  /** Scans that list each process once are clean, whatever they say. */
  lemma {:induction false} DistinctIsClean(scans: seq<seq<Entry>>)
    requires forall i | 0 <= i < |scans| :: Distinct(scans[i])
    ensures CleanRun(scans)
  {
    if scans != [] {
      DistinctIsClean(scans[..|scans| - 1]);
    }
  }

  predicate Quiet(changes: seq<Change>, i: nat, j: nat, id: Identity)
    requires i <= j <= |changes|
  {
    forall k | i <= k < j :: changes[k].identity != id
  }

  lemma {:induction false} QuietKeeps(a: Associations, changes: seq<Change>, i: nat, j: nat, id: Identity)
    requires i <= j <= |changes| && Quiet(changes, i, j, id)
    ensures var b, c := Replay(a, changes[..i]), Replay(a, changes[..j]);
            (id in b <==> id in c) && (id in b ==> b[id] == c[id])
  {
    if i < j {
      QuietKeeps(a, changes, i, j - 1, id);
      assert changes[..j][..j - 1] == changes[..j - 1];
    }
  }

  lemma {:induction false} LegalAt(a: Associations, changes: seq<Change>, j: nat)
    requires Legal(a, changes) && j < |changes|
    ensures Fits(Replay(a, changes[..j]), changes[j])
  {
    if j < |changes| - 1 {
      LegalAt(a, changes[..|changes| - 1], j);
      assert changes[..|changes| - 1][..j] == changes[..j];
    }
  }

  /** The next record of the same identity, and what it has to say. */
  predicate Succeeds(c: Change, d: Change) {
    if c.kind == Stopped then d.kind == Started
    else d.previous == c.service && (d.kind == Stopped || (d.kind == AssociationChanged && d.service != c.service))
  }

  lemma FirstRecord(log: seq<Change>, id: Identity, j: nat)
    requires Legal(map[], log) && j < |log| && log[j].identity == id && Quiet(log, 0, j, id)
    ensures log[j].kind == Started
  {
    LegalAt(map[], log, j);
    QuietKeeps(map[], log, 0, j, id);
    assert log[..0] == [];
    assert Replay(map[], log[..0]) == map[];
    hide Replay, Legal, Quiet;
  }

  lemma NextRecord(log: seq<Change>, id: Identity, i: nat, j: nat)
    requires Legal(map[], log) && i < j < |log| && log[i].identity == log[j].identity == id && Quiet(log, i + 1, j, id)
    ensures Succeeds(log[i], log[j])
  {
    LegalAt(map[], log, j);
    QuietKeeps(map[], log, i + 1, j, id);
    assert log[..i + 1][..i] == log[..i];
    assert Replay(map[], log[..i + 1]) == ReplayOne(Replay(map[], log[..i]), log[i]);
    hide Replay, Legal, Quiet;
  }

  /** The records of one identity are cycles: started, any number of changes, stopped. */
  lemma RecordsCycle(scans: seq<seq<Entry>>, id: Identity, j: nat)
    requires CleanRun(scans) && j < |Log(scans)| && Log(scans)[j].identity == id
    ensures var log := Log(scans);
            && (Quiet(log, 0, j, id) ==> log[j].kind == Started)
            && (forall i: nat | i < j && log[i].identity == id && Quiet(log, i + 1, j, id) :: Succeeds(log[i], log[j]))
  {
    var log := Log(scans);
    LogReplays(scans);
    hide Log, CleanRun, Faithful, Replay, Legal, Quiet, Succeeds;
    if Quiet(log, 0, j, id) {
      FirstRecord(log, id, j);
    }
    forall i: nat | i < j && log[i].identity == id && Quiet(log, i + 1, j, id)
      ensures Succeeds(log[i], log[j])
    {
      NextRecord(log, id, i, j);
    }
  }

  lemma {:induction false} DifferenceAppears(was: Associations, entries: seq<Entry>, i: nat)
    requires i < |entries|
    ensures forall c | c in Difference(was, entries[i]) :: c in Appeared(was, entries)
  {
    if i < |entries| - 1 {
      DifferenceAppears(was, entries[..|entries| - 1], i);
    }
  }

  lemma {:induction false} GoneVanishes(was: Associations, order: seq<Identity>, current: Associations, id: Identity)
    requires (forall o | o in order :: o in was) && id in order && id !in current
    ensures Change(id, was[id], None, Stopped) in Vanished(was, order, current)
  {
    if order[|order| - 1] != id {
      GoneVanishes(was, order[..|order| - 1], current, id);
    }
  }

  /** A pid that comes back with other start ticks is another process: the old one stops and a new one starts. */
  lemma PidReuse(was: Associations, order: seq<Identity>, entries: seq<Entry>, i: nat, before: Identity)
    requires Orders(order, was) && i < |entries| && before in was
    requires before.pid == entries[i].identity.pid && before != entries[i].identity && entries[i].identity !in was
    requires forall j | 0 <= j < |entries| && entries[j].identity.pid == before.pid :: j == i
    ensures Change(before, was[before], None, Stopped) in Changes(was, order, entries)
    ensures Change(entries[i].identity, None, entries[i].service, Started) in Changes(was, order, entries)
  {
    CurrentKeys(entries);
    GoneVanishes(was, order, Current(entries), before);
    DifferenceAppears(was, entries, i);
    assert Change(entries[i].identity, None, entries[i].service, Started) in Difference(was, entries[i]);
  }

  // ----- The order of the records -----

  /** Records i and j speak of identities that are listed in this order. */
  predicate ListedInOrder(listed: seq<Identity>, changes: seq<Change>) {
    && (forall i | 0 <= i < |changes| :: changes[i].identity in listed)
    && forall i, j | 0 <= i < j < |changes| :: Precedes(listed, changes[i].identity, changes[j].identity)
  }

  predicate Precedes(listed: seq<Identity>, a: Identity, b: Identity) {
    exists p, q :: 0 <= p < q < |listed| && listed[p] == a && listed[q] == b
  }

  lemma ListedMore(listed: seq<Identity>, changes: seq<Change>, id: Identity, more: seq<Change>)
    requires ListedInOrder(listed, changes) && |more| <= 1 && forall c | c in more :: c.identity == id
    ensures ListedInOrder(listed + [id], changes + more)
  {
    var after, all := listed + [id], changes + more;
    assert after[|listed|] == id;
    assert forall p | 0 <= p < |listed| :: after[p] == listed[p];
    forall i | 0 <= i < |all|
      ensures all[i].identity in after
    {
      if i < |changes| {
        assert all[i] == changes[i];
      } else {
        assert all[i] in more;
      }
    }
    forall i, j | 0 <= i < j < |all|
      ensures Precedes(after, all[i].identity, all[j].identity)
    {
      assert all[i] == changes[i];
      if j < |changes| {
        var p, q :| 0 <= p < q < |listed| && listed[p] == changes[i].identity && listed[q] == changes[j].identity;
        assert after[p] == all[i].identity && after[q] == all[j].identity;
      } else {
        assert all[j] in more;
        var p :| 0 <= p < |listed| && listed[p] == changes[i].identity;
        assert after[p] == all[i].identity && after[|listed|] == all[j].identity;
      }
    }
  }

  function IdsOf(entries: seq<Entry>): seq<Identity> {
    seq(|entries|, i requires 0 <= i < |entries| => entries[i].identity)
  }

  lemma {:induction false} AppearedInOrder(was: Associations, entries: seq<Entry>)
    ensures ListedInOrder(IdsOf(entries), Appeared(was, entries)) && forall c | c in Appeared(was, entries) :: c.kind != Stopped
  {
    if entries != [] {
      var n := |entries| - 1;
      AppearedInOrder(was, entries[..n]);
      assert IdsOf(entries) == IdsOf(entries[..n]) + [entries[n].identity];
      hide ListedInOrder, IdsOf;
      ListedMore(IdsOf(entries[..n]), Appeared(was, entries[..n]), entries[n].identity, Difference(was, entries[n]));
    }
  }

  lemma {:induction false} VanishedInOrder(was: Associations, order: seq<Identity>, current: Associations)
    requires forall id | id in order :: id in was
    ensures ListedInOrder(order, Vanished(was, order, current)) && forall c | c in Vanished(was, order, current) :: c.kind == Stopped
  {
    if order != [] {
      var n := |order| - 1;
      var last := order[n];
      assert order == order[..n] + [last];
      VanishedInOrder(was, order[..n], current);
      hide ListedInOrder;
      ListedMore(order[..n], Vanished(was, order[..n], current), last, if last in current then [] else [Change(last, was[last], None, Stopped)]);
    }
  }

  predicate SeenBefore(entries: seq<Entry>, a: Identity, b: Identity) {
    exists p :: 0 <= p < |entries| && entries[p].identity == a && b !in IdsOf(entries[..p + 1])
  }

  lemma SeenBeforeMore(before: seq<Entry>, e: Entry, a: Identity, b: Identity)
    requires SeenBefore(before, a, b)
    ensures SeenBefore(before + [e], a, b)
  {
    var p :| 0 <= p < |before| && before[p].identity == a && b !in IdsOf(before[..p + 1]);
    assert (before + [e])[..p + 1] == before[..p + 1];
    assert (before + [e])[p].identity == a;
  }

  lemma NewIsSeenLater(before: seq<Entry>, e: Entry, a: Identity)
    requires a in Current(before) && e.identity !in Current(before)
    ensures SeenBefore(before + [e], a, e.identity)
  {
    CurrentKeys(before);
    hide Current;
    var p :| 0 <= p < |before| && before[p].identity == a;
    assert (before + [e])[..p + 1] == before[..p + 1];
    assert forall k | 0 <= k < p + 1 :: IdsOf(before[..p + 1])[k] == before[k].identity;
    assert (before + [e])[p].identity == a;
  }

  /** The keys of the dictionary are in the order of first sight. */
  lemma {:induction false} FirstSightOrder(entries: seq<Entry>)
    ensures forall i, j | 0 <= i < j < |OrderOf(entries)| :: SeenBefore(entries, OrderOf(entries)[i], OrderOf(entries)[j])
  {
    if entries != [] {
      var n := |entries| - 1;
      var before := entries[..n];
      assert entries == before + [entries[n]];
      FirstSightOrder(before);
      OrderIsKeys(before);
      hide SeenBefore, Current;
      forall i, j | 0 <= i < j < |OrderOf(entries)|
        ensures SeenBefore(entries, OrderOf(entries)[i], OrderOf(entries)[j])
      {
        if j < |OrderOf(before)| {
          SeenBeforeMore(before, entries[n], OrderOf(before)[i], OrderOf(before)[j]);
        } else {
          assert OrderOf(before)[i] in OrderOf(before);
          NewIsSeenLater(before, entries[n], OrderOf(before)[i]);
        }
      }
    }
  }

  /**
   * In the records of a scan those of the stopped processes come last. The others are in the order of the scan, these
   * in the order in which the scan before first saw them.
   */
  lemma RecordsInOrder(before: seq<Entry>, entries: seq<Entry>) returns (k: nat)
    ensures Orders(OrderOf(before), Current(before))
    ensures var changes := Changes(Current(before), OrderOf(before), entries);
            && k <= |changes|
            && ListedInOrder(IdsOf(entries), changes[..k]) && (forall c | c in changes[..k] :: c.kind != Stopped)
            && ListedInOrder(OrderOf(before), changes[k..]) && (forall c | c in changes[k..] :: c.kind == Stopped)
  {
    OrderIsKeys(before);
    var was, order := Current(before), OrderOf(before);
    AppearedInOrder(was, entries);
    VanishedInOrder(was, order, Current(entries));
    k := |Appeared(was, entries)|;
    hide ListedInOrder;
    assert Changes(was, order, entries)[..k] == Appeared(was, entries);
    assert Changes(was, order, entries)[k..] == Vanished(was, order, Current(entries));
  }

  // ----- The state -----

  function EntriesOf(boot: string, processes: seq<Process>, rules: seq<Rule>, matching: (Rule, Process) -> bool): seq<Entry> {
    seq(|processes|, i requires 0 <= i < |processes| =>
      Entry(Identity(boot, processes[i].pid, processes[i].ticks), ServiceOf(rules, matching, processes[i])))
  }

  /** Two listed processes have one key exactly if pid and start ticks agree. */
  lemma OneKeyIff(boot: string, processes: seq<Process>, rules: seq<Rule>, matching: (Rule, Process) -> bool, i: nat, j: nat)
    requires i < |processes| && j < |processes|
    ensures var entries := EntriesOf(boot, processes, rules, matching);
            && |entries| == |processes|
            && (Key(entries[i].identity) == Key(entries[j].identity)
                <==> processes[i].pid == processes[j].pid && processes[i].ticks == processes[j].ticks)
  {
    var entries := EntriesOf(boot, processes, rules, matching);
    hide Key;
    if Key(entries[i].identity) == Key(entries[j].identity) {
      KeyIsInjective(entries[i].identity, entries[j].identity);
    }
  }

  /**
   * A pid that comes back with other start ticks, over two scans of processes: the old process is recorded as
   * stopped with its service, the new one as started with its own.
   */
  lemma PidReused(boot: string, before: seq<Process>, after: seq<Process>, rules: seq<Rule>, matching: (Rule, Process) -> bool, i: nat, j: nat)
    requires i < |before| && j < |after| && before[i].pid == after[j].pid && before[i].ticks != after[j].ticks
    requires forall p | p in after :: !(p.pid == before[i].pid && p.ticks == before[i].ticks)
    requires forall p | p in before :: !(p.pid == after[j].pid && p.ticks == after[j].ticks)
    requires forall k | i < k < |before| :: !(before[k].pid == before[i].pid && before[k].ticks == before[i].ticks)
    ensures var first, second := EntriesOf(boot, before, rules, matching), EntriesOf(boot, after, rules, matching);
            && Orders(OrderOf(first), Current(first))
            && var changes := Changes(Current(first), OrderOf(first), second);
               && Change(Identity(boot, before[i].pid, before[i].ticks), ServiceOf(rules, matching, before[i]), None, Stopped) in changes
               && Change(Identity(boot, after[j].pid, after[j].ticks), None, ServiceOf(rules, matching, after[j]), Started) in changes
  {
    hide ServiceOf, Appeared, Vanished, Current, OrderOf;
    var first, second := EntriesOf(boot, before, rules, matching), EntriesOf(boot, after, rules, matching);
    var was, order := Current(first), OrderOf(first);
    OrderIsKeys(first);
    CurrentKeys(first);
    CurrentKeys(second);
    var l := CurrentAt(first, i);
    assert l == i;
    assert forall k | 0 <= k < |second| :: after[k] in after;
    assert forall k | 0 <= k < |first| :: before[k] in before;
    GoneVanishes(was, order, Current(second), first[i].identity);
    DifferenceAppears(was, second, j);
    assert Change(second[j].identity, None, second[j].service, Started) in Difference(was, second[j]);
  }

  class DiscoveryState {
    var associations: Associations
    var order: seq<Identity>

    ghost predicate Valid()
      reads this
    {
      Orders(order, associations)
    }

    constructor ()
      ensures Valid() && associations == Known([]) && order == KnownOrder([])
    {
      associations, order := map[], [];
    }

    method Reconcile(boot: string, processes: seq<Process>, rules: seq<Rule>, matching: (Rule, Process) -> bool) returns (changes: seq<Change>)
      requires Valid()
      modifies this
      ensures Valid()
      ensures var entries := EntriesOf(boot, processes, rules, matching);
              && changes == Changes(old(associations), old(order), entries)
              && associations == Current(entries) && order == OrderOf(entries)
    {
      var current, keys, appeared := Scan(associations, boot, processes, rules, matching);
      var vanished := Gone(associations, order, current);
      OrderIsKeys(EntriesOf(boot, processes, rules, matching));
      changes := appeared + vanished;
      associations, order := current, keys;
    }
  }

  /** The loop over the processes. */
  method Scan(was: Associations, boot: string, processes: seq<Process>, rules: seq<Rule>, matching: (Rule, Process) -> bool)
    returns (current: Associations, keys: seq<Identity>, changes: seq<Change>)
    ensures var entries := EntriesOf(boot, processes, rules, matching);
            current == Current(entries) && keys == OrderOf(entries) && changes == Appeared(was, entries)
  {
    ghost var entries := EntriesOf(boot, processes, rules, matching);
    current, keys, changes := map[], [], [];
    for i := 0 to |processes|
      invariant current == Current(entries[..i]) && keys == OrderOf(entries[..i])
      invariant changes == Appeared(was, entries[..i])
    {
      var identity := Identity(boot, processes[i].pid, processes[i].ticks);
      var service := AssignService(rules, matching, processes[i]);
      ScanOne(was, entries, i);
      if identity !in current {
        keys := keys + [identity];
      }
      current := current[identity := service];
      if identity !in was {
        changes := changes + [Change(identity, None, service, Started)];
      } else if was[identity] != service {
        changes := changes + [Change(identity, was[identity], service, AssociationChanged)];
      }
    }
    assert entries[..|processes|] == entries;
  }

  lemma ScanOne(was: Associations, entries: seq<Entry>, i: nat)
    requires i < |entries|
    ensures Current(entries[..i + 1]) == Current(entries[..i])[entries[i].identity := entries[i].service]
    ensures OrderOf(entries[..i + 1]) == OrderOf(entries[..i]) + if entries[i].identity in Current(entries[..i]) then [] else [entries[i].identity]
    ensures Appeared(was, entries[..i + 1]) == Appeared(was, entries[..i]) + Difference(was, entries[i])
  {
    assert entries[..i + 1][..i] == entries[..i];
  }

  /** The loop over the associations that were. */
  method Gone(was: Associations, order: seq<Identity>, current: Associations) returns (changes: seq<Change>)
    requires forall id | id in order :: id in was
    ensures changes == Vanished(was, order, current)
  {
    changes := [];
    for i := 0 to |order|
      invariant changes == Vanished(was, order[..i], current)
    {
      assert order[..i + 1][..i] == order[..i];
      if order[i] !in current {
        changes := changes + [Change(order[i], was[order[i]], None, Stopped)];
      }
    }
    assert order[..|order|] == order;
  }
}

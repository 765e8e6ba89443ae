/**
 * Inventory leases and process identity: `reconcile_inventory` of server/temporalrca_server/api.py and
 * the lease sweep of `rollup_once` in server/temporalrca_server/maintenance.py.
 */
module Inventory {
  import opened Contracts
  import opened ProcessIdentity

  /** What services, containers, processes and dependencies of a host have in common. Times are in seconds. */
  datatype Resource = Resource(name: string, firstSeen: int, lastSeen: int, lease: int, active: bool)

  type Resources = map<string, Resource>

  /** A reported id, or the id that a row gets when its external id is reused; `row` is None before a flush. */
  datatype ExternalId = Reported(name: string) | Retired(row: Option<nat>, name: string)

  /** A process row; its primary key is its index. */
  datatype Process = Process(external: ExternalId, identity: Identity, service: Option<string>, container: Option<string>, r: Resource)

  datatype Link = Link(firstSeen: int, lastSeen: int, active: bool)

  datatype State = State(services: Resources, containers: Resources, processes: seq<Process>, dependencies: Resources,
                         links: map<(string, string), Link>)

  datatype Item = Item(external: string, name: string)

  datatype ProcessItem = ProcessItem(external: string, identity: Identity, name: string, service: Option<string>, container: Option<string>)

  datatype DependencyItem = DependencyItem(item: Item, services: seq<string>)

  datatype Report = Report(now: int, leaseSeconds: nat, services: seq<Item>, containers: seq<Item>,
                           processes: seq<ProcessItem>, dependencies: seq<DependencyItem>)

  /** `UnknownService` is the 422, `Conflict` a violated unique constraint; neither changes a table. */
  datatype Outcome = Accepted | UnknownService | Conflict

  const EMPTY := State(map[], map[], [], map[], map[])

  // ----- Upserts -----

  function Touch(before: Option<Resource>, name: string, now: int, lease: int): Resource {
    Resource(name, if before.Some? then before.value.firstSeen else now, now, lease, true)
  }

  function Upsert(t: Resources, item: Item, now: int, lease: int): Resources {
    t[item.external := Touch(if item.external in t then Some(t[item.external]) else None, item.name, now, lease)]
  }

  function UpsertAll(t: Resources, items: seq<Item>, now: int, lease: int): Resources {
    if items == [] then t else Upsert(UpsertAll(t, items[..|items| - 1], now, lease), items[|items| - 1], now, lease)
  }

  function Externals(items: seq<Item>): set<string> {
    set i | 0 <= i < |items| :: items[i].external
  }

  function Known(name: Option<string>, t: Resources): Option<string> {
    if name.Some? && name.value in t then name else None
  }

  // ----- Processes -----

  /** The row that the dictionary of existing rows gives for a reported id. */
  function RowOf(rows: seq<Process>, name: string): (i: Option<nat>)
    ensures i.Some? ==> i.value < |rows| && rows[i.value].external == Reported(name)
    ensures i.None? ==> forall k | 0 <= k < |rows| :: rows[k].external != Reported(name)
  {
    if rows == [] then None
    else if rows[|rows| - 1].external == Reported(name) then Some(|rows| - 1)
    else RowOf(rows[..|rows| - 1], name)
  }

  function Fresh(s: State, item: ProcessItem, before: Option<Resource>, rep: Report): Process {
    Process(Reported(item.external), item.identity, Known(item.service, s.services), Known(item.container, s.containers),
            Touch(before, item.name, rep.now, rep.now + rep.leaseSeconds))
  }

  /** A reused external id: the old row keeps its history under a new id, and its lease ends. */
  function Retire(rows: seq<Process>, i: nat, flushed: nat, now: int): seq<Process>
    requires i < |rows|
  {
    var name := rows[i].external.name;
    rows[i := rows[i].(external := Retired(if i < flushed then Some(i) else None, name), r := rows[i].r.(active := false, lease := now))]
  }

  /** `flushed` rows had their primary keys before this report. */
  function ProcessStep(s: State, rows: seq<Process>, item: ProcessItem, flushed: nat, rep: Report): seq<Process> {
    match RowOf(rows, item.external)
    case Some(i) =>
      if rows[i].identity == item.identity then rows[i := Fresh(s, item, Some(rows[i].r), rep)]
      else Retire(rows, i, flushed, rep.now) + [Fresh(s, item, None, rep)]
    case None => rows + [Fresh(s, item, None, rep)]
  }

  function ProcessAll(s: State, rows: seq<Process>, items: seq<ProcessItem>, flushed: nat, rep: Report): seq<Process> {
    if items == [] then rows
    else ProcessStep(s, ProcessAll(s, rows, items[..|items| - 1], flushed, rep), items[|items| - 1], flushed, rep)
  }

  /** The two unique constraints of the table. */
  predicate Unique(rows: seq<Process>) {
    forall i, j | 0 <= i < j < |rows| :: rows[i].external != rows[j].external && rows[i].identity != rows[j].identity
  }

  // ----- Dependencies -----

  function Pairs(items: seq<DependencyItem>): set<(string, string)> {
    set i, j | 0 <= i < |items| && 0 <= j < |items[i].services| :: (items[i].services[j], items[i].item.external)
  }

  function PlainItems(items: seq<DependencyItem>): seq<Item> {
    seq(|items|, i requires 0 <= i < |items| => items[i].item)
  }

  predicate ServicesKnown(items: seq<DependencyItem>, services: Resources) {
    forall i, j | 0 <= i < |items| && 0 <= j < |items[i].services| :: items[i].services[j] in services
  }

  function LinkNow(before: map<(string, string), Link>, pair: (string, string), now: int): Link {
    if pair in before then before[pair].(lastSeen := now, active := true) else Link(now, now, true)
  }

  /** Links of this report are touched; others end once the lease of their dependency has. */
  function LinksAfter(links: map<(string, string), Link>, pairs: set<(string, string)>, dependencies: Resources, now: int): map<(string, string), Link> {
    map p | p in links.Keys + pairs ::
      if p in pairs then LinkNow(links, p, now)
      else if p.1 in dependencies && dependencies[p.1].lease <= now then links[p].(active := false)
      else links[p]
  }

  // ----- Expiry -----

  /** In a report a missing row ends when its lease is over, or ends at this moment. */
  function Lapse(r: Resource, included: bool, now: int): Resource {
    if !included && r.lease <= now then r.(active := false) else r
  }

  function LapseAll(t: Resources, included: set<string>, now: int): Resources {
    map k | k in t :: Lapse(t[k], k in included, now)
  }

  predicate Reports(items: seq<ProcessItem>, external: ExternalId) {
    exists i :: 0 <= i < |items| && external == Reported(items[i].external)
  }

  function LapseProcesses(rows: seq<Process>, items: seq<ProcessItem>, now: int): seq<Process> {
    seq(|rows|, i requires 0 <= i < |rows| => rows[i].(r := Lapse(rows[i].r, Reports(items, rows[i].external), now)))
  }

  // ----- The two transactions -----

  /** After the services and the containers. */
  function Based(s: State, rep: Report): State {
    var lease := rep.now + rep.leaseSeconds;
    s.(services := UpsertAll(s.services, rep.services, rep.now, lease), containers := UpsertAll(s.containers, rep.containers, rep.now, lease))
  }

  function Touched(s: State, rep: Report): State {
    var s1 := Based(s, rep);
    var dependencies := UpsertAll(s.dependencies, PlainItems(rep.dependencies), rep.now, rep.now + rep.leaseSeconds);
    s1.(processes := ProcessAll(s1, s.processes, rep.processes, |s.processes|, rep), dependencies := dependencies,
        links := LinksAfter(s.links, Pairs(rep.dependencies), dependencies, rep.now))
  }

  function Lapsed(s: State, rep: Report): State {
    s.(services := LapseAll(s.services, Externals(rep.services), rep.now),
       containers := LapseAll(s.containers, Externals(rep.containers), rep.now),
       processes := LapseProcesses(s.processes, rep.processes, rep.now),
       dependencies := LapseAll(s.dependencies, Externals(PlainItems(rep.dependencies)), rep.now))
  }

  function Reconcile(s: State, rep: Report): (Outcome, State) {
    var touched := Touched(s, rep);
    if !Unique(touched.processes) then (Conflict, s)
    else if !ServicesKnown(rep.dependencies, touched.services) then (UnknownService, s)
    else (Accepted, Lapsed(touched, rep))
  }

  /** The sweep ends only leases that are over. */
  function SweepOne(r: Resource, now: int): Resource {
    if r.active && r.lease < now then r.(active := false) else r
  }

  function SweepAll(t: Resources, now: int): Resources {
    map k | k in t :: SweepOne(t[k], now)
  }

  function Sweep(s: State, now: int): State {
    s.(services := SweepAll(s.services, now), containers := SweepAll(s.containers, now), dependencies := SweepAll(s.dependencies, now),
       processes := seq(|s.processes|, i requires 0 <= i < |s.processes| => s.processes[i].(r := SweepOne(s.processes[i].r, now))))
  }

  datatype Step = Inventoried(rep: Report) | Swept(now: int)

  function Apply(s: State, step: Step): State {
    match step
    case Inventoried(rep) => Reconcile(s, rep).1
    case Swept(now) => Sweep(s, now)
  }

  function Run(s: State, steps: seq<Step>): State {
    if steps == [] then s else Apply(Run(s, steps[..|steps| - 1]), steps[|steps| - 1])
  }

  // ----- Leases -----

  lemma {:induction false} UpsertKeys(t: Resources, items: seq<Item>, now: int, lease: int)
    ensures var u := UpsertAll(t, items, now, lease);
            && u.Keys == t.Keys + Externals(items)
            && (forall k | k in Externals(items) :: u[k].active && u[k].lease == lease && u[k].lastSeen == now
                  && u[k].firstSeen == (if k in t then t[k].firstSeen else now))
            && (forall k | k in t && k !in Externals(items) :: u[k] == t[k])
  {
    if items != [] {
      var n := |items| - 1;
      UpsertKeys(t, items[..n], now, lease);
      assert items == items[..n] + [items[n]];
      ExternalsOne(items[..n], items[n]);
    }
  }

  /** The last item of an id gives its name. */
  lemma {:induction false} UpsertNames(t: Resources, items: seq<Item>, now: int, lease: int, i: nat)
    requires i < |items| && LastOfId(items, i)
    ensures var u := UpsertAll(t, items, now, lease);
            items[i].external in u && u[items[i].external].name == items[i].name
  {
    if i < |items| - 1 {
      UpsertNames(t, items[..|items| - 1], now, lease, i);
    }
  }

  /**
   * Reported rows have the new lease, are active, keep their first sighting and have the name that the
   * report gives last; other rows stay.
   */
  lemma UpsertIs(t: Resources, items: seq<Item>, now: int, lease: int)
    ensures var u := UpsertAll(t, items, now, lease);
            && u.Keys == t.Keys + Externals(items)
            && (forall k | k in Externals(items) :: u[k].active && u[k].lease == lease && u[k].lastSeen == now
                  && u[k].firstSeen == (if k in t then t[k].firstSeen else now))
            && (forall k | k in t && k !in Externals(items) :: u[k] == t[k])
            && (forall i | 0 <= i < |items| && LastOfId(items, i) :: items[i].external in u && u[items[i].external].name == items[i].name)
  {
    UpsertKeys(t, items, now, lease);
    forall i | 0 <= i < |items| && LastOfId(items, i)
      ensures items[i].external in UpsertAll(t, items, now, lease)
      ensures UpsertAll(t, items, now, lease)[items[i].external].name == items[i].name
    {
      UpsertNames(t, items, now, lease, i);
    }
    hide UpsertAll, Externals, LastOfId;
  }

  predicate LastOfId(items: seq<Item>, i: nat)
    requires i < |items|
  {
    forall j | i < j < |items| :: items[j].external != items[i].external
  }

  lemma ExternalsOne(items: seq<Item>, item: Item)
    ensures Externals(items + [item]) == Externals(items) + {item.external}
  {
    var all := items + [item];
    forall x
      ensures x in Externals(all) <==> x in Externals(items) + {item.external}
    {
      if x in Externals(items) {
        var i :| 0 <= i < |items| && items[i].external == x;
        assert all[i].external == x;
      }
      if x == item.external {
        assert all[|items|].external == x;
      }
    }
  }

  ghost predicate LeasesHold(t: Resources, now: int) {
    forall k | k in t && t[k].active :: t[k].lease > now
  }

  lemma LapsedHold(t: Resources, items: seq<Item>, now: int, lease: int)
    requires lease > now
    ensures LeasesHold(LapseAll(UpsertAll(t, items, now, lease), Externals(items), now), now)
  {
    UpsertIs(t, items, now, lease);
  }

  /** A reported id names at most one row. */
  ghost predicate OneEach(rows: seq<Process>) {
    forall i, j | 0 <= i < j < |rows| && rows[i].external == rows[j].external :: rows[i].external.Retired?
  }

  /** A row that answers to an id of the report has its new lease. */
  ghost predicate Leased(rows: seq<Process>, items: seq<ProcessItem>, lease: int) {
    forall k | 0 <= k < |rows| && Reports(items, rows[k].external) :: rows[k].r.active && rows[k].r.lease == lease
  }

  lemma StepLeases(s: State, rows: seq<Process>, items: seq<ProcessItem>, item: ProcessItem, flushed: nat, rep: Report)
    requires OneEach(rows) && Leased(rows, items, rep.now + rep.leaseSeconds)
    ensures var after := ProcessStep(s, rows, item, flushed, rep);
            OneEach(after) && Leased(after, items + [item], rep.now + rep.leaseSeconds)
  {
  }

  lemma {:induction false} ProcessAllLeases(s: State, rows: seq<Process>, items: seq<ProcessItem>, flushed: nat, rep: Report)
    requires OneEach(rows)
    ensures var after := ProcessAll(s, rows, items, flushed, rep);
            OneEach(after) && Leased(after, items, rep.now + rep.leaseSeconds)
  {
    if items != [] {
      var n := |items| - 1;
      assert items == items[..n] + [items[n]];
      ProcessAllLeases(s, rows, items[..n], flushed, rep);
      StepLeases(s, ProcessAll(s, rows, items[..n], flushed, rep), items[..n], items[n], flushed, rep);
    }
  }

  ghost predicate ProcessLeasesHold(rows: seq<Process>, now: int) {
    forall i | 0 <= i < |rows| && rows[i].r.active :: rows[i].r.lease > now
  }

  lemma LapsedProcessesHold(rows: seq<Process>, items: seq<ProcessItem>, now: int, lease: int)
    requires lease > now && Leased(rows, items, lease)
    ensures ProcessLeasesHold(LapseProcesses(rows, items, now), now)
  {
  }

  /** Right after an inventory is accepted, everything active has a lease that is still running. */
  lemma ActiveHasLease(s: State, rep: Report)
    requires rep.leaseSeconds > 0 && Unique(s.processes) && Reconcile(s, rep).0.Accepted?
    ensures var after := Reconcile(s, rep).1;
            && LeasesHold(after.services, rep.now) && LeasesHold(after.containers, rep.now)
            && LeasesHold(after.dependencies, rep.now) && ProcessLeasesHold(after.processes, rep.now)
  {
    hide UpsertAll, LapseAll, ProcessAll, LeasesHold, ProcessLeasesHold, Pairs, PlainItems, LinksAfter, LapseProcesses, Leased, Externals;
    var lease := rep.now + rep.leaseSeconds;
    UniqueIsOneEach(s.processes);
    LapsedHold(s.services, rep.services, rep.now, lease);
    LapsedHold(s.containers, rep.containers, rep.now, lease);
    LapsedHold(s.dependencies, PlainItems(rep.dependencies), rep.now, lease);
    ProcessAllLeases(Based(s, rep), s.processes, rep.processes, |s.processes|, rep);
    hide OneEach, Unique, ServicesKnown;
    LapsedProcessesHold(ProcessAll(Based(s, rep), s.processes, rep.processes, |s.processes|, rep), rep.processes, rep.now, lease);
  }

  // ----- The history of a process -----

  /** A retired row is not active. */
  ghost predicate RetiredRest(rows: seq<Process>) {
    forall i | 0 <= i < |rows| && rows[i].external.Retired? :: !rows[i].r.active
  }

  /** Rows are never removed; a row keeps its identity and first sighting, and its id unless it retires. */
  ghost predicate Continues(before: seq<Process>, after: seq<Process>) {
    && |before| <= |after|
    && forall i | 0 <= i < |before| ::
         && after[i].identity == before[i].identity
         && after[i].r.firstSeen == before[i].r.firstSeen
         && after[i].external.name == before[i].external.name
         && (before[i].external.Retired? ==> after[i].external == before[i].external)
  }

  lemma StepContinues(s: State, rows: seq<Process>, item: ProcessItem, flushed: nat, rep: Report)
    requires RetiredRest(rows)
    ensures RetiredRest(ProcessStep(s, rows, item, flushed, rep)) && Continues(rows, ProcessStep(s, rows, item, flushed, rep))
  {
  }

  lemma ContinuesOn(a: seq<Process>, b: seq<Process>, c: seq<Process>)
    requires Continues(a, b) && Continues(b, c)
    ensures Continues(a, c)
  {
  }

  lemma {:induction false} ProcessAllContinues(s: State, rows: seq<Process>, items: seq<ProcessItem>, flushed: nat, rep: Report)
    requires RetiredRest(rows)
    ensures RetiredRest(ProcessAll(s, rows, items, flushed, rep)) && Continues(rows, ProcessAll(s, rows, items, flushed, rep))
  {
    if items != [] {
      var before := ProcessAll(s, rows, items[..|items| - 1], flushed, rep);
      ProcessAllContinues(s, rows, items[..|items| - 1], flushed, rep);
      StepContinues(s, before, items[|items| - 1], flushed, rep);
      hide RetiredRest, Continues, ProcessStep;
      ContinuesOn(rows, before, ProcessAll(s, rows, items, flushed, rep));
    }
  }

  lemma ReconcileContinues(s: State, rep: Report)
    requires Unique(s.processes) && RetiredRest(s.processes)
    ensures var after := Reconcile(s, rep).1.processes;
            Unique(after) && RetiredRest(after) && Continues(s.processes, after)
  {
    var rows := ProcessAll(Based(s, rep), s.processes, rep.processes, |s.processes|, rep);
    ProcessAllContinues(Based(s, rep), s.processes, rep.processes, |s.processes|, rep);
    LapseContinues(rows, rep.processes, rep.now);
    hide ProcessAll, Based, UpsertAll, LinksAfter, LapseAll, LapseProcesses, RetiredRest, Unique;
    ContinuesOn(s.processes, rows, LapseProcesses(rows, rep.processes, rep.now));
    assert Continues(s.processes, s.processes);
    hide Continues;
  }

  lemma ApplyContinues(s: State, step: Step)
    requires Unique(s.processes) && RetiredRest(s.processes)
    ensures var after := Apply(s, step).processes;
            Unique(after) && RetiredRest(after) && Continues(s.processes, after)
  {
    match step
    case Swept(now) =>
    case Inventoried(rep) => ReconcileContinues(s, rep);
  }

  lemma LapseContinues(rows: seq<Process>, items: seq<ProcessItem>, now: int)
    requires RetiredRest(rows)
    ensures var after := LapseProcesses(rows, items, now);
            RetiredRest(after) && Continues(rows, after) && (Unique(rows) ==> Unique(after))
  {
  }

  /**
   * Over any run of inventories and sweeps, from any point of it: a row keeps the boot, pid and start
   * ticks that it was created with, both unique constraints hold, and what has retired stays retired
   * and inactive.
   */
  lemma {:induction false} ProcessesKeepTheirIdentity(s: State, steps: seq<Step>)
    requires Unique(s.processes) && RetiredRest(s.processes)
    ensures var after := Run(s, steps).processes;
            Unique(after) && RetiredRest(after) && Continues(s.processes, after)
  {
    if steps != [] {
      var before := Run(s, steps[..|steps| - 1]);
      ProcessesKeepTheirIdentity(s, steps[..|steps| - 1]);
      ApplyContinues(before, steps[|steps| - 1]);
      hide Apply, Unique, RetiredRest, Continues;
      ContinuesOn(s.processes, before.processes, Run(s, steps).processes);
    }
  }

  // ----- When an inventory is accepted -----

  predicate DistinctExternals(items: seq<ProcessItem>) {
    forall i, j | 0 <= i < j < |items| :: items[i].external != items[j].external
  }

  /** No two items, and no item and a row, show one identity under two external ids. */
  predicate OneNameEach(rows: seq<Process>, items: seq<ProcessItem>) {
    && (forall i, j | 0 <= i < j < |items| :: items[i].identity != items[j].identity)
    && (forall k, i | 0 <= k < |rows| && 0 <= i < |items| :: rows[k].identity == items[i].identity ==> rows[k].external == Reported(items[i].external))
  }

  /** A row that retired with a primary key carries its own. */
  predicate KeysOwn(rows: seq<Process>) {
    forall k | 0 <= k < |rows| && rows[k].external.Retired? && rows[k].external.row.Some? :: rows[k].external.row == Some(k)
  }

  /** Old rows are as they were, or retired because the report reuses their id. */
  ghost predicate OldPlaced(before: seq<Process>, rows: seq<Process>, items: seq<ProcessItem>) {
    && |before| <= |rows| && KeysOwn(rows)
    && forall k | 0 <= k < |before| ::
         && rows[k].identity == before[k].identity
         && (rows[k].external == before[k].external || (rows[k].external.Retired? && rows[k].external.row.Some? && Reused(before[k], items)))
  }

  /** The report shows another process under the id of this row. */
  predicate Reused(row: Process, items: seq<ProcessItem>) {
    exists i :: 0 <= i < |items| && row.external == Reported(items[i].external) && row.identity != items[i].identity
  }

  /** New rows are items under their ids. */
  ghost predicate NewPlaced(flushed: nat, rows: seq<Process>, items: seq<ProcessItem>) {
    forall k | flushed <= k < |rows| :: FromItem(rows[k], items)
  }

  predicate FromItem(row: Process, items: seq<ProcessItem>) {
    exists i :: 0 <= i < |items| && IsAt(row, items[i])
  }

  /** The row records the item: its id and identity, references that resolve, and a new lease. */
  predicate Shows(s: State, rep: Report, row: Process, item: ProcessItem) {
    && IsAt(row, item)
    && (row.service == if item.service.Some? && item.service.value in s.services then item.service else None)
    && (row.container == if item.container.Some? && item.container.value in s.containers then item.container else None)
    && row.r.name == item.name && row.r.lastSeen == rep.now && row.r.active && row.r.lease == rep.now + rep.leaseSeconds
  }

  predicate HasRow(s: State, rep: Report, rows: seq<Process>, item: ProcessItem) {
    exists k :: 0 <= k < |rows| && Shows(s, rep, rows[k], item)
  }

  /** The last item of each id is recorded. */
  ghost predicate Recorded(s: State, rep: Report, rows: seq<Process>, items: seq<ProcessItem>) {
    forall i | 0 <= i < |items| && LastOfExternal(items, i) :: HasRow(s, rep, rows, items[i])
  }

  predicate LastOfExternal(items: seq<ProcessItem>, i: nat)
    requires i < |items|
  {
    forall j | i < j < |items| :: items[j].external != items[i].external
  }

  predicate IsAt(row: Process, item: ProcessItem) {
    row.external == Reported(item.external) && row.identity == item.identity
  }

  lemma ReportsOne(items: seq<ProcessItem>, item: ProcessItem, external: ExternalId)
    ensures Reports(items + [item], external) <==> Reports(items, external) || external == Reported(item.external)
  {
    var all := items + [item];
    assert all[|items|] == item;
    assert forall i | 0 <= i < |items| :: all[i] == items[i];
  }

  /** An id that the report has not used yet can only name an old row. */
  lemma FoundIsOld(flushed: nat, rows: seq<Process>, items: seq<ProcessItem>, item: ProcessItem)
    requires NewPlaced(flushed, rows, items) && !Reports(items, Reported(item.external))
    ensures forall k | 0 <= k < |rows| && rows[k].external == Reported(item.external) :: k < flushed
  {
  }

  lemma ReusedMore(row: Process, items: seq<ProcessItem>, item: ProcessItem)
    ensures Reused(row, items + [item]) <==> Reused(row, items) || (row.external == Reported(item.external) && row.identity != item.identity)
  {
    var all := items + [item];
    assert all[|items|] == item;
    assert forall i | 0 <= i < |items| :: all[i] == items[i];
  }

  lemma OldStep(s: State, before: seq<Process>, rows: seq<Process>, items: seq<ProcessItem>, item: ProcessItem, rep: Report)
    requires OldPlaced(before, rows, items) && NewPlaced(|before|, rows, items) && !Reports(items, Reported(item.external))
    ensures OldPlaced(before, ProcessStep(s, rows, item, |before|, rep), items + [item])
  {
    FoundIsOld(|before|, rows, items, item);
    forall k | 0 <= k < |before|
      ensures Reused(before[k], items + [item])
              <==> Reused(before[k], items) || (before[k].external == Reported(item.external) && before[k].identity != item.identity)
    {
      ReusedMore(before[k], items, item);
    }
    hide Reports, NewPlaced, Reused;
  }

  lemma NewStep(s: State, flushed: nat, rows: seq<Process>, items: seq<ProcessItem>, item: ProcessItem, rep: Report)
    requires flushed <= |rows| && NewPlaced(flushed, rows, items) && !Reports(items, Reported(item.external))
    ensures NewPlaced(flushed, ProcessStep(s, rows, item, flushed, rep), items + [item])
  {
    var after, all := ProcessStep(s, rows, item, flushed, rep), items + [item];
    FoundIsOld(flushed, rows, items, item);
    forall k | flushed <= k < |after|
      ensures FromItem(after[k], all)
    {
      if k < |rows| {
        assert after[k] == rows[k];
        var i :| 0 <= i < |items| && IsAt(rows[k], items[i]);
        assert all[i] == items[i];
      } else {
        assert IsAt(after[k], all[|items|]);
      }
    }
  }

  lemma RecordedStep(s: State, flushed: nat, rows: seq<Process>, items: seq<ProcessItem>, item: ProcessItem, rep: Report)
    requires Recorded(s, rep, rows, items)
    ensures Recorded(s, rep, ProcessStep(s, rows, item, flushed, rep), items + [item])
  {
    var after, all := ProcessStep(s, rows, item, flushed, rep), items + [item];
    var at := RowOf(rows, item.external);
    forall i | 0 <= i < |all| && LastOfExternal(all, i)
      ensures HasRow(s, rep, after, all[i])
    {
      if i < |items| {
        assert all[|items|].external != all[i].external;
        assert LastOfExternal(items, i) by {
          assert forall j | i < j < |items| :: all[j] == items[j];
        }
        var k :| 0 <= k < |rows| && Shows(s, rep, rows[k], items[i]);
        assert Shows(s, rep, after[k], all[i]);
      } else if at.Some? && rows[at.value].identity == item.identity {
        assert Shows(s, rep, after[at.value], all[i]);
      } else {
        assert Shows(s, rep, after[|rows|], all[i]);
      }
    }
  }

  lemma {:induction false} AllRecorded(s: State, before: seq<Process>, items: seq<ProcessItem>, flushed: nat, rep: Report)
    ensures Recorded(s, rep, ProcessAll(s, before, items, flushed, rep), items)
  {
    if items != [] {
      var n := |items| - 1;
      assert items == items[..n] + [items[n]];
      hide Recorded, ProcessStep;
      AllRecorded(s, before, items[..n], flushed, rep);
      RecordedStep(s, flushed, ProcessAll(s, before, items[..n], flushed, rep), items[..n], items[n], rep);
    } else {
      assert Recorded(s, rep, before, []);
    }
  }

  lemma {:induction false} AllPlaced(s: State, before: seq<Process>, items: seq<ProcessItem>, rep: Report)
    requires KeysOwn(before) && DistinctExternals(items)
    ensures var rows := ProcessAll(s, before, items, |before|, rep);
            OldPlaced(before, rows, items) && NewPlaced(|before|, rows, items)
  {
    if items != [] {
      var n := |items| - 1;
      var rows := ProcessAll(s, before, items[..n], |before|, rep);
      assert items == items[..n] + [items[n]];
      assert !Reports(items[..n], Reported(items[n].external));
      AllPlaced(s, before, items[..n], rep);
      hide Reports, ProcessStep;
      OldStep(s, before, rows, items[..n], items[n], rep);
      NewStep(s, |before|, rows, items[..n], items[n], rep);
    }
  }

  lemma NoClash(before: seq<Process>, rows: seq<Process>, items: seq<ProcessItem>)
    requires Unique(before) && DistinctExternals(items) && OneNameEach(before, items) && OneEach(rows)
    requires OldPlaced(before, rows, items) && NewPlaced(|before|, rows, items)
    ensures Unique(rows)
  {
  }

  lemma Clash(s: State, rep: Report, before: seq<Process>, rows: seq<Process>, items: seq<ProcessItem>)
    requires DistinctExternals(items) && !OneNameEach(before, items)
    requires OldPlaced(before, rows, items) && Recorded(s, rep, rows, items)
    ensures !Unique(rows)
  {
  }

  /**
   * With distinct ids the condition is short: an inventory is refused for a conflict exactly when it shows
   * a known process, or one process twice, under a different id. A retired identity can then never be
   * reported again.
   */
  lemma DistinctAcceptedIff(s: State, rep: Report)
    requires Unique(s.processes) && KeysOwn(s.processes) && DistinctExternals(rep.processes)
    ensures Reconcile(s, rep).0 != Conflict <==> OneNameEach(s.processes, rep.processes)
  {
    var rows := ProcessAll(Based(s, rep), s.processes, rep.processes, |s.processes|, rep);
    AllPlaced(Based(s, rep), s.processes, rep.processes, rep);
    ProcessAllLeases(Based(s, rep), s.processes, rep.processes, |s.processes|, rep);
    if OneNameEach(s.processes, rep.processes) {
      NoClash(s.processes, rows, rep.processes);
    } else {
      AllRecorded(Based(s, rep), s.processes, rep.processes, |s.processes|, rep);
      Clash(Based(s, rep), rep, s.processes, rows, rep.processes);
    }
  }

  // ----- Any list of processes -----

  /** Who answers to a reported id, and whether that row had its primary key before this report. */
  datatype Holder = Holder(identity: Identity, flushed: bool)

  /**
   * What decides over a report without looking at the table again: the holders of the reported ids, all
   * identities ever seen, and the ids that a row without a primary key has already been retired from.
   */
  datatype Ledger = Ledger(held: map<string, Holder>, known: set<Identity>, spoilt: set<string>)

  function HolderOf(rows: seq<Process>, name: string, flushed: nat): Option<Holder> {
    match RowOf(rows, name)
    case None => None
    case Some(i) => Some(Holder(rows[i].identity, i < flushed))
  }

  function NamesOf(rows: seq<Process>): set<string> {
    set k | 0 <= k < |rows| && rows[k].external.Reported? :: rows[k].external.name
  }

  function LedgerOf(rows: seq<Process>, flushed: nat): Ledger {
    Ledger(map name | name in NamesOf(rows) && HolderOf(rows, name, flushed).Some? :: HolderOf(rows, name, flushed).value,
           IdentitiesOf(rows), SpoiltOf(rows))
  }

  function IdentitiesOf(rows: seq<Process>): set<Identity> {
    set k | 0 <= k < |rows| :: rows[k].identity
  }

  /** Retired before they had a primary key: the new id then says None. */
  function SpoiltOf(rows: seq<Process>): set<string> {
    set k | 0 <= k < |rows| && rows[k].external.Retired? && rows[k].external.row.None? :: rows[k].external.name
  }

  predicate SameHolder(l: Ledger, item: ProcessItem) {
    item.external in l.held && l.held[item.external].identity == item.identity
  }

  /** The item is the holder of its id, or a process never seen, and no second new row retires from the id. */
  predicate Admissible(l: Ledger, item: ProcessItem) {
    SameHolder(l, item)
    || (item.identity !in l.known && !(Retires(l, item) && item.external in l.spoilt))
  }

  predicate Retires(l: Ledger, item: ProcessItem) {
    item.external in l.held && !l.held[item.external].flushed
  }

  function Enter(l: Ledger, item: ProcessItem): Ledger {
    if SameHolder(l, item) then l
    else Ledger(l.held[item.external := Holder(item.identity, false)], l.known + {item.identity},
                l.spoilt + if Retires(l, item) then {item.external} else {})
  }

  function EnterAll(l: Ledger, items: seq<ProcessItem>): Ledger {
    if items == [] then l else Enter(EnterAll(l, items[..|items| - 1]), items[|items| - 1])
  }

  predicate AdmissibleAll(l: Ledger, items: seq<ProcessItem>) {
    items != [] ==>
      AdmissibleAll(l, items[..|items| - 1]) && Admissible(EnterAll(l, items[..|items| - 1]), items[|items| - 1])
  }

  lemma HolderIs(rows: seq<Process>, k: nat, flushed: nat)
    requires OneEach(rows) && k < |rows| && rows[k].external.Reported?
    ensures RowOf(rows, rows[k].external.name) == Some(k)
    ensures rows[k].external.name in LedgerOf(rows, flushed).held
    ensures LedgerOf(rows, flushed).held[rows[k].external.name] == Holder(rows[k].identity, k < flushed)
  {
    var name := rows[k].external.name;
    assert name in NamesOf(rows);
  }

  lemma NoHolder(rows: seq<Process>, name: string, flushed: nat)
    ensures name in LedgerOf(rows, flushed).held <==> RowOf(rows, name).Some?
  {
    var at := RowOf(rows, name);
    if at.Some? {
      assert rows[at.value].external.Reported?;
    }
  }

  lemma UniqueIsOneEach(rows: seq<Process>)
    requires Unique(rows)
    ensures OneEach(rows)
  {
  }

  /** A violated constraint stays violated. */
  lemma ClashStays(s: State, rows: seq<Process>, item: ProcessItem, flushed: nat, rep: Report)
    requires OneEach(rows) && !Unique(rows)
    ensures !Unique(ProcessStep(s, rows, item, flushed, rep))
  {
    var i, j :| 0 <= i < j < |rows| && (rows[i].external == rows[j].external || rows[i].identity == rows[j].identity);
    var after := ProcessStep(s, rows, item, flushed, rep);
    assert after[i].identity == rows[i].identity && after[j].identity == rows[j].identity;
    assert rows[i].external == rows[j].external ==> after[i].external == after[j].external;
  }

  lemma StepAdmits(s: State, rows: seq<Process>, item: ProcessItem, flushed: nat, rep: Report)
    requires Unique(rows) && KeysOwn(rows)
    ensures Unique(ProcessStep(s, rows, item, flushed, rep)) <==> Admissible(LedgerOf(rows, flushed), item)
    ensures KeysOwn(ProcessStep(s, rows, item, flushed, rep))
  {
    var at, l := RowOf(rows, item.external), LedgerOf(rows, flushed);
    UniqueIsOneEach(rows);
    NoHolder(rows, item.external, flushed);
    if at.Some? {
      HolderIs(rows, at.value, flushed);
      if rows[at.value].identity == item.identity {
        TouchedStays(rows, at.value, Fresh(s, item, Some(rows[at.value].r), rep));
      } else {
        RetiredClash(rows, at.value, flushed, rep.now, Fresh(s, item, None, rep));
      }
    } else {
      AppendedClash(rows, Fresh(s, item, None, rep));
    }
    hide Unique, KeysOwn, LedgerOf, OneEach;
  }

  lemma TouchedStays(rows: seq<Process>, i: nat, row: Process)
    requires i < |rows| && row.external == rows[i].external && row.identity == rows[i].identity && Unique(rows) && KeysOwn(rows)
    ensures Unique(rows[i := row]) && KeysOwn(rows[i := row])
  {
  }

  lemma AppendedClash(rows: seq<Process>, row: Process)
    requires Unique(rows) && KeysOwn(rows) && row.external.Reported? && forall k | 0 <= k < |rows| :: rows[k].external != row.external
    ensures Unique(rows + [row]) <==> row.identity !in LedgerOf(rows, 0).known
    ensures forall flushed: nat :: LedgerOf(rows, flushed).known == LedgerOf(rows, 0).known
    ensures KeysOwn(rows + [row])
  {
    var after := rows + [row];
    assert after[|rows|] == row;
    assert forall k | 0 <= k < |rows| :: after[k] == rows[k];
    if k :| 0 <= k < |rows| && rows[k].identity == row.identity {
      assert !Unique(after);
    }
  }

  lemma RetiredClash(rows: seq<Process>, i: nat, flushed: nat, now: int, row: Process)
    requires i < |rows| && Unique(rows) && KeysOwn(rows) && rows[i].external.Reported? && row.external == rows[i].external
    ensures var l := LedgerOf(rows, flushed);
            Unique(Retire(rows, i, flushed, now) + [row])
            <==> row.identity !in l.known && (i < flushed || rows[i].external.name !in l.spoilt)
    ensures KeysOwn(Retire(rows, i, flushed, now) + [row])
  {
    var retired := Retire(rows, i, flushed, now);
    var after := retired + [row];
    assert after[|rows|] == row;
    assert forall k | 0 <= k < |rows| :: after[k] == retired[k] && after[k].identity == rows[k].identity;
    assert forall k | 0 <= k < |rows| && k != i :: retired[k] == rows[k];
    if k :| 0 <= k < |rows| && rows[k].identity == row.identity {
      assert !Unique(after);
    } else if i >= flushed && rows[i].external.name in LedgerOf(rows, flushed).spoilt {
      var k :| 0 <= k < |rows| && rows[k].external == Retired(None, rows[i].external.name);
      assert after[k].external == after[i].external;
      assert !Unique(after);
    } else {
      UniqueAgain(rows, i, after, row);
    }
  }

  lemma UniqueAgain(rows: seq<Process>, i: nat, after: seq<Process>, row: Process)
    requires i < |rows| && Unique(rows) && KeysOwn(rows) && rows[i].external.Reported? && row.external == rows[i].external
    requires |after| == |rows| + 1 && after[|rows|] == row && after[i].external.Retired? && after[i].identity == rows[i].identity
    requires forall k | 0 <= k < |rows| && k != i :: after[k] == rows[k] && rows[k].external != after[i].external
    requires forall k | 0 <= k < |rows| :: rows[k].identity != row.identity
    ensures Unique(after)
  {
  }

  /** The map of holders is given by its rows. */
  lemma HeldIs(rows: seq<Process>, flushed: nat, held: map<string, Holder>)
    requires OneEach(rows)
    requires forall k | 0 <= k < |rows| && rows[k].external.Reported? ::
               rows[k].external.name in held && held[rows[k].external.name] == Holder(rows[k].identity, k < flushed)
    requires forall name | name in held :: RowOf(rows, name).Some?
    ensures LedgerOf(rows, flushed).held == held
  {
    var l := LedgerOf(rows, flushed);
    forall name
      ensures name in l.held <==> name in held
      ensures name in l.held ==> l.held[name] == held[name]
    {
      NoHolder(rows, name, flushed);
      var at := RowOf(rows, name);
      if at.Some? {
        HolderIs(rows, at.value, flushed);
      }
      hide LedgerOf, OneEach;
    }
  }

  /** Changing a row without its id or identity leaves the ledger. */
  lemma TouchedLedger(rows: seq<Process>, i: nat, row: Process, flushed: nat)
    requires i < |rows| && row.external == rows[i].external && row.identity == rows[i].identity && OneEach(rows)
    ensures LedgerOf(rows[i := row], flushed) == LedgerOf(rows, flushed)
  {
    var after, l := rows[i := row], LedgerOf(rows, flushed);
    SameRest(rows, after);
    forall k | 0 <= k < |after| && after[k].external.Reported?
      ensures after[k].external.name in l.held && l.held[after[k].external.name] == Holder(after[k].identity, k < flushed)
    {
      HolderIs(rows, k, flushed);
    }
    forall name | name in l.held
      ensures RowOf(after, name).Some?
    {
      NoHolder(rows, name, flushed);
      assert after[RowOf(rows, name).value].external == Reported(name);
    }
    HeldIs(after, flushed, l.held);
  }

  lemma SameRest(a: seq<Process>, b: seq<Process>)
    requires |a| == |b| && forall k | 0 <= k < |a| :: a[k].external == b[k].external && a[k].identity == b[k].identity
    ensures IdentitiesOf(a) == IdentitiesOf(b) && SpoiltOf(a) == SpoiltOf(b) && (OneEach(a) ==> OneEach(b))
  {
    assert forall k | 0 <= k < |a| :: a[k].identity in IdentitiesOf(b) && b[k].identity in IdentitiesOf(a);
    assert forall k | 0 <= k < |a| && a[k].external.Retired? && a[k].external.row.None? ::
        a[k].external.name in SpoiltOf(b) && b[k].external.name in SpoiltOf(a);
  }

  /** A row at the end under an id that no row answers to. */
  lemma AppendedLedger(rows: seq<Process>, row: Process, flushed: nat)
    requires OneEach(rows + [row]) && row.external.Reported? && flushed <= |rows|
    ensures var l := LedgerOf(rows, flushed);
            LedgerOf(rows + [row], flushed)
            == Ledger(l.held[row.external.name := Holder(row.identity, false)], l.known + {row.identity}, l.spoilt)
  {
    var after := rows + [row];
    var held := LedgerOf(rows, flushed).held[row.external.name := Holder(row.identity, false)];
    assert after[|rows|] == row;
    assert forall k | 0 <= k < |rows| :: after[k] == rows[k];
    assert OneEach(rows);
    forall k | 0 <= k < |after| && after[k].external.Reported?
      ensures after[k].external.name in held && held[after[k].external.name] == Holder(after[k].identity, k < flushed)
    {
      if k < |rows| {
        HolderIs(rows, k, flushed);
      }
    }
    forall name | name in held
      ensures RowOf(after, name).Some?
    {
      NoHolder(rows, name, flushed);
      if name != row.external.name {
        assert after[RowOf(rows, name).value].external == Reported(name);
      }
    }
    HeldIs(after, flushed, held);
    RestOne(rows, row);
  }

  lemma RestOne(rows: seq<Process>, row: Process)
    requires row.external.Reported?
    ensures IdentitiesOf(rows + [row]) == IdentitiesOf(rows) + {row.identity} && SpoiltOf(rows + [row]) == SpoiltOf(rows)
  {
    var after := rows + [row];
    assert after[|rows|] == row;
    assert forall k | 0 <= k < |rows| :: after[k] == rows[k];
  }

  /** A retired row no longer answers to its id. */
  lemma RetiredLedger(rows: seq<Process>, i: nat, flushed: nat, now: int)
    requires i < |rows| && rows[i].external.Reported? && OneEach(rows)
    ensures var name, l := rows[i].external.name, LedgerOf(rows, flushed);
            LedgerOf(Retire(rows, i, flushed, now), flushed)
            == Ledger(l.held - {name}, l.known, l.spoilt + if i < flushed then {} else {name})
  {
    var after, name, l := Retire(rows, i, flushed, now), rows[i].external.name, LedgerOf(rows, flushed);
    var held := l.held - {name};
    assert forall k | 0 <= k < |rows| && k != i :: after[k] == rows[k];
    forall k | 0 <= k < |after| && after[k].external.Reported?
      ensures after[k].external.name in held && held[after[k].external.name] == Holder(after[k].identity, k < flushed)
    {
      HolderIs(rows, k, flushed);
    }
    forall other | other in held
      ensures RowOf(after, other).Some?
    {
      NoHolder(rows, other, flushed);
      assert after[RowOf(rows, other).value].external == Reported(other);
    }
    HeldIs(after, flushed, held);
    RetiredRestOf(rows, i, flushed, now);
  }

  lemma RetiredRestOf(rows: seq<Process>, i: nat, flushed: nat, now: int)
    requires i < |rows| && rows[i].external.Reported?
    ensures IdentitiesOf(Retire(rows, i, flushed, now)) == IdentitiesOf(rows)
    ensures SpoiltOf(Retire(rows, i, flushed, now)) == SpoiltOf(rows) + if i < flushed then {} else {rows[i].external.name}
  {
    var after := Retire(rows, i, flushed, now);
    assert forall k | 0 <= k < |rows| && k != i :: after[k] == rows[k];
    assert forall k | 0 <= k < |rows| :: after[k].identity == rows[k].identity && rows[k].identity in IdentitiesOf(after);
    assert forall k | 0 <= k < |rows| && rows[k].external.Retired? && rows[k].external.row.None? :: after[k].external.name in SpoiltOf(after);
    if i >= flushed {
      assert after[i].external.name in SpoiltOf(after);
    }
  }

  lemma StepOneEach(s: State, rows: seq<Process>, item: ProcessItem, flushed: nat, rep: Report)
    requires OneEach(rows)
    ensures OneEach(ProcessStep(s, rows, item, flushed, rep)) && |rows| <= |ProcessStep(s, rows, item, flushed, rep)|
  {
  }

  lemma StepLedger(s: State, rows: seq<Process>, item: ProcessItem, flushed: nat, rep: Report)
    requires OneEach(rows) && flushed <= |rows|
    ensures LedgerOf(ProcessStep(s, rows, item, flushed, rep), flushed) == Enter(LedgerOf(rows, flushed), item)
  {
    hide OneEach, Leased, HolderOf, NamesOf, LedgerOf;
    var at, l := RowOf(rows, item.external), LedgerOf(rows, flushed);
    NoHolder(rows, item.external, flushed);
    StepOneEach(s, rows, item, flushed, rep);
    if at.Some? {
      HolderIs(rows, at.value, flushed);
      if rows[at.value].identity == item.identity {
        TouchedLedger(rows, at.value, Fresh(s, item, Some(rows[at.value].r), rep), flushed);
      } else {
        RetiredLedger(rows, at.value, flushed, rep.now);
        AppendedLedger(Retire(rows, at.value, flushed, rep.now), Fresh(s, item, None, rep), flushed);
      }
    } else {
      AppendedLedger(rows, Fresh(s, item, None, rep), flushed);
    }
  }

  lemma {:induction false} AllLedger(s: State, before: seq<Process>, items: seq<ProcessItem>, rep: Report)
    requires Unique(before) && KeysOwn(before)
    ensures var rows := ProcessAll(s, before, items, |before|, rep);
            && OneEach(rows) && |before| <= |rows|
            && LedgerOf(rows, |before|) == EnterAll(LedgerOf(before, |before|), items)
            && (Unique(rows) <==> AdmissibleAll(LedgerOf(before, |before|), items))
            && (Unique(rows) ==> KeysOwn(rows))
  {
    hide OneEach, Unique, KeysOwn, LedgerOf, Admissible, Enter, ProcessStep;
    UniqueIsOneEach(before);
    if items != [] {
      var n := |items| - 1;
      var rows := ProcessAll(s, before, items[..n], |before|, rep);
      AllLedger(s, before, items[..n], rep);
      StepOneEach(s, rows, items[n], |before|, rep);
      StepLedger(s, rows, items[n], |before|, rep);
      if Unique(rows) {
        StepAdmits(s, rows, items[n], |before|, rep);
      } else {
        ClashStays(s, rows, items[n], |before|, rep);
      }
    }
  }

  /**
   * An inventory is refused for a conflict exactly when, item by item, its ids and identities break the
   * ledger of what was ever reported; an accepted one is recorded: the last item of each id has its row,
   * with its references and a new lease.
   */
  lemma AcceptedIff(s: State, rep: Report)
    requires Unique(s.processes) && KeysOwn(s.processes)
    ensures Reconcile(s, rep).0 != Conflict <==> AdmissibleAll(LedgerOf(s.processes, |s.processes|), rep.processes)
    ensures KeysOwn(Reconcile(s, rep).1.processes)
    ensures Reconcile(s, rep).0.Accepted? ==> Recorded(Reconcile(s, rep).1, rep, Reconcile(s, rep).1.processes, rep.processes)
  {
    var rows := ProcessAll(Based(s, rep), s.processes, rep.processes, |s.processes|, rep);
    AllLedger(Based(s, rep), s.processes, rep.processes, rep);
    if Reconcile(s, rep).0.Accepted? {
      AllRecorded(Based(s, rep), s.processes, rep.processes, |s.processes|, rep);
      LapsedRecorded(Based(s, rep), Reconcile(s, rep).1, rep, rows);
    }
    hide ProcessAll, Based, UpsertAll, LapseAll, LinksAfter, Unique, Recorded, AdmissibleAll, LedgerOf, EnterAll, OneEach, Reports;
    assert Unique(rows) ==> KeysOwn(LapseProcesses(rows, rep.processes, rep.now));
  }

  lemma LapsedRecorded(s: State, after: State, rep: Report, rows: seq<Process>)
    requires Recorded(s, rep, rows, rep.processes)
    requires after.services.Keys == s.services.Keys && after.containers.Keys == s.containers.Keys
    requires after.processes == LapseProcesses(rows, rep.processes, rep.now)
    ensures Recorded(after, rep, after.processes, rep.processes)
  {
    forall i | 0 <= i < |rep.processes| && LastOfExternal(rep.processes, i)
      ensures HasRow(after, rep, after.processes, rep.processes[i])
    {
      assert HasRow(s, rep, rows, rep.processes[i]);
      var k :| 0 <= k < |rows| && Shows(s, rep, rows[k], rep.processes[i]);
      assert Reports(rep.processes, rows[k].external);
      assert Shows(after, rep, after.processes[k], rep.processes[i]);
    }
  }

  /** Retired rows carry their own keys over every run, so every report to every reachable table is decided so. */
  lemma {:induction false} AcceptedIffEver(steps: seq<Step>, rep: Report)
    ensures var s := Run(EMPTY, steps);
            && Unique(s.processes) && KeysOwn(s.processes)
            && (Reconcile(s, rep).0 != Conflict <==> AdmissibleAll(LedgerOf(s.processes, |s.processes|), rep.processes))
  {
    var s := Run(EMPTY, steps);
    if steps != [] {
      var n := |steps| - 1;
      var last := steps[n];
      AcceptedIffEver(steps[..n], if last.Inventoried? then last.rep else rep);
      ProcessesKeepTheirIdentity(EMPTY, steps);
      hide Reconcile, Unique, LedgerOf, AdmissibleAll, Sweep;
      KeysKept(Run(EMPTY, steps[..n]), last);
    }
    hide *;
    AcceptedIff(s, rep);
  }

  lemma KeysKept(s: State, step: Step)
    requires Unique(s.processes) && KeysOwn(s.processes)
    ensures KeysOwn(Apply(s, step).processes)
  {
    if step.Inventoried? {
      AcceptedIff(s, step.rep);
      hide Reconcile;
    }
  }

  // ----- Two ways into a conflict -----

  function OneItem(external: string, pid: nat): ProcessItem {
    ProcessItem(external, Identity("boot", pid, 1), "", None, None)
  }

  function OneProcess(now: int, pid: nat): Step {
    Inventoried(Report(now, 60, [], [], [OneItem("x", pid)], []))
  }

  lemma RunOnce(s: State, steps: seq<Step>, step: Step)
    ensures Run(s, steps + [step]) == Apply(Run(s, steps), step)
  {
    assert (steps + [step])[..|steps|] == steps;
  }

  lemma OneStep(s: State, rep: Report, item: ProcessItem)
    requires rep.processes == [item] && rep.dependencies == []
    ensures var rows := ProcessStep(Based(s, rep), s.processes, item, |s.processes|, rep);
            && Reconcile(s, rep).0 == (if Unique(rows) then Accepted else Conflict)
            && (if Unique(rows) then Reconcile(s, rep).1.processes == LapseProcesses(rows, [item], rep.now) else Reconcile(s, rep).1 == s)
  {
    assert [item][..0] == [];
    assert ProcessAll(Based(s, rep), s.processes, [], |s.processes|, rep) == s.processes;
    hide Unique, ProcessStep, LapseProcesses, UpsertAll, LapseAll, LinksAfter;
  }

  lemma Appears(now: int, pid: nat)
    ensures var (outcome, after) := Reconcile(EMPTY, OneProcess(now, pid).rep);
            outcome == Accepted && |after.processes| == 1 && IsAt(after.processes[0], OneItem("x", pid))
  {
    OneStep(EMPTY, OneProcess(now, pid).rep, OneItem("x", pid));
    hide Reconcile, Based, Reports, Lapse;
  }

  lemma Replaces(s: State, now: int, pid: nat)
    requires |s.processes| == 1 && s.processes[0].external == Reported("x") && s.processes[0].identity != OneItem("x", pid).identity
    ensures var (outcome, after) := Reconcile(s, OneProcess(now, pid).rep);
            && outcome == Accepted && |after.processes| == 2 && IsAt(after.processes[1], OneItem("x", pid))
            && after.processes[0].external == Retired(Some(0), "x") && after.processes[0].identity == s.processes[0].identity
  {
    OneStep(s, OneProcess(now, pid).rep, OneItem("x", pid));
    hide Reconcile, Based, Reports, Lapse;
  }

  lemma Returns(s: State, now: int, pid: nat)
    requires |s.processes| == 2 && s.processes[0].external == Retired(Some(0), "x") && s.processes[0].identity == OneItem("x", pid).identity
    requires s.processes[1].external == Reported("x") && s.processes[1].identity != s.processes[0].identity
    ensures Reconcile(s, OneProcess(now, pid).rep) == (Conflict, s)
  {
    var item := OneItem("x", pid);
    OneStep(s, OneProcess(now, pid).rep, item);
    hide Reconcile, Based, Known, Touch, LapseProcesses;
    var rows := ProcessStep(Based(s, OneProcess(now, pid).rep), s.processes, item, 2, OneProcess(now, pid).rep);
    assert RowOf(s.processes, "x") == Some(1);
    assert |rows| == 3 && rows[0].identity == rows[2].identity == item.identity;
  }

  /**
   * Three inventories under one id: a process, another one that reuses the id, and the first one again. The
   * first two are accepted, the third hits the identity of the retired row.
   */
  lemma ReturnConflicts()
    ensures var first, second := Run(EMPTY, [OneProcess(0, 1)]), Run(EMPTY, [OneProcess(0, 1), OneProcess(10, 2)]);
            && Reconcile(EMPTY, OneProcess(0, 1).rep).0 == Accepted
            && Reconcile(first, OneProcess(10, 2).rep).0 == Accepted
            && Reconcile(second, OneProcess(20, 1).rep) == (Conflict, second)
  {
    hide Reconcile;
    var one, two := OneProcess(0, 1), OneProcess(10, 2);
    RunOnce(EMPTY, [], one);
    RunOnce(EMPTY, [one], two);
    assert [] + [one] == [one] && [one] + [two] == [one, two];
    Appears(0, 1);
    Replaces(Run(EMPTY, [one]), 10, 2);
    Returns(Run(EMPTY, [one, two]), 20, 1);
  }

  /** Three new processes under one id in one inventory: two rows retire without a primary key, under one new id. */
  lemma TripleConflicts(now: int)
    ensures var items := [OneItem("x", 1), OneItem("x", 2), OneItem("x", 3)];
            Reconcile(EMPTY, Report(now, 60, [], [], items, [])) == (Conflict, EMPTY)
  {
    var items := [OneItem("x", 1), OneItem("x", 2), OneItem("x", 3)];
    AcceptedIff(EMPTY, Report(now, 60, [], [], items, []));
    var l := LedgerOf([], 0);
    assert l == Ledger(map[], {}, {});
    hide Reconcile, Unique, LedgerOf;
    assert items[..2] == [OneItem("x", 1), OneItem("x", 2)] && items[..2][..1] == [OneItem("x", 1)] && items[..2][..1][..0] == [];
    var one := Enter(l, items[0]);
    assert EnterAll(l, items[..2][..1]) == one;
    var two := Enter(one, items[1]);
    assert EnterAll(l, items[..2]) == two;
    assert "x" in two.spoilt && !two.held["x"].flushed;
  }

  // ----- Ids that are made from the identity -----

  /** Discovery names a process by the text of its boot id, pid and start ticks (runtime.py:160). */
  predicate NamedRows(rows: seq<Process>) {
    forall k | 0 <= k < |rows| :: rows[k].external == Reported(Key(rows[k].identity))
  }

  predicate NamedItems(items: seq<ProcessItem>) {
    forall i | 0 <= i < |items| :: items[i].external == Key(items[i].identity)
  }

  lemma NamedStep(s: State, rows: seq<Process>, item: ProcessItem, flushed: nat, rep: Report)
    requires NamedRows(rows) && item.external == Key(item.identity)
    ensures NamedRows(ProcessStep(s, rows, item, flushed, rep))
  {
    hide Key;
    var at := RowOf(rows, item.external);
    if at.Some? {
      KeyIsInjective(rows[at.value].identity, item.identity);
    }
  }

  lemma {:induction false} NamedStay(s: State, rows: seq<Process>, items: seq<ProcessItem>, flushed: nat, rep: Report)
    requires NamedRows(rows) && NamedItems(items)
    ensures NamedRows(ProcessAll(s, rows, items, flushed, rep))
  {
    if items != [] {
      var n := |items| - 1;
      hide NamedRows, ProcessStep, Key;
      NamedStay(s, rows, items[..n], flushed, rep);
      NamedStep(s, ProcessAll(s, rows, items[..n], flushed, rep), items[n], flushed, rep);
    }
  }

  lemma NamedAreUnique(rows: seq<Process>)
    requires OneEach(rows) && NamedRows(rows)
    ensures Unique(rows)
  {
    hide Key;
    forall i, j | 0 <= i < j < |rows|
      ensures rows[i].identity != rows[j].identity
    {
      assert rows[i].external != rows[j].external;
    }
  }

  ghost predicate NamedSteps(steps: seq<Step>) {
    forall i | 0 <= i < |steps| && steps[i].Inventoried? :: NamedItems(steps[i].rep.processes)
  }

  lemma NamedApply(s: State, step: Step)
    requires Unique(s.processes) && NamedRows(s.processes)
    requires step.Inventoried? ==> NamedItems(step.rep.processes)
    ensures Unique(Apply(s, step).processes) && NamedRows(Apply(s, step).processes)
    ensures step.Inventoried? ==> Reconcile(s, step.rep).0 != Conflict
  {
    hide Key;
    match step
    case Swept(now) =>
    case Inventoried(rep) =>
      var rows := ProcessAll(Based(s, rep), s.processes, rep.processes, |s.processes|, rep);
      ProcessAllLeases(Based(s, rep), s.processes, rep.processes, |s.processes|, rep);
      NamedStay(Based(s, rep), s.processes, rep.processes, |s.processes|, rep);
      NamedAreUnique(rows);
      hide ProcessAll, Based, UpsertAll, LapseAll, LinksAfter, Leased, OneEach, Reports;
      assert NamedRows(LapseProcesses(rows, rep.processes, rep.now));
      assert Unique(LapseProcesses(rows, rep.processes, rep.now));
  }

  /** With such ids no run of inventories and sweeps ever retires a row or hits a conflict; a reused pid is a new row. */
  lemma {:induction false} DiscoveryNeverConflicts(steps: seq<Step>, rep: Report)
    requires NamedSteps(steps) && NamedItems(rep.processes)
    ensures var s := Run(EMPTY, steps);
            Unique(s.processes) && NamedRows(s.processes) && Reconcile(s, rep).0 != Conflict
  {
    hide Key;
    if steps != [] {
      var n := |steps| - 1;
      var last := steps[n];
      DiscoveryNeverConflicts(steps[..n], if last.Inventoried? then last.rep else rep);
      hide Reconcile, Unique, NamedRows;
      NamedApply(Run(EMPTY, steps[..n]), last);
      NamedApply(Run(EMPTY, steps), Inventoried(rep));
    } else {
      NamedApply(EMPTY, Inventoried(rep));
    }
  }

  // ----- A resource that is no longer reported -----

  datatype Place = Service(name: string) | Container(name: string) | Depended(name: string) | ProcessRow(row: nat)

  function At(s: State, place: Place): Option<Resource> {
    match place
    case Service(k) => if k in s.services then Some(s.services[k]) else None
    case Container(k) => if k in s.containers then Some(s.containers[k]) else None
    case Depended(k) => if k in s.dependencies then Some(s.dependencies[k]) else None
    case ProcessRow(i) => if i < |s.processes| then Some(s.processes[i].r) else None
  }

  predicate Includes(s: State, rep: Report, place: Place) {
    match place
    case Service(k) => k in Externals(rep.services)
    case Container(k) => k in Externals(rep.containers)
    case Depended(k) => k in Externals(PlainItems(rep.dependencies))
    case ProcessRow(i) => i < |s.processes| && Reports(rep.processes, s.processes[i].external)
  }

  /** This step is one that finds a lease over: an accepted inventory at its end, a sweep only after it. */
  predicate Finds(s: State, step: Step, lease: int) {
    match step
    case Inventoried(rep) => Reconcile(s, rep).0.Accepted? && lease <= rep.now
    case Swept(now) => lease < now
  }

  lemma {:induction false} Unmentioned(s: State, rows: seq<Process>, items: seq<ProcessItem>, flushed: nat, rep: Report, i: nat)
    requires i < |rows| && !Reports(items, rows[i].external)
    ensures |ProcessAll(s, rows, items, flushed, rep)| >= |rows| && ProcessAll(s, rows, items, flushed, rep)[i] == rows[i]
  {
    if items != [] {
      var n := |items| - 1;
      assert items == items[..n] + [items[n]];
      ReportsOne(items[..n], items[n], rows[i].external);
      Unmentioned(s, rows, items[..n], flushed, rep, i);
    }
  }

  lemma LapsesIfMissing(t: Resources, items: seq<Item>, now: int, lease: int, k: string)
    requires k in t && k !in Externals(items)
    ensures var u := LapseAll(UpsertAll(t, items, now, lease), Externals(items), now);
            k in u && u[k] == Lapse(t[k], false, now)
  {
  }

  lemma MissingStep(s: State, step: Step, place: Place)
    requires At(s, place).Some? && (step.Inventoried? ==> !Includes(s, step.rep, place))
    ensures var r := At(s, place).value;
            At(Apply(s, step), place) == Some(r.(active := r.active && !Finds(s, step, r.lease)))
  {
    match step
    case Swept(now) =>
    case Inventoried(rep) =>
      if Reconcile(s, rep).0.Accepted? {
        MissingReport(s, rep, place);
      }
      hide Lapsed, Touched, Includes, Unique, ServicesKnown;
  }

  lemma MissingReport(s: State, rep: Report, place: Place)
    requires At(s, place).Some? && !Includes(s, rep, place)
    ensures At(Lapsed(Touched(s, rep), rep), place) == Some(Lapse(At(s, place).value, false, rep.now))
  {
    var lease := rep.now + rep.leaseSeconds;
    hide UpsertAll, LapseAll, ProcessAll, Externals, Pairs, PlainItems, LinksAfter, Reports;
    match place
    case Service(k) => LapsesIfMissing(s.services, rep.services, rep.now, lease, k);
    case Container(k) => LapsesIfMissing(s.containers, rep.containers, rep.now, lease, k);
    case Depended(k) => LapsesIfMissing(s.dependencies, PlainItems(rep.dependencies), rep.now, lease, k);
    case ProcessRow(i) => Unmentioned(Based(s, rep), s.processes, rep.processes, |s.processes|, rep, i);
  }

  /** Some step of the run finds the lease over. */
  predicate EverFinds(s: State, steps: seq<Step>, lease: int) {
    steps != []
    && var n := |steps| - 1;
       EverFinds(s, steps[..n], lease) || Finds(Run(s, steps[..n]), steps[n], lease)
  }

  predicate NeverIncluded(s: State, steps: seq<Step>, place: Place) {
    steps != [] ==>
      var n := |steps| - 1;
      NeverIncluded(s, steps[..n], place) && (steps[n].Inventoried? ==> !Includes(Run(s, steps[..n]), steps[n].rep, place))
  }

  /**
   * Over any run that does not report it, a resource keeps everything, and it is active at the end
   * exactly when it was at the start and no step found its lease over.
   */
  lemma {:induction false} ActiveUntilFound(s: State, steps: seq<Step>, place: Place)
    requires At(s, place).Some? && NeverIncluded(s, steps, place)
    ensures var r := At(s, place).value;
            At(Run(s, steps), place) == Some(r.(active := r.active && !EverFinds(s, steps, r.lease)))
  {
    if steps != [] {
      var n := |steps| - 1;
      ActiveUntilFound(s, steps[..n], place);
      hide Apply, Includes, Finds, At;
      MissingStep(Run(s, steps[..n]), steps[n], place);
    }
  }

  // ----- A resource that is reported -----

  lemma {:induction false} ProcessAllJoin(s: State, rows: seq<Process>, a: seq<ProcessItem>, b: seq<ProcessItem>, flushed: nat, rep: Report)
    ensures ProcessAll(s, rows, a + b, flushed, rep) == ProcessAll(s, ProcessAll(s, rows, a, flushed, rep), b, flushed, rep)
  {
    if b == [] {
      assert a + b == a;
    } else {
      var n := |b| - 1;
      assert (a + b)[..|a + b| - 1] == a + b[..n];
      ProcessAllJoin(s, rows, a, b[..n], flushed, rep);
      hide ProcessStep;
    }
  }

  lemma StepAt(s: State, rows: seq<Process>, item: ProcessItem, flushed: nat, rep: Report, i: nat)
    requires OneEach(rows) && i < |rows| && rows[i].external == Reported(item.external) && i < flushed
    ensures var after := ProcessStep(s, rows, item, flushed, rep);
            && |after| >= |rows|
            && after[i] == if rows[i].identity == item.identity
                           then rows[i].(service := Known(item.service, s.services), container := Known(item.container, s.containers),
                                         r := Resource(item.name, rows[i].r.firstSeen, rep.now, rep.now + rep.leaseSeconds, true))
                           else rows[i].(external := Retired(Some(i), item.external), r := rows[i].r.(active := false, lease := rep.now))
  {
  }

  lemma MentionedOnce(s: State, rows: seq<Process>, items: seq<ProcessItem>, flushed: nat, rep: Report, i: nat, j: nat)
    requires OneEach(rows) && i < |rows| && i < flushed && DistinctExternals(items)
    requires j < |items| && rows[i].external == Reported(items[j].external)
    ensures var after := ProcessAll(s, rows, items, flushed, rep);
            && |after| >= |rows|
            && after[i] == if rows[i].identity == items[j].identity
                           then rows[i].(service := Known(items[j].service, s.services), container := Known(items[j].container, s.containers),
                                         r := Resource(items[j].name, rows[i].r.firstSeen, rep.now, rep.now + rep.leaseSeconds, true))
                           else rows[i].(external := Retired(Some(i), items[j].external), r := rows[i].r.(active := false, lease := rep.now))
  {
    var a, item, b := items[..j], items[j], items[j + 1..];
    assert items == (a + [item]) + b;
    assert !Reports(a, rows[i].external) && !Reports(b, rows[i].external);
    assert (a + [item])[..j] == a;
    var before := ProcessAll(s, rows, a, flushed, rep);
    var since := ProcessAll(s, rows, a + [item], flushed, rep);
    ProcessAllLeases(s, rows, a, flushed, rep);
    Unmentioned(s, rows, a, flushed, rep, i);
    StepAt(s, before, item, flushed, rep, i);
    hide ProcessStep, DistinctExternals, Leased, OneEach, Known;
    assert since == ProcessStep(s, before, item, flushed, rep);
    assert !Reports(b, since[i].external);
    Unmentioned(s, since, b, flushed, rep, i);
    ProcessAllJoin(s, rows, a + [item], b, flushed, rep);
  }

  /**
   * What an accepted inventory with distinct ids does to a process that is on record under a reported id. The
   * same process is seen now, under its new name and references; another one retires it: the row keeps
   * all that was known about it, under an id of its own, and its lease ends.
   */
  lemma ReportedRow(s: State, rep: Report, i: nat, j: nat)
    requires Unique(s.processes) && DistinctExternals(rep.processes) && Reconcile(s, rep).0.Accepted?
    requires i < |s.processes| && j < |rep.processes| && s.processes[i].external == Reported(rep.processes[j].external)
    ensures var row, item, after := s.processes[i], rep.processes[j], Reconcile(s, rep).1;
            && i < |after.processes|
            && if row.identity == item.identity
               then after.processes[i] == row.(service := if item.service.Some? && item.service.value in after.services then item.service else None,
                                               container := if item.container.Some? && item.container.value in after.containers then item.container else None,
                                               r := Resource(item.name, row.r.firstSeen, rep.now, rep.now + rep.leaseSeconds, true))
               else after.processes[i] == row.(external := Retired(Some(i), item.external), r := row.r.(active := false, lease := rep.now))
  {
    UniqueIsOneEach(s.processes);
    hide Unique, ServicesKnown, LinksAfter, UpsertAll, OneEach, ProcessAll, DistinctExternals;
    MentionedOnce(Based(s, rep), s.processes, rep.processes, |s.processes|, rep, i, j);
    assert Reports(rep.processes, s.processes[i].external);
    assert Reconcile(s, rep).1.services.Keys == Based(s, rep).services.Keys;
    assert Reconcile(s, rep).1.containers.Keys == Based(s, rep).containers.Keys;
  }

  // ----- Links -----

  /** A dependency of the report lists the service. */
  ghost predicate ListsLink(items: seq<DependencyItem>, service: string, dependency: string) {
    exists i :: 0 <= i < |items| && items[i].item.external == dependency && service in items[i].services
  }

  lemma ListedPairs(items: seq<DependencyItem>, service: string, dependency: string)
    ensures (service, dependency) in Pairs(items) <==> ListsLink(items, service, dependency)
  {
    if ListsLink(items, service, dependency) {
      var i :| 0 <= i < |items| && items[i].item.external == dependency && service in items[i].services;
      var j :| 0 <= j < |items[i].services| && items[i].services[j] == service;
    }
  }

  /**
   * After an accepted inventory there is a link exactly if there was one or the report lists it. A reported
   * link is active, seen now, and keeps its first sighting; any other keeps both times, and stays active
   * exactly unless the lease of its dependency is over: a dependency that is reported without the service
   * keeps the link.
   */
  lemma LinksAre(s: State, rep: Report, service: string, dependency: string)
    requires Reconcile(s, rep).0.Accepted?
    ensures var pair, after := (service, dependency), Reconcile(s, rep).1;
            && (pair in after.links <==> pair in s.links || ListsLink(rep.dependencies, service, dependency))
            && (ListsLink(rep.dependencies, service, dependency) ==>
                  after.links[pair] == Link(if pair in s.links then s.links[pair].firstSeen else rep.now, rep.now, true))
            && (pair in s.links && !ListsLink(rep.dependencies, service, dependency) ==>
                  after.links[pair] == s.links[pair].(active := s.links[pair].active
                                                      && !(dependency in after.dependencies && after.dependencies[dependency].lease <= rep.now)))
  {
    UpsertIs(s.dependencies, PlainItems(rep.dependencies), rep.now, rep.now + rep.leaseSeconds);
    ListedPairs(rep.dependencies, service, dependency);
    hide UpsertAll, ProcessAll, PlainItems, Externals, Unique, ServicesKnown, Pairs, ListsLink;
  }

  /** A link whose dependency is reported, with or without the service, stays active. */
  lemma ReportedKeepsLink(s: State, rep: Report, service: string, dependency: string)
    requires Reconcile(s, rep).0.Accepted? && rep.leaseSeconds > 0
    requires (service, dependency) in s.links && s.links[(service, dependency)].active
    requires exists i :: 0 <= i < |rep.dependencies| && rep.dependencies[i].item.external == dependency
    ensures var links := Reconcile(s, rep).1.links; (service, dependency) in links && links[(service, dependency)].active
  {
    hide Reconcile, ListsLink;
    LinksAre(s, rep, service, dependency);
    ReportedLease(s, rep, dependency);
  }

  lemma ReportedLease(s: State, rep: Report, dependency: string)
    requires Reconcile(s, rep).0.Accepted?
    requires exists i :: 0 <= i < |rep.dependencies| && rep.dependencies[i].item.external == dependency
    ensures var after := Reconcile(s, rep).1.dependencies; dependency in after && after[dependency].lease == rep.now + rep.leaseSeconds
  {
    hide ProcessAll, Unique, ServicesKnown, Pairs, LinksAfter, UpsertAll, Externals, PlainItems, LapseProcesses, Based;
    ReportedExternal(rep.dependencies, dependency);
    UpsertIs(s.dependencies, PlainItems(rep.dependencies), rep.now, rep.now + rep.leaseSeconds);
  }

  lemma ReportedExternal(items: seq<DependencyItem>, dependency: string)
    requires exists i :: 0 <= i < |items| && items[i].item.external == dependency
    ensures dependency in Externals(PlainItems(items))
  {
    var i :| 0 <= i < |items| && items[i].item.external == dependency;
    assert PlainItems(items)[i].external == dependency;
  }

  /** Every link joins a service and a dependency that are known. */
  predicate LinksResolve(s: State) {
    forall pair | pair in s.links :: pair.0 in s.services && pair.1 in s.dependencies
  }

  lemma PairsKnown(items: seq<DependencyItem>, services: Resources, pair: (string, string))
    requires pair in Pairs(items) && ServicesKnown(items, services)
    ensures pair.0 in services && pair.1 in Externals(PlainItems(items))
  {
    var i, j :| 0 <= i < |items| && 0 <= j < |items[i].services| && pair == (items[i].services[j], items[i].item.external);
    assert PlainItems(items)[i].external == pair.1;
  }

  lemma ReconcileResolves(s: State, rep: Report)
    requires LinksResolve(s)
    ensures LinksResolve(Reconcile(s, rep).1)
  {
    UpsertIs(s.services, rep.services, rep.now, rep.now + rep.leaseSeconds);
    UpsertIs(s.dependencies, PlainItems(rep.dependencies), rep.now, rep.now + rep.leaseSeconds);
    var touched := Touched(s, rep);
    hide UpsertAll, ProcessAll, PlainItems, Externals, Unique, ServicesKnown, Pairs;
    if ServicesKnown(rep.dependencies, touched.services) {
      forall pair | pair in Pairs(rep.dependencies)
        ensures pair.0 in touched.services && pair.1 in touched.dependencies
      {
        PairsKnown(rep.dependencies, touched.services, pair);
      }
    }
  }

  /** Over every run of inventories and sweeps no link dangles. */
  lemma {:induction false} NoLinkDangles(steps: seq<Step>)
    ensures LinksResolve(Run(EMPTY, steps))
  {
    if steps != [] {
      var n := |steps| - 1;
      NoLinkDangles(steps[..n]);
      hide Reconcile, LinksResolve;
      if steps[n].Inventoried? {
        ReconcileResolves(Run(EMPTY, steps[..n]), steps[n].rep);
      } else {
        SweepResolves(Run(EMPTY, steps[..n]), steps[n].now);
      }
    }
  }

  lemma SweepResolves(s: State, now: int)
    requires LinksResolve(s)
    ensures LinksResolve(Sweep(s, now))
  {
  }

  /**
   * An inventory whose ids do not conflict is refused exactly if some dependency lists a service that is neither
   * known nor reported; a refused one changes nothing.
   */
  lemma UnknownServiceIff(s: State, rep: Report)
    requires Reconcile(s, rep).0 != Conflict
    ensures Reconcile(s, rep).0 == UnknownService
            <==> exists d, service :: d in rep.dependencies && service in d.services
                   && service !in s.services && forall i | 0 <= i < |rep.services| :: rep.services[i].external != service
    ensures Reconcile(s, rep).0 != Accepted ==> Reconcile(s, rep).1 == s
  {
    hide UpsertAll, ProcessAll, PlainItems, Unique, Pairs, LinksAfter, Lapsed, ServicesKnown, Externals;
    UpsertIs(s.services, rep.services, rep.now, rep.now + rep.leaseSeconds);
    ServicesUnknown(rep, Touched(s, rep).services, s.services);
  }

  lemma ServicesUnknown(rep: Report, services: Resources, before: Resources)
    requires services.Keys == before.Keys + Externals(rep.services)
    ensures !ServicesKnown(rep.dependencies, services)
            <==> exists d, service :: d in rep.dependencies && service in d.services
                   && service !in before && forall i | 0 <= i < |rep.services| :: rep.services[i].external != service
  {
    if !ServicesKnown(rep.dependencies, services) {
      var i, j :| 0 <= i < |rep.dependencies| && 0 <= j < |rep.dependencies[i].services| && rep.dependencies[i].services[j] !in services;
      var d, service := rep.dependencies[i], rep.dependencies[i].services[j];
      assert d in rep.dependencies && service in d.services;
      assert forall k | 0 <= k < |rep.services| :: rep.services[k].external in Externals(rep.services);
    }
  }

  // ----- The transactions in place -----

  /** The pairs of the items before the i-th, and of the first j services of the i-th. */
  function PairsTo(items: seq<DependencyItem>, i: nat, j: nat): set<(string, string)>
    requires i <= |items| && (i < |items| ==> j <= |items[i].services|)
  {
    set k, l | 0 <= k <= i && k < |items| && 0 <= l < |items[k].services| && (k < i || l < j) :: (items[k].services[l], items[k].item.external)
  }

  lemma PairsNext(items: seq<DependencyItem>, i: nat, j: nat)
    requires i < |items| && j < |items[i].services|
    ensures PairsTo(items, i, j + 1) == PairsTo(items, i, j) + {(items[i].services[j], items[i].item.external)}
  {
  }

  lemma PairsEnd(items: seq<DependencyItem>, i: nat)
    requires i < |items|
    ensures PairsTo(items, i, |items[i].services|) == PairsTo(items, i + 1, 0)
  {
  }

  lemma PairsAll(items: seq<DependencyItem>)
    ensures PairsTo(items, |items|, 0) == Pairs(items)
  {
  }

  function LinksTouched(links: map<(string, string), Link>, pairs: set<(string, string)>, now: int): map<(string, string), Link> {
    map p | p in links.Keys + pairs :: if p in pairs then LinkNow(links, p, now) else links[p]
  }

  lemma TouchedKeys(links: map<(string, string), Link>, pairs: set<(string, string)>, now: int, pair: (string, string))
    ensures pair in LinksTouched(links, pairs, now) <==> pair in links || pair in pairs
  {
  }

  lemma LinksStart(links: map<(string, string), Link>, items: seq<DependencyItem>, now: int)
    ensures LinksTouched(links, PairsTo(items, 0, 0), now) == links
  {
  }

  class HostInventory {
    var services: Resources
    var containers: Resources
    var processes: seq<Process>
    var dependencies: Resources
    var links: map<(string, string), Link>

    ghost function View(): State
      reads this
    {
      State(services, containers, processes, dependencies, links)
    }

    constructor ()
      ensures View() == EMPTY
    {
      services, containers, processes, dependencies, links := map[], map[], [], map[], map[];
    }

    /** One transaction; on any failure it is rolled back. */
    method ReconcileInventory(rep: Report) returns (outcome: Outcome)
      modifies this
      ensures (outcome, View()) == Reconcile(old(View()), rep)
    {
      var lease := rep.now + rep.leaseSeconds;
      ghost var before := View();
      var services1 := TouchAll(services, rep.services, rep.now, lease);
      var containers1 := TouchAll(containers, rep.containers, rep.now, lease);
      hide UpsertAll, ProcessAll, Unique, ServicesKnown, LinksAfter, LinksTouched, LapseAll, LapseProcesses, LapseLinks, Pairs;
      var rows := TouchProcesses(Based(before, rep), services1, containers1, processes, rep);
      if !Unique(rows) {
        return Conflict;
      }
      var dependencies1 := TouchAll(dependencies, PlainItems(rep.dependencies), rep.now, lease);
      var known, links1 := TouchLinks(links, rep.dependencies, services1, rep.now);
      if !known {
        return UnknownService;
      }
      LinksLapse(before.links, Pairs(rep.dependencies), dependencies1, rep.now);
      services := LapseAll(services1, Externals(rep.services), rep.now);
      containers := LapseAll(containers1, Externals(rep.containers), rep.now);
      dependencies := LapseAll(dependencies1, Externals(PlainItems(rep.dependencies)), rep.now);
      links := LapseLinks(links1, Pairs(rep.dependencies), dependencies1, rep.now);
      processes := LapseRows(rows, rep.processes, rep.now);
      return Accepted;
    }

    /** The lease part of a maintenance pass. */
    method SweepLeases(now: int)
      modifies this
      ensures View() == Sweep(old(View()), now)
    {
      services, containers, dependencies := SweepAll(services, now), SweepAll(containers, now), SweepAll(dependencies, now);
      processes := seq(|processes|, i requires 0 <= i < |processes| reads this => processes[i].(r := SweepOne(processes[i].r, now)));
    }
  }

  method TouchProcesses(ghost s: State, services: Resources, containers: Resources, before: seq<Process>, rep: Report) returns (rows: seq<Process>)
    requires s.services == services && s.containers == containers
    ensures rows == ProcessAll(s, before, rep.processes, |before|, rep)
  {
    rows := before;
    for i := 0 to |rep.processes|
      invariant rows == ProcessAll(s, before, rep.processes[..i], |before|, rep)
    {
      ProcessAllOne(s, before, rep.processes, i, |before|, rep);
      hide ProcessStep;
      rows := ReconcileProcess(s, services, containers, rows, rep.processes[i], |before|, rep);
    }
    assert rep.processes[..|rep.processes|] == rep.processes;
  }

  method LapseRows(rows: seq<Process>, items: seq<ProcessItem>, now: int) returns (after: seq<Process>)
    ensures after == LapseProcesses(rows, items, now)
  {
    after := [];
    for i := 0 to |rows|
      invariant after == LapseProcesses(rows, items, now)[..i]
    {
      after := after + [rows[i].(r := Lapse(rows[i].r, Reports(items, rows[i].external), now))];
    }
  }

  function LapseLinks(links: map<(string, string), Link>, pairs: set<(string, string)>, dependencies: Resources, now: int): map<(string, string), Link> {
    map p | p in links :: if p !in pairs && p.1 in dependencies && dependencies[p.1].lease <= now then links[p].(active := false) else links[p]
  }

  lemma LinksLapse(links: map<(string, string), Link>, pairs: set<(string, string)>, dependencies: Resources, now: int)
    ensures LapseLinks(LinksTouched(links, pairs, now), pairs, dependencies, now) == LinksAfter(links, pairs, dependencies, now)
  {
  }

  lemma ProcessAllOne(s: State, rows: seq<Process>, items: seq<ProcessItem>, i: nat, flushed: nat, rep: Report)
    requires i < |items|
    ensures ProcessAll(s, rows, items[..i + 1], flushed, rep) == ProcessStep(s, ProcessAll(s, rows, items[..i], flushed, rep), items[i], flushed, rep)
  {
    assert items[..i + 1][..i] == items[..i];
    hide ProcessStep;
  }

  method ReconcileProcess(ghost s: State, services: Resources, containers: Resources, rows: seq<Process>, item: ProcessItem,
                          flushed: nat, rep: Report) returns (after: seq<Process>)
    requires s.services == services && s.containers == containers
    ensures after == ProcessStep(s, rows, item, flushed, rep)
  {
    var lease := rep.now + rep.leaseSeconds;
    after := rows;
    var at := RowOf(rows, item.external);
    if at.Some? && rows[at.value].identity != item.identity {
      after := Retire(after, at.value, flushed, rep.now);
      at := None;
    }
    var service, container := Known(item.service, services), Known(item.container, containers);
    if at.Some? {
      var r := Touch(Some(after[at.value].r), item.name, rep.now, lease);
      after := after[at.value := after[at.value].(identity := item.identity, service := service, container := container, r := r)];
    } else {
      after := after + [Process(Reported(item.external), item.identity, service, container, Touch(None, item.name, rep.now, lease))];
    }
  }

  method TouchAll(before: Resources, items: seq<Item>, now: int, lease: int) returns (t: Resources)
    ensures t == UpsertAll(before, items, now, lease)
  {
    t := before;
    for i := 0 to |items|
      invariant t == UpsertAll(before, items[..i], now, lease)
    {
      assert items[..i + 1][..i] == items[..i];
      t := Upsert(t, items[i], now, lease);
    }
    assert items[..|items|] == items;
  }

  /** The links of the report, in order, until a service is unknown. */
  method TouchLinks(before: map<(string, string), Link>, items: seq<DependencyItem>, services: Resources, now: int)
    returns (known: bool, links: map<(string, string), Link>)
    ensures known == ServicesKnown(items, services)
    ensures known ==> links == LinksTouched(before, Pairs(items), now)
    ensures known ==> forall service, dependency :: (service, dependency) in links
                        <==> (service, dependency) in before || ListsLink(items, service, dependency)
  {
    links := before;
    LinksStart(before, items, now);
    hide LinksTouched, PairsTo, Pairs, LinkNow;
    for i := 0 to |items|
      invariant forall k, l | 0 <= k < i && 0 <= l < |items[k].services| :: items[k].services[l] in services
      invariant links == LinksTouched(before, PairsTo(items, i, 0), now)
    {
      for j := 0 to |items[i].services|
        invariant forall l | 0 <= l < j :: items[i].services[l] in services
        invariant links == LinksTouched(before, PairsTo(items, i, j), now)
      {
        if items[i].services[j] !in services {
          return false, links;
        }
        PairsNext(items, i, j);
        links := TouchLink(before, PairsTo(items, i, j), links, (items[i].services[j], items[i].item.external), now);
      }
      PairsEnd(items, i);
    }
    PairsAll(items);
    forall service, dependency
      ensures (service, dependency) in links <==> (service, dependency) in before || ListsLink(items, service, dependency)
    {
      ListedPairs(items, service, dependency);
      TouchedKeys(before, Pairs(items), now, (service, dependency));
    }
    known := true;
  }

  method TouchLink(ghost before: map<(string, string), Link>, ghost pairs: set<(string, string)>,
                   links: map<(string, string), Link>, pair: (string, string), now: int)
    returns (after: map<(string, string), Link>)
    requires links == LinksTouched(before, pairs, now)
    ensures after == LinksTouched(before, pairs + {pair}, now)
  {
    if pair in links {
      after := links[pair := links[pair].(lastSeen := now, active := true)];
    } else {
      after := links[pair := Link(now, now, true)];
    }
  }
}

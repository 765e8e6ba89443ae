/**
 * The file log collector with its durable cursor: `collect`, `restore`, `pending_state_update` and
 * `commit_state_update` of agent/src/temporalrca_agent/collectors/logs.py, driven by
 * `_emit_collector` of runtime.py, with failures and crashes between any two steps.
 */
module LogCollector {
  import opened Contracts
  import opened LogReader

  // ----- The class -----

  class FileLogCollector {
    const max: nat
    const maxLines: nat
    var cursor: Option<FileCursor>
    var pending: Option<FileCursor>

    constructor (max: nat, maxLines: nat)
      ensures cursor == None && pending == None && this.max == max && this.maxLines == maxLines
    {
      this.max, this.maxLines := max, maxLines;
      cursor, pending := None, None;
    }

    /** Take over the cursor that the spool has stored, if it has one. */
    method Restore(stored: Option<FileCursor>)
      modifies `cursor
      ensures cursor == if stored.Some? then stored else old(cursor)
    {
      if stored.Some? {
        cursor := stored;
      }
    }

    /** Read once. A missing file gives no events, and leaves an older pending cursor in place. */
    method Collect(file: Option<File>) returns (events: seq<Entry>)
      modifies `pending
      ensures file.None? ==> events == [] && pending == old(pending)
      ensures file.Some? ==>
                var (pieces, next) := Read(cursor, file.value, max, maxLines);
                events == EventsOf(pieces, max) && pending == Some(next)
    {
      if file.None? {
        return [];
      }
      var (pieces, next) := Read(cursor, file.value, max, maxLines);
      pending := Some(next);
      events := EventsOf(pieces, max);
    }

    method PendingStateUpdate() returns (update: Option<FileCursor>)
      ensures update == pending
    {
      update := pending;
    }

    method CommitStateUpdate()
      modifies this
      ensures cursor == (if old(pending).Some? then old(pending) else old(cursor)) && pending == None
    {
      if pending.Some? {
        cursor := pending;
        pending := None;
      }
    }
  }

  // ----- The machine -----

  function IdOf(c: FileCursor): (nat, nat) {
    (c.device, c.inode)
  }

  /**
   * A file from its creation or truncation on; every truncation in place, and every new file, is a
   * generation of its own. Only the device and the inode are visible to the reader.
   */
  datatype Source = Source(file: File, generation: nat)

  /** A cursor, and for the statement what it has consumed: a prefix of one generation. */
  datatype Mark = Mark(cursor: FileCursor, generation: nat, prefix: Bytes)

  /** What has been consumed of one generation. */
  datatype Portion = Portion(generation: nat, prefix: Bytes)

  /** Where one collection round is. */
  datatype Phase = Ready | Emitting(entries: seq<Entry>, update: Option<Mark>) | Appended

  /**
   * `cursor` and `pending` are the collector's memory; `durable` and `log` are the cursor and the
   * entries that the spool holds, changed in one transaction. `present` says whether the path exists
   * now. For the statement, `written` remembers the bytes of each generation, and `consumed` the
   * portions that have become durable, in order.
   */
  datatype World = World(
    source: Option<Source>, present: bool, written: seq<Bytes>,
    cursor: Option<Mark>, pending: Option<Mark>, phase: Phase,
    durable: Option<Mark>, log: seq<Entry>, consumed: seq<Portion>)

  const INITIAL := World(None, false, [], None, None, Ready, None, [], [])

  datatype Step =
    | Write(bytes: Bytes)
    | Replace(next: File)
    | Vanish
    | Reappear
    | Collect
    | Append
    | FailAppend
    | Commit
    | FailAfterAppend
    | Crash

  datatype Config = Config(max: nat, maxLines: nat)

  /** What `stat` finds. */
  function FileNow(w: World): Option<File> {
    if w.present && w.source.Some? then Some(w.source.value.file) else None
  }

  function CursorOf(m: Option<Mark>): Option<FileCursor> {
    if m.Some? then Some(m.value.cursor) else None
  }

  function Apply(cfg: Config, w: World, step: Step): World {
    match step
    case Write(bytes) => if w.source.Some? && Current(w) then DoWrite(w, w.source.value, bytes) else w
    case Replace(next) => DoReplace(w, next)
    case Vanish => w.(present := false)
    case Reappear => w.(present := true)
    case Collect => if w.phase.Ready? then DoCollect(cfg, w) else w
    case Append => if w.phase.Emitting? then DoAppend(w, w.phase.entries, w.phase.update) else w
    case FailAppend => if w.phase.Emitting? then w.(phase := Ready) else w
    case Commit =>
      if w.phase.Appended?
      then w.(phase := Ready, cursor := if w.pending.Some? then w.pending else w.cursor, pending := None) else w
    case FailAfterAppend => if w.phase.Appended? then w.(phase := Ready) else w
    case Crash => w.(phase := Ready, cursor := w.durable, pending := None)
  }

  predicate Current(w: World) {
    w.source.Some? ==> w.source.value.generation + 1 == |w.written|
  }

  function DoWrite(w: World, source: Source, bytes: Bytes): World
    requires source.generation < |w.written|
  {
    var content := source.file.content + bytes;
    w.(source := Some(source.(file := source.file.(content := content))), written := w.written[source.generation := content])
  }

  /** Truncation in place keeps the device and the inode; so may a new file that reuses the inode; a rotation changes it. */
  function DoReplace(w: World, next: File): World {
    w.(source := Some(Source(next, |w.written|)), present := true, written := w.written + [next.content])
  }

  function Before(content: Bytes, n: nat): Bytes {
    if n <= |content| then content[..n] else content
  }

  function DoCollect(cfg: Config, w: World): World {
    match FileNow(w)
    case None => w.(phase := Emitting([], w.pending))
    case Some(file) =>
      var (pieces, next) := Read(CursorOf(w.cursor), file, cfg.max, cfg.maxLines);
      var mark := Mark(next, w.source.value.generation, Before(file.content, next.offset));
      w.(pending := Some(mark), phase := Emitting(EventsOf(pieces, cfg.max), Some(mark)))
  }

  /** The entries and the cursor become durable together. */
  function DoAppend(w: World, entries: seq<Entry>, update: Option<Mark>): World {
    w.(phase := Appended, log := w.log + entries,
       durable := if update.Some? then update else w.durable,
       consumed := if update.Some? then Advance(w.consumed, update.value) else w.consumed)
  }

  /** A mark of the generation consumed last moves on in it; any other mark opens a portion. */
  function Advance(consumed: seq<Portion>, m: Mark): seq<Portion> {
    var portion := Portion(m.generation, m.prefix);
    if consumed != [] && consumed[|consumed| - 1].generation == m.generation
    then consumed[..|consumed| - 1] + [portion] else consumed + [portion]
  }

  function Run(cfg: Config, w: World, steps: seq<Step>): World
    decreases steps
  {
    if steps == [] then w else Run(cfg, Apply(cfg, w, steps[0]), steps[1..])
  }

  // ----- Exactness -----

  /** The entries that the consumed portions amount to. */
  function EntriesOf(portions: seq<Portion>, max: nat): seq<Entry> {
    if portions == [] then []
    else EntriesOf(portions[..|portions| - 1], max) + CutAll(Lines(portions[|portions| - 1].prefix), max)
  }

  /** What is durable is, generation by generation, exactly the complete lines of what was consumed. */
  predicate Exact(cfg: Config, w: World) {
    w.log == EntriesOf(w.consumed, cfg.max)
  }

  /** Each generation was consumed at most once, in order, and what was consumed is what had been written to it. */
  predicate InOrder(consumed: seq<Portion>, written: seq<Bytes>) {
    && (forall i, j | 0 <= i < j < |consumed| :: consumed[i].generation < consumed[j].generation)
    && (forall p | p in consumed :: p.generation < |written| && p.prefix <= written[p.generation])
  }

  /** The cursor of a mark describes its prefix, and the prefix belongs to its generation. */
  predicate Sound(cfg: Config, w: World, m: Mark) {
    && m.generation < |w.written| && m.prefix <= w.written[m.generation]
    && m.cursor.offset == |m.prefix| && Tracks(m.cursor, m.prefix, cfg.max)
    && (w.source.Some? && w.source.value.generation == m.generation
        ==> IdOf(m.cursor) == (w.source.value.file.device, w.source.value.file.inode))
  }

  predicate Newest(w: World, m: Mark) {
    w.consumed == [] || w.consumed[|w.consumed| - 1].generation <= m.generation
  }

  /** The lines that are durable of the generation of the mark. */
  function DurableLines(cfg: Config, w: World, m: Mark): seq<Entry> {
    if w.durable.Some? && w.durable.value.generation == m.generation
    then CutAll(Lines(w.durable.value.prefix), cfg.max) else []
  }

  /** The entries that a mark adds to what is durable. */
  predicate Extends(cfg: Config, w: World, entries: seq<Entry>, m: Mark) {
    && Sound(cfg, w, m) && Newest(w, m)
    && CutAll(Lines(m.prefix), cfg.max) == DurableLines(cfg, w, m) + entries
  }

  predicate SourceInv(w: World) {
    && (w.source.Some? ==> Current(w) && w.written[w.source.value.generation] == w.source.value.file.content)
    && (w.source.None? ==> w.written == [])
  }

  predicate LastIs(consumed: seq<Portion>, m: Mark) {
    consumed != [] && consumed[|consumed| - 1] == Portion(m.generation, m.prefix)
  }

  predicate DurableInv(cfg: Config, w: World) {
    && Exact(cfg, w) && InOrder(w.consumed, w.written)
    && (w.durable.None? <==> w.consumed == [])
    && (w.durable.Some? ==> Sound(cfg, w, w.durable.value) && LastIs(w.consumed, w.durable.value))
  }

  predicate MemoryInv(cfg: Config, w: World) {
    match w.phase
    case Ready => w.cursor == w.durable
    case Emitting(entries, None) => entries == [] && w.cursor == w.durable && w.pending == None
    case Emitting(entries, Some(m)) => w.cursor == w.durable && w.pending == Some(m) && Extends(cfg, w, entries, m)
    case Appended => if w.pending.Some? then w.pending == w.durable else w.cursor == w.durable
  }

  predicate Inv(cfg: Config, w: World) {
    cfg.maxLines >= 1 && SourceInv(w) && DurableInv(cfg, w) && MemoryInv(cfg, w)
  }

  /**
   * The cursor belongs to an earlier generation, but the file has its device and inode and is not
   * shorter than its offset: a truncated file that has grown past the cursor again, or a new file that
   * got the old inode.
   */
  predicate Regrown(w: World) {
    && FileNow(w).Some? && w.cursor.Some?
    && w.cursor.value.generation != w.source.value.generation
    && IdOf(w.cursor.value.cursor) == (w.source.value.file.device, w.source.value.file.inode)
    && w.cursor.value.cursor.offset <= |w.source.value.file.content|
  }

  /**
   * The ways in which a round can derail the collector: an error after the durable append, which
   * leaves the old cursor in memory; a missing file while the cursor of a failed append is still
   * pending; and a file that another one has replaced without being noticed.
   */
  predicate Disciplined(w: World, step: Step) {
    && !(step.FailAfterAppend? && w.phase.Appended?)
    && !(step.Collect? && w.phase.Ready? && FileNow(w).None? && w.pending.Some?)
    && !(step.Collect? && w.phase.Ready? && Regrown(w))
  }

  predicate DisciplinedRun(cfg: Config, w: World, steps: seq<Step>)
    decreases steps
  {
    steps != [] ==> Disciplined(w, steps[0]) && DisciplinedRun(cfg, Apply(cfg, w, steps[0]), steps[1..])
  }

  // ----- Steps keep the invariant -----

  /** Files only grow and generations only appear: every mark keeps its meaning. */
  lemma WorldGrows(cfg: Config, w: World, w': World)
    requires Inv(cfg, w) && SourceInv(w')
    requires w' == w.(source := w'.source, present := w'.present, written := w'.written)
    requires |w.written| <= |w'.written| && forall i | 0 <= i < |w.written| :: w.written[i] <= w'.written[i]
    requires w'.source.Some? && w'.source.value.generation < |w.written| ==>
               w.source.Some? && w.source.value.generation == w'.source.value.generation
               && w.source.value.file.device == w'.source.value.file.device && w.source.value.file.inode == w'.source.value.file.inode
    ensures Inv(cfg, w')
  {
    hide Tracks, Lines, CutAll, EntriesOf;
  }

  lemma WriteKeeps(cfg: Config, w: World, bytes: Bytes)
    requires Inv(cfg, w) && w.source.Some?
    ensures Inv(cfg, DoWrite(w, w.source.value, bytes))
  {
    hide DurableInv, MemoryInv;
    WorldGrows(cfg, w, DoWrite(w, w.source.value, bytes));
  }

  lemma ReplaceKeeps(cfg: Config, w: World, next: File)
    requires Inv(cfg, w)
    ensures Inv(cfg, DoReplace(w, next))
  {
    hide DurableInv, MemoryInv;
    WorldGrows(cfg, w, DoReplace(w, next));
  }

  lemma StartTracks(device: nat, inode: nat, content: Bytes, max: nat)
    ensures Tracks(FileCursor(device, inode, 0, [], false), content, max)
    ensures CutAll(Lines(content[..0]), max) == []
  {
  }

  lemma ReadKeepsId(from: FileCursor, file: File, max: nat, maxLines: nat)
    requires from.offset <= |file.content|
    ensures IdOf(ReadFrom(from, file, max, maxLines).1) == (file.device, file.inode)
  {
  }

  lemma TracksPrefix(c: FileCursor, content: Bytes, max: nat)
    requires Tracks(c, content, max)
    ensures c.offset <= |content| && |content[..c.offset]| == c.offset && Tracks(c, content[..c.offset], max)
  {
    assert content[..c.offset][..c.offset] == content[..c.offset];
  }

  /** What a noticed or undisturbed read from the durable cursor returns extends what is durable. */
  lemma ReadExtends(cfg: Config, w: World, file: File)
    requires Inv(cfg, w) && w.phase.Ready? && FileNow(w) == Some(file) && !Regrown(w)
    ensures var (pieces, next) := Read(CursorOf(w.cursor), file, cfg.max, cfg.maxLines);
            Extends(cfg, w, EventsOf(pieces, cfg.max), Mark(next, w.source.value.generation, Before(file.content, next.offset)))
  {
    var from := Resume(CursorOf(w.cursor), file);
    ResumesRight(cfg, w, file);
    ReadStep(from, file, cfg.max, cfg.maxLines);
    ReadKeepsId(from, file, cfg.max, cfg.maxLines);
    var (pieces, next) := Read(CursorOf(w.cursor), file, cfg.max, cfg.maxLines);
    TracksPrefix(next, file.content, cfg.max);
    LatestGeneration(cfg, w);
    hide Lines, Tail, CutAll, EventsOf, ReadFrom, EntriesOf, Tracks, DurableInv, MemoryInv, Resume;
  }

  lemma LatestGeneration(cfg: Config, w: World)
    requires SourceInv(w) && DurableInv(cfg, w) && w.source.Some?
    ensures w.source.value.generation < |w.written| && w.written[w.source.value.generation] == w.source.value.file.content
    ensures w.consumed == [] || w.consumed[|w.consumed| - 1].generation <= w.source.value.generation
  {
    if w.consumed != [] {
      assert w.consumed[|w.consumed| - 1] in w.consumed;
    }
  }

  /** Reading starts at the durable cursor of this generation, or at the front of a generation that is new. */
  lemma ResumesRight(cfg: Config, w: World, file: File)
    requires Inv(cfg, w) && w.phase.Ready? && FileNow(w) == Some(file) && !Regrown(w)
    ensures var from := Resume(CursorOf(w.cursor), file);
            && Tracks(from, file.content, cfg.max)
            && CutAll(Lines(file.content[..from.offset]), cfg.max)
               == (if w.durable.Some? && w.durable.value.generation == w.source.value.generation
                   then CutAll(Lines(w.durable.value.prefix), cfg.max) else [])
  {
    StartTracks(file.device, file.inode, file.content, cfg.max);
    if w.durable.Some? && w.durable.value.generation == w.source.value.generation {
      var m := w.durable.value;
      TracksGrows(m.cursor, m.prefix, file.content, cfg.max);
      assert m.prefix[..|m.prefix|] == m.prefix;
    }
    hide Lines, Tail, CutAll, EntriesOf;
  }

  lemma CollectKeeps(cfg: Config, w: World)
    requires Inv(cfg, w) && w.phase.Ready? && (FileNow(w).Some? || w.pending.None?) && !Regrown(w)
    ensures Inv(cfg, DoCollect(cfg, w))
  {
    if FileNow(w).Some? {
      ReadExtends(cfg, w, w.source.value.file);
    }
    CollectFrame(cfg, w, DoCollect(cfg, w));
    hide Read, EventsOf, SourceInv, DurableInv, Extends;
  }

  /** Memory does not matter to what is durable. */
  lemma CollectFrame(cfg: Config, w: World, w': World)
    requires w' == w.(pending := w'.pending, phase := w'.phase)
    ensures (SourceInv(w') <==> SourceInv(w)) && (DurableInv(cfg, w') <==> DurableInv(cfg, w))
    ensures forall entries, m :: Extends(cfg, w', entries, m) <==> Extends(cfg, w, entries, m)
  {
    hide Tracks, Lines, CutAll, EntriesOf;
  }

  lemma AppendKeeps(cfg: Config, w: World)
    requires Inv(cfg, w) && w.phase.Emitting?
    ensures Inv(cfg, DoAppend(w, w.phase.entries, w.phase.update))
  {
    hide Lines, CutAll, EntriesOf, Advance, EventsOf, Tracks, InOrder, SourceInv, Current;
    var w' := DoAppend(w, w.phase.entries, w.phase.update);
    if w.phase.update.Some? {
      var m := w.phase.update.value;
      AdvanceIsExact(cfg, w, w.phase.entries, m);
      AdvanceInOrder(cfg, w, w.phase.entries, m);
      SoundFrame(cfg, w, w', m);
    } else {
      assert w.log + [] == w.log;
      if w.durable.Some? {
        SoundFrame(cfg, w, w', w.durable.value);
      }
    }
    SourceFrame(w, w');
  }

  lemma SoundFrame(cfg: Config, w: World, w': World, m: Mark)
    requires w'.source == w.source && w'.written == w.written
    ensures Sound(cfg, w', m) <==> Sound(cfg, w, m)
  {
  }

  lemma SourceFrame(w: World, w': World)
    requires w'.source == w.source && w'.written == w.written
    ensures SourceInv(w') <==> SourceInv(w)
  {
  }

  lemma AdvanceIsExact(cfg: Config, w: World, entries: seq<Entry>, m: Mark)
    requires DurableInv(cfg, w) && Extends(cfg, w, entries, m)
    ensures w.log + entries == EntriesOf(Advance(w.consumed, m), cfg.max)
  {
    hide Lines, CutAll, Tracks;
    var after := Advance(w.consumed, m);
    if w.consumed != [] && w.consumed[|w.consumed| - 1].generation == m.generation {
      assert after[..|after| - 1] == w.consumed[..|w.consumed| - 1];
    } else {
      assert after[..|after| - 1] == w.consumed;
    }
  }

  lemma AdvanceInOrder(cfg: Config, w: World, entries: seq<Entry>, m: Mark)
    requires DurableInv(cfg, w) && Sound(cfg, w, m) && Newest(w, m)
    ensures var after := Advance(w.consumed, m);
            InOrder(after, w.written) && LastIs(after, m)
  {
    hide Tracks, Exact, SourceInv, Sound, LastIs;
    assert Sound(cfg, w, m);
    SoundIs(cfg, w, m);
    AppendInOrder(w.consumed, m, w.written);
    assert LastIs(Advance(w.consumed, m), m) by {
      AdvanceLast(w.consumed, m);
    }
  }

  lemma SoundIs(cfg: Config, w: World, m: Mark)
    requires Sound(cfg, w, m)
    ensures m.generation < |w.written| && m.prefix <= w.written[m.generation]
  {
  }

  lemma AdvanceLast(consumed: seq<Portion>, m: Mark)
    ensures LastIs(Advance(consumed, m), m)
  {
  }

  lemma AppendInOrder(consumed: seq<Portion>, m: Mark, written: seq<Bytes>)
    requires InOrder(consumed, written) && m.generation < |written| && m.prefix <= written[m.generation]
    requires consumed == [] || consumed[|consumed| - 1].generation <= m.generation
    ensures InOrder(Advance(consumed, m), written)
  {
    var after := Advance(consumed, m);
    forall p | p in after
      ensures p.generation < |written| && p.prefix <= written[p.generation]
    {
      assert p in consumed || p == Portion(m.generation, m.prefix);
    }
  }

  lemma StepKeeps(cfg: Config, w: World, step: Step)
    requires Inv(cfg, w) && Disciplined(w, step)
    ensures Inv(cfg, Apply(cfg, w, step))
  {
    match step
    case Collect =>
      if w.phase.Ready? {
        CollectKeeps(cfg, w);
      }
    case Append =>
      if w.phase.Emitting? {
        AppendKeeps(cfg, w);
      }
    case Write(bytes) =>
      if w.source.Some? && Current(w) {
        WriteKeeps(cfg, w, bytes);
      }
    case Replace(next) => ReplaceKeeps(cfg, w, next);
    case _ => MemoryStepKeeps(cfg, w, step);
  }

  lemma MemoryStepKeeps(cfg: Config, w: World, step: Step)
    requires Inv(cfg, w) && Disciplined(w, step)
    requires step.Vanish? || step.Reappear? || step.FailAppend? || step.Commit? || step.FailAfterAppend? || step.Crash?
    ensures Inv(cfg, Apply(cfg, w, step))
  {
    hide Lines, CutAll, EntriesOf, Tracks, InOrder, LastIs, SourceInv, Sound, DoCollect, DoAppend, DoWrite, DoReplace;
    var w' := Apply(cfg, w, step);
    SourceFrame(w, w');
    if w.durable.Some? {
      SoundFrame(cfg, w, w', w.durable.value);
    }
    if w.phase.Emitting? && w.phase.update.Some? {
      SoundFrame(cfg, w, w', w.phase.update.value);
    }
  }

  lemma {:induction false} RunKeeps(cfg: Config, w: World, steps: seq<Step>)
    requires Inv(cfg, w) && DisciplinedRun(cfg, w, steps)
    ensures Inv(cfg, Run(cfg, w, steps))
    decreases steps
  {
    if steps != [] {
      StepKeeps(cfg, w, steps[0]);
      RunKeeps(cfg, Apply(cfg, w, steps[0]), steps[1..]);
    }
  }

  /**
   * Crash safety: with crashes and restores between any two steps, failed appends, and files that grow,
   * are rotated, are truncated in place to less than the cursor, vanish and come back, the entries ever
   * durably appended are exactly the cut complete lines of what was consumed: of each generation at
   * most one portion, a prefix of what was written to it, and the last one up to the durable cursor.
   */
  lemma CrashSafety(cfg: Config, steps: seq<Step>)
    requires cfg.maxLines >= 1 && DisciplinedRun(cfg, INITIAL, steps)
    ensures var w := Run(cfg, INITIAL, steps);
            && w.log == EntriesOf(w.consumed, cfg.max) && InOrder(w.consumed, w.written)
            && (w.durable.Some? ==> Sound(cfg, w, w.durable.value) && LastIs(w.consumed, w.durable.value))
  {
    RunKeeps(cfg, INITIAL, steps);
  }

  // ----- What the undisciplined steps do -----

  lemma {:induction false} RunJoin(cfg: Config, w: World, a: seq<Step>, b: seq<Step>)
    ensures Run(cfg, w, a + b) == Run(cfg, Run(cfg, w, a), b)
    decreases a
  {
    if a == [] {
      assert a + b == b;
    } else {
      assert (a + b)[1..] == a[1..] + b;
      RunJoin(cfg, Apply(cfg, w, a[0]), a[1..], b);
    }
  }

  lemma RunTwo(cfg: Config, w: World, a: Step, b: Step)
    ensures Run(cfg, w, [a, b]) == Apply(cfg, Apply(cfg, w, a), b)
  {
    hide Apply;
    assert [a, b][1..] == [b] && [b][1..] == [];
    assert Run(cfg, Apply(cfg, w, a), [b]) == Apply(cfg, Apply(cfg, w, a), b);
  }

  /** Storing entries that are there already: the log stays exact only if there are none. */
  lemma TooManyOrTooFew(log: seq<Entry>, entries: seq<Entry>)
    ensures log + entries == log <==> entries == []
    ensures log + entries + entries == log + entries <==> entries == []
  {
  }

  /**
   * An append that fails leaves its cursor pending. If the file is missing at the next round, that
   * cursor is stored with no entries: the durable log stays exact exactly if the failed round had
   * nothing to append.
   */
  lemma StalePendingSkips(cfg: Config, w: World)
    requires Inv(cfg, w) && w.phase.Emitting? && w.phase.update.Some?
    ensures Exact(cfg, Run(cfg, w, [FailAppend, Vanish] + [Collect, Append])) <==> w.phase.entries == []
  {
    var m := w.phase.update.value;
    RunJoin(cfg, w, [FailAppend, Vanish], [Collect, Append]);
    RunTwo(cfg, w, FailAppend, Vanish);
    RunTwo(cfg, Run(cfg, w, [FailAppend, Vanish]), Collect, Append);
    AdvanceIsExact(cfg, w, w.phase.entries, m);
    TooManyOrTooFew(w.log, w.phase.entries);
    hide EntriesOf, Advance, Inv, Run;
  }

  /**
   * An error after the durable append leaves the old cursor in memory, so the next round appends the
   * same lines again: the log stays exact exactly if the failed round had no line to append.
   */
  lemma StaleCursorRepeats(cfg: Config, w: World)
    requires Inv(cfg, w) && w.phase.Ready? && FileNow(w).Some? && !Regrown(w)
    ensures var entries := EventsOf(Read(CursorOf(w.cursor), w.source.value.file, cfg.max, cfg.maxLines).0, cfg.max);
            Exact(cfg, Run(cfg, w, [Collect, Append] + [FailAfterAppend] + [Collect, Append])) <==> entries == []
  {
    var w1 := DoCollect(cfg, w);
    var entries, m := w1.phase.entries, w1.phase.update.value;
    var once := DoAppend(w1, entries, Some(m));
    CollectKeeps(cfg, w);
    AppendKeeps(cfg, w1);
    assert Exact(cfg, once) && LastIs(once.consumed, m);
    assert Advance(once.consumed, m) == once.consumed;
    TwoRounds(cfg, w);
    TooManyOrTooFew(w.log, entries);
    hide EntriesOf, Advance, Inv, Run, Read, EventsOf;
  }

  lemma TwoRounds(cfg: Config, w: World)
    requires w.phase.Ready? && FileNow(w).Some?
    ensures var w1 := DoCollect(cfg, w);
            var once := DoAppend(w1, w1.phase.entries, w1.phase.update);
            var last := Run(cfg, w, [Collect, Append] + [FailAfterAppend] + [Collect, Append]);
            && last.log == once.log + w1.phase.entries
            && last.consumed == Advance(once.consumed, w1.phase.update.value)
  {
    hide EntriesOf, Advance, Read, EventsOf;
    var w1 := DoCollect(cfg, w);
    var once := DoAppend(w1, w1.phase.entries, w1.phase.update);
    RunJoin(cfg, w, [Collect, Append] + [FailAfterAppend], [Collect, Append]);
    RunJoin(cfg, w, [Collect, Append], [FailAfterAppend]);
    RunTwo(cfg, w, Collect, Append);
    assert [FailAfterAppend][1..] == [];
    assert Run(cfg, once, [FailAfterAppend]) == Run(cfg, Apply(cfg, once, FailAfterAppend), []);
    RunTwo(cfg, once.(phase := Ready), Collect, Append);
  }

  // ----- A file that was replaced without being noticed -----

  /**
   * The new file goes on as the old one was left: none of its lines was passed over, and its first line comes
   * out of the seam between the old partial line and the bytes at the offset, if a read gets that far.
   */
  predicate GoesUnharmed(content: Bytes, c: FileCursor, max: nat, maxLines: nat)
    requires c.offset <= |content|
  {
    && NEWLINE !in content[..c.offset]
    && (NEWLINE in Chunk(content, c.offset, ChunkSize(max, maxLines)) ==> SeamHolds(content, c, max))
  }

  predicate SeamHolds(content: Bytes, c: FileCursor, max: nat)
    requires c.offset <= |content|
  {
    var seam := Lines(c.partial + content[c.offset..]);
    seam != [] && Lines(content) != [] && EventOf(Piece(seam[0], c.partialTruncated), max) == Cut(Lines(content)[0], max)
  }

  /** What a read emits first is the first line of the seam. */
  lemma FirstOfSeam(c: FileCursor, file: File, max: nat, maxLines: nat)
    requires c.offset <= |file.content| && NEWLINE !in c.partial && maxLines >= 1
    ensures var entries, seam := EventsOf(ReadFrom(c, file, max, maxLines).0, max), Lines(c.partial + file.content[c.offset..]);
            && (entries != [] <==> NEWLINE in Chunk(file.content, c.offset, ChunkSize(max, maxLines)))
            && (entries != [] ==> seam != [] && entries[0] == EventOf(Piece(seam[0], c.partialTruncated), max))
  {
    var chunk := Chunk(file.content, c.offset, ChunkSize(max, maxLines));
    var rest := file.content[c.offset + |chunk|..];
    hide Lines, Tail, Cap, ChunkSize;
    assert c.partial + file.content[c.offset..] == (c.partial + chunk) + rest;
    FirstLine(c.partial + chunk, rest);
    NewlineLines(c.partial + chunk);
  }

  /** A first read of the new file emits what is complete in it exactly if it goes unharmed. */
  lemma RegrownEntries(cfg: Config, c: FileCursor, file: File)
    requires c.offset <= |file.content| && NEWLINE !in c.partial && cfg.maxLines >= 1
    ensures var (pieces, next) := ReadFrom(c, file, cfg.max, cfg.maxLines);
            && next.offset <= |file.content|
            && (EventsOf(pieces, cfg.max) == CutAll(Lines(file.content[..next.offset]), cfg.max)
                <==> GoesUnharmed(file.content, c, cfg.max, cfg.maxLines))
  {
    ReadPart(c, file, cfg.max, cfg.maxLines);
    FirstOfSeam(c, file, cfg.max, cfg.maxLines);
    var (pieces, next) := ReadFrom(c, file, cfg.max, cfg.maxLines);
    var head, part := file.content[..c.offset], file.content[c.offset..next.offset];
    hide ReadFrom, Lines, Tail, Cap, Chunk, ChunkSize, EventOf;
    assert file.content[..next.offset] == head + part;
    assert file.content == head + part + file.content[next.offset..];
    FirstLine(head + part, file.content[next.offset..]);
    if NEWLINE in head {
      PassedOver(c.partial, head, part, c.partialTruncated, cfg.max);
    } else {
      SameButFirst(c.partial, head, part, c.partialTruncated, cfg.max);
    }
  }

  /** A complete line of the beginning is the first line of the whole. */
  lemma FirstLine(a: Bytes, b: Bytes)
    ensures Lines(a) != [] ==> Lines(a + b) != [] && Lines(a + b)[0] == Lines(a)[0]
  {
    SplitConcat(a, b);
    hide Lines, Tail;
  }

  /** With a newline before the cursor, there are more complete lines than entries. */
  lemma PassedOver(partial: Bytes, head: Bytes, part: Bytes, forced: bool, max: nat)
    requires NEWLINE !in partial && NEWLINE in head
    ensures EventsOf(PiecesOf(Lines(partial + part), forced), max) != CutAll(Lines(head + part), max)
  {
    SplitConcat(head, part);
    NewlineLines(head);
    SplitIsExact(head);
    PrefixedSplit(Tail(head), part);
    PrefixedSplit(partial, part);
    hide Lines, Tail, Cap;
    assert |EventsOf(PiecesOf(Lines(partial + part), forced), max)| == |Lines(part)|;
    assert |CutAll(Lines(head + part), max)| > |Lines(part)|;
  }

  lemma {:induction false} NewlineLines(b: Bytes)
    ensures Lines(b) == [] <==> NEWLINE !in b
  {
    if b != [] {
      NewlineLines(b[..|b| - 1]);
      assert b == b[..|b| - 1] + [b[|b| - 1]];
    }
  }

  /** All lines but the first are those of the bytes read. */
  lemma SameButFirst(partial: Bytes, head: Bytes, part: Bytes, forced: bool, max: nat)
    requires NEWLINE !in partial && NEWLINE !in head
    ensures var entries, whole := EventsOf(PiecesOf(Lines(partial + part), forced), max), Lines(head + part);
            && |entries| == |whole| == |Lines(part)|
            && (entries == CutAll(whole, max) <==> entries == [] || entries[0] == Cut(whole[0], max))
  {
    PrefixedSplit(partial, part);
    PrefixedSplit(head, part);
    hide Lines, Tail;
    var lines, whole := Lines(partial + part), Lines(head + part);
    var entries := EventsOf(PiecesOf(lines, forced), max);
    assert forall i | 0 < i < |lines| :: lines[i] == whole[i];
    hide Cap;
    assert forall i | 0 < i < |lines| :: entries[i] == Cut(whole[i], max);
    if entries != [] && entries[0] == Cut(whole[0], max) {
      assert entries == CutAll(whole, max);
    }
  }

  /**
   * A truncated file that has grown past the cursor, or a new file with the old inode: the round is
   * exact exactly if the new file goes unharmed, whatever is in it.
   */
  lemma ReplacedUnnoticed(cfg: Config, w: World)
    requires Inv(cfg, w) && w.phase.Ready? && Regrown(w)
    ensures Exact(cfg, Run(cfg, w, [Collect, Append]))
            <==> GoesUnharmed(w.source.value.file.content, w.cursor.value.cursor, cfg.max, cfg.maxLines)
  {
    var file, c := w.source.value.file, w.cursor.value.cursor;
    assert Resume(CursorOf(w.cursor), file) == c;
    SplitIsExact(w.cursor.value.prefix[..c.offset]);
    assert NEWLINE !in c.partial;
    hide Lines, Tail, ReadFrom, EventsOf, CutAll, GoesUnharmed;
    RegrownEntries(cfg, c, file);
    RunTwo(cfg, w, Collect, Append);
    var (pieces, next) := ReadFrom(c, file, cfg.max, cfg.maxLines);
    var portion := Portion(w.source.value.generation, file.content[..next.offset]);
    assert (w.consumed + [portion])[..|w.consumed|] == w.consumed;
    hide Run, Inv;
    SameLog(w.log, EventsOf(pieces, cfg.max), CutAll(Lines(portion.prefix), cfg.max));
  }

  lemma SameLog(log: seq<Entry>, a: seq<Entry>, b: seq<Entry>)
    ensures log + a == log + b <==> a == b
  {
    assert a == (log + a)[|log|..] && b == (log + b)[|log|..];
  }

  // ----- Each of the three happens -----

  const ONE_LINE := File(0, 0, [NEWLINE])

  lemma FirstEntries(max: nat, maxLines: nat)
    requires maxLines >= 1
    ensures var (pieces, next) := Read(None, ONE_LINE, max, maxLines);
            EventsOf(pieces, max) != [] && next.offset == 1 && IdOf(next) == (0, 0)
  {
    hide ReadFrom, Lines, Tail, CutAll, EventsOf, ChunkSize, Tracks, Cap;
    var from := Resume(None, ONE_LINE);
    StartTracks(0, 0, ONE_LINE.content, max);
    ReadGains(from, ONE_LINE, max, maxLines);
    ReadKeepsId(from, ONE_LINE, max, maxLines);
    OneByte(ONE_LINE.content);
    assert ONE_LINE.content[..1] == ONE_LINE.content;
    OneEntry(max);
  }

  lemma ReadGains(from: FileCursor, file: File, max: nat, maxLines: nat)
    requires Tracks(from, file.content, max) && maxLines >= 1 && from.offset == 0 && |file.content| == 1
    requires CutAll(Lines(file.content[..0]), max) == []
    ensures var (pieces, next) := ReadFrom(from, file, max, maxLines);
            next.offset == 1 && EventsOf(pieces, max) == CutAll(Lines(file.content[..1]), max)
  {
    ReadStep(from, file, max, maxLines);
    hide ReadFrom, Lines, Tail, CutAll, EventsOf;
  }

  /** A file with one empty line, and the round that reads it. */
  lemma FirstRound(cfg: Config)
    requires cfg.maxLines >= 1
    ensures var w := Run(cfg, INITIAL, [Replace(ONE_LINE)]);
            var (pieces, next) := Read(None, ONE_LINE, cfg.max, cfg.maxLines);
            && Inv(cfg, w) && w.phase.Ready? && w.cursor == None && w.pending == None && FileNow(w) == Some(ONE_LINE) && !Regrown(w)
            && EventsOf(pieces, cfg.max) != [] && next.offset == 1 && IdOf(next) == (0, 0)
  {
    assert Inv(cfg, INITIAL);
    hide Run, Read, EventsOf, Inv;
    FirstEntries(cfg.max, cfg.maxLines);
    OneStep(cfg, INITIAL, Replace(ONE_LINE));
    ReplaceKeeps(cfg, INITIAL, ONE_LINE);
  }

  lemma OneEntry(max: nat)
    ensures |CutAll([[]], max)| == 1
  {
  }

  lemma OneStep(cfg: Config, w: World, step: Step)
    ensures Run(cfg, w, [step]) == Apply(cfg, w, step)
  {
    hide Apply;
    assert [step][1..] == [];
  }

  /** The state in the middle of that round. */
  function Reading(cfg: Config): World {
    DoCollect(cfg, Run(cfg, INITIAL, [Replace(ONE_LINE)]))
  }

  lemma FirstRead(cfg: Config)
    requires cfg.maxLines >= 1
    ensures var w := Reading(cfg);
            && Inv(cfg, w) && w.phase.Emitting? && w.phase.entries != [] && w.phase.update.Some?
            && w.phase.update.value.cursor.offset == 1 && IdOf(w.phase.update.value.cursor) == (0, 0)
            && w.phase.update.value.generation < |w.written|
            && w == Run(cfg, INITIAL, [Replace(ONE_LINE)] + [Collect])
  {
    hide Run, Inv, Read, EventsOf, Before, Regrown;
    var w := Run(cfg, INITIAL, [Replace(ONE_LINE)]);
    FirstRound(cfg);
    CollectKeeps(cfg, w);
    HasSource(cfg, w);
    RunJoin(cfg, INITIAL, [Replace(ONE_LINE)], [Collect]);
    OneStep(cfg, w, Collect);
  }

  lemma HasSource(cfg: Config, w: World)
    requires Inv(cfg, w) && w.source.Some?
    ensures w.source.value.generation < |w.written|
  {
  }

  lemma SkipHappens(cfg: Config)
    requires cfg.maxLines >= 1
    ensures !Exact(cfg, Run(cfg, INITIAL, [Replace(ONE_LINE)] + [Collect] + ([FailAppend, Vanish] + [Collect, Append])))
  {
    FirstRead(cfg);
    hide Run, Inv, Exact, Reading;
    RunJoin(cfg, INITIAL, [Replace(ONE_LINE)] + [Collect], [FailAppend, Vanish] + [Collect, Append]);
    StalePendingSkips(cfg, Reading(cfg));
  }

  lemma RepeatHappens(cfg: Config)
    requires cfg.maxLines >= 1
    ensures !Exact(cfg, Run(cfg, INITIAL, [Replace(ONE_LINE)] + ([Collect, Append] + [FailAfterAppend] + [Collect, Append])))
  {
    var w := Run(cfg, INITIAL, [Replace(ONE_LINE)]);
    FirstRound(cfg);
    RunJoin(cfg, INITIAL, [Replace(ONE_LINE)], [Collect, Append] + [FailAfterAppend] + [Collect, Append]);
    hide Run, Inv, Read, EventsOf, Exact;
    StaleCursorRepeats(cfg, w);
  }

  /** The same line in a new file of the same inode: the reader never sees it. */
  lemma UnnoticedHappens(cfg: Config)
    requires cfg.maxLines >= 1
    ensures !Exact(cfg, Run(cfg, INITIAL, [Replace(ONE_LINE)] + [Collect, Append] + [Commit, Replace(ONE_LINE)] + [Collect, Append]))
  {
    hide Run, Inv, Exact, Reading, Read, EventsOf, Advance, Lines;
    FirstRead(cfg);
    var read := Reading(cfg);
    var once := DoAppend(read, read.phase.entries, read.phase.update);
    AppendKeeps(cfg, read);
    PendingIs(cfg, read);
    RunJoin(cfg, INITIAL, [Replace(ONE_LINE)] + [Collect], [Append]);
    OneStep(cfg, read, Append);
    assert [Replace(ONE_LINE)] + [Collect] + [Append] == [Replace(ONE_LINE)] + [Collect, Append];
    SecondFile(cfg, once);
    RunJoin(cfg, INITIAL, [Replace(ONE_LINE)] + [Collect, Append], [Commit, Replace(ONE_LINE)]);
    RunJoin(cfg, INITIAL, [Replace(ONE_LINE)] + [Collect, Append] + [Commit, Replace(ONE_LINE)], [Collect, Append]);
    assert ONE_LINE.content[..1] == ONE_LINE.content;
    ReplacedUnnoticed(cfg, Run(cfg, once, [Commit, Replace(ONE_LINE)]));
  }

  lemma PendingIs(cfg: Config, w: World)
    requires Inv(cfg, w) && w.phase.Emitting? && w.phase.update.Some?
    ensures w.pending == w.phase.update
  {
  }

  lemma SecondFile(cfg: Config, once: World)
    requires Inv(cfg, once) && once.phase.Appended? && once.pending.Some?
    requires once.pending.value.cursor.offset == 1 && IdOf(once.pending.value.cursor) == (0, 0)
    requires once.pending.value.generation < |once.written|
    ensures var again := Run(cfg, once, [Commit, Replace(ONE_LINE)]);
            && Inv(cfg, again) && again.phase.Ready? && Regrown(again) && again.source.value.file == ONE_LINE
            && again.cursor.value.cursor.offset == 1
  {
    RunTwo(cfg, once, Commit, Replace(ONE_LINE));
    StepKeeps(cfg, once, Commit);
    hide Inv, Run;
    ReplaceKeeps(cfg, Apply(cfg, once, Commit), ONE_LINE);
  }
}

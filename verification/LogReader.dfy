/**
 * The incremental log file reader of agent/src/temporalrca_agent/collectors/logs.py. It reads
 * bounded chunks, carries a possibly truncated partial line, and rewinds when the line cap is hit;
 * whatever the chunking, it emits the complete lines of the file, each cut to the maximal length.
 */
module LogReader {
  import opened Contracts

  newtype Byte = x: int | 0 <= x < 256

  type Bytes = seq<Byte>

  const NEWLINE: Byte := 10

  // ----- Splitting a file into lines -----

  /** The complete lines of b, without their newlines. */
  function Lines(b: Bytes): seq<Bytes> {
    if b == [] then []
    else
      var front := b[..|b| - 1];
      if b[|b| - 1] == NEWLINE then Lines(front) + [Tail(front)] else Lines(front)
  }

  /** What follows the last newline of b. */
  function Tail(b: Bytes): Bytes {
    if b == [] then []
    else if b[|b| - 1] == NEWLINE then []
    else Tail(b[..|b| - 1]) + [b[|b| - 1]]
  }

  function Join(lines: seq<Bytes>): Bytes {
    if lines == [] then [] else Join(lines[..|lines| - 1]) + lines[|lines| - 1] + [NEWLINE]
  }

  /** `bytes.split`: the pieces between newlines; joining them gives the input back, and no piece holds a newline. */
  lemma {:induction false} SplitIsExact(b: Bytes)
    ensures Join(Lines(b)) + Tail(b) == b
    ensures NEWLINE !in Tail(b)
    ensures forall line | line in Lines(b) :: NEWLINE !in line
  {
    if b != [] {
      var front, last := b[..|b| - 1], b[|b| - 1];
      assert b == front + [last];
      SplitIsExact(front);
      if last == NEWLINE {
        assert Lines(b)[..|Lines(b)| - 1] == Lines(front);
      }
    }
  }

  lemma {:induction false} SplitConcat(a: Bytes, b: Bytes)
    ensures Lines(a + b) == Lines(a) + Lines(Tail(a) + b)
    ensures Tail(a + b) == Tail(Tail(a) + b)
  {
    if b == [] {
      assert a + b == a && Tail(a) + b == Tail(a);
      TailHasNoLines(a);
    } else {
      var front := b[..|b| - 1];
      assert (a + b)[..|a + b| - 1] == a + front;
      assert (Tail(a) + b)[..|Tail(a) + b| - 1] == Tail(a) + front;
      SplitConcat(a, front);
    }
  }

  lemma {:induction false} NoNewline(c: Bytes)
    requires NEWLINE !in c
    ensures Lines(c) == [] && Tail(c) == c
  {
    if c != [] {
      NoNewline(c[..|c| - 1]);
      assert c == c[..|c| - 1] + [c[|c| - 1]];
    }
  }

  lemma TailHasNoLines(a: Bytes)
    ensures Lines(Tail(a)) == [] && Tail(Tail(a)) == Tail(a)
  {
  }

  /** A prefix without newline goes in front of the first line, or of the tail if there is no line. */
  lemma {:induction false} PrefixedSplit(c: Bytes, b: Bytes)
    requires NEWLINE !in c
    ensures Lines(c + b) == (if Lines(b) == [] then [] else [c + Lines(b)[0]] + Lines(b)[1..])
    ensures Tail(c + b) == (if Lines(b) == [] then c + Tail(b) else Tail(b))
  {
    if b == [] {
      assert c + b == c;
      NoNewline(c);
    } else {
      var front := b[..|b| - 1];
      assert (c + b)[..|c + b| - 1] == c + front;
      PrefixedSplit(c, front);
    }
  }

  /** The bytes of the first k lines with their newlines. */
  function Consumed(lines: seq<Bytes>): nat {
    if lines == [] then 0 else Consumed(lines[..|lines| - 1]) + |lines[|lines| - 1]| + 1
  }

  lemma {:induction false} ConsumedAll(b: Bytes)
    ensures Consumed(Lines(b)) + |Tail(b)| == |b|
  {
    if b != [] {
      ConsumedAll(b[..|b| - 1]);
      if b[|b| - 1] == NEWLINE {
        assert Lines(b)[..|Lines(b)| - 1] == Lines(b[..|b| - 1]);
      }
    }
  }

  /** Cutting b behind its first k lines leaves exactly these lines and no tail. */
  lemma {:induction false} TakeLines(b: Bytes, k: nat)
    requires k <= |Lines(b)|
    ensures var m := Consumed(Lines(b)[..k]);
            m <= |b| && Lines(b[..m]) == Lines(b)[..k] && Tail(b[..m]) == []
  {
    if b != [] {
      var front := b[..|b| - 1];
      if k <= |Lines(front)| {
        TakeLines(front, k);
        assert Lines(b)[..k] == Lines(front)[..k];
        var m := Consumed(Lines(b)[..k]);
        assert b[..m] == front[..m];
      } else {
        ConsumedAll(b);
        assert Lines(b)[..k] == Lines(b);
        assert b[..|b|] == b;
      }
    }
  }

  // ----- Emitted text -----

  /** The text of a log event and its `truncated` attribute. */
  datatype Entry = Entry(text: Bytes, truncated: bool)

  function Cap(b: Bytes, max: nat): Bytes {
    if |b| <= max then b else b[..max]
  }

  function Cut(line: Bytes, max: nat): Entry {
    Entry(Cap(line, max), |line| > max)
  }

  /** The longest beginning that fits, marked exactly if it is not the whole line. */
  lemma CutIs(line: Bytes, max: nat)
    ensures Cap(line, max) <= line && |Cap(line, max)| == if |line| < max then |line| else max
    ensures Cut(line, max).text == Cap(line, max) && (Cut(line, max).truncated <==> Cap(line, max) != line)
  {
  }

  function CutAll(lines: seq<Bytes>, max: nat): seq<Entry> {
    seq(|lines|, i requires 0 <= i < |lines| => Cut(lines[i], max))
  }

  /** `_event`: a line may be forced to count as truncated because its beginning was cut already. */
  datatype Piece = Piece(line: Bytes, forced: bool)

  /** Only the first piece can continue a line that was cut. */
  function PiecesOf(lines: seq<Bytes>, forced: bool): seq<Piece> {
    seq(|lines|, i requires 0 <= i < |lines| => Piece(lines[i], i == 0 && forced))
  }

  function EventOf(p: Piece, max: nat): Entry {
    Entry(Cap(p.line, max), p.forced || |p.line| > max)
  }

  function EventsOf(pieces: seq<Piece>, max: nat): seq<Entry> {
    seq(|pieces|, i requires 0 <= i < |pieces| => EventOf(pieces[i], max))
  }

  // ----- One read -----

  datatype FileCursor = FileCursor(device: nat, inode: nat, offset: nat, partial: Bytes, partialTruncated: bool)

  /** The file as one read finds it. */
  datatype File = File(device: nat, inode: nat, content: Bytes)

  predicate Rotated(cursor: Option<FileCursor>, file: File) {
    cursor.None? || cursor.value.device != file.device || cursor.value.inode != file.inode
  }

  /** Where reading starts: at the cursor, or at the front of a rotated or truncated file. */
  function Resume(cursor: Option<FileCursor>, file: File): FileCursor {
    if Rotated(cursor, file) || |file.content| < cursor.value.offset
    then FileCursor(file.device, file.inode, 0, [], false)
    else cursor.value
  }

  function Chunk(content: Bytes, offset: nat, size: nat): Bytes
    requires offset <= |content|
  {
    if offset + size <= |content| then content[offset..offset + size] else content[offset..]
  }

  function ChunkSize(max: nat, maxLines: nat): (n: nat)
    ensures n >= 1
  {
    max * maxLines + 1
  }

  /** `_read` from the resumed cursor: the pieces to emit and the next cursor. */
  function ReadFrom(from: FileCursor, file: File, max: nat, maxLines: nat): (seq<Piece>, FileCursor)
    requires from.offset <= |file.content|
  {
    var chunk := Chunk(file.content, from.offset, ChunkSize(max, maxLines));
    var combined := from.partial + chunk;
    var pieces, trailing := Lines(combined), Tail(combined);
    var taken := if |pieces| <= maxLines then pieces else pieces[..maxLines];
    var lines := PiecesOf(taken, from.partialTruncated);
    if |pieces| > maxLines then
      var rest := Consumed(taken) - |from.partial|;
      (lines, FileCursor(file.device, file.inode, from.offset + (if rest < 0 then 0 else rest), [], false))
    else
      (lines, FileCursor(file.device, file.inode, from.offset + |chunk|, Cap(trailing, max),
                         (from.partialTruncated && pieces == []) || |trailing| > max))
  }

  function Read(cursor: Option<FileCursor>, file: File, max: nat, maxLines: nat): (seq<Piece>, FileCursor) {
    ReadFrom(Resume(cursor, file), file, max, maxLines)
  }

  // ----- The reader theorem -----

  /** The cursor describes the prefix before its offset: its partial line and flag are those of the tail. */
  predicate Tracks(c: FileCursor, content: Bytes, max: nat) {
    && c.offset <= |content|
    && c.partial == Cap(Tail(content[..c.offset]), max)
    && c.partialTruncated == (|Tail(content[..c.offset])| > max)
  }

  /** The tail of what has been read, before and after the cut, splits into the same lines once cut. */
  lemma CutTailLines(tail: Bytes, chunk: Bytes, max: nat)
    requires NEWLINE !in tail
    ensures var whole, cut := Lines(tail + chunk), Lines(Cap(tail, max) + chunk);
            && |whole| == |cut| == |Lines(chunk)|
            && (forall i | 0 <= i < |whole| :: Cut(whole[i], max) == EventOf(Piece(cut[i], i == 0 && |tail| > max), max))
  {
    hide Lines, Tail;
    PrefixedSplit(tail, chunk);
    PrefixedSplit(Cap(tail, max), chunk);
    CappedTwice(tail, Lines(chunk), max);
  }

  /** Only the first line can start in the tail, and it is cut at the same place from either. */
  lemma CappedTwice(tail: Bytes, lines: seq<Bytes>, max: nat)
    ensures lines != [] ==> Cut(tail + lines[0], max) == EventOf(Piece(Cap(tail, max) + lines[0], |tail| > max), max)
  {
  }

  /** And it leaves the same partial line, with a flag that remembers the cut. */
  lemma CutTailRest(tail: Bytes, chunk: Bytes, max: nat)
    requires NEWLINE !in tail
    ensures var whole, cut := Tail(tail + chunk), Tail(Cap(tail, max) + chunk);
            if Lines(Cap(tail, max) + chunk) == []
            then Cap(whole, max) == Cap(cut, max) && (|whole| > max <==> |tail| > max || |cut| > max)
            else whole == cut
  {
    hide Lines, Tail;
    PrefixedSplit(tail, chunk);
    PrefixedSplit(Cap(tail, max), chunk);
    CappedRest(tail, Tail(chunk), max);
  }

  lemma CappedRest(tail: Bytes, rest: Bytes, max: nat)
    ensures Cap(tail + rest, max) == Cap(Cap(tail, max) + rest, max)
    ensures |tail + rest| > max <==> |tail| > max || |Cap(tail, max) + rest| > max
  {
  }

  /** What a reader at a tracking cursor has in hand is the cut of what the file has. */
  lemma TrackedSplit(c: FileCursor, content: Bytes, chunk: Bytes, max: nat)
    requires Tracks(c, content, max)
    ensures var before := content[..c.offset];
            && NEWLINE !in Tail(before) && NEWLINE !in c.partial
            && Lines(before + chunk) == Lines(before) + Lines(Tail(before) + chunk)
            && Tail(before + chunk) == Tail(Tail(before) + chunk)
            && CutAll(Lines(before + chunk), max) == CutAll(Lines(before), max) + CutAll(Lines(Tail(before) + chunk), max)
  {
    var before := content[..c.offset];
    SplitIsExact(before);
    SplitConcat(before, chunk);
    CutAllConcat(Lines(before), Lines(Tail(before) + chunk), max);
  }

  lemma CutAllConcat(a: seq<Bytes>, b: seq<Bytes>, max: nat)
    ensures CutAll(a + b, max) == CutAll(a, max) + CutAll(b, max)
  {
  }

  lemma CutTailEvents(tail: Bytes, chunk: Bytes, max: nat)
    requires NEWLINE !in tail
    ensures EventsOf(PiecesOf(Lines(Cap(tail, max) + chunk), |tail| > max), max) == CutAll(Lines(tail + chunk), max)
  {
    CutTailLines(tail, chunk, max);
    hide Lines, Tail;
    var whole, cut := Lines(tail + chunk), Lines(Cap(tail, max) + chunk);
    var events := EventsOf(PiecesOf(cut, |tail| > max), max);
    forall i | 0 <= i < |whole|
      ensures events[i] == CutAll(whole, max)[i]
    {
      assert events[i] == EventOf(Piece(cut[i], i == 0 && |tail| > max), max);
    }
  }

  /** Reading up to the line cap from a tracking cursor. */
  lemma ReadWithinCap(c: FileCursor, file: File, max: nat, maxLines: nat)
    requires Tracks(c, file.content, max)
    requires |Lines(c.partial + Chunk(file.content, c.offset, ChunkSize(max, maxLines)))| <= maxLines
    ensures ReadIsExact(c, file, max, maxLines)
  {
    hide Lines, Tail, ChunkSize, CutAll, EventsOf;
    var chunk := Chunk(file.content, c.offset, ChunkSize(max, maxLines));
    var (pieces, next) := ReadFrom(c, file, max, maxLines);
    var before := file.content[..c.offset];
    assert file.content[..next.offset] == before + chunk;
    TrackedSplit(c, file.content, chunk, max);
    CutTailRest(Tail(before), chunk, max);
    CutTailEvents(Tail(before), chunk, max);
  }

  /** Reading beyond the line cap rewinds to the end of the last line taken. */
  lemma ReadBeyondCap(c: FileCursor, file: File, max: nat, maxLines: nat)
    requires Tracks(c, file.content, max) && maxLines >= 1
    requires |Lines(c.partial + Chunk(file.content, c.offset, ChunkSize(max, maxLines)))| > maxLines
    ensures ReadIsExact(c, file, max, maxLines)
  {
    hide Lines, Tail, ChunkSize, CutAll, EventsOf, Consumed;
    var chunk := Chunk(file.content, c.offset, ChunkSize(max, maxLines));
    var (pieces, next) := ReadFrom(c, file, max, maxLines);
    var before := file.content[..c.offset];
    TrackedSplit(c, file.content, chunk, max);
    var m := RewindPoint(c.partial, chunk, maxLines);
    assert file.content[..next.offset] == before + chunk[..m];
    TrackedSplit(c, file.content, chunk[..m], max);
    CutTailRest(Tail(before), chunk[..m], max);
    CutTailEvents(Tail(before), chunk[..m], max);
  }

  /** The bytes of the chunk that belong to the first k lines: the lines taken, less the carried partial line. */
  lemma RewindPoint(partial: Bytes, chunk: Bytes, k: nat) returns (m: nat)
    requires NEWLINE !in partial && 1 <= k < |Lines(partial + chunk)|
    ensures 1 <= m <= |chunk| && m == Consumed(Lines(partial + chunk)[..k]) - |partial|
    ensures Lines(partial + chunk[..m]) == Lines(partial + chunk)[..k]
    ensures Tail(partial + chunk[..m]) == [] && Lines(chunk[..m]) != []
  {
    hide Lines, Tail;
    PrefixedSplit(partial, chunk);
    TakeLines(chunk, k);
    ConsumedPrefixed(partial, Lines(chunk), k);
    m := Consumed(Lines(chunk)[..k]);
    PrefixedSplit(partial, chunk[..m]);
  }

  lemma {:induction false} ConsumedPrefixed(c: Bytes, lines: seq<Bytes>, k: nat)
    requires 1 <= k <= |lines|
    ensures Consumed(([c + lines[0]] + lines[1..])[..k]) == |c| + Consumed(lines[..k])
    ensures Consumed(lines[..k]) >= 1
  {
    var prefixed := [c + lines[0]] + lines[1..];
    assert prefixed[..k][..k - 1] == prefixed[..k - 1];
    assert lines[..k][..k - 1] == lines[..k - 1];
    if k > 1 {
      ConsumedPrefixed(c, lines, k - 1);
    }
  }

  /** Whatever the cursor holds, a read emits the lines of its partial line and of the bytes it advances over. */
  lemma ReadPart(c: FileCursor, file: File, max: nat, maxLines: nat)
    requires c.offset <= |file.content| && NEWLINE !in c.partial && maxLines >= 1
    ensures var (pieces, next) := ReadFrom(c, file, max, maxLines);
            && c.offset <= next.offset <= |file.content|
            && pieces == PiecesOf(Lines(c.partial + file.content[c.offset..next.offset]), c.partialTruncated)
  {
    hide Lines, Tail, ChunkSize, Consumed;
    var chunk := Chunk(file.content, c.offset, ChunkSize(max, maxLines));
    var (pieces, next) := ReadFrom(c, file, max, maxLines);
    if |Lines(c.partial + chunk)| > maxLines {
      var m := RewindPoint(c.partial, chunk, maxLines);
      assert file.content[c.offset..next.offset] == chunk[..m];
    } else {
      assert file.content[c.offset..next.offset] == chunk;
    }
  }

  /**
   * Where a read starts. A file with another device or inode than the cursor, or shorter than its offset, is
   * read like a new one, from its first byte; any other file goes on at the offset, behind the partial line.
   */
  lemma ReadStarts(c: FileCursor, file: File, max: nat, maxLines: nat)
    requires NEWLINE !in c.partial && maxLines >= 1
    ensures var (pieces, next) := Read(Some(c), file, max, maxLines);
            && next.offset <= |file.content| && next.device == file.device && next.inode == file.inode
            && if c.device != file.device || c.inode != file.inode || c.offset > |file.content|
               then (pieces, next) == Read(None, file, max, maxLines) && pieces == PiecesOf(Lines(file.content[..next.offset]), false)
               else c.offset <= next.offset
                    && pieces == PiecesOf(Lines(c.partial + file.content[c.offset..next.offset]), c.partialTruncated)
  {
    var from := Resume(Some(c), file);
    ReadPart(from, file, max, maxLines);
    hide ReadFrom, Lines;
    var next := ReadFrom(from, file, max, maxLines).1;
    assert [] + file.content[0..next.offset] == file.content[..next.offset];
  }

  /** How far a read gets: at most the chunk and the line cap, and to the end of the one or of the file, or to the cap. */
  lemma ReadReaches(c: FileCursor, file: File, max: nat, maxLines: nat)
    requires c.offset <= |file.content| && NEWLINE !in c.partial && maxLines >= 1
    ensures var (pieces, next) := ReadFrom(c, file, max, maxLines);
            && next.offset <= c.offset + max * maxLines + 1 && |pieces| <= maxLines
            && (next.offset == c.offset + max * maxLines + 1 || next.offset == |file.content| || |pieces| == maxLines)
  {
    hide Lines, Tail, Consumed;
    var chunk := Chunk(file.content, c.offset, ChunkSize(max, maxLines));
    if |Lines(c.partial + chunk)| > maxLines {
      var m := RewindPoint(c.partial, chunk, maxLines);
    }
  }

  /**
   * One read is exact: from a tracking cursor it reaches a tracking cursor, what it emits is what the
   * complete lines of the consumed prefix have gained, and it advances if anything is left to read.
   */
  predicate ReadIsExact(c: FileCursor, file: File, max: nat, maxLines: nat)
    requires c.offset <= |file.content|
  {
    var (pieces, next) := ReadFrom(c, file, max, maxLines);
    && Tracks(next, file.content, max)
    && CutAll(Lines(file.content[..next.offset]), max)
       == CutAll(Lines(file.content[..c.offset]), max) + EventsOf(pieces, max)
    && (c.offset < |file.content| ==> next.offset > c.offset)
  }

  lemma ReadStep(c: FileCursor, file: File, max: nat, maxLines: nat)
    requires Tracks(c, file.content, max) && maxLines >= 1
    ensures ReadIsExact(c, file, max, maxLines)
  {
    var chunk := Chunk(file.content, c.offset, ChunkSize(max, maxLines));
    if |Lines(c.partial + chunk)| <= maxLines {
      ReadWithinCap(c, file, max, maxLines);
    } else {
      ReadBeyondCap(c, file, max, maxLines);
    }
  }

  // ----- Any number of reads while the file grows -----

  /** The state of a reader that commits every read: its cursor, and all it has emitted. */
  function ReadAll(cursor: FileCursor, contents: seq<Bytes>, max: nat, maxLines: nat): (FileCursor, seq<Entry>)
    decreases contents
  {
    if contents == [] then (cursor, [])
    else
      var file := File(cursor.device, cursor.inode, contents[0]);
      var (pieces, next) := Read(Some(cursor), file, max, maxLines);
      var (last, more) := ReadAll(next, contents[1..], max, maxLines);
      (last, EventsOf(pieces, max) + more)
  }

  /** Snapshots of an append-only file. */
  predicate Growing(contents: seq<Bytes>) {
    forall i | 0 <= i < |contents| - 1 :: contents[i] <= contents[i + 1]
  }

  lemma TracksGrows(c: FileCursor, a: Bytes, b: Bytes, max: nat)
    requires Tracks(c, a, max) && a <= b
    ensures Tracks(c, b, max) && b[..c.offset] == a[..c.offset]
  {
    assert b[..c.offset] == a[..c.offset];
  }

  lemma {:induction false} ReadsFrom(c: FileCursor, contents: seq<Bytes>, max: nat, maxLines: nat)
    requires contents != [] && Growing(contents) && maxLines >= 1
    requires Tracks(c, contents[0], max)
    ensures var (last, emitted) := ReadAll(c, contents, max, maxLines);
            var final := contents[|contents| - 1];
            && Tracks(last, final, max)
            && CutAll(Lines(final[..last.offset]), max) == CutAll(Lines(contents[0][..c.offset]), max) + emitted
    decreases contents
  {
    hide Lines, Tail, CutAll, EventsOf, ReadFrom;
    var file := File(c.device, c.inode, contents[0]);
    ReadStep(c, file, max, maxLines);
    var (pieces, next) := Read(Some(c), file, max, maxLines);
    if |contents| > 1 {
      TracksGrows(next, contents[0], contents[1], max);
      assert Growing(contents[1..]);
      ReadsFrom(next, contents[1..], max, maxLines);
    } else {
      assert contents[1..] == [];
    }
  }

  /**
   * The reader theorem: for an append-only file read any number of times at any growth points, with
   * any positive line cap, the emitted entries are the complete lines of the consumed prefix, each
   * cut to the maximal length and marked as truncated exactly if it was longer; the saved partial
   * line and flag describe the rest.
   */
  lemma ReaderIsExact(device: nat, inode: nat, contents: seq<Bytes>, max: nat, maxLines: nat)
    requires contents != [] && Growing(contents) && maxLines >= 1
    ensures var (last, emitted) := ReadAll(FileCursor(device, inode, 0, [], false), contents, max, maxLines);
            var final := contents[|contents| - 1];
            && Tracks(last, final, max)
            && emitted == CutAll(Lines(final[..last.offset]), max)
  {
    assert contents[0][..0] == [];
    assert CutAll(Lines([]), max) == [];
    hide Lines, Tail, CutAll, ReadAll;
    ReadsFrom(FileCursor(device, inode, 0, [], false), contents, max, maxLines);
  }

  lemma {:induction false} ReadsAdvance(c: FileCursor, content: Bytes, n: nat, max: nat, maxLines: nat)
    requires maxLines >= 1 && Tracks(c, content, max)
    ensures var last := ReadAll(c, seq(n, _ => content), max, maxLines).0;
            last.offset <= |content| && (last.offset == |content| || last.offset >= c.offset + n)
    decreases n
  {
    var contents := seq(n, _ => content);
    if n > 0 {
      hide Lines, Tail, CutAll, EventsOf, ReadFrom;
      var file := File(c.device, c.inode, content);
      ReadStep(c, file, max, maxLines);
      var next := Read(Some(c), file, max, maxLines).1;
      assert contents[1..] == seq(n - 1, _ => content);
      ReadsAdvance(next, content, n - 1, max, maxLines);
    }
  }

  /** A file that stops growing is read completely, after at most as many reads as it has bytes. */
  lemma ReadsToTheEnd(device: nat, inode: nat, content: Bytes, n: nat, max: nat, maxLines: nat)
    requires maxLines >= 1 && n >= |content| && n >= 1
    ensures var (last, emitted) := ReadAll(FileCursor(device, inode, 0, [], false), seq(n, _ => content), max, maxLines);
            && last.offset == |content|
            && emitted == CutAll(Lines(content), max)
            && last.partial == Cap(Tail(content), max)
  {
    var start := FileCursor(device, inode, 0, [], false);
    var contents := seq(n, _ => content);
    assert content[..0] == [];
    ReadsAdvance(start, content, n, max, maxLines);
    assert Growing(contents);
    hide Lines, Tail, CutAll, ReadAll;
    ReaderIsExact(device, inode, contents, max, maxLines);
    assert content[..|content|] == content;
  }

  /**
   * The line cap is not validated by the configuration, and a cap of zero breaks the reader: once a
   * newline comes into sight it drops the partial line and stays where it is.
   */
  lemma ZeroCapLosesPartial(c: FileCursor, file: File, max: nat)
    requires Tracks(c, file.content, max) && c.offset < |file.content|
    ensures ReadIsExact(c, file, max, 0) <==> file.content[c.offset] != NEWLINE
  {
    var chunk := Chunk(file.content, c.offset, 1);
    assert chunk == [file.content[c.offset]];
    OneByte(chunk);
    SplitIsExact(file.content[..c.offset]);
    PrefixedSplit(c.partial, chunk);
    assert ChunkSize(max, 0) == 1;
    if file.content[c.offset] == NEWLINE {
      ZeroCapStays(c, file, max);
    } else {
      hide Lines, Tail, CutAll, EventsOf, Consumed, ChunkSize, ReadIsExact;
      ReadWithinCap(c, file, max, 0);
    }
  }

  lemma ZeroCapStays(c: FileCursor, file: File, max: nat)
    requires c.offset < |file.content| && Lines(c.partial + Chunk(file.content, c.offset, ChunkSize(max, 0))) != []
    ensures ReadFrom(c, file, max, 0).1.offset == c.offset
  {
  }

  lemma OneByte(b: Bytes)
    requires |b| == 1
    ensures Lines(b) == if b[0] == NEWLINE then [[]] else []
  {
  }
}

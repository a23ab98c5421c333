/**
 The Zeek adapter as a state machine over log growth, scanning, saving, crashes and
 restarts, and the exactly-once journaling theorem.
 */
module ZeekRuns {
  import opened Options
  import opened Sequences
  import opened ZeekJournal
  import opened ZeekChains

  // ----- States -----

  /** `Scanning` holds the local file position; the offset is stored only on `Close`. */
  datatype Process =
    | Down
    | Idle(mem: Memory)
    | Scanning(mem: Memory, path: string, cursor: int)

  datatype World = World(
    logs: map<string, seq<Line>>,
    journal: Option<seq<RawLine>>,
    saved: Option<Memory>,
    process: Process)

  datatype Step =
    | Grow(path: string, line: Line)   // Zeek appends one whole line
    | Boot                             // load the saved state, recover the journal
    | Open(path: string)               // start on one log file
    | ReadLine                         // read one line, journal it if it maps
    | Close                            // end of file: store the position
    | Save                             // replace the saved state
    | Abort                            // an exception leaves the file before `Close`
    | AbortWriting(bytes: nat)         // an exception after that many bytes of the record
    | Crash
    | CrashWriting(bytes: nat)         // crash with that many bytes of the record written

  function LinesOf(logs: map<string, seq<Line>>, path: string): seq<Line> {
    if path in logs then logs[path] else []
  }

  /** Byte position just after the first `n` lines. */
  function EndOffset(lines: seq<Line>, n: nat): nat
    requires n <= |lines|
  {
    if n == 0 then 0 else EndOffset(lines, n - 1) + lines[n - 1].size
  }

  /** The line that starts at a byte position. */
  function LineAt(lines: seq<Line>, offset: int): Option<nat> {
    LineFrom(lines, offset, 0)
  }

  function LineFrom(lines: seq<Line>, offset: int, i: nat): (r: Option<nat>)
    requires i <= |lines|
    ensures r.Some? ==> r.value < |lines| && EndOffset(lines, r.value) == offset
    decreases |lines| - i
  {
    if i == |lines| then None
    else if EndOffset(lines, i) == offset then Some(i)
    else LineFrom(lines, offset, i + 1)
  }

  function FileOf(journal: Option<seq<RawLine>>): seq<RawLine> {
    journal.GetOr([])
  }

  // ----- Steps -----

  /** `_load_state`: without a journal file the loaded state is kept as it is. */
  function Booted(w: World): World {
    var loaded := w.saved.GetOr(EMPTY_MEMORY);
    if w.journal.None? then w.(process := Idle(loaded))
    else
      match Recover(w.journal.value, loaded.offsets)
      case Failure(_) => w
      case Success((mem, file)) => w.(journal := Some(file), process := Idle(mem))
  }

  /** The line the scan reads next, if it is not at the end of the file. */
  function NextLine(w: World): Option<nat>
    requires w.process.Scanning?
  {
    LineAt(LinesOf(w.logs, w.process.path), w.process.cursor)
  }

  /** One line read: journaled first, then the memory and the position move on. */
  function LineRead(cfg: Config, w: World, i: nat): World
    requires w.process.Scanning? && i < |LinesOf(w.logs, w.process.path)|
  {
    var path, mem := w.process.path, w.process.mem;
    var lines := LinesOf(w.logs, path);
    var offset := EndOffset(lines, i + 1);
    if MappedTo(cfg, path, lines[i]).None? then w.(process := Scanning(mem, path, offset))
    else
      var record := NewRecord(cfg, mem, path, lines[i], offset);
      w.(journal := Some(AppendBytes(FileOf(w.journal), RecordLine(cfg, record))),
         process := Scanning(Applied(mem, record), path, offset))
  }

  /** The record that reading the next line would journal, if any. */
  function NextRecord(cfg: Config, w: World): Option<Wrapper> {
    if !w.process.Scanning? || NextLine(w).None? then None
    else
      var path, lines, i := w.process.path, LinesOf(w.logs, w.process.path), NextLine(w).value;
      if MappedTo(cfg, path, lines[i]).None? then None
      else Some(NewRecord(cfg, w.process.mem, path, lines[i], EndOffset(lines, i + 1)))
  }

  /** The write of the next record stops after `bytes` bytes of it. */
  predicate Interrupted(cfg: Config, w: World, bytes: nat) {
    NextRecord(cfg, w).Some? && bytes <= JsonLength(cfg, NextRecord(cfg, w).value) + 1
  }

  /** The journal after an interrupted write. */
  function JournalWith(cfg: Config, w: World, bytes: nat): Option<seq<RawLine>> {
    if !Interrupted(cfg, w, bytes) then w.journal
    else
      var tail := Torn(cfg, NextRecord(cfg, w).value, bytes);
      Some(if tail == [] then FileOf(w.journal) else AppendBytes(FileOf(w.journal), tail[0]))
  }

  /** What an exception leaves: the position is stored only on `Close`. */
  function Aborted(w: World): World {
    if w.process.Scanning? then w.(process := Idle(w.process.mem)) else w
  }

  /** One step; a step that is not enabled changes nothing. */
  function Next(cfg: Config, w: World, step: Step): World {
    match step
    case Grow(path, line) => w.(logs := w.logs[path := LinesOf(w.logs, path) + [line]])
    case Boot => if w.process.Down? then Booted(w) else w
    case Open(path) =>
      if w.process.Idle? && path in w.logs then
        var offset := OffsetOf(w.process.mem.offsets, path);
        var size := EndOffset(w.logs[path], |w.logs[path]|);
        w.(process := Scanning(w.process.mem, path, if size < offset then 0 else offset))
      else w
    case ReadLine =>
      if w.process.Scanning? && NextLine(w).Some? then LineRead(cfg, w, NextLine(w).value) else w
    case Close =>
      if w.process.Scanning? && NextLine(w).None? then
        w.(process := Idle(w.process.mem.(offsets := w.process.mem.offsets[w.process.path := w.process.cursor])))
      else w
    case Save => if w.process.Idle? then w.(saved := Some(w.process.mem)) else w
    case Abort => Aborted(w)
    case AbortWriting(bytes) => Aborted(w.(journal := JournalWith(cfg, w, bytes)))
    case Crash => w.(process := Down)
    case CrashWriting(bytes) => w.(journal := JournalWith(cfg, w, bytes), process := Down)
  }

  function Run(cfg: Config, w: World, steps: seq<Step>): World {
    if steps == [] then w else Next(cfg, Run(cfg, w, steps[..|steps| - 1]), steps[|steps| - 1])
  }

  const INITIAL := World(map[], None, None, Down)

  // ----- What should be journaled -----

  /** One journaled line: where it ends, the environment, the log type, and the normalised event. */
  datatype Entry = Entry(offset: int, environmentId: int, logType: string, body: string)

  /** The entries of the mapped lines among the first `n`, in file order. */
  function Expected(cfg: Config, path: string, lines: seq<Line>, n: nat): seq<Entry>
    requires n <= |lines|
  {
    if n == 0 then []
    else
      var target := MappedTo(cfg, path, lines[n - 1]);
      var before := Expected(cfg, path, lines, n - 1);
      if target.None? then before
      else before + [Entry(EndOffset(lines, n), target.value.environmentId, cfg.logType(path),
                           cfg.normalize(path, lines[n - 1].data.value, target.value))]
  }

  /** The entries the journal holds for one log path, in journal order. */
  function Journaled(records: seq<Wrapper>, path: string): seq<Entry> {
    if records == [] then []
    else
      var before, w := Journaled(records[..|records| - 1], path), records[|records| - 1];
      if w.logPath == Some(path) && w.logOffset.Some? && w.event.Some? then before + [EntryOf(w)] else before
  }

  function EntryOf(w: Wrapper): Entry
    requires w.logOffset.Some? && w.event.Some?
  {
    Entry(w.logOffset.value, w.environmentId, w.event.value.canonical.logType, w.event.value.canonical.body)
  }

  // ----- Invariant -----

  /** `offset` is the end of the first `i` lines. */
  predicate At(lines: seq<Line>, offset: int, i: nat) {
    i <= |lines| && EndOffset(lines, i) == offset
  }

  function SavedOffset(w: World, path: string): int {
    OffsetOf(w.saved.GetOr(EMPTY_MEMORY).offsets, path)
  }

  /** For one path: saved position `s`, position in memory `m`, lines consumed `c`. */
  predicate PathOk(cfg: Config, w: World, records: seq<Wrapper>, path: string, s: nat, m: nat, c: nat) {
    var lines := LinesOf(w.logs, path);
    && s <= m <= c <= |lines|
    && At(lines, SavedOffset(w, path), s)
    && (!w.process.Down? ==> At(lines, OffsetOf(w.process.mem.offsets, path), m))
    && (w.process.Scanning? && w.process.path == path ==> At(lines, w.process.cursor, c))
    && (w.process.Down? || (w.process.Scanning? && w.process.path == path) || m == c)
    && Journaled(records, path) == Expected(cfg, path, lines, c)
  }

  ghost predicate PathInv(cfg: Config, w: World, records: seq<Wrapper>, path: string) {
    exists s: nat, m: nat, c: nat :: PathOk(cfg, w, records, path, s, m, c)
  }

  /** The journal file holds exactly `records`, plus a torn tail while the process is down. */
  predicate JournalOk(cfg: Config, w: World, records: seq<Wrapper>) {
    var file := FileOf(w.journal);
    && Appended(cfg, records)
    && PositiveEnvironments(records)
    && |file| >= |records|
    && file[..|records|] == Encode(cfg, records)
    && (|file| == |records| ||
        (w.process.Down? && |file| == |records| + 1 && file[|records|].parsed.Garbage?))
  }

  /** Memory agrees with the journal. */
  predicate MemoryOk(w: World, records: seq<Wrapper>) {
    && (w.journal.None? ==> w.saved.Some? ==> w.saved.value.(offsets := map[]) == EMPTY_MEMORY)
    && (!w.process.Down? ==> w.process.mem.(offsets := map[]) == Summary(records).(offsets := map[]))
  }

  ghost predicate Inv(cfg: Config, w: World, records: seq<Wrapper>) {
    && JournalOk(cfg, w, records)
    && MemoryOk(w, records)
    && (w.process.Scanning? ==> w.process.path in w.logs)
    && forall path :: PathInv(cfg, w, records, path)
  }

  /** Bundles name positive environments, as recovery demands. */
  ghost predicate PositiveTargets(cfg: Config) {
    forall path, i :: 0 <= i < |cfg.targets(path)| ==> cfg.targets(path)[i].environmentId > 0
  }

  // ----- Positions -----

  lemma {:induction false} EndOffsetPrefix(lines: seq<Line>, line: Line, n: nat)
    requires n <= |lines|
    ensures EndOffset(lines + [line], n) == EndOffset(lines, n)
  {
    if n > 0 { EndOffsetPrefix(lines, line, n - 1); }
  }

  lemma {:induction false} EndOffsetGrows(lines: seq<Line>, i: nat, j: nat)
    requires i < j <= |lines|
    ensures EndOffset(lines, i) < EndOffset(lines, j)
  {
    if i < j - 1 { EndOffsetGrows(lines, i, j - 1); }
  }

  lemma {:induction false} ExpectedPrefix(cfg: Config, path: string, lines: seq<Line>, line: Line, n: nat)
    requires n <= |lines|
    ensures Expected(cfg, path, lines + [line], n) == Expected(cfg, path, lines, n)
  {
    if n > 0 {
      ExpectedPrefix(cfg, path, lines, line, n - 1);
      EndOffsetPrefix(lines, line, n);
    }
  }

  /** A position inside the file is the start of exactly one line. */
  lemma LineAtBoundary(lines: seq<Line>, c: nat)
    requires c <= |lines|
    ensures LineAt(lines, EndOffset(lines, c)) == if c < |lines| then Some(c) else None
  {
    LineFromBoundary(lines, c, 0);
  }

  lemma {:induction false} LineFromBoundary(lines: seq<Line>, c: nat, i: nat)
    requires i <= c <= |lines|
    ensures LineFrom(lines, EndOffset(lines, c), i) == if c < |lines| then Some(c) else None
    decreases c - i
  {
    if i < c {
      EndOffsetGrows(lines, i, c);
      LineFromBoundary(lines, c, i + 1);
    } else if c < |lines| {
    }
  }

  // ----- Resuming after a crash -----

  function MaxOffset(start: int, entries: seq<Entry>): int {
    if entries == [] then start
    else Max(MaxOffset(start, entries[..|entries| - 1]), entries[|entries| - 1].offset)
  }

  /** The recovered offset of a path is its saved offset raised to its journaled ones. */
  lemma {:induction false} MergedOffset(cfg: Config, offsets: map<string, int>, records: seq<Wrapper>, path: string)
    requires Appended(cfg, records)
    ensures OffsetOf(MergedOffsets(offsets, records), path) ==
        MaxOffset(OffsetOf(offsets, path), Journaled(records, path))
  {
    if records != [] {
      var before := records[..|records| - 1];
      MergedOffset(cfg, offsets, before, path);
      var w := records[|records| - 1];
      if w.logPath == Some(path) {
        var entries := Journaled(records, path);
        assert entries[..|entries| - 1] == Journaled(before, path);
      }
    }
  }

  /** Resuming at the recovered offset skips only lines that map to no target. */
  lemma {:induction false} Resume(cfg: Config, path: string, lines: seq<Line>, s: nat, c: nat) returns (m: nat)
    requires s <= c <= |lines|
    ensures s <= m <= c
    ensures MaxOffset(EndOffset(lines, s), Expected(cfg, path, lines, c)) == EndOffset(lines, m)
    ensures Expected(cfg, path, lines, m) == Expected(cfg, path, lines, c)
    decreases c
  {
    if c == s {
      NoLaterEntry(cfg, path, lines, s, s);
      m := s;
    } else {
      m := Resume(cfg, path, lines, s, c - 1);
      if MappedTo(cfg, path, lines[c - 1]).Some? {
        var entry := LastExpected(cfg, path, lines, c);
        PrefixOfLonger(Expected(cfg, path, lines, c - 1), entry);
        EndOffsetGrows(lines, m, c);
        m := c;
      }
    }
  }

  lemma {:induction false} NoLaterEntry(cfg: Config, path: string, lines: seq<Line>, n: nat, s: nat)
    requires n <= s <= |lines|
    ensures MaxOffset(EndOffset(lines, s), Expected(cfg, path, lines, n)) == EndOffset(lines, s)
  {
    if n > 0 {
      NoLaterEntry(cfg, path, lines, n - 1, s);
      var entries := Expected(cfg, path, lines, n);
      if MappedTo(cfg, path, lines[n - 1]).Some? {
        assert entries[..|entries| - 1] == Expected(cfg, path, lines, n - 1);
        if n < s { EndOffsetGrows(lines, n, s); }
      }
    }
  }

  // ----- Every step keeps the invariant -----

  lemma GrowKeepsInv(cfg: Config, w: World, records: seq<Wrapper>, path: string, line: Line)
    requires Inv(cfg, w, records)
    ensures Inv(cfg, Next(cfg, w, Grow(path, line)), records)
  {
    var w' := Next(cfg, w, Grow(path, line));
    forall p ensures PathInv(cfg, w', records, p) {
      assert PathInv(cfg, w, records, p);
      var s: nat, m: nat, c: nat :| PathOk(cfg, w, records, p, s, m, c);
      if p == path {
        var lines := LinesOf(w.logs, p);
        EndOffsetPrefix(lines, line, s);
        EndOffsetPrefix(lines, line, m);
        EndOffsetPrefix(lines, line, c);
        ExpectedPrefix(cfg, p, lines, line, c);
      }
      assert PathOk(cfg, w', records, p, s, m, c);
    }
  }

  lemma BootKeepsInv(cfg: Config, w: World, records: seq<Wrapper>)
    requires Inv(cfg, w, records) && w.process.Down?
    ensures Inv(cfg, Booted(w), records) && Booted(w).process.Idle?
  {
    var w' := Booted(w);
    var offsets := w.saved.GetOr(EMPTY_MEMORY).offsets;
    if w.journal.Some? {
      var file := w.journal.value;
      assert file == Encode(cfg, records) + file[|records|..];
      RecoverEncoded(cfg, records, file[|records|..], offsets);
    } else {
      assert records == [];
    }
    forall p ensures PathInv(cfg, w', records, p) {
      assert PathInv(cfg, w, records, p);
      var s: nat, m: nat, c: nat :| PathOk(cfg, w, records, p, s, m, c);
      var lines := LinesOf(w.logs, p);
      MergedOffset(cfg, offsets, records, p);
      var resumed := Resume(cfg, p, lines, s, c);
      assert PathOk(cfg, w', records, p, s, resumed, resumed);
    }
  }

  lemma OpenKeepsInv(cfg: Config, w: World, records: seq<Wrapper>, path: string)
    requires Inv(cfg, w, records)
    ensures Inv(cfg, Next(cfg, w, Open(path)), records)
  {
    var w' := Next(cfg, w, Open(path));
    if w' != w {
      forall p ensures PathInv(cfg, w', records, p) {
        assert PathInv(cfg, w, records, p);
        var s: nat, m: nat, c: nat :| PathOk(cfg, w, records, p, s, m, c);
        var lines := LinesOf(w.logs, p);
        if m < |lines| { EndOffsetGrows(lines, m, |lines|); }
        assert PathOk(cfg, w', records, p, s, m, c);
      }
    }
  }

  lemma CloseKeepsInv(cfg: Config, w: World, records: seq<Wrapper>)
    requires Inv(cfg, w, records)
    ensures Inv(cfg, Next(cfg, w, Close), records)
  {
    var w' := Next(cfg, w, Close);
    if w.process.Scanning? && NextLine(w).None? {
      forall p ensures PathInv(cfg, w', records, p) {
        assert PathInv(cfg, w, records, p);
        var s: nat, m: nat, c: nat :| PathOk(cfg, w, records, p, s, m, c);
        assert PathOk(cfg, w', records, p, s, if p == w.process.path then c else m, c);
      }
    }
  }

  lemma SaveKeepsInv(cfg: Config, w: World, records: seq<Wrapper>)
    requires Inv(cfg, w, records)
    ensures Inv(cfg, Next(cfg, w, Save), records)
  {
    var w' := Next(cfg, w, Save);
    if w.process.Idle? {
      forall p ensures PathInv(cfg, w', records, p) {
        assert PathInv(cfg, w, records, p);
        var s: nat, m: nat, c: nat :| PathOk(cfg, w, records, p, s, m, c);
        assert PathOk(cfg, w', records, p, m, m, c);
      }
    }
  }

  lemma CrashKeepsInv(cfg: Config, w: World, records: seq<Wrapper>)
    requires Inv(cfg, w, records)
    ensures Inv(cfg, w.(process := Down), records)
  {
    DownKeepsPaths(cfg, w, records, w.(process := Down));
  }

  lemma DownKeepsPaths(cfg: Config, w: World, records: seq<Wrapper>, w': World)
    requires forall p :: PathInv(cfg, w, records, p)
    requires w'.process.Down? && w'.logs == w.logs && w'.saved == w.saved
    ensures forall p :: PathInv(cfg, w', records, p)
  {
    forall p ensures PathInv(cfg, w', records, p) {
      assert PathInv(cfg, w, records, p);
      var s: nat, m: nat, c: nat :| PathOk(cfg, w, records, p, s, m, c);
      assert PathOk(cfg, w', records, p, s, m, c);
    }
  }

  /** While scanning, the cursor is at the start of a line or at the end of the file. */
  lemma CursorAtBoundary(cfg: Config, w: World, records: seq<Wrapper>) returns (c: nat)
    requires Inv(cfg, w, records) && w.process.Scanning?
    ensures At(LinesOf(w.logs, w.process.path), w.process.cursor, c)
    ensures NextLine(w) == if c < |LinesOf(w.logs, w.process.path)| then Some(c) else None
    ensures Journaled(records, w.process.path) == Expected(cfg, w.process.path, LinesOf(w.logs, w.process.path), c)
  {
    assert PathInv(cfg, w, records, w.process.path);
    var s: nat, m: nat, k: nat :| PathOk(cfg, w, records, w.process.path, s, m, k);
    c := k;
    LineAtBoundary(LinesOf(w.logs, w.process.path), c);
  }

  lemma ReadKeepsInv(cfg: Config, w: World, records: seq<Wrapper>) returns (records': seq<Wrapper>)
    requires PositiveTargets(cfg)
    requires Inv(cfg, w, records) && w.process.Scanning? && NextLine(w).Some?
    ensures Inv(cfg, LineRead(cfg, w, NextLine(w).value), records')
  {
    var c := CursorAtBoundary(cfg, w, records);
    var path, mem := w.process.path, w.process.mem;
    var lines := LinesOf(w.logs, path);
    var w' := LineRead(cfg, w, c);
    var offset := EndOffset(lines, c + 1);
    if MappedTo(cfg, path, lines[c]).None? {
      records' := records;
    } else {
      var record := NewRecord(cfg, mem, path, lines[c], offset);
      records' := records + [record];
      AppendOne(cfg, records, record);
      AppendedLine(cfg, FileOf(w.journal), records, record);
      assert PositiveEnvironments(records') by { TargetIsPositive(cfg, path, lines[c]); }
    }
    forall p ensures PathInv(cfg, w', records', p) {
      ReadKeepsPath(cfg, w, records, c, records', p);
    }
  }

  lemma ReadKeepsPath(cfg: Config, w: World, records: seq<Wrapper>, c: nat, records': seq<Wrapper>, p: string)
    requires w.process.Scanning? && PathInv(cfg, w, records, p)
    requires var path, lines := w.process.path, LinesOf(w.logs, w.process.path);
             && c < |lines| && At(lines, w.process.cursor, c)
             && records' == if MappedTo(cfg, path, lines[c]).None? then records
                            else records + [NewRecord(cfg, w.process.mem, path, lines[c], EndOffset(lines, c + 1))]
    ensures PathInv(cfg, LineRead(cfg, w, c), records', p)
  {
    var s: nat, m: nat, k: nat :| PathOk(cfg, w, records, p, s, m, k);
    var path, lines := w.process.path, LinesOf(w.logs, w.process.path);
    if MappedTo(cfg, path, lines[c]).Some? {
      JournaledOneMore(records, NewRecord(cfg, w.process.mem, path, lines[c], EndOffset(lines, c + 1)), p);
    }
    if p == path {
      SameBoundary(lines, k, c);
      ReadKeepsOwnPath(cfg, w, records, c, records', s, m);
    } else {
      assert PathOk(cfg, LineRead(cfg, w, c), records', p, s, m, k);
    }
  }

  lemma ReadKeepsOwnPath(
      cfg: Config, w: World, records: seq<Wrapper>, c: nat, records': seq<Wrapper>, s: nat, m: nat)
    requires w.process.Scanning? && PathOk(cfg, w, records, w.process.path, s, m, c)
    requires c < |LinesOf(w.logs, w.process.path)|
    requires var path, lines := w.process.path, LinesOf(w.logs, w.process.path);
             Journaled(records', path) == Journaled(records, path) +
               if MappedTo(cfg, path, lines[c]).None? then []
               else [EntryOf(NewRecord(cfg, w.process.mem, path, lines[c], EndOffset(lines, c + 1)))]
    ensures PathInv(cfg, LineRead(cfg, w, c), records', w.process.path)
  {
    var path := w.process.path;
    assert Journaled(records', path) == Expected(cfg, path, LinesOf(w.logs, path), c + 1);
    assert PathOk(cfg, LineRead(cfg, w, c), records', path, s, m, c + 1);
  }

  lemma JournaledOneMore(records: seq<Wrapper>, record: Wrapper, path: string)
    requires record.logPath.Some? && record.logOffset.Some? && record.event.Some?
    ensures Journaled(records + [record], path) ==
            Journaled(records, path) + if record.logPath == Some(path) then [EntryOf(record)] else []
  {
    PrefixOfLonger(records, record);
  }

  lemma SameBoundary(lines: seq<Line>, i: nat, j: nat)
    requires i <= |lines| && j <= |lines| && EndOffset(lines, i) == EndOffset(lines, j)
    ensures i == j
  {
    if i < j { EndOffsetGrows(lines, i, j); }
    if j < i { EndOffsetGrows(lines, j, i); }
  }

  lemma TargetIsPositive(cfg: Config, path: string, line: Line)
    requires PositiveTargets(cfg) && MappedTo(cfg, path, line).Some?
    ensures MappedTo(cfg, path, line).value.environmentId > 0
  {
    var i := TargetIsFirstMatch(cfg.targets(path), line.data.value);
  }

  lemma AppendedLine(cfg: Config, file: seq<RawLine>, records: seq<Wrapper>, record: Wrapper)
    requires file == Encode(cfg, records)
    ensures AppendBytes(file, RecordLine(cfg, record)) == Encode(cfg, records + [record])
  {
    AppendEncoded(cfg, records, record);
  }

  /** A crash with any part of the record written, except all but the newline. */
  lemma TornKeepsInv(cfg: Config, w: World, records: seq<Wrapper>, bytes: nat) returns (records': seq<Wrapper>)
    requires PositiveTargets(cfg) && Inv(cfg, w, records)
    requires !LosesOnlyNewline(cfg, w, CrashWriting(bytes))
    ensures Inv(cfg, Next(cfg, w, CrashWriting(bytes)), records')
  {
    var w' := Next(cfg, w, CrashWriting(bytes));
    records' := records;
    if !Interrupted(cfg, w, bytes) {
      CrashKeepsInv(cfg, w, records);
    } else if bytes < JsonLength(cfg, NextRecord(cfg, w).value) {
      DownKeepsPaths(cfg, w, records, w');
    } else {
      WholeRecordWritten(cfg, w, bytes);
      records' := ReadKeepsInv(cfg, w, records);
      CrashKeepsInv(cfg, LineRead(cfg, w, NextLine(w).value), records');
    }
  }

  /** The whole record reached the file: the same as reading the line and crashing. */
  lemma WholeRecordWritten(cfg: Config, w: World, bytes: nat)
    requires NextRecord(cfg, w).Some? && bytes == JsonLength(cfg, NextRecord(cfg, w).value) + 1
    ensures Next(cfg, w, CrashWriting(bytes)) == LineRead(cfg, w, NextLine(w).value).(process := Down)
  {}

  // ----- Exceptions in the middle of a file -----

  /** No line between the stored offset and the cursor maps to a target. */
  predicate NothingJournaledSinceOpen(cfg: Config, w: World)
    requires w.process.Scanning?
  {
    var path, lines := w.process.path, LinesOf(w.logs, w.process.path);
    forall i :: 0 <= i < |lines| && OffsetOf(w.process.mem.offsets, path) <= EndOffset(lines, i) < w.process.cursor
      ==> MappedTo(cfg, path, lines[i]).None?
  }

  lemma {:induction false} SameExpected(cfg: Config, path: string, lines: seq<Line>, m: nat, c: nat)
    requires m <= c <= |lines|
    ensures Expected(cfg, path, lines, m) == Expected(cfg, path, lines, c) <==>
            forall i :: m <= i < c ==> MappedTo(cfg, path, lines[i]).None?
    ensures Expected(cfg, path, lines, m) <= Expected(cfg, path, lines, c)
    decreases c
  {
    if m < c {
      SameExpected(cfg, path, lines, m, c - 1);
    }
  }

  lemma Between(lines: seq<Line>, m: nat, c: nat)
    requires m <= |lines| && c <= |lines|
    ensures forall i :: 0 <= i < |lines| ==>
              (EndOffset(lines, m) <= EndOffset(lines, i) < EndOffset(lines, c) <==> m <= i < c)
  {
    forall i | 0 <= i < |lines|
      ensures EndOffset(lines, m) <= EndOffset(lines, i) < EndOffset(lines, c) <==> m <= i < c
    {
      if i < m { EndOffsetGrows(lines, i, m); }
      if m < i { EndOffsetGrows(lines, m, i); }
      if i < c { EndOffsetGrows(lines, i, c); }
      if c < i { EndOffsetGrows(lines, c, i); }
    }
  }

  /** An exception that writes nothing, in a pass that journaled nothing. */
  lemma AbortKeepsInv(cfg: Config, w: World, records: seq<Wrapper>)
    requires Inv(cfg, w, records) && w.process.Scanning? && NothingJournaledSinceOpen(cfg, w)
    ensures Inv(cfg, Aborted(w), records)
  {
    var path, lines := w.process.path, LinesOf(w.logs, w.process.path);
    assert PathInv(cfg, w, records, path);
    var s: nat, m: nat, c: nat :| PathOk(cfg, w, records, path, s, m, c);
    Between(lines, m, c);
    SameExpected(cfg, path, lines, m, c);
    forall p ensures PathInv(cfg, Aborted(w), records, p) {
      assert PathInv(cfg, w, records, p);
      AbortKeepsPath(cfg, w, records, p, s, m, c);
    }
  }

  lemma AbortKeepsPath(cfg: Config, w: World, records: seq<Wrapper>, p: string, s: nat, m: nat, c: nat)
    requires w.process.Scanning? && PathInv(cfg, w, records, p)
    requires PathOk(cfg, w, records, w.process.path, s, m, c)
    requires var path, lines := w.process.path, LinesOf(w.logs, w.process.path);
             Expected(cfg, path, lines, m) == Expected(cfg, path, lines, c)
    ensures PathInv(cfg, Aborted(w), records, p)
  {
    if p == w.process.path {
      assert PathOk(cfg, Aborted(w), records, p, s, m, m);
    } else {
      var s': nat, m': nat, c': nat :| PathOk(cfg, w, records, p, s', m', c');
      assert PathOk(cfg, Aborted(w), records, p, s', m', c');
    }
  }

  // ----- Every benign run -----

  /** The tear recovery cannot see: the whole JSON text without its newline. */
  predicate LosesOnlyNewline(cfg: Config, w: World, step: Step) {
    step.CrashWriting? && NextRecord(cfg, w).Some? && step.bytes == JsonLength(cfg, NextRecord(cfg, w).value)
  }

  /** A crash that does not lose only the newline; an exception that leaves no byte behind,
      in a pass that journaled nothing; and every other step. */
  predicate Benign(cfg: Config, w: World, step: Step) {
    && !LosesOnlyNewline(cfg, w, step)
    && ((step.Abort? || step.AbortWriting?) && w.process.Scanning? ==> NothingJournaledSinceOpen(cfg, w))
    && (step.AbortWriting? && Interrupted(cfg, w, step.bytes) ==> step.bytes == 0)
  }

  lemma NextKeepsInv(cfg: Config, w: World, records: seq<Wrapper>, step: Step) returns (records': seq<Wrapper>)
    requires PositiveTargets(cfg) && Inv(cfg, w, records) && Benign(cfg, w, step)
    ensures Inv(cfg, Next(cfg, w, step), records')
  {
    records' := records;
    match step
    case Grow(path, line) => GrowKeepsInv(cfg, w, records, path, line);
    case Boot => if w.process.Down? { BootKeepsInv(cfg, w, records); }
    case Open(path) => OpenKeepsInv(cfg, w, records, path);
    case ReadLine =>
      if w.process.Scanning? && NextLine(w).Some? { records' := ReadKeepsInv(cfg, w, records); }
    case Close => CloseKeepsInv(cfg, w, records);
    case Save => SaveKeepsInv(cfg, w, records);
    case Abort => if w.process.Scanning? { AbortKeepsInv(cfg, w, records); }
    case AbortWriting(bytes) =>
      if w.process.Scanning? {
        AbortKeepsInv(cfg, w, records);
        CreatedKeepsInv(cfg, Aborted(w), records);
      }
    case Crash => CrashKeepsInv(cfg, w, records);
    case CrashWriting(bytes) => records' := TornKeepsInv(cfg, w, records, bytes);
  }

  /** Creating an empty journal file changes nothing. */
  lemma CreatedKeepsInv(cfg: Config, w: World, records: seq<Wrapper>)
    requires Inv(cfg, w, records)
    ensures Inv(cfg, w.(journal := Some(FileOf(w.journal))), records)
  {
    var w' := w.(journal := Some(FileOf(w.journal)));
    forall p ensures PathInv(cfg, w', records, p) {
      assert PathInv(cfg, w, records, p);
      var s: nat, m: nat, c: nat :| PathOk(cfg, w, records, p, s, m, c);
      assert PathOk(cfg, w', records, p, s, m, c);
    }
  }

  /** Every step of the run is benign in the state it is taken in. */
  predicate BenignRun(cfg: Config, w: World, steps: seq<Step>) {
    steps == [] ||
    (BenignRun(cfg, w, steps[..|steps| - 1]) && Benign(cfg, Run(cfg, w, steps[..|steps| - 1]), steps[|steps| - 1]))
  }

  lemma {:induction false} BenignRunKeepsInv(cfg: Config, w: World, records: seq<Wrapper>, steps: seq<Step>)
      returns (records': seq<Wrapper>)
    requires PositiveTargets(cfg) && Inv(cfg, w, records) && BenignRun(cfg, w, steps)
    ensures Inv(cfg, Run(cfg, w, steps), records')
  {
    if steps == [] {
      records' := records;
    } else {
      var before := steps[..|steps| - 1];
      var earlier := BenignRunKeepsInv(cfg, w, records, before);
      records' := NextKeepsInv(cfg, Run(cfg, w, before), earlier, steps[|steps| - 1]);
    }
  }

  lemma RunKeepsInv(cfg: Config, steps: seq<Step>) returns (records: seq<Wrapper>)
    requires PositiveTargets(cfg) && BenignRun(cfg, INITIAL, steps)
    ensures Inv(cfg, Run(cfg, INITIAL, steps), records)
  {
    forall p ensures PathInv(cfg, INITIAL, [], p) {
      assert PathOk(cfg, INITIAL, [], p, 0, 0, 0);
    }
    records := BenignRunKeepsInv(cfg, INITIAL, [], steps);
  }

  // ----- Exactly once -----

  /** The records that can be read from a journal file. */
  function RecordsIn(file: seq<RawLine>): seq<Wrapper> {
    if file == [] then []
    else
      var before, last := RecordsIn(file[..|file| - 1]), file[|file| - 1];
      if last.parsed.Object? then before + [last.parsed.wrapper] else before
  }

  lemma {:induction false} RecordsInEncoded(cfg: Config, records: seq<Wrapper>)
    ensures RecordsIn(Encode(cfg, records)) == records
  {
    if records != [] {
      var before := records[..|records| - 1];
      assert Encode(cfg, records)[..|before|] == Encode(cfg, before);
      RecordsInEncoded(cfg, before);
    }
  }

  lemma JournalRecords(cfg: Config, w: World, records: seq<Wrapper>)
    requires JournalOk(cfg, w, records)
    ensures RecordsIn(FileOf(w.journal)) == records
  {
    var file := FileOf(w.journal);
    RecordsInEncoded(cfg, records);
    assert file[..|records|] == Encode(cfg, records);
    if |file| == |records| { assert file == file[..|records|]; }
    else { assert file[..|file| - 1] == Encode(cfg, records); }
  }

  function Occurrences(entries: seq<Entry>, offset: int): nat {
    if entries == [] then 0
    else Occurrences(entries[..|entries| - 1], offset) + (if entries[|entries| - 1].offset == offset then 1 else 0)
  }

  /** How many journal records a log line has. */
  function Copies(w: World, path: string, i: nat): nat
    requires i < |LinesOf(w.logs, path)|
  {
    Occurrences(Journaled(RecordsIn(FileOf(w.journal)), path), EndOffset(LinesOf(w.logs, path), i + 1))
  }

  /** The scan is past a byte position: in memory, in the saved state, or in the open file. */
  predicate Passed(w: World, path: string, offset: int) {
    || SavedOffset(w, path) >= offset
    || (!w.process.Down? && OffsetOf(w.process.mem.offsets, path) >= offset)
    || (w.process.Scanning? && w.process.path == path && w.process.cursor >= offset)
  }

  predicate InFileOrder(entries: seq<Entry>) {
    forall a, b :: 0 <= a < b < |entries| ==> entries[a].offset < entries[b].offset
  }

  lemma OccurrencesOneMore(entries: seq<Entry>, entry: Entry, offset: int)
    ensures Occurrences(entries + [entry], offset) ==
        Occurrences(entries, offset) + (if entry.offset == offset then 1 else 0)
  {
    PrefixOfLonger(entries, entry);
  }

  lemma LastExpected(cfg: Config, path: string, lines: seq<Line>, c: nat) returns (entry: Entry)
    requires 0 < c <= |lines| && MappedTo(cfg, path, lines[c - 1]).Some?
    ensures Expected(cfg, path, lines, c) == Expected(cfg, path, lines, c - 1) + [entry]
    ensures entry.offset == EndOffset(lines, c)
  {
    var target := MappedTo(cfg, path, lines[c - 1]).value;
    entry := Entry(EndOffset(lines, c), target.environmentId, cfg.logType(path),
                   cfg.normalize(path, lines[c - 1].data.value, target));
  }

  lemma ExpectedOnce(cfg: Config, path: string, lines: seq<Line>, c: nat, i: nat)
    requires c <= |lines| && i < |lines|
    ensures Occurrences(Expected(cfg, path, lines, c), EndOffset(lines, i + 1)) ==
            if i < c && MappedTo(cfg, path, lines[i]).Some? then 1 else 0
  {
    var end := EndOffset(lines, i + 1);
    forall k: nat | k <= |lines| && At(lines, end, k) ensures k == i + 1 { SameBoundary(lines, k, i + 1); }
    EntriesEndingAt(cfg, path, lines, c, i, end);
  }

  /** The entries that end at a position only line `i` ends at. */
  lemma {:induction false} EntriesEndingAt(cfg: Config, path: string, lines: seq<Line>, c: nat, i: nat, end: nat)
    requires c <= |lines| && i < |lines| && At(lines, end, i + 1)
    requires forall k: nat :: k <= |lines| && At(lines, end, k) ==> k == i + 1
    ensures Occurrences(Expected(cfg, path, lines, c), end) ==
            if i < c && MappedTo(cfg, path, lines[i]).Some? then 1 else 0
  {
    if c > 0 {
      EntriesEndingAt(cfg, path, lines, c - 1, i, end);
      if MappedTo(cfg, path, lines[c - 1]).Some? {
        var entry := LastExpected(cfg, path, lines, c);
        OccurrencesOneMore(Expected(cfg, path, lines, c - 1), entry, end);
        assert entry.offset == end <==> At(lines, end, c);
      }
    }
  }

  lemma {:induction false} ExpectedInOrder(cfg: Config, path: string, lines: seq<Line>, c: nat)
    requires c <= |lines|
    ensures InFileOrder(Expected(cfg, path, lines, c))
    ensures forall a :: 0 <= a < |Expected(cfg, path, lines, c)| ==>
        Expected(cfg, path, lines, c)[a].offset <= EndOffset(lines, c)
  {
    if c > 0 {
      ExpectedInOrder(cfg, path, lines, c - 1);
      EndOffsetGrows(lines, c - 1, c);
    }
  }

  /** Every mapped line has at most one record, and exactly one once the scan passed it. */
  ghost predicate OnceEach(cfg: Config, w: World) {
    forall path, i :: 0 <= i < |LinesOf(w.logs, path)| ==>
      var mapped := MappedTo(cfg, path, LinesOf(w.logs, path)[i]).Some?;
      && Copies(w, path, i) <= (if mapped then 1 else 0)
      && (mapped && Passed(w, path, EndOffset(LinesOf(w.logs, path), i + 1)) ==> Copies(w, path, i) == 1)
  }

  lemma PassedIsConsumed(cfg: Config, w: World, records: seq<Wrapper>, path: string, s: nat, m: nat, c: nat, i: nat)
    requires PathOk(cfg, w, records, path, s, m, c) && i < |LinesOf(w.logs, path)|
    requires Passed(w, path, EndOffset(LinesOf(w.logs, path), i + 1))
    ensures i < c
  {
    var lines := LinesOf(w.logs, path);
    if c <= i {
      if s < i + 1 { EndOffsetGrows(lines, s, i + 1); }
      if m < i + 1 { EndOffsetGrows(lines, m, i + 1); }
      EndOffsetGrows(lines, c, i + 1);
      assert false;
    }
  }

  /** The journal holds, for this path, the entries of the mapped lines of a prefix of the log. */
  ghost predicate JournalsAPrefix(cfg: Config, w: World, path: string) {
    exists c :: 0 <= c <= |LinesOf(w.logs, path)|
                && Journaled(RecordsIn(FileOf(w.journal)), path) == Expected(cfg, path, LinesOf(w.logs, path), c)
  }

  ghost predicate AtBoundary(lines: seq<Line>, cursor: int) {
    exists c: nat :: At(lines, cursor, c)
  }

  /** Each mapped line is journaled at most once, exactly once when passed, in file order,
      with its own event; the journal is one that appending alone would have produced; a
      restart succeeds; and the scan stands at the start of a line or at the end of the file. */
  ghost predicate JournaledExactlyOnce(cfg: Config, w: World) {
    var records := RecordsIn(FileOf(w.journal));
    && OnceEach(cfg, w)
    && Appended(cfg, records)
    && (forall path :: InFileOrder(Journaled(records, path)) && JournalsAPrefix(cfg, w, path))
    && (w.process.Down? ==> Next(cfg, w, Boot).process.Idle?)
    && (w.process.Scanning? ==> AtBoundary(LinesOf(w.logs, w.process.path), w.process.cursor))
  }

  lemma InvMeansExactlyOnce(cfg: Config, w: World, records: seq<Wrapper>)
    requires Inv(cfg, w, records)
    ensures JournaledExactlyOnce(cfg, w)
  {
    JournalRecords(cfg, w, records);
    forall path
      ensures InFileOrder(Journaled(records, path)) && JournalsAPrefix(cfg, w, path)
    {
      assert PathInv(cfg, w, records, path);
      var s: nat, m: nat, c: nat :| PathOk(cfg, w, records, path, s, m, c);
      ExpectedInOrder(cfg, path, LinesOf(w.logs, path), c);
    }
    OnceEachHolds(cfg, w, records);
    if w.process.Down? { BootKeepsInv(cfg, w, records); }
    if w.process.Scanning? { var c := CursorAtBoundary(cfg, w, records); }
  }

  /** Exactly-once journaling over every benign run. */
  lemma ExactlyOnce(cfg: Config, steps: seq<Step>)
    requires PositiveTargets(cfg) && BenignRun(cfg, INITIAL, steps)
    ensures JournaledExactlyOnce(cfg, Run(cfg, INITIAL, steps))
  {
    var records := RunKeepsInv(cfg, steps);
    InvMeansExactlyOnce(cfg, Run(cfg, INITIAL, steps), records);
  }

  lemma OnceEachHolds(cfg: Config, w: World, records: seq<Wrapper>)
    requires Inv(cfg, w, records)
    ensures OnceEach(cfg, w)
  {
    JournalRecords(cfg, w, records);
    forall path, i | 0 <= i < |LinesOf(w.logs, path)|
      ensures var mapped := MappedTo(cfg, path, LinesOf(w.logs, path)[i]).Some?;
              && Copies(w, path, i) <= (if mapped then 1 else 0)
              && (mapped && Passed(w, path, EndOffset(LinesOf(w.logs, path), i + 1)) ==> Copies(w, path, i) == 1)
    {
      var lines := LinesOf(w.logs, path);
      assert PathInv(cfg, w, records, path);
      var s: nat, m: nat, c: nat :| PathOk(cfg, w, records, path, s, m, c);
      ExpectedOnce(cfg, path, lines, c, i);
      if Passed(w, path, EndOffset(lines, i + 1)) { PassedIsConsumed(cfg, w, records, path, s, m, c, i); }
    }
  }
}

/**
 Which steps endanger exactly-once journaling: in every state that benign runs reach, a step
 keeps all benign continuations exactly-once if and only if it is itself benign.
 */
module ZeekFailures {
  import opened Options
  import opened Sequences
  import opened ZeekJournal
  import opened ZeekChains
  import opened ZeekRuns

  // ----- Continuations -----

  /** Some benign run leads from `w` to `w'`. */
  ghost predicate Reaches(cfg: Config, w: World, w': World) {
    exists steps :: BenignRun(cfg, w, steps) && Run(cfg, w, steps) == w'
  }

  /** Whatever benign steps follow, each line is journaled exactly once and restarts succeed. */
  ghost predicate StaysExactlyOnce(cfg: Config, w: World) {
    forall w' :: Reaches(cfg, w, w') ==> JournaledExactlyOnce(cfg, w')
  }

  lemma ReachesItself(cfg: Config, w: World)
    ensures Reaches(cfg, w, w)
  {
    assert BenignRun(cfg, w, []) && Run(cfg, w, []) == w;
  }

  lemma ReachesNext(cfg: Config, w: World, w': World, step: Step, next: World)
    requires Reaches(cfg, w, w') && Benign(cfg, w', step) && next == Next(cfg, w', step)
    ensures Reaches(cfg, w, next)
  {
    var before :| BenignRun(cfg, w, before) && Run(cfg, w, before) == w';
    var steps := before + [step];
    PrefixOfLonger(before, step);
    assert BenignRun(cfg, w, steps) && Run(cfg, w, steps) == next;
  }

  /** From a state that satisfies the invariant every benign continuation is exactly-once. */
  lemma InvStaysExactlyOnce(cfg: Config, w: World, records: seq<Wrapper>)
    requires PositiveTargets(cfg) && Inv(cfg, w, records)
    ensures StaysExactlyOnce(cfg, w)
  {
    forall w' | Reaches(cfg, w, w') ensures JournaledExactlyOnce(cfg, w') {
      var steps :| BenignRun(cfg, w, steps) && Run(cfg, w, steps) == w';
      var later := BenignRunKeepsInv(cfg, w, records, steps);
      InvMeansExactlyOnce(cfg, w', later);
    }
  }

  // ----- Reading on -----

  /** `w` with the log open after its first `k` lines. */
  function ScanningAt(w: World, path: string, k: nat): World
    requires !w.process.Down? && k <= |LinesOf(w.logs, path)|
  {
    w.(process := Scanning(w.process.mem, path, EndOffset(LinesOf(w.logs, path), k)))
  }

  /** Opening a log stands at the stored position. */
  lemma OpenAt(cfg: Config, w: World, path: string, m: nat)
    requires w.process.Idle? && path in w.logs
    requires At(w.logs[path], OffsetOf(w.process.mem.offsets, path), m)
    ensures Next(cfg, w, Open(path)) == ScanningAt(w, path, m)
  {
    var lines := w.logs[path];
    if m < |lines| { EndOffsetGrows(lines, m, |lines|); }
  }

  lemma ReadAt(cfg: Config, w: World, path: string, k: nat)
    requires !w.process.Down? && k < |LinesOf(w.logs, path)|
    ensures Next(cfg, ScanningAt(w, path, k), ReadLine) == LineRead(cfg, ScanningAt(w, path, k), k)
    ensures MappedTo(cfg, path, LinesOf(w.logs, path)[k]).None? ==>
              LineRead(cfg, ScanningAt(w, path, k), k) == ScanningAt(w, path, k + 1)
  {
    LineAtBoundary(LinesOf(w.logs, path), k);
  }

  /** The first mapped line from `k` on. */
  lemma {:induction false} FirstMapped(cfg: Config, path: string, lines: seq<Line>, k: nat, i: nat) returns (t: nat)
    requires k <= i < |lines| && MappedTo(cfg, path, lines[i]).Some?
    ensures k <= t <= i && MappedTo(cfg, path, lines[t]).Some?
    ensures forall j :: k <= j < t ==> MappedTo(cfg, path, lines[j]).None?
    decreases i - k
  {
    if MappedTo(cfg, path, lines[k]).Some? { t := k; }
    else { t := FirstMapped(cfg, path, lines, k + 1, i); }
  }

  /** `n` lines read, one after the other. */
  function ReadLines(cfg: Config, w: World, n: nat): World {
    if n == 0 then w else Next(cfg, ReadLines(cfg, w, n - 1), ReadLine)
  }

  lemma {:induction false} ReachesReadLines(cfg: Config, start: World, w: World, n: nat)
    requires Reaches(cfg, start, w)
    ensures Reaches(cfg, start, ReadLines(cfg, w, n))
  {
    if n > 0 {
      ReachesReadLines(cfg, start, w, n - 1);
      ReachesNext(cfg, start, ReadLines(cfg, w, n - 1), ReadLine, ReadLines(cfg, w, n));
    }
  }

  lemma {:induction false} ReadPast(cfg: Config, w: World, path: string, k: nat, t: nat) returns (n: nat)
    requires !w.process.Down? && k <= t <= |LinesOf(w.logs, path)|
    requires forall j :: k <= j < t ==> MappedTo(cfg, path, LinesOf(w.logs, path)[j]).None?
    ensures ReadLines(cfg, ScanningAt(w, path, k), n) == ScanningAt(w, path, t)
    decreases t
  {
    if k == t {
      n := 0;
    } else {
      var last := t - 1;
      var before := ReadPast(cfg, w, path, k, last);
      n := before + 1;
      ReadAt(cfg, w, path, last);
    }
  }

  /** Reading on from line `k` passes the unmapped lines and reads line `t`. */
  lemma ReadOn(cfg: Config, start: World, w: World, path: string, k: nat, t: nat)
    requires !w.process.Down? && k <= t < |LinesOf(w.logs, path)|
    requires Reaches(cfg, start, ScanningAt(w, path, k))
    requires forall j :: k <= j < t ==> MappedTo(cfg, path, LinesOf(w.logs, path)[j]).None?
    ensures Reaches(cfg, start, LineRead(cfg, ScanningAt(w, path, t), t))
  {
    var n := ReadPast(cfg, w, path, k, t);
    ReachesReadLines(cfg, start, ScanningAt(w, path, k), n);
    ReadAt(cfg, w, path, t);
    ReachesNext(cfg, start, ScanningAt(w, path, t), ReadLine, LineRead(cfg, ScanningAt(w, path, t), t));
  }

  /** The next pass over the log, up to its first mapped line. */
  lemma NextPass(cfg: Config, start: World, w: World, path: string, m: nat, t: nat)
    requires Reaches(cfg, start, w) && w.process.Idle? && path in w.logs && m <= t < |w.logs[path]|
    requires At(w.logs[path], OffsetOf(w.process.mem.offsets, path), m)
    requires forall j :: m <= j < t ==> MappedTo(cfg, path, w.logs[path][j]).None?
    ensures Reaches(cfg, start, LineRead(cfg, ScanningAt(w, path, t), t))
  {
    OpenAt(cfg, w, path, m);
    ReachesNext(cfg, start, w, Open(path), ScanningAt(w, path, m));
    ReadOn(cfg, start, w, path, m, t);
  }

  // ----- Exceptions that journal lines again -----

  /** What the invariant says about the open log: saved position `s`, position in memory `m`,
      lines consumed `c`. */
  lemma OpenLog(cfg: Config, w: World, records: seq<Wrapper>) returns (s: nat, m: nat, c: nat)
    requires Inv(cfg, w, records) && w.process.Scanning?
    ensures var path, lines := w.process.path, LinesOf(w.logs, w.process.path);
            && path in w.logs && FileOf(w.journal) == Encode(cfg, records) && s <= m <= c
            && At(lines, SavedOffset(w, path), s)
            && At(lines, OffsetOf(w.process.mem.offsets, path), m) && At(lines, w.process.cursor, c)
            && Journaled(records, path) == Expected(cfg, path, lines, c)
            && (NothingJournaledSinceOpen(cfg, w) <==> forall i :: m <= i < c ==> MappedTo(cfg, path, lines[i]).None?)
            && NextLine(w) == if c < |lines| then Some(c) else None
  {
    var path, lines := w.process.path, LinesOf(w.logs, w.process.path);
    assert PathInv(cfg, w, records, path);
    var s': nat, m': nat, c': nat :| PathOk(cfg, w, records, path, s', m', c');
    s, m, c := s', m', c';
    Between(lines, m, c);
    LineAtBoundary(lines, c);
    var file := FileOf(w.journal);
    assert file == file[..|records|];
  }

  /** The record the scan writes next belongs to the mapped line `c` under the cursor. */
  lemma NextRecordIs(cfg: Config, w: World, c: nat)
    requires NextRecord(cfg, w).Some? && NextLine(w) == Some(c)
    ensures var path, lines, record := w.process.path, LinesOf(w.logs, w.process.path), NextRecord(cfg, w).value;
            && c < |lines| && MappedTo(cfg, path, lines[c]).Some?
            && record == NewRecord(cfg, w.process.mem, path, lines[c], EndOffset(lines, c + 1))
  {}

  /** The record the scan writes next is the one that appending would write. */
  lemma NextRecordExtends(cfg: Config, w: World, records: seq<Wrapper>)
    requires PositiveTargets(cfg) && JournalOk(cfg, w, records) && MemoryOk(w, records) && NextRecord(cfg, w).Some?
    ensures var all := records + [NextRecord(cfg, w).value]; Appended(cfg, all) && PositiveEnvironments(all)
  {
    AppendOne(cfg, records, NextRecord(cfg, w).value);
    TargetIsPositive(cfg, w.process.path, LinesOf(w.logs, w.process.path)[NextLine(w).value]);
  }

  /** The aborted pass journaled a line: the next pass journals it again. */
  lemma AbortRepeats(cfg: Config, w: World, records: seq<Wrapper>, aborted: World) returns (later: World, t: nat)
    requires Inv(cfg, w, records) && w.process.Scanning? && !NothingJournaledSinceOpen(cfg, w)
    requires aborted.logs == w.logs && aborted.process == Idle(w.process.mem)
    requires FileOf(aborted.journal) == FileOf(w.journal)
    ensures Reaches(cfg, aborted, later) && !OnceEach(cfg, later)
    ensures t < |LinesOf(later.logs, w.process.path)| && Copies(later, w.process.path, t) == 2
  {
    var path, mem := w.process.path, w.process.mem;
    var lines := LinesOf(w.logs, path);
    var _, m, c := OpenLog(cfg, w, records);
    var i: nat :| m <= i < c && MappedTo(cfg, path, lines[i]).Some?;
    t := FirstMapped(cfg, path, lines, m, i);
    ReachesItself(cfg, aborted);
    NextPass(cfg, aborted, aborted, path, m, t);
    later := LineRead(cfg, ScanningAt(aborted, path, t), t);
    RepeatedLine(cfg, records, path, lines, c, mem, t, later);
  }

  lemma RepeatedLine(
      cfg: Config, records: seq<Wrapper>, path: string, lines: seq<Line>, c: nat, mem: Memory, t: nat, later: World)
    requires t < c <= |lines| && LinesOf(later.logs, path) == lines && MappedTo(cfg, path, lines[t]).Some?
    requires Journaled(records, path) == Expected(cfg, path, lines, c)
    requires later.journal ==
             Some(AppendBytes(Encode(cfg, records),
                 RecordLine(cfg, NewRecord(cfg, mem, path, lines[t], EndOffset(lines, t + 1)))))
    ensures Copies(later, path, t) == 2 && !OnceEach(cfg, later)
  {
    var record := NewRecord(cfg, mem, path, lines[t], EndOffset(lines, t + 1));
    AppendEncoded(cfg, records, record);
    RecordsInEncoded(cfg, records + [record]);
    JournaledOneMore(records, record, path);
    ExpectedOnce(cfg, path, lines, c, t);
    OccurrencesOneMore(Expected(cfg, path, lines, c), EntryOf(record), EndOffset(lines, t + 1));
    assert Copies(later, path, t) == 2;
  }

  /** Exceptions that write nothing: every benign continuation is exactly-once if and only if
      the aborted pass journaled nothing. */
  lemma AbortIsHarmlessIff(cfg: Config, w: World, records: seq<Wrapper>)
    requires PositiveTargets(cfg) && Inv(cfg, w, records) && w.process.Scanning?
    ensures StaysExactlyOnce(cfg, Next(cfg, w, Abort)) <==> NothingJournaledSinceOpen(cfg, w)
  {
    if NothingJournaledSinceOpen(cfg, w) {
      AbortKeepsInv(cfg, w, records);
      InvStaysExactlyOnce(cfg, Aborted(w), records);
    } else {
      var later, _ := AbortRepeats(cfg, w, records, Aborted(w));
      assert !JournaledExactlyOnce(cfg, later);
    }
  }

  // ----- Exceptions raised by the journal write -----

  /** The journal file is whole records, one unreadable line, and a record after it. */
  lemma UnreadableInside(cfg: Config, records: seq<Wrapper>, glued: RawLine, last: RawLine, offsets: map<string, int>)
    requires Appended(cfg, records) && PositiveEnvironments(records) && glued.parsed.Garbage?
    ensures Recover(Encode(cfg, records) + [glued, last], offsets) == Failure(CorruptRecord)
  {
    var file := Encode(cfg, records) + [glued, last];
    ParsedPrefixOf(Encode(cfg, records), [glued, last]);
    assert file[..|records|] == Encode(cfg, records);
    ReplayAppended(cfg, records, offsets);
  }

  /** A record that repeats the sequence number of the last one. */
  lemma RepeatedSequence(cfg: Config, records: seq<Wrapper>, again: Wrapper, offsets: map<string, int>)
    requires Appended(cfg, records) && PositiveEnvironments(records) && again.journalSequence == |records|
    ensures Recover(Encode(cfg, records + [again]), offsets) == Failure(SequenceGap)
  {
    var file, start := Encode(cfg, records + [again]), Memory(0, map[], offsets);
    ParsedPrefixOf(file, []);
    assert file + [] == file && file[..|file|] == file;
    assert file[..|records|] == Encode(cfg, records);
    ReplayAppended(cfg, records, offsets);
    SequencesCount(cfg, records);
  }

  /** The next pass glues the record of its first mapped line to an unterminated line. */
  lemma WritesToTear(
      cfg: Config, start: World, w: World, path: string, whole: seq<RawLine>, torn: RawLine, m: nat, i: nat)
      returns (once: World, k: nat, glued: RawLine)
    requires Reaches(cfg, start, w) && w.process.Idle? && path in w.logs && m <= i < |w.logs[path]|
    requires MappedTo(cfg, path, w.logs[path][i]).Some?
    requires At(w.logs[path], OffsetOf(w.process.mem.offsets, path), m)
    requires !torn.terminated && w.journal == Some(whole + [torn])
    ensures Reaches(cfg, start, once) && once.logs == w.logs
    ensures m < k <= i + 1 && !once.process.Down? && once == ScanningAt(once, path, k)
    ensures glued.parsed.Garbage? && glued.terminated && once.journal == Some(whole + [glued])
  {
    var j := FirstMapped(cfg, path, w.logs[path], m, i);
    NextPass(cfg, start, w, path, m, j);
    k, once := j + 1, LineRead(cfg, ScanningAt(w, path, j), j);
    glued := ReadGlues(cfg, w, path, whole, torn, j, k, once);
  }

  lemma ReadGlues(
      cfg: Config, w: World, path: string, whole: seq<RawLine>, torn: RawLine, j: nat, k: nat, once: World)
      returns (glued: RawLine)
    requires k == j + 1
    requires w.process.Idle? && path in w.logs && j < |w.logs[path]| && MappedTo(cfg, path, w.logs[path][j]).Some?
    requires !torn.terminated && w.journal == Some(whole + [torn])
    requires once == LineRead(cfg, ScanningAt(w, path, j), j)
    ensures once.logs == w.logs && !once.process.Down? && once == ScanningAt(once, path, k)
    ensures glued.parsed.Garbage? && glued.terminated && once.journal == Some(whole + [glued])
  {
    var line := RecordLine(cfg, NewRecord(cfg, w.process.mem, path, w.logs[path][j], EndOffset(w.logs[path], j + 1)));
    glued := RawLine(torn.size + line.size, Garbage, line.terminated);
    GluedTo(whole, torn, line);
  }

  /** One more mapped line is journaled after an unreadable one, and the process crashes. */
  lemma WritesAfter(
      cfg: Config, start: World, w: World, path: string, whole: seq<RawLine>, glued: RawLine, k: nat, i: nat)
      returns (later: World, last: RawLine)
    requires Reaches(cfg, start, w) && !w.process.Down? && k <= i < |LinesOf(w.logs, path)|
    requires w == ScanningAt(w, path, k) && MappedTo(cfg, path, LinesOf(w.logs, path)[i]).Some?
    requires glued.terminated && w.journal == Some(whole + [glued])
    ensures Reaches(cfg, start, later) && later.process.Down? && later.journal == Some(whole + [glued, last])
  {
    var lines := LinesOf(w.logs, path);
    var t := FirstMapped(cfg, path, lines, k, i);
    ReadOn(cfg, start, w, path, k, t);
    var read := LineRead(cfg, ScanningAt(w, path, t), t);
    later := read.(process := Down);
    ReachesNext(cfg, start, read, Crash, later);
    last := RecordLine(cfg, NewRecord(cfg, w.process.mem, path, lines[t], EndOffset(lines, t + 1)));
    assert whole + [glued] + [last] == whole + [glued, last];
  }

  /** A second mapped line, and the next pass glues one record and appends the other. */
  lemma WritesAfterTear(
      cfg: Config, w: World, path: string, whole: seq<RawLine>, torn: RawLine, m: nat, i: nat)
      returns (later: World, glued: RawLine, last: RawLine)
    requires w.process.Idle? && path in w.logs && m <= i < |w.logs[path]|
    requires MappedTo(cfg, path, w.logs[path][i]).Some?
    requires At(w.logs[path], OffsetOf(w.process.mem.offsets, path), m)
    requires !torn.terminated && w.journal == Some(whole + [torn])
    ensures Reaches(cfg, w, later) && later.process.Down?
    ensures glued.parsed.Garbage? && later.journal == Some(whole + [glued, last])
  {
    var lines := w.logs[path];
    var grown := w.(logs := w.logs[path := lines + [lines[i]]]);
    EndOffsetPrefix(lines, lines[i], m);
    ReachesItself(cfg, w);
    ReachesNext(cfg, w, w, Grow(path, lines[i]), grown);
    var once, k;
    once, k, glued := WritesToTear(cfg, w, grown, path, whole, torn, m, i);
    later, last := WritesAfter(cfg, w, once, path, whole, glued, k, |lines|);
  }

  /** An exception that leaves any byte of the record behind leads to a restart that fails. */
  lemma AbortWritingBreaks(cfg: Config, w: World, records: seq<Wrapper>, bytes: nat) returns (later: World)
    requires PositiveTargets(cfg) && Inv(cfg, w, records) && Interrupted(cfg, w, bytes) && bytes > 0
    ensures Reaches(cfg, Next(cfg, w, AbortWriting(bytes)), later)
    ensures later.process.Down? && Booted(later) == later
  {
    var aborted := Next(cfg, w, AbortWriting(bytes));
    var path, record := w.process.path, NextRecord(cfg, w).value;
    var _, m, c := OpenLog(cfg, w, records);
    if bytes <= JsonLength(cfg, record) {
      var torn := Torn(cfg, record, bytes)[0];
      var glued, last;
      later, glued, last := WritesAfterTear(cfg, aborted, path, Encode(cfg, records), torn, m, c);
      UnreadableInside(cfg, records, glued, last, later.saved.GetOr(EMPTY_MEMORY).offsets);
    } else {
      later := WritesAgain(cfg, w, records, m, c, aborted);
    }
  }

  /** The whole record reached the file but not the memory: its sequence number is used again. */
  lemma WritesAgain(cfg: Config, w: World, records: seq<Wrapper>, m: nat, c: nat, aborted: World) returns (later: World)
    requires PositiveTargets(cfg) && Inv(cfg, w, records) && NextRecord(cfg, w).Some? && NextLine(w) == Some(c)
    requires m <= c && At(LinesOf(w.logs, w.process.path), OffsetOf(w.process.mem.offsets, w.process.path), m)
    requires FileOf(w.journal) == Encode(cfg, records)
    requires aborted == w.(journal := Some(AppendBytes(Encode(cfg, records),
        RecordLine(cfg, NextRecord(cfg, w).value))),
                           process := Idle(w.process.mem))
    ensures Reaches(cfg, aborted, later) && later.process.Down? && Booted(later) == later
  {
    var path, mem, record := w.process.path, w.process.mem, NextRecord(cfg, w).value;
    var lines := LinesOf(w.logs, path);
    NextRecordIs(cfg, w, c);
    var t := FirstMapped(cfg, path, lines, m, c);
    ReachesItself(cfg, aborted);
    NextPass(cfg, aborted, aborted, path, m, t);
    var read := LineRead(cfg, ScanningAt(aborted, path, t), t);
    later := read.(process := Down);
    ReachesNext(cfg, aborted, read, Crash, later);
    NextRecordExtends(cfg, w, records);
    var again := NewRecord(cfg, mem, path, lines[t], EndOffset(lines, t + 1));
    SequencesCount(cfg, records);
    AppendEncoded(cfg, records, record);
    AppendEncoded(cfg, records + [record], again);
    StopsRestart(cfg, records + [record], again, later);
  }

  /** Two records with one sequence number stop every restart. */
  lemma StopsRestart(cfg: Config, records: seq<Wrapper>, again: Wrapper, w: World)
    requires Appended(cfg, records) && PositiveEnvironments(records) && again.journalSequence == |records|
    requires w.journal == Some(Encode(cfg, records + [again]))
    ensures Booted(w) == w
  {
    RepeatedSequence(cfg, records, again, w.saved.GetOr(EMPTY_MEMORY).offsets);
  }

  /** Exceptions raised by the journal write: every benign continuation is exactly-once if and
      only if no byte of the record stayed behind and the pass journaled nothing. */
  lemma AbortWritingIsHarmlessIff(cfg: Config, w: World, records: seq<Wrapper>, bytes: nat)
    requires PositiveTargets(cfg) && Inv(cfg, w, records) && Interrupted(cfg, w, bytes)
    ensures StaysExactlyOnce(cfg, Next(cfg, w, AbortWriting(bytes)))
        <==> bytes == 0 && NothingJournaledSinceOpen(cfg, w)
  {
    var aborted := Next(cfg, w, AbortWriting(bytes));
    if bytes > 0 {
      var later := AbortWritingBreaks(cfg, w, records, bytes);
      assert !JournaledExactlyOnce(cfg, later);
    } else if NothingJournaledSinceOpen(cfg, w) {
      var after := NextKeepsInv(cfg, w, records, AbortWriting(bytes));
      InvStaysExactlyOnce(cfg, aborted, after);
    } else {
      var later, _ := AbortRepeats(cfg, w, records, aborted);
      assert !JournaledExactlyOnce(cfg, later);
    }
  }

  // ----- Crashes that lose only the newline -----

  /** The recovered position is the end of the line whose record was torn. */
  lemma PositionAfterTear(
      cfg: Config, records: seq<Wrapper>, path: string, lines: seq<Line>, c: nat, record: Wrapper,
      saved: map<string, int>, s: nat)
    requires Appended(cfg, records + [record]) && s <= c < |lines| && MappedTo(cfg, path, lines[c]).Some?
    requires At(lines, OffsetOf(saved, path), s) && Journaled(records, path) == Expected(cfg, path, lines, c)
    requires record.logPath == Some(path) && record.logOffset == Some(EndOffset(lines, c + 1)) && record.event.Some?
    ensures OffsetOf(MergedOffsets(saved, records + [record]), path) == EndOffset(lines, c + 1)
  {
    MergedOffset(cfg, saved, records + [record], path);
    JournaledOneMore(records, record, path);
    PrefixOfLonger(Journaled(records, path), EntryOf(record));
    var m := Resume(cfg, path, lines, s, c);
    EndOffsetGrows(lines, m, c + 1);
  }

  /** All but the newline of the record. */
  function LineTorn(cfg: Config, record: Wrapper): RawLine {
    RawLine(JsonLength(cfg, record), Object(record), false)
  }

  lemma TornFile(cfg: Config, w: World, records: seq<Wrapper>)
    requires NextRecord(cfg, w).Some? && FileOf(w.journal) == Encode(cfg, records)
    ensures JournalWith(cfg, w, JsonLength(cfg, NextRecord(cfg, w).value)) ==
            Some(Encode(cfg, records) + [LineTorn(cfg, NextRecord(cfg, w).value)])
  {}

  /** The restart accepts the torn record. */
  lemma BootAfterTear(cfg: Config, records: seq<Wrapper>, record: Wrapper, torn: World)
    requires Appended(cfg, records + [record]) && PositiveEnvironments(records + [record])
    requires torn.process.Down? && torn.journal == Some(Encode(cfg, records) + [LineTorn(cfg, record)])
    ensures var all := records + [record];
            var offsets := MergedOffsets(torn.saved.GetOr(EMPTY_MEMORY).offsets, all);
            Booted(torn) == torn.(process := Idle(Summary(all).(offsets := offsets)))
  {
    assert Torn(cfg, record, JsonLength(cfg, record)) == [LineTorn(cfg, record)];
    RecoverUnterminated(cfg, records, record, torn.saved.GetOr(EMPTY_MEMORY).offsets);
  }

  /** The restart goes on after the line of the torn record, number `c`. */
  lemma RestartAfterTear(
      cfg: Config, records: seq<Wrapper>, record: Wrapper, torn: World, path: string, s: nat, c: nat)
      returns (booted: World)
    requires Appended(cfg, records + [record]) && PositiveEnvironments(records + [record])
    requires torn.process.Down? && torn.journal == Some(Encode(cfg, records) + [LineTorn(cfg, record)])
    requires var lines := LinesOf(torn.logs, path);
             && s <= c < |lines| && MappedTo(cfg, path, lines[c]).Some?
             && Journaled(records, path) == Expected(cfg, path, lines, c)
             && At(lines, SavedOffset(torn, path), s)
             && record.logOffset == Some(EndOffset(lines, c + 1))
    requires record.logPath == Some(path) && record.event.Some?
    ensures booted == Booted(torn) == torn.(process := booted.process) && booted.process.Idle?
    ensures At(LinesOf(torn.logs, path), OffsetOf(booted.process.mem.offsets, path), c + 1)
  {
    BootAfterTear(cfg, records, record, torn);
    booted := Booted(torn);
    PositionAfterTear(cfg, records, path, LinesOf(torn.logs, path), c, record,
        torn.saved.GetOr(EMPTY_MEMORY).offsets, s);
  }

  /** The next mapped line is glued to the torn record, and the line of that record, which the
      scan has passed, has no record left. */
  lemma TearLosesLine(cfg: Config, w: World, records: seq<Wrapper>, torn: World) returns (later: World)
    requires PositiveTargets(cfg) && Inv(cfg, w, records) && NextRecord(cfg, w).Some?
    requires torn == w.(journal := JournalWith(cfg, w, JsonLength(cfg, NextRecord(cfg, w).value)), process := Down)
    ensures Reaches(cfg, torn, later) && !OnceEach(cfg, later)
  {
    var s, _, c := OpenLog(cfg, w, records);
    NextRecordIs(cfg, w, c);
    NextRecordExtends(cfg, w, records);
    TornFile(cfg, w, records);
    later := TearLosesRecord(cfg, records, NextRecord(cfg, w).value, torn, w.process.path, s, c);
  }

  lemma TearLosesRecord(
      cfg: Config, records: seq<Wrapper>, record: Wrapper, torn: World, path: string, s: nat, c: nat)
      returns (later: World)
    requires Appended(cfg, records + [record]) && PositiveEnvironments(records + [record])
    requires torn.process.Down? && torn.journal == Some(Encode(cfg, records) + [LineTorn(cfg, record)])
    requires path in torn.logs && s <= c < |torn.logs[path]| && MappedTo(cfg, path, torn.logs[path][c]).Some?
    requires Journaled(records, path) == Expected(cfg, path, torn.logs[path], c)
    requires At(torn.logs[path], SavedOffset(torn, path), s)
    requires record.logPath == Some(path) && record.event.Some?
    requires record.logOffset == Some(EndOffset(torn.logs[path], c + 1))
    ensures Reaches(cfg, torn, later) && !OnceEach(cfg, later)
  {
    var booted := RestartAfterTear(cfg, records, record, torn, path, s, c);
    ReachesItself(cfg, torn);
    ReachesNext(cfg, torn, torn, Boot, booted);
    later := LosesLine(cfg, torn, booted, records, path, LineTorn(cfg, record), c);
  }

  lemma LosesLine(
      cfg: Config, start: World, w: World, records: seq<Wrapper>, path: string, torn: RawLine, c: nat)
      returns (later: World)
    requires Reaches(cfg, start, w) && w.process.Idle? && path in w.logs && c < |w.logs[path]|
    requires !torn.terminated && w.journal == Some(Encode(cfg, records) + [torn])
    requires MappedTo(cfg, path, w.logs[path][c]).Some?
    requires Journaled(records, path) == Expected(cfg, path, w.logs[path], c)
    requires At(w.logs[path], OffsetOf(w.process.mem.offsets, path), c + 1)
    ensures Reaches(cfg, start, later) && !OnceEach(cfg, later)
  {
    var lines := w.logs[path];
    var grown := w.(logs := w.logs[path := lines + [lines[c]]]);
    ReachesNext(cfg, start, w, Grow(path, lines[c]), grown);
    EndOffsetPrefix(lines, lines[c], c + 1);
    ExpectedPrefix(cfg, path, lines, lines[c], c);
    var k, glued;
    later, k, glued := WritesToTear(cfg, start, grown, path, Encode(cfg, records), torn, c + 1, |lines|);
    LostLine(cfg, records, path, grown.logs[path], c, k, glued, later);
  }

  lemma LostLine(
      cfg: Config, records: seq<Wrapper>, path: string, lines: seq<Line>, c: nat, k: nat, glued: RawLine, later: World)
    requires c + 1 < k <= |lines| && LinesOf(later.logs, path) == lines && MappedTo(cfg, path, lines[c]).Some?
    requires Journaled(records, path) == Expected(cfg, path, lines, c)
    requires later.journal == Some(Encode(cfg, records) + [glued]) && glued.parsed.Garbage?
    requires !later.process.Down? && later == ScanningAt(later, path, k)
    ensures !OnceEach(cfg, later)
  {
    NoCopies(cfg, records, path, lines, c, glued, later);
    EndOffsetGrows(lines, c + 1, k);
    assert Passed(later, path, EndOffset(lines, c + 1));
  }

  lemma NoCopies(
      cfg: Config, records: seq<Wrapper>, path: string, lines: seq<Line>, c: nat, glued: RawLine, later: World)
    requires c < |lines| && LinesOf(later.logs, path) == lines
    requires Journaled(records, path) == Expected(cfg, path, lines, c)
    requires later.journal == Some(Encode(cfg, records) + [glued]) && glued.parsed.Garbage?
    ensures Copies(later, path, c) == 0
  {
    PrefixOfLonger(Encode(cfg, records), glued);
    RecordsInEncoded(cfg, records);
    ExpectedOnce(cfg, path, lines, c, c);
  }

  // ----- Every step -----

  /** In every state that satisfies the invariant, and so in every state benign runs reach, a
      step keeps all benign continuations exactly-once if and only if it is benign. */
  lemma StepIsHarmlessIff(cfg: Config, w: World, records: seq<Wrapper>, step: Step)
    requires PositiveTargets(cfg) && Inv(cfg, w, records)
    ensures StaysExactlyOnce(cfg, Next(cfg, w, step)) <==> Benign(cfg, w, step)
  {
    if Benign(cfg, w, step) {
      var after := NextKeepsInv(cfg, w, records, step);
      InvStaysExactlyOnce(cfg, Next(cfg, w, step), after);
    } else if step.CrashWriting? {
      var later := TearLosesLine(cfg, w, records, Next(cfg, w, step));
      assert !JournaledExactlyOnce(cfg, later);
    } else if step.AbortWriting? && Interrupted(cfg, w, step.bytes) {
      AbortWritingIsHarmlessIff(cfg, w, records, step.bytes);
    } else {
      AbortIsHarmlessIff(cfg, w, records);
    }
  }

  /** The same without the invariant: after any benign run from the start. */
  lemma HarmlessIff(cfg: Config, steps: seq<Step>, step: Step)
    requires PositiveTargets(cfg) && BenignRun(cfg, INITIAL, steps)
    ensures StaysExactlyOnce(cfg, Next(cfg, Run(cfg, INITIAL, steps), step)) <==>
            Benign(cfg, Run(cfg, INITIAL, steps), step)
  {
    var records := RunKeepsInv(cfg, steps);
    StepIsHarmlessIff(cfg, Run(cfg, INITIAL, steps), records, step);
  }

  // ----- A run that journals a line twice -----

  /** Reading a one-line log from its start, after the records `before` were journaled. */
  lemma ReadOnlyLine(cfg: Config, path: string, line: Line, w: World, before: seq<Wrapper>, mem: Memory)
    requires w.logs == map[path := [line]] && w.process == Scanning(mem, path, 0)
    requires FileOf(w.journal) == Encode(cfg, before)
    requires MappedTo(cfg, path, line).Some?
    ensures var record := NewRecord(cfg, mem, path, line, line.size);
            Next(cfg, w, ReadLine) ==
            w.(journal := Some(Encode(cfg, before + [record])),
                process := Scanning(Applied(mem, record), path, line.size))
  {
    LineAtBoundary([line], 0);
    assert [line][0] == line && EndOffset([line], 0 + 1) == line.size;
    AppendedLine(cfg, FileOf(w.journal), before, NewRecord(cfg, mem, path, line, line.size));
  }

  /** Abandoning a first pass leaves the position in memory at the start of the file. */
  lemma Reopened(cfg: Config, path: string, line: Line, w: World, mem: Memory)
    requires w.logs == map[path := [line]] && w.process == Scanning(mem, path, line.size)
    requires path !in mem.offsets
    ensures Next(cfg, Next(cfg, w, Abort), Open(path)) == w.(process := Scanning(mem, path, 0))
  {}

  /** A run in which such an exception journals one line twice. */
  lemma AbortDuplicates(cfg: Config, path: string, line: Line)
    requires MappedTo(cfg, path, line).Some?
    ensures var w := Run(cfg, INITIAL, [Grow(path, line), Boot, Open(path), ReadLine, Abort, Open(path), ReadLine]);
            LinesOf(w.logs, path) == [line] && Copies(w, path, 0) == 2
  {
    var open := [Grow(path, line), Boot, Open(path)];
    OpenOnlyLine(cfg, path, line);
    var w := Run(cfg, INITIAL, open);
    RunSnoc(cfg, open, ReadLine, open + [ReadLine]);
    RunSnoc(cfg, open + [ReadLine], Abort, open + [ReadLine, Abort]);
    RunSnoc(cfg, open + [ReadLine, Abort], Open(path), open + [ReadLine, Abort, Open(path)]);
    RunSnoc(cfg, open + [ReadLine, Abort, Open(path)], ReadLine, open + [ReadLine, Abort, Open(path), ReadLine]);
    assert open + [ReadLine, Abort, Open(path), ReadLine] ==
           [Grow(path, line), Boot, Open(path), ReadLine, Abort, Open(path), ReadLine];
    var first, second := ReadTwice(cfg, path, line, w);
    TwoCopies(cfg, path, first, second, line.size);
    assert EndOffset([line], 1) == line.size;
  }

  lemma ReadTwice(cfg: Config, path: string, line: Line, w: World) returns (first: Wrapper, second: Wrapper)
    requires MappedTo(cfg, path, line).Some?
    requires w == World(map[path := [line]], None, None, Scanning(EMPTY_MEMORY, path, 0))
    ensures var w' := Next(cfg, Next(cfg, Next(cfg, Next(cfg, w, ReadLine), Abort), Open(path)), ReadLine);
            w'.logs == w.logs && w'.journal == Some(Encode(cfg, [first, second]))
    ensures first.event.Some? && second.event.Some?
    ensures first.logPath == second.logPath == Some(path) && first.logOffset == second.logOffset == Some(line.size)
  {
    first := NewRecord(cfg, EMPTY_MEMORY, path, line, line.size);
    var mem := Applied(EMPTY_MEMORY, first);
    second := NewRecord(cfg, mem, path, line, line.size);
    ReadOnlyLine(cfg, path, line, w, [], EMPTY_MEMORY);
    assert [] + [first] == [first] && [first] + [second] == [first, second];
    var read := w.(journal := Some(Encode(cfg, [first])), process := Scanning(mem, path, line.size));
    Reopened(cfg, path, line, read, mem);
    ReadOnlyLine(cfg, path, line, read.(process := Scanning(mem, path, 0)), [first], mem);
  }

  lemma OpenOnlyLine(cfg: Config, path: string, line: Line)
    ensures Run(cfg, INITIAL, [Grow(path, line), Boot, Open(path)]) ==
            World(map[path := [line]], None, None, Scanning(EMPTY_MEMORY, path, 0))
  {
    assert LinesOf(INITIAL.logs, path) + [line] == [line];
    assert EndOffset([line], 1) == line.size;
    RunSnoc(cfg, [], Grow(path, line), [Grow(path, line)]);
    RunSnoc(cfg, [Grow(path, line)], Boot, [Grow(path, line), Boot]);
    RunSnoc(cfg, [Grow(path, line), Boot], Open(path), [Grow(path, line), Boot, Open(path)]);
  }

  lemma RunSnoc(cfg: Config, before: seq<Step>, step: Step, steps: seq<Step>)
    requires steps == before + [step]
    ensures Run(cfg, INITIAL, steps) == Next(cfg, Run(cfg, INITIAL, before), step)
  {
    assert steps[..|steps| - 1] == before;
  }

  lemma TwoCopies(cfg: Config, path: string, first: Wrapper, second: Wrapper, offset: int)
    requires first.event.Some? && second.event.Some?
    requires first.logPath == second.logPath == Some(path) && first.logOffset == second.logOffset == Some(offset)
    ensures Occurrences(Journaled(RecordsIn(Encode(cfg, [first, second])), path), offset) == 2
  {
    RecordsInEncoded(cfg, [first, second]);
    assert [first, second][..1] == [first] && [first][..0] == [];
    assert Journaled([first], path) == [EntryOf(first)];
    var entries := Journaled([first, second], path);
    assert |entries| == 2 && entries[0].offset == entries[1].offset == offset;
    assert Occurrences(entries[..1], offset) == 1 by { assert entries[..1][..0] == []; }
  }
}

/**
 What saving, scanning and restarting mean for the positions of the Zeek adapter: a saved
 position is never lost, a restart right after a save changes nothing, and a scan that ends
 has journaled its whole file.
 */
module ZeekPositions {
  import opened Options
  import opened Sequences
  import opened ZeekJournal
  import opened ZeekChains
  import opened ZeekRuns

  // ----- Saved positions -----

  lemma NotBefore(lines: seq<Line>, i: nat, j: nat)
    requires i <= j <= |lines|
    ensures EndOffset(lines, i) <= EndOffset(lines, j)
  {
    if i < j { EndOffsetGrows(lines, i, j); }
  }

  /** In memory no path is behind its saved position. */
  lemma MemoryIsAhead(cfg: Config, w: World, records: seq<Wrapper>, path: string)
    requires Inv(cfg, w, records) && !w.process.Down?
    ensures SavedOffset(w, path) <= OffsetOf(w.process.mem.offsets, path)
  {
    assert PathInv(cfg, w, records, path);
    var s: nat, m: nat, c: nat :| PathOk(cfg, w, records, path, s, m, c);
    NotBefore(LinesOf(w.logs, path), s, m);
  }

  lemma SavedNeverFallsBack(cfg: Config, w: World, records: seq<Wrapper>, step: Step, path: string)
    requires Inv(cfg, w, records)
    ensures SavedOffset(w, path) <= SavedOffset(Next(cfg, w, step), path)
  {
    if step.Save? && w.process.Idle? { MemoryIsAhead(cfg, w, records, path); }
  }

  lemma {:induction false} PositionsHold(cfg: Config, w: World, records: seq<Wrapper>, more: seq<Step>, path: string)
    requires PositiveTargets(cfg) && Inv(cfg, w, records) && BenignRun(cfg, w, more)
    ensures var later := Run(cfg, w, more);
            && SavedOffset(w, path) <= SavedOffset(later, path)
            && (!later.process.Down? ==> SavedOffset(w, path) <= OffsetOf(later.process.mem.offsets, path))
  {
    var later := BenignRunKeepsInv(cfg, w, records, more);
    if !Run(cfg, w, more).process.Down? { MemoryIsAhead(cfg, Run(cfg, w, more), later, path); }
    if more != [] {
      var before := more[..|more| - 1];
      PositionsHold(cfg, w, records, before, path);
      var earlier := BenignRunKeepsInv(cfg, w, records, before);
      SavedNeverFallsBack(cfg, Run(cfg, w, before), earlier, more[|more| - 1], path);
    }
  }

  /** Whenever an idle process saves, its whole memory is what is stored; and after any benign
      continuation, crashes and restarts included, no path is behind the position it had
      then, neither in the saved state nor in memory. */
  lemma SavedPositionsHold(cfg: Config, steps: seq<Step>, more: seq<Step>, path: string)
    requires PositiveTargets(cfg) && BenignRun(cfg, INITIAL, steps) && Run(cfg, INITIAL, steps).process.Idle?
    requires BenignRun(cfg, Run(cfg, INITIAL, steps + [Save]), more)
    ensures var mem := Run(cfg, INITIAL, steps).process.mem;
            var later := Run(cfg, Run(cfg, INITIAL, steps + [Save]), more);
            && Run(cfg, INITIAL, steps + [Save]) == Run(cfg, INITIAL, steps).(saved := Some(mem))
            && OffsetOf(mem.offsets, path) <= SavedOffset(later, path)
            && (!later.process.Down? ==> OffsetOf(mem.offsets, path) <= OffsetOf(later.process.mem.offsets, path))
  {
    var records := RunKeepsInv(cfg, steps);
    PrefixOfLonger(steps, Save);
    SaveKeepsInv(cfg, Run(cfg, INITIAL, steps), records);
    PositionsHold(cfg, Run(cfg, INITIAL, steps + [Save]), records, more, path);
  }

  /** Equal but for paths without a position, which count as 0. */
  ghost predicate SameMemory(a: Memory, b: Memory) {
    && a.journalSequence == b.journalSequence && a.chains == b.chains
    && forall path :: OffsetOf(a.offsets, path) == OffsetOf(b.offsets, path)
  }

  lemma BootResumesAt(cfg: Config, w: World, records: seq<Wrapper>, path: string)
    requires Inv(cfg, w, records) && w.process.Idle? && w.saved == Some(w.process.mem) && w.journal.Some?
    ensures OffsetOf(MergedOffsets(w.process.mem.offsets, records), path) == OffsetOf(w.process.mem.offsets, path)
  {
    assert PathInv(cfg, w, records, path);
    var s: nat, m: nat, c: nat :| PathOk(cfg, w, records, path, s, m, c);
    SameBoundary(LinesOf(w.logs, path), s, c);
    MergedOffset(cfg, w.process.mem.offsets, records, path);
    var resumed := Resume(cfg, path, LinesOf(w.logs, path), s, c);
  }

  lemma BootAfterSave(cfg: Config, w: World, records: seq<Wrapper>)
    requires Inv(cfg, w, records) && w.process.Idle? && w.saved == Some(w.process.mem)
    ensures var w' := Booted(w.(process := Down));
            w'.process.Idle? && w' == w.(process := w'.process) && SameMemory(w'.process.mem, w.process.mem)
  {
    if w.journal.Some? {
      var file := w.journal.value;
      assert file == file[..|records|] == Encode(cfg, records) + [];
      RecoverEncoded(cfg, records, [], w.process.mem.offsets);
      forall path
        ensures OffsetOf(MergedOffsets(w.process.mem.offsets, records), path) == OffsetOf(w.process.mem.offsets, path)
      {
        BootResumesAt(cfg, w, records, path);
      }
    }
  }

  lemma RunOneMore(cfg: Config, before: seq<Step>, step: Step)
    ensures Run(cfg, INITIAL, before + [step]) == Next(cfg, Run(cfg, INITIAL, before), step)
  {
    PrefixOfLonger(before, step);
  }

  lemma SaveCrashBoot(cfg: Config, steps: seq<Step>)
    requires Run(cfg, INITIAL, steps).process.Idle?
    ensures var w := Run(cfg, INITIAL, steps);
            Run(cfg, INITIAL, steps + [Save] + [Crash] + [Boot]) ==
            Booted(w.(saved := Some(w.process.mem), process := Down))
  {
    RunOneMore(cfg, steps, Save);
    RunOneMore(cfg, steps + [Save], Crash);
    RunOneMore(cfg, steps + [Save] + [Crash], Boot);
  }

  /** Saving, crashing and starting again leaves the adapter as it was: same journal, same
      sequence and chains, and the same position for every path, whatever its lines map to. */
  lemma SaveSurvivesRestart(cfg: Config, steps: seq<Step>)
    requires PositiveTargets(cfg) && BenignRun(cfg, INITIAL, steps) && Run(cfg, INITIAL, steps).process.Idle?
    ensures var w := Run(cfg, INITIAL, steps);
            var w' := Run(cfg, INITIAL, steps + [Save] + [Crash] + [Boot]);
            && w'.process.Idle? && SameMemory(w'.process.mem, w.process.mem)
            && w'.journal == w.journal && w'.logs == w.logs && w'.saved == Some(w.process.mem)
  {
    var records := RunKeepsInv(cfg, steps);
    var w := Run(cfg, INITIAL, steps);
    SaveCrashBoot(cfg, steps);
    SaveKeepsInv(cfg, w, records);
    BootAfterSave(cfg, w.(saved := Some(w.process.mem)), records);
  }

  // ----- Complete scans -----

  /** Every mapped line of the log has exactly one record, and every other line none. */
  predicate WhollyJournaled(cfg: Config, w: World, path: string) {
    forall i :: 0 <= i < |LinesOf(w.logs, path)| ==>
      Copies(w, path, i) == if MappedTo(cfg, path, LinesOf(w.logs, path)[i]).Some? then 1 else 0
  }

  lemma EndIsJournaled(cfg: Config, w: World, records: seq<Wrapper>, path: string)
    requires Inv(cfg, w, records) && !w.process.Down?
    requires OffsetOf(w.process.mem.offsets, path) == EndOffset(LinesOf(w.logs, path), |LinesOf(w.logs, path)|)
    ensures WhollyJournaled(cfg, w, path)
  {
    var lines := LinesOf(w.logs, path);
    OnceEachHolds(cfg, w, records);
    forall i | 0 <= i < |lines|
      ensures Copies(w, path, i) == if MappedTo(cfg, path, lines[i]).Some? then 1 else 0
    {
      NotBefore(lines, i + 1, |lines|);
      assert Passed(w, path, EndOffset(lines, i + 1));
    }
  }

  /** A file is closed at its end, and then it is wholly journaled. */
  lemma CloseIsAtEnd(cfg: Config, w: World, records: seq<Wrapper>)
    requires Inv(cfg, w, records) && w.process.Scanning? && NextLine(w).None?
    ensures var path, w' := w.process.path, Next(cfg, w, Close);
            && w'.process.Idle? && w' == w.(process := w'.process)
            && w'.process.mem.offsets ==
               w.process.mem.offsets[path := EndOffset(LinesOf(w.logs, path), |LinesOf(w.logs, path)|)]
            && WhollyJournaled(cfg, w', path)
  {
    var c := CursorAtBoundary(cfg, w, records);
    CloseKeepsInv(cfg, w, records);
    EndIsJournaled(cfg, Next(cfg, w, Close), records, w.process.path);
  }

  /** Reading on reaches the end of the file. */
  lemma {:induction false} ReadsToEnd(cfg: Config, w: World, records: seq<Wrapper>)
      returns (scan: seq<Step>, w': World, records': seq<Wrapper>)
    requires PositiveTargets(cfg) && Inv(cfg, w, records) && w.process.Scanning?
    ensures forall i :: 0 <= i < |scan| ==> scan[i] == ReadLine
    ensures Run(cfg, w, scan) == w' && Inv(cfg, w', records')
    ensures w'.process.Scanning? && w'.process.path == w.process.path && NextLine(w').None?
    ensures w'.logs == w.logs && w'.saved == w.saved
    decreases |LinesOf(w.logs, w.process.path)| - (if NextLine(w).Some? then NextLine(w).value
                                                   else |LinesOf(w.logs, w.process.path)|)
  {
    var lines := LinesOf(w.logs, w.process.path);
    if NextLine(w).None? {
      scan, w', records' := [], w, records;
    } else {
      var i := NextLine(w).value;
      var next := Next(cfg, w, ReadLine);
      var after := ReadKeepsInv(cfg, w, records);
      LineAtBoundary(lines, i + 1);
      scan, w', records' := ReadsToEnd(cfg, next, after);
      RunFirst(cfg, w, ReadLine, scan);
      scan := [ReadLine] + scan;
    }
  }

  lemma {:induction false} RunFirst(cfg: Config, w: World, first: Step, rest: seq<Step>)
    ensures Run(cfg, w, [first] + rest) == Run(cfg, Next(cfg, w, first), rest)
  {
    if rest == [] {
      assert [first] + rest == [] + [first];
      PrefixOfLonger([], first);
    } else {
      RunFirst(cfg, w, first, rest[..|rest| - 1]);
      AddLast([first], rest);
      PrefixOfLonger([first] + rest[..|rest| - 1], rest[|rest| - 1]);
    }
  }

  /** From every idle state that benign runs reach, opening a log, reading on and closing it
      ends at the end of the file with every mapped line journaled exactly once. */
  lemma ScanJournalsAll(cfg: Config, steps: seq<Step>, path: string) returns (scan: seq<Step>)
    requires PositiveTargets(cfg) && BenignRun(cfg, INITIAL, steps)
    requires Run(cfg, INITIAL, steps).process.Idle? && path in Run(cfg, INITIAL, steps).logs
    ensures forall i :: 0 <= i < |scan| ==> scan[i] == ReadLine
    ensures var w := Run(cfg, INITIAL, steps);
            var w' := Run(cfg, w, [Open(path)] + scan + [Close]);
            && w'.process.Idle? && w'.logs == w.logs && w'.saved == w.saved
            && OffsetOf(w'.process.mem.offsets, path) == EndOffset(w.logs[path], |w.logs[path]|)
            && WhollyJournaled(cfg, w', path)
  {
    var w := Run(cfg, INITIAL, steps);
    var records := RunKeepsInv(cfg, steps);
    OpenKeepsInv(cfg, w, records, path);
    var end, after;
    scan, end, after := ReadsToEnd(cfg, Next(cfg, w, Open(path)), records);
    RunFirst(cfg, w, Open(path), scan);
    PrefixOfLonger([Open(path)] + scan, Close);
    CloseIsAtEnd(cfg, end, after);
  }
}

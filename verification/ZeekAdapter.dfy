/**
 The Zeek adapter itself: module state and journal file updated in place, each method
 tied to the corresponding step of the state machine.
 */
module ZeekAdapter {
  import opened Options
  import opened Sequences
  import opened ZeekJournal
  import opened ZeekChains
  import opened ZeekRuns

  // ----- Recovery byte counts -----

  lemma {:induction false} SizeOfCons(file: seq<RawLine>)
    requires file != []
    ensures Size(file) == file[0].size + Size(file[1..])
  {
    if |file| > 1 {
      assert file[..|file| - 1][1..] == file[1..][..|file| - 2];
      SizeOfCons(file[..|file| - 1]);
    } else {
      assert file[..0] == file[1..] == [];
    }
  }

  lemma {:induction false} SizeOfPrefix(file: seq<RawLine>, n: nat)
    requires n <= |file|
    ensures Size(file[..n]) <= Size(file)
    ensures Size(file[..n]) == Size(file) ==> n == |file|
  {
    if n < |file| {
      assert file[..|file| - 1][..n] == file[..n];
      SizeOfPrefix(file[..|file| - 1], n);
    } else {
      assert file[..n] == file;
    }
  }

  /** Truncating to the byte count of the first `n` lines keeps exactly those lines. */
  lemma {:induction false} TakeWholeLines(file: seq<RawLine>, n: nat)
    requires n <= |file|
    ensures TakeBytes(file, Size(file[..n])) == file[..n]
  {
    if n > 0 {
      SizeOfCons(file[..n]);
      assert file[..n][1..] == file[1..][..n - 1];
      TakeWholeLines(file[1..], n - 1);
      assert file[..n] == [file[0]] + file[1..][..n - 1];
    }
  }

  lemma RecoverRejects(file: seq<RawLine>, offsets: map<string, int>, i: nat, e: RecoveryError)
    requires i < ParsedPrefix(file)
    requires var before := Replay(Memory(0, map[], offsets), file[..i]);
             before.Success? && Accept(before.value, file[i].parsed) == Failure(e)
    ensures Recover(file, offsets) == Failure(e)
  {
    ReplayNext(Memory(0, map[], offsets), file, i);
    ReplayPrefixFails(Memory(0, map[], offsets), file, i + 1, ParsedPrefix(file));
  }

  lemma SizeNext(file: seq<RawLine>, i: nat)
    requires i < |file|
    ensures Size(file[..i + 1]) == Size(file[..i]) + file[i].size
  {
    assert file[..i + 1][..i] == file[..i];
  }

  /** A line that ends where the file ends is the last one. */
  lemma LastByCount(file: seq<RawLine>, i: nat)
    requires i < |file| && Size(file[..i]) + file[i].size == Size(file)
    ensures i + 1 == |file|
  {
    SizeNext(file, i);
    SizeOfPrefix(file, i + 1);
  }

  /** Cutting the file only when bytes are left over keeps exactly the lines counted. */
  lemma CutToPrefix(file: seq<RawLine>, i: nat)
    requires i <= |file|
    ensures (if Size(file[..i]) != Size(file) then TakeBytes(file, Size(file[..i])) else file) == file[..i]
  {
    TakeWholeLines(file, i);
    SizeOfPrefix(file, i);
    if i == |file| { assert file[..i] == file; }
  }

  lemma {:induction false} ReplayPrefixFails(mem: Memory, file: seq<RawLine>, i: nat, n: nat)
    requires i <= n <= |file| && Replay(mem, file[..i]).Failure?
    ensures Replay(mem, file[..n]) == Replay(mem, file[..i])
    decreases n - i
  {
    if i < n {
      assert file[..n][..n - 1] == file[..n - 1];
      ReplayPrefixFails(mem, file, i, n - 1);
    }
  }

  lemma ReplayNext(mem: Memory, file: seq<RawLine>, i: nat)
    requires i < |file| && Replay(mem, file[..i]).Success?
    ensures Replay(mem, file[..i + 1]) == Accept(Replay(mem, file[..i]).value, file[i].parsed)
  {
    assert file[..i + 1][..i] == file[..i];
  }

  // ----- Pages of events -----

  /** The records after a sequence number. */
  function After(records: seq<Wrapper>, after: int): seq<Wrapper> {
    if records == [] then []
    else
      var before, w := After(records[..|records| - 1], after), records[|records| - 1];
      if w.journalSequence > after then before + [w] else before
  }

  /** At most `limit`, and at least one, of the records after `after`. */
  function Page(records: seq<Wrapper>, after: int, limit: int): seq<Wrapper> {
    var found, wanted := After(records, after), Max(1, limit);
    if |found| <= wanted then found else found[..wanted]
  }

  lemma {:induction false} AfterPrefix(records: seq<Wrapper>, after: int, n: nat)
    requires n <= |records|
    ensures After(records[..n], after) <= After(records, after)
  {
    if n < |records| {
      assert records[..|records| - 1][..n] == records[..n];
      AfterPrefix(records[..|records| - 1], after, n);
    } else {
      assert records[..n] == records;
    }
  }

  /** A page of a journal made by appending is the contiguous slice that follows `after`. */
  lemma PageIsSlice(cfg: Config, records: seq<Wrapper>, after: nat, limit: pos)
    requires Appended(cfg, records)
    ensures Page(records, after, limit) ==
            if after >= |records| then []
            else if after + limit >= |records| then records[after..] else records[after..after + limit]
  {
    AfterIsSuffix(cfg, records, after);
  }

  lemma {:induction false} AfterIsSuffix(cfg: Config, records: seq<Wrapper>, after: nat)
    requires Appended(cfg, records)
    ensures After(records, after) == if after >= |records| then [] else records[after..]
  {
    ChainIntegrity(cfg, records);
    if records != [] {
      var before := records[..|records| - 1];
      AfterIsSuffix(cfg, before, after);
      if after < |records| { SuffixWithLast(records, after); }
    }
  }

  // ----- The adapter -----

  class Adapter {
    const cfg: Config
    // `_state`
    var journalSequence: int
    var chains: map<int, Chain>
    var offsets: map<string, int>
    // files in the state directory
    var journal: Option<seq<RawLine>>
    var saved: Option<Memory>

    ghost function State(): Memory
      reads this
    {
      Memory(journalSequence, chains, offsets)
    }

    /** The machine state in which this adapter is idle. */
    ghost function Resting(logs: map<string, seq<Line>>): World
      reads this
    {
      World(logs, journal, saved, Idle(State()))
    }

    constructor (cfg: Config, journal: Option<seq<RawLine>>, saved: Option<Memory>)
      ensures this.cfg == cfg && this.journal == journal && this.saved == saved && State() == EMPTY_MEMORY
    {
      this.cfg := cfg;
      this.journal, this.saved := journal, saved;
      journalSequence, chains, offsets := 0, map[], map[];
    }

    /** Reads the journal line by line, cuts off a torn last line, and rebuilds the state. */
    method RecoverJournalState() returns (r: Result<(), RecoveryError>)
      modifies this
      ensures saved == old(saved)
      ensures old(journal).None? ==> r.Success? && journal == None && State() == old(State())
      ensures old(journal).Some? ==>
        match Recover(old(journal).value, old(offsets))
        case Failure(e) => r == Failure(e) && journal == old(journal) && State() == old(State())
        case Success((mem, file)) => r.Success? && journal == Some(file) && State() == mem
    {
      if journal.None? {
        return Success(());
      }
      var file := journal.value;
      var recoveredSequence, recoveredChains, recoveredOffsets := 0, map[], offsets;
      var validBytes, i := 0, 0;
      ghost var start := Memory(0, map[], offsets);
      ghost var n := ParsedPrefix(file);
      assert file[..0] == [];
      while i < |file|
        invariant 0 <= i <= n
        invariant validBytes == Size(file[..i])
        invariant Replay(start, file[..i]) == Success(Memory(recoveredSequence, recoveredChains, recoveredOffsets))
        invariant unchanged(this)
      {
        if file[i].parsed.Garbage? {
          if Size(file[..i]) + file[i].size != Size(file) {
            return Failure(CorruptRecord);
          }
          LastByCount(file, i);
          break;
        }
        ReplayNext(start, file, i);
        match Accept(Memory(recoveredSequence, recoveredChains, recoveredOffsets), file[i].parsed)
        case Failure(e) =>
          RecoverRejects(file, offsets, i, e);
          return Failure(e);
        case Success(mem) =>
          recoveredSequence, recoveredChains, recoveredOffsets := mem.journalSequence, mem.chains, mem.offsets;
          SizeNext(file, i);
          validBytes, i := validBytes + file[i].size, i + 1;
      }
      CutToPrefix(file, i);
      if validBytes != Size(file) {
        journal := Some(TakeBytes(file, validBytes));
      }
      journalSequence, chains, offsets := recoveredSequence, recoveredChains, recoveredOffsets;
      r := Success(());
    }

    /** Start-up: the saved state replaces the initial one, then the journal is recovered. */
    method LoadState(ghost logs: map<string, seq<Line>>) returns (r: Result<(), RecoveryError>)
      requires State() == EMPTY_MEMORY
      modifies this
      ensures r.Success? ==> Resting(logs) == Booted(World(logs, old(journal), old(saved), Down))
      ensures r.Failure? ==> Booted(World(logs, old(journal), old(saved), Down)) == World(logs, journal, saved, Down)
    {
      if saved.Some? {
        journalSequence, chains, offsets := saved.value.journalSequence, saved.value.chains, saved.value.offsets;
      }
      r := RecoverJournalState();
    }

    method SaveState(ghost logs: map<string, seq<Line>>)
      modifies this`saved
      ensures saved == Some(State()) && State() == old(State()) && journal == old(journal)
      ensures Resting(logs) == Next(cfg, old(Resting(logs)), Save)
    {
      saved := Some(Memory(journalSequence, chains, offsets));
    }

    /** Journals one log line, if it maps to a target: durable write first, memory after. */
    method AppendNormalized(ghost logs: map<string, seq<Line>>, path: string, line: Line, offset: nat,
        ghost i: nat, ghost cursor: int)
      requires i < |LinesOf(logs, path)| && LinesOf(logs, path)[i] == line
          && offset == EndOffset(LinesOf(logs, path), i + 1)
      modifies this
      ensures World(logs, journal, saved, Scanning(State(), path, offset)) ==
              LineRead(cfg, World(logs, old(journal), old(saved), Scanning(old(State()), path, cursor)), i)
      ensures offsets == old(offsets)
    {
      var target := MappedTo(cfg, path, line);
      if target.None? {
        return;
      }
      var record := NewRecord(cfg, Memory(journalSequence, chains, offsets), path, line, offset);
      journal := Some(AppendBytes(journal.GetOr([]), RecordLine(cfg, record)));
      journalSequence := record.journalSequence;
      var event := record.event.value;
      chains := chains[record.environmentId := Chain(event.canonical.sequence, event.eventHash)];
    }

    /** Scans one log file from its stored offset to its end, line by line. */
    method ScanFile(logs: map<string, seq<Line>>, path: string) returns (ghost count: nat)
      requires path in logs
      modifies this
      ensures Resting(logs) == Run(cfg, old(Resting(logs)), ScanSteps(path, count) + [Close])
    {
      var lines := logs[path];
      var offset := OffsetOf(offsets, path);
      if EndOffset(lines, |lines|) < offset {
        offset := 0;
      }
      count := 0;
      ghost var start := Resting(logs);
      ScanBegins(cfg, start, path);
      var next := LineAt(lines, offset);
      while next.Some?
        invariant next == LineAt(lines, offset)
        invariant World(logs, journal, saved, Scanning(State(), path, offset)) ==
            Run(cfg, start, ScanSteps(path, count))
        decreases |lines| - (if next.Some? then next.value else |lines|)
      {
        var i := next.value;
        ghost var before := World(logs, journal, saved, Scanning(State(), path, offset));
        LineAtBoundary(lines, i + 1);
        AppendNormalized(logs, path, lines[i], EndOffset(lines, i + 1), i, offset);
        offset := EndOffset(lines, i + 1);
        ScanReads(cfg, start, path, count, before, i);
        count := count + 1;
        next := LineAt(lines, offset);
      }
      offsets := offsets[path := offset];
      assert (ScanSteps(path, count) + [Close])[..count + 1] == ScanSteps(path, count);
    }

    /** `GET /v1/events`: the first records after `after`, at most `limit` of them; `None`
        when a line that is no record comes before the page is full. */
    method Events(after: int, limit: int) returns (events: Option<seq<Wrapper>>)
      ensures var file, n := journal.GetOr([]), ObjectPrefix(journal.GetOr([]));
              var page := Page(RecordsIn(file[..n]), after, limit);
              events == if n == |file| || |page| == Max(1, limit) then Some(page) else None
    {
      var file := journal.GetOr([]);
      var found, i := [], 0;
      ghost var n := ObjectPrefix(file);
      assert file[..0] == [];
      while i < |file|
        invariant 0 <= i <= n
        invariant found == After(RecordsIn(file[..i]), after) && |found| < Max(1, limit)
      {
        if !file[i].parsed.Object? {
          assert i == n;
          return None;
        }
        var item := file[i].parsed.wrapper;
        AfterNext(file, i, after);
        if item.journalSequence > after {
          found := found + [item];
          if |found| >= Max(1, limit) {
            FullPage(file, i + 1, after, limit);
            return Some(found);
          }
        }
        i := i + 1;
      }
      events := Some(found);
    }
  }

  /** How many lines precede the first one that is no JSON object. */
  function ObjectPrefix(file: seq<RawLine>): (n: nat)
    ensures n <= |file| && AllObjects(file[..n])
    ensures n < |file| ==> !file[n].parsed.Object?
  {
    if file == [] || !file[0].parsed.Object? then 0
    else
      var rest := ObjectPrefix(file[1..]);
      assert file[..rest + 1] == [file[0]] + file[1..][..rest];
      1 + rest
  }

  /** Once a page is full, what follows in the file does not matter. */
  lemma FullPage(file: seq<RawLine>, i: nat, after: int, limit: int)
    requires i <= ObjectPrefix(file) && |After(RecordsIn(file[..i]), after)| == Max(1, limit)
    ensures Page(RecordsIn(file[..ObjectPrefix(file)]), after, limit) == After(RecordsIn(file[..i]), after)
  {
    var n := ObjectPrefix(file);
    assert file[..n][..i] == file[..i];
    EarlyPage(file[..n], i, after, limit);
  }

  predicate AllObjects(file: seq<RawLine>) {
    forall i :: 0 <= i < |file| ==> file[i].parsed.Object?
  }

  lemma AfterNext(file: seq<RawLine>, i: nat, after: int)
    requires i < |file| && file[i].parsed.Object?
    ensures After(RecordsIn(file[..i + 1]), after) ==
            After(RecordsIn(file[..i]), after)
                + (if file[i].parsed.wrapper.journalSequence > after then [file[i].parsed.wrapper] else [])
  {
    assert file[..i + 1][..i] == file[..i];
    var records := RecordsIn(file[..i + 1]);
    assert records[..|records| - 1] == RecordsIn(file[..i]);
  }

  lemma EarlyPage(file: seq<RawLine>, n: nat, after: int, limit: int)
    requires AllObjects(file) && n <= |file|
    requires |After(RecordsIn(file[..n]), after)| == Max(1, limit)
    ensures Page(RecordsIn(file), after, limit) == After(RecordsIn(file[..n]), after)
  {
    RecordsInPrefix(file, n);
    AfterPrefix(RecordsIn(file), after, n);
  }

  /** Opening a log and reading `n` lines of it. */
  function ScanSteps(path: string, n: nat): (steps: seq<Step>)
    ensures |steps| == n + 1
  {
    [Open(path)] + seq(n, _ => ReadLine)
  }

  lemma ScanBegins(cfg: Config, start: World, path: string)
    ensures Run(cfg, start, ScanSteps(path, 0)) == Next(cfg, start, Open(path))
  {
    assert ScanSteps(path, 0)[..0] == [];
  }

  lemma ScanContinues(cfg: Config, start: World, path: string, n: nat)
    ensures Run(cfg, start, ScanSteps(path, n + 1)) == Next(cfg, Run(cfg, start, ScanSteps(path, n)), ReadLine)
  {
    assert ScanSteps(path, n + 1)[..n + 1] == ScanSteps(path, n);
  }

  lemma ScanReads(cfg: Config, start: World, path: string, n: nat, before: World, i: nat)
    requires before == Run(cfg, start, ScanSteps(path, n))
    requires before.process.Scanning? && NextLine(before) == Some(i)
    ensures LineRead(cfg, before, i) == Run(cfg, start, ScanSteps(path, n + 1))
  {
    ScanContinues(cfg, start, path, n);
  }

  lemma {:induction false} RecordsInPrefix(file: seq<RawLine>, n: nat)
    requires n <= |file| && AllObjects(file)
    ensures |RecordsIn(file)| == |file|
    ensures RecordsIn(file)[..n] == RecordsIn(file[..n])
  {
    if file != [] {
      var before := file[..|file| - 1];
      if n < |file| {
        RecordsInPrefix(before, n);
        assert before[..n] == file[..n];
      } else {
        RecordsInPrefix(before, |before|);
        assert file[..n] == file;
      }
    }
  }
}

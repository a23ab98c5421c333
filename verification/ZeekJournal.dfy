/**
 Values of the Zeek adapter: log lines, journal records, the journal file as a
 sequence of `readline` results, the in-memory state, and what one append and
 one recovery do to them.
 */
module ZeekJournal {
  import opened Options

  // ----- Log lines and bundles -----

  /** The fields of a parsed Zeek log line the adapter looks at. `port` is `None`
      when `id.resp_p` is not an integer; `protocol` is already lower-cased. */
  datatype Data = Data(port: Option<int>, protocol: string, content: string)

  /** One newline-terminated log line. `data` is `None` when it is not a JSON object. */
  datatype Line = Line(size: pos, data: Option<Data>)

  datatype Target = Target(hostPort: int, protocol: string, environmentId: int)

  // ----- Journal records -----

  /** The part of an event that is hashed (everything but the hash itself). */
  datatype Canonical = Canonical(body: string, sequence: int, logType: string, reference: int, previousHash: string)

  datatype Event = Event(canonical: Canonical, eventHash: string)

  datatype Wrapper = Wrapper(
    journalSequence: int, environmentId: int, event: Option<Event>,
    logPath: Option<string>, logOffset: Option<int>)

  /** What is fixed while the adapter runs. A log path fixes its bundle, because the
      bundle hash is the directory name. The hash, the event normalisation and the
      JSON length are uninterpreted. */
  datatype Config = Config(
    hash: Canonical -> string,
    targets: string -> seq<Target>,
    logType: string -> string,
    normalize: (string, Data, Target) -> string,
    extraLength: Wrapper -> nat)

  // ----- The journal file -----

  datatype Parsed = Garbage | NotAnObject | Object(wrapper: Wrapper)

  /** One `readline` result: its byte count, what `json.loads` makes of it, and
      whether it ends in a newline. */
  datatype RawLine = RawLine(size: pos, parsed: Parsed, terminated: bool)

  /** Bytes of the JSON text of a record, without its newline; at least `{}`. */
  function JsonLength(cfg: Config, w: Wrapper): (n: nat)
    ensures n > 0
  {
    cfg.extraLength(w) + 2
  }

  function Size(file: seq<RawLine>): nat {
    if file == [] then 0 else Size(file[..|file| - 1]) + file[|file| - 1].size
  }

  /** Writing bytes in append mode: they continue an unterminated last line. */
  function AppendBytes(file: seq<RawLine>, chunk: RawLine): seq<RawLine> {
    if file == [] || file[|file| - 1].terminated then file + [chunk]
    else
      var last := file[|file| - 1];
      file[..|file| - 1] + [RawLine(last.size + chunk.size, Garbage, chunk.terminated)]
  }

  /** The first `bytes` bytes of the file. */
  function TakeBytes(file: seq<RawLine>, bytes: nat): seq<RawLine> {
    if file == [] || bytes == 0 then []
    else if file[0].size <= bytes then [file[0]] + TakeBytes(file[1..], bytes - file[0].size)
    else [RawLine(bytes, Garbage, false)]
  }

  /** A record written completely. */
  function RecordLine(cfg: Config, w: Wrapper): RawLine {
    RawLine(JsonLength(cfg, w) + 1, Object(w), true)
  }

  /** The first `bytes` bytes of a record line: a strict prefix of a JSON object does
      not parse; the whole object without its newline does. */
  function Torn(cfg: Config, w: Wrapper, bytes: nat): (tail: seq<RawLine>)
    requires bytes <= JsonLength(cfg, w) + 1
  {
    if bytes == 0 then []
    else if bytes < JsonLength(cfg, w) then [RawLine(bytes, Garbage, false)]
    else if bytes == JsonLength(cfg, w) then [RawLine(bytes, Object(w), false)]
    else [RecordLine(cfg, w)]
  }

  function Encode(cfg: Config, records: seq<Wrapper>): (file: seq<RawLine>)
    ensures |file| == |records|
    ensures forall i :: 0 <= i < |file| ==> file[i] == RecordLine(cfg, records[i])
  {
    seq(|records|, i requires 0 <= i < |records| => RecordLine(cfg, records[i]))
  }

  // ----- In-memory state -----

  datatype Chain = Chain(sequence: int, lastHash: string)

  datatype Memory = Memory(journalSequence: int, chains: map<int, Chain>, offsets: map<string, int>)

  const EMPTY_MEMORY := Memory(0, map[], map[])

  function ChainOf(chains: map<int, Chain>, environmentId: int): Chain {
    if environmentId in chains then chains[environmentId] else Chain(0, "")
  }

  function OffsetOf(offsets: map<string, int>, path: string): int {
    if path in offsets then offsets[path] else 0
  }

  // ----- Appending -----

  /** The first target with the line's port and protocol. */
  function TargetFor(targets: seq<Target>, data: Data): Option<Target> {
    if targets == [] then None
    else if Matches(targets[0], data) then Some(targets[0])
    else TargetFor(targets[1..], data)
  }

  lemma {:induction false} TargetIsFirstMatch(targets: seq<Target>, data: Data) returns (i: nat)
    ensures i <= |targets|
    ensures forall j :: 0 <= j < i ==> data.port != Some(targets[j].hostPort) || data.protocol != targets[j].protocol
    ensures i < |targets| ==> data.port == Some(targets[i].hostPort) && data.protocol == targets[i].protocol
    ensures TargetFor(targets, data) == if i < |targets| then Some(targets[i]) else None
  {
    if targets == [] || Matches(targets[0], data) {
      i := 0;
    } else {
      var k := TargetIsFirstMatch(targets[1..], data);
      assert forall j :: 1 <= j < |targets| ==> targets[j] == targets[1..][j - 1];
      i := k + 1;
    }
  }

  predicate Matches(target: Target, data: Data) {
    data.port == Some(target.hostPort) && target.protocol == data.protocol
  }

  /** The target a log line is journaled for, if any. */
  function MappedTo(cfg: Config, path: string, line: Line): Option<Target> {
    if line.data.None? then None else TargetFor(cfg.targets(path), line.data.value)
  }

  /** The record built for a mapped line. */
  function NewRecord(cfg: Config, mem: Memory, path: string, line: Line, offset: int): (w: Wrapper)
    requires MappedTo(cfg, path, line).Some?
  {
    var target := MappedTo(cfg, path, line).value;
    var chain := ChainOf(mem.chains, target.environmentId);
    var canonical := Canonical(
      cfg.normalize(path, line.data.value, target), chain.sequence + 1,
      cfg.logType(path), mem.journalSequence + 1, chain.lastHash);
    Wrapper(mem.journalSequence + 1, target.environmentId,
            Some(Event(canonical, cfg.hash(canonical))), Some(path), Some(offset))
  }

  /** The memory update that follows a durable write. */
  function Applied(mem: Memory, w: Wrapper): Memory
    requires w.event.Some?
  {
    mem.(journalSequence := w.journalSequence,
         chains := mem.chains[w.environmentId := Chain(w.event.value.canonical.sequence, w.event.value.eventHash)])
  }

  // ----- Recovery -----

  datatype RecoveryError =
    | CorruptRecord | AttributeMissing | SequenceGap | MissingEvent | ChainGap

  function MergeOffset(offsets: map<string, int>, w: Wrapper): map<string, int> {
    if w.logPath.Some? && w.logOffset.Some? && w.logOffset.value >= 0 then
      offsets[w.logPath.value := Max(OffsetOf(offsets, w.logPath.value), w.logOffset.value)]
    else offsets
  }

  /** What recovery does with one line that parsed as JSON. */
  function Accept(mem: Memory, parsed: Parsed): Result<Memory, RecoveryError> {
    match parsed
    case Garbage => Failure(CorruptRecord)
    case NotAnObject => Failure(AttributeMissing)
    case Object(w) =>
      if w.journalSequence != mem.journalSequence + 1 then Failure(SequenceGap)
      else if w.environmentId <= 0 || w.event.None? then Failure(MissingEvent)
      else if w.event.value.canonical.sequence != ChainOf(mem.chains, w.environmentId).sequence + 1
          then Failure(ChainGap)
      else Success(Applied(mem, w).(offsets := MergeOffset(mem.offsets, w)))
  }

  /** All lines accepted in order, or the first error. */
  function Replay(mem: Memory, lines: seq<RawLine>): Result<Memory, RecoveryError> {
    if lines == [] then Success(mem)
    else
      var before := Replay(mem, lines[..|lines| - 1]);
      if before.Failure? then before else Accept(before.value, lines[|lines| - 1].parsed)
  }

  /** How many lines precede the first one that is not JSON. */
  function ParsedPrefix(file: seq<RawLine>): (n: nat)
    ensures n <= |file|
    ensures forall i :: 0 <= i < n ==> !file[i].parsed.Garbage?
    ensures n < |file| ==> file[n].parsed.Garbage?
  {
    if file == [] || file[0].parsed.Garbage? then 0 else 1 + ParsedPrefix(file[1..])
  }

  /** Recovery of a whole file: an unparsable line is forgiven only at the very end,
      where it is cut off. */
  function Recover(file: seq<RawLine>, offsets: map<string, int>): Result<(Memory, seq<RawLine>), RecoveryError> {
    var n := ParsedPrefix(file);
    match Replay(Memory(0, map[], offsets), file[..n])
    case Failure(e) => Failure(e)
    case Success(mem) => if n + 1 < |file| then Failure(CorruptRecord) else Success((mem, file[..n]))
  }
}

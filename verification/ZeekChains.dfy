/**
 The hash chains of the Zeek journal, and recovery as a refinement of appending.
 */
module ZeekChains {
  import opened Options
  import opened Sequences
  import opened ZeekJournal

  // ----- Journals produced by appending -----

  /** `w` is the record that an append makes in memory state `mem`. */
  predicate Extends(cfg: Config, mem: Memory, w: Wrapper) {
    && w.journalSequence == mem.journalSequence + 1
    && w.event.Some?
    && w.event.value.canonical.sequence == ChainOf(mem.chains, w.environmentId).sequence + 1
    && w.event.value.canonical.previousHash == ChainOf(mem.chains, w.environmentId).lastHash
    && w.event.value.canonical.reference == w.journalSequence
    && w.event.value.eventHash == cfg.hash(w.event.value.canonical)
    && w.logPath.Some? && w.logOffset.Some? && w.logOffset.value >= 0
  }

  /** The memory after appending the records to an empty journal. */
  function Summary(records: seq<Wrapper>): Memory {
    if records == [] then EMPTY_MEMORY
    else
      var before, w := Summary(records[..|records| - 1]), records[|records| - 1];
      if w.event.Some? then Applied(before, w) else before
  }

  predicate Appended(cfg: Config, records: seq<Wrapper>) {
    records == [] ||
    (Appended(cfg, records[..|records| - 1]) &&
     Extends(cfg, Summary(records[..|records| - 1]), records[|records| - 1]))
  }

  lemma AppendOne(cfg: Config, records: seq<Wrapper>, w: Wrapper)
    requires Appended(cfg, records) && Extends(cfg, Summary(records), w)
    ensures Appended(cfg, records + [w])
    ensures Summary(records + [w]) == Applied(Summary(records), w)
  {
    assert (records + [w])[..|records|] == records;
  }

  // ----- Chains -----

  /** The events of one environment, oldest first. */
  function EventsOf(records: seq<Wrapper>, environmentId: int): seq<Event> {
    if records == [] then []
    else
      var before, w := EventsOf(records[..|records| - 1], environmentId), records[|records| - 1];
      if w.environmentId == environmentId && w.event.Some? then before + [w.event.value] else before
  }

  function HeadHash(events: seq<Event>): string {
    if events == [] then "" else events[|events| - 1].eventHash
  }

  /** Each event carries its position, the hash of its predecessor and its own hash. */
  predicate Linked(cfg: Config, events: seq<Event>) {
    events == [] ||
    (var before, event := events[..|events| - 1], events[|events| - 1];
     && Linked(cfg, before)
     && event.canonical.sequence == |events|
     && event.canonical.previousHash == HeadHash(before)
     && event.eventHash == cfg.hash(event.canonical))
  }

  /** The same, event by event: numbers 1..k and backward hash links. */
  lemma {:induction false} LinkedAt(cfg: Config, events: seq<Event>, k: nat)
    requires Linked(cfg, events) && k < |events|
    ensures events[k].canonical.sequence == k + 1
    ensures events[k].canonical.previousHash == if k == 0 then "" else events[k - 1].eventHash
    ensures events[k].eventHash == cfg.hash(events[k].canonical)
  {
    if k < |events| - 1 {
      LinkedAt(cfg, events[..|events| - 1], k);
    }
  }

  /** The raw reference of each event is its place in the journal. */
  predicate ReferToThemselves(records: seq<Wrapper>) {
    forall i :: 0 <= i < |records| ==>
      records[i].event.Some? && records[i].event.value.canonical.reference == i + 1
  }

  lemma {:induction false} SequencesCount(cfg: Config, records: seq<Wrapper>)
    requires Appended(cfg, records)
    ensures Summary(records).journalSequence == |records|
    ensures forall i :: 0 <= i < |records| ==> records[i].journalSequence == i + 1
  {
    if records != [] {
      SequencesCount(cfg, records[..|records| - 1]);
    }
  }

  lemma {:induction false} ReferencesCount(cfg: Config, records: seq<Wrapper>)
    requires Appended(cfg, records)
    ensures ReferToThemselves(records)
  {
    if records != [] {
      var before := records[..|records| - 1];
      ReferencesCount(cfg, before);
      SequencesCount(cfg, before);
      forall i | 0 <= i < |before|
        ensures records[i].event.Some? && records[i].event.value.canonical.reference == i + 1
      {
        assert before[i] == records[i];
      }
    }
  }

  lemma {:induction false} ChainOfEnvironment(cfg: Config, records: seq<Wrapper>, e: int)
    requires Appended(cfg, records)
    ensures Linked(cfg, EventsOf(records, e))
    ensures ChainOf(Summary(records).chains, e) == Chain(|EventsOf(records, e)|, HeadHash(EventsOf(records, e)))
  {
    if records != [] {
      var before, w := records[..|records| - 1], records[|records| - 1];
      ChainOfEnvironment(cfg, before, e);
      PrefixOfLonger(EventsOf(before, e), w.event.value);
    }
  }

  /** Journal sequences are 1..n, each event refers to its own, and every environment's
      events form one hash chain whose length and head are what the adapter keeps in memory. */
  lemma ChainIntegrity(cfg: Config, records: seq<Wrapper>)
    requires Appended(cfg, records)
    ensures Summary(records).journalSequence == |records|
    ensures forall i :: 0 <= i < |records| ==> records[i].journalSequence == i + 1
    ensures ReferToThemselves(records)
    ensures forall e :: Linked(cfg, EventsOf(records, e))
    ensures forall e ::
              ChainOf(Summary(records).chains, e) == Chain(|EventsOf(records, e)|, HeadHash(EventsOf(records, e)))
  {
    SequencesCount(cfg, records);
    ReferencesCount(cfg, records);
    forall e
      ensures Linked(cfg, EventsOf(records, e))
      ensures ChainOf(Summary(records).chains, e) == Chain(|EventsOf(records, e)|, HeadHash(EventsOf(records, e)))
    {
      ChainOfEnvironment(cfg, records, e);
    }
  }

  ghost predicate Injective(hash: Canonical -> string) {
    forall a, b :: hash(a) == hash(b) ==> a == b
  }

  ghost predicate NeverEmpty(hash: Canonical -> string) {
    forall a :: hash(a) != ""
  }

  lemma SameHashSameEvent(cfg: Config, a: Event, b: Event)
    requires Injective(cfg.hash) && a.eventHash == b.eventHash
    requires a.eventHash == cfg.hash(a.canonical) && b.eventHash == cfg.hash(b.canonical)
    ensures a == b
  {}

  lemma {:induction false} HeadDeterminesChain(cfg: Config, left: seq<Event>, right: seq<Event>)
    requires Injective(cfg.hash) && NeverEmpty(cfg.hash)
    requires Linked(cfg, left) && Linked(cfg, right)
    requires HeadHash(left) == HeadHash(right)
    ensures left == right
    decreases |left|
  {
    if left != [] && right != [] {
      var l, r := left[..|left| - 1], right[..|right| - 1];
      SameHashSameEvent(cfg, left[|l|], right[|r|]);
      HeadDeterminesChain(cfg, l, r);
      assert left == l + [left[|l|]] && right == r + [right[|r|]];
    }
  }

  /** Two journals that agree on the head of a chain agree on the whole chain. */
  lemma HeadDeterminesHistory(cfg: Config, left: seq<Wrapper>, right: seq<Wrapper>, environmentId: int)
    requires Injective(cfg.hash) && NeverEmpty(cfg.hash)
    requires Appended(cfg, left) && Appended(cfg, right)
    requires ChainOf(Summary(left).chains, environmentId).lastHash ==
        ChainOf(Summary(right).chains, environmentId).lastHash
    ensures EventsOf(left, environmentId) == EventsOf(right, environmentId)
  {
    ChainIntegrity(cfg, left);
    ChainIntegrity(cfg, right);
    HeadDeterminesChain(cfg, EventsOf(left, environmentId), EventsOf(right, environmentId));
  }

  // ----- Recovery refines appending -----

  predicate PositiveEnvironments(records: seq<Wrapper>) {
    forall i :: 0 <= i < |records| ==> records[i].environmentId > 0
  }

  /** Saved offsets raised to the offsets found in the journal. */
  function MergedOffsets(offsets: map<string, int>, records: seq<Wrapper>): map<string, int> {
    if records == [] then offsets
    else MergeOffset(MergedOffsets(offsets, records[..|records| - 1]), records[|records| - 1])
  }

  lemma {:induction false} ReplayAppended(cfg: Config, records: seq<Wrapper>, offsets: map<string, int>)
    requires Appended(cfg, records)
    ensures Replay(Memory(0, map[], offsets), Encode(cfg, records)) ==
            if PositiveEnvironments(records)
            then Success(Summary(records).(offsets := MergedOffsets(offsets, records)))
            else Failure(MissingEvent)
  {
    if records != [] {
      var before, w := records[..|records| - 1], records[|records| - 1];
      assert Encode(cfg, records)[..|before|] == Encode(cfg, before);
      ReplayAppended(cfg, before, offsets);
    }
  }

  lemma {:induction false} ParsedPrefixOf(good: seq<RawLine>, tail: seq<RawLine>)
    requires forall i :: 0 <= i < |good| ==> !good[i].parsed.Garbage?
    requires tail == [] || tail[0].parsed.Garbage?
    ensures ParsedPrefix(good + tail) == |good|
  {
    if good != [] {
      assert (good + tail)[1..] == good[1..] + tail;
      ParsedPrefixOf(good[1..], tail);
    } else {
      assert good + tail == tail;
    }
  }

  lemma RecoverEncoded(cfg: Config, records: seq<Wrapper>, tail: seq<RawLine>, offsets: map<string, int>)
    requires Appended(cfg, records)
    requires |tail| <= 1 && (tail == [] || tail[0].parsed.Garbage?)
    ensures Recover(Encode(cfg, records) + tail, offsets) ==
            if PositiveEnvironments(records)
            then Success((Summary(records).(offsets := MergedOffsets(offsets, records)), Encode(cfg, records)))
            else Failure(MissingEvent)
  {
    var file := Encode(cfg, records) + tail;
    ParsedPrefixOf(Encode(cfg, records), tail);
    assert file[..|records|] == Encode(cfg, records);
    ReplayAppended(cfg, records, offsets);
  }

  /** After any run of appends and a crash that leaves a strict prefix of the next
      record's JSON, recovery rebuilds the sequence and chains of the complete records
      and keeps exactly those records; it refuses the journal when, and only when, some
      record carries a non-positive environment. */
  lemma RecoveryRefinesAppending(
      cfg: Config, records: seq<Wrapper>, next: Wrapper, bytes: nat, offsets: map<string, int>)
    requires Appended(cfg, records) && bytes < JsonLength(cfg, next)
    ensures Recover(Encode(cfg, records) + Torn(cfg, next, bytes), offsets) ==
            if PositiveEnvironments(records)
            then Success((Summary(records).(offsets := MergedOffsets(offsets, records)), Encode(cfg, records)))
            else Failure(MissingEvent)
  {
    RecoverEncoded(cfg, records, Torn(cfg, next, bytes), offsets);
  }

  /** The records a torn write leaves readable. */
  function Readable(cfg: Config, records: seq<Wrapper>, next: Wrapper, bytes: nat): seq<Wrapper> {
    if bytes < JsonLength(cfg, next) then records else records + [next]
  }

  /** A tear is harmless exactly when it does not lose only the newline: then a record
      appended after the recovery is found again by the following recovery. A lost newline
      is accepted once, and the following recovery drops two whole records. */
  lemma TearIsHarmlessIff(
      cfg: Config, records: seq<Wrapper>, next: Wrapper, bytes: nat, later: Wrapper,
      offsets: map<string, int>, file: seq<RawLine>)
    requires Appended(cfg, records + [next]) && PositiveEnvironments(records + [next])
    requires bytes <= JsonLength(cfg, next) + 1
    requires Extends(cfg, Summary(Readable(cfg, records, next, bytes)), later) && later.environmentId > 0
    requires Recover(Encode(cfg, records) + Torn(cfg, next, bytes), offsets).Success?
    requires file == AppendBytes(Recover(Encode(cfg, records) + Torn(cfg, next, bytes), offsets).value.1,
        RecordLine(cfg, later))
    ensures (Recover(file, offsets).Success? &&
             Recover(file, offsets).value.1 == Encode(cfg, Readable(cfg, records, next, bytes) + [later]))
            <==> bytes != JsonLength(cfg, next)
    ensures bytes == JsonLength(cfg, next) ==>
              Recover(file, offsets).Success? && Recover(file, offsets).value.1 == Encode(cfg, records)
  {
    EarlierRecords(cfg, records, next);
    if bytes < JsonLength(cfg, next) {
      RecoverEncoded(cfg, records, Torn(cfg, next, bytes), offsets);
      KeepsLater(cfg, records, later, offsets);
    } else if bytes > JsonLength(cfg, next) {
      WholeTear(cfg, records, next, bytes, offsets);
      KeepsLater(cfg, records + [next], later, offsets);
    } else {
      GlueLosesLater(cfg, records, next, later, offsets, file);
      assert |Encode(cfg, records)| < |Encode(cfg, Readable(cfg, records, next, bytes) + [later])|;
    }
  }

  lemma WholeTear(cfg: Config, records: seq<Wrapper>, next: Wrapper, bytes: nat, offsets: map<string, int>)
    requires Appended(cfg, records + [next]) && PositiveEnvironments(records + [next])
    requires bytes == JsonLength(cfg, next) + 1
    ensures Recover(Encode(cfg, records) + Torn(cfg, next, bytes), offsets).Success?
    ensures Recover(Encode(cfg, records) + Torn(cfg, next, bytes), offsets).value.1 == Encode(cfg, records + [next])
  {
    RecoverWhole(cfg, records + [next], offsets);
    assert Encode(cfg, records) + Torn(cfg, next, bytes) == Encode(cfg, records + [next]);
  }

  lemma EarlierRecords(cfg: Config, records: seq<Wrapper>, next: Wrapper)
    requires Appended(cfg, records + [next]) && PositiveEnvironments(records + [next])
    ensures Appended(cfg, records) && PositiveEnvironments(records)
  {
    assert (records + [next])[..|records|] == records;
    forall i | 0 <= i < |records| ensures records[i].environmentId > 0 { assert (records + [next])[i] == records[i]; }
  }

  lemma GluedTo(whole: seq<RawLine>, torn: RawLine, line: RawLine)
    requires !torn.terminated
    ensures AppendBytes(whole + [torn], line) == whole + [RawLine(torn.size + line.size, Garbage, line.terminated)]
  {}

  lemma GluedTorn(cfg: Config, whole: seq<RawLine>, next: Wrapper, later: Wrapper) returns (glued: RawLine)
    ensures glued.parsed.Garbage?
    ensures AppendBytes(whole + Torn(cfg, next, JsonLength(cfg, next)), RecordLine(cfg, later)) == whole + [glued]
  {
    var line := RawLine(JsonLength(cfg, next), Object(next), false);
    glued := RawLine(line.size + RecordLine(cfg, later).size, Garbage, true);
    GluedTo(whole, line, RecordLine(cfg, later));
  }

  /** After a lost newline the later record is glued to the torn line, and both are cut off. */
  lemma GlueLosesLater(
      cfg: Config, records: seq<Wrapper>, next: Wrapper, later: Wrapper, offsets: map<string, int>, file: seq<RawLine>)
    requires Appended(cfg, records + [next]) && PositiveEnvironments(records + [next])
    requires var torn := Encode(cfg, records) + Torn(cfg, next, JsonLength(cfg, next));
             && Recover(torn, offsets).Success?
             && file == AppendBytes(Recover(torn, offsets).value.1, RecordLine(cfg, later))
    ensures Recover(file, offsets).Success? && Recover(file, offsets).value.1 == Encode(cfg, records)
  {
    RecoverUnterminated(cfg, records, next, offsets);
    var glued := GluedTorn(cfg, Encode(cfg, records), next, later);
    EarlierRecords(cfg, records, next);
    RecoverEncoded(cfg, records, [glued], offsets);
  }

  lemma RecoverWhole(cfg: Config, records: seq<Wrapper>, offsets: map<string, int>)
    requires Appended(cfg, records) && PositiveEnvironments(records)
    ensures Recover(Encode(cfg, records), offsets).Success?
    ensures Recover(Encode(cfg, records), offsets).value.1 == Encode(cfg, records)
  {
    RecoverEncoded(cfg, records, [], offsets);
    assert Encode(cfg, records) + [] == Encode(cfg, records);
  }

  lemma AppendEncoded(cfg: Config, records: seq<Wrapper>, w: Wrapper)
    ensures AppendBytes(Encode(cfg, records), RecordLine(cfg, w)) == Encode(cfg, records + [w])
  {}

  lemma KeepsLater(cfg: Config, kept: seq<Wrapper>, later: Wrapper, offsets: map<string, int>)
    requires Appended(cfg, kept) && PositiveEnvironments(kept)
    requires Extends(cfg, Summary(kept), later) && later.environmentId > 0
    ensures Recover(AppendBytes(Encode(cfg, kept), RecordLine(cfg, later)), offsets).Success?
    ensures Recover(AppendBytes(Encode(cfg, kept), RecordLine(cfg, later)), offsets).value.1 ==
        Encode(cfg, kept + [later])
  {
    AppendOne(cfg, kept, later);
    AppendEncoded(cfg, kept, later);
    RecoverWhole(cfg, kept + [later], offsets);
  }

  lemma RecoverUnterminated(cfg: Config, records: seq<Wrapper>, next: Wrapper, offsets: map<string, int>)
    requires Appended(cfg, records + [next]) && PositiveEnvironments(records + [next])
    ensures var torn, all := Encode(cfg, records) + Torn(cfg, next, JsonLength(cfg, next)), records + [next];
            Recover(torn, offsets) == Success((Summary(all).(offsets := MergedOffsets(offsets, all)), torn))
  {
    var torn := Encode(cfg, records) + Torn(cfg, next, JsonLength(cfg, next));
    var whole := Encode(cfg, records + [next]);
    assert |torn| == |records| + 1;
    ParsedPrefixOf(torn, []);
    assert torn + [] == torn && torn[..|torn|] == torn;
    assert torn[..|records|] == Encode(cfg, records) == whole[..|records|];
    assert torn[|records|].parsed == whole[|records|].parsed;
    ReplayAppended(cfg, records + [next], offsets);
    assert Replay(Memory(0, map[], offsets), torn) == Replay(Memory(0, map[], offsets), whole);
  }
}

/**
 Which journal files recovery accepts, whoever wrote them, and the state it rebuilds from
 each of them.
 */
module ZeekRecovery {
  import opened Options
  import opened ZeekJournal

  // ----- What a file says -----

  /** Line `i` is a record of this environment. */
  predicate IsOf(file: seq<RawLine>, i: nat, environmentId: int)
    requires i < |file|
  {
    file[i].parsed.Object? && file[i].parsed.wrapper.environmentId == environmentId
  }

  /** How many of the first `n` lines are records of this environment. */
  function CountOf(file: seq<RawLine>, n: nat, environmentId: int): nat
    requires n <= |file|
  {
    if n == 0 then 0 else CountOf(file, n - 1, environmentId) + if IsOf(file, n - 1, environmentId) then 1 else 0
  }

  /** A record with the number of its line, an event, and a positive environment, in which it
      is numbered one higher than there are records before it. */
  predicate GoodLine(file: seq<RawLine>, i: nat)
    requires i < |file|
  {
    && file[i].parsed.Object?
    && var w := file[i].parsed.wrapper;
       && w.journalSequence == i + 1 && w.environmentId > 0 && w.event.Some?
       && w.event.value.canonical.sequence == CountOf(file, i, w.environmentId) + 1
  }

  predicate GoodLines(file: seq<RawLine>, n: nat)
    requires n <= |file|
  {
    forall i :: 0 <= i < n ==> GoodLine(file, i)
  }

  /** Line `i` puts the scan of this path at `offset`. */
  predicate Places(file: seq<RawLine>, i: nat, path: string, offset: int)
    requires i < |file|
  {
    && file[i].parsed.Object? && file[i].parsed.wrapper.logPath == Some(path)
    && file[i].parsed.wrapper.logOffset == Some(offset) && offset >= 0
  }

  /** `hash` is that of the last event of the environment among the first `n` lines. */
  ghost predicate LastHash(file: seq<RawLine>, n: nat, environmentId: int, hash: string)
    requires n <= |file|
  {
    if CountOf(file, n, environmentId) == 0 then hash == ""
    else exists i :: 0 <= i < n && IsOf(file, i, environmentId)
                     && (forall j :: i < j < n ==> !IsOf(file, j, environmentId))
                     && file[i].parsed.wrapper.event.Some? && hash == file[i].parsed.wrapper.event.value.eventHash
  }

  /** `offset` is the greatest of `start` and the offsets that the first `n` lines give. */
  ghost predicate GreatestOffset(file: seq<RawLine>, n: nat, path: string, start: int, offset: int)
    requires n <= |file|
  {
    && start <= offset
    && (forall i, other :: 0 <= i < n && Places(file, i, path, other) ==> other <= offset)
    && (offset == start || exists i :: 0 <= i < n && Places(file, i, path, offset))
  }

  /** The state that `n` lines amount to, on top of the saved offsets. */
  ghost predicate Describes(file: seq<RawLine>, n: nat, offsets: map<string, int>, mem: Memory)
    requires n <= |file|
  {
    && mem.journalSequence == n
    && (forall e :: ChainOf(mem.chains, e).sequence == CountOf(file, n, e))
    && (forall e :: LastHash(file, n, e, ChainOf(mem.chains, e).lastHash))
    && (forall path :: GreatestOffset(file, n, path, OffsetOf(offsets, path), OffsetOf(mem.offsets, path)))
  }

  // ----- One more line -----

  lemma AcceptsIff(file: seq<RawLine>, n: nat, offsets: map<string, int>, mem: Memory)
    requires n < |file| && Describes(file, n, offsets, mem)
    ensures Accept(mem, file[n].parsed).Success? <==> GoodLine(file, n)
  {
    if file[n].parsed.Object? {
      assert ChainOf(mem.chains, file[n].parsed.wrapper.environmentId).sequence ==
             CountOf(file, n, file[n].parsed.wrapper.environmentId);
    }
  }

  lemma HashOneMore(file: seq<RawLine>, n: nat, e: int, hash: string, hash': string)
    requires n < |file| && GoodLine(file, n) && LastHash(file, n, e, hash)
    requires hash' == if IsOf(file, n, e) then file[n].parsed.wrapper.event.value.eventHash else hash
    ensures LastHash(file, n + 1, e, hash')
  {
    if !IsOf(file, n, e) && CountOf(file, n, e) != 0 {
      var i :| 0 <= i < n && IsOf(file, i, e) && (forall j :: i < j < n ==> !IsOf(file, j, e))
               && file[i].parsed.wrapper.event.Some? && hash == file[i].parsed.wrapper.event.value.eventHash;
      assert forall j :: i < j < n + 1 ==> !IsOf(file, j, e);
    }
  }

  lemma OffsetOneMore(file: seq<RawLine>, n: nat, path: string, start: int, offset: int, offset': int)
    requires n < |file| && file[n].parsed.Object? && GreatestOffset(file, n, path, start, offset)
    requires var w := file[n].parsed.wrapper;
             offset' == if w.logPath == Some(path) && w.logOffset.Some? && w.logOffset.value >= 0
                        then Max(offset, w.logOffset.value) else offset
    ensures GreatestOffset(file, n + 1, path, start, offset')
  {
    if offset' != offset { assert Places(file, n, path, offset'); }
  }

  lemma AcceptDescribes(file: seq<RawLine>, n: nat, offsets: map<string, int>, mem: Memory)
    requires n < |file| && Describes(file, n, offsets, mem) && GoodLine(file, n)
    ensures Accept(mem, file[n].parsed).Success?
    ensures Describes(file, n + 1, offsets, Accept(mem, file[n].parsed).value)
  {
    AcceptsIff(file, n, offsets, mem);
    var mem' := Accept(mem, file[n].parsed).value;
    forall e ensures ChainOf(mem'.chains, e).sequence == CountOf(file, n + 1, e) {
      assert ChainOf(mem.chains, e).sequence == CountOf(file, n, e);
    }
    forall e ensures LastHash(file, n + 1, e, ChainOf(mem'.chains, e).lastHash) {
      HashOneMore(file, n, e, ChainOf(mem.chains, e).lastHash, ChainOf(mem'.chains, e).lastHash);
    }
    forall path ensures GreatestOffset(file, n + 1, path, OffsetOf(offsets, path), OffsetOf(mem'.offsets, path)) {
      OffsetOneMore(file, n, path, OffsetOf(offsets, path), OffsetOf(mem.offsets, path), OffsetOf(mem'.offsets, path));
    }
  }

  lemma {:induction false} ReplayDescribes(file: seq<RawLine>, n: nat, offsets: map<string, int>)
    requires n <= |file|
    ensures Replay(Memory(0, map[], offsets), file[..n]).Success? <==> GoodLines(file, n)
    ensures GoodLines(file, n) ==> Describes(file, n, offsets, Replay(Memory(0, map[], offsets), file[..n]).value)
  {
    if n > 0 {
      assert file[..n][..n - 1] == file[..n - 1];
      ReplayDescribes(file, n - 1, offsets);
      if GoodLines(file, n - 1) {
        var mem := Replay(Memory(0, map[], offsets), file[..n - 1]).value;
        AcceptsIff(file, n - 1, offsets, mem);
        if GoodLine(file, n - 1) { AcceptDescribes(file, n - 1, offsets, mem); }
      }
    }
  }

  // ----- The whole file -----

  lemma PrefixIs(file: seq<RawLine>, n: nat)
    requires n <= |file| && GoodLines(file, n) && (n < |file| ==> file[n].parsed.Garbage?)
    ensures ParsedPrefix(file) == n
  {
    var k := ParsedPrefix(file);
    assert k < n ==> GoodLine(file, k);
  }

  /** Recovery accepts a file exactly when it consists of good lines, with at most one
      unreadable line after them. Then it keeps the good lines and rebuilds their number, the
      length and the last hash of each chain, and the greatest offset of each path. */
  lemma RecoverAcceptsIff(file: seq<RawLine>, offsets: map<string, int>)
    ensures Recover(file, offsets).Success? <==>
            exists n :: 0 <= n <= |file| <= n + 1 && GoodLines(file, n) && (n < |file| ==> file[n].parsed.Garbage?)
    ensures Recover(file, offsets).Success? ==>
              var (mem, kept) := Recover(file, offsets).value;
              |kept| <= |file| && kept == file[..|kept|] && GoodLines(file, |kept|)
              && Describes(file, |kept|, offsets, mem)
  {
    var n := ParsedPrefix(file);
    ReplayDescribes(file, n, offsets);
    if k :| 0 <= k <= |file| <= k + 1 && GoodLines(file, k) && (k < |file| ==> file[k].parsed.Garbage?) {
      PrefixIs(file, k);
    }
  }
}

/**
 Properties of the context store: what views contain, exactly what a batch changes, and
 what a committed compaction leaves visible.
 */
module ContextViews {
  import opened Options
  import opened Sequences
  import opened ContextRows

  // ----- Views are sorted and complete -----

  lemma {:induction false} RowsAtMembers(rows: seq<Row>, number: int, row: Row)
    ensures row in RowsAt(rows, number) <==> row in rows && row.status.Active? && row.number == number
  {
    if rows != [] {
      RowsAtMembers(rows[..|rows| - 1], number, row);
      assert rows == rows[..|rows| - 1] + [rows[|rows| - 1]];
    }
  }

  lemma {:induction false} NoneAt(rows: seq<Row>, number: int)
    requires forall i :: 0 <= i < |rows| && rows[i].status.Active? ==> rows[i].number != number
    ensures RowsAt(rows, number) == []
  {
    if rows != [] { NoneAt(rows[..|rows| - 1], number); }
  }

  lemma {:induction false} AtMostOneAt(rows: seq<Row>, number: int)
    requires UniqueNumbers(rows)
    ensures |RowsAt(rows, number)| <= 1
  {
    if rows != [] {
      var before, last := rows[..|rows| - 1], rows[|rows| - 1];
      if last.status.Active? && last.number == number { NoneAt(before, number); }
      else { AtMostOneAt(before, number); }
    }
  }

  lemma {:induction false} AscendingMembers(rows: seq<Row>, lo: int, hi: int, row: Row)
    ensures row in Ascending(rows, lo, hi) <==> row in rows && row.status.Active? && lo <= row.number < hi
    decreases hi - lo
  {
    if lo < hi {
      AscendingMembers(rows, lo, hi - 1, row);
      RowsAtMembers(rows, hi - 1, row);
    }
  }

  predicate StrictlyAscending(rows: seq<Row>) {
    forall i, j :: 0 <= i < j < |rows| ==> rows[i].number < rows[j].number
  }

  lemma {:induction false} AscendingIsSorted(rows: seq<Row>, lo: int, hi: int)
    requires UniqueNumbers(rows)
    ensures StrictlyAscending(Ascending(rows, lo, hi))
    decreases hi - lo
  {
    if lo < hi {
      AscendingIsSorted(rows, lo, hi - 1);
      AtMostOneAt(rows, hi - 1);
      var before, top := Ascending(rows, lo, hi - 1), RowsAt(rows, hi - 1);
      forall row | row in before ensures row.number < hi - 1 { AscendingMembers(rows, lo, hi - 1, row); }
      forall row | row in top ensures row.number == hi - 1 { RowsAtMembers(rows, hi - 1, row); }
    }
  }

  /** The view lists exactly the active rows, each once, by strictly ascending sequence number. */
  lemma ViewIsOrdered(c: Context)
    requires Inv(c)
    ensures StrictlyAscending(View(c))
    ensures forall row :: row in View(c) <==> row in c.rows && row.status.Active?
  {
    AscendingIsSorted(c.rows, 1, c.nextItemSeq);
    forall row ensures row in View(c) <==> row in c.rows && row.status.Active? {
      AscendingMembers(c.rows, 1, c.nextItemSeq, row);
    }
  }

  /** A strictly ascending list is determined by its members. */
  lemma {:induction false} SortedIsUnique(a: seq<Row>, b: seq<Row>)
    requires StrictlyAscending(a) && StrictlyAscending(b)
    requires forall row :: row in a <==> row in b
    ensures a == b
  {
    EmptyTogether(a, b);
    if a != [] {
      var m, n := |a| - 1, |b| - 1;
      SameLast(a, b);
      forall row ensures row in a[..m] <==> row in b[..n] {
        assert row in a <==> row in b;
        assert row in a[..m] ==> row.number < a[m].number;
        assert row in b[..n] ==> row.number < b[n].number;
      }
      SortedIsUnique(a[..m], b[..n]);
      assert a == a[..m] + [a[m]] && b == b[..n] + [b[n]];
    }
  }

  lemma EmptyTogether(a: seq<Row>, b: seq<Row>)
    requires forall row :: row in a <==> row in b
    ensures a == [] <==> b == []
  {
    if a != [] { assert a[0] in b; }
    if b != [] { assert b[0] in a; }
  }

  lemma SameLast(a: seq<Row>, b: seq<Row>)
    requires a != [] && b != [] && StrictlyAscending(a) && StrictlyAscending(b)
    requires forall row :: row in a <==> row in b
    ensures a[|a| - 1] == b[|b| - 1]
  {
    assert a[|a| - 1] in a && b[|b| - 1] in b;
    var i :| 0 <= i < |b| && b[i] == a[|a| - 1];
    var j :| 0 <= j < |a| && a[j] == b[|b| - 1];
  }

  lemma AscendingIs(rows: seq<Row>, lo: int, hi: int, expected: seq<Row>)
    requires UniqueNumbers(rows) && StrictlyAscending(expected)
    requires forall row :: row in expected <==> row in rows && row.status.Active? && lo <= row.number < hi
    ensures Ascending(rows, lo, hi) == expected
  {
    AscendingIsSorted(rows, lo, hi);
    forall row ensures row in Ascending(rows, lo, hi) <==> row in expected { AscendingMembers(rows, lo, hi, row); }
    SortedIsUnique(Ascending(rows, lo, hi), expected);
  }

  // ----- Limited reads -----

  lemma {:induction false} DescendingIsReversed(rows: seq<Row>, lo: int, hi: int, limit: nat)
    requires UniqueNumbers(rows)
    ensures Descending(rows, lo, hi, limit) == FirstOf(Reversed(Ascending(rows, lo, hi)), limit)
    decreases hi - lo
  {
    if lo < hi && limit > 0 {
      var top := RowsAt(rows, hi - 1);
      AtMostOneAt(rows, hi - 1);
      NewestFirst(Ascending(rows, lo, hi - 1), top);
      assert |top| <= limit;
      if |top| < limit {
        DescendingIsReversed(rows, lo, hi - 1, limit - |top|);
        FirstOfFollowing(top, Reversed(Ascending(rows, lo, hi - 1)), limit);
      }
    }
  }

  lemma NewestFirst(before: seq<Row>, top: seq<Row>)
    requires |top| <= 1
    ensures Reversed(before + top) == top + Reversed(before)
  {
    assert Reversed(top) == top;
  }

  /** The first `limit` rows, or all if there are no more. */
  function FirstOf(rows: seq<Row>, limit: nat): seq<Row> {
    if limit < |rows| then rows[..limit] else rows
  }

  lemma FirstOfFollowing(top: seq<Row>, older: seq<Row>, limit: nat)
    requires |top| <= limit
    ensures FirstOf(top + older, limit) == top + FirstOf(older, limit - |top|)
  {}

  /** `get_items(limit)` is the last `limit` items of `get_items()`. */
  lemma LimitedReadIsSuffix(c: Context, limit: nat)
    requires Inv(c)
    ensures var all := GetItems(c, None);
            GetItems(c, Some(limit)) == if limit < |all| then all[|all| - limit..] else all
  {
    DescendingIsReversed(c.rows, 1, c.nextItemSeq, limit);
    LastOf(View(c), limit);
  }

  lemma LastOf(rows: seq<Row>, limit: nat)
    ensures Items(Reversed(FirstOf(Reversed(rows), limit))) ==
            if limit < |Items(rows)| then Items(rows)[|Items(rows)| - limit..] else Items(rows)
  {
    ReversedTwice(rows);
    if limit < |rows| {
      ReversedPrefix(Reversed(rows), limit);
      assert Items(rows[|rows| - limit..]) == Items(rows)[|rows| - limit..];
    }
  }

  // ----- Exactly what a batch does -----

  /** The entries of a batch that match no row, in order. */
  function Novel(found: seq<Row>, batch: seq<Keyed>): seq<Keyed> {
    if batch == [] then []
    else
      var before, entry := Novel(found, batch[..|batch| - 1]), batch[|batch| - 1];
      if Existing(found, entry).None? then before + [entry] else before
  }

  /** Some entry of the batch carries the key under which row `i` is found. */
  predicate Mentions(found: seq<Row>, batch: seq<Keyed>, i: nat) {
    batch != [] && (Mentions(found, batch[..|batch| - 1], i) || Existing(found, batch[|batch| - 1]) == Some(i))
  }

  /** Rewound rows the batch mentions become active, the rest of the rows stay as they are,
      and each novel entry gets the next sequence number. */
  predicate Extends(c: Context, batch: seq<Keyed>, c': Context) {
    var novel := Novel(c.rows, batch);
    && |c'.rows| == |c.rows| + |novel|
    && c'.nextItemSeq == c.nextItemSeq + |novel|
    && c'.boundaries == c.boundaries
    && (forall i :: 0 <= i < |c.rows| ==>
          c'.rows[i] == if c.rows[i].status.Rewound? && Mentions(c.rows, batch, i)
                        then c.rows[i].(status := Active, retired := false) else c.rows[i])
    && (forall i :: |c.rows| <= i < |c'.rows| ==>
          c'.rows[i] == NewRow(c.nextItemSeq + i - |c.rows|, novel[i - |c.rows|]))
  }

  lemma AddOneExtends(c: Context, batch: seq<Keyed>, entry: Keyed, c': Context)
    requires Extends(c, batch, c')
    ensures Extends(c, batch + [entry], AddOne(c.rows, c', entry))
  {
    assert (batch + [entry])[..|batch|] == batch;
  }

  lemma {:induction false} AddEachExtends(c: Context, batch: seq<Keyed>)
    ensures Extends(c, batch, AddEach(c.rows, c, batch))
  {
    if batch != [] {
      var before, entry := batch[..|batch| - 1], batch[|batch| - 1];
      AddEachExtends(c, before);
      AddOneExtends(c, before, entry, AddEach(c.rows, c, before));
      assert before + [entry] == batch;
    }
  }

  /** No two entries share a non-empty key. */
  predicate DistinctKeys(entries: seq<Keyed>) {
    forall a, b :: 0 <= a < b < |entries| && entries[a].key != "" ==> entries[a].key != entries[b].key
  }

  lemma {:induction false} NovelAreUnknown(found: seq<Row>, batch: seq<Keyed>, k: nat)
    requires k < |Novel(found, batch)|
    ensures Existing(found, Novel(found, batch)[k]).None?
  {
    var before := batch[..|batch| - 1];
    if k < |Novel(found, before)| { NovelAreUnknown(found, before, k); }
  }

  lemma NovelRow(c: Context, batch: seq<Keyed>, c': Context, i: nat)
    requires Extends(c, batch, c') && |c.rows| <= i < |c'.rows|
    ensures i - |c.rows| < |Novel(c.rows, batch)|
    ensures c'.rows[i] == NewRow(c.nextItemSeq + i - |c.rows|, Novel(c.rows, batch)[i - |c.rows|])
    ensures c'.rows[i].dedupeKey != "" ==> forall j :: 0 <= j < |c.rows| ==> c.rows[j].dedupeKey != c'.rows[i].dedupeKey
  {
    NovelAreUnknown(c.rows, batch, i - |c.rows|);
  }

  lemma NovelKeysCommitIff(c: Context, batch: seq<Keyed>, c': Context)
    requires UniqueKeys(c.rows) && Extends(c, batch, c')
    ensures UniqueKeys(c'.rows) <==> DistinctKeys(Novel(c.rows, batch))
  {
    var n, novel := |c.rows|, Novel(c.rows, batch);
    forall i | n <= i < |c'.rows|
      ensures c'.rows[i].dedupeKey == novel[i - n].key
      ensures c'.rows[i].dedupeKey != "" ==> forall j :: 0 <= j < n ==> c.rows[j].dedupeKey != c'.rows[i].dedupeKey
    {
      NovelRow(c, batch, c', i);
    }
    UniqueKeysIff(c.rows, c'.rows, novel);
  }

  /** Rows with unique keys, followed by rows whose keys the first ones do not have. */
  lemma UniqueKeysIff(rows: seq<Row>, rows': seq<Row>, novel: seq<Keyed>)
    requires |rows'| == |rows| + |novel| && UniqueKeys(rows)
    requires forall i :: 0 <= i < |rows| ==> rows'[i].dedupeKey == rows[i].dedupeKey
    requires forall i :: |rows| <= i < |rows'| ==> rows'[i].dedupeKey == novel[i - |rows|].key
    requires forall i, j :: |rows| <= i < |rows'| && 0 <= j < |rows| && rows'[i].dedupeKey != "" ==>
        rows[j].dedupeKey != rows'[i].dedupeKey
    ensures UniqueKeys(rows') <==> DistinctKeys(novel)
  {
    if UniqueKeys(rows') {
      forall a, b | 0 <= a < b < |novel| && novel[a].key != "" ensures novel[a].key != novel[b].key {
        assert rows'[|rows| + a].dedupeKey != rows'[|rows| + b].dedupeKey;
      }
    }
  }

  /** A batch commits exactly when its new keys are distinct, and then it does exactly what
      `Extends` says. */
  lemma AddItemsCommitsIff(c: Context, batch: seq<Keyed>)
    requires Inv(c)
    ensures AddItems(c, batch).Success? <==> DistinctKeys(Novel(c.rows, batch))
    ensures AddItems(c, batch).Success? ==> Extends(c, batch, AddItems(c, batch).value)
  {
    AddEachExtends(c, batch);
    NovelKeysCommitIff(c, batch, AddEach(c.rows, c, batch));
  }

  lemma AddItemsKeepsInv(c: Context, batch: seq<Keyed>)
    requires Inv(c) && AddItems(c, batch).Success?
    ensures Inv(AddItems(c, batch).value)
    ensures Follows(c.rows, AddItems(c, batch).value.rows)
  {
    AddItemsCommitsIff(c, batch);
  }

  // ----- Retiring -----

  lemma RetireKeepsInv(c: Context, rows': seq<Row>)
    requires Inv(c) && |rows'| == |c.rows|
    requires forall i :: 0 <= i < |rows'| ==>
               rows'[i] == c.rows[i] ||
               (c.rows[i].status.Active? && exists status :: status != Active && rows'[i] == Retire(c.rows[i], status))
    ensures Inv(c.(rows := rows')) && Follows(c.rows, rows')
  {
    forall i, j | 0 <= i < j < |rows'| && Visible(rows'[i]) && Visible(rows'[j])
        ensures rows'[i].number != rows'[j].number {
      assert Visible(c.rows[i]) && Visible(c.rows[j]);
    }
  }

  lemma {:induction false} RowsAtUpdate(rows: seq<Row>, i: nat, row: Row, number: int)
    requires i < |rows| && rows[i].status.Active? && !row.status.Active? && UniqueNumbers(rows)
    ensures RowsAt(rows[i := row], number) == if number == rows[i].number then [] else RowsAt(rows, number)
  {
    var before, last := rows[..|rows| - 1], rows[|rows| - 1];
    if i < |rows| - 1 {
      assert rows[i := row][..|rows| - 1] == before[i := row];
      RowsAtUpdate(before, i, row, number);
    } else {
      assert rows[i := row][..|rows| - 1] == before;
      AtMostOneAt(rows, number);
    }
  }

  lemma OnlyRowAt(rows: seq<Row>, i: nat)
    requires UniqueNumbers(rows) && i < |rows| && rows[i].status.Active?
    ensures RowsAt(rows, rows[i].number) == [rows[i]]
  {
    AtMostOneAt(rows, rows[i].number);
    RowsAtMembers(rows, rows[i].number, rows[i]);
  }

  /** The newest active row ends the view. */
  lemma NewestEndsView(c: Context)
    requires Inv(c)
    ensures NewestActive(c.rows).None? <==> View(c) == []
    ensures NewestActive(c.rows).Some? ==>
              var row := c.rows[NewestActive(c.rows).value];
              View(c) == Ascending(c.rows, 1, row.number) + [row] && Above(c.rows, row.number, c.nextItemSeq) == []
  {
    var newest := NewestActive(c.rows);
    if newest.Some? {
      var number := c.rows[newest.value].number;
      OnlyRowAt(c.rows, newest.value);
      AscendingNone(c.rows, number + 1, c.nextItemSeq);
      AroundOne(c.rows, 1, number, c.nextItemSeq);
    } else {
      AscendingNone(c.rows, 1, c.nextItemSeq);
    }
  }

  lemma PoppedRowsAt(c: Context, i: nat, rows': seq<Row>)
    requires Inv(c) && i < |c.rows| && c.rows[i].status.Active?
    requires rows' == c.rows[i := Retire(c.rows[i], Rewound)]
    ensures forall n :: n != c.rows[i].number ==> RowsAt(rows', n) == RowsAt(c.rows, n)
    ensures RowsAt(rows', c.rows[i].number) == []
  {
    forall n ensures RowsAt(rows', n) == if n == c.rows[i].number then [] else RowsAt(c.rows, n) {
      RowsAtUpdate(c.rows, i, Retire(c.rows[i], Rewound), n);
    }
  }

  lemma PoppedView(c: Context, i: nat, number: int)
    requires Inv(c) && NewestActive(c.rows) == Some(i) && number == c.rows[i].number
    ensures View(PopItem(c)) == Ascending(c.rows, 1, number) + Above(c.rows, number, c.nextItemSeq)
  {
    PoppedRowsAt(c, i, PopItem(c).rows);
    RangeReplaced(c.rows, PopItem(c).rows, number, number, c.nextItemSeq, []);
  }

  /** `after` is `c` with one row rewound: the one that ends the view. */
  ghost predicate NewestRewound(c: Context, after: Context) {
    exists i :: 0 <= i < |c.rows| && View(c) != [] && c.rows[i] == View(c)[|View(c)| - 1]
                && after == c.(rows := c.rows[i := c.rows[i].(status := Rewound, retired := true)])
  }

  /** Popping rewinds the row of the newest item and no other, which leaves the rest of the
      view; with no active item it changes nothing. */
  lemma PopTakesTheNewest(c: Context)
    requires Inv(c)
    ensures if View(c) == [] then PopItem(c) == c else NewestRewound(c, PopItem(c))
    ensures View(PopItem(c)) == if View(c) == [] then [] else View(c)[..|View(c)| - 1]
    ensures View(c) != [] ==> NewestActive(c.rows).Some?
                              && c.rows[NewestActive(c.rows).value] == View(c)[|View(c)| - 1]
  {
    NewestEndsView(c);
    var newest := NewestActive(c.rows);
    if newest.Some? {
      PoppedView(c, newest.value, c.rows[newest.value].number);
    }
  }

  lemma PopKeepsInv(c: Context)
    requires Inv(c)
    ensures Inv(PopItem(c)) && Follows(c.rows, PopItem(c).rows)
    ensures if View(c) == [] then PopItem(c) == c else NewestRewound(c, PopItem(c))
  {
    RetireKeepsInv(c, PopItem(c).rows);
    PopTakesTheNewest(c);
  }

  lemma FoundByKey(rows: seq<Row>, i: nat)
    requires UniqueKeys(rows) && i < |rows| && rows[i].dedupeKey != ""
    ensures Lookup(rows, rows[i].dedupeKey) == Some(i)
  {
    var found := Lookup(rows, rows[i].dedupeKey);
    assert found.Some? && rows[found.value].dedupeKey == rows[i].dedupeKey;
  }

  lemma AddSingle(c: Context, entry: Keyed)
    ensures AddEach(c.rows, c, [entry]) == AddOne(c.rows, c, entry)
  {
    assert [entry][..0] == [];
  }

  /** Adding an item with the key of the popped one undoes the pop. */
  lemma AddUndoesPop(c: Context, entry: Keyed)
    requires Inv(c) && View(c) != [] && entry.key != "" && entry.key == View(c)[|View(c)| - 1].dedupeKey
    ensures AddItems(PopItem(c), [entry]) == Success(c)
  {
    PopKeepsInv(c);
    var popped := PopItem(c);
    var i :| 0 <= i < |c.rows| && c.rows[i] == View(c)[|View(c)| - 1]
             && popped == c.(rows := c.rows[i := c.rows[i].(status := Rewound, retired := true)]);
    AscendingMembers(c.rows, 1, c.nextItemSeq, c.rows[i]);
    FoundByKey(popped.rows, i);
    AddSingle(popped, entry);
    assert AddOne(popped.rows, popped, entry).rows == c.rows;
  }

  /** Clearing hides everything: every active row becomes cleared, and no other row changes. */
  lemma ClearHidesEverything(c: Context)
    requires Inv(c)
    ensures ClearSession(c) == c.(rows := ClearSession(c).rows) && |ClearSession(c).rows| == |c.rows|
    ensures forall i :: 0 <= i < |c.rows| ==>
              ClearSession(c).rows[i] ==
              if c.rows[i].status.Active? then c.rows[i].(status := Cleared, retired := true) else c.rows[i]
    ensures Inv(ClearSession(c)) && Follows(c.rows, ClearSession(c).rows)
    ensures View(ClearSession(c)) == []
  {
    RetireKeepsInv(c, ClearSession(c).rows);
    AscendingNone(ClearSession(c).rows, 1, c.nextItemSeq);
  }

  // ----- Ranges -----

  lemma {:induction false} AscendingSplit(rows: seq<Row>, lo: int, mid: int, hi: int)
    requires lo <= mid <= hi
    ensures Ascending(rows, lo, hi) == Ascending(rows, lo, mid) + Ascending(rows, mid, hi)
    decreases hi - mid
  {
    if mid < hi { AscendingSplit(rows, lo, mid, hi - 1); }
  }

  lemma {:induction false} AscendingSame(rows: seq<Row>, rows': seq<Row>, lo: int, hi: int)
    requires forall n :: lo <= n < hi ==> RowsAt(rows', n) == RowsAt(rows, n)
    ensures Ascending(rows', lo, hi) == Ascending(rows, lo, hi)
    decreases hi - lo
  {
    if lo < hi { AscendingSame(rows, rows', lo, hi - 1); }
  }

  lemma {:induction false} AscendingNone(rows: seq<Row>, lo: int, hi: int)
    requires forall i :: 0 <= i < |rows| && rows[i].status.Active? ==> !(lo <= rows[i].number < hi)
    ensures Ascending(rows, lo, hi) == []
    decreases hi - lo
  {
    if lo < hi {
      AscendingNone(rows, lo, hi - 1);
      NoneAt(rows, hi - 1);
    }
  }

  lemma SplitAt(rows: seq<Row>, lo: int, mid: int, hi: int)
    requires lo <= mid + 1 <= hi
    ensures Ascending(rows, lo, hi) == Within(rows, lo, mid) + Above(rows, mid, hi)
  {
    AscendingSplit(rows, lo, mid + 1, hi);
  }

  lemma WithinMembers(rows: seq<Row>, lo: int, hi: int, row: Row)
    ensures row in Within(rows, lo, hi) <==> row in rows && row.status.Active? && lo <= row.number <= hi
  {
    AscendingMembers(rows, lo, hi + 1, row);
  }

  lemma AboveMembers(rows: seq<Row>, lo: int, hi: int, row: Row)
    ensures row in Above(rows, lo, hi) <==> row in rows && row.status.Active? && lo < row.number < hi
  {
    AscendingMembers(rows, lo + 1, hi, row);
  }

  lemma AroundOne(rows: seq<Row>, lo: int, mid: int, hi: int)
    requires lo <= mid < hi
    ensures Ascending(rows, lo, hi) == Ascending(rows, lo, mid) + RowsAt(rows, mid) + Above(rows, mid, hi)
  {
    SplitAt(rows, lo, mid, hi);
  }

  lemma AboveSame(rows: seq<Row>, rows': seq<Row>, lo: int, hi: int)
    requires forall n :: lo < n < hi ==> RowsAt(rows', n) == RowsAt(rows, n)
    ensures Above(rows', lo, hi) == Above(rows, lo, hi)
  {
    AscendingSame(rows, rows', lo + 1, hi);
  }

  /** A view in which at most one row replaces a range of numbers. */
  lemma RangeReplaced(rows: seq<Row>, rows': seq<Row>, lo: int, hi: int, next: int, row: seq<Row>)
    requires 1 <= lo <= hi < next
    requires forall n :: n < lo || hi < n ==> RowsAt(rows', n) == RowsAt(rows, n)
    requires forall n :: lo <= n < hi ==> RowsAt(rows', n) == []
    requires RowsAt(rows', hi) == row
    ensures Ascending(rows', 1, next) == Ascending(rows, 1, lo) + row + Above(rows, hi, next)
  {
    AroundOne(rows', 1, hi, next);
    AboveSame(rows, rows', hi, next);
    FrontReplaced(rows, rows', lo, hi);
  }

  lemma FrontReplaced(rows: seq<Row>, rows': seq<Row>, lo: int, hi: int)
    requires 1 <= lo <= hi
    requires forall n :: n < lo ==> RowsAt(rows', n) == RowsAt(rows, n)
    requires forall n :: lo <= n < hi ==> RowsAt(rows', n) == []
    ensures Ascending(rows', 1, hi) == Ascending(rows, 1, lo)
  {
    AscendingSplit(rows', 1, lo, hi);
    AscendingSame(rows, rows', 1, lo);
    AscendingSame([], rows', lo, hi);
    AscendingNone([], lo, hi);
  }

  // ----- Compaction -----

  lemma {:induction false} RowsAtRetired(rows: seq<Row>, lo: int, hi: int, number: int)
    ensures RowsAt(RetireWhere(rows, Between(lo, hi), Compacted), number) ==
            if lo <= number <= hi then [] else RowsAt(rows, number)
  {
    if rows != [] {
      var before := rows[..|rows| - 1];
      var retired := RetireWhere(rows, Between(lo, hi), Compacted);
      assert retired[..|rows| - 1] == RetireWhere(before, Between(lo, hi), Compacted);
      RowsAtRetired(before, lo, hi, number);
    }
  }

  /** The candidates read earlier are still exactly the active rows of their range. */
  predicate Unchanged(c: Context, candidates: seq<int>)
    requires candidates != []
  {
    Numbers(Within(c.rows, candidates[0], candidates[|candidates| - 1])) == candidates
  }

  /** The key of the summary row is not taken. */
  predicate KeyFree(rows: seq<Row>, key: string) {
    key == "" || forall i :: 0 <= i < |rows| ==> rows[i].dedupeKey != key
  }

  lemma RetiredKeysUnique(rows: seq<Row>, chosen: Row -> bool, last: Row)
    requires UniqueKeys(rows)
    ensures UniqueKeys(RetireWhere(rows, chosen, Compacted) + [last]) <==> KeyFree(rows, last.dedupeKey)
  {
    var all := RetireWhere(rows, chosen, Compacted) + [last];
    assert forall i :: 0 <= i < |rows| ==> all[i].dedupeKey == rows[i].dedupeKey;
    if last.dedupeKey != "" && UniqueKeys(all) {
      forall i | 0 <= i < |rows| ensures rows[i].dedupeKey != last.dedupeKey {
        assert all[i].dedupeKey != "" ==> all[i].dedupeKey != all[|rows|].dedupeKey;
      }
    }
  }

  /** A commit succeeds exactly when the candidates are unchanged, the new key is unused
      and no earlier compaction ended at the same sequence number; that last obstacle alone
      is what the boundary constraint refuses. */
  lemma CommitSucceedsIff(c: Context, candidates: seq<int>, key: string, summary: Item)
    requires Inv(c) && candidates != []
    ensures var r, hi := CommitCompaction(c, candidates, key, summary), candidates[|candidates| - 1];
            && (r.Success? && r.value.Some?
                <==> Unchanged(c, candidates) && KeyFree(c.rows, key) && hi !in c.boundaries)
            && (r == Failure(DuplicateBoundary)
                <==> Unchanged(c, candidates) && KeyFree(c.rows, key) && hi in c.boundaries)
  {
    var lo, hi := candidates[0], candidates[|candidates| - 1];
    RetiredKeysUnique(c.rows, Between(lo, hi), Row(hi, Active, false, key, summary));
  }

  lemma CompactedRanges(c: Context, candidates: seq<int>, lo: int, hi: int, rows': seq<Row>, row: Row)
    requires Inv(c) && candidates != [] && Unchanged(c, candidates)
    requires lo == candidates[0] && hi == candidates[|candidates| - 1] == row.number && row.status.Active?
    requires rows' == RetireWhere(c.rows, Between(lo, hi), Compacted) + [row]
    ensures Ascending(rows', 1, c.nextItemSeq) ==
            Ascending(c.rows, 1, lo) + [row] + Above(c.rows, hi, c.nextItemSeq)
  {
    CandidatesInRange(c, candidates);
    CompactedRowsAt(c.rows, lo, hi, row, rows');
    RangeReplaced(c.rows, rows', lo, hi, c.nextItemSeq, [row]);
  }

  lemma CommitKeepsInv(c: Context, candidates: seq<int>, key: string, summary: Item)
    requires Inv(c) && candidates != []
    requires CommitCompaction(c, candidates, key, summary).Success?
        && CommitCompaction(c, candidates, key, summary).value.Some?
    ensures var c' := CommitCompaction(c, candidates, key, summary).value.value;
            Inv(c') && Follows(c.rows, c'.rows)
  {
    var c' := CommitCompaction(c, candidates, key, summary).value.value;
    CompactionKeepsInv(c, candidates, c', Row(candidates[|candidates| - 1], Active, false, key, summary));
  }

  /** A committed compaction turns the view into what precedes the candidates, the summary,
      and exactly the rows above them as they are at the commit. */
  lemma CompactedView(c: Context, candidates: seq<int>, key: string, summary: Item)
    requires Inv(c) && candidates != []
    requires CommitCompaction(c, candidates, key, summary).Success?
        && CommitCompaction(c, candidates, key, summary).value.Some?
    ensures var c' := CommitCompaction(c, candidates, key, summary).value.value;
            var lo, hi := candidates[0], candidates[|candidates| - 1];
            View(c') == Ascending(c.rows, 1, lo) + [Row(hi, Active, false, key, summary)]
                + Above(c.rows, hi, c.nextItemSeq)
  {
    var c', lo := CommitCompaction(c, candidates, key, summary).value.value, candidates[0];
    var hi := candidates[|candidates| - 1];
    CompactedRanges(c, candidates, lo, hi, c'.rows, Row(hi, Active, false, key, summary));
  }

  /** A commit marks exactly the candidates as compacted, appends the summary at the number of
      the last one, and records that number. */
  lemma CommitMarksCandidates(c: Context, candidates: seq<int>, key: string, summary: Item)
    requires Inv(c) && candidates != []
    requires CommitCompaction(c, candidates, key, summary).Success?
        && CommitCompaction(c, candidates, key, summary).value.Some?
    ensures var c', n := CommitCompaction(c, candidates, key, summary).value.value, |c.rows|;
            && |c'.rows| == n + 1 && c'.nextItemSeq == c.nextItemSeq
            && c'.boundaries == c.boundaries + [candidates[|candidates| - 1]]
            && c'.rows[n] == Row(candidates[|candidates| - 1], Active, false, key, summary)
            && forall i :: 0 <= i < n ==>
                 c'.rows[i] == if c.rows[i].status.Active? && c.rows[i].number in candidates
                               then c.rows[i].(status := Compacted, retired := true) else c.rows[i]
  {
    var lo, hi := candidates[0], candidates[|candidates| - 1];
    forall i | 0 <= i < |c.rows| && c.rows[i].status.Active?
      ensures lo <= c.rows[i].number <= hi <==> c.rows[i].number in candidates
    {
      CandidateIff(c, candidates, c.rows[i]);
    }
  }

  /** The candidates are the numbers of the active rows of their range. */
  lemma CandidateIff(c: Context, candidates: seq<int>, row: Row)
    requires Inv(c) && candidates != [] && Unchanged(c, candidates) && row in c.rows && row.status.Active?
    ensures candidates[0] <= row.number <= candidates[|candidates| - 1] <==> row.number in candidates
  {
    var lo, hi := candidates[0], candidates[|candidates| - 1];
    var within := Within(c.rows, lo, hi);
    WithinMembers(c.rows, lo, hi, row);
    if row in within {
      var k :| 0 <= k < |within| && within[k] == row;
      assert Numbers(within)[k] == row.number;
    }
    if row.number in candidates {
      var k :| 0 <= k < |candidates| && candidates[k] == row.number;
      assert within[k].number == row.number && within[k] in within;
      WithinMembers(c.rows, lo, hi, within[k]);
    }
  }

  lemma CompactedRowsAt(rows: seq<Row>, lo: int, hi: int, row: Row, rows': seq<Row>)
    requires row.number == hi && row.status.Active? && lo <= hi
    requires rows' == RetireWhere(rows, Between(lo, hi), Compacted) + [row]
    ensures forall n :: n < lo || hi < n ==> RowsAt(rows', n) == RowsAt(rows, n)
    ensures forall n :: lo <= n < hi ==> RowsAt(rows', n) == []
    ensures RowsAt(rows', hi) == [row]
  {
    var retired := RetireWhere(rows, Between(lo, hi), Compacted);
    assert rows'[..|retired|] == retired;
    forall n ensures RowsAt(rows', n) ==
        (if lo <= n <= hi then [] else RowsAt(rows, n)) + (if n == hi then [row] else []) {
      RowsAtRetired(rows, lo, hi, n);
    }
  }

  lemma CompactionKeepsInv(c: Context, candidates: seq<int>, c': Context, row: Row)
    requires Inv(c) && candidates != [] && Unchanged(c, candidates)
    requires row.number == candidates[|candidates| - 1] && row.status.Active? && !row.retired
    requires c'.rows == RetireWhere(c.rows, Between(candidates[0], candidates[|candidates| - 1]), Compacted) + [row]
    requires c'.nextItemSeq == c.nextItemSeq && UniqueKeys(c'.rows)
    ensures Inv(c') && Follows(c.rows, c'.rows)
  {
    var retired := RetireWhere(c.rows, Between(candidates[0], candidates[|candidates| - 1]), Compacted);
    CandidatesInRange(c, candidates);
    RetireKeepsInv(c, retired);
    SummaryIsUnique(c, candidates, retired, row);
  }

  lemma CandidatesInRange(c: Context, candidates: seq<int>)
    requires Inv(c) && candidates != [] && Unchanged(c, candidates)
    ensures 1 <= candidates[0] <= candidates[|candidates| - 1] < c.nextItemSeq
    ensures |candidates| >= 2 ==> candidates[0] < candidates[|candidates| - 1]
    ensures exists i ::
              0 <= i < |c.rows| && c.rows[i].status.Active? && c.rows[i].number == candidates[|candidates| - 1]
  {
    var lo, hi := candidates[0], candidates[|candidates| - 1];
    var rows := Within(c.rows, lo, hi);
    AscendingIsSorted(c.rows, lo, hi + 1);
    AscendingMembers(c.rows, lo, hi + 1, rows[0]);
    AscendingMembers(c.rows, lo, hi + 1, rows[|rows| - 1]);
    assert rows[0].number == lo && rows[|rows| - 1].number == hi;
  }

  /** The summary takes the number of the last candidate, which no visible row keeps. */
  lemma SummaryIsUnique(c: Context, candidates: seq<int>, retired: seq<Row>, row: Row)
    requires Inv(c) && candidates != [] && Unchanged(c, candidates)
    requires retired == RetireWhere(c.rows, Between(candidates[0], candidates[|candidates| - 1]), Compacted)
    requires row.number == candidates[|candidates| - 1] && row.status.Active?
    requires UniqueNumbers(retired)
    ensures UniqueNumbers(retired + [row])
  {
    CandidatesInRange(c, candidates);
    var k :| 0 <= k < |c.rows| && c.rows[k].status.Active? && c.rows[k].number == row.number;
    forall i | 0 <= i < |retired| && Visible(retired[i]) ensures retired[i].number != row.number {
      if i != k { assert Visible(c.rows[i]) && Visible(c.rows[k]); }
    }
  }

  lemma BelowIsEmptyIff(rows: seq<Row>, next: int, lo: int)
    requires RowsOk(rows, next)
    ensures Ascending(rows, 1, lo) == []
            <==> forall i :: 0 <= i < |rows| && rows[i].status.Active? ==> rows[i].number >= lo
  {
    if forall i :: 0 <= i < |rows| && rows[i].status.Active? ==> rows[i].number >= lo {
      AscendingNone(rows, 1, lo);
    } else {
      var i :| 0 <= i < |rows| && rows[i].status.Active? && rows[i].number < lo;
      AscendingMembers(rows, 1, lo, rows[i]);
    }
  }

  /** The active view becomes the summary followed by exactly the later rows if and only if
      nothing below the candidates is active at the commit. */
  lemma CompactedViewIsSummaryFirstIff(c: Context, candidates: seq<int>, key: string, summary: Item)
    requires Inv(c) && candidates != []
    requires CommitCompaction(c, candidates, key, summary).Success?
        && CommitCompaction(c, candidates, key, summary).value.Some?
    ensures var c' := CommitCompaction(c, candidates, key, summary).value.value;
            var lo, hi := candidates[0], candidates[|candidates| - 1];
            View(c') == [Row(hi, Active, false, key, summary)] + Above(c.rows, hi, c.nextItemSeq)
            <==> forall i :: 0 <= i < |c.rows| && c.rows[i].status.Active? ==> c.rows[i].number >= lo
  {
    var lo, hi := candidates[0], candidates[|candidates| - 1];
    CompactedView(c, candidates, key, summary);
    BelowIsEmptyIff(c.rows, c.nextItemSeq, lo);
  }
}

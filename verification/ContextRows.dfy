/**
 The persisted items of one agent context: rows, views ordered by sequence number, and
 the transactions that add, rewind, clear and compact them.
 */
module ContextRows {
  import opened Options
  import opened Sequences

  // ----- Rows -----

  datatype Kind = Call | CallOutput | OtherItem

  /** A JSON field: missing or otherwise falsy, a string, or a truthy value of another type. */
  datatype Field = Falsy | Text(value: string) | Alien

  datatype Item = Item(kind: Kind, callId: Field, id: Field, tag: int)

  datatype Status = Active | Rewound | Compacted | Cleared

  datatype Row = Row(number: int, status: Status, retired: bool, dedupeKey: string, item: Item)

  /** `boundaries` are the `through_seq` values of the recorded compactions, oldest first. */
  datatype Context = Context(rows: seq<Row>, nextItemSeq: int, boundaries: seq<int>)

  const EMPTY_CONTEXT := Context([], 1, [])

  // ----- Dedupe keys -----

  const CALL_PREFIX := "tool:call:"
  const OUTPUT_PREFIX := "tool:output:"
  const ITEM_PREFIX := "item:"

  /** The string in a field, "" if there is none. */
  function TextOf(field: Field): string {
    if field.Text? then field.value else ""
  }

  /** `call_id or id`, if that is a string. */
  function ToolId(item: Item): string {
    if item.callId.Alien? || TextOf(item.callId) != "" then TextOf(item.callId) else TextOf(item.id)
  }

  function DedupeKey(item: Item): string {
    if item.kind.Call? && ToolId(item) != "" then CALL_PREFIX + ToolId(item)
    else if item.kind.CallOutput? && ToolId(item) != "" then OUTPUT_PREFIX + ToolId(item)
    else if TextOf(item.id) != "" then ITEM_PREFIX + TextOf(item.id)
    else ""
  }

  /** What a key stands for: the kind of tool item with its call id, or with its item id if the
      call id is missing; for plain items, and tool items with a call id that is no string, the
      item id. */
  function Identity(item: Item): Option<(Kind, string)> {
    match (item.kind, item.callId, item.id)
    case (Call, Text(v), _) => if v != "" then Some((Call, v)) else IdIdentity(Call, item.id)
    case (CallOutput, Text(v), _) => if v != "" then Some((CallOutput, v)) else IdIdentity(CallOutput, item.id)
    case (Call, Falsy, id) => IdIdentity(Call, id)
    case (CallOutput, Falsy, id) => IdIdentity(CallOutput, id)
    case (_, _, id) => IdIdentity(OtherItem, id)
  }

  function IdIdentity(kind: Kind, id: Field): Option<(Kind, string)> {
    if id.Text? && id.value != "" then Some((kind, id.value)) else None
  }

  /** The key of an identity. */
  function KeyFor(identity: Option<(Kind, string)>): string {
    match identity
    case None => ""
    case Some((Call, v)) => CALL_PREFIX + v
    case Some((CallOutput, v)) => OUTPUT_PREFIX + v
    case Some((OtherItem, v)) => ITEM_PREFIX + v
  }

  lemma KeyIsOfIdentity(item: Item)
    ensures DedupeKey(item) == KeyFor(Identity(item))
  {}

  /** Equal non-empty keys mean the same identity: calls, outputs and plain items never collide. */
  lemma KeysAgreeIff(left: Item, right: Item)
    ensures DedupeKey(left) == "" <==> Identity(left) == None
    ensures DedupeKey(left) == DedupeKey(right) <==> Identity(left) == Identity(right)
  {
    KeyIsOfIdentity(left);
    KeyIsOfIdentity(right);
    KeyForIsInjective(Identity(left), Identity(right));
  }

  lemma KeyForIsInjective(a: Option<(Kind, string)>, b: Option<(Kind, string)>)
    ensures KeyFor(a) == "" <==> a.None?
    ensures KeyFor(a) == KeyFor(b) <==> a == b
  {
    KeyPrefix(a);
    KeyPrefix(b);
    if a.Some? && b.Some? {
      PrefixCancels(CALL_PREFIX, a.value.1, b.value.1);
      PrefixCancels(OUTPUT_PREFIX, a.value.1, b.value.1);
      PrefixCancels(ITEM_PREFIX, a.value.1, b.value.1);
    }
  }

  lemma PrefixCancels(prefix: string, a: string, b: string)
    ensures prefix + a == prefix + b <==> a == b
  {
    assert (prefix + a)[|prefix|..] == a && (prefix + b)[|prefix|..] == b;
  }

  /** The characters that tell the three kinds of keys apart. */
  lemma KeyPrefix(identity: Option<(Kind, string)>)
    ensures identity.Some? ==>
              var key := KeyFor(identity);
              && |key| >= 5 && (key[0] == 't' ==> |key| > 5)
              && (identity.value.0.Call? <==> key[0] == 't' && key[5] == 'c')
              && (identity.value.0.CallOutput? <==> key[0] == 't' && key[5] == 'o')
              && (identity.value.0.OtherItem? <==> key[0] == 'i')
  {}

  /** An item of a batch with its key, computed before the rows are looked up. */
  datatype Keyed = Keyed(key: string, item: Item)

  function Serialized(items: seq<Item>): (batch: seq<Keyed>)
    ensures |batch| == |items| && forall i :: 0 <= i < |items| ==> batch[i] == Keyed(DedupeKey(items[i]), items[i])
  {
    seq(|items|, i requires 0 <= i < |items| => Keyed(DedupeKey(items[i]), items[i]))
  }

  // ----- Views -----

  /** The active rows with one sequence number, in insertion order. */
  function RowsAt(rows: seq<Row>, number: int): seq<Row> {
    if rows == [] then []
    else
      var before, row := RowsAt(rows[..|rows| - 1], number), rows[|rows| - 1];
      if row.status.Active? && row.number == number then before + [row] else before
  }

  /** Active rows with `lo <= seq < hi`, by ascending sequence number. */
  function Ascending(rows: seq<Row>, lo: int, hi: int): seq<Row>
    decreases hi - lo
  {
    if hi <= lo then [] else Ascending(rows, lo, hi - 1) + RowsAt(rows, hi - 1)
  }

  /** Active rows with `lo <= seq <= hi`, by ascending sequence number. */
  function Within(rows: seq<Row>, lo: int, hi: int): seq<Row> {
    Ascending(rows, lo, hi + 1)
  }

  /** Active rows with `lo < seq < hi`, by ascending sequence number. */
  function Above(rows: seq<Row>, lo: int, hi: int): seq<Row> {
    Ascending(rows, lo + 1, hi)
  }

  /** The first `limit` active rows with `lo <= seq < hi`, by descending sequence number. */
  function Descending(rows: seq<Row>, lo: int, hi: int, limit: nat): seq<Row>
    decreases hi - lo
  {
    if hi <= lo || limit == 0 then []
    else
      var top := RowsAt(rows, hi - 1);
      if |top| >= limit then top[..limit] else top + Descending(rows, lo, hi - 1, limit - |top|)
  }

  function View(c: Context): seq<Row> {
    Ascending(c.rows, 1, c.nextItemSeq)
  }

  function Items(rows: seq<Row>): (items: seq<Item>)
    ensures |items| == |rows| && forall i :: 0 <= i < |rows| ==> items[i] == rows[i].item
  {
    seq(|rows|, i requires 0 <= i < |rows| => rows[i].item)
  }

  function Numbers(rows: seq<Row>): (numbers: seq<int>)
    ensures |numbers| == |rows| && forall i :: 0 <= i < |rows| ==> numbers[i] == rows[i].number
  {
    seq(|rows|, i requires 0 <= i < |rows| => rows[i].number)
  }

  /** `get_items`: all active items in order, or the newest `limit` of them. */
  function GetItems(c: Context, limit: Option<nat>): seq<Item> {
    if limit.None? then Items(View(c))
    else Items(Reversed(Descending(c.rows, 1, c.nextItemSeq, limit.value)))
  }

  // ----- Transactions -----

  datatype StoreError = DuplicateKey | DuplicateBoundary

  predicate UniqueKeys(rows: seq<Row>) {
    forall i, j :: 0 <= i < j < |rows| && rows[i].dedupeKey != "" ==> rows[i].dedupeKey != rows[j].dedupeKey
  }

  /** The position of the row with a key among the rows read at the start. */
  function Lookup(rows: seq<Row>, key: string): (r: Option<nat>)
    ensures r.Some? ==> r.value < |rows| && rows[r.value].dedupeKey == key
    ensures r.None? ==> forall i :: 0 <= i < |rows| ==> rows[i].dedupeKey != key
  {
    if rows == [] then None
    else if rows[|rows| - 1].dedupeKey == key then Some(|rows| - 1)
    else Lookup(rows[..|rows| - 1], key)
  }

  function Existing(rows: seq<Row>, entry: Keyed): Option<nat> {
    if entry.key == "" then None else Lookup(rows, entry.key)
  }

  function NewRow(number: int, entry: Keyed): Row {
    Row(number, Active, false, entry.key, entry.item)
  }

  /** One entry of a batch: `found` are the rows that were there before the batch. */
  function AddOne(found: seq<Row>, c: Context, entry: Keyed): Context
    requires |found| <= |c.rows|
  {
    var existing := Existing(found, entry);
    if existing.Some? then
      var row := c.rows[existing.value];
      if row.status.Rewound? then c.(rows := c.rows[existing.value := row.(status := Active, retired := false)]) else c
    else
      c.(rows := c.rows + [NewRow(c.nextItemSeq, entry)], nextItemSeq := c.nextItemSeq + 1)
  }

  function AddEach(found: seq<Row>, c: Context, batch: seq<Keyed>): (c': Context)
    requires |found| <= |c.rows|
    ensures |c'.rows| >= |c.rows|
  {
    if batch == [] then c else AddOne(found, AddEach(found, c, batch[..|batch| - 1]), batch[|batch| - 1])
  }

  /** `add_items`: the unique key index refuses a batch that brings one new key twice. */
  function AddItems(c: Context, batch: seq<Keyed>): Result<Context, StoreError> {
    var c' := AddEach(c.rows, c, batch);
    if UniqueKeys(c'.rows) then Success(c') else Failure(DuplicateKey)
  }

  /** The active row with the greatest sequence number. */
  function NewestActive(rows: seq<Row>): (r: Option<nat>)
    ensures r.Some? ==> r.value < |rows| && rows[r.value].status.Active?
                        && forall i :: 0 <= i < |rows| && rows[i].status.Active? ==>
                            rows[i].number <= rows[r.value].number
    ensures r.None? ==> forall i :: 0 <= i < |rows| ==> !rows[i].status.Active?
  {
    if rows == [] then None
    else
      var before, last := NewestActive(rows[..|rows| - 1]), |rows| - 1;
      if rows[last].status.Active? && (before.None? || rows[before.value].number <= rows[last].number)
          then Some(last) else before
  }

  function Retire(row: Row, status: Status): Row {
    row.(status := status, retired := true)
  }

  function PopItem(c: Context): Context {
    var newest := NewestActive(c.rows);
    if newest.None? then c
    else c.(rows := c.rows[newest.value := Retire(c.rows[newest.value], Rewound)])
  }

  /** Every active row that `chosen` selects gets `status`. */
  function RetireWhere(rows: seq<Row>, chosen: Row -> bool, status: Status): (rows': seq<Row>)
    ensures |rows'| == |rows|
    ensures forall i :: 0 <= i < |rows| ==>
              rows'[i] == if rows[i].status.Active? && chosen(rows[i]) then Retire(rows[i], status) else rows[i]
  {
    seq(|rows|, i requires 0 <= i < |rows| =>
      if rows[i].status.Active? && chosen(rows[i]) then Retire(rows[i], status) else rows[i])
  }

  function Between(lo: int, hi: int): Row -> bool {
    (row: Row) => lo <= row.number <= hi
  }

  function ClearSession(c: Context): Context {
    c.(rows := RetireWhere(c.rows, _ => true, Cleared))
  }

  /** The supervisor's rewind of an attempt: any set of active rows. */
  function RewindRows(c: Context, chosen: Row -> bool): Context {
    c.(rows := RetireWhere(c.rows, chosen, Rewound))
  }

  /** The commit of a compaction: `None` when the rows changed since they were read. */
  function CommitCompaction(c: Context, candidates: seq<int>, key: string, summary: Item)
      : Result<Option<Context>, StoreError>
    requires candidates != []
  {
    var lo, hi := candidates[0], candidates[|candidates| - 1];
    if Numbers(Within(c.rows, lo, hi)) != candidates then Success(None)
    else
      var retired := RetireWhere(c.rows, Between(lo, hi), Compacted);
      var rows := retired + [Row(hi, Active, false, key, summary)];
      if !UniqueKeys(rows) then Failure(DuplicateKey)
      else if hi in c.boundaries then Failure(DuplicateBoundary)
      else Success(Some(Context(rows, c.nextItemSeq, c.boundaries + [hi])))
  }

  // ----- Invariant -----

  predicate Visible(row: Row) {
    row.status.Active? || row.status.Rewound?
  }

  /** At most one active or rewound row per sequence number. */
  predicate UniqueNumbers(rows: seq<Row>) {
    forall i, j :: 0 <= i < j < |rows| && Visible(rows[i]) && Visible(rows[j]) ==> rows[i].number != rows[j].number
  }

  predicate RowsOk(rows: seq<Row>, next: int) {
    forall i :: 0 <= i < |rows| ==> 1 <= rows[i].number < next && (rows[i].retired <==> !rows[i].status.Active?)
  }

  predicate Inv(c: Context) {
    c.nextItemSeq >= 1 && RowsOk(c.rows, c.nextItemSeq) && UniqueNumbers(c.rows) && UniqueKeys(c.rows)
  }

  /** The status table. */
  predicate Allowed(from: Status, to: Status) {
    from == to || (from.Active? && !to.Active?) || (from.Rewound? && to.Active?)
  }

  /** Rows are never removed, renumbered or rewritten, and statuses follow the table. */
  predicate Follows(rows: seq<Row>, rows': seq<Row>) {
    |rows| <= |rows'| && forall i :: 0 <= i < |rows| ==>
      Allowed(rows[i].status, rows'[i].status)
          && rows'[i] == rows[i].(status := rows'[i].status, retired := rows'[i].retired)
  }
}

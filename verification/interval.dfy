/** Interval validation: the stored blocks of a source form one unbroken chain to the header. */
module Interval {
  import opened Words
  import opened Sequences
  import opened Projection

  datatype PrefixHeader = PrefixHeader(start: nat, number: nat, hash: Bytes, stateRoot: Bytes)

  /** The range a checkpoint wants: its accounts, first block, the base's hash when it continues
      one, and the compacted prefix when there is one. */
  datatype Range = Range(start: nat, accounts: set<Address>, parentHash: Option<Bytes>, prefix: Option<PrefixHeader>)

  datatype Target = Target(number: nat, hash: Bytes, stateRoot: Bytes)

  function First(range: Range): nat {
    if range.prefix.Some? then range.prefix.value.number + 1 else range.start
  }

  function Number(): BlockState -> nat {
    (b: BlockState) => b.number
  }

  function Between(from: nat, to: nat): BlockState -> bool {
    (b: BlockState) => from <= b.number <= to
  }

  function AtHeight(n: nat): BlockState -> bool {
    (b: BlockState) => b.number == n
  }

  /** SELECT ... WHERE number BETWEEN from AND to ORDER BY number. */
  function Query(table: seq<BlockState>, from: nat, to: nat): seq<BlockState> {
    SortBy(Filter(table, Between(from, to)), Number())
  }

  function RowsAt(table: seq<BlockState>, n: nat): seq<BlockState> {
    Filter(table, AtHeight(n))
  }

  // ---------------------------------------------------------------- what a valid interval is

  predicate Single(table: seq<BlockState>, n: nat) {
    |RowsAt(table, n)| == 1
  }

  function RowAt(table: seq<BlockState>, n: nat): BlockState
    requires Single(table, n)
  {
    RowsAt(table, n)[0]
  }

  predicate ValidRow(range: Range, b: BlockState) {
    && b.accounts == range.accounts && b.schemaVersion == 1 && 3 <= b.producerVersion <= 5
    && |b.hash| == 32 && |b.parentHash| == 32
  }

  /** The parent that the first block must name, if any is prescribed. */
  function Anchor(range: Range): Option<Bytes> {
    if range.prefix.Some? then Some(range.prefix.value.hash) else range.parentHash
  }

  predicate Linked(b: BlockState, previous: Option<Bytes>) {
    previous.Some? ==> b.parentHash == previous.value
  }

  predicate MatchesTarget(target: Target, number: nat, hash: Bytes, stateRoot: Bytes) {
    number == target.number ==> hash == target.hash && stateRoot == target.stateRoot
  }

  predicate ValidRange(range: Range, target: Target) {
    && range.start <= target.number < U64_MAX && range.accounts != {}
    && (range.prefix.Some? ==>
          var p := range.prefix.value;
          p.start == range.start && p.number <= target.number && MatchesTarget(target, p.number, p.hash, p.stateRoot))
  }

  /** Height n has exactly one row, a valid one, that links to the height before it and, at the
      end, matches the header. */
  ghost predicate ValidAt(range: Range, target: Target, table: seq<BlockState>, n: nat) {
    && Single(table, n)
    && var b := RowAt(table, n);
       && ValidRow(range, b) && MatchesTarget(target, n, b.hash, b.stateRoot)
       && if n == First(range) then Linked(b, Anchor(range))
          else n > 0 && Single(table, n - 1) && b.parentHash == RowAt(table, n - 1).hash
  }

  ghost predicate ValidInterval(range: Range, target: Target, table: seq<BlockState>) {
    ValidRange(range, target) && forall n :: First(range) <= n <= target.number ==> ValidAt(range, target, table, n)
  }

  /** Equal block hashes mean equal rows. */
  ghost predicate HashesBind(a: seq<BlockState>, b: seq<BlockState>) {
    forall x, y :: x in a && y in b && x.hash == y.hash ==> x == y
  }

  lemma SingleMember(table: seq<BlockState>, n: nat)
    requires Single(table, n)
    ensures RowAt(table, n) in table && RowAt(table, n).number == n
  {
    FilterMember(table, AtHeight(n), RowAt(table, n));
  }

  /** What validation buys: where hashes bind, a range and its target header determine the row at
      every height, so two valid tables hold the same history whatever else they store. */
  lemma {:induction false} TargetDeterminesRows(range: Range, target: Target, a: seq<BlockState>, b: seq<BlockState>,
                                                n: nat)
    requires ValidInterval(range, target, a) && ValidInterval(range, target, b) && HashesBind(a, b)
    requires First(range) <= n <= target.number
    ensures Single(a, n) && Single(b, n) && RowAt(a, n) == RowAt(b, n)
    decreases target.number - n
  {
    assert ValidAt(range, target, a, n) && ValidAt(range, target, b, n);
    SingleMember(a, n);
    SingleMember(b, n);
    if n < target.number {
      TargetDeterminesRows(range, target, a, b, n + 1);
      assert ValidAt(range, target, a, n + 1) && ValidAt(range, target, b, n + 1);
    }
  }

  // ---------------------------------------------------------------- the query, height by height

  lemma {:induction false} InFilter(s: seq<BlockState>, from: nat, to: nat)
    ensures forall i :: 0 <= i < |Filter(s, Between(from, to))| ==> from <= Filter(s, Between(from, to))[i].number <= to
  {
    if s != [] { InFilter(s[..|s| - 1], from, to); }
  }

  lemma QueryShape(table: seq<BlockState>, from: nat, to: nat)
    ensures SortedBy(Query(table, from, to), Number())
    ensures forall i :: 0 <= i < |Query(table, from, to)| ==> from <= Query(table, from, to)[i].number <= to
  {
    var s, q := Filter(table, Between(from, to)), Query(table, from, to);
    SortBySorts(s, Number());
    InFilter(table, from, to);
    forall i | 0 <= i < |q| ensures from <= q[i].number <= to { assert q[i] in q; }
  }

  /** Sorting and restricting the range keep what is stored at a height inside it. */
  lemma QueryRows(table: seq<BlockState>, from: nat, to: nat, n: nat)
    requires from <= n <= to
    ensures Single(Query(table, from, to), n) <==> Single(table, n)
    ensures Single(table, n) ==> RowAt(Query(table, from, to), n) == RowAt(table, n)
  {
    var s := Filter(table, Between(from, to));
    FilterSort(s, Number(), AtHeight(n));
    FilterTwice(table, Between(from, to), AtHeight(n), AtHeight(n));
    var rows := RowsAt(table, n);
    assert RowsAt(Query(table, from, to), n) == SortBy(rows, Number());
    SortBySorts(rows, Number());
    assert |multiset(rows)| == |rows| && |multiset(SortBy(rows, Number()))| == |SortBy(rows, Number())|;
    if |rows| == 1 {
      assert rows == [rows[0]];
      assert rows[0] in SortBy(rows, Number());
    }
  }

  ghost predicate Consecutive(q: seq<BlockState>, from: nat) {
    forall i :: 0 <= i < |q| ==> q[i].number == from + i
  }

  lemma {:induction false} ConsecutiveRows(q: seq<BlockState>, from: nat, n: nat)
    requires Consecutive(q, from) && from <= n
    ensures RowsAt(q, n) == if n < from + |q| then [q[n - from]] else []
  {
    if q != [] {
      ConsecutiveRows(q[..|q| - 1], from, n);
      if n == from + |q| - 1 { assert RowsAt(q[..|q| - 1], n) == []; }
    }
  }

  /** Sorted rows with exactly one per height are the heights in order. */
  lemma {:induction false} SinglesAreConsecutive(q: seq<BlockState>, from: nat, count: nat)
    requires SortedBy(q, Number()) && forall i :: 0 <= i < |q| ==> from <= q[i].number < from + count
    requires forall n :: from <= n < from + count ==> Single(q, n)
    ensures Consecutive(q, from) && |q| == count
    decreases count
  {
    assert q != [] ==> from <= q[0].number < from + count;
    if count > 0 {
      var top := from + count - 1;
      assert Single(q, top);
      assert q != [];
      var front, last := q[..|q| - 1], q[|q| - 1];
      FilterMember(q, AtHeight(top), RowAt(q, top));
      assert last.number == top;
      assert RowsAt(q, top) == RowsAt(front, top) + [last];
      forall i | 0 <= i < |front| ensures from <= front[i].number < from + count - 1 {
        FilterMember(front, AtHeight(top), front[i]);
        assert front[i] in front && RowsAt(front, top) == [];
      }
      forall n | from <= n < top ensures Single(front, n) {
        assert Single(q, n);
        assert RowsAt(q, n) == RowsAt(front, n);
      }
      SinglesAreConsecutive(front, from, count - 1);
    }
  }

  // ---------------------------------------------------------------- the loop

  ghost predicate GoodUpTo(range: Range, target: Target, q: seq<BlockState>, i: nat)
    requires i <= |q|
  {
    forall j :: 0 <= j < i ==> GoodRow(range, target, q, j)
  }

  predicate GoodRow(range: Range, target: Target, q: seq<BlockState>, j: nat)
    requires j < |q|
  {
    && q[j].number == First(range) + j && ValidRow(range, q[j])
    && MatchesTarget(target, q[j].number, q[j].hash, q[j].stateRoot)
    && Linked(q[j], if j == 0 then Anchor(range) else Some(q[j - 1].hash))
  }

  /** The loop accepts the whole query result exactly for a valid interval. */
  lemma LoopMeans(range: Range, target: Target, table: seq<BlockState>)
    requires ValidRange(range, target)
    ensures var q := Query(table, First(range), target.number);
            ValidInterval(range, target, table) <==>
            GoodUpTo(range, target, q, |q|) && First(range) + |q| == target.number + 1
  {
    var q := Query(table, First(range), target.number);
    QueryShape(table, First(range), target.number);
    if ValidInterval(range, target, table) { ValidIsGood(range, target, table, q); }
    if GoodUpTo(range, target, q, |q|) && First(range) + |q| == target.number + 1 {
      GoodIsValid(range, target, table, q);
    }
  }

  lemma ValidIsGood(range: Range, target: Target, table: seq<BlockState>, q: seq<BlockState>)
    requires ValidInterval(range, target, table) && q == Query(table, First(range), target.number)
    ensures GoodUpTo(range, target, q, |q|) && First(range) + |q| == target.number + 1
  {
    var first, count := First(range), target.number + 1 - First(range);
    QueryShape(table, first, target.number);
    forall n | first <= n < first + count ensures Single(q, n) {
      assert ValidAt(range, target, table, n);
      QueryRows(table, first, target.number, n);
    }
    SinglesAreConsecutive(q, first, count);
    forall j | 0 <= j < |q| ensures GoodRow(range, target, q, j) {
      assert ValidAt(range, target, table, first + j);
      QueryRows(table, first, target.number, first + j);
      ConsecutiveRows(q, first, first + j);
      if j > 0 {
        QueryRows(table, first, target.number, first + j - 1);
        ConsecutiveRows(q, first, first + j - 1);
      }
    }
  }

  lemma GoodIsValid(range: Range, target: Target, table: seq<BlockState>, q: seq<BlockState>)
    requires ValidRange(range, target) && q == Query(table, First(range), target.number)
    requires GoodUpTo(range, target, q, |q|) && First(range) + |q| == target.number + 1
    ensures ValidInterval(range, target, table)
  {
    var first := First(range);
    forall j | 0 <= j < |q| ensures q[j].number == first + j { assert GoodRow(range, target, q, j); }
    forall n | first <= n <= target.number ensures ValidAt(range, target, table, n) {
      assert GoodRow(range, target, q, n - first);
      QueryRows(table, first, target.number, n);
      ConsecutiveRows(q, first, n);
      if n > first {
        QueryRows(table, first, target.number, n - 1);
        ConsecutiveRows(q, first, n - 1);
      }
    }
  }

  /** The checks on one row; succeeds exactly when the row extends the chain. */
  method CheckRow(range: Range, target: Target, q: seq<BlockState>, i: nat, expected: nat, count: nat,
                  previous: Option<Bytes>)
    returns (r: Result<Bytes>)
    requires i < |q| && expected == First(range) + i
    requires count == 0 <==> i == 0 && range.prefix.None?
    requires previous == if i > 0 then Some(q[i - 1].hash) else if range.prefix.Some? then Anchor(range) else None
    ensures r.Ok? <==> GoodRow(range, target, q, i)
    ensures r.Ok? ==> r.value == q[i].hash
  {
    var row := q[i];
    if row.number != expected { return Err("missing or conflicting block"); }
    if row.accounts != range.accounts || row.schemaVersion != 1 { return Err("account filter or schema changed"); }
    if !(3 <= row.producerVersion <= 5) { return Err("unsupported producer version"); }
    if |row.hash| != 32 || |row.parentHash| != 32 { return Err("expected 32 bytes"); }
    if previous.Some? && row.parentHash != previous.value { return Err("broken parent continuity"); }
    if row.number == target.number && (row.hash != target.hash || row.stateRoot != target.stateRoot) {
      return Err("stream checkpoint differs from proof header");
    }
    if count == 0 && range.parentHash.Some? && row.parentHash != range.parentHash.value {
      return Err("stream does not continue the base checkpoint");
    }
    return Ok(row.hash);
  }

  /** The checks before any row is read; yields the parent the first row must name. */
  method CheckRange(range: Range, target: Target) returns (r: Result<Option<Bytes>>)
    ensures r.Ok? <==> ValidRange(range, target)
    ensures r.Ok? ==> r.value == if range.prefix.Some? then Anchor(range) else None
  {
    if !(range.start <= target.number < U64_MAX) { return Err("invalid checkpoint input range"); }
    if range.accounts == {} { return Err("selected account list is empty"); }
    if range.prefix.None? { return Ok(None); }
    var p := range.prefix.value;
    if p.start != range.start || p.number > target.number {
      return Err("checkpoint range cannot use this compacted bootstrap prefix");
    }
    if p.number == target.number && (p.hash != target.hash || p.stateRoot != target.stateRoot) {
      return Err("bootstrap checkpoint differs from proof header");
    }
    return Ok(Some(p.hash));
  }

  /** Succeeds exactly for a valid interval and then counts every block from the start of the
      range, the compacted ones included. A loaded prefix never ends before the range starts. */
  method ValidateInterval(range: Range, target: Target, table: seq<BlockState>) returns (r: Result<nat>)
    requires range.prefix.Some? ==> range.start <= range.prefix.value.number
    ensures r.Ok? <==> ValidInterval(range, target, table)
    ensures r.Ok? ==> r.value == target.number - range.start + 1 && r.value <= U64_MAX
  {
    var previous :- CheckRange(range, target);
    var expected := First(range);
    var count := expected - range.start;
    var q := Query(table, expected, target.number);
    LoopMeans(range, target, table);
    QueryShape(table, First(range), target.number);
    for i := 0 to |q|
      invariant GoodUpTo(range, target, q, i)
      invariant expected == First(range) + i && count == expected - range.start
      invariant expected <= target.number + 1 <= U64_MAX
      invariant previous == if i > 0 then Some(q[i - 1].hash) else if range.prefix.Some? then Anchor(range) else None
    {
      var checked := CheckRow(range, target, q, i, expected, count, previous);
      assert GoodUpTo(range, target, q, |q|) ==> GoodRow(range, target, q, i);
      if checked.Err? { return Err(checked.reason); }
      previous, expected, count := Some(checked.value), expected + 1, count + 1;
    }
    if expected != target.number + 1 { return Err("incomplete stream"); }
    return Ok(count);
  }
}

/** Keyset pagination of a pinned account, and the page files of a portable export. */
module Paging {
  import opened Words
  import opened Sequences

  /** Accounts, slots and values as numbers: fixed-width hex text compares the same way. */
  type Account = nat

  const WORD: nat := TWO_TO_256
  const MAX_ROWS: nat := 10000
  const MAX_PAGES: nat := 1_000_000

  datatype SlotRow = SlotRow(account: Account, slot: nat, value: nat)

  ghost predicate Ascending(rows: seq<SlotRow>) {
    forall i, j :: 0 <= i < j < |rows| ==> rows[i].slot < rows[j].slot
  }

  // ---------------------------------------------------------------- reader pages

  /** A decoded cursor token; anything that does not decode is garbled. */
  datatype Token = Garbled | Cursor(version: nat, snapshot: nat, account: Account, after: nat)

  datatype Page = Page(storage: seq<SlotRow>, next: Option<Token>)

  function Beyond(after: Option<nat>): SlotRow -> bool {
    (r: SlotRow) => after.None? || r.slot > after.value
  }

  predicate Accepts(snapshot: nat, account: Account, cursor: Option<Token>) {
    cursor.None? || (cursor.value.Cursor? && cursor.value.version == 1 && cursor.value.snapshot == snapshot
                     && cursor.value.account == account && cursor.value.after < WORD)
  }

  function Remaining(rows: seq<SlotRow>, cursor: Option<Token>): seq<SlotRow> {
    Filter(rows, Beyond(if cursor.Some? && cursor.value.Cursor? then Some(cursor.value.after) else None))
  }

  function Take(rows: seq<SlotRow>, n: nat): seq<SlotRow> {
    if |rows| <= n then rows else rows[..n]
  }

  /** One page: fetches one row more than the limit to learn whether another page follows. */
  function ReadPage(rows: seq<SlotRow>, snapshot: nat, account: Account, cursor: Option<Token>,
                    limit: nat): (r: Result<Page>)
    ensures r.Ok? <==>
            && 1 <= limit <= 10_000
            && (cursor.Some? ==>
                  && cursor.value.Cursor? && cursor.value.version == 1 && cursor.value.snapshot == snapshot
                  && cursor.value.account == account && cursor.value.after < TWO_TO_256)
  {
    if !(1 <= limit <= MAX_ROWS) then Err("page limit must be between 1 and 10000")
    else if !Accepts(snapshot, account, cursor) then Err("cursor belongs to another checkpoint or account")
    else
      var fetched := Take(Remaining(rows, cursor), limit + 1);
      var storage := Take(fetched, limit);
      Ok(Page(storage,
              if |fetched| > limit then Some(Cursor(1, snapshot, account, storage[|storage| - 1].slot)) else None))
  }

  lemma {:induction false} KeepAll(rows: seq<SlotRow>, after: Option<nat>)
    requires after.Some? ==> forall i :: 0 <= i < |rows| ==> after.value < rows[i].slot
    ensures Filter(rows, Beyond(after)) == rows
  {
    if rows != [] {
      KeepAll(rows[..|rows| - 1], after);
      assert rows == rows[..|rows| - 1] + [rows[|rows| - 1]];
    }
  }

  lemma {:induction false} KeepNone(rows: seq<SlotRow>, after: nat)
    requires forall i :: 0 <= i < |rows| ==> rows[i].slot <= after
    ensures Filter(rows, Beyond(Some(after))) == []
  {
    if rows != [] { KeepNone(rows[..|rows| - 1], after); }
  }

  lemma FilterSplit(low: seq<SlotRow>, high: seq<SlotRow>, after: nat)
    requires forall i :: 0 <= i < |low| ==> low[i].slot <= after
    requires forall i :: 0 <= i < |high| ==> after < high[i].slot
    ensures Filter(low + high, Beyond(Some(after))) == high
  {
    KeepNone(low, after);
    KeepAll(high, Some(after));
    FilterConcat(low, high, Beyond(Some(after)));
    assert [] + high == high;
  }

  /** Beyond the slot at k - 1 lie exactly the rows from k on. */
  lemma BeyondSuffix(rows: seq<SlotRow>, k: nat)
    requires Ascending(rows) && 0 < k <= |rows|
    ensures Filter(rows, Beyond(Some(rows[k - 1].slot))) == rows[k..]
  {
    hide Filter;
    FilterSplit(rows[..k], rows[k..], rows[k - 1].slot);
    assert rows[..k] + rows[k..] == rows;
  }

  /** The cursor points into the rows: k of them have been read. */
  ghost predicate Reads(rows: seq<SlotRow>, cursor: Option<Token>, k: nat) {
    k <= |rows| && Remaining(rows, cursor) == rows[k..]
  }

  /** What the storage table guarantees of an account's rows in key order. */
  ghost predicate Pageable(rows: seq<SlotRow>) {
    Ascending(rows) && forall i :: 0 <= i < |rows| ==> rows[i].slot < WORD
  }

  /** The page holds the rows from k on, and its cursor points behind them; it is empty only
      when nothing follows. */
  ghost predicate Advances(rows: seq<SlotRow>, snapshot: nat, account: Account, page: Page, k: nat) {
    var n := k + |page.storage|;
    && n <= |rows| && page.storage == rows[k..n]
    && if page.next.None? then n == |rows|
       else n > k && Accepts(snapshot, account, page.next) && Reads(rows, page.next, n)
  }

  /** A page holds exactly the next rows, as many as the limit allows. */
  lemma PageAdvances(rows: seq<SlotRow>, snapshot: nat, account: Account, cursor: Option<Token>, limit: nat, k: nat)
    requires Pageable(rows) && ReadPage(rows, snapshot, account, cursor, limit).Ok? && Reads(rows, cursor, k)
    ensures Advances(rows, snapshot, account, ReadPage(rows, snapshot, account, cursor, limit).value, k)
    ensures |ReadPage(rows, snapshot, account, cursor, limit).value.storage|
            == if |rows| - k <= limit then |rows| - k else limit
    ensures ReadPage(rows, snapshot, account, cursor, limit).value.next.Some? <==> |rows| - k > limit
  {
    hide Filter;
    var page := ReadPage(rows, snapshot, account, cursor, limit).value;
    var n := |page.storage|;
    assert page.storage == rows[k..k + n];
    if page.next.Some? {
      assert page.storage[n - 1] == rows[k + n - 1];
      BeyondSuffix(rows, k + n);
    }
  }

  lemma {:induction false} Within(rows: seq<SlotRow>, p: SlotRow -> bool, i: nat)
    requires i < |Filter(rows, p)|
    ensures Filter(rows, p)[i] in rows
  {
    FilterMember(rows, p, Filter(rows, p)[i]);
  }

  /** The cursor that a page hands out is accepted with every valid limit for the checkpoint and
      account it was issued for, and for no other, whatever is stored there. */
  lemma CursorsAreBound(rows: seq<SlotRow>, snapshot: nat, account: Account, cursor: Option<Token>, limit: nat,
                        others: seq<SlotRow>, checkpoint: nat, other: Account, next: nat)
    requires Pageable(rows) && ReadPage(rows, snapshot, account, cursor, limit).Ok?
    requires ReadPage(rows, snapshot, account, cursor, limit).value.next.Some? && 1 <= next <= MAX_ROWS
    ensures ReadPage(others, checkpoint, other, ReadPage(rows, snapshot, account, cursor, limit).value.next, next).Ok?
            <==> checkpoint == snapshot && other == account
  {
    var page := ReadPage(rows, snapshot, account, cursor, limit).value;
    var last := |page.storage| - 1;
    Within(rows, Beyond(if cursor.Some? && cursor.value.Cursor? then Some(cursor.value.after) else None), last);
    assert page.storage[last] == Remaining(rows, cursor)[last];
  }

  ghost predicate Limits(limits: nat -> nat) {
    forall i :: 1 <= limits(i) <= MAX_ROWS
  }

  /** A client that follows next_cursor: each page is read with the cursor of the one before. */
  ghost predicate Followed(rows: seq<SlotRow>, snapshot: nat, account: Account, limits: nat -> nat, pages: seq<Page>)
    decreases |pages|
  {
    pages == []
    || (var front, last := pages[..|pages| - 1], pages[|pages| - 1];
        && Followed(rows, snapshot, account, limits, front) && More(front)
        && ReadPage(rows, snapshot, account, Position(front), limits(|front|)) == Ok(last))
  }

  /** The cursor the client holds after these pages. */
  function Position(pages: seq<Page>): Option<Token> {
    if pages == [] then None else pages[|pages| - 1].next
  }

  predicate More(pages: seq<Page>) {
    pages == [] || pages[|pages| - 1].next.Some?
  }

  function AllRows(pages: seq<Page>): seq<SlotRow> {
    if pages == [] then [] else AllRows(pages[..|pages| - 1]) + pages[|pages| - 1].storage
  }

  /** What the client has read so far: the first k rows, or everything once no cursor is left. */
  ghost predicate ReadSoFar(rows: seq<SlotRow>, snapshot: nat, account: Account, pages: seq<Page>) {
    var k := |AllRows(pages)|;
    && k <= |rows| && AllRows(pages) == rows[..k]
    && if More(pages) then
         k >= |pages| && Accepts(snapshot, account, Position(pages)) && Reads(rows, Position(pages), k)
       else k == |rows|
  }

  lemma ReadOn(rows: seq<SlotRow>, snapshot: nat, account: Account, front: seq<Page>, page: Page)
    requires ReadSoFar(rows, snapshot, account, front) && More(front)
             && Advances(rows, snapshot, account, page, |AllRows(front)|)
    ensures ReadSoFar(rows, snapshot, account, front + [page])
  {
    var k := |AllRows(front)|;
    assert (front + [page])[..|front|] == front;
    assert rows[..k] + rows[k..k + |page.storage|] == rows[..k + |page.storage|];
  }

  lemma {:induction false} FollowedReads(rows: seq<SlotRow>, snapshot: nat, account: Account, limits: nat -> nat,
                                         pages: seq<Page>)
    requires Pageable(rows) && Followed(rows, snapshot, account, limits, pages)
    ensures ReadSoFar(rows, snapshot, account, pages)
    decreases |pages|
  {
    hide ReadPage, Filter;
    if pages == [] {
      KeepAll(rows, None);
    } else {
      var front, last := pages[..|pages| - 1], pages[|pages| - 1];
      FollowedReads(rows, snapshot, account, limits, front);
      PageAdvances(rows, snapshot, account, Position(front), limits(|front|), |AllRows(front)|);
      ReadOn(rows, snapshot, account, front, last);
      assert pages == front + [last];
    }
  }

  lemma NextPage(rows: seq<SlotRow>, snapshot: nat, account: Account, limits: nat -> nat, front: seq<Page>)
    returns (pages: seq<Page>)
    requires Limits(limits) && Followed(rows, snapshot, account, limits, front) && More(front)
    requires ReadSoFar(rows, snapshot, account, front)
    ensures Followed(rows, snapshot, account, limits, pages) && |pages| == |front| + 1
  {
    var page := ReadPage(rows, snapshot, account, Position(front), limits(|front|)).value;
    pages := front + [page];
    assert pages[..|pages| - 1] == front;
  }

  /** The client always gets to the end, within one page more than there are rows. */
  lemma {:induction false} FollowingEnds(rows: seq<SlotRow>, snapshot: nat, account: Account, limits: nat -> nat,
                                         front: seq<Page>)
    returns (pages: seq<Page>)
    requires Pageable(rows) && Limits(limits) && Followed(rows, snapshot, account, limits, front)
             && |front| <= |rows| + 1
    ensures Followed(rows, snapshot, account, limits, pages) && !More(pages) && |pages| <= |rows| + 1
    decreases |rows| + 1 - |front|
  {
    if More(front) {
      FollowedReads(rows, snapshot, account, limits, front);
      var next := NextPage(rows, snapshot, account, limits, front);
      pages := FollowingEnds(rows, snapshot, account, limits, next);
    } else {
      pages := front;
    }
  }

  /** Pagination ends and yields every slot of the account once, in order, whatever the limits. */
  lemma PaginationReadsEverything(rows: seq<SlotRow>, snapshot: nat, account: Account, limits: nat -> nat)
    requires Pageable(rows) && Limits(limits)
    ensures exists pages :: Followed(rows, snapshot, account, limits, pages) && !More(pages) && |pages| <= |rows| + 1
    ensures forall pages :: Followed(rows, snapshot, account, limits, pages) && !More(pages) ==> AllRows(pages) == rows
  {
    var pages := FollowingEnds(rows, snapshot, account, limits, []);
    forall pages | Followed(rows, snapshot, account, limits, pages) && !More(pages) ensures AllRows(pages) == rows {
      FollowedReads(rows, snapshot, account, limits, pages);
    }
  }

  // ---------------------------------------------------------------- export pages

  /** A page file and the layout entry that describes it. */
  datatype PageFile = PageFile(index: nat, account: Account, count: nat, first: nat, last: nat, content: seq<SlotRow>)

  function FileOf(index: nat, account: Account, rows: seq<SlotRow>): PageFile
    requires rows != []
  {
    PageFile(index, account, |rows|, rows[0].slot, rows[|rows| - 1].slot, rows)
  }

  function Flatten(pages: seq<PageFile>): seq<SlotRow> {
    if pages == [] then [] else Flatten(pages[..|pages| - 1]) + pages[|pages| - 1].content
  }

  function Of(account: Account): PageFile -> bool {
    (p: PageFile) => p.account == account
  }

  /** The rows that a list of pages holds for an account, in page order. */
  function Contents(pages: seq<PageFile>, account: Account): seq<SlotRow> {
    Flatten(Filter(pages, Of(account)))
  }

  ghost predicate GoodPage(p: PageFile) {
    && 1 <= p.count <= 10_000 && p.index < 1_000_000 && |p.content| == p.count
    && p.first == p.content[0].slot && p.last == p.content[|p.content| - 1].slot
    && GoodRows(p, |p.content|)
  }

  ghost predicate GoodRows(p: PageFile, n: nat)
    requires n <= |p.content|
  {
    && (forall i :: 0 <= i < n ==>
          p.content[i].account == p.account && p.content[i].slot < WORD && p.content[i].value < WORD)
    && (forall i :: 0 < i < n ==> p.content[i - 1].slot < p.content[i].slot)
  }

  /** Numbered from zero, accounts known and in order. */
  ghost predicate Sequenced(accounts: seq<Account>, pages: seq<PageFile>) {
    forall i :: 0 <= i < |pages| ==> InSequence(accounts, pages, i)
  }

  predicate InSequence(accounts: seq<Account>, pages: seq<PageFile>, i: nat)
    requires i < |pages|
  {
    pages[i].index == i && pages[i].account in accounts && (i > 0 ==> pages[i - 1].account <= pages[i].account)
  }

  ghost predicate ValidPages(accounts: seq<Account>, pages: seq<PageFile>) {
    && Sequenced(accounts, pages)
    && (forall i :: 0 <= i < |pages| ==> GoodPage(pages[i]))
    && (forall a :: a in accounts ==> Ascending(Contents(pages, a)))
  }

  // ---------------------------------------------------------------- writing

  /** Full pages and pending rows after n rows. */
  function Cut(n: nat, size: nat): (r: (nat, nat))
    requires size > 0
    ensures r.1 < size
  {
    if n == 0 then (0, 0)
    else
      var (full, pending) := Cut(n - 1, size);
      if pending + 1 == size then (full + 1, 0) else (full, pending + 1)
  }

  /** How many pages n rows of one account fill. */
  function Pages(n: nat, size: nat): nat
    requires size > 0
  {
    Cut(n, size).0 + if Cut(n, size).1 > 0 then 1 else 0
  }

  lemma {:induction false} CutGrows(i: nat, n: nat, size: nat)
    requires size > 0 && i <= n
    ensures Cut(i, size).0 <= Cut(n, size).0
  {
    if i < n { CutGrows(i, n - 1, size); }
  }

  lemma {:induction false} CutCounts(n: nat, size: nat)
    requires size > 0
    ensures Cut(n, size).0 * size + Cut(n, size).1 == n
  {
    if n > 0 {
      CutCounts(n - 1, size);
      var full := Cut(n - 1, size).0;
      assert (full + 1) * size == full * size + size;
    }
  }

  /** The page count is the number of rows divided by the page size, rounded up. */
  lemma PagesRoundUp(n: nat, size: nat)
    requires size > 0
    ensures Pages(n, size) == n / size + if n % size > 0 then 1 else 0
  {
    CutCounts(n, size);
    Quotient(Cut(n, size).0, Cut(n, size).1, size);
  }

  function AllPages(accounts: seq<Account>, slots: map<Account, seq<SlotRow>>, size: nat): nat
    requires size > 0 && forall a :: a in accounts ==> a in slots
  {
    if accounts == [] then 0
    else AllPages(accounts[..|accounts| - 1], slots, size) + Pages(|slots[accounts[|accounts| - 1]]|, size)
  }

  /** The rows the storage table holds for an account. */
  ghost predicate StoredRows(account: Account, rows: seq<SlotRow>) {
    Ascending(rows) && forall i :: 0 <= i < |rows| ==>
      rows[i].account == account && rows[i].slot < WORD && rows[i].value < WORD
  }

  lemma MultiplesOrder(a: nat, b: nat, size: nat)
    requires a * size < b * size
    ensures a < b
  {
  }

  lemma Quotient(full: nat, rest: nat, size: nat)
    requires rest < size
    ensures (full * size + rest) / size == full && (full * size + rest) % size == rest
  {
    var n := full * size + rest;
    var q := n / size;
    assert q * size <= n < (q + 1) * size;
    MultiplesOrder(q, full + 1, size);
    MultiplesOrder(full, q + 1, size);
  }

  /** New pages of one account at the end of the list, numbered on. */
  ghost predicate Appends(before: seq<PageFile>, pages: seq<PageFile>, account: Account) {
    && |before| <= |pages| && pages[..|before|] == before
    && forall i :: |before| <= i < |pages| ==> pages[i].index == i && pages[i].account == account && GoodPage(pages[i])
  }

  lemma GoodSlice(account: Account, rows: seq<SlotRow>, index: nat, from: nat, to: nat)
    requires StoredRows(account, rows) && from < to <= |rows| && to - from <= MAX_ROWS && index < MAX_PAGES
    ensures GoodPage(FileOf(index, account, rows[from..to]))
  {
  }

  lemma FlattenAppend(pages: seq<PageFile>, p: PageFile)
    ensures Flatten(pages + [p]) == Flatten(pages) + p.content
  {
    assert (pages + [p])[..|pages|] == pages;
  }

  /** The rows before `done` are in the new pages. */
  ghost predicate Written(before: seq<PageFile>, pages: seq<PageFile>, account: Account, rows: seq<SlotRow>,
                          done: nat) {
    Appends(before, pages, account) && done <= |rows| && Flatten(pages[|before|..]) == rows[..done]
  }

  lemma PageWritten(before: seq<PageFile>, pages: seq<PageFile>, account: Account, rows: seq<SlotRow>, done: nat,
                    to: nat)
    requires Written(before, pages, account, rows, done) && StoredRows(account, rows) && |pages| < MAX_PAGES
    requires done < to <= |rows| && to - done <= MAX_ROWS
    ensures Written(before, pages + [FileOf(|pages|, account, rows[done..to])], account, rows, to)
  {
    hide Flatten, GoodPage, StoredRows;
    var file := FileOf(|pages|, account, rows[done..to]);
    GoodSlice(account, rows, |pages|, done, to);
    FlattenAppend(pages[|before|..], file);
    assert (pages + [file])[|before|..] == pages[|before|..] + [file];
    assert rows[..done] + rows[done..to] == rows[..to];
  }

  /** Appends the pending rows as the next page, unless the page index is used up. */
  method WritePage(ghost before: seq<PageFile>, pages: seq<PageFile>, account: Account, ghost rows: seq<SlotRow>,
                   pending: seq<SlotRow>, ghost done: nat, ghost to: nat) returns (r: Result<seq<PageFile>>)
    requires Written(before, pages, account, rows, done) && StoredRows(account, rows)
    requires done < to <= |rows| && to - done <= MAX_ROWS && pending == rows[done..to]
    ensures r.Ok? <==> |pages| < MAX_PAGES
    ensures r.Ok? ==> Written(before, r.value, account, rows, to) && |r.value| == |pages| + 1
  {
    if |pages| >= MAX_PAGES { return Err("invalid export page index or empty page"); }
    PageWritten(before, pages, account, rows, done, to);
    return Ok(pages + [FileOf(|pages|, account, pending)]);
  }

  lemma WrittenNone(before: seq<PageFile>, account: Account, rows: seq<SlotRow>)
    ensures Written(before, before, account, rows, 0)
  {
  }

  /** Writes the rows of one account as full pages and a last shorter one. */
  method WriteAccount(before: seq<PageFile>, account: Account, rows: seq<SlotRow>, size: nat)
    returns (r: Result<seq<PageFile>>)
    requires 1 <= size <= MAX_ROWS && StoredRows(account, rows) && |before| <= MAX_PAGES
    ensures r.Ok? <==> |before| + Pages(|rows|, size) <= 1_000_000
    ensures r.Ok? ==> Written(before, r.value, account, rows, |rows|) && |r.value| == |before| + Pages(|rows|, size)
  {
    hide Written;
    var pages, pending := before, [];
    ghost var done := 0;
    WrittenNone(before, account, rows);
    for i := 0 to |rows|
      invariant Written(before, pages, account, rows, done) && |pages| <= MAX_PAGES
      invariant |pending| < size && done + |pending| == i && pending == rows[done..i]
      invariant Cut(i, size) == (|pages| - |before|, |pending|)
    {
      pending := pending + [rows[i]];
      assert pending == rows[done..i + 1];
      CutGrows(i + 1, |rows|, size);
      if |pending| == size {
        var written := WritePage(before, pages, account, rows, pending, done, i + 1);
        if written.Err? { return Err(written.reason); }
        pages, pending := written.value, [];
        done := i + 1;
      }
    }
    if pending != [] {
      var written := WritePage(before, pages, account, rows, pending, done, |rows|);
      if written.Err? { return Err(written.reason); }
      pages := written.value;
    }
    return Ok(pages);
  }

  lemma {:induction false} FilterAllOf(pages: seq<PageFile>, account: Account)
    requires forall i :: 0 <= i < |pages| ==> pages[i].account == account
    ensures Filter(pages, Of(account)) == pages
  {
    if pages != [] {
      FilterAllOf(pages[..|pages| - 1], account);
      assert pages == pages[..|pages| - 1] + [pages[|pages| - 1]];
    }
  }

  lemma {:induction false} FilterNoneOf(pages: seq<PageFile>, account: Account)
    requires forall i :: 0 <= i < |pages| ==> pages[i].account != account
    ensures Filter(pages, Of(account)) == []
  {
    if pages != [] { FilterNoneOf(pages[..|pages| - 1], account); }
  }

  /** New pages of one account change the contents of no other. */
  lemma ContentsAppended(before: seq<PageFile>, pages: seq<PageFile>, account: Account, other: Account)
    requires Appends(before, pages, account) && forall i :: 0 <= i < |before| ==> before[i].account != account
    ensures Contents(pages, account) == Flatten(pages[|before|..])
    ensures other != account ==> Contents(pages, other) == Contents(before, other)
  {
    var tail := pages[|before|..];
    assert pages == before + tail;
    FilterConcat(before, tail, Of(account));
    FilterNoneOf(before, account);
    FilterAllOf(tail, account);
    assert [] + tail == tail;
    if other != account {
      FilterConcat(before, tail, Of(other));
      FilterNoneOf(tail, other);
      assert Filter(before, Of(other)) + [] == Filter(before, Of(other));
    }
  }

  ghost predicate Sorted(accounts: seq<Account>) {
    forall i, j :: 0 <= i < j < |accounts| ==> accounts[i] < accounts[j]
  }

  ghost predicate Stored(accounts: seq<Account>, slots: map<Account, seq<SlotRow>>) {
    forall a :: a in accounts ==> a in slots && StoredRows(a, slots[a])
  }

  /** The pages so far hold exactly the rows of these accounts. */
  ghost predicate Exported(accounts: seq<Account>, slots: map<Account, seq<SlotRow>>, pages: seq<PageFile>)
    requires Stored(accounts, slots)
  {
    && Sequenced(accounts, pages) && (forall i :: 0 <= i < |pages| ==> GoodPage(pages[i]))
    && forall a :: a in accounts ==> Contents(pages, a) == slots[a]
  }

  lemma AppendedSequence(front: seq<Account>, account: Account, before: seq<PageFile>, pages: seq<PageFile>)
    requires Sequenced(front, before) && Appends(before, pages, account)
             && (forall i :: 0 <= i < |before| ==> GoodPage(before[i]))
    requires forall a :: a in front ==> a < account
    ensures Sequenced(front + [account], pages) && forall i :: 0 <= i < |pages| ==> GoodPage(pages[i])
  {
    assert forall i :: 0 <= i < |before| ==> pages[..|before|][i] == before[i];
    forall i | 0 <= i < |pages| ensures InSequence(front + [account], pages, i) {
      if i < |before| { assert InSequence(front, before, i); }
      else if i == |before| && i > 0 { assert InSequence(front, before, i - 1); }
    }
  }

  lemma AccountExported(front: seq<Account>, account: Account, slots: map<Account, seq<SlotRow>>, before: seq<PageFile>,
                        pages: seq<PageFile>)
    requires Stored(front + [account], slots) && Stored(front, slots) && Exported(front, slots, before)
    requires forall a :: a in front ==> a < account
    requires Written(before, pages, account, slots[account], |slots[account]|)
    ensures Exported(front + [account], slots, pages)
  {
    AppendedSequence(front, account, before, pages);
    forall i | 0 <= i < |before| ensures before[i].account != account { assert InSequence(front, before, i); }
    forall a | a in front + [account] ensures Contents(pages, a) == slots[a] {
      ContentsAppended(before, pages, account, a);
    }
  }

  lemma {:induction false} AllPagesGrow(accounts: seq<Account>, slots: map<Account, seq<SlotRow>>, size: nat, i: nat)
    requires size > 0 && i <= |accounts| && forall a :: a in accounts ==> a in slots
    ensures AllPages(accounts[..i], slots, size) <= AllPages(accounts, slots, size)
    decreases |accounts|
  {
    if i < |accounts| {
      AllPagesGrow(accounts[..|accounts| - 1], slots, size, i);
      assert accounts[..|accounts| - 1][..i] == accounts[..i];
    } else {
      assert accounts[..i] == accounts;
    }
  }

  lemma ExportedIsValid(accounts: seq<Account>, slots: map<Account, seq<SlotRow>>, pages: seq<PageFile>)
    requires Stored(accounts, slots) && Exported(accounts, slots, pages)
    ensures ValidPages(accounts, pages)
  {
  }

  /** Exports the accounts in order. What it writes passes every check of the verifier, and the
      pages of each account put together are that account's rows. It fails exactly for a bad
      page size or when more than a million pages would be needed. */
  method ExportPages(accounts: seq<Account>, slots: map<Account, seq<SlotRow>>, size: nat)
    returns (r: Result<seq<PageFile>>)
    requires Sorted(accounts) && Stored(accounts, slots)
    ensures r.Ok? <==> 1 <= size <= 10_000 && AllPages(accounts, slots, size) <= 1_000_000
    ensures r.Ok? ==> ValidPages(accounts, r.value)
    ensures r.Ok? ==> forall a :: a in accounts ==> Contents(r.value, a) == slots[a]
  {
    if !(1 <= size <= MAX_ROWS) { return Err("export page_size must be between 1 and 10000"); }
    var pages := [];
    for i := 0 to |accounts|
      invariant Stored(accounts[..i], slots) && Exported(accounts[..i], slots, pages)
      invariant |pages| == AllPages(accounts[..i], slots, size) <= MAX_PAGES
    {
      var account := accounts[i];
      var written := WriteAccount(pages, account, slots[account], size);
      ghost var front, more := accounts[..i], accounts[..i + 1];
      assert more == front + [account] && more[..i] == front;
      AllPagesGrow(accounts, slots, size, i + 1);
      if written.Err? { return Err(written.reason); }
      AccountExported(front, account, slots, pages, written.value);
      pages := written.value;
    }
    assert accounts[..|accounts|] == accounts;
    ExportedIsValid(accounts, slots, pages);
    return Ok(pages);
  }

  // ---------------------------------------------------------------- verifying

  /** Reads a page file row by row and compares it with its layout entry at the end. */
  class PageReader {
    const page: PageFile
    var count: nat
    var first: Option<nat>
    var last: Option<nat>

    constructor (page: PageFile)
      ensures Valid() && this.page == page && count == 0
    {
      this.page := page;
      count, first, last := 0, None, None;
    }

    ghost predicate Valid()
      reads this
    {
      && count <= |page.content| && count <= page.count && GoodRows(page, count)
      && first == (if count == 0 then None else Some(page.content[0].slot))
      && last == (if count == 0 then None else Some(page.content[count - 1].slot))
    }

    /** The next row, or nothing once the whole page has matched its entry. */
    method ReadNext() returns (r: Result<Option<SlotRow>>)
      requires Valid()
      modifies this
      ensures r.Ok? && r.value.Some? ==> Valid() && count == old(count) + 1 && r.value.value == page.content[old(count)]
      ensures r.Ok? && r.value.None? ==>
              Valid() && count == old(count) == |page.content| == page.count && MatchesEnds(page)
      ensures r.Err? ==> !GoodPage(page)
    {
      if count == |page.content| {
        if count != page.count || first != Some(page.first) || last != Some(page.last) {
          return Err("export page count or boundary mismatch");
        }
        return Ok(None);
      }
      var row := page.content[count];
      if row.account != page.account { return Err("export row has unexpected fields or account"); }
      if row.slot >= WORD || row.value >= WORD { return Err("expected 32 bytes"); }
      if last.Some? && row.slot <= last.value { return Err("export page contains duplicate or unordered slots"); }
      if first.None? { first := Some(row.slot); }
      last, count := Some(row.slot), count + 1;
      if count > page.count { return Err("export page exceeds its declared row count"); }
      return Ok(Some(row));
    }
  }

  predicate MatchesEnds(p: PageFile) {
    p.content != [] && p.first == p.content[0].slot && p.last == p.content[|p.content| - 1].slot
  }

  lemma AscendingMore(rows: seq<SlotRow>, row: SlotRow)
    ensures Ascending(rows + [row]) <==> Ascending(rows) && (rows == [] || rows[|rows| - 1].slot < row.slot)
  {
    var more := rows + [row];
    if Ascending(more) {
      forall i, j | 0 <= i < j < |rows| ensures rows[i].slot < rows[j].slot {
        assert more[i] == rows[i] && more[j] == rows[j];
      }
      if rows != [] { assert more[|rows| - 1].slot < more[|rows|].slot; }
    }
  }

  lemma AscendingPart(rows: seq<SlotRow>, n: nat)
    requires n <= |rows|
    ensures Ascending(rows) ==> Ascending(rows[..n])
  {
  }

  /** Reads one page behind the rows already read for its account. Succeeds exactly when the
      page is good and continues them in order. */
  method ReadPageFile(p: PageFile, before: seq<SlotRow>) returns (r: Result<seq<SlotRow>>)
    requires Ascending(before)
    ensures r.Ok? <==> GoodPage(p) && Ascending(before + p.content)
    ensures r.Ok? ==> r.value == before + p.content
  {
    if p.index >= MAX_PAGES { return Err("invalid checkpoint export filename"); }
    if !(1 <= p.count <= MAX_ROWS) { return Err("invalid export page row count"); }
    var reader := new PageReader(p);
    var rows := before;
    while true
      invariant reader.Valid() && reader.page == p
      invariant rows == before + p.content[..reader.count] && Ascending(rows)
      decreases |p.content| - reader.count
    {
      var n := reader.count;
      var next := reader.ReadNext();
      if next.Err? { return Err(next.reason); }
      if next.value.None? { break; }
      var row := next.value.value;
      assert p.content[..n + 1] == p.content[..n] + [row];
      AscendingMore(rows, row);
      if rows != [] && row.slot <= rows[|rows| - 1].slot {
        assert before + p.content[..n + 1] == rows + [row];
        NotAscending(before, p.content, n + 1);
        return Err("duplicate or unordered slots across export pages");
      }
      rows := rows + [row];
    }
    assert p.content[..|p.content|] == p.content;
    return Ok(rows);
  }

  lemma NotAscending(before: seq<SlotRow>, content: seq<SlotRow>, n: nat)
    requires n <= |content| && !Ascending(before + content[..n])
    ensures !Ascending(before + content)
  {
    var all := before + content;
    assert all[..|before| + n] == before + content[..n];
    AscendingPart(all, |before| + n);
  }

  ghost predicate AllGood(pages: seq<PageFile>) {
    forall i :: 0 <= i < |pages| ==> GoodPage(pages[i])
  }

  lemma {:induction false} FlattenPrefix(pages: seq<PageFile>, n: nat)
    requires n <= |pages|
    ensures |Flatten(pages[..n])| <= |Flatten(pages)| && Flatten(pages)[..|Flatten(pages[..n])|] == Flatten(pages[..n])
    decreases |pages|
  {
    if n < |pages| {
      FlattenPrefix(pages[..|pages| - 1], n);
      assert pages[..|pages| - 1][..n] == pages[..n];
    } else {
      assert pages[..n] == pages;
    }
  }

  /** Reads the pages of one account in turn. */
  method ReadAccount(group: seq<PageFile>) returns (r: Result<seq<SlotRow>>)
    ensures r.Ok? <==> AllGood(group) && Ascending(Flatten(group))
    ensures r.Ok? ==> r.value == Flatten(group)
  {
    var rows := [];
    for k := 0 to |group|
      invariant AllGood(group[..k]) && rows == Flatten(group[..k]) && Ascending(rows)
    {
      var read := ReadPageFile(group[k], rows);
      assert group[..k + 1] == group[..k] + [group[k]];
      FlattenAppend(group[..k], group[k]);
      if read.Err? {
        FlattenPrefix(group, k + 1);
        AscendingPart(Flatten(group), |Flatten(group[..k + 1])|);
        return Err(read.reason);
      }
      rows := read.value;
    }
    assert group[..|group|] == group;
    return Ok(rows);
  }

  ghost predicate Grouped(accounts: seq<Account>, pages: seq<PageFile>, groups: map<Account, seq<PageFile>>) {
    (forall a :: a in groups <==> a in accounts) && forall a :: a in groups ==> groups[a] == Filter(pages, Of(a))
  }

  lemma GroupMore(accounts: seq<Account>, pages: seq<PageFile>, groups: map<Account, seq<PageFile>>, item: PageFile)
    requires Grouped(accounts, pages, groups) && item.account in groups
    ensures Grouped(accounts, pages + [item], groups[item.account := groups[item.account] + [item]])
  {
    forall a | a in groups
      ensures Filter(pages + [item], Of(a)) == if a == item.account then groups[a] + [item] else groups[a]
    {
      FilterAppend(pages, item, Of(a));
    }
  }

  lemma GroupNone(accounts: seq<Account>, groups: map<Account, seq<PageFile>>)
    requires groups == map a | a in accounts :: []
    ensures Grouped(accounts, [], groups)
  {
  }

  /** Groups the layout entries by account, checking numbering, accounts and their order. */
  method GroupPages(accounts: seq<Account>, pages: seq<PageFile>) returns (r: Result<map<Account, seq<PageFile>>>)
    ensures r.Ok? <==> Sequenced(accounts, pages)
    ensures r.Ok? ==> Grouped(accounts, pages, r.value)
  {
    hide Filter;
    var groups: map<Account, seq<PageFile>> := map a | a in accounts :: [];
    GroupNone(accounts, groups);
    for i := 0 to |pages|
      invariant forall j :: 0 <= j < i ==> InSequence(accounts, pages, j)
      invariant Grouped(accounts, pages[..i], groups)
    {
      var item := pages[i];
      if item.index != i || item.account !in groups || (i > 0 && item.account < pages[i - 1].account) {
        assert !InSequence(accounts, pages, i);
        return Err("export page sequence or account is invalid");
      }
      GroupMore(accounts, pages[..i], groups, item);
      assert pages[..i + 1] == pages[..i] + [item];
      groups := groups[item.account := groups[item.account] + [item]];
    }
    assert pages[..|pages|] == pages;
    return Ok(groups);
  }

  ghost predicate AccountGood(pages: seq<PageFile>, a: Account) {
    AllGood(Filter(pages, Of(a))) && Ascending(Contents(pages, a))
  }

  /** Valid pages are a valid sequence of entries whose every account reads well. */
  lemma ValidByAccount(accounts: seq<Account>, pages: seq<PageFile>)
    requires Sequenced(accounts, pages)
    ensures ValidPages(accounts, pages) <==> Accounts(pages, accounts, |accounts|)
  {
    if ValidPages(accounts, pages) {
      forall a | a in accounts ensures AccountGood(pages, a) {
        var group := Filter(pages, Of(a));
        forall i | 0 <= i < |group| ensures GoodPage(group[i]) { FilterMember(pages, Of(a), group[i]); }
      }
    }
    if Accounts(pages, accounts, |accounts|) {
      forall i | 0 <= i < |pages| ensures GoodPage(pages[i]) {
        assert InSequence(accounts, pages, i);
        FilterMember(pages, Of(pages[i].account), pages[i]);
        assert AccountGood(pages, pages[i].account);
      }
      forall a | a in accounts ensures Ascending(Contents(pages, a)) { assert AccountGood(pages, a); }
    }
  }

  /** Rows read back for some accounts. */
  ghost predicate ReadBack(accounts: seq<Account>, pages: seq<PageFile>, result: map<Account, seq<SlotRow>>) {
    forall a :: a in accounts ==> a in result && result[a] == Contents(pages, a)
  }

  lemma ReadBackMore(accounts: seq<Account>, i: nat, pages: seq<PageFile>, result: map<Account, seq<SlotRow>>)
    requires i < |accounts| && ReadBack(accounts[..i], pages, result)
    ensures ReadBack(accounts[..i + 1], pages, result[accounts[i] := Contents(pages, accounts[i])])
  {
  }

  method ReadGroup(pages: seq<PageFile>, account: Account, group: seq<PageFile>) returns (r: Result<seq<SlotRow>>)
    requires group == Filter(pages, Of(account))
    ensures r.Ok? <==> AccountGood(pages, account)
    ensures r.Ok? ==> r.value == Contents(pages, account)
  {
    r := ReadAccount(group);
  }

  ghost predicate Accounts(pages: seq<PageFile>, accounts: seq<Account>, n: nat)
    requires n <= |accounts|
  {
    forall j :: 0 <= j < n ==> AccountGood(pages, accounts[j])
  }

  method ReadGroups(accounts: seq<Account>, pages: seq<PageFile>, groups: map<Account, seq<PageFile>>)
    returns (r: Result<map<Account, seq<SlotRow>>>)
    requires Grouped(accounts, pages, groups)
    ensures r.Ok? <==> Accounts(pages, accounts, |accounts|)
    ensures r.Ok? ==> ReadBack(accounts, pages, r.value)
  {
    var result: map<Account, seq<SlotRow>> := map[];
    for i := 0 to |accounts|
      invariant Accounts(pages, accounts, i)
      invariant ReadBack(accounts[..i], pages, result)
    {
      var account := accounts[i];
      var read := ReadGroup(pages, account, groups[account]);
      if read.Err? { return Err(read.reason); }
      ReadBackMore(accounts, i, pages, result);
      result := result[account := read.value];
    }
    assert accounts[..|accounts|] == accounts;
    return Ok(result);
  }

  /** Accepts exactly the valid layouts, and reads back each account's rows in order. */
  method VerifyPages(accounts: seq<Account>, pages: seq<PageFile>) returns (r: Result<map<Account, seq<SlotRow>>>)
    ensures r.Ok? <==> ValidPages(accounts, pages)
    ensures r.Ok? ==> ReadBack(accounts, pages, r.value)
  {
    var groups :- GroupPages(accounts, pages);
    ValidByAccount(accounts, pages);
    r := ReadGroups(accounts, pages, groups);
  }

  /** Export and verification together: what was exported is accepted and read back whole. */
  method RoundTrip(accounts: seq<Account>, slots: map<Account, seq<SlotRow>>, size: nat)
    returns (r: Result<map<Account, seq<SlotRow>>>)
    requires Sorted(accounts) && Stored(accounts, slots)
    ensures r.Ok? <==> 1 <= size <= 10_000 && AllPages(accounts, slots, size) <= 1_000_000
    ensures r.Ok? ==> forall a :: a in accounts ==> a in r.value && r.value[a] == slots[a]
  {
    var pages :- ExportPages(accounts, slots, size);
    r := VerifyPages(accounts, pages);
  }
}

/** The collector's output said of the block itself: which positions of its call lists and block
    lists survive, and in what order the output lists hold them. */
module Survival {
  import opened Words
  import opened Sequences
  import opened Trace
  import opened Persist

  // ---------------------------------------------------------------- positions

  /** A position in one of the four lists of a call. */
  datatype Site = Site(call: nat, kind: Kind, at: nat)

  /** A position in a block. */
  datatype Place = InSystem(site: Site) | InBlock(kind: Kind, at: nat) | InTransaction(tx: nat, site: Site)

  function ListIn(call: Call, kind: Kind): seq<Change> {
    match kind
    case StorageKind => call.storageChanges
    case BalanceKind => call.balanceChanges
    case NonceKind => call.nonceChanges
    case CodeKind => call.codeChanges
  }

  predicate Listed(calls: seq<Call>, s: Site) {
    s.call < |calls| && s.at < |ListIn(calls[s.call], s.kind)|
  }

  function RecordIn(calls: seq<Call>, s: Site): Change
    requires Listed(calls, s)
  {
    ListIn(calls[s.call], s.kind)[s.at]
  }

  /** An accepted authority: named by an authorization of a set-code transaction that was not
      discarded. */
  predicate Authorizes(tx: Transaction, a: Address) {
    && tx.setCode && a != []
    && exists i :: 0 <= i < |tx.authorizations| && !tx.authorizations[i].discarded
                   && tx.authorizations[i].authority == Some(a)
  }

  /** The record counts the sender's nonce up from the transaction's nonce. */
  predicate Increments(tx: Transaction, c: Change) {
    && c.NonceChange? && c.ordinal > 0 && c.address == tx.from
    && c.oldNonce == tx.nonce < 0xffff_ffff_ffff_ffff && c.newNonce == c.oldNonce + 1
  }

  /** Position at of the nonces holds the first increment of smallest ordinal. */
  predicate FirstIncrement(tx: Transaction, nonces: seq<Change>, at: nat) {
    && at < |nonces| && Increments(tx, nonces[at])
    && forall j :: 0 <= j < |nonces| && Increments(tx, nonces[j]) ==>
       nonces[at].ordinal < nonces[j].ordinal || (nonces[at].ordinal == nonces[j].ordinal && at <= j)
  }

  /** An authorization takes effect before the root call begins. */
  predicate BeforeRoot(tx: Transaction, root: Call, c: Change) {
    0 < c.ordinal < root.beginOrdinal && Authorizes(tx, c.address)
  }

  /** What survives of the root call of a transaction that did not succeed. */
  predicate SurvivesFailure(tx: Transaction, root: Call, kind: Kind, at: nat)
    requires at < |ListIn(root, kind)|
  {
    match kind
    case StorageKind => false
    case BalanceKind =>
      var reason := root.balanceChanges[at].reason;
      reason == GasBuy || reason == GasRefund || reason == RewardTransactionFee
    case NonceKind => FirstIncrement(tx, root.nonceChanges, at) || BeforeRoot(tx, root, root.nonceChanges[at])
    case CodeKind => BeforeRoot(tx, root, root.codeChanges[at])
  }

  predicate SurvivesIn(tx: Transaction, s: Site) {
    && Listed(tx.calls, s)
    && if tx.status == Succeeded then !tx.calls[s.call].stateReverted
       else s.call == 0 && SurvivesFailure(tx, tx.calls[0], s.kind, s.at)
  }

  predicate Survives(block: Block, p: Place) {
    match p
    case InSystem(s) => Listed(block.systemCalls, s) && !block.systemCalls[s.call].stateReverted
    case InBlock(BalanceKind, at) => at < |block.balanceChanges|
    case InBlock(CodeKind, at) => at < |block.codeChanges|
    case InBlock(_, _) => false
    case InTransaction(i, s) => i < |block.transactions| && SurvivesIn(block.transactions[i], s)
  }

  function RecordAt(block: Block, p: Place): Change
    requires Survives(block, p)
  {
    match p
    case InSystem(s) => RecordIn(block.systemCalls, s)
    case InBlock(BalanceKind, at) => block.balanceChanges[at]
    case InBlock(CodeKind, at) => block.codeChanges[at]
    case InTransaction(i, s) => RecordIn(block.transactions[i].calls, s)
  }

  // ---------------------------------------------------------------- visiting order

  function Rank(kind: Kind): nat {
    match kind case StorageKind => 0 case BalanceKind => 1 case NonceKind => 2 case CodeKind => 3
  }

  /** Call by call, storage before balances before nonces before codes, in list order. */
  predicate Precedes(a: Site, b: Site) {
    || a.call < b.call
    || (a.call == b.call && (Rank(a.kind) < Rank(b.kind) || (a.kind == b.kind && a.at < b.at)))
  }

  /** Where a record comes among its list: the sender's increment of a failed transaction first. */
  function Turn(tx: Transaction, s: Site): nat {
    if tx.status != Succeeded && tx.calls != [] && s.kind == NonceKind
       && FirstIncrement(tx, tx.calls[0].nonceChanges, s.at) then 0 else s.at + 1
  }

  predicate Earlier(tx: Transaction, a: Site, b: Site) {
    || a.call < b.call
    || (a.call == b.call && (Rank(a.kind) < Rank(b.kind) || (a.kind == b.kind && Turn(tx, a) < Turn(tx, b))))
  }

  /** System calls, then the block's balances, then its codes, then the transactions. */
  function Section(p: Place): nat {
    match p
    case InSystem(_) => 0
    case InBlock(kind, _) => if kind == BalanceKind then 1 else 2
    case InTransaction(_, _) => 3
  }

  predicate Before(block: Block, p: Place, q: Place) {
    || Section(p) < Section(q)
    || (p.InSystem? && q.InSystem? && Precedes(p.site, q.site))
    || (p.InBlock? && q.InBlock? && Section(p) == Section(q) && p.at < q.at)
    || (p.InTransaction? && q.InTransaction? && p.tx < |block.transactions|
        && (p.tx < q.tx || (p.tx == q.tx && Earlier(block.transactions[p.tx], p.site, q.site))))
  }

  predicate Ascending<T>(s: seq<T>, before: (T, T) -> bool) {
    forall i, j :: 0 <= i < j < |s| ==> before(s[i], s[j])
  }

  lemma AscendingConcat<T>(a: seq<T>, b: seq<T>, before: (T, T) -> bool)
    requires Ascending(a, before) && Ascending(b, before)
    requires forall x, y :: x in a && y in b ==> before(x, y)
    ensures Ascending(a + b, before)
  {
  }

  // ---------------------------------------------------------------- one list

  /** These are the positions of s that satisfy p, in order, and kept is what stands there. */
  ghost predicate Positions(at: seq<nat>, s: seq<Change>, p: Change -> bool, kept: seq<Change>) {
    && |at| == |kept|
    && (forall k :: 0 <= k < |at| ==> at[k] < |s| && p(s[at[k]]) && s[at[k]] == kept[k])
    && (forall k, l :: 0 <= k < l < |at| ==> at[k] < at[l])
    && forall i: nat :: i < |s| && p(s[i]) ==> i in at
  }

  lemma PositionsAppend(at: seq<nat>, s: seq<Change>, p: Change -> bool, kept: seq<Change>, x: Change)
    requires Positions(at, s, p, kept)
    ensures if p(x) then Positions(at + [|s|], s + [x], p, kept + [x]) else Positions(at, s + [x], p, kept)
  {
    forall i: nat | i < |s| && p((s + [x])[i]) ensures i in at { assert p(s[i]); }
  }

  lemma {:induction false} FilteredAt(s: seq<Change>, p: Change -> bool) returns (at: seq<nat>)
    ensures Positions(at, s, p, Filter(s, p))
  {
    if s == [] {
      at := [];
    } else {
      hide Positions;
      var n := |s| - 1;
      at := FilteredAt(s[..n], p);
      PositionsAppend(at, s[..n], p, Filter(s[..n], p), s[n]);
      assert s[..n] + [s[n]] == s;
      if p(s[n]) { at := at + [n]; }
    }
  }

  lemma {:induction false} InsertedAt(s: seq<Change>, x: Change) returns (m: nat)
    requires SortedBy(s, OrdinalOf)
    ensures m <= |s| && Insert(s, x, OrdinalOf) == s[..m] + [x] + s[m..]
    ensures forall k :: 0 <= k < m ==> s[k].ordinal <= x.ordinal
    ensures forall k :: m <= k < |s| ==> s[k].ordinal > x.ordinal
  {
    if s == [] || s[|s| - 1].ordinal <= x.ordinal {
      m := |s|;
      assert s[..m] == s && s[m..] == [];
    } else {
      var front := s[..|s| - 1];
      m := InsertedAt(front, x);
      assert front[..m] == s[..m] && front[m..] + [s[|s| - 1]] == s[m..];
    }
  }

  /** By ordinal, and by position among equals. */
  predicate Ordered(s: seq<Change>, i: nat, j: nat)
    requires i < |s| && j < |s|
  {
    s[i].ordinal < s[j].ordinal || (s[i].ordinal == s[j].ordinal && i < j)
  }

  /** at lists the positions of s so that sorted results, by ordinal and then by position. */
  ghost predicate Sorting(at: seq<nat>, s: seq<Change>, sorted: seq<Change>) {
    && |at| == |s| == |sorted|
    && (forall k :: 0 <= k < |at| ==> at[k] < |s| && sorted[k] == s[at[k]])
    && (forall k, l :: 0 <= k < l < |at| ==> Ordered(s, at[k], at[l]))
    && forall i: nat :: i < |s| ==> i in at
  }

  lemma InsertBetween(s: seq<Change>, front: seq<Change>, sorted: seq<Change>, before: seq<nat>, m: nat)
    returns (at: seq<nat>)
    requires |s| == |front| + 1 && front == s[..|front|] && Sorting(before, front, sorted) && m <= |sorted|
    requires forall k :: 0 <= k < m ==> sorted[k].ordinal <= s[|front|].ordinal
    requires forall k :: m <= k < |sorted| ==> sorted[k].ordinal > s[|front|].ordinal
    ensures Sorting(at, s, sorted[..m] + [s[|front|]] + sorted[m..])
  {
    var n := |front|;
    at := before[..m] + [n] + before[m..];
    var after := sorted[..m] + [s[n]] + sorted[m..];
    forall k | 0 <= k < |at| ensures at[k] < |s| && after[k] == s[at[k]] {
      assert k < m ==> at[k] == before[k];
      assert k > m ==> at[k] == before[k - 1];
    }
    forall k, l | 0 <= k < l < |at| ensures Ordered(s, at[k], at[l]) {
      var x, y := if k < m then k else k - 1, if l < m then l else l - 1;
      assert k != m ==> at[k] == before[x] && sorted[x] == front[before[x]];
      assert l != m ==> at[l] == before[y] && sorted[y] == front[before[y]];
      if k != m && l != m { assert Ordered(front, before[x], before[y]); }
    }
    forall i: nat | i < |s| ensures i in at { InMiddle(before, m, n, i); }
  }

  /** The stable sort, by index. */
  lemma {:induction false} SortedAt(s: seq<Change>) returns (at: seq<nat>)
    ensures Sorting(at, s, SortBy(s, OrdinalOf))
  {
    if s == [] {
      at := [];
    } else {
      hide Sorting, Insert;
      var n := |s| - 1;
      var front, sorted := s[..n], SortBy(s[..n], OrdinalOf);
      var before := SortedAt(front);
      SortBySorts(front, OrdinalOf);
      var m := InsertedAt(sorted, s[n]);
      at := InsertBetween(s, front, sorted, before, m);
    }
  }

  lemma InMiddle(s: seq<nat>, m: nat, n: nat, i: nat)
    requires m <= |s|
    ensures i in s[..m] + [n] + s[m..] <==> i in s || i == n
  {
    assert s == s[..m] + s[m..];
  }

  // ---------------------------------------------------------------- calls

  ghost predicate SitesOf(calls: seq<Call>, sites: seq<Site>, records: seq<Change>) {
    |sites| == |records|
      && forall k :: 0 <= k < |sites| ==> Listed(calls, sites[k]) && records[k] == RecordIn(calls, sites[k])
  }

  lemma SitesConcat(calls: seq<Call>, a: seq<Site>, r: seq<Change>, b: seq<Site>, q: seq<Change>)
    requires SitesOf(calls, a, r) && SitesOf(calls, b, q)
    ensures SitesOf(calls, a + b, r + q)
  {
  }

  /** These positions of one list, as sites. */
  lemma SitesFrom(calls: seq<Call>, call: nat, kind: Kind, at: seq<nat>, kept: seq<Change>) returns (sites: seq<Site>)
    requires call < |calls| && |at| == |kept|
    requires forall k :: 0 <= k < |at| ==>
             at[k] < |ListIn(calls[call], kind)| && ListIn(calls[call], kind)[at[k]] == kept[k]
    requires forall k, l :: 0 <= k < l < |at| ==> at[k] < at[l]
    ensures SitesOf(calls, sites, kept) && Ascending(sites, Precedes)
    ensures forall s: Site :: s in sites <==> s.call == call && s.kind == kind && s.at in at
  {
    sites := seq(|at|, k requires 0 <= k < |at| => Site(call, kind, at[k]));
    forall s: Site | s.call == call && s.kind == kind && s.at in at ensures s in sites {
      var k :| 0 <= k < |at| && at[k] == s.at;
      assert sites[k] == s;
    }
  }

  lemma ListSites(calls: seq<Call>, call: nat, kind: Kind, p: Change -> bool) returns (sites: seq<Site>)
    requires call < |calls|
    ensures SitesOf(calls, sites, Filter(ListIn(calls[call], kind), p)) && Ascending(sites, Precedes)
    ensures forall s: Site :: s in sites <==>
            s.call == call && s.kind == kind && Listed(calls, s) && p(RecordIn(calls, s))
  {
    hide Filter;
    var list := ListIn(calls[call], kind);
    var at := FilteredAt(list, p);
    sites := SitesFrom(calls, call, kind, at, Filter(list, p));
  }

  lemma WholeList(calls: seq<Call>, call: nat, kind: Kind) returns (sites: seq<Site>)
    requires call < |calls|
    ensures SitesOf(calls, sites, ListIn(calls[call], kind)) && Ascending(sites, Precedes)
    ensures forall s :: s in sites <==> s.call == call && s.kind == kind && Listed(calls, s)
  {
    FullFilter(ListIn(calls[call], kind), c => true);
    sites := ListSites(calls, call, kind, c => true);
  }

  lemma CallSites(calls: seq<Call>, call: nat) returns (sites: seq<Site>)
    requires call < |calls|
    ensures SitesOf(calls, sites, CallRecords(calls[call])) && Ascending(sites, Precedes)
    ensures forall s :: s in sites <==> s.call == call && Listed(calls, s)
  {
    hide Listed;
    var storage := WholeList(calls, call, StorageKind);
    var balances := WholeList(calls, call, BalanceKind);
    var nonces := WholeList(calls, call, NonceKind);
    var codes := WholeList(calls, call, CodeKind);
    AscendingConcat(storage, balances, Precedes);
    AscendingConcat(storage + balances, nonces, Precedes);
    AscendingConcat(storage + balances + nonces, codes, Precedes);
    sites := storage + balances + nonces + codes;
    SitesConcat(calls, storage, ListIn(calls[call], StorageKind), balances, ListIn(calls[call], BalanceKind));
    SitesConcat(calls, storage + balances, ListIn(calls[call], StorageKind) + ListIn(calls[call], BalanceKind),
                nonces, ListIn(calls[call], NonceKind));
    SitesConcat(calls, storage + balances + nonces,
                ListIn(calls[call], StorageKind) + ListIn(calls[call], BalanceKind)
                + ListIn(calls[call], NonceKind), codes, ListIn(calls[call], CodeKind));
  }

  /** The committed records are those of the calls that were not reverted, in visiting order. */
  lemma {:induction false} CommittedSites(calls: seq<Call>, n: nat) returns (sites: seq<Site>)
    requires n <= |calls|
    ensures SitesOf(calls, sites, CommittedRecords(calls[..n])) && Ascending(sites, Precedes)
    ensures forall s :: s in sites <==> s.call < n && Listed(calls, s) && !calls[s.call].stateReverted
  {
    if n == 0 {
      sites := [];
    } else {
      assert calls[..n][..n - 1] == calls[..n - 1];
      sites := CommittedSites(calls, n - 1);
      if !calls[n - 1].stateReverted {
        var last := CallSites(calls, n - 1);
        AscendingConcat(sites, last, Precedes);
        SitesConcat(calls, sites, CommittedRecords(calls[..n - 1]), last, CallRecords(calls[n - 1]));
        sites := sites + last;
      } else {
        assert CommittedRecords(calls[..n - 1]) + [] == CommittedRecords(calls[..n - 1]);
      }
    }
  }

  // ---------------------------------------------------------------- transactions

  lemma AuthorizedIs(tx: Transaction, a: Address)
    ensures a in Authorities(tx) <==> Authorizes(tx, a)
  {
  }

  lemma AuthorityIs(tx: Transaction, root: Call, c: Change)
    ensures AuthorityRecord(tx, root, c) <==> BeforeRoot(tx, root, c)
  {
    AuthorizedIs(tx, c.address);
  }

  lemma SenderIs(tx: Transaction, nonces: seq<Change>, at: nat)
    requires at < |nonces|
    ensures at == SenderIndex(tx, nonces) <==> FirstIncrement(tx, nonces, at)
  {
    assert forall c :: SenderIncrement(tx, c) <==> Increments(tx, c);
    var i := SenderIndex(tx, nonces);
    if i < |nonces| && FirstIncrement(tx, nonces, at) { assert SenderIncrement(tx, nonces[i]); }
  }

  /** Where the n-th record of a list without position i stands in the whole list. */
  function Shifted(i: nat, n: nat): nat {
    if n < i then n else n + 1
  }

  /** The nonces besides the sender's that satisfy p. */
  lemma OtherSites(tx: Transaction, p: Change -> bool) returns (sites: seq<Site>)
    requires tx.calls != []
    ensures var nonces: seq<Change> := tx.calls[0].nonceChanges;
            var i := SenderIndex(tx, nonces);
            && SitesOf(tx.calls, sites, Filter(Without(nonces, i), p)) && Ascending(sites, Precedes)
            && forall s :: s in sites <==>
                s.call == 0 && s.kind == NonceKind && Listed(tx.calls, s) && s.at != i && p(RecordIn(tx.calls, s))
  {
    var nonces: seq<Change> := tx.calls[0].nonceChanges;
    var i := SenderIndex(tx, nonces);
    if i == |nonces| {
      sites := ListSites(tx.calls, 0, NonceKind, p);
    } else {
      hide SenderIndex;
      sites := SitesBeside(tx.calls, nonces, i, p);
    }
  }

  /** What a filter keeps of a list without its i-th record, by index in the whole list. */
  lemma FilteredBeside(s: seq<Change>, i: nat, p: Change -> bool) returns (at: seq<nat>)
    requires i < |s|
    ensures |at| == |Filter(Without(s, i), p)|
    ensures forall k :: 0 <= k < |at| ==> at[k] < |s| && s[at[k]] == Filter(Without(s, i), p)[k]
    ensures forall k, l :: 0 <= k < l < |at| ==> at[k] < at[l]
    ensures forall n: nat :: n in at <==> n < |s| && n != i && p(s[n])
  {
    hide Filter;
    var rest := Without(s, i);
    var kept := FilteredAt(rest, p);
    assert forall n :: 0 <= n < |rest| ==> rest[n] == s[Shifted(i, n)];
    at := seq(|kept|, k requires 0 <= k < |kept| => Shifted(i, kept[k]));
    forall n: nat | n < |s| && n != i && p(s[n]) ensures n in at {
      var m := if n < i then n else n - 1;
      assert Shifted(i, m) == n && m in kept;
      var k :| 0 <= k < |kept| && kept[k] == m;
      assert at[k] == n;
    }
  }

  lemma SitesBeside(calls: seq<Call>, nonces: seq<Change>, i: nat, p: Change -> bool) returns (sites: seq<Site>)
    requires calls != [] && nonces == calls[0].nonceChanges && i < |nonces|
    ensures SitesOf(calls, sites, Filter(Without(nonces, i), p)) && Ascending(sites, Precedes)
    ensures forall s: Site :: s in sites <==>
            s.call == 0 && s.kind == NonceKind && Listed(calls, s) && s.at != i && p(RecordIn(calls, s))
  {
    hide Filter, Without;
    var at := FilteredBeside(nonces, i, p);
    sites := SitesFrom(calls, 0, NonceKind, at, Filter(Without(nonces, i), p));
  }

  function EarlierIn(tx: Transaction): (Site, Site) -> bool {
    (a, b) => Earlier(tx, a, b)
  }

  /** These are the surviving positions in the lists of one kind. */
  ghost predicate Kindred(tx: Transaction, sites: seq<Site>, kind: Kind) {
    forall s: Site :: s in sites <==> s.kind == kind && SurvivesIn(tx, s)
  }

  lemma GasSites(tx: Transaction) returns (sites: seq<Site>)
    requires !tx.status.Succeeded? && tx.calls != []
    ensures SitesOf(tx.calls, sites, GasRecords(tx.calls[0])) && Ascending(sites, EarlierIn(tx))
    ensures Kindred(tx, sites, BalanceKind)
  {
    hide Filter, SitesOf;
    sites := ListSites(tx.calls, 0, BalanceKind, GasReason);
    forall i, j | 0 <= i < j < |sites| ensures EarlierIn(tx)(sites[i], sites[j]) {
      assert Precedes(sites[i], sites[j]) && sites[i] in sites && sites[j] in sites;
    }
  }

  lemma CodeSites(tx: Transaction) returns (sites: seq<Site>)
    requires !tx.status.Succeeded? && tx.calls != []
    ensures SitesOf(tx.calls, sites, AuthorityCodes(tx, tx.calls[0])) && Ascending(sites, EarlierIn(tx))
    ensures Kindred(tx, sites, CodeKind)
  {
    hide Filter, SitesOf, AuthorityRecord, BeforeRoot;
    var root := tx.calls[0];
    sites := ListSites(tx.calls, 0, CodeKind, c => AuthorityRecord(tx, root, c));
    forall i, j | 0 <= i < j < |sites| ensures EarlierIn(tx)(sites[i], sites[j]) {
      assert Precedes(sites[i], sites[j]) && sites[i] in sites && sites[j] in sites;
    }
    forall c ensures AuthorityRecord(tx, root, c) <==> BeforeRoot(tx, root, c) { AuthorityIs(tx, root, c); }
  }

  /** The nonces of the accepted authorities, and the sender's apart. */
  lemma OtherNonceSites(tx: Transaction) returns (sites: seq<Site>)
    requires !tx.status.Succeeded? && tx.calls != []
    ensures SitesOf(tx.calls, sites, AuthorityNonces(tx, tx.calls[0])) && Ascending(sites, EarlierIn(tx))
    ensures forall s: Site :: s in sites <==>
            && s.kind == NonceKind && SurvivesIn(tx, s)
            && !FirstIncrement(tx, tx.calls[0].nonceChanges, s.at)
  {
    hide Filter, SitesOf, AuthorityRecord, BeforeRoot, SenderIndex, FirstIncrement;
    var root := tx.calls[0];
    sites := OtherSites(tx, c => AuthorityRecord(tx, root, c));
    forall c ensures AuthorityRecord(tx, root, c) <==> BeforeRoot(tx, root, c) { AuthorityIs(tx, root, c); }
    forall at: nat | at < |root.nonceChanges|
      ensures at == SenderIndex(tx, root.nonceChanges) <==> FirstIncrement(tx, root.nonceChanges, at)
    {
      SenderIs(tx, root.nonceChanges, at);
    }
    forall i, j | 0 <= i < j < |sites| ensures EarlierIn(tx)(sites[i], sites[j]) {
      assert Precedes(sites[i], sites[j]) && sites[i] in sites && sites[j] in sites;
    }
  }

  lemma SenderSites(tx: Transaction) returns (sites: seq<Site>)
    requires !tx.status.Succeeded? && tx.calls != []
    ensures SitesOf(tx.calls, sites, SenderRecord(tx, tx.calls[0])) && |sites| <= 1
    ensures forall s: Site :: s in sites <==>
            s.call == 0 && s.kind == NonceKind && FirstIncrement(tx, tx.calls[0].nonceChanges, s.at)
  {
    hide SenderIndex, FirstIncrement;
    var nonces: seq<Change> := tx.calls[0].nonceChanges;
    var i := SenderIndex(tx, nonces);
    sites := if i < |nonces| then [Site(0, NonceKind, i)] else [];
    forall at: nat ensures FirstIncrement(tx, nonces, at) <==> at == i < |nonces| {
      if at < |nonces| { SenderIs(tx, nonces, at); } else { NoIncrement(tx, nonces, at); }
    }
  }

  lemma NoIncrement(tx: Transaction, nonces: seq<Change>, at: nat)
    requires at >= |nonces|
    ensures !FirstIncrement(tx, nonces, at)
  {
  }

  /** The sender's increment, then the other surviving nonces. */
  lemma NonceSites(tx: Transaction) returns (sites: seq<Site>)
    requires !tx.status.Succeeded? && tx.calls != []
    ensures SitesOf(tx.calls, sites, SenderRecord(tx, tx.calls[0]) + AuthorityNonces(tx, tx.calls[0]))
    ensures Ascending(sites, EarlierIn(tx)) && Kindred(tx, sites, NonceKind)
  {
    hide SenderRecord, AuthorityNonces, FirstIncrement, BeforeRoot, SitesOf;
    var sender := SenderSites(tx);
    var others := OtherNonceSites(tx);
    sites := sender + others;
    SitesConcat(tx.calls, sender, SenderRecord(tx, tx.calls[0]), others, AuthorityNonces(tx, tx.calls[0]));
    forall x, y | x in sender && y in others ensures EarlierIn(tx)(x, y) {
    }
    AscendingConcat(sender, others, EarlierIn(tx));
    forall s: Site | s in sender ensures SurvivesIn(tx, s) { IncrementListed(tx, s.at); }
  }

  lemma IncrementListed(tx: Transaction, at: nat)
    requires tx.calls != [] && FirstIncrement(tx, tx.calls[0].nonceChanges, at)
    ensures at < |tx.calls[0].nonceChanges|
  {
  }

  /** What a failed transaction leaves, in visiting order. */
  lemma FailedSites(tx: Transaction) returns (sites: seq<Site>)
    requires !tx.status.Succeeded? && tx.calls != [] && Surviving(tx).Ok?
    ensures SitesOf(tx.calls, sites, Surviving(tx).value) && Ascending(sites, EarlierIn(tx))
    ensures forall s :: s in sites <==> SurvivesIn(tx, s)
  {
    hide SenderRecord, AuthorityNonces, AuthorityCodes, GasRecords, SitesOf;
    var root := tx.calls[0];
    var gas := GasSites(tx);
    var nonces := NonceSites(tx);
    var codes := CodeSites(tx);
    FailedOrder(tx, gas, nonces, codes);
    SitesConcat(tx.calls, gas, GasRecords(root), nonces, SenderRecord(tx, root) + AuthorityNonces(tx, root));
    SitesConcat(tx.calls, gas + nonces, GasRecords(root) + (SenderRecord(tx, root) + AuthorityNonces(tx, root)),
                codes, AuthorityCodes(tx, root));
    assert GasRecords(root) + (SenderRecord(tx, root) + AuthorityNonces(tx, root)) + AuthorityCodes(tx, root)
        == Surviving(tx).value;
    sites := gas + nonces + codes;
  }

  lemma FailedOrder(tx: Transaction, gas: seq<Site>, nonces: seq<Site>, codes: seq<Site>)
    requires !tx.status.Succeeded?
    requires Kindred(tx, gas, BalanceKind) && Kindred(tx, nonces, NonceKind) && Kindred(tx, codes, CodeKind)
    requires Ascending(gas, EarlierIn(tx)) && Ascending(nonces, EarlierIn(tx)) && Ascending(codes, EarlierIn(tx))
    ensures Ascending(gas + nonces + codes, EarlierIn(tx))
    ensures forall s :: s in gas + nonces + codes <==> SurvivesIn(tx, s)
  {
    hide FirstIncrement, BeforeRoot, Turn;
    AscendingConcat(gas, nonces, EarlierIn(tx));
    AscendingConcat(gas + nonces, codes, EarlierIn(tx));
    forall s | SurvivesIn(tx, s) ensures s in gas + nonces + codes {
      assert s in gas || s in nonces || s in codes;
    }
  }

  lemma TransactionSites(tx: Transaction) returns (sites: seq<Site>)
    requires Surviving(tx).Ok?
    ensures SitesOf(tx.calls, sites, Surviving(tx).value) && Ascending(sites, EarlierIn(tx))
    ensures forall s :: s in sites <==> SurvivesIn(tx, s)
  {
    if tx.status.Succeeded? {
      assert tx.calls[..|tx.calls|] == tx.calls;
      sites := CommittedSites(tx.calls, |tx.calls|);
    } else if tx.calls == [] {
      sites := [];
    } else {
      sites := FailedSites(tx);
    }
  }

  // ---------------------------------------------------------------- the block

  /** Each record stands at its place. */
  ghost predicate Located(block: Block, places: seq<Place>, records: seq<Change>) {
    |places| == |records|
      && forall k :: 0 <= k < |places| ==> Survives(block, places[k]) && records[k] == RecordAt(block, places[k])
  }

  function BeforeIn(block: Block): (Place, Place) -> bool {
    (p, q) => Before(block, p, q)
  }

  lemma LocatedConcat(block: Block, a: seq<Place>, r: seq<Change>, b: seq<Place>, q: seq<Change>)
    requires Located(block, a, r) && Located(block, b, q)
    ensures Located(block, a + b, r + q)
  {
  }

  lemma SystemPlaces(block: Block) returns (places: seq<Place>)
    ensures Located(block, places, CommittedRecords(block.systemCalls)) && Ascending(places, BeforeIn(block))
    ensures forall p: Place :: p in places <==> p.InSystem? && Survives(block, p)
  {
    hide ListIn, CommittedRecords, Precedes;
    var calls := block.systemCalls;
    var sites := CommittedSites(calls, |calls|);
    assert calls[..|calls|] == calls;
    places := seq(|sites|, k requires 0 <= k < |sites| => InSystem(sites[k]));
    assert forall k :: 0 <= k < |sites| ==> sites[k] in sites;
    forall p: Place | p.InSystem? && Survives(block, p) ensures p in places {
      var k :| 0 <= k < |sites| && sites[k] == p.site;
      assert places[k] == p;
    }
  }

  lemma ListPlaces(block: Block, kind: Kind, list: seq<Change>) returns (places: seq<Place>)
    requires (kind == BalanceKind && list == block.balanceChanges) || (kind == CodeKind && list == block.codeChanges)
    ensures Located(block, places, list) && Ascending(places, BeforeIn(block))
    ensures forall p: Place :: p in places <==> p.InBlock? && p.kind == kind && Survives(block, p)
  {
    places := seq(|list|, k requires 0 <= k < |list| => InBlock(kind, k));
    forall p: Place | p.InBlock? && p.kind == kind && Survives(block, p) ensures p in places {
      assert places[p.at] == p;
    }
  }

  lemma OneTransaction(block: Block, i: nat) returns (places: seq<Place>)
    requires i < |block.transactions| && Surviving(block.transactions[i]).Ok?
    ensures Located(block, places, Surviving(block.transactions[i]).value) && Ascending(places, BeforeIn(block))
    ensures forall p: Place :: p in places <==> p.InTransaction? && p.tx == i && Survives(block, p)
  {
    hide SurvivesIn, Surviving, RecordIn, Earlier;
    var tx := block.transactions[i];
    var sites := TransactionSites(tx);
    places := seq(|sites|, k requires 0 <= k < |sites| => InTransaction(i, sites[k]));
    assert forall k :: 0 <= k < |sites| ==> sites[k] in sites;
    forall p: Place | p.InTransaction? && p.tx == i && Survives(block, p) ensures p in places {
      var k :| 0 <= k < |sites| && sites[k] == p.site;
      assert places[k] == p;
    }
  }

  lemma {:induction false} TransactionPlaces(block: Block, n: nat) returns (places: seq<Place>)
    requires n <= |block.transactions| && SurvivingAll(block.transactions[..n]).Ok?
    ensures Located(block, places, SurvivingAll(block.transactions[..n]).value)
    ensures Ascending(places, BeforeIn(block))
    ensures forall p: Place :: p in places <==> p.InTransaction? && p.tx < n && Survives(block, p)
  {
    hide SurvivesIn, Surviving;
    if n == 0 {
      places := [];
    } else {
      assert block.transactions[..n][..n - 1] == block.transactions[..n - 1];
      places := TransactionPlaces(block, n - 1);
      var last := OneTransaction(block, n - 1);
      AscendingConcat(places, last, BeforeIn(block));
      LocatedConcat(block, places, SurvivingAll(block.transactions[..n - 1]).value,
                    last, Surviving(block.transactions[n - 1]).value);
      places := places + last;
    }
  }

  /** The surviving records of a block are exactly those at surviving places, each place once, in
      visiting order. */
  lemma SurvivingPlaces(block: Block) returns (places: seq<Place>)
    requires BlockRecords(block).Ok?
    ensures forall p :: p in places <==> Survives(block, p)
    ensures Ascending(places, BeforeIn(block)) && Located(block, places, BlockRecords(block).value)
  {
    hide Survives, SurvivingAll, CommittedRecords, Located;
    assert block.transactions[..|block.transactions|] == block.transactions;
    var system := SystemPlaces(block);
    var own := ListPlaces(block, BalanceKind, block.balanceChanges);
    var codes := ListPlaces(block, CodeKind, block.codeChanges);
    var txs := TransactionPlaces(block, |block.transactions|);
    AscendingConcat(system, own, BeforeIn(block));
    AscendingConcat(system + own, codes, BeforeIn(block));
    AscendingConcat(system + own + codes, txs, BeforeIn(block));
    places := system + own + codes + txs;
    LocatedConcat(block, system, CommittedRecords(block.systemCalls), own, block.balanceChanges);
    LocatedConcat(block, system + own, CommittedRecords(block.systemCalls) + block.balanceChanges,
                  codes, block.codeChanges);
    LocatedConcat(block, system + own + codes,
                  CommittedRecords(block.systemCalls) + block.balanceChanges + block.codeChanges,
                  txs, SurvivingAll(block.transactions).value);
    forall p | Survives(block, p) ensures p in places { OneSection(block, p); }
  }

  lemma OneSection(block: Block, p: Place)
    requires Survives(block, p)
    ensures p.InBlock? ==> p.kind == BalanceKind || p.kind == CodeKind
    ensures p.InTransaction? ==> p.tx < |block.transactions|
  {
  }

  // ---------------------------------------------------------------- refusal

  /** A failed transaction with an accepted authority whose root call has no begin ordinal. */
  predicate Refused(tx: Transaction) {
    && tx.status != Succeeded && tx.calls != [] && tx.calls[0].beginOrdinal == 0
    && exists i :: 0 <= i < |tx.authorizations| && Authorizes(tx, AuthorityOf(tx.authorizations[i]))
  }

  function AuthorityOf(authorization: Authorization): Address {
    if authorization.authority.Some? then authorization.authority.value else []
  }

  lemma RefusedIs(tx: Transaction)
    ensures Surviving(tx).Err? <==> Refused(tx)
  {
    forall a ensures a in Authorities(tx) <==> Authorizes(tx, a) { AuthorizedIs(tx, a); }
    if Authorities(tx) != {} {
      var a :| a in Authorities(tx);
      var i :| 0 <= i < |tx.authorizations| && !tx.authorizations[i].discarded
               && tx.authorizations[i].authority == Some(a);
      assert AuthorityOf(tx.authorizations[i]) == a;
    }
  }

  /** Collecting fails exactly when some transaction is refused. */
  lemma {:induction false} RefusedBlock(txs: seq<Transaction>)
    ensures SurvivingAll(txs).Err? <==> exists i :: 0 <= i < |txs| && Refused(txs[i])
  {
    hide Refused, Surviving;
    if txs != [] {
      RefusedBlock(txs[..|txs| - 1]);
      RefusedIs(txs[|txs| - 1]);
      assert forall i :: 0 <= i < |txs| - 1 ==> txs[..|txs| - 1][i] == txs[i];
    }
  }

  // ---------------------------------------------------------------- the output lists

  /** The record changes something. */
  predicate Alters(c: Change) {
    match c
    case StorageChange(_, _, prior, next, _) => BigEndian(prior) != BigEndian(next)
    case BalanceChange(_, prior, next, _, _) => BigEndian(prior) != BigEndian(next)
    case NonceChange(_, prior, next, _) => prior != next
    case CodeChange(_, prior, _, next, _, _) => prior != next
  }

  predicate OfKind(c: Change, kind: Kind) {
    match kind
    case StorageKind => c.StorageChange?
    case BalanceKind => c.BalanceChange?
    case NonceKind => c.NonceChange?
    case CodeKind => c.CodeChange?
  }

  function Output(out: StateChanges, kind: Kind): seq<Change> {
    match kind
    case StorageKind => out.storage
    case BalanceKind => out.balances
    case NonceKind => out.nonces
    case CodeKind => out.codes
  }

  /** A surviving record of a selected account that changes something; no filter selects all. */
  predicate Wanted(filter: set<Address>, block: Block, p: Place) {
    Survives(block, p) && Alters(RecordAt(block, p)) && (filter == {} || RecordAt(block, p).address in filter)
  }

  predicate WantedOf(filter: set<Address>, block: Block, kind: Kind, p: Place) {
    Wanted(filter, block, p) && OfKind(RecordAt(block, p), kind)
  }

  /** By ordinal, and in visiting order among equals. */
  predicate InOrder(block: Block, p: Place, q: Place)
    requires Survives(block, p) && Survives(block, q)
  {
    var c, d := RecordAt(block, p), RecordAt(block, q);
    c.ordinal < d.ordinal || (c.ordinal == d.ordinal && Before(block, p, q))
  }

  lemma AltersIs(c: Change)
    ensures NoOp(c) <==> !Alters(c)
  {
    match c
    case StorageChange(_, _, prior, next, _) => SameWord(prior, next);
    case BalanceChange(_, prior, next, _, _) => SameWord(prior, next);
    case NonceChange(_, _, _, _) =>
    case CodeChange(_, _, _, _, _, _) =>
  }

  lemma SelectsIs(filter: set<Address>, kind: Kind, c: Change)
    ensures Selects(filter, kind)(c) <==> Alters(c) && (filter == {} || c.address in filter) && OfKind(c, kind)
  {
    AltersIs(c);
  }

  lemma OutputIs(filter: set<Address>, records: seq<Change>, kind: Kind)
    ensures Output(Sorted(Extend(NOTHING, filter, records)), kind)
            == SortBy(Filter(records, Selects(filter, kind)), OrdinalOf)
  {
    var kept := Filter(records, Selects(filter, kind));
    assert [] + kept == kept;
  }

  /** Each output list of the collector holds exactly the wanted records of its kind, each place
      once, by ordinal and in visiting order among equals. */
  lemma CollectedPlaces(filter: set<Address>, block: Block, kind: Kind) returns (places: seq<Place>)
    requires BlockRecords(block).Ok?
    ensures forall p :: p in places <==> WantedOf(filter, block, kind, p)
    ensures Located(block, places, Output(Sorted(Extend(NOTHING, filter, BlockRecords(block).value)), kind))
    ensures forall i, j :: 0 <= i < j < |places| ==> InOrder(block, places[i], places[j])
  {
    var records := BlockRecords(block).value;
    var all := SurvivingPlaces(block);
    OutputIs(filter, records, kind);
    var at := FilteredAt(records, Selects(filter, kind));
    var kept := Filter(records, Selects(filter, kind));
    var order := SortedAt(kept);
    places := Picked(all, at, order);
    SortedPlaces(filter, block, kind, all, records, at, kept, order, SortBy(kept, OrdinalOf), places);
  }

  function Picked(all: seq<Place>, at: seq<nat>, order: seq<nat>): seq<Place>
    requires forall k :: 0 <= k < |order| ==> order[k] < |at|
    requires forall k :: 0 <= k < |at| ==> at[k] < |all|
  {
    seq(|order|, k requires 0 <= k < |order| => all[at[order[k]]])
  }

  lemma SortedPlaces(filter: set<Address>, block: Block, kind: Kind, all: seq<Place>, records: seq<Change>,
                     at: seq<nat>, kept: seq<Change>, order: seq<nat>, sorted: seq<Change>, places: seq<Place>)
    requires Located(block, all, records) && Ascending(all, BeforeIn(block))
    requires forall p :: p in all <==> Survives(block, p)
    requires Positions(at, records, Selects(filter, kind), kept) && Sorting(order, kept, sorted)
    requires |places| == |order| && forall k :: 0 <= k < |order| ==> places[k] == all[at[order[k]]]
    ensures forall p :: p in places <==> WantedOf(filter, block, kind, p)
    ensures Located(block, places, sorted)
    ensures forall i, j :: 0 <= i < j < |places| ==> InOrder(block, places[i], places[j])
  {
    hide Survives, RecordAt, Selects, Before;
    forall p | p in places ensures WantedOf(filter, block, kind, p) {
      var k :| 0 <= k < |places| && places[k] == p;
      SelectsIs(filter, kind, records[at[order[k]]]);
    }
    forall p | WantedOf(filter, block, kind, p) ensures p in places {
      SelectsIs(filter, kind, RecordAt(block, p));
      var n :| 0 <= n < |all| && all[n] == p;
      assert n in at;
      var m :| 0 <= m < |at| && at[m] == n;
      assert m in order;
      var k :| 0 <= k < |order| && order[k] == m;
      assert places[k] == p;
    }
    forall i, j | 0 <= i < j < |places| ensures InOrder(block, places[i], places[j]) {
      assert Ordered(kept, order[i], order[j]);
      if order[i] < order[j] { assert BeforeIn(block)(all[at[order[i]]], all[at[order[j]]]); }
    }
  }

  function PlacesOf(places: seq<Place>, records: seq<Change>, c: Change): set<Place>
    requires |places| == |records|
  {
    set k | 0 <= k < |places| && records[k] == c :: places[k]
  }

  /** A record is listed once for each of its places. */
  lemma {:induction false} TimesListed(places: seq<Place>, records: seq<Change>, c: Change)
    requires |places| == |records| && forall i, j :: 0 <= i < j < |places| ==> places[i] != places[j]
    ensures multiset(records)[c] == |PlacesOf(places, records, c)|
  {
    if places != [] {
      var n := |places| - 1;
      TimesListed(places[..n], records[..n], c);
      assert records == records[..n] + [records[n]];
      PlacesAppend(places, records, c, n);
    }
  }

  lemma PlacesAppend(places: seq<Place>, records: seq<Change>, c: Change, n: nat)
    requires |places| == |records| == n + 1 && forall i, j :: 0 <= i < j < |places| ==> places[i] != places[j]
    ensures places[n] !in PlacesOf(places[..n], records[..n], c)
    ensures PlacesOf(places, records, c)
            == PlacesOf(places[..n], records[..n], c) + if records[n] == c then {places[n]} else {}
  {
    forall p | p in PlacesOf(places, records, c)
      ensures p in PlacesOf(places[..n], records[..n], c) || (records[n] == c && p == places[n])
    {
      var k :| 0 <= k < |places| && records[k] == c && places[k] == p;
      assert k < n ==> places[..n][k] == p && records[..n][k] == c;
    }
  }

  lemma BeforeItself(block: Block, p: Place)
    ensures !Before(block, p, p)
  {
  }

  /** How often a record is collected: once for every place at which it survives, if it changes
      something and its account is selected, and otherwise never. */
  lemma CollectedTimes(filter: set<Address>, block: Block, kind: Kind, c: Change) returns (places: set<Place>)
    requires BlockRecords(block).Ok? && OfKind(c, kind)
    ensures forall p :: p in places <==> Survives(block, p) && RecordAt(block, p) == c
    ensures multiset(Output(Sorted(Extend(NOTHING, filter, BlockRecords(block).value)), kind))[c]
            == if Alters(c) && (filter == {} || c.address in filter) then |places| else 0
  {
    hide Survives, RecordAt, Alters, Before, OfKind, Extend, Sorted;
    var all := SurvivingPlaces(block);
    var listed := CollectedPlaces(filter, block, kind);
    var records := Output(Sorted(Extend(NOTHING, filter, BlockRecords(block).value)), kind);
    forall i, j | 0 <= i < j < |listed| ensures listed[i] != listed[j] {
      BeforeItself(block, listed[i]);
      assert InOrder(block, listed[i], listed[j]);
    }
    TimesListed(listed, records, c);
    places := set p | p in all && RecordAt(block, p) == c;
    WantedPlaces(filter, block, kind, c, listed, records, places);
  }

  lemma WantedPlaces(filter: set<Address>, block: Block, kind: Kind, c: Change, listed: seq<Place>,
                     records: seq<Change>, places: set<Place>)
    requires OfKind(c, kind) && Located(block, listed, records)
    requires forall p :: p in listed <==> WantedOf(filter, block, kind, p)
    requires forall p :: p in places <==> Survives(block, p) && RecordAt(block, p) == c
    ensures PlacesOf(listed, records, c) == if Alters(c) && (filter == {} || c.address in filter) then places else {}
  {
    hide Survives, RecordAt, Alters, OfKind;
    forall p | p in places && p in listed ensures p in PlacesOf(listed, records, c) {
      var k :| 0 <= k < |listed| && listed[k] == p;
    }
    assert forall p :: p in PlacesOf(listed, records, c) ==> p in listed;
  }
}

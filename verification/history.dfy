/** Native history cleanup: which whole partitions of block rows and markers may go. */
module History {
  import opened Words

  // ---------------------------------------------------------------- partitions

  /** A table stores block heights; `part` gives the partition each height lands in. */
  type Partitioning = nat -> nat

  predicate Below(stored: set<nat>, part: Partitioning, before: nat, id: nat) {
    forall n :: n in stored && part(n) == id ==> n < before
  }

  /** The partitions whose greatest height is below `before`. */
  function PartitionsBefore(stored: set<nat>, part: Partitioning, before: nat): set<nat> {
    set n | n in stored && Below(stored, part, before, part(n)) :: part(n)
  }

  function Dropped(stored: set<nat>, part: Partitioning, ids: set<nat>): set<nat> {
    set n | n in stored && part(n) !in ids
  }

  /** What is left once every partition below `before` is gone. */
  function Rest(stored: set<nat>, part: Partitioning, before: nat): set<nat> {
    Dropped(stored, part, PartitionsBefore(stored, part, before))
  }

  /** Dropping listed partitions, any of them, keeps every height from `before` on. */
  lemma DropKeeps(stored: set<nat>, part: Partitioning, before: nat, ids: set<nat>, n: nat)
    requires ids <= PartitionsBefore(stored, part, before) && n in stored && before <= n
    ensures n in Dropped(stored, part, ids)
  {
  }

  /** An interrupted cleanup that is planned again ends where an uninterrupted one does. */
  lemma DropKeepsRest(stored: set<nat>, part: Partitioning, before: nat, ids: set<nat>)
    requires ids <= PartitionsBefore(stored, part, before)
    ensures Rest(Dropped(stored, part, ids), part, before) == Rest(stored, part, before)
  {
    var left := Dropped(stored, part, ids);
    forall n | n in left ensures Below(left, part, before, part(n)) <==> Below(stored, part, before, part(n)) {
      if m :| m in stored && part(m) == part(n) && before <= m { assert m in left; }
    }
    forall n | n in stored ensures n in Rest(left, part, before) <==> n in Rest(stored, part, before) {
      InRest(stored, part, before, n);
      if n in left {
        InRest(left, part, before, n);
      } else {
        Listed(stored, part, before, part(n));
      }
    }
  }

  lemma Listed(stored: set<nat>, part: Partitioning, before: nat, id: nat)
    requires id in PartitionsBefore(stored, part, before)
    ensures Below(stored, part, before, id)
  {
  }

  /** A stored height outlives the cleanup exactly when its partition reaches `before`. */
  lemma InRest(stored: set<nat>, part: Partitioning, before: nat, n: nat)
    requires n in stored
    ensures n in Rest(stored, part, before) <==> !Below(stored, part, before, part(n))
  {
    if part(n) in PartitionsBefore(stored, part, before) { Listed(stored, part, before, part(n)); }
  }

  // ---------------------------------------------------------------- the plan

  /** A retained checkpoint, as its manifest describes it. */
  datatype Retained = Retained(ready: bool, number: nat, accounts: set<Address>)

  /** Some retained checkpoint that shares accounts with the source ends below n. */
  ghost predicate Continues(records: seq<Retained>, selected: set<Address>, n: nat) {
    exists i :: 0 <= i < |records| && !(records[i].accounts !! selected) && records[i].number < n
  }

  /** Height n is still needed: to continue a retained checkpoint or as recent history. */
  ghost predicate Needed(chosen: Retained, records: seq<Retained>, selected: set<Address>, tip: nat, keep: nat,
                         n: nat) {
    chosen.number < n || Continues(records, selected, n) || tip < n + keep
  }

  ghost predicate Plannable(chosen: Retained, records: seq<Retained>, selected: set<Address>, covers: bool, tip: nat,
                            keep: nat) {
    && keep > 0 && covers && selected <= chosen.accounts && chosen.number <= tip
    && forall i :: 0 <= i < |records| ==> records[i].ready
  }

  function Min(a: nat, b: nat): nat {
    if a <= b then a else b
  }

  /** Lowers the floor to the lowest retained checkpoint of the source's accounts. The bound
      it returns separates exactly the needed heights from the others. */
  method PlanBefore(chosen: Retained, records: seq<Retained>, selected: set<Address>, covers: bool, tip: nat, keep: nat)
    returns (r: Result<nat>)
    requires tip <= U64_MAX && chosen.number <= U64_MAX
    ensures r.Ok? <==> Plannable(chosen, records, selected, covers, tip, keep)
    ensures r.Ok? ==> r.value <= tip
    ensures r.Ok? ==> forall n :: 0 <= n <= tip ==> (r.value <= n <==> Needed(chosen, records, selected, tip, keep, n))
  {
    if keep == 0 { return Err("keep_blocks must be at least one"); }
    if !covers { return Err("checkpoint does not cover this exact native source"); }
    if !(selected <= chosen.accounts) { return Err("checkpoint does not cover all source accounts"); }
    var floor: nat := chosen.number;
    if tip < floor { return Err("native progress has not reached the checkpoint"); }
    for i := 0 to |records|
      invariant forall j :: 0 <= j < i ==> records[j].ready
      invariant floor <= chosen.number
      invariant forall n: nat :: floor < n <==> chosen.number < n || Continues(records[..i], selected, n)
    {
      if !records[i].ready { return Err("invalid retained checkpoint prevents native history cleanup"); }
      ghost var before, more := floor, records[..i + 1];
      if !(records[i].accounts !! selected) {
        floor := Min(floor, records[i].number);
      }
      forall n: nat ensures floor < n <==> chosen.number < n || Continues(more, selected, n) {
        ContinuesMore(records, i, selected, n);
        assert before < n <==> chosen.number < n || Continues(records[..i], selected, n);
      }
    }
    assert records[..|records|] == records;
    var above: nat := if floor < U64_MAX then floor + 1 else U64_MAX;
    var recent: nat := if keep - 1 <= tip then tip - (keep - 1) else 0;
    return Ok(Min(above, recent));
  }

  lemma ContinuesMore(records: seq<Retained>, i: nat, selected: set<Address>, n: nat)
    requires i < |records|
    ensures Continues(records[..i + 1], selected, n) <==>
            Continues(records[..i], selected, n) || (!(records[i].accounts !! selected) && records[i].number < n)
  {
    var more, fewer := records[..i + 1], records[..i];
    assert more[i] == records[i];
    assert forall j :: 0 <= j < i ==> more[j] == fewer[j];
  }

  /** After any subset of the planned drops, every stored block a retained checkpoint needs to
      continue, the last `keep` blocks and the cursor's own block are all still stored. */
  lemma CleanupKeepsContinuations(chosen: Retained, records: seq<Retained>, selected: set<Address>, tip: nat, keep: nat,
                                  before: nat, stored: set<nat>, part: Partitioning, ids: set<nat>, n: nat)
    requires keep > 0 && forall m :: 0 <= m <= tip ==>
             (before <= m <==> Needed(chosen, records, selected, tip, keep, m))
    requires ids <= PartitionsBefore(stored, part, before) && n in stored && n <= tip
    requires Needed(chosen, records, selected, tip, keep, n) || n == tip
    ensures n in Dropped(stored, part, ids)
  {
    assert Needed(chosen, records, selected, tip, keep, tip);
    DropKeeps(stored, part, before, ids, n);
  }

  /** The planned bound stays at or below the first block each retained checkpoint needs. */
  lemma BoundProtects(chosen: Retained, records: seq<Retained>, selected: set<Address>, tip: nat, keep: nat,
                      before: nat, i: nat)
    requires before <= tip && forall m :: 0 <= m <= tip ==>
             (before <= m <==> Needed(chosen, records, selected, tip, keep, m))
    requires i < |records| && !(records[i].accounts !! selected)
    ensures before <= records[i].number + 1
  {
    if records[i].number + 1 <= tip { assert Needed(chosen, records, selected, tip, keep, records[i].number + 1); }
  }
}

/** Chains of checkpoints, each built over the one before it. */
module Chain {
  import opened Words
  import opened Trace
  import opened Replay
  import opened Projection
  import opened Aggregation
  import opened Compaction
  import opened EndToEnd

  // ---------------------------------------------------------------- splitting a history

  /** Replaying two runs in turn is replaying their concatenation, and both are well formed
      where they start. */
  lemma {:induction false} SplitRun(s: State, filter: set<Address>, start: nat, a: seq<Block>, b: seq<Block>)
    requires Accepted(filter, a + b)
    ensures Accepted(filter, a) && Accepted(filter, b)
    ensures StateAfter(s, filter, a + b) == StateAfter(StateAfter(s, filter, a), filter, b)
    ensures WellFormedRun(s, filter, start, a + b) ==>
      WellFormedRun(s, filter, start, a) && WellFormedRun(StateAfter(s, filter, a), filter, start + |a|, b)
    decreases |b|
  {
    hide Acceptable, WellFormed, After;
    if b == [] {
      assert a + b == a;
    } else {
      var front := b[..|b| - 1];
      assert (a + b)[..|a + b| - 1] == a + front;
      SplitRun(s, filter, start, a, front);
    }
  }

  /** The history through `end`. */
  function UpTo(h: Cohort, end: nat): Cohort
    requires h.start <= end + 1 <= h.start + |h.run|
  {
    h.(run := h.run[..end + 1 - h.start])
  }

  /** The part of the history after block `after` and through `end`. */
  ghost function Between(h: Cohort, after: nat, end: nat): Cohort
    requires h.start <= after + 1 <= end + 1 <= h.start + |h.run| && Accepted(h.accounts, UpTo(h, after).run)
  {
    Cohort(h.accounts, after + 1, Final(UpTo(h, after)), h.run[after + 1 - h.start..end + 1 - h.start])
  }

  /** The whole history, from a block on, is traced. */
  ghost predicate History(h: Cohort) {
    Accepted(h.accounts, h.run) && WellFormedRun(h.before, h.accounts, h.start, h.run)
  }

  lemma UpToTraced(h: Cohort, end: nat)
    requires History(h) && h.start <= end + 1 <= h.start + |h.run|
    ensures Traced(UpTo(h, end), end)
  {
    hide Accepted, WellFormedRun, StateAfter;
    var n := end + 1 - h.start;
    assert h.run[..n] + h.run[n..] == h.run;
    SplitRun(h.before, h.accounts, h.start, h.run[..n], h.run[n..]);
  }

  lemma BetweenTraced(h: Cohort, after: nat, end: nat)
    requires History(h) && h.start <= after + 1 <= end + 1 <= h.start + |h.run|
    ensures Traced(UpTo(h, after), after) && Traced(UpTo(h, end), end)
    ensures Traced(Between(h, after, end), end) && Final(Between(h, after, end)) == Final(UpTo(h, end))
  {
    hide Accepted, WellFormedRun, StateAfter;
    var m, n := after + 1 - h.start, end + 1 - h.start;
    UpToTraced(h, after);
    UpToTraced(h, end);
    assert h.run[..m] + h.run[m..n] == h.run[..n];
    SplitRun(h.before, h.accounts, h.start, h.run[..m], h.run[m..n]);
  }

  // ---------------------------------------------------------------- a published checkpoint is a base

  function AccountsOf(sources: seq<Source>): set<Address> {
    set i, a | 0 <= i < |sources| && a in sources[i].cohort :: a
  }

  /** The checkpoint a build publishes from its sources and base. */
  ghost function Published(sources: seq<Source>, base: Option<Checkpoint>, end: nat): Checkpoint {
    Checkpoint(end, AccountsOf(sources), AggregateStorage(sources, base, end), ObservedFields(sources, base, end))
  }

  lemma {:induction false} ObservedWithin(sources: seq<Source>, base: Option<Checkpoint>, end: nat, n: nat, k: Key)
    requires Separate(sources, base) && n <= |sources| && k in ObservedFields(sources[..n], base, end)
    ensures !k.Slot? && (k.account in AccountsOf(sources) || (base.Some? && k.account in base.value.accounts))
  {
    hide OwnFields;
    if n > 0 {
      assert sources[..n][..n - 1] == sources[..n - 1];
      if k in OwnFields(sources[n - 1], end) {
        OwnFieldsWithin(sources[n - 1], end, k);
      } else {
        ObservedWithin(sources, base, end, n - 1, k);
      }
    }
  }

  /** A build that keeps the accounts of its base publishes a well-formed checkpoint. */
  lemma PublishedIsValid(sources: seq<Source>, base: Option<Checkpoint>, end: nat)
    requires Separate(sources, base) && (base.Some? ==> base.value.accounts <= AccountsOf(sources))
    ensures ValidBase(Some(Published(sources, base, end)))
  {
    var p := Published(sources, base, end);
    forall k | k in p.storage ensures k.Slot? && k.account in p.accounts && p.storage[k] != Default(k) {
      AggregateWithin(sources, base, end, k);
    }
    assert sources[..|sources|] == sources;
    forall k | k in p.fields ensures !k.Slot? && k.account in p.accounts {
      ObservedWithin(sources, base, end, |sources|, k);
    }
  }

  // ---------------------------------------------------------------- chains

  /** One build: the sources as stored then, and its target block. */
  datatype Build = Build(stored: seq<Source>, end: nat)

  /** The checkpoint at the end of a chain of builds, each over the one before. */
  ghost function Tip(builds: seq<Build>): Option<Checkpoint> {
    if builds == [] then None
    else
      var last := builds[|builds| - 1];
      Some(Published(last.stored, Tip(builds[..|builds| - 1]), last.end))
  }

  /** The account held nothing before its history begins. */
  ghost predicate FromNothing(h: Cohort) {
    forall k: Key :: k.Slot? && k.account in h.accounts ==> Read(h.before, k) == Default(k)
  }

  ghost predicate Histories(hs: seq<Cohort>) {
    && (forall i :: 0 <= i < |hs| ==> History(hs[i]) && FromNothing(hs[i]))
    && (forall i, j :: 0 <= i < j < |hs| ==> hs[i].accounts !! hs[j].accounts)
  }

  /** The i-th source of a build serves the i-th history: from just after the base and raw where
      the base already covers it, and from its own start, compacted or not, where it is new. */
  ghost predicate Serves(h: Cohort, s: Source, after: Option<nat>, end: nat)
    requires History(h)
  {
    && h.start <= end + 1 <= h.start + |h.run|
    && if after.Some? then
         && h.start <= after.value + 1 <= end + 1 && s.prefix.None?
         && Accepted(h.accounts, UpTo(h, after.value).run)
         && Accepted(h.accounts, Between(h, after.value, end).run)
         && StandsFor(s, SourceOf(Between(h, after.value, end)), end)
       else
         Accepted(h.accounts, UpTo(h, end).run) && StandsFor(s, SourceOf(UpTo(h, end)), end)
  }

  /** What the base of a build covers, and where it ends. */
  function Covered(builds: seq<Build>): nat {
    if builds == [] then 0 else |builds[|builds| - 1].stored|
  }

  function EndOf(builds: seq<Build>, i: nat): Option<nat> {
    if i < Covered(builds) then Some(builds[|builds| - 1].end) else None
  }

  /** Every build keeps the accounts of its base, may add new ones, and reads what its sources
      hold of their histories. */
  ghost predicate Continued(hs: seq<Cohort>, builds: seq<Build>)
    requires Histories(hs)
  {
    builds == []
    || (var front, last := builds[..|builds| - 1], builds[|builds| - 1];
        && Continued(hs, front) && Covered(front) <= |last.stored| <= |hs|
        && forall i :: 0 <= i < |last.stored| ==> Serves(hs[i], last.stored[i], EndOf(front, i), last.end))
  }

  /** The checkpoint holds what replaying the history from its beginning leaves. */
  ghost predicate Replayed(h: Cohort, checkpoint: Checkpoint, k: Key)
    requires History(h)
  {
    && h.start <= checkpoint.number + 1 <= h.start + |h.run| && Accepted(h.accounts, UpTo(h, checkpoint.number).run)
    && var v := Read(Final(UpTo(h, checkpoint.number)), k);
       if k.Slot? then Read(checkpoint.storage, k) == v
       else v == if k in checkpoint.fields then checkpoint.fields[k] else Read(h.before, k)
  }

  // ---------------------------------------------------------------- a chain is a replay

  /** What holds at the end of every chain. */
  ghost predicate Sound(hs: seq<Cohort>, builds: seq<Build>)
    requires Histories(hs)
  {
    && ValidBase(Tip(builds))
    && Covered(builds) <= |hs|
    && (forall i :: 0 <= i < Covered(builds) ==> builds[|builds| - 1].stored[i].cohort == hs[i].accounts)
    && (forall i, k: Key :: 0 <= i < Covered(builds) && k.account in hs[i].accounts ==>
          Replayed(hs[i], Tip(builds).value, k))
  }

  /** The cohort that the i-th source of the next build reads. */
  ghost function Part(h: Cohort, after: Option<nat>, end: nat): Cohort
    requires History(h) && h.start <= end + 1 <= h.start + |h.run|
    requires after.Some? ==> h.start <= after.value + 1 <= end + 1 && Accepted(h.accounts, UpTo(h, after.value).run)
  {
    if after.Some? then Between(h, after.value, end) else UpTo(h, end)
  }

  lemma PartTraced(h: Cohort, s: Source, after: Option<nat>, end: nat)
    requires History(h) && Serves(h, s, after, end)
    ensures Traced(Part(h, after, end), end) && StandsFor(s, SourceOf(Part(h, after, end)), end)
    ensures Accepted(h.accounts, UpTo(h, end).run) && Final(Part(h, after, end)) == Final(UpTo(h, end))
  {
    hide Accepted, WellFormedRun, StateAfter, StandsFor;
    if after.Some? { BetweenTraced(h, after.value, end); } else { UpToTraced(h, end); }
  }

  /** A history that the base covers starts from the base ... */
  lemma CoveredStarts(hs: seq<Cohort>, front: seq<Build>, i: nat, end: nat)
    requires Histories(hs) && Sound(hs, front) && i < Covered(front)
    requires var h, after := hs[i], Tip(front).value.number;
             h.start <= after + 1 <= end + 1 <= h.start + |h.run| && Accepted(h.accounts, UpTo(h, after).run)
    ensures StartsFrom(Between(hs[i], Tip(front).value.number, end), Tip(front))
  {
    var h, base := hs[i], Tip(front).value;
    forall k: Key | k.account in h.accounts ensures Replayed(h, base, k) {
    }
  }

  /** ... and one that it does not cover starts from nothing. */
  lemma NewStarts(hs: seq<Cohort>, front: seq<Build>, i: nat, c: Cohort)
    requires Histories(hs) && Sound(hs, front) && Covered(front) <= i < |hs|
    requires c.accounts == hs[i].accounts && c.before == hs[i].before
    ensures StartsFrom(c, Tip(front))
  {
    if Tip(front).Some? {
      forall a | a in hs[i].accounts ensures a !in Tip(front).value.accounts { NotCovered(hs, front, i, a); }
    }
  }

  lemma NotCovered(hs: seq<Cohort>, front: seq<Build>, i: nat, a: Address)
    requires Histories(hs) && Sound(hs, front) && Covered(front) <= i < |hs| && Tip(front).Some? && a in hs[i].accounts
    ensures a !in Tip(front).value.accounts
  {
    var stored := front[|front| - 1].stored;
    forall j | 0 <= j < |stored| ensures a !in stored[j].cohort { assert hs[j].accounts !! hs[i].accounts; }
  }

  /** The next build of a sound chain reads the histories it serves. */
  ghost predicate Next(hs: seq<Cohort>, front: seq<Build>, last: Build)
    requires Histories(hs)
  {
    && Sound(hs, front) && Covered(front) <= |last.stored| <= |hs|
    && forall i :: 0 <= i < |last.stored| ==> Serves(hs[i], last.stored[i], EndOf(front, i), last.end)
  }

  lemma ServedSource(h: Cohort, s: Source, after: Option<nat>, end: nat)
    requires History(h) && Serves(h, s, after, end)
    ensures ValidSource(s) && s.cohort == h.accounts && DeltaStart(s) <= end + 1
    ensures after.Some? ==> s.start == after.value + 1 && s.prefix.None?
  {
    hide Accepted, WellFormedRun, StateAfter, Compact;
  }

  lemma BuildCoherent(hs: seq<Cohort>, front: seq<Build>, last: Build)
    requires Histories(hs) && Next(hs, front, last)
    ensures Coherent(last.stored, Tip(front))
    ensures Tip(front).Some? ==> Tip(front).value.accounts <= AccountsOf(last.stored)
    ensures forall i :: 0 <= i < |last.stored| ==> last.stored[i].cohort == hs[i].accounts
  {
    hide Serves, ValidSource, Replayed, ValidBase;
    var stored, base := last.stored, Tip(front);
    forall i | 0 <= i < |stored|
      ensures ValidSource(stored[i]) && stored[i].cohort == hs[i].accounts && Continues(stored[i], base)
    {
      ServedSource(hs[i], stored[i], EndOf(front, i), last.end);
      if base.Some? && i >= Covered(front) {
        forall a | a in stored[i].cohort ensures a !in base.value.accounts { NotCovered(hs, front, i, a); }
      }
    }
    if base.Some? {
      var earlier := front[|front| - 1].stored;
      forall a | a in base.value.accounts ensures a in AccountsOf(stored) {
        var i :| 0 <= i < |earlier| && a in earlier[i].cohort;
        assert a in stored[i].cohort;
      }
    }
  }

  lemma SourceStarts(hs: seq<Cohort>, front: seq<Build>, last: Build, i: nat)
    requires Histories(hs) && Next(hs, front, last) && i < |last.stored|
    ensures StartsFrom(Part(hs[i], EndOf(front, i), last.end), Tip(front))
  {
    if i < Covered(front) { CoveredStarts(hs, front, i, last.end); }
    else { NewStarts(hs, front, i, Part(hs[i], EndOf(front, i), last.end)); }
  }

  /** A field the base does not hold is still as the history began. */
  lemma UnheldField(hs: seq<Cohort>, front: seq<Build>, last: Build, i: nat, k: Key)
    requires Histories(hs) && Next(hs, front, last) && i < |last.stored| && !k.Slot? && k.account in hs[i].accounts
    requires Tip(front).Some? ==> k !in Tip(front).value.fields
    ensures Read(Part(hs[i], EndOf(front, i), last.end).before, k) == Read(hs[i].before, k)
  {
    if i < Covered(front) { assert Replayed(hs[i], Tip(front).value, k); }
  }

  lemma BuildReplays(hs: seq<Cohort>, front: seq<Build>, last: Build, i: nat, k: Key)
    requires Histories(hs) && Next(hs, front, last) && i < |last.stored| && k.account in hs[i].accounts
    ensures Replayed(hs[i], Published(last.stored, Tip(front), last.end), k)
  {
    var h, base, c := hs[i], Tip(front), Part(hs[i], EndOf(front, i), last.end);
    PartTraced(h, last.stored[i], EndOf(front, i), last.end);
    SourceStarts(hs, front, last, i);
    BuildCoherent(hs, front, last);
    if k.Slot? {
      CheckpointSlotsAreReplayed(c, last.stored, base, last.end, i, k);
    } else {
      CheckpointFieldsAreReplayed(c, last.stored, base, last.end, i, k);
      OverlayKey(last.stored, base, last.end, i, k);
      if base.None? || k !in base.value.fields { UnheldField(hs, front, last, i, k); }
    }
  }

  lemma {:induction false} ChainIsSound(hs: seq<Cohort>, builds: seq<Build>)
    requires Histories(hs) && Continued(hs, builds)
    ensures Sound(hs, builds)
    decreases |builds|
  {
    if builds != [] {
      var front, last := builds[..|builds| - 1], builds[|builds| - 1];
      ChainIsSound(hs, front);
      BuildCoherent(hs, front, last);
      PublishedIsValid(last.stored, Tip(front), last.end);
      forall i, k: Key | 0 <= i < |last.stored| && k.account in hs[i].accounts
        ensures Replayed(hs[i], Tip(builds).value, k)
      {
        BuildReplays(hs, front, last, i, k);
      }
    }
  }

  /** Any chain of checkpoints, each continuing the one before, some adding accounts, some of the
      new sources compacted, ends where replaying every account's whole history ends; no base is
      taken on trust. */
  lemma ChainIsReplayed(hs: seq<Cohort>, builds: seq<Build>, i: nat, k: Key)
    requires Histories(hs) && Continued(hs, builds) && i < Covered(builds) && k.account in hs[i].accounts
    ensures Tip(builds).Some? && ValidBase(Tip(builds)) && Tip(builds).value.number == builds[|builds| - 1].end
    ensures Replayed(hs[i], Tip(builds).value, k)
  {
    ChainIsSound(hs, builds);
  }
}

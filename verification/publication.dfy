/** Publication, pinning, reading and retention as steps of concurrent processes over one
    database, each durable write or drop one step, with a crash possible anywhere. */
module Publication {
  import opened Words
  import opened Retention

  type Process = nat
  type PinId = nat

  /** What a running process holds and intends. Locks follow from the phase: losing the
      process loses its locks. */
  datatype Phase =
    | Waiting(retain: bool)                                   // writer.lock held, readers.lock wanted
    | Inserting(id: Id, content: Generation, importing: bool) // candidate rows going in
    | Proven(id: Id, content: Generation)                     // builder: stored slots match the proof
    | Complete(id: Id, content: Generation)                   // all rows checked, manifest next
    | Pruning(keep: set<Id>, todo: set<Id>, current: Option<Id>, accountsDropped: bool)
    | Reading
    | Pinning(target: Id)

  predicate HoldsWriter(p: Phase) {
    !p.Reading? && !p.Pinning?
  }

  predicate HoldsReadersExclusive(p: Phase) {
    p.Pruning?
  }

  predicate HoldsReadersShared(p: Phase) {
    p.Inserting? || p.Proven? || p.Complete? || p.Reading? || p.Pinning?
  }

  datatype State = State(
    manifests: map<Id, Generation>, accountRows: map<Id, set<nat>>, storageRows: map<Id, set<nat>>,
    pins: map<PinId, Id>, processes: map<Process, Phase>,
    used: set<Id>, usedPins: set<PinId>, published: map<Id, Generation>)

  const INITIAL := State(map[], map[], map[], map[], map[], {}, {}, map[])

  datatype Action =
    | TakeWriter(retain: bool)
    | BeginPublish(id: Id, content: Generation, importing: bool)
    | InsertStorage(batch: set<nat>)
    | ProveStorage
    | InsertAccounts(batch: set<nat>)
    | CheckCandidate
    | WriteManifest
    | BeginPrune(records: seq<Id>, keepLatest: nat)
    | DropManifest(id: Id)
    | DropAccounts
    | DropStorage
    | FinishPrune
    | TakeReader
    | SeeReady(target: Id)
    | WritePin(pin: PinId)
    | RemovePin(pin: PinId)
    | Exit                                                    // normal return, failed guard or crash

  datatype Step = Step(p: Process, action: Action)

  predicate NobodyWrites(s: State) {
    forall q :: q in s.processes ==> !HoldsWriter(s.processes[q])
  }

  predicate NobodyReads(s: State) {
    forall q :: q in s.processes ==> !HoldsReadersShared(s.processes[q])
  }

  predicate NobodyExcludesReaders(s: State) {
    forall q :: q in s.processes ==> !HoldsReadersExclusive(s.processes[q])
  }

  function Partitions(s: State): set<Id> {
    s.manifests.Keys + s.accountRows.Keys + s.storageRows.Keys
  }

  function Rows(m: map<Id, set<nat>>, id: Id): set<nat> {
    if id in m then m[id] else {}
  }

  ghost function KeepSet(s: State, records: seq<Id>, keepLatest: nat): set<Id>
    requires Listing(records, s.manifests)
  {
    set id | id in s.manifests && KeptBecause(records, s.manifests, keepLatest, s.pins.Values, id)
  }

  /** What a process in phase ph may do next. */
  ghost predicate Allowed(s: State, ph: Phase, action: Action) {
    match action
    case TakeWriter(_) => false
    case BeginPublish(id, _, _) => ph == Waiting(false) && NobodyExcludesReaders(s) && id !in s.used
    case InsertStorage(batch) => ph.Inserting? && batch <= ph.content.storageRows
    case ProveStorage => ph.Inserting? && !ph.importing && Rows(s.storageRows, ph.id) == ph.content.storageRows
    case InsertAccounts(batch) => ((ph.Inserting? && ph.importing) || ph.Proven?) && batch <= ph.content.accountRows
    case CheckCandidate =>
      && ((ph.Inserting? && ph.importing && Rows(s.storageRows, ph.id) == ph.content.storageRows) || ph.Proven?)
      && Rows(s.accountRows, ph.id) == ph.content.accountRows
    case WriteManifest => ph.Complete?
    case BeginPrune(records, keepLatest) =>
      && ph == Waiting(true) && NobodyReads(s) && NobodyExcludesReaders(s)
      && Listing(records, s.manifests) && keepLatest >= 1 && s.pins.Values <= s.manifests.Keys
    case DropManifest(id) => ph.Pruning? && ph.current.None? && id in ph.todo
    case DropAccounts => ph.Pruning? && ph.current.Some? && !ph.accountsDropped
    case DropStorage => ph.Pruning? && ph.current.Some? && ph.accountsDropped
    case FinishPrune => ph.Pruning? && ph.current.None? && ph.todo == {}
    case TakeReader => false
    case SeeReady(target) => ph.Reading? && target in s.manifests
    case WritePin(pin) => ph.Pinning? && pin !in s.usedPins
    case RemovePin(pin) => ph.Reading? && pin in s.pins
    case Exit => true
  }

  ghost predicate Enabled(s: State, step: Step) {
    if step.action.TakeWriter? then step.p !in s.processes && NobodyWrites(s)
    else if step.action.TakeReader? then step.p !in s.processes && NobodyExcludesReaders(s)
    else step.p in s.processes && Allowed(s, s.processes[step.p], step.action)
  }

  function Moved(s: State, p: Process, phase: Phase): State {
    s.(processes := s.processes[p := phase])
  }

  function Gone(s: State, p: Process): State {
    s.(processes := s.processes - {p})
  }

  ghost function Act(s: State, p: Process, ph: Phase, action: Action): State
    requires Allowed(s, ph, action)
  {
    match action
    case BeginPublish(id, content, importing) => Moved(s.(used := s.used + {id}), p, Inserting(id, content, importing))
    case InsertStorage(batch) => s.(storageRows := s.storageRows[ph.id := Rows(s.storageRows, ph.id) + batch])
    case ProveStorage => Moved(s, p, Proven(ph.id, ph.content))
    case InsertAccounts(batch) => s.(accountRows := s.accountRows[ph.id := Rows(s.accountRows, ph.id) + batch])
    case CheckCandidate => Moved(s, p, Complete(ph.id, ph.content))
    case WriteManifest =>
      Gone(s.(manifests := s.manifests[ph.id := ph.content], published := s.published[ph.id := ph.content]), p)
    case BeginPrune(records, keepLatest) =>
      var keep := KeepSet(s, records, keepLatest);
      Moved(s, p, Pruning(keep, Partitions(s) - keep, None, false))
    case DropManifest(id) =>
      Moved(s.(manifests := s.manifests - {id}), p, Pruning(ph.keep, ph.todo - {id}, Some(id), false))
    case DropAccounts => Moved(s.(accountRows := s.accountRows - {ph.current.value}), p, ph.(accountsDropped := true))
    case DropStorage =>
      Moved(s.(storageRows := s.storageRows - {ph.current.value}), p, ph.(current := None, accountsDropped := false))
    case FinishPrune => Gone(s, p)
    case SeeReady(target) => Moved(s, p, Pinning(target))
    case WritePin(pin) => Gone(s.(pins := s.pins[pin := ph.target], usedPins := s.usedPins + {pin}), p)
    case RemovePin(pin) => Gone(s.(pins := s.pins - {pin}), p)
    case Exit => Gone(s, p)
  }

  ghost function Apply(s: State, step: Step): State
    requires Enabled(s, step)
  {
    if step.action.TakeWriter? then Moved(s, step.p, Waiting(step.action.retain))
    else if step.action.TakeReader? then Moved(s, step.p, Reading)
    else Act(s, step.p, s.processes[step.p], step.action)
  }

  // ---------------------------------------------------------------- invariants

  /** flock semantics: one writer, and exclusive readers exclude every shared one. */
  ghost predicate Exclusion(s: State) {
    && (forall p, q :: p in s.processes && q in s.processes && p != q ==>
          !(HoldsWriter(s.processes[p]) && HoldsWriter(s.processes[q])))
    && (forall p, q :: p in s.processes && q in s.processes ==>
          !(HoldsReadersExclusive(s.processes[p]) && HoldsReadersShared(s.processes[q])))
  }

  /** Every manifest row present is one that was published and has all its rows. */
  ghost predicate Ready(s: State) {
    forall id :: id in s.manifests ==>
      && id in s.published && s.published[id] == s.manifests[id]
      && Rows(s.accountRows, id) == s.manifests[id].accountRows
      && Rows(s.storageRows, id) == s.manifests[id].storageRows
  }

  ghost predicate IdsUsed(s: State) {
    && s.published.Keys <= s.used && Partitions(s) <= s.used && s.pins.Keys <= s.usedPins
  }

  predicate Candidate(p: Phase) {
    p.Inserting? || p.Proven? || p.Complete?
  }

  /** A candidate generation belongs to one publisher, is unpublished, and its later phases
      have checked rows behind them. */
  ghost predicate Candidates(s: State) {
    forall p :: p in s.processes && Candidate(s.processes[p]) ==>
      var ph := s.processes[p];
      && ph.id in s.used && ph.id !in s.published
      && (ph.Proven? || ph.Complete? ==> Rows(s.storageRows, ph.id) == ph.content.storageRows)
      && (ph.Complete? ==> Rows(s.accountRows, ph.id) == ph.content.accountRows)
  }

  /** Some ready generation outside `gone` holds the account and is at least as new as g. */
  ghost predicate Covered(s: State, gone: set<Id>, g: Generation, a: Address) {
    exists id :: id in s.manifests && id !in gone && a in s.manifests[id].accounts && AtLeast(s.manifests[id], g)
  }

  ghost predicate AllCovered(s: State, gone: set<Id>) {
    forall id, a :: id in s.manifests && a in s.manifests[id].accounts ==> Covered(s, gone, s.manifests[id], a)
  }

  ghost predicate PrunePlan(s: State, ph: Phase)
    requires ph.Pruning?
  {
    && s.pins.Values !! ph.todo
    && ph.keep !! ph.todo
    && ph.keep <= s.manifests.Keys && ph.todo <= s.used
    && (ph.current.Some? ==> ph.current.value in s.used)
    && (ph.current.Some? ==> ph.current.value !in s.manifests && ph.current.value !in ph.keep)
    && (ph.accountsDropped ==> ph.current.Some? && ph.current.value !in s.accountRows)
    && Partitions(s) <= ph.keep + ph.todo + (if ph.current.Some? then {ph.current.value} else {})
    && AllCovered(s, ph.todo)
  }

  ghost predicate Plans(s: State) {
    && (forall p :: p in s.processes && s.processes[p].Pruning? ==> PrunePlan(s, s.processes[p]))
    && (forall p :: p in s.processes && s.processes[p].Pinning? ==> s.processes[p].target in s.manifests)
  }

  ghost predicate PinsReady(s: State) {
    forall pin :: pin in s.pins ==> s.pins[pin] in s.manifests
  }

  /** Every account ever published still has a ready generation at least as new. */
  ghost predicate NewestKept(s: State) {
    forall id, a :: id in s.published && a in s.published[id].accounts ==> Covered(s, {}, s.published[id], a)
  }

  ghost predicate Inv(s: State) {
    Exclusion(s) && Ready(s) && IdsUsed(s) && Candidates(s) && Plans(s) && PinsReady(s) && NewestKept(s)
  }

  // ---------------------------------------------------------------- every step keeps them

  /** Only the process table changed. */
  predicate SameTables(s: State, t: State) {
    t == s.(processes := t.processes)
  }

  lemma TablesFrame(s: State, t: State)
    requires SameTables(s, t) && Ready(s) && IdsUsed(s) && PinsReady(s) && NewestKept(s)
    ensures Ready(t) && IdsUsed(t) && PinsReady(t) && NewestKept(t)
  {
    CoverFrame(s, t, {});
  }

  /** Coverage looks at manifests and publications only. */
  lemma CoverFrame(s: State, t: State, gone: set<Id>)
    requires t.manifests == s.manifests
    ensures forall g, a :: Covered(s, gone, g, a) ==> Covered(t, gone, g, a)
  {
  }

  lemma NewestFrame(s: State, t: State)
    requires NewestKept(s) && t.manifests == s.manifests && t.published == s.published
    ensures NewestKept(t)
  {
    CoverFrame(s, t, {});
  }

  lemma GoneStep(s: State, p: Process)
    requires Inv(s)
    ensures Inv(Gone(s, p))
  {
    TablesFrame(s, Gone(s, p));
    forall q | q in Gone(s, p).processes && s.processes[q].Pruning? ensures PrunePlan(Gone(s, p), s.processes[q]) {
      PlanFrame(s, Gone(s, p), s.processes[q]);
    }
  }

  lemma PlanFrame(s: State, t: State, ph: Phase)
    requires ph.Pruning? && PrunePlan(s, ph) && SameTables(s, t)
    ensures PrunePlan(t, ph)
  {
    CoverFrame(s, t, ph.todo);
  }

  /** A process moves to a phase whose locks it may hold and whose claims are already true. */
  lemma MovedStep(s: State, p: Process, ph: Phase)
    requires Inv(s) && Exclusion(Moved(s, p, ph))
    requires Candidate(ph) ==> ph.id in s.used && ph.id !in s.published
    requires ph.Proven? || ph.Complete? ==> Rows(s.storageRows, ph.id) == ph.content.storageRows
    requires ph.Complete? ==> Rows(s.accountRows, ph.id) == ph.content.accountRows
    requires ph.Pruning? ==> PrunePlan(s, ph)
    requires ph.Pinning? ==> ph.target in s.manifests
    ensures Inv(Moved(s, p, ph))
  {
    var t := Moved(s, p, ph);
    TablesFrame(s, t);
    forall q | q in t.processes && t.processes[q].Pruning? ensures PrunePlan(t, t.processes[q]) {
      PlanFrame(s, t, t.processes[q]);
    }
  }

  lemma ExclusionMoved(s: State, p: Process, ph: Phase)
    requires Exclusion(s)
    requires HoldsWriter(ph) ==> NobodyWrites(s) || (p in s.processes && HoldsWriter(s.processes[p]))
    requires HoldsReadersExclusive(ph) ==> NobodyReads(s) || (p in s.processes && HoldsReadersExclusive(s.processes[p]))
    requires HoldsReadersShared(ph) ==>
             NobodyExcludesReaders(s) || (p in s.processes && HoldsReadersShared(s.processes[p]))
    ensures Exclusion(Moved(s, p, ph))
  {
  }

  lemma UsedStep(s: State, id: Id)
    requires Inv(s)
    ensures Inv(s.(used := s.used + {id}))
  {
    var t := s.(used := s.used + {id});
    NewestFrame(s, t);
    forall q | q in t.processes && t.processes[q].Pruning? ensures PrunePlan(t, t.processes[q]) {
      CoverFrame(s, t, t.processes[q].todo);
    }
  }

  /** While p publishes, nobody else writes and nobody prunes. */
  lemma PublisherAlone(s: State, p: Process, q: Process)
    requires Exclusion(s) && p in s.processes && q in s.processes && HoldsWriter(s.processes[p]) && p != q
    ensures !Candidate(s.processes[q]) && !s.processes[q].Pruning?
  {
  }

  /** Rows of an unpublished candidate change. */
  lemma RowsStep(s: State, p: Process, t: State)
    requires Inv(s) && p in s.processes && Candidate(s.processes[p]) && !s.processes[p].Complete?
    requires var id := s.processes[p].id;
             t == s.(accountRows := t.accountRows, storageRows := t.storageRows)
             && t.accountRows.Keys <= s.accountRows.Keys + {id} && t.storageRows.Keys <= s.storageRows.Keys + {id}
             && (forall x :: x != id ==>
                   Rows(t.accountRows, x) == Rows(s.accountRows, x) && Rows(t.storageRows, x) == Rows(s.storageRows, x))
             && (s.processes[p].Proven? ==> Rows(t.storageRows, id) == Rows(s.storageRows, id))
    ensures Inv(t)
  {
    forall q | q in s.processes && q != p ensures !Candidate(s.processes[q]) && !s.processes[q].Pruning? {
      PublisherAlone(s, p, q);
    }
    NewestFrame(s, t);
  }

  lemma ManifestCovers(s: State, id: Id, g: Generation, t: State)
    requires NewestKept(s) && id !in s.published && id !in s.manifests
    requires t.manifests == s.manifests[id := g] && t.published == s.published[id := g]
    ensures NewestKept(t)
  {
    forall x, a | x in t.published && a in t.published[x].accounts ensures Covered(t, {}, t.published[x], a) {
      if x == id {
        assert x in t.manifests;
      } else {
        assert Covered(s, {}, s.published[x], a);
        var y :| y in s.manifests && a in s.manifests[y].accounts && AtLeast(s.manifests[y], s.published[x]);
        assert y in t.manifests && t.manifests[y] == s.manifests[y];
      }
    }
  }

  /** The manifest row makes the generation ready, and ends the publisher. */
  lemma ManifestStep(s: State, p: Process)
    requires Inv(s) && p in s.processes && s.processes[p].Complete?
    ensures Inv(Act(s, p, s.processes[p], WriteManifest))
  {
    var ph, t := s.processes[p], Act(s, p, s.processes[p], WriteManifest);
    forall q | q in t.processes ensures !Candidate(s.processes[q]) && !s.processes[q].Pruning? {
      PublisherAlone(s, p, q);
    }
    assert ph.id !in s.published && ph.id !in s.manifests;
    ManifestCovers(s, ph.id, ph.content, t);
    assert Exclusion(t) && IdsUsed(t) && PinsReady(t);
    assert Candidates(t) && Plans(t);
  }

  lemma PinStep(s: State, p: Process, pin: PinId)
    requires Inv(s) && p in s.processes && s.processes[p].Pinning? && pin !in s.usedPins
    ensures Inv(Act(s, p, s.processes[p], WritePin(pin)))
  {
    var t := Act(s, p, s.processes[p], WritePin(pin));
    forall q | q in t.processes ensures !t.processes[q].Pruning? {
      assert HoldsReadersShared(s.processes[p]);
    }
    NewestFrame(s, t);
  }

  lemma UnpinStep(s: State, p: Process, pin: PinId)
    requires Inv(s) && p in s.processes && s.processes[p].Reading? && pin in s.pins
    ensures Inv(Act(s, p, s.processes[p], RemovePin(pin)))
  {
    var t := Act(s, p, s.processes[p], RemovePin(pin));
    forall q | q in t.processes ensures !t.processes[q].Pruning? {
      assert HoldsReadersShared(s.processes[p]);
    }
    NewestFrame(s, t);
  }

  /** Planning is sound: what it removes is covered by what it keeps. */
  lemma PlanSound(s: State, records: seq<Id>, keepLatest: nat)
    requires Inv(s) && Listing(records, s.manifests)
    ensures var keep := KeepSet(s, records, keepLatest);
            PrunePlan(s, Pruning(keep, Partitions(s) - keep, None, false))
  {
    var keep := KeepSet(s, records, keepLatest);
    forall x, a | x in s.manifests && a in s.manifests[x].accounts
      ensures Covered(s, Partitions(s) - keep, s.manifests[x], a)
    {
      assert x in records;
      var i :| 0 <= i < |records| && records[i] == x;
      KeepsNewest(records, s.manifests, keepLatest, s.pins.Values, i, a);
    }
  }

  /** While p prunes, it is alone. */
  lemma PrunerAlone(s: State, p: Process, q: Process)
    requires Exclusion(s) && p in s.processes && q in s.processes && s.processes[p].Pruning?
    ensures q == p
  {
  }

  lemma DropCovers(s: State, ph: Phase, id: Id, t: State, g: Generation, a: Address)
    requires ph.Pruning? && id in ph.todo && t.manifests == s.manifests - {id}
    requires Covered(s, ph.todo, g, a)
    ensures Covered(t, ph.todo - {id}, g, a)
  {
    var y :| y in s.manifests && y !in ph.todo && a in s.manifests[y].accounts && AtLeast(s.manifests[y], g);
    assert y in t.manifests && t.manifests[y] == s.manifests[y];
  }

  /** Coverage composes: what covers the coverer covers the covered. */
  lemma CoverTrans(t: State, gone: set<Id>, y: Generation, g: Generation, a: Address)
    requires Covered(t, gone, y, a) && AtLeast(y, g)
    ensures Covered(t, {}, g, a)
  {
    var z :| z in t.manifests && z !in gone && a in t.manifests[z].accounts && AtLeast(t.manifests[z], y);
    assert AtLeast(t.manifests[z], g);
  }

  lemma NewestAfterDrop(s: State, ph: Phase, id: Id, t: State, g: Generation, a: Address)
    requires ph.Pruning? && AllCovered(s, ph.todo) && id in ph.todo && t.manifests == s.manifests - {id}
    requires Covered(s, {}, g, a)
    ensures Covered(t, {}, g, a)
  {
    var y :| y in s.manifests && y !in {} && a in s.manifests[y].accounts && AtLeast(s.manifests[y], g);
    var h := s.manifests[y];
    assert Covered(s, ph.todo, h, a);
    DropCovers(s, ph, id, t, h, a);
    CoverTrans(t, ph.todo - {id}, h, g, a);
  }

  lemma DropKeepsNewest(s: State, ph: Phase, id: Id, t: State)
    requires ph.Pruning? && PrunePlan(s, ph) && id in ph.todo && NewestKept(s)
    requires t.manifests == s.manifests - {id} && t.published == s.published
    ensures NewestKept(t)
  {
    forall x, a | x in t.published && a in t.published[x].accounts ensures Covered(t, {}, t.published[x], a) {
      NewestAfterDrop(s, ph, id, t, s.published[x], a);
    }
  }

  lemma DropManifestPlan(s: State, ph: Phase, id: Id, t: State)
    requires Allowed(s, ph, DropManifest(id)) && PrunePlan(s, ph)
    requires t.manifests == s.manifests - {id} && t.accountRows == s.accountRows && t.storageRows == s.storageRows
             && t.pins == s.pins && t.used == s.used
    ensures PrunePlan(t, Pruning(ph.keep, ph.todo - {id}, Some(id), false))
  {
    forall x, a | x in t.manifests && a in t.manifests[x].accounts
      ensures Covered(t, ph.todo - {id}, t.manifests[x], a)
    {
      DropCovers(s, ph, id, t, t.manifests[x], a);
    }
  }

  lemma DropManifestTables(s: State, ph: Phase, id: Id, t: State)
    requires Allowed(s, ph, DropManifest(id)) && PrunePlan(s, ph) && Ready(s) && IdsUsed(s) && PinsReady(s)
    requires t == s.(manifests := s.manifests - {id}, processes := t.processes)
    ensures Ready(t) && IdsUsed(t) && PinsReady(t)
  {
    forall pin | pin in t.pins ensures t.pins[pin] in t.manifests { assert t.pins[pin] in s.pins.Values; }
  }

  lemma DropManifestStep(s: State, p: Process, id: Id)
    requires Inv(s) && p in s.processes && Allowed(s, s.processes[p], DropManifest(id))
    ensures Inv(Act(s, p, s.processes[p], DropManifest(id)))
  {
    var ph, t := s.processes[p], Act(s, p, s.processes[p], DropManifest(id));
    forall q | q in s.processes ensures q == p { PrunerAlone(s, p, q); }
    DropKeepsNewest(s, ph, id, t);
    DropManifestPlan(s, ph, id, t);
    DropManifestTables(s, ph, id, t);
  }

  /** Dropping the rows of a generation whose manifest is already gone. */
  lemma DropRowsStep(s: State, p: Process, ph: Phase, t: State, next: Phase)
    requires Inv(s) && p in s.processes && ph == s.processes[p] && ph.Pruning? && ph.current.Some?
    requires t == Moved(s.(accountRows := t.accountRows, storageRows := t.storageRows), p, next)
    requires t.accountRows.Keys <= s.accountRows.Keys && t.storageRows.Keys <= s.storageRows.Keys
    requires forall x :: x != ph.current.value ==>
      Rows(t.accountRows, x) == Rows(s.accountRows, x) && Rows(t.storageRows, x) == Rows(s.storageRows, x)
    requires next.Pruning? && next.keep == ph.keep && next.todo == ph.todo
    requires next.current == ph.current
             || (next.current.None? && ph.current.value !in t.accountRows && ph.current.value !in t.storageRows)
    requires next.accountsDropped ==> next.current.Some? && next.current.value !in t.accountRows
    ensures Inv(t)
  {
    forall q | q in s.processes ensures q == p { PrunerAlone(s, p, q); }
    NewestFrame(s, t);
    DropRowsPlan(s, ph, t, next);
    DropRowsTables(s, ph, t);
  }

  lemma DropRowsPlan(s: State, ph: Phase, t: State, next: Phase)
    requires ph.Pruning? && ph.current.Some? && PrunePlan(s, ph)
    requires t.manifests == s.manifests && t.pins == s.pins && t.used == s.used
    requires t.accountRows.Keys <= s.accountRows.Keys && t.storageRows.Keys <= s.storageRows.Keys
    requires next.Pruning? && next.keep == ph.keep && next.todo == ph.todo
    requires next.current == ph.current
             || (next.current.None? && ph.current.value !in t.accountRows && ph.current.value !in t.storageRows)
    requires next.accountsDropped ==> next.current.Some? && next.current.value !in t.accountRows
    ensures PrunePlan(t, next)
  {
    CoverFrame(s, t, ph.todo);
  }

  lemma DropRowsTables(s: State, ph: Phase, t: State)
    requires ph.Pruning? && ph.current.Some? && PrunePlan(s, ph) && Ready(s) && IdsUsed(s) && PinsReady(s)
    requires t == s.(accountRows := t.accountRows, storageRows := t.storageRows, processes := t.processes)
    requires t.accountRows.Keys <= s.accountRows.Keys && t.storageRows.Keys <= s.storageRows.Keys
    requires forall x :: x != ph.current.value ==>
      Rows(t.accountRows, x) == Rows(s.accountRows, x) && Rows(t.storageRows, x) == Rows(s.storageRows, x)
    ensures Ready(t) && IdsUsed(t) && PinsReady(t)
  {
  }

  /** Every step, of any process, keeps the invariant. */
  lemma StepKeepsInv(s: State, step: Step)
    requires Inv(s) && Enabled(s, step)
    ensures Inv(Apply(s, step))
  {
    var p, action := step.p, step.action;
    if action.TakeWriter? {
      ExclusionMoved(s, p, Waiting(action.retain));
      MovedStep(s, p, Waiting(action.retain));
    } else if action.TakeReader? {
      ExclusionMoved(s, p, Reading);
      MovedStep(s, p, Reading);
    } else {
      ActKeepsInv(s, p, s.processes[p], action);
    }
  }

  lemma ActKeepsInv(s: State, p: Process, ph: Phase, action: Action)
    requires Inv(s) && p in s.processes && ph == s.processes[p] && Allowed(s, ph, action)
    ensures Inv(Act(s, p, ph, action))
  {
    if Publishes(action) {
      PublishKeepsInv(s, p, ph, action);
    } else if Prunes(action) {
      PruneKeepsInv(s, p, ph, action);
    } else {
      ReadKeepsInv(s, p, ph, action);
    }
  }

  predicate Publishes(action: Action) {
    action.BeginPublish? || action.InsertStorage? || action.ProveStorage? || action.InsertAccounts?
      || action.CheckCandidate? || action.WriteManifest?
  }

  predicate Prunes(action: Action) {
    action.BeginPrune? || action.DropManifest? || action.DropAccounts? || action.DropStorage? || action.FinishPrune?
  }

  lemma BeginPublishStep(s: State, p: Process, ph: Phase, action: Action)
    requires Inv(s) && p in s.processes && ph == s.processes[p] && Allowed(s, ph, action) && action.BeginPublish?
    ensures Inv(Act(s, p, ph, action))
  {
    UsedStep(s, action.id);
    var t, next := s.(used := s.used + {action.id}), Inserting(action.id, action.content, action.importing);
    ExclusionMoved(t, p, next);
    assert action.id !in s.published;
    MovedStep(t, p, next);
  }

  lemma InsertStep(s: State, p: Process, ph: Phase, action: Action)
    requires Inv(s) && p in s.processes && ph == s.processes[p] && Allowed(s, ph, action)
             && (action.InsertStorage? || action.InsertAccounts?)
    ensures Inv(Act(s, p, ph, action))
  {
    RowsStep(s, p, Act(s, p, ph, action));
  }

  lemma CheckStep(s: State, p: Process, ph: Phase, action: Action)
    requires Inv(s) && p in s.processes && ph == s.processes[p] && Allowed(s, ph, action)
             && (action.ProveStorage? || action.CheckCandidate?)
    ensures Inv(Act(s, p, ph, action))
  {
    var next := if action.ProveStorage? then Proven(ph.id, ph.content) else Complete(ph.id, ph.content);
    ExclusionMoved(s, p, next);
    assert ph.Proven? ==> Rows(s.storageRows, ph.id) == ph.content.storageRows;
    MovedStep(s, p, next);
  }

  lemma PublishKeepsInv(s: State, p: Process, ph: Phase, action: Action)
    requires Inv(s) && p in s.processes && ph == s.processes[p] && Allowed(s, ph, action) && Publishes(action)
    ensures Inv(Act(s, p, ph, action))
  {
    if action.BeginPublish? { BeginPublishStep(s, p, ph, action); }
    else if action.WriteManifest? { ManifestStep(s, p); }
    else if action.ProveStorage? || action.CheckCandidate? { CheckStep(s, p, ph, action); }
    else { InsertStep(s, p, ph, action); }
  }

  lemma BeginPruneStep(s: State, p: Process, ph: Phase, action: Action)
    requires Inv(s) && p in s.processes && ph == s.processes[p] && Allowed(s, ph, action) && action.BeginPrune?
    ensures Inv(Act(s, p, ph, action))
  {
    var keep := KeepSet(s, action.records, action.keepLatest);
    PlanSound(s, action.records, action.keepLatest);
    ExclusionMoved(s, p, Pruning(keep, Partitions(s) - keep, None, false));
    MovedStep(s, p, Pruning(keep, Partitions(s) - keep, None, false));
  }

  lemma PruneKeepsInv(s: State, p: Process, ph: Phase, action: Action)
    requires Inv(s) && p in s.processes && ph == s.processes[p] && Allowed(s, ph, action) && Prunes(action)
    ensures Inv(Act(s, p, ph, action))
  {
    if action.BeginPrune? { BeginPruneStep(s, p, ph, action); }
    else if action.DropManifest? { DropManifestStep(s, p, action.id); }
    else if action.DropAccounts? { DropAccountsStep(s, p, ph); }
    else if action.DropStorage? { DropStorageStep(s, p, ph); }
    else { GoneStep(s, p); }
  }

  lemma DropAccountsStep(s: State, p: Process, ph: Phase)
    requires Inv(s) && p in s.processes && ph == s.processes[p] && Allowed(s, ph, DropAccounts)
    ensures Inv(Act(s, p, ph, DropAccounts))
  {
    DropRowsStep(s, p, ph, Act(s, p, ph, DropAccounts), ph.(accountsDropped := true));
  }

  lemma DropStorageStep(s: State, p: Process, ph: Phase)
    requires Inv(s) && p in s.processes && ph == s.processes[p] && Allowed(s, ph, DropStorage)
    ensures Inv(Act(s, p, ph, DropStorage))
  {
    assert PrunePlan(s, ph);
    DropRowsStep(s, p, ph, Act(s, p, ph, DropStorage), ph.(current := None, accountsDropped := false));
  }

  lemma ReadKeepsInv(s: State, p: Process, ph: Phase, action: Action)
    requires Inv(s) && p in s.processes && ph == s.processes[p] && Allowed(s, ph, action) && !Publishes(action)
             && !Prunes(action)
    ensures Inv(Act(s, p, ph, action))
  {
    if action.SeeReady? {
      ExclusionMoved(s, p, Pinning(action.target));
      MovedStep(s, p, Pinning(action.target));
    } else if action.WritePin? { PinStep(s, p, action.pin); }
    else if action.RemovePin? { UnpinStep(s, p, action.pin); }
    else { GoneStep(s, p); }
  }

  // ---------------------------------------------------------------- whole runs

  ghost predicate Executes(s: State, steps: seq<Step>, t: State)
    decreases |steps|
  {
    if steps == [] then s == t else Enabled(s, steps[0]) && Executes(Apply(s, steps[0]), steps[1..], t)
  }

  ghost predicate Reachable(t: State) {
    exists steps :: Executes(INITIAL, steps, t)
  }

  lemma {:induction false} RunKeepsInv(s: State, steps: seq<Step>, t: State)
    requires Inv(s) && Executes(s, steps, t)
    ensures Inv(t)
    decreases |steps|
  {
    if steps != [] {
      StepKeepsInv(s, steps[0]);
      RunKeepsInv(Apply(s, steps[0]), steps[1..], t);
    }
  }

  lemma ReachableInv(t: State)
    requires Reachable(t)
    ensures Inv(t)
  {
    var steps :| Executes(INITIAL, steps, t);
    RunKeepsInv(INITIAL, steps, t);
  }

  /** Readiness: in every interleaving with crashes anywhere, a manifest row that is present
      has all its account and storage rows, and every pin names a ready generation. */
  lemma ReadyInEveryRun(t: State)
    requires Reachable(t)
    ensures forall id :: id in t.manifests ==>
      Rows(t.accountRows, id) == t.manifests[id].accountRows && Rows(t.storageRows, id) == t.manifests[id].storageRows
    ensures forall pin :: pin in t.pins ==> t.pins[pin] in t.manifests
  {
    ReachableInv(t);
  }

  /** Retention: whatever was ever published, each of its accounts still has a ready
      generation that is at least as new, after any number of prunes. */
  lemma NewestGenerationSurvives(t: State, id: Id, a: Address)
    requires Reachable(t) && id in t.published && a in t.published[id].accounts
    ensures exists x :: x in t.manifests && a in t.manifests[x].accounts && AtLeast(t.manifests[x], t.published[id])
  {
    ReachableInv(t);
    assert Covered(t, {}, t.published[id], a);
  }

  /** In numbers: some ready generation that holds the account is of a block at least as late, and
      published no earlier when it is of the same block. */
  lemma NewestNumberSurvives(t: State, id: Id, a: Address) returns (x: Id)
    requires Reachable(t) && id in t.published && a in t.published[id].accounts
    ensures x in t.manifests && a in t.manifests[x].accounts
    ensures var g, h := t.manifests[x], t.published[id];
            g.number > h.number || (g.number == h.number && g.createdAt >= h.createdAt)
  {
    NewestGenerationSurvives(t, id, a);
    x :| x in t.manifests && a in t.manifests[x].accounts && AtLeast(t.manifests[x], t.published[id]);
  }

  lemma ActPublished(s: State, p: Process, ph: Phase, action: Action)
    requires Allowed(s, ph, action)
    ensures Act(s, p, ph, action).published
            == if action.WriteManifest? then s.published[ph.id := ph.content] else s.published
  {
  }

  lemma StepPublished(s: State, step: Step, id: Id)
    requires Candidates(s) && Enabled(s, step) && id in s.published
    ensures id in Apply(s, step).published && Apply(s, step).published[id] == s.published[id]
  {
    if !step.action.TakeWriter? && !step.action.TakeReader? {
      hide Act;
      ActPublished(s, step.p, s.processes[step.p], step.action);
      if step.action.WriteManifest? { assert Candidate(s.processes[step.p]); }
    }
  }

  lemma ActPins(s: State, p: Process, ph: Phase, action: Action)
    requires Allowed(s, ph, action) && !action.WritePin? && !action.RemovePin?
    ensures Act(s, p, ph, action).pins == s.pins && Act(s, p, ph, action).usedPins == s.usedPins
  {
  }

  lemma StepPins(s: State, step: Step, pin: PinId)
    requires Enabled(s, step) && pin in s.usedPins
    ensures pin in Apply(s, step).usedPins
    ensures pin in Apply(s, step).pins ==> pin in s.pins && Apply(s, step).pins[pin] == s.pins[pin]
  {
    if step.action.WritePin? || step.action.RemovePin? || step.action.TakeWriter? || step.action.TakeReader? {
    } else {
      ActPins(s, step.p, s.processes[step.p], step.action);
    }
  }

  lemma {:induction false} RunHistory(s: State, steps: seq<Step>, t: State, id: Id, pin: PinId)
    requires Inv(s) && Executes(s, steps, t)
    ensures id in s.published ==> id in t.published && t.published[id] == s.published[id]
    ensures pin in s.usedPins && pin in t.pins ==> pin in s.pins && t.pins[pin] == s.pins[pin]
    decreases |steps|
  {
    if steps != [] {
      if id in s.published { StepPublished(s, steps[0], id); }
      if pin in s.usedPins { StepPins(s, steps[0], pin); }
      StepKeepsInv(s, steps[0]);
      RunHistory(Apply(s, steps[0]), steps[1..], t, id, pin);
    }
  }

  /** Across any run, a pin that is still there names the same generation with the same rows. */
  lemma PinnedPagesNeverChange(s: State, steps: seq<Step>, t: State, pin: PinId)
    requires Reachable(s) && Executes(s, steps, t) && pin in s.pins && pin in t.pins
    ensures t.pins[pin] == s.pins[pin]
    ensures var id := s.pins[pin];
            && id in s.manifests && id in t.manifests && t.manifests[id] == s.manifests[id]
            && Rows(t.storageRows, id) == Rows(s.storageRows, id) && Rows(t.accountRows, id) == Rows(s.accountRows, id)
  {
    ReachableInv(s);
    RunKeepsInv(s, steps, t);
    RunHistory(s, steps, t, s.pins[pin], pin);
  }

  /** No step of any process unpins this pin. */
  ghost predicate NeverUnpinned(steps: seq<Step>, pin: PinId) {
    forall i :: 0 <= i < |steps| ==> steps[i].action != RemovePin(pin)
  }

  lemma StepKeepsPin(s: State, step: Step, pin: PinId)
    requires s.pins.Keys <= s.usedPins && Enabled(s, step) && pin in s.pins
    ensures pin in Apply(s, step).pins <==> step.action != RemovePin(pin)
    ensures pin in Apply(s, step).pins ==> Apply(s, step).pins[pin] == s.pins[pin]
  {
    if step.action.WritePin? || step.action.RemovePin? || step.action.TakeWriter? || step.action.TakeReader? {
    } else {
      ActPins(s, step.p, s.processes[step.p], step.action);
    }
  }

  lemma {:induction false} PinStaysGone(s: State, steps: seq<Step>, t: State, pin: PinId)
    requires Executes(s, steps, t) && pin in s.usedPins && pin !in s.pins
    ensures pin !in t.pins
    decreases |steps|
  {
    if steps != [] {
      StepPins(s, steps[0], pin);
      PinStaysGone(Apply(s, steps[0]), steps[1..], t, pin);
    }
  }

  lemma {:induction false} PinnedRun(s: State, steps: seq<Step>, t: State, pin: PinId)
    requires Inv(s) && Executes(s, steps, t) && pin in s.pins
    ensures pin in t.pins <==> NeverUnpinned(steps, pin)
    ensures pin in t.pins ==> t.pins[pin] == s.pins[pin]
    decreases |steps|
  {
    if steps != [] {
      var next, rest := Apply(s, steps[0]), steps[1..];
      StepKeepsPin(s, steps[0], pin);
      StepKeepsInv(s, steps[0]);
      assert NeverUnpinned(steps, pin) <==> steps[0].action != RemovePin(pin) && NeverUnpinned(rest, pin) by {
        assert forall i :: 0 <= i < |rest| ==> rest[i] == steps[i + 1];
        assert steps == [steps[0]] + rest;
      }
      if steps[0].action == RemovePin(pin) {
        assert pin in next.usedPins;
        PinStaysGone(next, rest, t, pin);
      } else {
        PinnedRun(next, rest, t, pin);
      }
    }
  }

  /** Over any run a pin stays, on the same generation, exactly as long as nobody removes that very
      pin; other pins, prunes and crashes never release it, and a released one never returns. */
  lemma PinLastsUntilUnpinned(s: State, steps: seq<Step>, t: State, pin: PinId)
    requires Reachable(s) && Executes(s, steps, t) && pin in s.pins
    ensures pin in t.pins <==> NeverUnpinned(steps, pin)
    ensures pin in t.pins ==> t.pins[pin] == s.pins[pin] && s.pins[pin] in t.manifests
  {
    ReachableInv(s);
    PinnedRun(s, steps, t, pin);
    RunKeepsInv(s, steps, t);
  }

  /** p is past planning and has neither finished nor been interrupted. */
  ghost predicate StillPruning(s: State, p: Process, keep: set<Id>) {
    p in s.processes && s.processes[p].Pruning? && s.processes[p].keep == keep
  }

  ghost predicate Uninterrupted(p: Process, steps: seq<Step>) {
    forall i :: 0 <= i < |steps| ==> steps[i] != Step(p, Exit) && steps[i] != Step(p, FinishPrune)
  }

  lemma PruneAction(s: State, p: Process, keep: set<Id>, step: Step)
    requires Inv(s) && Enabled(s, step) && StillPruning(s, p, keep) && step != Step(p, Exit)
             && step != Step(p, FinishPrune)
    ensures StillPruning(Apply(s, step), p, keep) && Apply(s, step).pins == s.pins
  {
    if step.p in s.processes { PrunerAlone(s, p, step.p); }
  }

  lemma {:induction false} PruneRun(s: State, p: Process, keep: set<Id>, steps: seq<Step>, t: State)
    requires Inv(s) && StillPruning(s, p, keep) && Executes(s, steps, t) && Uninterrupted(p, steps)
    ensures Inv(t) && StillPruning(t, p, keep) && t.pins == s.pins
    decreases |steps|
  {
    if steps != [] {
      assert steps[0] != Step(p, Exit) && steps[0] != Step(p, FinishPrune);
      PruneAction(s, p, keep, steps[0]);
      StepKeepsInv(s, steps[0]);
      assert forall i :: 0 <= i < |steps[1..]| ==> steps[1..][i] == steps[i + 1];
      PruneRun(Apply(s, steps[0]), p, keep, steps[1..], t);
    }
  }

  lemma PruneEnd(t: State, ph: Phase)
    requires ph.Pruning? && PrunePlan(t, ph) && ph.current.None? && ph.todo == {}
    ensures Partitions(t) == t.manifests.Keys == ph.keep
  {
  }

  /** From state s on, a prune was planned, ran without interruption and is about to finish in t. */
  ghost predicate PrunesFully(s: State, p: Process, begin: Action, steps: seq<Step>, t: State) {
    && begin.BeginPrune? && Enabled(s, Step(p, begin)) && Executes(Apply(s, Step(p, begin)), steps, t)
    && Uninterrupted(p, steps) && Enabled(t, Step(p, FinishPrune))
  }

  lemma Then(s: State, p: Process, action: Action, rest: seq<Step>, t: State) returns (steps: seq<Step>)
    requires Enabled(s, Step(p, action)) && Executes(Apply(s, Step(p, action)), rest, t)
    requires !action.Exit? && !action.FinishPrune? && Uninterrupted(p, rest)
    ensures Executes(s, steps, t) && Uninterrupted(p, steps)
  {
    steps := [Step(p, action)] + rest;
    assert steps[1..] == rest;
  }

  /** The three drops of one generation. */
  ghost predicate Drops(s: State, p: Process, id: Id, t: State) {
    && Enabled(s, Step(p, DropManifest(id)))
    && var s1 := Apply(s, Step(p, DropManifest(id)));
       && Enabled(s1, Step(p, DropAccounts))
       && var s2 := Apply(s1, Step(p, DropAccounts));
          Enabled(s2, Step(p, DropStorage)) && t == Apply(s2, Step(p, DropStorage))
  }

  lemma DropOne(s: State, p: Process, ph: Phase, id: Id) returns (t: State)
    requires p in s.processes && s.processes[p] == ph && ph.Pruning? && ph.current.None? && id in ph.todo
    ensures Drops(s, p, id, t) && p in t.processes && t.processes[p] == Pruning(ph.keep, ph.todo - {id}, None, false)
  {
    var s1 := Apply(s, Step(p, DropManifest(id)));
    var s2 := Apply(s1, Step(p, DropAccounts));
    t := Apply(s2, Step(p, DropStorage));
  }

  lemma DropThen(s: State, p: Process, id: Id, next: State, rest: seq<Step>, t: State) returns (steps: seq<Step>)
    requires Drops(s, p, id, next) && Executes(next, rest, t) && Uninterrupted(p, rest)
    ensures Executes(s, steps, t) && Uninterrupted(p, steps)
  {
    var s1 := Apply(s, Step(p, DropManifest(id)));
    steps := Then(Apply(s1, Step(p, DropAccounts)), p, DropStorage, rest, t);
    steps := Then(s1, p, DropAccounts, steps, t);
    steps := Then(s, p, DropManifest(id), steps, t);
  }

  /** From a plan on, the drops can be carried out to the end. */
  lemma {:induction false} DropAll(s: State, p: Process, ph: Phase) returns (steps: seq<Step>, t: State)
    requires p in s.processes && s.processes[p] == ph && ph.Pruning? && ph.current.None?
    ensures Executes(s, steps, t) && Uninterrupted(p, steps) && Enabled(t, Step(p, FinishPrune))
    decreases |ph.todo|
  {
    if ph.todo == {} {
      steps, t := [], s;
    } else {
      var id :| id in ph.todo;
      var next := DropOne(s, p, ph, id);
      assert |ph.todo - {id}| < |ph.todo|;
      steps, t := DropAll(next, p, next.processes[p]);
      steps := DropThen(s, p, id, next, steps, t);
    }
  }

  /** When no other process runs, a prune can be planned over any listing and run to its end. */
  lemma PruneCanFinish(s: State, p: Process, records: seq<Id>, keepLatest: nat)
    returns (planned: State, steps: seq<Step>, t: State)
    requires Reachable(s) && s.processes == map[] && Listing(records, s.manifests) && keepLatest >= 1
    ensures Enabled(s, Step(p, TakeWriter(true))) && planned == Apply(s, Step(p, TakeWriter(true)))
    ensures PrunesFully(planned, p, BeginPrune(records, keepLatest), steps, t)
  {
    ReachableInv(s);
    planned := Apply(s, Step(p, TakeWriter(true)));
    assert s.pins.Values <= s.manifests.Keys;
    var begun := Apply(planned, Step(p, BeginPrune(records, keepLatest)));
    steps, t := DropAll(begun, p, begun.processes[p]);
  }

  /** What a completed prune leaves: exactly the kept generations, as they were published. */
  lemma CompletedPrune(s: State, p: Process, begin: Action, steps: seq<Step>, t: State)
    requires Inv(s) && PrunesFully(s, p, begin, steps, t)
    ensures Partitions(t) == t.manifests.Keys == KeepSet(s, begin.records, begin.keepLatest)
    ensures t.pins == s.pins
    ensures forall x :: x in t.manifests ==> x in s.manifests && t.manifests[x] == s.manifests[x]
  {
    hide KeptBecause;
    var keep, s1 := KeepSet(s, begin.records, begin.keepLatest), Apply(s, Step(p, begin));
    StepKeepsInv(s, Step(p, begin));
    assert StillPruning(s1, p, keep);
    PruneRun(s1, p, keep, steps, t);
    PruneEnd(t, t.processes[p]);
    forall x | x in t.manifests ensures x in s.manifests && t.manifests[x] == s.manifests[x] {
      SamePublication(s, s1, steps, t, x);
    }
  }

  lemma SamePublication(s: State, s1: State, steps: seq<Step>, t: State, x: Id)
    requires Ready(s) && Inv(s1) && Executes(s1, steps, t) && Inv(t) && s1.published == s.published
    requires x in s.manifests && x in t.manifests
    ensures t.manifests[x] == s.manifests[x]
  {
    RunHistory(s1, steps, t, x, 0);
  }

  /** A prune that ran to its end leaves only ready generations, and planning again right
      away removes nothing. */
  lemma CompletedPruneIsStable(s: State, p: Process, begin: Action, steps: seq<Step>, t: State, after: seq<Id>)
    requires Reachable(s) && PrunesFully(s, p, begin, steps, t) && DistinctRanks(s.manifests)
             && Listing(after, t.manifests)
    ensures Partitions(t) == t.manifests.Keys == KeepSet(s, begin.records, begin.keepLatest)
    ensures Partitions(t) - KeepSet(t, after, begin.keepLatest) == {}
  {
    ReachableInv(s);
    CompletedPrune(s, p, begin, steps, t);
    ReplanAll(s, t, begin.records, begin.keepLatest, after);
  }

  lemma ReplanAll(s: State, t: State, records: seq<Id>, keepLatest: nat, after: seq<Id>)
    requires Listing(records, s.manifests) && DistinctRanks(s.manifests) && Listing(after, t.manifests)
             && t.pins == s.pins
    requires t.manifests.Keys == KeepSet(s, records, keepLatest)
    requires forall x :: x in t.manifests ==> x in s.manifests && t.manifests[x] == s.manifests[x]
    ensures t.manifests.Keys <= KeepSet(t, after, keepLatest)
  {
    forall id | id in t.manifests ensures id in KeepSet(t, after, keepLatest) {
      Replan(s, t, records, keepLatest, after, id);
    }
  }

  lemma Replan(s: State, t: State, records: seq<Id>, keepLatest: nat, after: seq<Id>, id: Id)
    requires Listing(records, s.manifests) && DistinctRanks(s.manifests) && Listing(after, t.manifests)
             && t.pins == s.pins
    requires t.manifests.Keys == KeepSet(s, records, keepLatest)
    requires forall x :: x in t.manifests ==> x in s.manifests && t.manifests[x] == s.manifests[x]
    requires id in t.manifests
    ensures id in KeepSet(t, after, keepLatest)
  {
    ReplanRemovesNothing(records, s.manifests, keepLatest, s.pins.Values, after, t.manifests, id);
  }

  /** Without that hypothesis, planning again removes nothing, in whatever order the database
      lists ties, exactly when every kept generation is safe. */
  lemma StableExactly(s: State, p: Process, begin: Action, steps: seq<Step>, t: State)
    requires Reachable(s) && PrunesFully(s, p, begin, steps, t)
    ensures (forall after :: Listing(after, t.manifests) ==> Partitions(t) <= KeepSet(t, after, begin.keepLatest))
            <==> forall id :: id in t.manifests ==> Safe(t.manifests, begin.keepLatest, t.pins.Values, id)
  {
    ReachableInv(s);
    CompletedPrune(s, p, begin, steps, t);
    EveryListing(t, begin.keepLatest);
  }

  lemma EveryListing(t: State, keepLatest: nat)
    requires Partitions(t) == t.manifests.Keys
    ensures (forall after :: Listing(after, t.manifests) ==> Partitions(t) <= KeepSet(t, after, keepLatest))
            <==> forall id :: id in t.manifests ==> Safe(t.manifests, keepLatest, t.pins.Values, id)
  {
    forall id | id in t.manifests
      ensures Safe(t.manifests, keepLatest, t.pins.Values, id)
              <==> forall after :: Listing(after, t.manifests) ==>
                KeptBecause(after, t.manifests, keepLatest, t.pins.Values, id)
    {
      KeptUnderEveryListing(t.manifests, keepLatest, t.pins.Values, id);
    }
  }

  // ---------------------------------------------------------------- publishing in batches

  lemma {:induction false} RunOn(s: State, steps: seq<Step>, m: State, more: seq<Step>, t: State)
    requires Executes(s, steps, m) && Executes(m, more, t)
    ensures Executes(s, steps + more, t)
    decreases |steps|
  {
    if steps == [] {
      assert steps + more == more;
    } else {
      assert (steps + more)[0] == steps[0] && (steps + more)[1..] == steps[1..] + more;
      RunOn(Apply(s, steps[0]), steps[1..], m, more, t);
    }
  }

  lemma RunStep(s: State, steps: seq<Step>, m: State, step: Step)
    requires Executes(s, steps, m) && Enabled(m, step)
    ensures Executes(s, steps + [step], Apply(m, step))
  {
    assert [step][1..] == [];
    assert Executes(Apply(m, step), [], Apply(m, step));
    RunOn(s, steps, m, [step], Apply(m, step));
  }

  function Union(batches: seq<set<nat>>): set<nat> {
    if batches == [] then {} else Union(batches[..|batches| - 1]) + batches[|batches| - 1]
  }

  lemma {:induction false} InsertStorages(s: State, p: Process, batches: seq<set<nat>>)
    returns (steps: seq<Step>, t: State)
    requires p in s.processes && s.processes[p].Inserting? && Union(batches) <= s.processes[p].content.storageRows
    ensures Executes(s, steps, t) && t == s.(storageRows := t.storageRows)
    ensures var id := s.processes[p].id; Rows(t.storageRows, id) == Rows(s.storageRows, id) + Union(batches)
  {
    if batches == [] {
      steps, t := [], s;
    } else {
      var n := |batches| - 1;
      steps, t := InsertStorages(s, p, batches[..n]);
      RunStep(s, steps, t, Step(p, InsertStorage(batches[n])));
      steps, t := steps + [Step(p, InsertStorage(batches[n]))], Apply(t, Step(p, InsertStorage(batches[n])));
    }
  }

  lemma {:induction false} InsertAllAccounts(s: State, p: Process, batches: seq<set<nat>>)
    returns (steps: seq<Step>, t: State)
    requires p in s.processes && ((s.processes[p].Inserting? && s.processes[p].importing) || s.processes[p].Proven?)
    requires Union(batches) <= s.processes[p].content.accountRows
    ensures Executes(s, steps, t) && t == s.(accountRows := t.accountRows)
    ensures var id := s.processes[p].id; Rows(t.accountRows, id) == Rows(s.accountRows, id) + Union(batches)
  {
    if batches == [] {
      steps, t := [], s;
    } else {
      var n := |batches| - 1;
      steps, t := InsertAllAccounts(s, p, batches[..n]);
      RunStep(s, steps, t, Step(p, InsertAccounts(batches[n])));
      steps, t := steps + [Step(p, InsertAccounts(batches[n]))], Apply(t, Step(p, InsertAccounts(batches[n])));
    }
  }

  lemma BeginsPublish(s: State, p: Process, id: Id, content: Generation, importing: bool)
    returns (steps: seq<Step>, t: State)
    requires NobodyWrites(s) && p !in s.processes && id !in s.used
    ensures Executes(s, steps, t) && t == Moved(s.(used := s.used + {id}), p, Inserting(id, content, importing))
    ensures p in t.processes && t.processes[p] == Inserting(id, content, importing)
    ensures t.storageRows == s.storageRows && t.accountRows == s.accountRows
  {
    var take, begin := Step(p, TakeWriter(false)), Step(p, BeginPublish(id, content, importing));
    assert Executes(s, [], s);
    RunStep(s, [], s, take);
    var begun := Apply(s, take);
    assert NobodyExcludesReaders(begun);
    RunStep(s, [] + [take], begun, begin);
    steps, t := [] + [take] + [begin], Apply(begun, begin);
  }

  /** The phase in which accounts go in: an import stays, a build has proved its slots. */
  function Filled(ph: Phase): Phase
    requires ph.Inserting?
  {
    if ph.importing then ph else Proven(ph.id, ph.content)
  }

  lemma FillsStorage(s: State, p: Process, batches: seq<set<nat>>) returns (steps: seq<Step>, t: State)
    requires p in s.processes && s.processes[p].Inserting? && Rows(s.storageRows, s.processes[p].id) == {}
    requires Union(batches) == s.processes[p].content.storageRows
    ensures Executes(s, steps, t) && t == Moved(s.(storageRows := t.storageRows), p, Filled(s.processes[p]))
    ensures p in t.processes && t.processes[p] == Filled(s.processes[p]) && t.accountRows == s.accountRows
    ensures Rows(t.storageRows, s.processes[p].id) == s.processes[p].content.storageRows
  {
    steps, t := InsertStorages(s, p, batches);
    assert t.processes == s.processes;
    if s.processes[p].importing {
      assert s.processes[p := s.processes[p]] == s.processes;
    } else {
      RunStep(s, steps, t, Step(p, ProveStorage));
      steps, t := steps + [Step(p, ProveStorage)], Apply(t, Step(p, ProveStorage));
    }
  }

  lemma EndsPublish(s: State, p: Process, batches: seq<set<nat>>) returns (steps: seq<Step>, t: State)
    requires p in s.processes && ((s.processes[p].Inserting? && s.processes[p].importing) || s.processes[p].Proven?)
    requires var ph := s.processes[p];
             && Rows(s.accountRows, ph.id) == {} && Union(batches) == ph.content.accountRows
             && (ph.Inserting? ==> Rows(s.storageRows, ph.id) == ph.content.storageRows)
    ensures Executes(s, steps, t)
    ensures var ph := s.processes[p];
            && t == Gone(s.(accountRows := t.accountRows, manifests := s.manifests[ph.id := ph.content],
                            published := s.published[ph.id := ph.content]), p)
            && Rows(t.accountRows, ph.id) == ph.content.accountRows
  {
    steps, t := InsertAllAccounts(s, p, batches);
    assert t.processes == s.processes;
    RunStep(s, steps, t, Step(p, CheckCandidate));
    steps, t := steps + [Step(p, CheckCandidate)], Apply(t, Step(p, CheckCandidate));
    RunStep(s, steps, t, Step(p, WriteManifest));
    steps, t := steps + [Step(p, WriteManifest)], Apply(t, Step(p, WriteManifest));
  }

  /** Whenever nobody writes, a generation under a fresh identifier can be published, its rows going
      in in any batches, by a build or an import, while readers and pins go on. */
  lemma PublishCanFinish(s: State, p: Process, id: Id, content: Generation, importing: bool,
                         storage: seq<set<nat>>, accounts: seq<set<nat>>)
    returns (steps: seq<Step>, t: State)
    requires Reachable(s) && NobodyWrites(s) && p !in s.processes && id !in s.used
    requires Union(storage) == content.storageRows && Union(accounts) == content.accountRows
    ensures Executes(s, steps, t)
    ensures t.manifests == s.manifests[id := content] && t.published == s.published[id := content]
    ensures Rows(t.storageRows, id) == content.storageRows && Rows(t.accountRows, id) == content.accountRows
    ensures t.pins == s.pins && t.processes == s.processes
  {
    UnusedHasNoRows(s, id);
    hide Executes, Reachable, NobodyWrites, Union, Moved, Gone, Enabled, Apply;
    var begun, filled, more, rest;
    steps, begun := BeginsPublish(s, p, id, content, importing);
    more, filled := FillsStorage(begun, p, storage);
    RunOn(s, steps, begun, more, filled);
    rest, t := EndsPublish(filled, p, accounts);
    RunOn(s, steps + more, filled, rest, t);
    steps := steps + more + rest;
    PublishedState(s, p, id, content, importing, begun, filled, t);
  }

  lemma PublishedState(s: State, p: Process, id: Id, content: Generation, importing: bool,
                       begun: State, filled: State, t: State)
    requires p !in s.processes
    requires begun == Moved(s.(used := s.used + {id}), p, Inserting(id, content, importing))
    requires filled == Moved(begun.(storageRows := filled.storageRows), p, Filled(begun.processes[p]))
    requires t == Gone(filled.(accountRows := t.accountRows, manifests := filled.manifests[id := content],
                               published := filled.published[id := content]), p)
    ensures t.manifests == s.manifests[id := content] && t.published == s.published[id := content]
    ensures t.storageRows == filled.storageRows && t.pins == s.pins && t.processes == s.processes
  {
  }

  lemma UnusedHasNoRows(s: State, id: Id)
    requires Reachable(s) && id !in s.used
    ensures Rows(s.storageRows, id) == {} && Rows(s.accountRows, id) == {}
  {
    ReachableInv(s);
    assert id !in Partitions(s);
  }

  // ---------------------------------------------------------------- what an interruption leaves

  /** A generation that nobody can publish: its name is taken, it has no manifest row and no
      publisher holds it. */
  ghost predicate Orphan(s: State, id: Id) {
    && id in s.used && id !in s.manifests
    && forall p :: p in s.processes && Candidate(s.processes[p]) ==> s.processes[p].id != id
  }

  /** A publisher that stops in any phase before its manifest row orphans its candidate. */
  lemma InterruptedPublish(s: State, p: Process)
    requires Inv(s) && p in s.processes && Candidate(s.processes[p])
    ensures Orphan(Apply(s, Step(p, Exit)), s.processes[p].id)
  {
    forall q | q in s.processes && q != p ensures !Candidate(s.processes[q]) { PublisherAlone(s, p, q); }
  }

  /** A pruner that stops after dropping a manifest row orphans that generation. */
  lemma InterruptedPrune(s: State, p: Process)
    requires Inv(s) && p in s.processes && s.processes[p].Pruning? && s.processes[p].current.Some?
    ensures Orphan(Apply(s, Step(p, Exit)), s.processes[p].current.value)
  {
    forall q | q in s.processes ensures q == p { PrunerAlone(s, p, q); }
  }

  /** In every reachable state without a writer, whatever is stored is ready or an orphan. */
  lemma LeftoversAreOrphans(s: State, id: Id)
    requires Reachable(s) && NobodyWrites(s) && id in Partitions(s)
    ensures id in s.manifests || Orphan(s, id)
  {
    ReachableInv(s);
  }

  lemma OrphanAct(s: State, p: Process, ph: Phase, action: Action, id: Id)
    requires p in s.processes && ph == s.processes[p] && Allowed(s, ph, action) && Orphan(s, id)
    ensures Orphan(Act(s, p, ph, action), id)
    ensures id !in Partitions(s) ==> id !in Partitions(Act(s, p, ph, action))
  {
  }

  /** No step publishes an orphan or brings its rows back. */
  lemma OrphanStep(s: State, step: Step, id: Id)
    requires Enabled(s, step) && Orphan(s, id)
    ensures Orphan(Apply(s, step), id)
    ensures id !in Partitions(s) ==> id !in Partitions(Apply(s, step))
  {
    if !step.action.TakeWriter? && !step.action.TakeReader? {
      OrphanAct(s, step.p, s.processes[step.p], step.action, id);
    }
  }

  lemma {:induction false} OrphanRun(s: State, steps: seq<Step>, t: State, id: Id)
    requires Executes(s, steps, t) && Orphan(s, id)
    ensures Orphan(t, id)
    ensures id !in Partitions(s) ==> id !in Partitions(t)
    decreases |steps|
  {
    if steps != [] {
      OrphanStep(s, steps[0], id);
      OrphanRun(Apply(s, steps[0]), steps[1..], t, id);
    }
  }

  /** An orphan is never published, any prune that runs to its end removes all its rows, and
      they never come back. */
  lemma OrphansAreRemoved(s: State, id: Id, wait: seq<Step>, planned: State, p: Process, begin: Action,
                          prune: seq<Step>, pruned: State, rest: seq<Step>, later: State)
    requires Inv(s) && Orphan(s, id) && Executes(s, wait, planned)
    requires PrunesFully(planned, p, begin, prune, pruned) && Executes(pruned, rest, later)
    ensures id !in planned.manifests && id !in Partitions(pruned) && id !in Partitions(later)
  {
    RunKeepsInv(s, wait, planned);
    OrphanRun(s, wait, planned, id);
    OrphanStep(planned, Step(p, begin), id);
    OrphanRun(Apply(planned, Step(p, begin)), prune, pruned, id);
    CompletedPrune(planned, p, begin, prune, pruned);
    OrphanRun(pruned, rest, later, id);
  }

  /** The generation that process p has under way. */
  function InFlight(ph: Phase): Option<Id> {
    if Candidate(ph) then Some(ph.id) else if ph.Pruning? then ph.current else None
  }

  /** Interrupt any publication before its manifest row, or any prune after it dropped one, in
      any reachable state: the generation is unpublished from then on, in every later state, and
      every prune that finishes afterwards leaves nothing of it, for good. */
  lemma InterruptionLeavesNothing(s: State, q: Process, wait: seq<Step>, planned: State, p: Process, begin: Action,
                                  prune: seq<Step>, pruned: State, rest: seq<Step>, later: State)
    requires Reachable(s) && q in s.processes && InFlight(s.processes[q]).Some?
    requires Executes(Apply(s, Step(q, Exit)), wait, planned)
    requires PrunesFully(planned, p, begin, prune, pruned) && Executes(pruned, rest, later)
    ensures var id := InFlight(s.processes[q]).value;
            id !in planned.manifests && id !in Partitions(pruned) && id !in Partitions(later)
  {
    ReachableInv(s);
    StepKeepsInv(s, Step(q, Exit));
    if Candidate(s.processes[q]) { InterruptedPublish(s, q); } else { InterruptedPrune(s, q); }
    OrphansAreRemoved(Apply(s, Step(q, Exit)), InFlight(s.processes[q]).value, wait, planned,
                      p, begin, prune, pruned, rest, later);
  }
}

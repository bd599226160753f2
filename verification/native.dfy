/** One native source as a step machine: the sink's writes, durable progress, recovery,
    compaction and history cleanup, each durable write or drop one step, with a crash
    possible anywhere. The source's run.lock admits one activity at a time; publication and
    retention exclude only compaction and cleanup. */
module Native {
  import opened Words
  import opened Trace
  import opened Projection
  import opened Aggregation
  import opened Compaction
  import opened History

  type GenerationId = nat

  /** A cursor token and the block it decodes to; tokens of one block may still differ. */
  datatype Token = Token(number: nat, salt: nat)

  datatype CursorFile = Missing | Torn | Points(token: Token)

  /** The record that the prefix pointer and the generation's manifest row both hold. */
  datatype Record = Record(generation: GenerationId, prefix: Prefix)

  datatype Activity =
    | Idle
    | Ingesting(first: nat, rowNext: nat, markNext: nat)             // the sink runs
    | Clearing(end: nat)                                             // dropping superseded generations
    | Loading(end: nat, generation: GenerationId)                    // INSERT SELECT under way
    | Loaded(end: nat, generation: GenerationId)
    | Named(end: nat, generation: GenerationId)                      // manifest row written
    | Pointed(end: nat)                                              // pointer replaced
    | Dropping(end: nat, rowIds: set<nat>, markIds: set<nat>)        // compacted history goes
    | Sweeping(end: nat)
    | Cleaning(before: nat, rowIds: set<nat>, markIds: set<nat>)     // history cleanup

  datatype State = State(
    rows: map<nat, BlockState>, markers: set<nat>, cursor: CursorFile, saved: Option<Token>,
    storage: map<GenerationId, map<Key, Value>>, manifests: map<GenerationId, Prefix>, pointer: Option<Record>,
    ready: set<nat>, protected: set<nat>, used: set<GenerationId>, activity: Activity)

  const INITIAL := State(map[], {}, Missing, None, map[], map[], None, {}, {}, {}, Idle)

  /** The finalized chain as the source would see it uncompacted, and the partition keys. */
  datatype World = World(raw: Source, rowPart: Partitioning, markPart: Partitioning)

  ghost predicate Honest(w: World) {
    ValidSource(w.raw) && w.raw.prefix.None?
  }

  datatype Action =
    | BeginIngest
    | SinkRow
    | SinkMarker
    | SinkTear
    | SinkCursor(token: Token)
    | Save
    | Recover
    | BeginCompact(end: nat)
    | DropManifest(generation: GenerationId)
    | DropStorage(generation: GenerationId)
    | BeginLoad(generation: GenerationId)
    | Insert(part: map<Key, Value>)
    | EndLoad
    | WriteManifest
    | WritePointer
    | CheckPointer
    | DropRows(id: nat)
    | DropMarkers(id: nat)
    | BeginSweep
    | FinishCompact
    | BeginCleanup(before: nat)
    | Publish(number: nat)                                           // a checkpoint sharing accounts
    | Retire(number: nat)
    | Exit                                                           // return, failed guard or crash

  // ---------------------------------------------------------------- reading the tables

  function Slots(s: State, g: GenerationId): map<Key, Value> {
    if g in s.storage then s.storage[g] else map[]
  }

  /** The source as compaction and publication read it. */
  function Stored(w: World, s: State): Source {
    Source(w.raw.cohort, w.raw.start, s.rows, if s.pointer.Some? then Some(s.pointer.value.prefix) else None)
  }

  /** Compaction keeps everything from here on. */
  function From(w: World, s: State): nat {
    KeptFrom(w.raw, Stored(w, s).prefix)
  }

  function Kept(rows: map<nat, BlockState>, part: Partitioning, ids: set<nat>): (r: map<nat, BlockState>)
    ensures r.Keys == Dropped(rows.Keys, part, ids)
  {
    map n | n in rows && part(n) !in ids :: rows[n]
  }

  /** The cursor's block is in range and has its row and its marker. */
  predicate Validated(w: World, s: State, t: Token) {
    w.raw.start <= t.number && t.number in s.rows && t.number in s.markers
  }

  predicate InProgress(w: World, s: State) {
    s.saved.Some? && Validated(w, s, s.saved.value)
  }

  /** save_progress would accept the cursor file. */
  predicate Savable(w: World, s: State) {
    && s.cursor.Points? && Validated(w, s, s.cursor.token)
    && (s.saved.Some? ==> InProgress(w, s) && s.saved.value.number <= s.cursor.token.number)
  }

  /** The native cursor is the saved one, and valid. */
  predicate Settled(w: World, s: State) {
    InProgress(w, s) && s.cursor == Points(s.saved.value)
  }

  /** load_prefix accepts the pointer: its manifest row and its stored slots match. */
  ghost predicate Loads(s: State) {
    s.pointer.Some? ==>
      var r := s.pointer.value;
      r.generation in s.manifests && s.manifests[r.generation] == r.prefix && Slots(s, r.generation) == r.prefix.storage
  }

  ghost predicate Compactable(w: World, s: State, end: nat) {
    && s.activity.Idle? && Settled(w, s) && s.ready == {} && Loads(s)
    && w.raw.start <= end <= s.saved.value.number && From(w, s) <= end && end in s.rows
    && forall n :: From(w, s) < n <= end ==> n in s.rows
  }

  /** The generations a clearing pass spares. */
  function Spared(s: State): set<GenerationId> {
    if s.pointer.Some? then {s.pointer.value.generation} else {}
  }

  function Loose(s: State): set<GenerationId> {
    s.manifests.Keys + s.storage.Keys - Spared(s)
  }

  ghost predicate SubMap(part: map<Key, Value>, whole: map<Key, Value>) {
    forall k :: k in part ==> k in whole && part[k] == whole[k]
  }

  /** A checkpoint at c whose continuation is stored as far as the source has got. */
  ghost predicate Continuable(w: World, s: State, c: nat) {
    && w.raw.start <= c + 1
    && (s.saved.Some? ==> forall n :: c < n <= s.saved.value.number ==> n in s.rows)
    && (s.cursor.Points? ==> forall n :: c < n <= s.cursor.token.number ==> n in s.rows)
    && (s.activity.Ingesting? ==> forall n :: c < n < s.activity.rowNext ==> n in s.rows)
  }

  // ---------------------------------------------------------------- steps

  ghost predicate Enabled(w: World, s: State, action: Action) {
    var a := s.activity;
    match action
    case BeginIngest =>
      a.Idle? && if s.rows == map[] then s.cursor.Missing? && s.saved.None? else Savable(w, s)
    case SinkRow => a.Ingesting? && a.rowNext in w.raw.blocks
    case SinkMarker => a.Ingesting? && a.markNext < a.rowNext
    case SinkTear => a.Ingesting?
    case SinkCursor(token) => a.Ingesting? && a.first <= token.number < a.markNext
    case Save => (a.Idle? || a.Ingesting?) && Savable(w, s)
    case Recover => a.Idle? && InProgress(w, s)
    case BeginCompact(end) => Compactable(w, s, end)
    case DropManifest(g) => (a.Clearing? || a.Sweeping?) && g in Loose(s)
    case DropStorage(g) => (a.Clearing? || a.Sweeping?) && g in Loose(s)
    case BeginLoad(g) => a.Clearing? && Loose(s) == {} && g !in s.used
    case Insert(part) => a.Loading? && SubMap(part, Compact(Stored(w, s), a.end).storage)
    case EndLoad => a.Loading? && Slots(s, a.generation) == Compact(Stored(w, s), a.end).storage
    case WriteManifest => a.Loaded?
    case WritePointer => a.Named? && a.generation in s.manifests
    case CheckPointer => a.Pointed? && Loads(s)
    case DropRows(id) => (a.Dropping? || a.Cleaning?) && id in a.rowIds
    case DropMarkers(id) => (a.Dropping? || a.Cleaning?) && id in a.markIds
    case BeginSweep => a.Dropping? && a.rowIds == {} && a.markIds == {}
    case FinishCompact => a.Sweeping? && Loose(s) == {} && Settled(w, s)
    case BeginCleanup(before) =>
      && a.Idle? && Settled(w, s) && s.ready != {} && before <= s.saved.value.number
      && forall c :: c in s.ready ==> before <= c + 1
    case Publish(c) => a.Idle? || a.Ingesting?
    case Retire(c) => (a.Idle? || a.Ingesting?) && c in s.ready && s.ready != {c}
    case Exit => true
  }

  ghost function Planned(w: World, s: State, before: nat): (set<nat>, set<nat>) {
    (PartitionsBefore(s.rows.Keys, w.rowPart, before), PartitionsBefore(s.markers, w.markPart, before))
  }

  ghost function Apply(w: World, s: State, action: Action): State
    requires Enabled(w, s, action)
  {
    var a := s.activity;
    match action
    case BeginIngest =>
      if s.rows == map[] then s.(activity := Ingesting(w.raw.start, w.raw.start, w.raw.start))
      else
        var first := s.cursor.token.number + 1;
        s.(saved := Some(s.cursor.token), activity := Ingesting(first, first, first))
    case SinkRow => s.(rows := s.rows[a.rowNext := w.raw.blocks[a.rowNext]], activity := a.(rowNext := a.rowNext + 1))
    case SinkMarker => s.(markers := s.markers + {a.markNext}, activity := a.(markNext := a.markNext + 1))
    case SinkTear => s.(cursor := Torn)
    case SinkCursor(token) => s.(cursor := Points(token))
    case Save => s.(saved := Some(s.cursor.token))
    case Recover => s.(cursor := Points(s.saved.value))
    case BeginCompact(end) =>
      if s.pointer.Some? && s.pointer.value.prefix.number == end then
        var (r, m) := Planned(w, s, end); s.(activity := Dropping(end, r, m))
      else s.(activity := Clearing(end))
    case DropManifest(g) => s.(manifests := s.manifests - {g})
    case DropStorage(g) => s.(storage := s.storage - {g})
    case BeginLoad(g) => s.(used := s.used + {g}, activity := Loading(a.end, g))
    case Insert(part) => s.(storage := s.storage[a.generation := part])
    case EndLoad => s.(activity := Loaded(a.end, a.generation))
    case WriteManifest =>
      s.(manifests := s.manifests[a.generation := Compact(Stored(w, s), a.end)], activity := Named(a.end, a.generation))
    case WritePointer =>
      s.(pointer := Some(Record(a.generation, s.manifests[a.generation])), activity := Pointed(a.end))
    case CheckPointer => var (r, m) := Planned(w, s, a.end); s.(activity := Dropping(a.end, r, m))
    case DropRows(id) => s.(rows := Kept(s.rows, w.rowPart, {id}), activity := a.(rowIds := a.rowIds - {id}))
    case DropMarkers(id) =>
      s.(markers := Dropped(s.markers, w.markPart, {id}), activity := a.(markIds := a.markIds - {id}))
    case BeginSweep => s.(activity := Sweeping(a.end))
    case FinishCompact => s.(activity := Idle)
    case BeginCleanup(before) => var (r, m) := Planned(w, s, before); s.(activity := Cleaning(before, r, m))
    case Publish(c) =>
      s.(ready := s.ready + {c}, protected := if Continuable(w, s, c) then s.protected + {c} else s.protected)
    case Retire(c) => s.(ready := s.ready - {c}, protected := s.protected - {c})
    case Exit => s.(activity := Idle)
  }

  // ---------------------------------------------------------------- invariants

  /** Every needed block below e is stored: all above the prefix while no checkpoint covers
      the accounts, and every continuation of a protected checkpoint. */
  ghost predicate StoredBelow(w: World, s: State, e: nat) {
    && (s.ready == {} ==> forall n :: From(w, s) <= n < e ==> n in s.rows)
    && (forall c, n :: c in s.protected && c < n < e ==> n in s.rows)
  }

  ghost predicate Held(w: World, s: State, t: Token) {
    Validated(w, s, t) && StoredBelow(w, s, t.number + 1)
  }

  ghost predicate Tips(w: World, s: State) {
    (s.saved.Some? ==> Held(w, s, s.saved.value)) && (s.cursor.Points? ==> Held(w, s, s.cursor.token))
  }

  /** The prefix file (bootstrap.json) names a complete generation: its manifest row and all its slots are there,
      and they are the compaction of the whole raw history through its block. */
  ghost predicate PointerComplete(w: World, s: State) {
    s.pointer.Some? ==>
      var r := s.pointer.value;
      && Loads(s) && r.generation in s.used
      && r.prefix == Compact(w.raw, r.prefix.number) && w.raw.start <= r.prefix.number
      && s.saved.Some? && r.prefix.number <= s.saved.value.number
  }

  ghost predicate Bookkeeping(w: World, s: State) {
    && s.manifests.Keys <= s.used && s.storage.Keys <= s.used
    && s.protected <= s.ready && (forall c :: c in s.protected ==> w.raw.start <= c + 1)
  }

  predicate Compacting(a: Activity) {
    a.Clearing? || a.Loading? || a.Loaded? || a.Named? || a.Pointed? || a.Dropping? || a.Sweeping?
  }

  ghost predicate Doomed(stored: set<nat>, part: Partitioning, ids: set<nat>, before: nat) {
    forall n :: n in stored && part(n) in ids ==> n < before
  }

  ghost predicate CompactingOk(w: World, s: State) {
    var a := s.activity;
    Compacting(a) ==>
      && s.ready == {} && s.saved.Some? && s.cursor == Points(s.saved.value)
      && w.raw.start <= a.end <= s.saved.value.number && From(w, s) <= a.end
      && (a.Loading? || a.Loaded? || a.Named? ==> a.generation in s.used && a.generation !in Spared(s))
      && (a.Loaded? || a.Named? ==> Slots(s, a.generation) == Compact(w.raw, a.end).storage)
      && (a.Named? ==> a.generation in s.manifests && s.manifests[a.generation] == Compact(w.raw, a.end))
      && (a.Pointed? || a.Dropping? || a.Sweeping? ==> s.pointer.Some? && s.pointer.value.prefix.number == a.end)
  }

  ghost predicate DropsOk(w: World, s: State) {
    var a := s.activity;
    && (a.Dropping? ==>
          Doomed(s.rows.Keys, w.rowPart, a.rowIds, a.end) && Doomed(s.markers, w.markPart, a.markIds, a.end))
    && (a.Cleaning? ==>
          Doomed(s.rows.Keys, w.rowPart, a.rowIds, a.before) && Doomed(s.markers, w.markPart, a.markIds, a.before))
  }

  ghost predicate CleaningOk(s: State) {
    s.activity.Cleaning? ==>
      && s.ready != {} && s.saved.Some? && s.cursor == Points(s.saved.value)
      && s.activity.before <= s.saved.value.number
      && forall c :: c in s.protected ==> s.activity.before <= c + 1
  }

  ghost predicate IngestingOk(w: World, s: State) {
    var a := s.activity;
    a.Ingesting? ==>
      && w.raw.start <= a.first <= a.markNext <= a.rowNext
      && (s.pointer.Some? ==> s.pointer.value.prefix.number < a.first)
      && StoredBelow(w, s, a.rowNext)
      && (forall n :: a.first <= n < a.rowNext ==> n in s.rows)
      && (forall n :: a.first <= n < a.markNext ==> n in s.markers)
  }

  ghost predicate Inv(w: World, s: State) {
    && RowsHonest(w.raw, s.rows) && Tips(w, s) && PointerComplete(w, s) && Bookkeeping(w, s)
    && CompactingOk(w, s) && DropsOk(w, s) && CleaningOk(s) && IngestingOk(w, s)
  }

  // ---------------------------------------------------------------- the sink and the cursor

  lemma IngestKeepsInv(w: World, s: State)
    requires Inv(w, s) && Enabled(w, s, BeginIngest)
    ensures Inv(w, Apply(w, s, BeginIngest))
  {
  }

  /** Storing more rows keeps every needed block. */
  lemma StoredGrows(w: World, s: State, t: State, e: nat)
    requires s.rows.Keys <= t.rows.Keys && t.ready == s.ready && t.protected == s.protected && t.pointer == s.pointer
    requires StoredBelow(w, s, e)
    ensures StoredBelow(w, t, e)
  {
  }

  lemma SinkRowTips(w: World, s: State)
    requires Tips(w, s) && Enabled(w, s, SinkRow)
    ensures Tips(w, Apply(w, s, SinkRow))
  {
    var t := Apply(w, s, SinkRow);
    if s.saved.Some? { StoredGrows(w, s, t, s.saved.value.number + 1); }
    if s.cursor.Points? { StoredGrows(w, s, t, s.cursor.token.number + 1); }
  }

  lemma SinkRowIngesting(w: World, s: State)
    requires IngestingOk(w, s) && Enabled(w, s, SinkRow)
    ensures IngestingOk(w, Apply(w, s, SinkRow))
  {
    StoredGrows(w, s, Apply(w, s, SinkRow), s.activity.rowNext);
  }

  lemma SinkRowKeepsInv(w: World, s: State)
    requires Inv(w, s) && Enabled(w, s, SinkRow)
    ensures Inv(w, Apply(w, s, SinkRow))
  {
    SinkRowTips(w, s);
    SinkRowIngesting(w, s);
  }

  lemma SinkMarkerKeepsInv(w: World, s: State)
    requires Inv(w, s) && Enabled(w, s, SinkMarker)
    ensures Inv(w, Apply(w, s, SinkMarker))
  {
  }

  lemma SinkTearKeepsInv(w: World, s: State)
    requires Inv(w, s) && Enabled(w, s, SinkTear)
    ensures Inv(w, Apply(w, s, SinkTear))
  {
  }

  lemma SinkCursorKeepsInv(w: World, s: State, token: Token)
    requires Inv(w, s) && Enabled(w, s, SinkCursor(token))
    ensures Inv(w, Apply(w, s, SinkCursor(token)))
  {
  }

  lemma SaveKeepsInv(w: World, s: State)
    requires Inv(w, s) && Enabled(w, s, Save)
    ensures Inv(w, Apply(w, s, Save))
  {
  }

  lemma RecoverKeepsInv(w: World, s: State)
    requires Inv(w, s) && Enabled(w, s, Recover)
    ensures Inv(w, Apply(w, s, Recover))
  {
  }

  // ---------------------------------------------------------------- compaction

  /** The stored source stands for the raw history through `end`. */
  lemma StoredStands(w: World, s: State, end: nat)
    requires Honest(w) && RowsHonest(w.raw, s.rows) && PointerComplete(w, s) && s.ready == {}
    requires w.raw.start <= end && From(w, s) <= end && StoredBelow(w, s, end + 1)
    ensures StandsFor(Stored(w, s), w.raw, end)
    ensures Compact(Stored(w, s), end) == Compact(w.raw, end)
  {
    ReachingStands(w.raw, s.rows, Stored(w, s).prefix, end);
  }

  lemma StoredCompacts(w: World, s: State)
    requires Honest(w) && Inv(w, s) && Compacting(s.activity)
    ensures Compact(Stored(w, s), s.activity.end) == Compact(w.raw, s.activity.end)
  {
    StoredStands(w, s, s.activity.end);
  }

  lemma PlannedDoomed(stored: set<nat>, part: Partitioning, before: nat)
    ensures Doomed(stored, part, PartitionsBefore(stored, part, before), before)
  {
    forall n | n in stored && part(n) in PartitionsBefore(stored, part, before) ensures n < before {
      Listed(stored, part, before, part(n));
    }
  }

  lemma BeginCompactKeepsInv(w: World, s: State, end: nat)
    requires Inv(w, s) && Enabled(w, s, BeginCompact(end))
    ensures Inv(w, Apply(w, s, BeginCompact(end)))
  {
    var (r, m) := Planned(w, s, end);
    BeginActivity(w, s, end, Clearing(end));
    if s.pointer.Some? && s.pointer.value.prefix.number == end {
      PlannedDoomed(s.rows.Keys, w.rowPart, end);
      PlannedDoomed(s.markers, w.markPart, end);
      BeginActivity(w, s, end, Dropping(end, r, m));
    }
  }

  lemma BeginActivity(w: World, s: State, end: nat, a: Activity)
    requires Inv(w, s) && Enabled(w, s, BeginCompact(end)) && (a.Clearing? || a.Dropping?) && a.end == end
    requires a.Dropping? ==> s.pointer.Some? && s.pointer.value.prefix.number == end
    requires a.Dropping? ==>
             Doomed(s.rows.Keys, w.rowPart, a.rowIds, end) && Doomed(s.markers, w.markPart, a.markIds, end)
    ensures Inv(w, s.(activity := a))
  {
  }

  lemma DropManifestKeepsInv(w: World, s: State, g: GenerationId)
    requires Inv(w, s) && Enabled(w, s, DropManifest(g))
    ensures Inv(w, Apply(w, s, DropManifest(g)))
  {
  }

  lemma DropStorageKeepsInv(w: World, s: State, g: GenerationId)
    requires Inv(w, s) && Enabled(w, s, DropStorage(g))
    ensures Inv(w, Apply(w, s, DropStorage(g)))
  {
  }

  lemma BeginLoadKeepsInv(w: World, s: State, g: GenerationId)
    requires Honest(w) && Inv(w, s) && Enabled(w, s, BeginLoad(g))
    ensures Inv(w, Apply(w, s, BeginLoad(g)))
  {
  }

  lemma InsertKeepsInv(w: World, s: State, part: map<Key, Value>)
    requires Honest(w) && Inv(w, s) && Enabled(w, s, Insert(part))
    ensures Inv(w, Apply(w, s, Insert(part)))
  {
  }

  lemma EndLoadKeepsInv(w: World, s: State)
    requires Honest(w) && Inv(w, s) && Enabled(w, s, EndLoad)
    ensures Inv(w, Apply(w, s, EndLoad))
  {
    StoredCompacts(w, s);
  }

  lemma NameKeepsInv(w: World, s: State)
    requires Honest(w) && Inv(w, s) && Enabled(w, s, WriteManifest)
    ensures Inv(w, Apply(w, s, WriteManifest))
  {
    hide Compact;
    StoredCompacts(w, s);
  }

  lemma PointKeepsInv(w: World, s: State)
    requires Inv(w, s) && Enabled(w, s, WritePointer)
    ensures Inv(w, Apply(w, s, WritePointer))
  {
  }

  lemma CheckPointerKeepsInv(w: World, s: State)
    requires Inv(w, s) && Enabled(w, s, CheckPointer)
    ensures Inv(w, Apply(w, s, CheckPointer))
  {
    PlannedDoomed(s.rows.Keys, w.rowPart, s.activity.end);
    PlannedDoomed(s.markers, w.markPart, s.activity.end);
  }

  lemma BeginSweepKeepsInv(w: World, s: State)
    requires Inv(w, s) && Enabled(w, s, BeginSweep)
    ensures Inv(w, Apply(w, s, BeginSweep))
  {
  }

  lemma FinishCompactKeepsInv(w: World, s: State)
    requires Inv(w, s) && Enabled(w, s, FinishCompact)
    ensures Inv(w, Apply(w, s, FinishCompact))
  {
  }

  /** Rows at or above the bound outlive a drop. */
  lemma RowsKept(w: World, s: State, id: nat)
    requires Enabled(w, s, DropRows(id)) && DropsOk(w, s)
    ensures var bound := if s.activity.Dropping? then s.activity.end else s.activity.before;
            forall n :: n in s.rows && bound <= n ==> n in Apply(w, s, DropRows(id)).rows
  {
  }

  lemma DropRowsStored(w: World, s: State, id: nat, e: nat)
    requires Enabled(w, s, DropRows(id)) && DropsOk(w, s) && CompactingOk(w, s) && CleaningOk(s)
             && s.protected <= s.ready
    requires StoredBelow(w, s, e)
    ensures StoredBelow(w, Apply(w, s, DropRows(id)), e)
  {
    RowsKept(w, s, id);
  }

  lemma DropRowsTips(w: World, s: State, id: nat)
    requires Inv(w, s) && Enabled(w, s, DropRows(id))
    ensures Tips(w, Apply(w, s, DropRows(id)))
  {
    RowsKept(w, s, id);
    DropRowsStored(w, s, id, s.saved.value.number + 1);
  }

  lemma DropRowsDoomed(w: World, s: State, id: nat)
    requires DropsOk(w, s) && Enabled(w, s, DropRows(id))
    ensures DropsOk(w, Apply(w, s, DropRows(id)))
  {
  }

  lemma DropRowsKeepsInv(w: World, s: State, id: nat)
    requires Inv(w, s) && Enabled(w, s, DropRows(id))
    ensures Inv(w, Apply(w, s, DropRows(id)))
  {
    hide Compact;
    DropRowsTips(w, s, id);
    DropRowsDoomed(w, s, id);
  }

  lemma DropMarkersKeepsInv(w: World, s: State, id: nat)
    requires Inv(w, s) && Enabled(w, s, DropMarkers(id))
    ensures Inv(w, Apply(w, s, DropMarkers(id)))
  {
  }

  lemma CleanupKeepsInv(w: World, s: State, before: nat)
    requires Inv(w, s) && Enabled(w, s, BeginCleanup(before))
    ensures Inv(w, Apply(w, s, BeginCleanup(before)))
  {
    PlannedDoomed(s.rows.Keys, w.rowPart, before);
    PlannedDoomed(s.markers, w.markPart, before);
  }

  lemma PublishTips(w: World, s: State, c: nat)
    requires Tips(w, s) && Enabled(w, s, Publish(c))
    ensures Tips(w, Apply(w, s, Publish(c)))
  {
  }

  lemma PublishIngesting(w: World, s: State, c: nat)
    requires IngestingOk(w, s) && Enabled(w, s, Publish(c))
    ensures IngestingOk(w, Apply(w, s, Publish(c)))
  {
  }

  lemma PublishKeepsInv(w: World, s: State, c: nat)
    requires Inv(w, s) && Enabled(w, s, Publish(c))
    ensures Inv(w, Apply(w, s, Publish(c)))
  {
    PublishTips(w, s, c);
    PublishIngesting(w, s, c);
  }

  lemma RetireKeepsInv(w: World, s: State, c: nat)
    requires Inv(w, s) && Enabled(w, s, Retire(c))
    ensures Inv(w, Apply(w, s, Retire(c)))
  {
  }

  predicate Sinks(action: Action) {
    action.BeginIngest? || action.SinkRow? || action.SinkMarker? || action.SinkTear? || action.SinkCursor?
      || action.Save? || action.Recover?
  }

  predicate Compacts(action: Action) {
    || action.DropManifest? || action.DropStorage? || action.BeginLoad? || action.Insert? || action.EndLoad?
    || action.WriteManifest?
    || action.WritePointer? || action.CheckPointer? || action.BeginSweep? || action.FinishCompact?
  }

  lemma SinksKeepInv(w: World, s: State, action: Action)
    requires Inv(w, s) && Enabled(w, s, action) && Sinks(action)
    ensures Inv(w, Apply(w, s, action))
  {
    hide Compact;
    if action.BeginIngest? { IngestKeepsInv(w, s); }
    else if action.SinkRow? { SinkRowKeepsInv(w, s); }
    else if action.SinkMarker? { SinkMarkerKeepsInv(w, s); }
    else if action.SinkTear? { SinkTearKeepsInv(w, s); }
    else if action.SinkCursor? { SinkCursorKeepsInv(w, s, action.token); }
    else if action.Save? { SaveKeepsInv(w, s); }
    else { RecoverKeepsInv(w, s); }
  }

  lemma CompactsKeepInv(w: World, s: State, action: Action)
    requires Honest(w) && Inv(w, s) && Enabled(w, s, action) && Compacts(action)
    ensures Inv(w, Apply(w, s, action))
  {
    hide Compact;
    if action.DropManifest? { DropManifestKeepsInv(w, s, action.generation); }
    else if action.DropStorage? { DropStorageKeepsInv(w, s, action.generation); }
    else if action.BeginLoad? { BeginLoadKeepsInv(w, s, action.generation); }
    else if action.Insert? { InsertKeepsInv(w, s, action.part); }
    else if action.EndLoad? { EndLoadKeepsInv(w, s); }
    else if action.WriteManifest? { NameKeepsInv(w, s); }
    else if action.WritePointer? { PointKeepsInv(w, s); }
    else if action.CheckPointer? { CheckPointerKeepsInv(w, s); }
    else if action.BeginSweep? { BeginSweepKeepsInv(w, s); }
    else { FinishCompactKeepsInv(w, s); }
  }

  lemma ExitKeepsInv(w: World, s: State)
    requires Inv(w, s)
    ensures Inv(w, Apply(w, s, Exit))
  {
  }

  /** Every step, a crash included, keeps the invariant. */
  lemma StepKeepsInv(w: World, s: State, action: Action)
    requires Honest(w) && Inv(w, s) && Enabled(w, s, action)
    ensures Inv(w, Apply(w, s, action))
  {
    hide Compact;
    if Sinks(action) { SinksKeepInv(w, s, action); }
    else if Compacts(action) { CompactsKeepInv(w, s, action); }
    else if action.BeginCompact? { BeginCompactKeepsInv(w, s, action.end); }
    else if action.BeginCleanup? { CleanupKeepsInv(w, s, action.before); }
    else if action.DropRows? { DropRowsKeepsInv(w, s, action.id); }
    else if action.DropMarkers? { DropMarkersKeepsInv(w, s, action.id); }
    else if action.Publish? { PublishKeepsInv(w, s, action.number); }
    else if action.Retire? { RetireKeepsInv(w, s, action.number); }
    else { ExitKeepsInv(w, s); }
  }

  // ---------------------------------------------------------------- whole runs

  ghost predicate Executes(w: World, s: State, actions: seq<Action>, t: State)
    decreases |actions|
  {
    if actions == [] then s == t else Enabled(w, s, actions[0]) && Executes(w, Apply(w, s, actions[0]), actions[1..], t)
  }

  ghost predicate Reachable(w: World, t: State) {
    exists actions :: Executes(w, INITIAL, actions, t)
  }

  lemma {:induction false} RunKeepsInv(w: World, s: State, actions: seq<Action>, t: State)
    requires Honest(w) && Inv(w, s) && Executes(w, s, actions, t)
    ensures Inv(w, t)
    decreases |actions|
  {
    if actions != [] {
      StepKeepsInv(w, s, actions[0]);
      RunKeepsInv(w, Apply(w, s, actions[0]), actions[1..], t);
    }
  }

  lemma ReachableInv(w: World, t: State)
    requires Honest(w) && Reachable(w, t)
    ensures Inv(w, t)
  {
    var actions :| Executes(w, INITIAL, actions, t);
    RunKeepsInv(w, INITIAL, actions, t);
  }

  /** Interrupted compaction loses nothing: at every point of every run the prefix file names a
      complete generation holding the compaction of the raw history, and while no checkpoint
      covers the accounts every block from there to the durable tip is stored unchanged. */
  lemma CompactionLosesNothing(w: World, t: State)
    requires Honest(w) && Reachable(w, t)
    ensures t.pointer.Some? ==> Loads(t) && t.pointer.value.prefix == Compact(w.raw, t.pointer.value.prefix.number)
    ensures t.saved.Some? && t.ready == {} ==> forall n :: From(w, t) <= n <= t.saved.value.number ==>
      n in t.rows && n in w.raw.blocks && t.rows[n] == w.raw.blocks[n]
  {
    ReachableInv(w, t);
  }

  /** So at every saved block from the prefix on, what is stored stands for the raw history. */
  lemma StoredThrough(w: World, t: State, end: nat)
    requires Honest(w) && Reachable(w, t) && t.ready == {} && t.saved.Some? && From(w, t) <= end <= t.saved.value.number
    ensures StandsFor(Stored(w, t), w.raw, end)
  {
    ReachableInv(w, t);
    StoredStands(w, t, end);
  }

  /** Cleanup never breaks a continuation: for every checkpoint that could be continued when
      it was published, every later block up to the durable tip stays stored. */
  lemma ContinuationsSurvive(w: World, t: State, c: nat, n: nat)
    requires Honest(w) && Reachable(w, t) && c in t.protected && t.saved.Some? && c < n <= t.saved.value.number
    ensures c in t.ready && n in t.rows && n in w.raw.blocks && t.rows[n] == w.raw.blocks[n]
  {
    ReachableInv(w, t);
  }

  /** So a protected checkpoint can be continued to any saved block from what is stored: the
      range after it stands for the raw history, unless it begins inside the compacted prefix,
      and then it is refused although every block of it is still there. */
  lemma ContinuationsStand(w: World, t: State, c: nat, end: nat)
    requires Honest(w) && Reachable(w, t) && c in t.protected && t.saved.Some? && c < end <= t.saved.value.number
    ensures SameRange(t.rows, w.raw.blocks, c + 1, end)
    ensures var prefix := Stored(w, t).prefix;
            var r := SelectPrefix(Stored(w, t).(start := c + 1), w.raw.start, prefix);
            && (r.Err? <==> prefix.Some? && c < prefix.value.number && c + 1 != w.raw.start)
            && (r.Ok? && DeltaStart(r.value) <= end + 1 ==> StandsFor(r.value, w.raw.(start := c + 1), end))
  {
    forall n | c < n <= end ensures n in t.rows && n in w.raw.blocks && t.rows[n] == w.raw.blocks[n] {
      ContinuationsSurvive(w, t, c, n);
    }
    ReachableInv(w, t);
    SelectedStands(w, t, c, end);
  }

  lemma SelectedStands(w: World, t: State, c: nat, end: nat)
    requires Honest(w) && RowsHonest(w.raw, t.rows) && PointerComplete(w, t) && c < end
             && SameRange(t.rows, w.raw.blocks, c + 1, end)
    ensures var prefix := Stored(w, t).prefix;
            var r := SelectPrefix(Stored(w, t).(start := c + 1), w.raw.start, prefix);
            && (r.Err? <==> prefix.Some? && c < prefix.value.number && c + 1 != w.raw.start)
            && (r.Ok? && DeltaStart(r.value) <= end + 1 ==> StandsFor(r.value, w.raw.(start := c + 1), end))
  {
    hide Compact;
    if t.pointer.Some? { CompactValid(w.raw, t.pointer.value.prefix.number); }
  }

  /** The saved block always has its row and its marker. */
  lemma ProgressIsBacked(w: World, t: State)
    requires Honest(w) && Reachable(w, t) && t.saved.Some?
    ensures Validated(w, t, t.saved.value)
  {
    ReachableInv(w, t);
  }

  /** The saved block number never decreases, and the prefix never moves back. */
  ghost predicate Advances(s: State, t: State) {
    && (s.saved.Some? ==> t.saved.Some? && s.saved.value.number <= t.saved.value.number)
    && (s.pointer.Some? ==> t.pointer.Some? && s.pointer.value.prefix.number <= t.pointer.value.prefix.number)
  }

  lemma PointerAdvances(w: World, s: State)
    requires Inv(w, s) && Enabled(w, s, WritePointer)
    ensures Advances(s, Apply(w, s, WritePointer))
  {
  }

  lemma StepAdvances(w: World, s: State, action: Action)
    requires Inv(w, s) && Enabled(w, s, action)
    ensures Advances(s, Apply(w, s, action))
  {
    if action.WritePointer? { PointerAdvances(w, s); }
    else if action.Save? || action.BeginIngest? { }
    else { OthersStay(w, s, action); }
  }

  lemma OthersStay(w: World, s: State, action: Action)
    requires Enabled(w, s, action) && !action.WritePointer? && !action.Save? && !action.BeginIngest?
    ensures Apply(w, s, action).saved == s.saved && Apply(w, s, action).pointer == s.pointer
  {
  }

  lemma {:induction false} ProgressNeverDecreases(w: World, s: State, actions: seq<Action>, t: State)
    requires Honest(w) && Inv(w, s) && Executes(w, s, actions, t)
    ensures Advances(s, t)
    decreases |actions|
  {
    if actions != [] {
      StepKeepsInv(w, s, actions[0]);
      StepAdvances(w, s, actions[0]);
      ProgressNeverDecreases(w, Apply(w, s, actions[0]), actions[1..], t);
    }
  }

  /** Recovery is possible whenever progress was saved and the source is idle, whatever the
      sink left in the cursor file, and makes the native cursor the saved one. */
  lemma RecoveryRestoresCursor(w: World, s: State)
    requires Honest(w) && Reachable(w, s) && s.activity.Idle? && s.saved.Some?
    ensures Enabled(w, s, Recover) && Settled(w, Apply(w, s, Recover))
    ensures Enabled(w, Apply(w, s, Recover), BeginIngest)
  {
    ReachableInv(w, s);
  }

  lemma {:induction false} ReachableOn(w: World, s: State, actions: seq<Action>, t: State)
    requires Reachable(w, s) && Executes(w, s, actions, t)
    ensures Reachable(w, t)
  {
    var before :| Executes(w, INITIAL, before, s);
    ExecutesOn(w, INITIAL, before, s, actions, t);
  }

  lemma {:induction false} ExecutesOn(w: World, s: State, a: seq<Action>, m: State, b: seq<Action>, t: State)
    requires Executes(w, s, a, m) && Executes(w, m, b, t)
    ensures Executes(w, s, a + b, t)
    decreases |a|
  {
    if a == [] {
      assert [] + b == b;
    } else {
      ExecutesOn(w, Apply(w, s, a[0]), a[1..], m, b, t);
      assert (a + b)[1..] == a[1..] + b;
    }
  }

  lemma ReachableStep(w: World, s: State, action: Action) returns (t: State)
    requires Reachable(w, s) && Enabled(w, s, action)
    ensures t == Apply(w, s, action) && Reachable(w, t)
  {
    t := Apply(w, s, action);
    assert Executes(w, s, [action], t);
    ReachableOn(w, s, [action], t);
  }

  /** Nothing was saved and no cursor points at a block, but rows or a cursor file are there. */
  ghost predicate Stuck(s: State) {
    s.activity.Idle? && s.saved.None? && !s.cursor.Points? && (s.rows != map[] || !s.cursor.Missing?)
  }

  lemma StuckStep(w: World, s: State, action: Action)
    requires Stuck(s) && Enabled(w, s, action)
    ensures Stuck(Apply(w, s, action))
  {
  }

  lemma {:induction false} StuckForGood(w: World, s: State, actions: seq<Action>, t: State)
    requires Stuck(s) && Executes(w, s, actions, t)
    ensures Stuck(t) && !Enabled(w, t, BeginIngest) && !Enabled(w, t, Recover)
    decreases |actions|
  {
    if actions != [] {
      StuckStep(w, s, actions[0]);
      StuckForGood(w, Apply(w, s, actions[0]), actions[1..], t);
    }
  }

  ghost predicate Resumes(w: World, s: State, actions: seq<Action>, t: State) {
    Executes(w, s, actions, t) && Enabled(w, t, BeginIngest)
  }

  /** An idle source can ingest again, now or after whatever else is done to it, exactly when it
      is not stuck: a first run interrupted before its first cursor leaves a source that neither
      ingestion nor recovery accepts. */
  lemma ResumableExactly(w: World, s: State)
    requires Honest(w) && Reachable(w, s) && s.activity.Idle?
    ensures (exists actions, t :: Resumes(w, s, actions, t)) <==> !Stuck(s)
  {
    if Stuck(s) {
      forall actions, t ensures !Resumes(w, s, actions, t) {
        if Executes(w, s, actions, t) { StuckForGood(w, s, actions, t); }
      }
    } else if s.saved.Some? {
      RecoveryRestoresCursor(w, s);
      assert Executes(w, s, [Recover], Apply(w, s, Recover));
      assert Resumes(w, s, [Recover], Apply(w, s, Recover));
    } else {
      ReachableInv(w, s);
      assert Resumes(w, s, [], s);
    }
  }

  // ---------------------------------------------------------------- two blocks

  /** A source whose chain has blocks 10 and 11, both without changes. */
  ghost function TwoBlocks(a: Address): World {
    World(Source({a}, 10, map[10 := QuietBlock(a, 10), 11 := QuietBlock(a, 11)], None), n => 0, n => 0)
  }

  function QuietBlock(a: Address, n: nat): BlockState {
    BlockState(n, [], [], 0, [], 5, {a}, 1, {}, {})
  }

  lemma TwoBlocksHonest(a: Address)
    ensures Honest(TwoBlocks(a))
  {
    assert forall n, o: nat :: !ResetAt(QuietBlock(a, n), a, o);
  }

  lemma FirstRow(a: Address) returns (t: State)
    ensures Reachable(TwoBlocks(a), t)
    ensures t == INITIAL.(rows := map[10 := QuietBlock(a, 10)], activity := Ingesting(10, 11, 10))
  {
    var w := TwoBlocks(a);
    assert Executes(w, INITIAL, [], INITIAL);
    t := ReachableStep(w, INITIAL, BeginIngest);
    t := ReachableStep(w, t, SinkRow);
  }

  /** Stuck states are reachable: stop the first run after its first row. */
  lemma StuckHappens(a: Address)
    ensures Honest(TwoBlocks(a)) && exists t :: Reachable(TwoBlocks(a), t) && Stuck(t)
  {
    TwoBlocksHonest(a);
    var t := FirstRow(a);
    t := ReachableStep(TwoBlocks(a), t, Exit);
    assert 10 in t.rows;
    assert Stuck(t);
  }

  lemma BothStored(a: Address) returns (t: State)
    ensures Reachable(TwoBlocks(a), t)
    ensures t == INITIAL.(rows := map[10 := QuietBlock(a, 10), 11 := QuietBlock(a, 11)], markers := {10, 11},
                          activity := Ingesting(10, 12, 12))
  {
    var w := TwoBlocks(a);
    t := FirstRow(a);
    t := ReachableStep(w, t, SinkRow);
    t := ReachableStep(w, t, SinkMarker);
    t := ReachableStep(w, t, SinkMarker);
    assert t.rows == map[10 := QuietBlock(a, 10), 11 := QuietBlock(a, 11)] && t.markers == {10, 11};
  }

  /** Both blocks ingested and saved. */
  lemma BothSaved(a: Address) returns (t: State)
    ensures Reachable(TwoBlocks(a), t)
    ensures t == INITIAL.(rows := map[10 := QuietBlock(a, 10), 11 := QuietBlock(a, 11)], markers := {10, 11},
                          cursor := Points(Token(11, 0)), saved := Some(Token(11, 0)))
  {
    var w := TwoBlocks(a);
    t := BothStored(a);
    t := ReachableStep(w, t, SinkCursor(Token(11, 0)));
    t := ReachableStep(w, t, Save);
    t := ReachableStep(w, t, Exit);
  }

  // ---------------------------------------------------------------- retrying a compaction

  /** What compaction to `end` is bound to leave of the block tables and never touches. */
  ghost predicate SameOutcome(w: World, s: State, t: State, end: nat) {
    && Rest(t.rows.Keys, w.rowPart, end) == Rest(s.rows.Keys, w.rowPart, end)
    && Rest(t.markers, w.markPart, end) == Rest(s.markers, w.markPart, end)
    && t.saved == s.saved && t.cursor == s.cursor && t.ready == s.ready && t.protected == s.protected
  }

  /** Compaction to `end` is under way, or interrupted. */
  ghost predicate Underway(w: World, s: State, t: State, end: nat) {
    && Inv(w, t) && SameOutcome(w, s, t, end) && Settled(w, t) && t.ready == {} && From(w, t) <= end
    && w.raw.start <= end <= t.saved.value.number
    && (t.activity.Idle? || (Compacting(t.activity) && t.activity.end == end))
    && (t.activity.Dropping? ==> t.activity.rowIds == PartitionsBefore(t.rows.Keys, w.rowPart, end)
                                 && t.activity.markIds == PartitionsBefore(t.markers, w.markPart, end))
    && (t.activity.Sweeping? ==>
          t.rows.Keys == Rest(s.rows.Keys, w.rowPart, end) && t.markers == Rest(s.markers, w.markPart, end))
  }

  /** The state that a completed compaction leaves, up to the name of the generation. */
  ghost predicate Compacted(w: World, s: State, t: State, end: nat) {
    && t.activity.Idle? && t.pointer.Some? && t.pointer.value.prefix == Compact(w.raw, end)
    && t.manifests == map[t.pointer.value.generation := Compact(w.raw, end)]
    && t.storage.Keys <= {t.pointer.value.generation}
    && Slots(t, t.pointer.value.generation) == Compact(w.raw, end).storage
    && t.rows.Keys == Rest(s.rows.Keys, w.rowPart, end) && t.markers == Rest(s.markers, w.markPart, end)
    && (forall n :: n in t.rows ==> n in w.raw.blocks && t.rows[n] == w.raw.blocks[n])
    && t.saved == s.saved && t.cursor == s.cursor && t.ready == s.ready && t.protected == s.protected
  }

  /** Steps of attempts to compact to `end`: the compaction's own, crashes and new attempts. */
  predicate Attempt(action: Action, end: nat) {
    (Compacts(action) && !action.FinishCompact?) || action.DropRows? || action.DropMarkers? || action.Exit?
      || action == BeginCompact(end)
  }

  /** After an interruption anywhere, compaction to the same block can be started again. */
  lemma RetryIsEnabled(w: World, s: State, t: State, end: nat)
    requires Underway(w, s, t, end) && t.activity.Idle?
    ensures Enabled(w, t, BeginCompact(end))
  {
  }

  lemma DropOne(stored: set<nat>, part: Partitioning, before: nat, id: nat)
    requires id in PartitionsBefore(stored, part, before)
    ensures var left := Dropped(stored, part, {id});
            && Rest(left, part, before) == Rest(stored, part, before)
            && PartitionsBefore(left, part, before) == PartitionsBefore(stored, part, before) - {id}
  {
    var left := Dropped(stored, part, {id});
    DropKeepsRest(stored, part, before, {id});
    forall n | n in left ensures Below(left, part, before, part(n)) <==> Below(stored, part, before, part(n)) {
      if m :| m in stored && part(m) == part(n) && before <= m { assert m in left; }
    }
    forall x ensures x in PartitionsBefore(left, part, before) <==> x in PartitionsBefore(stored, part, before) - {id} {
      if x in PartitionsBefore(stored, part, before) - {id} {
        var n :| n in stored && part(n) == x && Below(stored, part, before, x);
        assert n in left;
      }
    }
  }

  lemma DropUnderway(w: World, s: State, t: State, action: Action, end: nat)
    requires Underway(w, s, t, end) && Enabled(w, t, action) && (action.DropRows? || action.DropMarkers?)
    ensures Underway(w, s, Apply(w, t, action), end)
  {
    if action.DropRows? {
      DropRowsKeepsInv(w, t, action.id);
      DropOne(t.rows.Keys, w.rowPart, end, action.id);
    } else {
      DropMarkersKeepsInv(w, t, action.id);
      DropOne(t.markers, w.markPart, end, action.id);
    }
  }

  lemma AllDropped(stored: set<nat>, part: Partitioning, before: nat)
    requires PartitionsBefore(stored, part, before) == {}
    ensures stored == Rest(stored, part, before)
  {
  }

  /** Up to the drops, compaction changes generations and the pointer only. */
  lemma CompactsFrame(w: World, t: State, action: Action)
    requires Enabled(w, t, action) && Compacts(action) && !action.FinishCompact?
    ensures var u := Apply(w, t, action);
            && u.rows == t.rows && u.markers == t.markers && u.saved == t.saved && u.cursor == t.cursor
            && u.ready == t.ready && u.protected == t.protected && Compacting(u.activity)
            && u.activity.end == t.activity.end
  {
  }

  lemma CompactsStages(w: World, t: State, action: Action)
    requires Enabled(w, t, action) && Compacts(action)
    ensures var u := Apply(w, t, action);
            && (u.activity.Dropping? ==>
                  action.CheckPointer? && (u.activity.rowIds, u.activity.markIds) == Planned(w, t, t.activity.end))
            && (u.activity.Sweeping? ==>
                  t.activity.Sweeping? || (t.activity.Dropping? && t.activity.rowIds == {} && t.activity.markIds == {}))
  {
  }

  lemma UnderwayAfter(w: World, s: State, t: State, u: State, end: nat)
    requires Underway(w, s, t, end) && Inv(w, u)
    requires u.rows == t.rows && u.markers == t.markers && u.saved == t.saved && u.cursor == t.cursor
    requires u.ready == t.ready && u.protected == t.protected && Compacting(u.activity) && u.activity.end == end
    requires u.activity.Dropping? ==> (u.activity.rowIds, u.activity.markIds) == Planned(w, u, end)
    requires u.activity.Sweeping? ==>
             u.rows.Keys == Rest(s.rows.Keys, w.rowPart, end) && u.markers == Rest(s.markers, w.markPart, end)
    ensures Underway(w, s, u, end)
  {
  }

  lemma SweepTables(w: World, s: State, t: State, action: Action, end: nat)
    requires Underway(w, s, t, end) && Enabled(w, t, action) && Compacts(action) && !action.FinishCompact?
    ensures Apply(w, t, action).activity.Sweeping? ==>
      t.rows.Keys == Rest(s.rows.Keys, w.rowPart, end) && t.markers == Rest(s.markers, w.markPart, end)
  {
    CompactsStages(w, t, action);
    if t.activity.Dropping? && t.activity.rowIds == {} && t.activity.markIds == {} {
      AllDropped(t.rows.Keys, w.rowPart, end);
      AllDropped(t.markers, w.markPart, end);
    }
  }

  lemma CompactsTables(w: World, s: State, t: State, action: Action, end: nat) returns (u: State)
    requires Underway(w, s, t, end) && Enabled(w, t, action) && Compacts(action) && !action.FinishCompact?
    ensures u == Apply(w, t, action)
    ensures u.rows == t.rows && u.markers == t.markers && u.saved == t.saved && u.cursor == t.cursor
    ensures u.ready == t.ready && u.protected == t.protected && Compacting(u.activity) && u.activity.end == end
    ensures u.activity.Dropping? ==> (u.activity.rowIds, u.activity.markIds) == Planned(w, u, end)
    ensures u.activity.Sweeping? ==>
            u.rows.Keys == Rest(s.rows.Keys, w.rowPart, end) && u.markers == Rest(s.markers, w.markPart, end)
  {
    u := Apply(w, t, action);
    CompactsFrame(w, t, action);
    CompactsStages(w, t, action);
    SweepTables(w, s, t, action, end);
  }

  lemma CompactsUnderway(w: World, s: State, t: State, action: Action, end: nat)
    requires Honest(w) && Underway(w, s, t, end) && Enabled(w, t, action) && Compacts(action) && !action.FinishCompact?
    ensures Underway(w, s, Apply(w, t, action), end)
  {
    CompactsKeepInv(w, t, action);
    var u := CompactsTables(w, s, t, action, end);
    UnderwayAfter(w, s, t, u, end);
  }

  lemma BeginUnderway(w: World, s: State, t: State, end: nat)
    requires Underway(w, s, t, end) && Enabled(w, t, BeginCompact(end))
    ensures Underway(w, s, Apply(w, t, BeginCompact(end)), end)
  {
    BeginCompactKeepsInv(w, t, end);
    UnderwayAfter(w, s, t, Apply(w, t, BeginCompact(end)), end);
  }

  lemma ExitUnderway(w: World, s: State, t: State, end: nat)
    requires Underway(w, s, t, end)
    ensures Underway(w, s, Apply(w, t, Exit), end)
  {
    ExitKeepsInv(w, t);
  }

  lemma AttemptUnderway(w: World, s: State, t: State, action: Action, end: nat)
    requires Honest(w) && Underway(w, s, t, end) && Enabled(w, t, action) && Attempt(action, end)
    ensures Underway(w, s, Apply(w, t, action), end)
  {
    if Compacts(action) { CompactsUnderway(w, s, t, action, end); }
    else if action.BeginCompact? { BeginUnderway(w, s, t, end); }
    else if action.Exit? { ExitUnderway(w, s, t, end); }
    else { DropUnderway(w, s, t, action, end); }
  }

  lemma FinishCompacts(w: World, s: State, t: State, end: nat)
    requires Underway(w, s, t, end) && Enabled(w, t, FinishCompact)
    ensures Compacted(w, s, Apply(w, t, FinishCompact), end)
  {
    OneManifest(t);
  }

  lemma OneManifest(t: State)
    requires t.pointer.Some? && Loads(t) && Loose(t) == {}
    ensures t.manifests == map[t.pointer.value.generation := t.pointer.value.prefix]
    ensures t.storage.Keys <= {t.pointer.value.generation}
  {
    assert t.manifests.Keys == {t.pointer.value.generation};
  }

  lemma {:induction false} AttemptsUnderway(w: World, s: State, from: State, actions: seq<Action>, t: State, end: nat)
    requires Honest(w) && Underway(w, s, from, end) && Executes(w, from, actions, t)
    requires forall i :: 0 <= i < |actions| ==> Attempt(actions[i], end)
    ensures Underway(w, s, t, end)
    decreases |actions|
  {
    if actions != [] {
      AttemptUnderway(w, s, from, actions[0], end);
      AttemptsUnderway(w, s, Apply(w, from, actions[0]), actions[1..], t, end);
    }
  }

  /** However often compaction to `end` is interrupted and retried, an attempt that finishes
      leaves the one state an uninterrupted run leaves. */
  lemma RetryReachesSameState(w: World, s: State, actions: seq<Action>, t: State, end: nat)
    requires Honest(w) && Reachable(w, s) && Enabled(w, s, BeginCompact(end)) && Executes(w, s, actions, t)
    requires forall i :: 0 <= i < |actions| ==> Attempt(actions[i], end)
    ensures t.activity.Idle? ==> Enabled(w, t, BeginCompact(end))
    ensures Enabled(w, t, FinishCompact) ==> Compacted(w, s, Apply(w, t, FinishCompact), end)
  {
    ReachableInv(w, s);
    AttemptsUnderway(w, s, s, actions, t, end);
    if t.activity.Idle? { RetryIsEnabled(w, s, t, end); }
    if Enabled(w, t, FinishCompact) { FinishCompacts(w, s, t, end); }
  }

  // ---------------------------------------------------------------- a retry can always finish

  function Stage(a: Activity): nat {
    match a
    case Clearing(_) => 7
    case Loading(_, _) => 6
    case Loaded(_, _) => 5
    case Named(_, _) => 4
    case Pointed(_) => 3
    case Dropping(_, _, _) => 2
    case Sweeping(_) => 1
    case _ => 8
  }

  /** What is left to do within the stage. */
  ghost function Work(w: World, s: State): nat {
    var a := s.activity;
    if a.Clearing? || a.Sweeping? then |s.manifests.Keys - Spared(s)| + |s.storage.Keys - Spared(s)|
    else if a.Loading? then if Slots(s, a.generation) == Compact(w.raw, a.end).storage then 0 else 1
    else if a.Dropping? then |a.rowIds| + |a.markIds|
    else 0
  }

  ghost predicate Nearer(w: World, s: State, t: State) {
    Stage(t.activity) < Stage(s.activity) || (Stage(t.activity) == Stage(s.activity) && Work(w, t) < Work(w, s))
  }

  lemma Fewer(keys: set<nat>, spared: set<nat>, g: nat)
    requires g in keys && g !in spared
    ensures |keys - {g} - spared| < |keys - spared|
  {
    assert keys - {g} - spared == (keys - spared) - {g};
  }

  /** The action is enabled, belongs to the attempt and brings the end nearer. */
  ghost predicate Useful(w: World, t: State, action: Action, end: nat) {
    Enabled(w, t, action) && Attempt(action, end) && Nearer(w, t, Apply(w, t, action))
  }

  lemma NearerCleared(w: World, s: State, t: State)
    requires (s.activity.Clearing? || s.activity.Sweeping?) && t.activity == s.activity && t.pointer == s.pointer
    requires |t.manifests.Keys - Spared(s)| + |t.storage.Keys - Spared(s)|
             < |s.manifests.Keys - Spared(s)| + |s.storage.Keys - Spared(s)|
    ensures Nearer(w, s, t)
  {
    hide Compact, Slots;
  }

  lemma ClearsManifest(w: World, t: State, g: GenerationId, end: nat)
    requires (t.activity.Clearing? || t.activity.Sweeping?) && g in t.manifests && g !in Spared(t)
    ensures Useful(w, t, DropManifest(g), end)
  {
    hide Nearer, Compact, Slots, Stored, Kept, Dropped, Planned, Compactable, Savable, Settled, Loads;
    Fewer(t.manifests.Keys, Spared(t), g);
    var after := t.(manifests := t.manifests - {g});
    assert after.manifests.Keys == t.manifests.Keys - {g};
    assert Enabled(w, t, DropManifest(g)) && Apply(w, t, DropManifest(g)) == after;
    NearerCleared(w, t, after);
  }

  lemma ClearsStorage(w: World, t: State, g: GenerationId, end: nat)
    requires (t.activity.Clearing? || t.activity.Sweeping?) && g in t.storage && g !in Spared(t)
    ensures Useful(w, t, DropStorage(g), end)
  {
    hide Nearer, Compact, Slots, Stored, Kept, Dropped, Planned, Compactable, Savable, Settled, Loads;
    Fewer(t.storage.Keys, Spared(t), g);
    var after := t.(storage := t.storage - {g});
    assert after.storage.Keys == t.storage.Keys - {g};
    assert Enabled(w, t, DropStorage(g)) && Apply(w, t, DropStorage(g)) == after;
    NearerCleared(w, t, after);
  }

  lemma NextClear(w: World, t: State, end: nat) returns (action: Action)
    requires (t.activity.Clearing? || t.activity.Sweeping?) && Loose(t) != {}
    ensures Useful(w, t, action, end)
  {
    var g :| g in Loose(t);
    if g in t.manifests {
      ClearsManifest(w, t, g, end);
      action := DropManifest(g);
    } else {
      ClearsStorage(w, t, g, end);
      action := DropStorage(g);
    }
  }

  lemma NextBegin(w: World, t: State, end: nat) returns (action: Action)
    requires t.activity.Clearing? && Loose(t) == {}
    ensures Useful(w, t, action, end)
  {
    var g := Fresh(t.used);
    action := BeginLoad(g);
  }

  lemma InsertUseful(w: World, t: State, end: nat, whole: map<Key, Value>)
    requires t.activity.Loading? && t.activity.end == end && Compact(Stored(w, t), end) == Compact(w.raw, end)
    requires whole == Compact(w.raw, end).storage && Slots(t, t.activity.generation) != whole
    ensures Useful(w, t, Insert(whole), end)
  {
    assert Slots(t.(storage := t.storage[t.activity.generation := whole]), t.activity.generation) == whole;
  }

  lemma EndLoadUseful(w: World, t: State, end: nat)
    requires t.activity.Loading? && t.activity.end == end
             && Slots(t, t.activity.generation) == Compact(Stored(w, t), end).storage
    ensures Useful(w, t, EndLoad, end)
  {
    hide Compact;
    assert Apply(w, t, EndLoad).activity.Loaded?;
  }

  lemma NextLoad(w: World, t: State, end: nat) returns (action: Action)
    requires t.activity.Loading? && t.activity.end == end && Compact(Stored(w, t), end) == Compact(w.raw, end)
    ensures Useful(w, t, action, end)
  {
    var whole := Compact(w.raw, end).storage;
    if Slots(t, t.activity.generation) == whole {
      EndLoadUseful(w, t, end);
      action := EndLoad;
    } else {
      InsertUseful(w, t, end, whole);
      action := Insert(whole);
    }
  }

  lemma ManifestUseful(w: World, t: State, end: nat)
    requires t.activity.Loaded?
    ensures Useful(w, t, WriteManifest, end)
  {
    hide Compact;
    assert Apply(w, t, WriteManifest).activity.Named?;
  }

  lemma PointerUseful(w: World, t: State, end: nat)
    requires t.activity.Named? && t.activity.generation in t.manifests
    ensures Useful(w, t, WritePointer, end)
  {
    assert Apply(w, t, WritePointer).activity.Pointed?;
  }

  lemma CheckUseful(w: World, t: State, end: nat)
    requires t.activity.Pointed? && Loads(t)
    ensures Useful(w, t, CheckPointer, end)
  {
    assert Apply(w, t, CheckPointer).activity.Dropping?;
  }

  lemma SweepUseful(w: World, t: State, end: nat)
    requires t.activity.Dropping? && t.activity.rowIds == {} && t.activity.markIds == {}
    ensures Useful(w, t, BeginSweep, end)
  {
    assert Apply(w, t, BeginSweep).activity.Sweeping?;
  }

  lemma NextWrite(w: World, t: State, end: nat) returns (action: Action)
    requires t.activity.Loaded? || (t.activity.Named? && t.activity.generation in t.manifests)
             || (t.activity.Pointed? && Loads(t))
    ensures Useful(w, t, action, end)
  {
    if t.activity.Loaded? {
      ManifestUseful(w, t, end);
      action := WriteManifest;
    } else if t.activity.Named? {
      PointerUseful(w, t, end);
      action := WritePointer;
    } else {
      CheckUseful(w, t, end);
      action := CheckPointer;
    }
  }

  lemma DropRowsUseful(w: World, t: State, id: nat, end: nat)
    requires t.activity.Dropping? && id in t.activity.rowIds
    ensures Useful(w, t, DropRows(id), end)
  {
    hide Compact, Slots, Stored, Kept, Dropped, Planned, Continuable, Compactable, Savable, Settled, Loads;
  }

  lemma DropMarkersUseful(w: World, t: State, id: nat, end: nat)
    requires t.activity.Dropping? && id in t.activity.markIds
    ensures Useful(w, t, DropMarkers(id), end)
  {
    hide Compact, Slots, Stored, Kept, Dropped, Planned, Continuable, Compactable, Savable, Settled, Loads;
  }

  lemma NextDrop(w: World, t: State, end: nat) returns (action: Action)
    requires t.activity.Dropping?
    ensures Useful(w, t, action, end)
  {
    if t.activity.rowIds != {} {
      var id :| id in t.activity.rowIds;
      DropRowsUseful(w, t, id, end);
      action := DropRows(id);
    } else if t.activity.markIds != {} {
      var id :| id in t.activity.markIds;
      DropMarkersUseful(w, t, id, end);
      action := DropMarkers(id);
    } else {
      SweepUseful(w, t, end);
      action := BeginSweep;
    }
  }

  lemma NextAttempt(w: World, s: State, t: State, end: nat)
    requires Underway(w, s, t, end) && t.activity.Idle?
    ensures Useful(w, t, BeginCompact(end), end)
  {
    RetryIsEnabled(w, s, t, end);
    BeginStage(w, t, end);
  }

  lemma BeginStage(w: World, t: State, end: nat)
    requires Enabled(w, t, BeginCompact(end))
    ensures Stage(t.activity) == 8 && Stage(Apply(w, t, BeginCompact(end)).activity) < 8
  {
  }

  lemma Ingredients(w: World, s: State, t: State, end: nat)
    requires Honest(w) && Underway(w, s, t, end) && !t.activity.Idle?
    ensures Compacting(t.activity) && t.activity.end == end && Settled(w, t) && Loads(t)
    ensures Compact(Stored(w, t), end) == Compact(w.raw, end)
    ensures t.activity.Named? ==> t.activity.generation in t.manifests
  {
    StoredCompacts(w, t);
  }

  lemma NextBusy(w: World, t: State, end: nat) returns (action: Action)
    requires Compacting(t.activity) && t.activity.end == end && Settled(w, t) && Loads(t) && !Swept(t)
    requires Compact(Stored(w, t), end) == Compact(w.raw, end)
    requires t.activity.Named? ==> t.activity.generation in t.manifests
    ensures Useful(w, t, action, end)
  {
    var a := t.activity;
    if a.Dropping? { action := NextDrop(w, t, end); }
    else if a.Loading? { action := NextLoad(w, t, end); }
    else if a.Loaded? || a.Named? || a.Pointed? { action := NextWrite(w, t, end); }
    else if Loose(t) != {} { action := NextClear(w, t, end); }
    else { action := NextBegin(w, t, end); }
  }

  /** Only finishing is left. */
  predicate Swept(t: State) {
    t.activity.Sweeping? && Loose(t) == {}
  }

  lemma Next(w: World, s: State, t: State, end: nat) returns (action: Action)
    requires Honest(w) && Underway(w, s, t, end) && !Swept(t)
    ensures Useful(w, t, action, end)
  {
    if t.activity.Idle? {
      NextAttempt(w, s, t, end);
      action := BeginCompact(end);
    } else {
      Ingredients(w, s, t, end);
      action := NextBusy(w, t, end);
    }
  }

  lemma SweptFinishes(w: World, s: State, t: State, end: nat)
    requires Underway(w, s, t, end) && Swept(t)
    ensures Finishes(w, t, [], t, end)
  {
  }

  ghost predicate Finishes(w: World, t: State, actions: seq<Action>, u: State, end: nat) {
    && Executes(w, t, actions, u) && Enabled(w, u, FinishCompact)
    && forall i :: 0 <= i < |actions| ==> Attempt(actions[i], end)
  }

  lemma Prepend(w: World, t: State, action: Action, next: State, rest: seq<Action>, u: State, end: nat)
    requires Enabled(w, t, action) && next == Apply(w, t, action) && Attempt(action, end)
             && Finishes(w, next, rest, u, end)
    ensures Finishes(w, t, [action] + rest, u, end)
  {
    assert ([action] + rest)[1..] == rest;
  }

  lemma UsefulStep(w: World, s: State, t: State, end: nat) returns (action: Action, next: State)
    requires Honest(w) && Underway(w, s, t, end) && !Swept(t)
    ensures Enabled(w, t, action) && next == Apply(w, t, action) && Attempt(action, end)
    ensures Underway(w, s, next, end) && Nearer(w, t, next)
  {
    action := Next(w, s, t, end);
    AttemptUnderway(w, s, t, action, end);
    next := Apply(w, t, action);
  }

  /** One step of the way, or the end of it. */
  lemma StepOrDone(w: World, s: State, t: State, end: nat) returns (done: bool, action: Action, next: State)
    requires Honest(w) && Underway(w, s, t, end)
    ensures done ==> Finishes(w, t, [], t, end)
    ensures !done ==> Nearer(w, t, next) && Underway(w, s, next, end)
    ensures !done ==> forall rest, u :: Finishes(w, next, rest, u, end) ==> Finishes(w, t, [action] + rest, u, end)
  {
    done, action, next := Swept(t), Exit, t;
    if done {
      SweptFinishes(w, s, t, end);
    } else {
      action, next := UsefulStep(w, s, t, end);
      forall rest, u | Finishes(w, next, rest, u, end) ensures Finishes(w, t, [action] + rest, u, end) {
        Prepend(w, t, action, next, rest, u, end);
      }
    }
  }

  /** From any point of any attempt, interrupted or not, some continuation finishes. */
  lemma {:induction false} RetryCanFinish(w: World, s: State, t: State, end: nat)
    returns (actions: seq<Action>, u: State)
    requires Honest(w) && Underway(w, s, t, end)
    ensures Finishes(w, t, actions, u, end)
    decreases Stage(t.activity), Work(w, t)
  {
    var done, action, next := StepOrDone(w, s, t, end);
    if done {
      actions, u := [], t;
    } else {
      var rest, last := RetryCanFinish(w, s, next, end);
      actions, u := [action] + rest, last;
    }
  }

  // ---------------------------------------------------------------- a refused continuation

  /** Blocks 10 and 11 are compacted into a prefix. */
  lemma BothCompacted(a: Address) returns (t: State)
    ensures Honest(TwoBlocks(a)) && Reachable(TwoBlocks(a), t) && t.activity.Idle? && 11 in t.rows
    ensures t.pointer.Some? && t.pointer.value.prefix.number == 11 && t.ready == {}
    ensures t.saved == Some(Token(11, 0)) && t.cursor == Points(Token(11, 0))
  {
    hide Compact;
    var w := TwoBlocks(a);
    TwoBlocksHonest(a);
    var s := BothSaved(a);
    ReachableInv(w, s);
    var actions, u := RetryCanFinish(w, s, s, 11);
    RetryReachesSameState(w, s, actions, u, 11);
    ReachableOn(w, s, actions, u);
    t := ReachableStep(w, u, FinishCompact);
    ProgressIsBacked(w, t);
  }

  /** A checkpoint at block 10 below a prefix at block 11: it is protected and every later block
      is stored, but its continuation is refused. */
  ghost predicate RefusedAt(w: World, t: State, c: nat, end: nat) {
    && Honest(w) && Reachable(w, t) && c in t.protected && t.saved.Some? && c < end <= t.saved.value.number
    && SameRange(t.rows, w.raw.blocks, c + 1, end)
    && SelectPrefix(Stored(w, t).(start := c + 1), w.raw.start, Stored(w, t).prefix).Err?
  }

  lemma RefusedContinuationHappens(a: Address)
    ensures exists t :: RefusedAt(TwoBlocks(a), t, 10, 11)
  {
    var w := TwoBlocks(a);
    var t := BothCompacted(a);
    assert Continuable(w, t, 10);
    t := ReachableStep(w, t, Publish(10));
    ContinuationsStand(w, t, 10, 11);
    assert RefusedAt(w, t, 10, 11);
  }
}

/** Ownership of one checkpoint database, claimed by control homes that race and crash.

    Every home keeps a binding file and an initialization marker; the database keeps the
    ownership table. Each durable write is one step; a crash loses the home's lock and the
    program counter. */
module Control {
  import opened Words

  type Home = nat
  type ControlId = nat
  type Process = nat

  /** The row of the ownership table: the controller and the home its binding names. */
  datatype Owner = Owner(id: ControlId, home: Home)

  /** How far an open has got. The home's initialize.lock is held throughout. */
  datatype Phase =
    | Locked(home: Home)
    | Looked(home: Home, seen: bool)
    | Bound(home: Home, seen: bool, id: ControlId)
    | Created(home: Home, id: ControlId)             // table created, owner row next
    | Claimed(home: Home, id: ControlId)             // nothing more to create
    | Checked(home: Home, id: ControlId)             // the one owner row is this controller

  datatype State = State(
    bindings: map<Home, ControlId>, markers: map<Home, ControlId>, table: Option<seq<Owner>>,
    processes: map<Process, Phase>, used: set<ControlId>, returned: set<ControlId>)

  const INITIAL := State(map[], map[], None, map[], {}, {})

  datatype Action =
    | TakeLock(home: Home)
    | LookForTable
    | ReadBinding
    | WriteBinding(id: ControlId)
    | CreateTable
    | InsertOwner
    | TableExisted
    | CheckOwner
    | Return
    | Exit

  datatype Step = Step(p: Process, action: Action)

  ghost predicate Allowed(s: State, ph: Phase, action: Action) {
    match action
    case TakeLock(_) => false
    case LookForTable => ph.Locked?
    case ReadBinding => ph.Looked? && ph.home in s.bindings
    case WriteBinding(id) => ph.Looked? && ph.home !in s.bindings && !ph.seen && id !in s.used
    case CreateTable => ph.Bound? && !ph.seen && ph.home !in s.markers && s.table.None?
    case InsertOwner => ph.Created? && s.table.Some?
    case TableExisted => ph.Bound? && ph.seen
    case CheckOwner => ph.Claimed? && s.table == Some([Owner(ph.id, ph.home)])
    case Return => ph.Checked? && (ph.home in s.markers ==> s.markers[ph.home] == ph.id)
    case Exit => true
  }

  ghost predicate Enabled(s: State, step: Step) {
    if step.action.TakeLock? then
      step.p !in s.processes && forall q :: q in s.processes ==> s.processes[q].home != step.action.home
    else step.p in s.processes && Allowed(s, s.processes[step.p], step.action)
  }

  function Moved(s: State, p: Process, ph: Phase): State {
    s.(processes := s.processes[p := ph])
  }

  ghost function Act(s: State, p: Process, ph: Phase, action: Action): State
    requires Allowed(s, ph, action)
  {
    match action
    case LookForTable => Moved(s, p, Looked(ph.home, s.table.Some?))
    case ReadBinding => Moved(s, p, Bound(ph.home, ph.seen, s.bindings[ph.home]))
    case WriteBinding(id) =>
      Moved(s.(bindings := s.bindings[ph.home := id], used := s.used + {id}), p, Bound(ph.home, ph.seen, id))
    case CreateTable => Moved(s.(table := Some([])), p, Created(ph.home, ph.id))
    case InsertOwner => Moved(s.(table := Some(s.table.value + [Owner(ph.id, ph.home)])), p, Claimed(ph.home, ph.id))
    case TableExisted => Moved(s, p, Claimed(ph.home, ph.id))
    case CheckOwner => Moved(s, p, Checked(ph.home, ph.id))
    case Return =>
      s.(markers := s.markers[ph.home := ph.id], returned := s.returned + {ph.id}, processes := s.processes - {p})
    case Exit => s.(processes := s.processes - {p})
  }

  ghost function Apply(s: State, step: Step): State
    requires Enabled(s, step)
  {
    if step.action.TakeLock? then Moved(s, step.p, Locked(step.action.home))
    else Act(s, step.p, s.processes[step.p], step.action)
  }

  // ---------------------------------------------------------------- invariants

  /** The table holds at most one owner, and none while its creator has yet to insert. */
  ghost predicate OneOwner(s: State) {
    && (s.table.Some? ==> |s.table.value| <= 1)
    && (forall p :: p in s.processes && s.processes[p].Created? ==> s.table == Some([]))
    && (forall p, q :: p in s.processes && q in s.processes && s.processes[p].Created? && s.processes[q].Created? ==>
          p == q)
  }

  ghost predicate Owns(s: State, id: ControlId, home: Home) {
    s.table == Some([Owner(id, home)])
  }

  /** Whoever has passed the check, and every open that returned, is the table's owner. */
  ghost predicate Agreed(s: State) {
    && (forall p :: p in s.processes && s.processes[p].Checked? ==> Owns(s, s.processes[p].id, s.processes[p].home))
    && (forall id :: id in s.returned ==> exists h :: Owns(s, id, h))
    && (forall h :: h in s.markers ==> Owns(s, s.markers[h], h))
  }

  /** A home's binding is written once, before anything that names the controller. */
  ghost predicate BoundHomes(s: State) {
    && (forall p :: p in s.processes && !s.processes[p].Locked? && !s.processes[p].Looked? ==>
          s.processes[p].home in s.bindings && s.bindings[s.processes[p].home] == s.processes[p].id)
    && (s.table.Some? ==> forall i :: 0 <= i < |s.table.value| ==>
          s.table.value[i].home in s.bindings && s.bindings[s.table.value[i].home] == s.table.value[i].id)
  }

  ghost predicate Inv(s: State) {
    OneOwner(s) && Agreed(s) && BoundHomes(s)
  }

  lemma CreateKeepsInv(s: State, p: Process)
    requires Inv(s) && p in s.processes && Allowed(s, s.processes[p], CreateTable)
    ensures Inv(Act(s, p, s.processes[p], CreateTable))
  {
    assert forall id :: id in s.returned ==> exists h :: Owns(s, id, h);
  }

  lemma InsertKeepsInv(s: State, p: Process)
    requires Inv(s) && p in s.processes && Allowed(s, s.processes[p], InsertOwner)
    ensures Inv(Act(s, p, s.processes[p], InsertOwner))
  {
    assert forall id :: id in s.returned ==> exists h :: Owns(s, id, h);
  }

  lemma ReturnKeepsInv(s: State, p: Process)
    requires Inv(s) && p in s.processes && Allowed(s, s.processes[p], Return)
    ensures Inv(Act(s, p, s.processes[p], Return))
  {
    var ph, t := s.processes[p], Act(s, p, s.processes[p], Return);
    forall id | id in t.returned ensures exists h :: Owns(t, id, h) {
      if id in s.returned {
        var h :| Owns(s, id, h);
        assert Owns(t, id, h);
      } else {
        assert Owns(t, ph.id, ph.home);
      }
    }
  }

  /** The other steps leave the table, the markers and the returned identities alone. */
  lemma QuietAgreed(s: State, t: State, p: Process)
    requires OneOwner(s) && Agreed(s) && t.table == s.table && t.returned == s.returned && t.markers == s.markers
    requires forall q :: q in t.processes && q != p ==> q in s.processes && t.processes[q] == s.processes[q]
    requires p in t.processes ==>
             !t.processes[p].Created? && (t.processes[p].Checked? ==> Owns(t, t.processes[p].id, t.processes[p].home))
    ensures OneOwner(t) && Agreed(t)
  {
    forall id | id in t.returned ensures exists h :: Owns(t, id, h) {
      var h :| Owns(s, id, h);
      assert Owns(t, id, h);
    }
  }

  lemma QuietKeepsInv(s: State, step: Step)
    requires Inv(s) && Enabled(s, step) && !step.action.CreateTable? && !step.action.InsertOwner?
             && !step.action.Return?
    ensures Inv(Apply(s, step))
  {
    QuietAgreed(s, Apply(s, step), step.p);
    QuietBound(s, step);
  }

  lemma QuietBound(s: State, step: Step)
    requires Inv(s) && Enabled(s, step) && !step.action.CreateTable? && !step.action.InsertOwner?
             && !step.action.Return?
    ensures BoundHomes(Apply(s, step))
  {
    if step.action.WriteBinding? {
      var ph := s.processes[step.p];
      assert forall q :: q in s.processes && !s.processes[q].Locked? && !s.processes[q].Looked? ==>
        s.processes[q].home != ph.home;
    }
  }

  lemma StepKeepsInv(s: State, step: Step)
    requires Inv(s) && Enabled(s, step)
    ensures Inv(Apply(s, step))
  {
    if step.action.CreateTable? { CreateKeepsInv(s, step.p); }
    else if step.action.InsertOwner? { InsertKeepsInv(s, step.p); }
    else if step.action.Return? { ReturnKeepsInv(s, step.p); }
    else { QuietKeepsInv(s, step); }
  }

  ghost predicate Executes(s: State, steps: seq<Step>, t: State)
    decreases |steps|
  {
    if steps == [] then s == t else Enabled(s, steps[0]) && Executes(Apply(s, steps[0]), steps[1..], t)
  }

  lemma {:induction false} RunKeepsInv(s: State, steps: seq<Step>, t: State)
    requires Inv(s) && Executes(s, steps, t)
    ensures Inv(t)
    decreases |steps|
  {
    if steps != [] {
      StepKeepsInv(s, steps[0]);
      RunKeepsInv(Apply(s, steps[0]), steps[1..], t);
    }
  }

  /** Whatever homes race and wherever they crash, at most one owner row ever exists and all
      opens that return, return that owner. */
  lemma ControllersAgree(steps: seq<Step>, t: State)
    requires Executes(INITIAL, steps, t)
    ensures t.table.Some? ==> |t.table.value| <= 1
    ensures forall x, y :: x in t.returned && y in t.returned ==> x == y
    ensures forall x :: x in t.returned ==> t.table.Some? && |t.table.value| == 1 && t.table.value[0].id == x
  {
    RunKeepsInv(INITIAL, steps, t);
    forall x | x in t.returned ensures t.table.Some? && |t.table.value| == 1 && t.table.value[0].id == x {
      var h :| Owns(t, x, h);
    }
  }

  /** Every controller that an open returned is marked in some home. */
  ghost predicate Marked(s: State) {
    forall id :: id in s.returned ==> exists h :: h in s.markers && s.markers[h] == id
  }

  lemma StepKeepsMarked(s: State, step: Step)
    requires Marked(s) && Enabled(s, step)
    ensures Marked(Apply(s, step))
  {
    var t := Apply(s, step);
    forall id | id in t.returned ensures exists h :: h in t.markers && t.markers[h] == id {
      if id in s.returned {
        var h :| h in s.markers && s.markers[h] == id;
        assert h in t.markers && t.markers[h] == id;
      } else {
        var h := s.processes[step.p].home;
        assert h in t.markers && t.markers[h] == id;
      }
    }
  }

  lemma {:induction false} RunKeepsMarked(s: State, steps: seq<Step>, t: State)
    requires Marked(s) && Executes(s, steps, t)
    ensures Marked(t)
    decreases |steps|
  {
    if steps != [] {
      StepKeepsMarked(s, steps[0]);
      RunKeepsMarked(Apply(s, steps[0]), steps[1..], t);
    }
  }

  /** An open that returned has left its controller in three places that agree: the owner row, and
      the binding and the marker of the owner's home. */
  lemma ReturnIsRecorded(steps: seq<Step>, t: State, id: ControlId) returns (home: Home)
    requires Executes(INITIAL, steps, t) && id in t.returned
    ensures t.table == Some([Owner(id, home)])
    ensures home in t.bindings && t.bindings[home] == id && home in t.markers && t.markers[home] == id
  {
    RunKeepsInv(INITIAL, steps, t);
    RunKeepsMarked(INITIAL, steps, t);
    home :| home in t.markers && t.markers[home] == id;
    assert t.table.value[0] == Owner(id, home);
  }

  /** The table exists, and every open that is about to bind its home has seen it. */
  predicate Seen(s: State) {
    s.table.Some? && forall p :: p in s.processes && s.processes[p].Looked? ==> s.processes[p].seen
  }

  lemma SeenStep(s: State, step: Step)
    requires Seen(s) && Enabled(s, step)
    ensures Seen(Apply(s, step)) && Apply(s, step).bindings == s.bindings
  {
  }

  /** Once the table has been seen, no run binds another home: an open from a home without a binding
      is refused and leaves nothing behind. */
  lemma {:induction false} NoBindingAfterTable(s: State, steps: seq<Step>, t: State)
    requires Seen(s) && Executes(s, steps, t)
    ensures Seen(t) && t.bindings == s.bindings
    decreases |steps|
  {
    if steps != [] {
      SeenStep(s, steps[0]);
      NoBindingAfterTable(Apply(s, steps[0]), steps[1..], t);
    }
  }

  // ---------------------------------------------------------------- a crash that cannot be resumed

  /** The table exists without its owner row and its creator is gone. */
  ghost predicate Abandoned(s: State) {
    s.table == Some([]) && forall p :: p in s.processes ==> !s.processes[p].Created?
  }

  lemma AbandonedStep(s: State, step: Step)
    requires Inv(s) && Abandoned(s) && Enabled(s, step)
    ensures Abandoned(Apply(s, step)) && Apply(s, step).returned == s.returned
  {
  }

  /** A crash between creating the table and inserting the owner row is final: no later open,
      from any home, ever succeeds. */
  lemma {:induction false} CrashBeforeOwnerIsFinal(s: State, steps: seq<Step>, t: State)
    requires Inv(s) && Abandoned(s) && Executes(s, steps, t)
    ensures Abandoned(t) && t.returned == s.returned == {}
    decreases |steps|
  {
    assert forall id, h :: Owns(s, id, h) ==> |s.table.value| == 1;
    if steps != [] {
      AbandonedStep(s, steps[0]);
      StepKeepsInv(s, steps[0]);
      CrashBeforeOwnerIsFinal(Apply(s, steps[0]), steps[1..], t);
    }
  }

  /** Such a crash is reachable. */
  lemma CrashBeforeOwnerHappens()
    ensures exists steps, t :: Executes(INITIAL, steps, t) && Abandoned(t)
  {
    var p, s0 := 0, INITIAL;
    var s1 := Apply(s0, Step(p, TakeLock(0)));
    var s2 := Apply(s1, Step(p, LookForTable));
    var s3 := Apply(s2, Step(p, WriteBinding(5)));
    var s4 := Apply(s3, Step(p, CreateTable));
    var s5 := Apply(s4, Step(p, Exit));
    var run := Then(s4, Step(p, Exit), [], s5);
    run := Then(s3, Step(p, CreateTable), run, s5);
    run := Then(s2, Step(p, WriteBinding(5)), run, s5);
    run := Then(s1, Step(p, LookForTable), run, s5);
    run := Then(s0, Step(p, TakeLock(0)), run, s5);
    assert Abandoned(s5);
  }

  /** Some open from the home returns in the course of the run. */
  ghost predicate Returns(s: State, run: seq<Step>, home: Home)
    decreases |run|
  {
    && run != [] && Enabled(s, run[0])
    && ((run[0].action.Return? && s.processes[run[0].p].home == home) || Returns(Apply(s, run[0]), run[1..], home))
  }

  lemma Then(s: State, step: Step, rest: seq<Step>, t: State) returns (run: seq<Step>)
    requires Enabled(s, step) && Executes(Apply(s, step), rest, t)
    ensures run == [step] + rest && Executes(s, run, t)
    ensures step.action.Return? ==> Returns(s, run, s.processes[step.p].home)
    ensures forall home :: Returns(Apply(s, step), rest, home) ==> Returns(s, run, home)
  {
    run := [step] + rest;
    assert run[1..] == rest;
  }

  /** An open from the home that has come this far can be carried to its return. */
  ghost predicate Opens(s: State, run: seq<Step>, t: State, home: Home) {
    Executes(s, run, t) && Returns(s, run, home)
  }

  /** The last two steps of an open whose owner row is in place. */
  lemma Finish(s: State, p: Process, ph: Phase) returns (run: seq<Step>, t: State)
    requires Inv(s) && p in s.processes && s.processes[p] == ph && ph.Claimed? && Owns(s, ph.id, ph.home)
    ensures Opens(s, run, t, ph.home)
  {
    var s1 := Apply(s, Step(p, CheckOwner));
    StepKeepsInv(s, Step(p, CheckOwner));
    t := Apply(s1, Step(p, Return));
    run := Then(s1, Step(p, Return), [], t);
    run := Then(s, Step(p, CheckOwner), run, t);
  }

  /** The creator of the table inserts its row and returns. */
  lemma Insert(s: State, p: Process, ph: Phase) returns (run: seq<Step>, t: State)
    requires Inv(s) && p in s.processes && s.processes[p] == ph && ph.Created?
    ensures Opens(s, run, t, ph.home)
  {
    var s1 := Apply(s, Step(p, InsertOwner));
    StepKeepsInv(s, Step(p, InsertOwner));
    assert [] + [Owner(ph.id, ph.home)] == [Owner(ph.id, ph.home)];
    run, t := Finish(s1, p, Claimed(ph.home, ph.id));
    run := Then(s, Step(p, InsertOwner), run, t);
  }

  lemma Claim(s: State, p: Process, ph: Phase) returns (run: seq<Step>, t: State)
    requires Inv(s) && p in s.processes && s.processes[p] == ph && ph.Bound? && ph.seen == s.table.Some?
    requires s.table.None? || Owns(s, ph.id, ph.home)
    ensures Opens(s, run, t, ph.home)
  {
    if ph.seen {
      var s1 := Apply(s, Step(p, TableExisted));
      StepKeepsInv(s, Step(p, TableExisted));
      run, t := Finish(s1, p, Claimed(ph.home, ph.id));
      run := Then(s, Step(p, TableExisted), run, t);
    } else {
      var s1 := Apply(s, Step(p, CreateTable));
      StepKeepsInv(s, Step(p, CreateTable));
      run, t := Insert(s1, p, Created(ph.home, ph.id));
      run := Then(s, Step(p, CreateTable), run, t);
    }
  }

  lemma OwnerBound(s: State, home: Home)
    requires BoundHomes(s)
    ensures forall id :: Owns(s, id, home) ==> home in s.bindings && s.bindings[home] == id
  {
    forall id | Owns(s, id, home) ensures home in s.bindings && s.bindings[home] == id {
      assert s.table.value[0] == Owner(id, home);
    }
  }

  lemma Bind(s: State, p: Process, home: Home) returns (run: seq<Step>, t: State)
    requires Inv(s) && p in s.processes && s.processes[p] == Looked(home, s.table.Some?)
    requires s.table.None? || exists id :: Owns(s, id, home)
    ensures Opens(s, run, t, home)
  {
    OwnerBound(s, home);
    if home in s.bindings {
      var s1 := Apply(s, Step(p, ReadBinding));
      StepKeepsInv(s, Step(p, ReadBinding));
      run, t := Claim(s1, p, Bound(home, s.table.Some?, s.bindings[home]));
      run := Then(s, Step(p, ReadBinding), run, t);
    } else {
      var id := Fresh(s.used);
      var s1 := Apply(s, Step(p, WriteBinding(id)));
      StepKeepsInv(s, Step(p, WriteBinding(id)));
      run, t := Claim(s1, p, Bound(home, false, id));
      run := Then(s, Step(p, WriteBinding(id)), run, t);
    }
  }

  /** A new open from the home, once the processes of earlier ones are gone. */
  lemma {:induction false} Open(s: State, home: Home) returns (run: seq<Step>, t: State)
    requires Inv(s) && (s.table.None? || exists id :: Owns(s, id, home))
    ensures Opens(s, run, t, home)
    decreases |s.processes|
  {
    if p :| p in s.processes {
      var s1 := Apply(s, Step(p, Exit));
      StepKeepsInv(s, Step(p, Exit));
      assert forall id :: Owns(s, id, home) ==> Owns(s1, id, home);
      assert s1.processes.Keys == s.processes.Keys - {p};
      run, t := Open(s1, home);
      run := Then(s, Step(p, Exit), run, t);
    } else {
      run, t := OpenAlone(s, home);
    }
  }

  lemma OpenAlone(s: State, home: Home) returns (run: seq<Step>, t: State)
    requires Inv(s) && s.processes == map[] && (s.table.None? || exists id :: Owns(s, id, home))
    ensures Opens(s, run, t, home)
  {
    var s1 := Apply(s, Step(0, TakeLock(home)));
    StepKeepsInv(s, Step(0, TakeLock(home)));
    var s2 := Apply(s1, Step(0, LookForTable));
    StepKeepsInv(s1, Step(0, LookForTable));
    assert forall id :: Owns(s, id, home) ==> Owns(s2, id, home);
    run, t := Bind(s2, 0, home);
    run := Then(s1, Step(0, LookForTable), run, t);
    run := Then(s, Step(0, TakeLock(home)), run, t);
  }

  /** The database is not lost to the home: no table yet, the home's own row, or a table whose
      creator is an open from this home that has still to insert its row. */
  ghost predicate Claimable(s: State, home: Home) {
    || s.table.None?
    || (exists id :: Owns(s, id, home))
    || (exists p :: p in s.processes && s.processes[p].Created? && s.processes[p].home == home)
  }

  lemma LostStep(s: State, step: Step, home: Home)
    requires Inv(s) && Enabled(s, step) && !Claimable(s, home)
    ensures !Claimable(Apply(s, step), home)
    ensures !(step.action.Return? && s.processes[step.p].home == home)
  {
    var t := Apply(s, step);
    forall id ensures !Owns(t, id, home) {
      assert !Owns(s, id, home);
      if step.action.InsertOwner? { assert t.table.value[0].home != home; }
    }
  }

  lemma {:induction false} LostForGood(s: State, run: seq<Step>, home: Home)
    requires Inv(s) && !Claimable(s, home)
    ensures !Returns(s, run, home)
    decreases |run|
  {
    if run != [] && Enabled(s, run[0]) {
      LostStep(s, run[0], home);
      StepKeepsInv(s, run[0]);
      LostForGood(Apply(s, run[0]), run[1..], home);
    }
  }

  /** From any state, with whatever opens still running, an open from a home can return, now or
      later, exactly when the database is not lost to it. */
  lemma RecoverableExactly(s: State, home: Home)
    requires Inv(s)
    ensures (exists run, t :: Opens(s, run, t, home)) <==> Claimable(s, home)
  {
    if Claimable(s, home) {
      var run, t := Reopen(s, home);
      assert Opens(s, run, t, home);
    } else {
      forall run, t ensures !Opens(s, run, t, home) { LostForGood(s, run, home); }
    }
  }

  lemma Reopen(s: State, home: Home) returns (run: seq<Step>, t: State)
    requires Inv(s) && Claimable(s, home)
    ensures Opens(s, run, t, home)
  {
    if p :| p in s.processes && s.processes[p].Created? && s.processes[p].home == home {
      run, t := Insert(s, p, s.processes[p]);
    } else {
      run, t := Open(s, home);
    }
  }
}

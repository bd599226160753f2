/** The specification: event-by-event replay of everything that survives a block. */
module Replay {
  import opened Words
  import opened Sequences
  import opened Trace
  import opened Lifecycle

  /** Account state; a component that is absent holds its default. */
  type State = map<Key, Value>

  function Read(s: State, k: Key): Value {
    if k in s then s[k] else Default(k)
  }

  datatype Event = Record(change: Change) | Wipe(account: Address, at: nat)

  function At(e: Event): nat {
    match e
    case Record(c) => c.ordinal
    case Wipe(_, at) => at
  }

  function Step(s: State, e: Event): State {
    match e
    case Record(c) => s[KeyOf(c) := NewValue(c)]
    case Wipe(a, _) => map k | k in s && k.account != a :: s[k]
  }

  function Run(s: State, events: seq<Event>): State {
    if events == [] then s else Step(Run(s, events[..|events| - 1]), events[|events| - 1])
  }

  function Records(cs: seq<Change>): seq<Event> {
    if cs == [] then [] else Records(cs[..|cs| - 1]) + [Record(cs[|cs| - 1])]
  }

  function Wipes(ds: seq<Deletion>): seq<Event> {
    if ds == [] then [] else Wipes(ds[..|ds| - 1]) + [Wipe(ds[|ds| - 1].account, ds[|ds| - 1].ordinal)]
  }

  /** All surviving records, no-ops included, interleaved with every deletion by ordinal. */
  function Timeline(records: seq<Change>, deletions: seq<Deletion>): seq<Event> {
    SortBy(Records(records) + Wipes(deletions), At)
  }

  /** A no-op record of a selected account restates the value held at that point. */
  ghost predicate NoOpsCurrent(s: State, events: seq<Event>, accounts: set<Address>) {
    forall i :: 0 <= i < |events| && events[i].Record?
                && NoOp(events[i].change) && events[i].change.address in accounts ==>
      HonestCode(events[i].change) && OldValue(events[i].change) == Read(Run(s, events[..i]), KeyOf(events[i].change))
  }

  /** The event determines what k holds afterwards. */
  predicate Decides(e: Event, k: Key) {
    match e
    case Record(c) => KeyOf(c) == k && !NoOp(c)
    case Wipe(a, _) => k.account == a
  }

  function Outcome(last: Option<Event>, k: Key, before: Value): Value {
    match last
    case None => before
    case Some(Record(c)) => NewValue(c)
    case Some(Wipe(_, _)) => Default(k)
  }

  /** Replay is decided by the last effective event, so dropping no-ops is invisible. */
  lemma {:induction false} LastEventDecides(s: State, events: seq<Event>, accounts: set<Address>, k: Key)
    requires NoOpsCurrent(s, events, accounts) && k.account in accounts
    ensures Read(Run(s, events), k) == Outcome(LastMatch(events, e => Decides(e, k)), k, Read(s, k))
  {
    if events != [] {
      var front, last := events[..|events| - 1], events[|events| - 1];
      assert forall i :: 0 <= i < |front| ==> front[i] == events[i] && front[..i] == events[..i];
      LastEventDecides(s, front, accounts, k);
      if last.Record? && KeyOf(last.change) == k && NoOp(last.change) {
        NoOpWritesOldValue(last.change);
      }
    }
  }

  lemma {:induction false} LatestConcat<T>(a: seq<T>, b: seq<T>, ord: T -> nat, p: T -> bool)
    ensures Latest(a + b, ord, p) ==
            var x, y := Latest(a, ord, p), Latest(b, ord, p);
            if y.Some? && (x.None? || ord(x.value) <= ord(y.value)) then y else x
  {
    if b == [] {
      assert a + b == a;
    } else {
      var front, last := b[..|b| - 1], b[|b| - 1];
      LatestConcat(a, front, ord, p);
      assert a + b == (a + front) + [last];
      LatestAppend(a + front, last, ord, p);
    }
  }

  predicate Writes(c: Change, k: Key) {
    KeyOf(c) == k && !NoOp(c)
  }

  /** The last effective write to k, by ordinal and then by position. */
  function LastWrite(records: seq<Change>, k: Key): (r: Option<Change>)
    ensures r.Some? ==> r.value in records && Writes(r.value, k)
    ensures r.None? ==> forall c :: c in records ==> !Writes(c, k)
  {
    Latest(records, OrdinalOf, (c: Change) => Writes(c, k))
  }

  lemma {:induction false} LatestRecord(records: seq<Change>, k: Key)
    ensures Latest(Records(records), At, e => Decides(e, k)) ==
            match LastWrite(records, k) case None => None case Some(c) => Some(Record(c))
  {
    if records != [] {
      var front, last := records[..|records| - 1], records[|records| - 1];
      LatestRecord(front, k);
      LatestAppend(Records(front), Record(last), At, e => Decides(e, k));
    }
  }

  lemma {:induction false} LatestWipe(ds: seq<Deletion>, k: Key)
    ensures var w, m := Latest(Wipes(ds), At, e => Decides(e, k)), Greatest(ds);
            (w.Some? <==> k.account in m) && (w.Some? ==> w.value == Wipe(k.account, m[k.account]))
  {
    if ds != [] {
      var front, last := ds[..|ds| - 1], ds[|ds| - 1];
      LatestWipe(front, k);
      LatestAppend(Wipes(front), Wipe(last.account, last.ordinal), At, e => Decides(e, k));
    }
  }

  /** What the block leaves in k: the last write, unless a later deletion wiped the account. */
  lemma ReplayedValue(s: State, records: seq<Change>, ds: seq<Deletion>, accounts: set<Address>, k: Key)
    requires NoOpsCurrent(s, Timeline(records, ds), accounts) && k.account in accounts
    ensures Read(Run(s, Timeline(records, ds)), k) ==
            var w, m := LastWrite(records, k), Greatest(ds);
            if k.account in m && (w.None? || w.value.ordinal <= m[k.account]) then Default(k)
            else if w.Some? then NewValue(w.value) else Read(s, k)
  {
    LastEventDecides(s, Timeline(records, ds), accounts, k);
    LastOfSorted(Records(records) + Wipes(ds), At, e => Decides(e, k));
    LatestConcat(Records(records), Wipes(ds), At, e => Decides(e, k));
    LatestRecord(records, k);
    LatestWipe(ds, k);
  }
}

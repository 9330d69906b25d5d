/**
 The clamp on database-remove records.  Recovery replays the latest NameLN of each name, and
 only live names are ever re-logged, so reclaiming a removed name's tombstone while an older
 create survives would bring the database back.
 */
module NameTombstone {
  import opened Lsns
  import opened Latch

  /** A catalog record: a create when `live`, a remove (tombstone) otherwise. */
  datatype NameRecord = NameRecord(name: string, live: bool)

  datatype Facts = Facts(newest: Lsn, oldestLive: Option<Lsn>, removed: bool)

  /** `observe` on the entries of one name. */
  function Observed(entries: map<string, Facts>, l: Lsn, r: NameRecord, removed: bool): map<string, Facts> {
    var e := if r.name in entries then entries[r.name] else Facts(l, None, removed);
    var newest := if e.newest.Before(l) then l else e.newest;
    var oldestLive :=
      if !r.live || (e.oldestLive.Some? && !l.Before(e.oldestLive.value)) then e.oldestLive else Some(l);
    entries[r.name := Facts(newest, oldestLive, removed)]
  }

  function RetainsTombstone(entries: map<string, Facts>, name: string, l: Lsn): bool {
    if name !in entries then true else
    var f := entries[name];
    f.removed && f.newest == l && f.oldestLive.Some? && f.oldestLive.value.file < l.file
  }

  // ----- the snapshot holds exactly the facts of the log ----------------------------------------------

  predicate Names(log: map<Lsn, NameRecord>, l: Lsn, name: string) {
    l in log && log[l].name == name
  }

  predicate LiveFor(log: map<Lsn, NameRecord>, l: Lsn, name: string) {
    Names(log, l, name) && log[l].live
  }

  /** The facts of one name: its newest record, its oldest live one, and its catalog membership. */
  ghost predicate FactsOf(f: Facts, log: map<Lsn, NameRecord>, name: string, removed: bool) {
    && f.removed == removed
    && Names(log, f.newest, name) && (forall l :: Names(log, l, name) ==> !f.newest.Before(l))
    && (f.oldestLive.Some? ==>
          && LiveFor(log, f.oldestLive.value, name)
          && forall l :: LiveFor(log, l, name) ==> !l.Before(f.oldestLive.value))
    && (f.oldestLive.None? ==> forall l :: !LiveFor(log, l, name))
  }

  ghost predicate Exact(entries: map<string, Facts>, log: map<Lsn, NameRecord>, removed: set<string>) {
    && (forall l :: l in log ==> log[l].name in entries)
    && (forall name :: name in entries ==> FactsOf(entries[name], log, name, name in removed))
  }

  /** The facts of the observed name follow its new record. */
  lemma ObservedNameIsExact(
    entries: map<string, Facts>, log: map<Lsn, NameRecord>, removed: bool, l: Lsn, r: NameRecord)
    requires l !in log
    requires if r.name in entries then FactsOf(entries[r.name], log, r.name, removed)
             else forall m :: !Names(log, m, r.name)
    ensures FactsOf(Observed(entries, l, r, removed)[r.name], log[l := r], r.name, removed)
  {
    var log' := log[l := r];
    assert forall m :: Names(log', m, r.name) <==> Names(log, m, r.name) || m == l;
    assert forall m :: LiveFor(log', m, r.name) <==> LiveFor(log, m, r.name) || (m == l && r.live);
  }

  /** The facts of any other name are untouched by it. */
  lemma OtherNameStaysExact(f: Facts, log: map<Lsn, NameRecord>, name: string, removed: bool, l: Lsn, r: NameRecord)
    requires l !in log && r.name != name && FactsOf(f, log, name, removed)
    ensures FactsOf(f, log[l := r], name, removed)
  {
    var log' := log[l := r];
    assert forall m :: Names(log', m, name) <==> Names(log, m, name);
    assert forall m :: LiveFor(log', m, name) <==> LiveFor(log, m, name);
  }

  lemma ObservedIsExact(
    entries: map<string, Facts>, log: map<Lsn, NameRecord>, removed: set<string>, l: Lsn, r: NameRecord)
    requires Exact(entries, log, removed) && l !in log
    ensures Exact(Observed(entries, l, r, r.name in removed), log[l := r], removed)
  {
    var entries' := Observed(entries, l, r, r.name in removed);
    assert r.name !in entries ==> forall m :: !Names(log, m, r.name);
    ObservedNameIsExact(entries, log, r.name in removed, l, r);
    forall name | name in entries' && name != r.name
      ensures FactsOf(entries'[name], log[l := r], name, name in removed)
    {
      OtherNameStaysExact(entries[name], log, name, name in removed, l, r);
    }
  }

  /** `l` is the newest record of its name. */
  ghost predicate IsNewest(log: map<Lsn, NameRecord>, l: Lsn, name: string) {
    Names(log, l, name) && forall m :: Names(log, m, name) ==> !l.Before(m)
  }

  /**
   Read off the log, a tombstone is kept exactly when it is the last word on a removed name and a
   create of that name lies in an older file; so at most one tombstone per name is.
   */
  lemma RetainsExactly(
    entries: map<string, Facts>, log: map<Lsn, NameRecord>, removed: set<string>, name: string, l: Lsn)
    requires Exact(entries, log, removed) && Names(log, l, name) && !log[l].live
    ensures RetainsTombstone(entries, name, l) <==>
            name in removed && IsNewest(log, l, name) && exists c :: LiveFor(log, c, name) && c.file < l.file
    ensures forall m ::
              Names(log, m, name) && RetainsTombstone(entries, name, l) && RetainsTombstone(entries, name, m) ==> m == l
  {
    var f := entries[name];
    assert FactsOf(f, log, name, name in removed);
    assert f.newest == l <==> IsNewest(log, l, name);
    if c :| LiveFor(log, c, name) && c.file < l.file {
      assert !c.Before(f.oldestLive.value);
    }
  }

  class NameLnSnapshot {
    var entries: map<string, Facts>

    constructor ()
      ensures entries == map[]
    {
      entries := map[];
    }

    method Observe(name: string, l: Lsn, live: bool, removed: bool)
      modifies this
      ensures entries == Observed(old(entries), l, NameRecord(name, live), removed)
    {
      if name !in entries {
        entries := entries[name := Facts(l, None, removed)];
      }
      var e := entries[name].(removed := removed);
      if e.newest.Before(l) {
        e := e.(newest := l);
      }
      if live {
        if e.oldestLive.None? || l.Before(e.oldestLive.value) {
          e := e.(oldestLive := Some(l));
        }
      }
      entries := entries[name := e];
    }
  }

  lemma SnapshotStep(
    entries: map<string, Facts>, log: map<Lsn, NameRecord>, todo: set<Lsn>, removed: set<string>, l: Lsn)
    requires l in todo && todo <= log.Keys && Exact(entries, log - todo, removed)
    ensures Exact(Observed(entries, l, log[l], log[l].name in removed), log - (todo - {l}), removed)
  {
    ObservedIsExact(entries, log - todo, removed, l, log[l]);
    assert (log - todo)[l := log[l]] == log - (todo - {l});
  }

  /** The pass-start scan: whatever the order of the files, the snapshot is exact. */
  method BuildSnapshot(log: map<Lsn, NameRecord>, removed: set<string>) returns (entries: map<string, Facts>)
    ensures Exact(entries, log, removed)
  {
    var snapshot := new NameLnSnapshot();
    var todo := log.Keys;
    assert log - todo == map[];
    while todo != {}
      invariant todo <= log.Keys && Exact(snapshot.entries, log - todo, removed)
      decreases |todo|
    {
      var l :| l in todo;
      SnapshotStep(snapshot.entries, log, todo, removed, l);
      assert log[l] == NameRecord(log[l].name, log[l].live);
      snapshot.Observe(log[l].name, l, log[l].live, log[l].name in removed);
      todo := todo - {l};
    }
    assert log - {} == log;
    entries := snapshot.entries;
  }

  // ----- runs ---------------------------------------------------------------------------------------------

  /** The newest record ever written for a name: the committed catalog. */
  datatype Latest = Latest(lsn: Lsn, live: bool)

  /** `asOf` is the end of the log when the snapshot was taken. */
  datatype Snapshot = Snapshot(entries: map<string, Facts>, asOf: Lsn)

  /** `log` holds the surviving records; `cleaned` files may be deleted at any later time. */
  datatype State = State(
    log: map<Lsn, NameRecord>,
    last: Lsn,
    latest: map<string, Latest>,
    snapshot: Option<Snapshot>,
    cleaned: set<FileNum>)

  const START := State(map[], Lsn(0, 0), map[], None, {})

  datatype Step =
    | Create(name: string, l: Lsn)
    | Relog(name: string, l: Lsn)
    | Remove(name: string, l: Lsn)
    | Pad(l: Lsn)
    | Scan(entries: map<string, Facts>)
    | EndPass
    | Process(f: FileNum)
    | Delete(f: FileNum)

  predicate IsLive(s: State, name: string) {
    name in s.latest && s.latest[name].live
  }

  predicate IsRemoved(s: State, name: string) {
    name in s.latest && !s.latest[name].live
  }

  function RemovedNames(s: State): set<string> {
    set name | name in s.latest && !s.latest[name].live
  }

  predicate IsTombstone(s: State, f: FileNum, l: Lsn) {
    l in s.log && l.file == f && !s.log[l].live
  }

  /** Some tombstone of the file must stay. */
  predicate Retained(s: State, f: FileNum) {
    && s.snapshot.Some?
    && exists l :: l in s.log && IsTombstone(s, f, l) && RetainsTombstone(s.snapshot.value.entries, s.log[l].name, l)
  }

  /** A file may be judged once closed, if the scan came after every tombstone in it. */
  ghost predicate CanProcess(s: State, f: FileNum) {
    && f < s.last.file
    && forall l :: IsTombstone(s, f, l) ==> s.snapshot.Some? && !s.snapshot.value.asOf.Before(l)
  }

  ghost predicate CanStep(s: State, e: Step) {
    match e
    case Create(name, l) => !IsLive(s, name) && s.last.Before(l)
    case Relog(name, l) => IsLive(s, name) && s.last.Before(l)
    case Remove(name, l) => IsLive(s, name) && s.last.Before(l)
    case Pad(l) => s.last.Before(l)
    case Scan(entries) => s.snapshot.None? && Exact(entries, s.log, RemovedNames(s))
    case EndPass => true
    case Process(f) => CanProcess(s, f)
    case Delete(f) => f in s.cleaned
  }

  function Append(s: State, l: Lsn, r: NameRecord): State {
    s.(log := s.log[l := r], last := l, latest := s.latest[r.name := Latest(l, r.live)])
  }

  function Processed(s: State, f: FileNum): State {
    if Retained(s, f) then s else s.(cleaned := s.cleaned + {f})
  }

  ghost function Next(s: State, e: Step): State
    requires CanStep(s, e)
  {
    match e
    case Create(name, l) => Append(s, l, NameRecord(name, true))
    case Relog(name, l) => Append(s, l, NameRecord(name, true))
    case Remove(name, l) => Append(s, l, NameRecord(name, false))
    case Pad(l) => s.(last := l)
    case Scan(entries) => s.(snapshot := Some(Snapshot(entries, s.last)))
    case EndPass => s.(snapshot := None)
    case Process(f) => Processed(s, f)
    case Delete(f) => s.(cleaned := s.cleaned - {f}, log := WithoutFile(s.log, f))
  }

  ghost predicate IsRun(ss: seq<State>, es: seq<Step>) {
    && |ss| == |es| + 1
    && ss[0] == START
    && (forall i :: 0 <= i < |es| ==> CanStep(ss[i], es[i]) && ss[i + 1] == Next(ss[i], es[i]))
  }

  /** What recovery makes of a name: live when its latest surviving record is a create. */
  ghost predicate RecoveredLive(log: map<Lsn, NameRecord>, name: string) {
    exists l :: LiveFor(log, l, name) && forall m :: Names(log, m, name) ==> !l.Before(m)
  }

  // ----- invariant -----------------------------------------------------------------------------------------

  /** Every surviving record is at most the latest of its name. */
  ghost predicate LogOk(s: State) {
    forall l :: l in s.log ==>
      && !s.last.Before(l)
      && s.log[l].name in s.latest
      && !s.latest[s.log[l].name].lsn.Before(l)
  }

  ghost predicate LatestOk(s: State) {
    forall name :: name in s.latest ==>
      && !s.last.Before(s.latest[name].lsn)
      && (s.latest[name].lsn in s.log ==> s.log[s.latest[name].lsn] == NameRecord(name, s.latest[name].live))
  }

  /** A removed name keeps its tombstone for as long as any create of it survives. */
  ghost predicate Clamped(s: State, name: string) {
    IsRemoved(s, name) ==> s.latest[name].lsn in s.log || forall l :: !LiveFor(s.log, l, name)
  }

  /** A cleaned file holding the last tombstone of a name also holds every surviving create of it. */
  ghost predicate CleanedOk(s: State, name: string) {
    IsRemoved(s, name) && s.latest[name].lsn.file in s.cleaned ==>
      forall l :: LiveFor(s.log, l, name) ==> l.file == s.latest[name].lsn.file
  }

  /** For names whose last record precedes the snapshot, the snapshot is still right or errs on the safe side. */
  ghost predicate SnapshotOk(s: State, name: string) {
    s.snapshot.Some? && IsRemoved(s, name)
    && !s.snapshot.value.asOf.Before(s.latest[name].lsn) && s.latest[name].lsn in s.log ==>
      && name in s.snapshot.value.entries
      && var f := s.snapshot.value.entries[name];
      && f.removed && f.newest == s.latest[name].lsn
      && forall l :: LiveFor(s.log, l, name) ==> f.oldestLive.Some? && !l.Before(f.oldestLive.value)
  }

  ghost predicate NameOk(s: State, name: string) {
    Clamped(s, name) && CleanedOk(s, name) && SnapshotOk(s, name)
  }

  ghost predicate FilesOk(s: State) {
    && (s.snapshot.Some? ==>
          && !s.last.Before(s.snapshot.value.asOf)
          && forall name :: name in s.snapshot.value.entries ==>
               !s.snapshot.value.asOf.Before(s.snapshot.value.entries[name].newest))
    && (forall f :: f in s.cleaned ==> f < s.last.file)
  }

  ghost predicate NamesInv(s: State) {
    LogOk(s) && LatestOk(s) && FilesOk(s) && forall name :: NameOk(s, name)
  }

  /** A cleaned file that holds the last tombstone of a name was let go because no create lies in an older file. */
  lemma ProcessKeepsCleanedOk(s: State, f: FileNum, name: string)
    requires NamesInv(s) && CanStep(s, Process(f))
    ensures CleanedOk(Next(s, Process(f)), name)
  {
    assert NameOk(s, name);
    if IsRemoved(s, name) && s.latest[name].lsn.file == f && !Retained(s, f) {
      var t := s.latest[name].lsn;
      forall l | LiveFor(s.log, l, name)
        ensures l.file == f
      {
        if t in s.log {
          assert IsTombstone(s, f, t);
          assert !RetainsTombstone(s.snapshot.value.entries, name, t);
        }
      }
    }
  }

  /** An exact scan knows the last tombstone of every removed name that still has it. */
  lemma ScanIsOk(s: State, entries: map<string, Facts>, name: string)
    requires NamesInv(s) && CanStep(s, Scan(entries))
    ensures SnapshotOk(Next(s, Scan(entries)), name)
  {
    if IsRemoved(s, name) && s.latest[name].lsn in s.log {
      var t := s.latest[name].lsn;
      assert s.log[t].name == name && name in RemovedNames(s);
      assert FactsOf(entries[name], s.log, name, true);
      assert Names(s.log, t, name);
      assert forall l :: Names(s.log, l, name) ==> !t.Before(l);
    }
  }

  lemma StepKeepsName(s: State, e: Step, name: string)
    requires NamesInv(s) && CanStep(s, e)
    ensures NameOk(Next(s, e), name)
  {
    assert NameOk(s, name);
    var s' := Next(s, e);
    assert forall l :: LiveFor(s'.log, l, name) ==> LiveFor(s.log, l, name) || (l == s'.last && IsLive(s', name));
    if e.Process? {
      ProcessKeepsCleanedOk(s, e.f, name);
    } else if e.Scan? {
      ScanIsOk(s, e.entries, name);
    }
  }

  lemma ScanIsBounded(s: State, entries: map<string, Facts>, name: string)
    requires NamesInv(s) && CanStep(s, Scan(entries)) && name in entries
    ensures !s.last.Before(entries[name].newest)
  {
    assert FactsOf(entries[name], s.log, name, name in RemovedNames(s));
  }

  lemma StepKeepsNamesInv(s: State, e: Step)
    requires NamesInv(s) && CanStep(s, e)
    ensures NamesInv(Next(s, e))
  {
    forall name
      ensures NameOk(Next(s, e), name)
    {
      StepKeepsName(s, e, name);
    }
    if e.Scan? {
      forall name | name in e.entries
        ensures !s.last.Before(e.entries[name].newest)
      {
        ScanIsBounded(s, e.entries, name);
      }
    }
  }

  lemma {:induction false} RunKeepsNamesInv(ss: seq<State>, es: seq<Step>, n: nat)
    requires IsRun(ss, es) && n <= |es|
    ensures NamesInv(ss[n])
  {
    if n == 0 {
    } else {
      RunKeepsNamesInv(ss, es, n - 1);
      StepKeepsNamesInv(ss[n - 1], es[n - 1]);
    }
  }

  /**
   No resurrection: whatever files have been reclaimed, recovery never finds a removed name
   alive.
   */
  lemma NoResurrection(ss: seq<State>, es: seq<Step>, n: nat, name: string)
    requires IsRun(ss, es) && n <= |es| && IsRemoved(ss[n], name)
    ensures !RecoveredLive(ss[n].log, name)
  {
    RunKeepsNamesInv(ss, es, n);
    var s := ss[n];
    assert NameOk(s, name);
    if s.latest[name].lsn in s.log {
      assert Names(s.log, s.latest[name].lsn, name);
    }
  }

  // ----- names and files read off the past ----------------------------------------------------------

  datatype Fact = IsKnown(name: string) | Survives(l: Lsn) | IsCleaned(f: FileNum) | HasSnapshot

  ghost predicate Holds(s: State, fact: Fact) {
    match fact
    case IsKnown(name) => IsLive(s, name)
    case Survives(l) => l in s.log
    case IsCleaned(f) => f in s.cleaned
    case HasSnapshot => s.snapshot.Some?
  }

  ghost predicate Makes(s: State, e: Step, fact: Fact) {
    match fact
    case IsKnown(name) => e.Create? && e.name == name
    case Survives(l) => (e.Create? || e.Relog? || e.Remove?) && e.l == l
    case IsCleaned(f) =>
      && e == Process(f)
      && forall l :: IsTombstone(s, f, l) && s.snapshot.Some? ==>
           !RetainsTombstone(s.snapshot.value.entries, s.log[l].name, l)
    case HasSnapshot => e.Scan?
  }

  predicate Unmakes(e: Step, fact: Fact) {
    match fact
    case IsKnown(name) => e.Remove? && e.name == name
    case Survives(l) => e == Delete(l.file)
    case IsCleaned(f) => e == Delete(f)
    case HasSnapshot => e.EndPass?
  }

  ghost function HeldAt(ss: seq<State>, fact: Fact): nat -> bool {
    (i: nat) => i < |ss| && Holds(ss[i], fact)
  }

  ghost function MadeAt(ss: seq<State>, es: seq<Step>, fact: Fact): nat -> bool {
    (i: nat) => i < |es| && i < |ss| && Makes(ss[i], es[i], fact)
  }

  ghost function UnmadeAt(es: seq<Step>, fact: Fact): nat -> bool {
    (i: nat) => i < |es| && Unmakes(es[i], fact)
  }

  lemma FactFollows(s: State, e: Step, fact: Fact)
    requires CanStep(s, e)
    ensures Holds(Next(s, e), fact) <==> Makes(s, e, fact) || (Holds(s, fact) && !Unmakes(e, fact))
  {
  }

  lemma {:induction false} RunFollows(ss: seq<State>, es: seq<Step>, fact: Fact, n: nat)
    requires IsRun(ss, es) && n <= |es|
    ensures Latches(HeldAt(ss, fact), MadeAt(ss, es, fact), UnmadeAt(es, fact), n)
  {
    if n == 0 {
    } else {
      var b, on, off := HeldAt(ss, fact), MadeAt(ss, es, fact), UnmadeAt(es, fact);
      RunFollows(ss, es, fact, n - 1);
      FactFollows(ss[n - 1], es[n - 1], fact);
      LatchesOnce(b, on, off, n - 1, n);
    }
  }

  /**
   A name is known from its creation to its removal, a record survives until its file is deleted, a file is let go
   exactly when no tombstone in it must stay, and a snapshot lasts from its scan to the end of the pass.
   */
  lemma HistoryDecides(ss: seq<State>, es: seq<Step>, fact: Fact, n: nat)
    requires IsRun(ss, es) && n <= |es|
    ensures Holds(ss[n], fact) <==> Since(MadeAt(ss, es, fact), UnmadeAt(es, fact), n)
  {
    RunFollows(ss, es, fact, n);
    LatchIff(HeldAt(ss, fact), MadeAt(ss, es, fact), UnmadeAt(es, fact), n);
    assert HeldAt(ss, fact)(n) == Holds(ss[n], fact);
  }

  // ----- files chosen from the profile ------------------------------------------------------------------

  /**
   A file chosen from the profile is closed when the pass begins, so before the names are scanned; and
   they are scanned before the first tombstone is judged.
   */
  ghost predicate IsChoice(s: State, f: FileNum) {
    && f < s.last.file
    && if s.snapshot.Some? then f < s.snapshot.value.asOf.file else forall l :: !IsTombstone(s, f, l)
  }

  ghost predicate Moves(s: State, e: Step, s': State) {
    if e.Process? then IsChoice(s, e.f) && s' == Processed(s, e.f) else CanStep(s, e) && s' == Next(s, e)
  }

  ghost predicate IsProfileRun(ss: seq<State>, es: seq<Step>) {
    && |ss| == |es| + 1
    && ss[0] == START
    && (forall i :: 0 <= i < |es| ==> Moves(ss[i], es[i], ss[i + 1]))
  }

  /** Runs whose files are chosen so never bring a removed name back. */
  lemma ProfileRunNeverResurrects(ss: seq<State>, es: seq<Step>, n: nat, name: string)
    requires IsProfileRun(ss, es) && n <= |es| && IsRemoved(ss[n], name)
    ensures IsRun(ss, es) && !RecoveredLive(ss[n].log, name)
  {
    forall i | 0 <= i < |es|
      ensures CanStep(ss[i], es[i]) && ss[i + 1] == Next(ss[i], es[i])
    {
      assert Moves(ss[i], es[i], ss[i + 1]);
    }
    NoResurrection(ss, es, n, name);
  }

  /** A file closed when the names were scanned is such a choice for as long as the pass lasts. */
  lemma {:induction false} ClosedAtScanIsChoice(ss: seq<State>, es: seq<Step>, i: nat, n: nat, f: FileNum)
    requires IsRun(ss, es) && i < n <= |es| && es[i].Scan? && f < ss[i].last.file
    requires forall j :: i < j < n ==> !es[j].EndPass?
    ensures IsChoice(ss[n], f) && ss[n].snapshot == Some(Snapshot(es[i].entries, ss[i].last))
    decreases n
  {
    if n == i + 1 {
      assert ss[n] == Next(ss[i], es[i]);
    } else {
      ClosedAtScanIsChoice(ss, es, i, n - 1, f);
      assert CanStep(ss[n - 1], es[n - 1]) && ss[n] == Next(ss[n - 1], es[n - 1]);
    }
  }

  // ----- files closed after the scan --------------------------------------------------------------------

  /** The file is let go for all the last tombstone of `name` says, and without it recovery finds the name alive. */
  ghost predicate Resurrects(s: State, f: FileNum, name: string)
    requires s.snapshot.Some? && name in s.latest
  {
    !RetainsTombstone(s.snapshot.value.entries, name, s.latest[name].lsn) && RecoveredLive(WithoutFile(s.log, f), name)
  }

  ghost predicate NewestOutsideIsCreate(s: State, f: FileNum, name: string) {
    exists c :: LiveFor(s.log, c, name) && c.file != f &&
                forall m :: Names(s.log, m, name) && m.file != f ==> !c.Before(m)
  }

  lemma OutsideSurvives(s: State, f: FileNum, name: string)
    ensures NewestOutsideIsCreate(s, f, name) <==> RecoveredLive(WithoutFile(s.log, f), name)
  {
    var log' := WithoutFile(s.log, f);
    assert forall m :: Names(log', m, name) <==> Names(s.log, m, name) && m.file != f;
    assert forall c :: LiveFor(log', c, name) <==> LiveFor(s.log, c, name) && c.file != f;
  }

  /**
   Letting go of the file with the last tombstone of a removed name brings the name back exactly when
   the tombstone came after the scan, the scan had met the name, and the newest record outside the
   file is a create.
   */
  lemma ResurrectsIff(s: State, f: FileNum, name: string)
    requires NamesInv(s) && s.snapshot.Some? && IsRemoved(s, name)
    requires s.latest[name].lsn in s.log && s.latest[name].lsn.file == f
    ensures Resurrects(s, f, name) <==>
            && s.snapshot.value.asOf.Before(s.latest[name].lsn)
            && name in s.snapshot.value.entries
            && NewestOutsideIsCreate(s, f, name)
  {
    OutsideSurvives(s, f, name);
    var t, entries := s.latest[name].lsn, s.snapshot.value.entries;
    assert NameOk(s, name);
    if RecoveredLive(WithoutFile(s.log, f), name) && !s.snapshot.value.asOf.Before(t) {
      var c :| LiveFor(WithoutFile(s.log, f), c, name) &&
               forall m :: Names(WithoutFile(s.log, f), m, name) ==> !c.Before(m);
      assert LiveFor(s.log, c, name) && c.file < f;
      assert RetainsTombstone(entries, name, t);
    }
  }

  const EARLY := Lsn(0, 1)
  const LATE := Lsn(1, 1)

  /** The snapshot of a log with one create. */
  const ONE_NAME := map["db" := Facts(EARLY, Some(EARLY), false)]

  lemma OneNameIsExact()
    ensures Exact(ONE_NAME, map[EARLY := NameRecord("db", true)], {})
  {
    var log := map[EARLY := NameRecord("db", true)];
    assert forall l, name :: Names(log, l, name) ==> l == EARLY && name == "db";
    assert Names(log, EARLY, "db") && LiveFor(log, EARLY, "db");
    assert FactsOf(ONE_NAME["db"], log, "db", false);
  }

  /** A database is created, the names are scanned, the database is removed, and its file closed. */
  lemma LateRun() returns (ss: seq<State>, es: seq<Step>)
    ensures IsRun(ss, es)
    ensures var s := ss[|es|]; s.snapshot.Some? && IsRemoved(s, "db") && LATE.file < s.last.file
    ensures var s := ss[|es|]; !Retained(s, LATE.file) && RecoveredLive(WithoutFile(s.log, LATE.file), "db")
  {
    var s1 := Next(START, Create("db", EARLY));
    assert s1.log == map[EARLY := NameRecord("db", true)] && RemovedNames(s1) == {};
    OneNameIsExact();
    var s2 := Next(s1, Scan(ONE_NAME));
    var s3 := Next(s2, Remove("db", LATE));
    var s4 := Next(s3, Pad(Lsn(2, 0)));
    ss := [START, s1, s2, s3, s4];
    es := [Create("db", EARLY), Scan(ONE_NAME), Remove("db", LATE), Pad(Lsn(2, 0))];
    assert forall l :: IsTombstone(s4, 1, l) ==> l == LATE;
    assert LiveFor(WithoutFile(s4.log, 1), EARLY, "db");
    assert forall m :: Names(WithoutFile(s4.log, 1), m, "db") ==> m == EARLY;
  }
}

/**
 Migration attempts at full concurrency.  Any number of cleaner threads advance through
 lookup, lock, recheck, capture, publish and release, one step at a time, interleaved with
 every step of `Store`.
 */
module Interleaving {
  import opened Lsns
  import opened Store
  import opened Migration

  /**
   What one attempt is about: the LN being cleaned and the slot LSN its lookup saw, `NULL_LSN` when
   it saw no slot.  `clear` records, for the proofs only, that nothing referenced the LN at that
   moment.
   */
  datatype Task = Task(k: Key, logLsn: Lsn, treeLsn: Lsn, clear: bool)

  /** Where an attempt stands.  `Decided.checked` tells that the recheck had passed. */
  datatype Pc =
    | Looked(task: Task)
    | Holding(task: Task)
    | Checked(task: Task)
    | Carrying(task: Task, data: Bytes)
    | Decided(task: Task, outcome: Outcome, held: bool, checked: bool)

  datatype Fine = Fine(store: State, cleaners: map<nat, Pc>)

  const START := Fine(EMPTY, map[])

  datatype Step =
    | Outside(op: Op)
    | Look(c: nat, k: Key, logLsn: Lsn)
    | Advance(c: nat, faults: Faults)

  predicate HoldsLock(pc: Pc) {
    match pc
    case Looked(_) => false
    case Decided(_, _, held, _) => held
    case _ => true
  }

  /** Attempt `c` has its verdict and has let go of its lock. */
  predicate HasVerdict(f: Fine, c: nat) {
    c in f.cleaners && f.cleaners[c].Decided? && !f.cleaners[c].held
  }

  /** Whatever the log has at `l`, now or after a file is gone, is a record of `k`. */
  predicate Owned(s: State, l: Lsn, k: Key) {
    !s.last.Before(l) && (l in s.log ==> s.log[l].key == k)
  }

  ghost predicate CanStep(f: Fine, e: Step) {
    match e
    case Outside(op) => Enabled(f.store, op)
    case Look(c, k, logLsn) => c !in f.cleaners && Owned(f.store, logLsn, k)
    case Advance(c, faults) => c in f.cleaners && (faults.newLsn.Some? ==> Fresh(f.store, faults.newLsn.value))
  }

  /** Publication as the latched code does it; the move reuses the resident copy when there is one. */
  function PublishStep(s: State, c: nat, task: Task, data: Bytes, newLsn: Option<Lsn>): (State, Outcome) {
    if task.treeLsn != task.logLsn then (s, Obsolete)
    else if task.k !in s.slots || s.slots[task.k].lsn != task.logLsn then (s, Obsolete)
    else if !SoleOwner(s, task.logLsn, Cleaner(c)) || newLsn.None? then (s, Locked)
    else
      var v := if s.slots[task.k].data.Some? then s.slots[task.k].data.value else data;
      (Moved(s, task.k, v, newLsn.value), Migrated)
  }

  /** The next step of attempt `c`. */
  function Advanced(f: Fine, c: nat, faults: Faults): Fine
    requires c in f.cleaners
  {
    var s := f.store;
    match f.cleaners[c]
    case Looked(t) =>
      if !faults.lookup && CanRead(s, t.treeLsn)
      then Fine(s.(owners := s.owners[(t.treeLsn, Cleaner(c)) := Read]), f.cleaners[c := Holding(t)])
      else f.(cleaners := f.cleaners[c := Decided(t, Locked, false, false)])
    case Holding(t) =>
      if faults.recheck then f.(cleaners := f.cleaners[c := Decided(t, Locked, true, false)])
      else if t.k !in s.slots || s.slots[t.k].lsn != t.treeLsn
      then f.(cleaners := f.cleaners[c := Decided(t, Obsolete, true, false)])
      else f.(cleaners := f.cleaners[c := Checked(t)])
    case Checked(t) =>
      (match Captured(s, t.k, faults.read)
       case None => f.(cleaners := f.cleaners[c := Decided(t, Locked, true, true)])
       case Some(v) => f.(cleaners := f.cleaners[c := Carrying(t, v)]))
    case Carrying(t, data) =>
      var (s', o) := PublishStep(s, c, t, data, faults.newLsn);
      Fine(s', f.cleaners[c := Decided(t, o, true, true)])
    case Decided(t, o, held, checked) =>
      if held
      then f.(store := s.(owners := s.owners - {(t.treeLsn, Cleaner(c))}),
              cleaners := f.cleaners[c := Decided(t, o, false, checked)])
      else f.(cleaners := f.cleaners - {c})
  }

  ghost function TaskOf(s: State, k: Key, logLsn: Lsn): Task {
    Task(k, logLsn, if k in s.slots then s.slots[k].lsn else NULL_LSN, !IsRef(s, logLsn))
  }

  /** A lookup that finds no slot is a verdict at once. */
  ghost function Next(f: Fine, e: Step): Fine
    requires CanStep(f, e)
  {
    match e
    case Outside(op) => f.(store := Apply(f.store, op))
    case Look(c, k, logLsn) =>
      var task := TaskOf(f.store, k, logLsn);
      var pc := if k in f.store.slots then Looked(task) else Decided(task, Obsolete, false, false);
      f.(cleaners := f.cleaners[c := pc])
    case Advance(c, faults) => Advanced(f, c, faults)
  }

  /** A run: states one longer than steps, each step enabled where it is taken. */
  ghost predicate IsRun(fs: seq<Fine>, es: seq<Step>) {
    && |fs| == |es| + 1
    && fs[0] == START
    && (forall i :: 0 <= i < |es| ==> CanStep(fs[i], es[i]) && fs[i + 1] == Next(fs[i], es[i]))
  }

  // ----- invariant ----------------------------------------------------------------------------

  ghost predicate LockKept(s: State, c: nat, pc: Pc) {
    HoldsLock(pc) ==> (pc.task.treeLsn, Cleaner(c)) in s.owners && s.owners[(pc.task.treeLsn, Cleaner(c))] == Read
  }

  /** From recheck to publication the slot cannot move away from the LSN the cleaner locked. */
  ghost predicate Pinned(s: State, pc: Pc) {
    && (pc.Checked? || pc.Carrying? ==> pc.task.k in s.slots && s.slots[pc.task.k].lsn == pc.task.treeLsn)
    && (pc.Carrying? ==> pc.task.treeLsn in s.log && pc.data == s.log[pc.task.treeLsn].value)
  }

  /** The LN was looked up at its own LSN, or when nothing referenced it. */
  predicate SafeLookup(t: Task) {
    t.treeLsn == t.logLsn || t.clear
  }

  /** A decision the caller may act on: the LN was moved, or shown obsolete. */
  predicate Settled(pc: Pc) {
    && pc.Decided?
    && (pc.outcome.Migrated? || (pc.outcome.Obsolete? && (pc.checked || SafeLookup(pc.task))))
  }

  ghost predicate AttemptOk(s: State, c: nat, pc: Pc) {
    && Owned(s, pc.task.logLsn, pc.task.k)
    && (pc.task.treeLsn == NULL_LSN ==> pc == Decided(pc.task, Obsolete, false, false))
    && (pc.task.treeLsn != NULL_LSN ==> Owned(s, pc.task.treeLsn, pc.task.k))
    && LockKept(s, c, pc)
    && Pinned(s, pc)
    && (Settled(pc) || pc.task.clear ==> !IsRef(s, pc.task.logLsn))
  }

  ghost predicate FineInv(f: Fine) {
    && Inv(f.store)
    && (forall c :: c in f.cleaners ==> AttemptOk(f.store, c, f.cleaners[c]))
  }

  /** A write lock never shares its LSN: what a cleaner has read-locked no transaction holds. */
  lemma ReadLockedIsUnheld(s: State, c: nat, l: Lsn)
    requires Exclusive(s) && ChangesOk(s) && (l, Cleaner(c)) in s.owners
    ensures forall t: nat, k :: (t, k) in s.changes ==> !HeldBy(s, t, k, l) && (k in s.slots ==> s.slots[k].lsn != l)
  {
    forall t: nat, k | (t, k) in s.changes
      ensures !HeldBy(s, t, k, l) && (k in s.slots ==> s.slots[k].lsn != l)
    {
      assert ChangeOk(s, t, k);
    }
  }

  /** So a read-locked slot is one no transaction is changing, and its LSN the only reference to its key. */
  lemma ReadLockExcludesWriters(s: State, c: nat, l: Lsn, k: Key, m: Lsn)
    requires Exclusive(s) && ChangesOk(s) && (l, Cleaner(c)) in s.owners && Owned(s, l, k) && Owned(s, m, k)
    ensures k in s.slots && s.slots[k].lsn == l ==> forall t: nat :: (t, k) !in s.changes
    ensures (k in s.slots ==> s.slots[k].lsn != l) ==> !IsRef(s, l)
    ensures k in s.slots && s.slots[k].lsn == l && m != l ==> !IsRef(s, m)
  {
    ReadLockedIsUnheld(s, c, l);
  }

  lemma OutsideKeepsPin(s: State, op: Op, c: nat, pc: Pc)
    requires Inv(s) && Enabled(s, op) && LockKept(s, c, pc) && Pinned(s, pc)
    ensures LockKept(Apply(s, op), c, pc) && Pinned(Apply(s, op), pc)
  {
    if pc.Checked? || pc.Carrying? {
      ReadLockExcludesWriters(s, c, pc.task.treeLsn, pc.task.k, pc.task.treeLsn);
    }
  }

  lemma OutsideKeepsInv(f: Fine, op: Op)
    requires FineInv(f) && Enabled(f.store, op)
    ensures FineInv(Next(f, Outside(op)))
  {
    StepKeepsInv(f.store, op);
    StepGrows(f.store, op);
    var f' := Next(f, Outside(op));
    forall c | c in f'.cleaners
      ensures AttemptOk(f'.store, c, f'.cleaners[c])
    {
      assert AttemptOk(f.store, c, f.cleaners[c]);
      OutsideKeepsPin(f.store, op, c, f.cleaners[c]);
    }
  }

  lemma RefIgnoresLocks(s: State, owners: map<(Lsn, Locker), Mode>)
    ensures forall l :: IsRef(s.(owners := owners), l) <==> IsRef(s, l)
  {
    var s' := s.(owners := owners);
    forall l | l in s.log
      ensures IsRef(s', l) <==> IsRef(s, l)
    {
      var k := s.log[l].key;
      assert forall t: nat | (t, k) in s.changes :: HeldBy(s', t, k, l) == HeldBy(s, t, k, l);
    }
  }

  /** Cleaner locks come and go without disturbing anybody else's. */
  lemma CleanerLockKeepsInv(s: State, c: nat, l: Lsn)
    requires Inv(s) && !s.last.Before(l) && CanRead(s, l)
    ensures Inv(s.(owners := s.owners[(l, Cleaner(c)) := Read]))
  {
    assert forall k :: k in s.slots ==> SlotOk(s, k);
    assert forall t, k :: (t, k) in s.changes ==> ChangeOk(s, t, k);
  }

  lemma CleanerUnlockKeepsInv(s: State, c: nat, l: Lsn)
    requires Inv(s)
    ensures Inv(s.(owners := s.owners - {(l, Cleaner(c))}))
  {
    assert forall k :: k in s.slots ==> SlotOk(s, k);
    assert forall t, k :: (t, k) in s.changes ==> ChangeOk(s, t, k);
  }

  lemma OthersKeepTheirLocks(f: Fine, c: nat, owners: map<(Lsn, Locker), Mode>)
    requires FineInv(f) && c in f.cleaners
    requires forall p :: p in f.store.owners && p.1 != Cleaner(c) ==> p in owners && owners[p] == f.store.owners[p]
    ensures forall a :: a in f.cleaners && a != c ==> AttemptOk(f.store.(owners := owners), a, f.cleaners[a])
  {
    RefIgnoresLocks(f.store, owners);
    forall a | a in f.cleaners && a != c
      ensures AttemptOk(f.store.(owners := owners), a, f.cleaners[a])
    {
      assert AttemptOk(f.store, a, f.cleaners[a]);
    }
  }

  lemma TakeLockKeepsInv(f: Fine, c: nat, faults: Faults)
    requires FineInv(f) && c in f.cleaners && f.cleaners[c].Looked?
    ensures FineInv(Advanced(f, c, faults))
  {
    var l := f.cleaners[c].task.treeLsn;
    assert AttemptOk(f.store, c, f.cleaners[c]);
    if !faults.lookup && CanRead(f.store, l) {
      CleanerLockKeepsInv(f.store, c, l);
      var owners := f.store.owners[(l, Cleaner(c)) := Read];
      RefIgnoresLocks(f.store, owners);
      OthersKeepTheirLocks(f, c, owners);
    }
  }

  lemma DropLockKeepsInv(f: Fine, c: nat, faults: Faults)
    requires FineInv(f) && c in f.cleaners && f.cleaners[c].Decided?
    ensures FineInv(Advanced(f, c, faults))
  {
    var pc := f.cleaners[c];
    assert AttemptOk(f.store, c, pc);
    if pc.held {
      CleanerUnlockKeepsInv(f.store, c, pc.task.treeLsn);
      var owners := f.store.owners - {(pc.task.treeLsn, Cleaner(c))};
      RefIgnoresLocks(f.store, owners);
      OthersKeepTheirLocks(f, c, owners);
    }
  }

  lemma DecideStepKeepsInv(f: Fine, c: nat, faults: Faults)
    requires FineInv(f) && c in f.cleaners && (f.cleaners[c].Holding? || f.cleaners[c].Checked?)
    ensures FineInv(Advanced(f, c, faults))
  {
    var f' := Advanced(f, c, faults);
    var t := f.cleaners[c].task;
    assert AttemptOk(f.store, c, f.cleaners[c]);
    if t.k in f.store.slots {
      assert SlotOk(f.store, t.k);
    }
    ReadLockExcludesWriters(f.store, c, t.treeLsn, t.k, t.logLsn);
    forall a | a in f'.cleaners
      ensures AttemptOk(f'.store, a, f'.cleaners[a])
    {
      assert AttemptOk(f.store, a, f.cleaners[a]);
    }
  }

  /** While any attempt holds a slot's lock nobody else's publication can move that slot. */
  lemma MoveKeepsOthersPinned(s: State, c: nat, k: Key, v: Bytes, l: Lsn, a: nat, pc: Pc)
    requires k in s.slots && SoleOwner(s, s.slots[k].lsn, Cleaner(c)) && LogBounded(s) && Fresh(s, l)
    requires a != c && LockKept(s, a, pc) && Pinned(s, pc)
    ensures LockKept(Moved(s, k, v, l), a, pc) && Pinned(Moved(s, k, v, l), pc)
  {
    if pc.Checked? || pc.Carrying? {
      assert (pc.task.treeLsn, Cleaner(a)) in s.owners;
    }
  }

  lemma PublishStepKeepsInv(f: Fine, c: nat, faults: Faults)
    requires FineInv(f) && c in f.cleaners && f.cleaners[c].Carrying?
    requires CanStep(f, Advance(c, faults))
    ensures FineInv(Advanced(f, c, faults))
  {
    var f' := Advanced(f, c, faults);
    var s, pc := f.store, f.cleaners[c];
    var t := pc.task;
    assert AttemptOk(s, c, pc);
    assert SlotOk(s, t.k);
    ReadLockExcludesWriters(s, c, t.treeLsn, t.k, t.logLsn);
    if f'.cleaners[c].outcome.Migrated? {
      assert f'.store == Moved(s, t.k, ValueOf(s, t.k), faults.newLsn.value);
      assert CanRead(s, t.treeLsn) by {
        assert forall p :: p in s.owners && p.0 == t.treeLsn ==> p == (t.treeLsn, Cleaner(c));
      }
      MoveKeepsInv(s, t.k, ValueOf(s, t.k), faults.newLsn.value);
    }
    forall a | a in f'.cleaners
      ensures AttemptOk(f'.store, a, f'.cleaners[a])
    {
      assert AttemptOk(s, a, f.cleaners[a]);
      if a != c && f'.cleaners[c].outcome.Migrated? {
        MoveKeepsOthersPinned(s, c, t.k, ValueOf(s, t.k), faults.newLsn.value, a, f.cleaners[a]);
      }
    }
  }

  /** A cleaner step appends at most one record, and drops old references only. */
  lemma AdvanceGrows(f: Fine, c: nat, faults: Faults)
    requires FineInv(f) && CanStep(f, Advance(c, faults))
    ensures Grows(f.store, Advanced(f, c, faults).store)
    ensures Advanced(f, c, faults).store.slots.Keys == f.store.slots.Keys
    ensures Advanced(f, c, faults).store.changes == f.store.changes
  {
    var f', pc := Advanced(f, c, faults), f.cleaners[c];
    if pc.Carrying? {
      assert AttemptOk(f.store, c, pc) && SlotOk(f.store, pc.task.k);
      if f'.cleaners[c].outcome.Migrated? {
        assert CanRead(f.store, pc.task.treeLsn) by {
          assert forall p :: p in f.store.owners && p.0 == pc.task.treeLsn ==> p == (pc.task.treeLsn, Cleaner(c));
        }
        MoveKeepsInv(f.store, pc.task.k, ValueOf(f.store, pc.task.k), faults.newLsn.value);
      }
    } else {
      assert f'.store == f.store.(owners := f'.store.owners);
      RefIgnoresLocks(f.store, f'.store.owners);
    }
  }

  lemma AdvanceKeepsTasks(f: Fine, c: nat, faults: Faults)
    requires CanStep(f, Advance(c, faults))
    ensures var f' := Advanced(f, c, faults);
            forall a :: a in f'.cleaners ==> a in f.cleaners && f'.cleaners[a].task == f.cleaners[a].task
  {
  }

  lemma StepKeepsFineInv(f: Fine, e: Step)
    requires FineInv(f) && CanStep(f, e)
    ensures FineInv(Next(f, e))
  {
    match e
    case Outside(op) => OutsideKeepsInv(f, op);
    case Look(c, k, logLsn) =>
      assert k in f.store.slots ==> SlotOk(f.store, k);
      assert forall a :: a in f.cleaners ==> AttemptOk(f.store, a, f.cleaners[a]);
    case Advance(c, faults) =>
      match f.cleaners[c]
      case Carrying(_, _) => PublishStepKeepsInv(f, c, faults);
      case Looked(_) => TakeLockKeepsInv(f, c, faults);
      case Decided(_, _, _, _) => DropLockKeepsInv(f, c, faults);
      case _ => DecideStepKeepsInv(f, c, faults);
  }

  lemma {:induction false} RunKeepsFineInv(fs: seq<Fine>, es: seq<Step>, n: nat)
    requires IsRun(fs, es) && n <= |es|
    ensures FineInv(fs[n])
  {
    if n == 0 {
    } else {
      RunKeepsFineInv(fs, es, n - 1);
      StepKeepsFineInv(fs[n - 1], es[n - 1]);
    }
  }

  // ----- theorems ---------------------------------------------------------------------------

  /** The database after the first `n` steps, had there been no cleaner. */
  function DbAfter(es: seq<Step>, n: nat): Db
    requires n <= |es|
  {
    if n == 0 then EMPTY_DB
    else if es[n - 1].Outside? then Meaning(DbAfter(es, n - 1), es[n - 1].op)
    else DbAfter(es, n - 1)
  }

  lemma ShowsIgnoresLocks(s: State, owners: map<(Lsn, Locker), Mode>, d: Db)
    requires Shows(s, d)
    ensures Shows(s.(owners := owners), d)
  {
    var s' := s.(owners := owners);
    assert forall k :: k in s.slots ==> ShowsValue(s, d, k) && ShowsValue(s', d, k);
    assert forall t: nat, k :: (t, k) in s.changes ==> ShowsChange(s, d, t, k) && ShowsChange(s', d, t, k);
  }

  /** A cleaner step is a stutter: readers and pending aborts cannot tell it happened. */
  lemma CleanerStepIsInvisible(f: Fine, e: Step, d: Db)
    requires FineInv(f) && CanStep(f, e) && !e.Outside? && Shows(f.store, d)
    ensures Shows(Next(f, e).store, d)
  {
    var f' := Next(f, e);
    if e.Advance? && f.cleaners[e.c].Carrying? {
      var t := f.cleaners[e.c].task;
      assert AttemptOk(f.store, e.c, f.cleaners[e.c]);
      assert SlotOk(f.store, t.k);
      if f'.cleaners[e.c].outcome.Migrated? {
        MoveIsInvisible(f.store, d, t.k, ValueOf(f.store, t.k), e.faults.newLsn.value);
      }
    } else {
      assert f'.store == f.store.(owners := f'.store.owners);
      ShowsIgnoresLocks(f.store, f'.store.owners, d);
    }
  }

  /**
   Migration never changes the database.  In every interleaving of transactions, readers,
   the evictor and any number of migration attempts, each key reads, and each open
   transaction would restore, exactly what it would if the cleaner did not exist.
   */
  lemma {:induction false} MigrationIsInvisible(fs: seq<Fine>, es: seq<Step>, n: nat)
    requires IsRun(fs, es) && n <= |es|
    ensures Shows(fs[n].store, DbAfter(es, n))
  {
    if n == 0 {
    } else {
      MigrationIsInvisible(fs, es, n - 1);
      RunKeepsFineInv(fs, es, n - 1);
      if es[n - 1].Outside? {
        StepMeaning(fs[n - 1].store, DbAfter(es, n - 1), es[n - 1].op);
      } else {
        CleanerStepIsInvisible(fs[n - 1], es[n - 1], DbAfter(es, n - 1));
      }
    }
  }

  /** Any cleaner step that does not decide `Migrated` leaves slots and log as they were. */
  lemma OnlyMigratedMoves(f: Fine, e: Step)
    requires CanStep(f, e) && !e.Outside?
    ensures Next(f, e).store.slots != f.store.slots || Next(f, e).store.log != f.store.log ==>
              && e.Advance? && f.cleaners[e.c].Carrying?
              && Next(f, e).cleaners[e.c] == Decided(f.cleaners[e.c].task, Migrated, true, true)
    ensures Next(f, e).store.changes == f.store.changes && Next(f, e).store.waiters == f.store.waiters
  {
  }

  /** A record somebody else has locked or waits for keeps its LSN through every cleaner step. */
  lemma NoForeignLockLosesItsRecord(f: Fine, e: Step, k: Key, x: Locker)
    requires CanStep(f, e) && !e.Outside?
    requires k in f.store.slots
    requires (f.store.slots[k].lsn, x) in f.store.owners || (f.store.slots[k].lsn, x) in f.store.waiters
    requires x != Cleaner(e.c)
    ensures k in Next(f, e).store.slots && Next(f, e).store.slots[k] == f.store.slots[k]
  {
  }

  lemma StepGrowsStore(f: Fine, e: Step)
    requires FineInv(f) && CanStep(f, e)
    ensures Grows(f.store, Next(f, e).store)
  {
    match e
    case Outside(op) => StepGrows(f.store, op);
    case Look(_, _, _) =>
    case Advance(c, faults) => AdvanceGrows(f, c, faults);
  }

  ghost predicate IsUnreferenced(s: State, l: Lsn) {
    !s.last.Before(l) && !IsRef(s, l)
  }

  lemma StepKeepsUnreferenced(f: Fine, e: Step, l: Lsn)
    requires FineInv(f) && CanStep(f, e) && IsUnreferenced(f.store, l)
    ensures IsUnreferenced(Next(f, e).store, l)
  {
    StepGrowsStore(f, e);
  }

  /** What nothing references at some point of a run nothing references later. */
  lemma {:induction false} UnreferencedStays(fs: seq<Fine>, es: seq<Step>, n: nat, m: nat, l: Lsn)
    requires IsRun(fs, es) && n <= m <= |es|
    requires IsUnreferenced(fs[n].store, l)
    ensures IsUnreferenced(fs[m].store, l)
    decreases m
  {
    if n == m {
    } else {
      UnreferencedStays(fs, es, n, m - 1, l);
      RunKeepsFineInv(fs, es, m - 1);
      StepKeepsUnreferenced(fs[m - 1], es[m - 1], l);
    }
  }

  /**
   A settled decision is right, and stays right: an LN that was moved, that was found
   obsolete after a passed recheck, or whose lookup was safe, is referenced by nothing from
   the decision on, also after the attempt is over.
   */
  lemma SettledIsUnreferenced(fs: seq<Fine>, es: seq<Step>, n: nat, m: nat, c: nat)
    requires IsRun(fs, es) && n <= m <= |es|
    requires c in fs[n].cleaners && Settled(fs[n].cleaners[c])
    ensures !IsRef(fs[m].store, fs[n].cleaners[c].task.logLsn)
  {
    RunKeepsFineInv(fs, es, n);
    assert AttemptOk(fs[n].store, c, fs[n].cleaners[c]);
    UnreferencedStays(fs, es, n, m, fs[n].cleaners[c].task.logLsn);
  }

  /** Attempt `c` answered `Obsolete` for an LN that is still referenced. */
  ghost predicate Mistaken(f: Fine, c: nat) {
    && c in f.cleaners && f.cleaners[c].Decided? && f.cleaners[c].outcome.Obsolete?
    && IsRef(f.store, f.cleaners[c].task.logLsn)
  }

  /** Giving back its lock does not make it less so. */
  lemma ReleasedIsMistaken(f: Fine, c: nat)
    requires Mistaken(f, c) && f.cleaners[c].held
    ensures var f' := Advanced(f, c, CALM);
            Mistaken(f', c) && HasVerdict(f', c) && f'.cleaners[c].task == f.cleaners[c].task
  {
    RefIgnoresLocks(f.store, Advanced(f, c, CALM).store.owners);
  }

  /** Some open transaction would return to the LN on a rollback, or has it as its newest image of the key. */
  ghost predicate Held(s: State, k: Key, l: Lsn) {
    exists t :: (t, k) in s.changes && HeldBy(s, t, k, l)
  }

  /** The slot is at the LN, or no open transaction holds it. */
  ghost predicate SafeToLook(s: State, k: Key, l: Lsn) {
    (k in s.slots && s.slots[k].lsn == l) || !Held(s, k, l)
  }

  lemma SafeToLookIsSafe(s: State, k: Key, l: Lsn)
    requires LogBounded(s) && SlotsOk(s) && ChangesOk(s) && Owned(s, l, k)
    ensures SafeToLook(s, k, l) <==> SafeLookup(TaskOf(s, k, l))
  {
    if t :| (t, k) in s.changes && HeldBy(s, t, k, l) {
      assert ChangeOk(s, t, k);
    }
  }

  /** Locking an LSN the slot has since left for the LN being cleaned leads straight to a mistake. */
  lemma LockAfterMoveIsMistaken(f: Fine, c: nat, t: Task, ok: Faults)
    requires c in f.cleaners && f.cleaners[c] == Looked(t) && !ok.lookup && !ok.recheck && ok.newLsn.None?
    requires forall p :: p in f.store.owners ==> p.0 != t.treeLsn
    requires t.k in f.store.slots && f.store.slots[t.k].lsn == t.logLsn != t.treeLsn && Logged(f.store, t.logLsn, t.k)
    ensures CanStep(f, Advance(c, ok)) && CanStep(Next(f, Advance(c, ok)), Advance(c, ok))
    ensures Mistaken(Next(Next(f, Advance(c, ok)), Advance(c, ok)), c)
  {
  }

  /** The steps `es` lead from `f` to `f'`. */
  ghost predicate Leads(f: Fine, es: seq<Step>, f': Fine)
    decreases |es|
  {
    if es == [] then f' == f else CanStep(f, es[0]) && Leads(Next(f, es[0]), es[1..], f')
  }

  lemma {:induction false} LeadsKeepsInv(f: Fine, es: seq<Step>, f': Fine)
    requires FineInv(f) && Leads(f, es, f')
    ensures FineInv(f')
    decreases |es|
  {
    if es == [] {
    } else {
      StepKeepsFineInv(f, es[0]);
      LeadsKeepsInv(Next(f, es[0]), es[1..], f');
    }
  }

  lemma LeadsBy(f: Fine, e: Step, es: seq<Step>, f': Fine)
    requires CanStep(f, e) && Leads(Next(f, e), es, f')
    ensures Leads(f, [e] + es, f')
  {
    assert ([e] + es)[1..] == es;
  }

  /** A step of an attempt, or of a transaction that inserts into `dbs` only. */
  predicate IsWithin(e: Step, dbs: set<int>) {
    e.Advance? || (e.Outside? && (e.op.Insert? ==> e.op.k.db in dbs))
  }

  predicate AreWithin(es: seq<Step>, dbs: set<int>) {
    forall i :: 0 <= i < |es| ==> IsWithin(es[i], dbs)
  }

  const CALM := Faults(false, false, false, false, None)

  lemma TwoAdvances(f: Fine, c: nat, t: Task) returns (es: seq<Step>, f': Fine)
    requires c in f.cleaners && f.cleaners[c] == Looked(t)
    requires forall p :: p in f.store.owners ==> p.0 != t.treeLsn
    requires t.k in f.store.slots && f.store.slots[t.k].lsn == t.logLsn != t.treeLsn && Logged(f.store, t.logLsn, t.k)
    ensures Leads(f, es, f') && Mistaken(f', c) && f'.cleaners[c].task == t && AreWithin(es, {})
  {
    LockAfterMoveIsMistaken(f, c, t, CALM);
    var f1 := Next(f, Advance(c, CALM));
    f' := Next(f1, Advance(c, CALM));
    LeadsBy(f1, Advance(c, CALM), [], f');
    es := [Advance(c, CALM)] + [Advance(c, CALM)];
    LeadsBy(f, Advance(c, CALM), [Advance(c, CALM)], f');
  }

  /** Attempt `c` saw the slot at an LSN that `t` has write-locked, and has not locked it yet. */
  ghost predicate LookedInto(f: Fine, c: nat, task: Task, t: nat) {
    && c in f.cleaners && f.cleaners[c] == Looked(task) && task.treeLsn != task.logLsn
    && t in f.store.active && HoldsWrite(f.store, task.treeLsn, t)
  }

  /** Once `t` is gone nobody owns the LSN it held for writing. */
  lemma ReleasedIsFree(s: State, t: nat, l: Lsn)
    requires Exclusive(s) && HoldsWrite(s, l, t)
    ensures forall p :: p in Released(s, t).owners ==> p.0 != l
  {
    forall p | p in Released(s, t).owners
      ensures p.0 != l
    {
      assert p == (p.0, p.1) && (l, Txn(t)) in s.owners;
    }
  }

  function Unpublished(s: State, t: nat): set<(nat, Key)> {
    set p | p in s.changes && p.0 == t && !s.changes[p].published
  }

  lemma PublishShrinks(s: State, t: nat, j: Key)
    requires (t, j) in s.changes && !s.changes[(t, j)].published
    ensures |Unpublished(Apply(s, Publish(t, j, false)), t)| < |Unpublished(s, t)|
  {
    assert Unpublished(Apply(s, Publish(t, j, false)), t) == Unpublished(s, t) - {(t, j)};
  }

  /** Once `t` has published what it logged, the slot is at the LN. */
  ghost predicate WillPoint(s: State, task: Task, t: nat) {
    && Logged(s, task.logLsn, task.k)
    && if (t, task.k) in s.changes then s.changes[(t, task.k)].newest == task.logLsn
       else task.k in s.slots && s.slots[task.k].lsn == task.logLsn
  }

  /** `t` is about to mislead attempt `c`. */
  ghost predicate OnCourse(f: Fine, c: nat, task: Task, t: nat) {
    FineInv(f) && LookedInto(f, c, task, t) && WillPoint(f.store, task, t)
  }

  lemma PublishStaysOnCourse(f: Fine, c: nat, task: Task, t: nat, j: Key)
    requires OnCourse(f, c, task, t) && (t, j) in f.store.changes && !f.store.changes[(t, j)].published
    ensures OnCourse(Next(f, Outside(Publish(t, j, false))), c, task, t)
  {
    assert ChangeOk(f.store, t, j);
    StepKeepsFineInv(f, Outside(Publish(t, j, false)));
  }

  /** With everything published, `t` ends, the lock is free, and the recheck finds the slot at the LN. */
  lemma LastStepMisleads(f: Fine, c: nat, task: Task, t: nat) returns (es: seq<Step>, f': Fine)
    requires OnCourse(f, c, task, t) && Unpublished(f.store, t) == {}
    ensures Leads(f, es, f') && Mistaken(f', c) && f'.cleaners[c].task == task && AreWithin(es, {})
  {
    assert forall j :: (t, j) in f.store.changes ==> (t, j) !in Unpublished(f.store, t);
    assert (t, task.k) in f.store.changes ==> ChangeOk(f.store, t, task.k);
    ReleasedIsFree(f.store, t, task.treeLsn);
    var e := Outside(End(t));
    var more;
    more, f' := TwoAdvances(Next(f, e), c, task);
    es := [e] + more;
    LeadsBy(f, e, more, f');
  }

  /** If `t` publishes all it logged and ends before the lock is taken, the recheck finds the slot back at the LN. */
  lemma {:induction false} EndMisleads(f: Fine, c: nat, task: Task, t: nat) returns (es: seq<Step>, f': Fine)
    requires OnCourse(f, c, task, t)
    ensures Leads(f, es, f') && Mistaken(f', c) && f'.cleaners[c].task == task && AreWithin(es, {})
    decreases |Unpublished(f.store, t)|
  {
    if p :| p in Unpublished(f.store, t) {
      assert p == (t, p.1);
      var e := Outside(Publish(t, p.1, false));
      PublishShrinks(f.store, t, p.1);
      PublishStaysOnCourse(f, c, task, t, p.1);
      var more;
      more, f' := EndMisleads(Next(f, e), c, task, t);
      es := [e] + more;
      LeadsBy(f, e, more, f');
    } else {
      es, f' := LastStepMisleads(f, c, task, t);
    }
  }

  /** The same when `t` first rolls the key back to the LN. */
  lemma RollbackMisleads(f: Fine, c: nat, task: Task, t: nat) returns (es: seq<Step>, f': Fine)
    requires FineInv(f) && LookedInto(f, c, task, t)
    requires (t, task.k) in f.store.changes && f.store.changes[(t, task.k)].before == Some(task.logLsn)
    ensures Leads(f, es, f') && Mistaken(f', c) && f'.cleaners[c].task == task && AreWithin(es, {})
  {
    assert ChangeOk(f.store, t, task.k);
    var e := Outside(Undo(t, task.k, false));
    StepKeepsFineInv(f, e);
    var more;
    more, f' := EndMisleads(Next(f, e), c, task, t);
    es := [e] + more;
    LeadsBy(f, e, more, f');
  }

  /** No way of going on from `f` makes attempt `c` call its LN obsolete while something references it. */
  ghost predicate NeverMistaken(f: Fine, c: nat, task: Task) {
    forall es, f' :: Leads(f, es, f') && c in f'.cleaners && f'.cleaners[c].task == task ==> !Mistaken(f', c)
  }

  lemma SafeIsNeverMistaken(f: Fine, c: nat, task: Task)
    requires FineInv(f) && SafeLookup(task)
    ensures NeverMistaken(f, c, task)
  {
    forall es, f' | Leads(f, es, f') && c in f'.cleaners && f'.cleaners[c].task == task
      ensures !Mistaken(f', c)
    {
      LeadsKeepsInv(f, es, f');
      assert AttemptOk(f'.store, c, f'.cleaners[c]);
    }
  }

  lemma UnsafeMisleads(f: Fine, c: nat, k: Key, logLsn: Lsn) returns (es: seq<Step>, f': Fine)
    requires FineInv(f) && CanStep(f, Look(c, k, logLsn)) && !SafeToLook(f.store, k, logLsn)
    ensures Leads(Next(f, Look(c, k, logLsn)), es, f') && Mistaken(f', c)
    ensures f'.cleaners[c].task == TaskOf(f.store, k, logLsn) && AreWithin(es, {})
  {
    var f1, task := Next(f, Look(c, k, logLsn)), TaskOf(f.store, k, logLsn);
    StepKeepsFineInv(f, Look(c, k, logLsn));
    var t: nat :| (t, k) in f.store.changes && HeldBy(f.store, t, k, logLsn);
    assert ChangeOk(f.store, t, k);
    if k !in f.store.slots {
      es, f' := [], f1;
    } else if f.store.changes[(t, k)].newest == logLsn {
      es, f' := EndMisleads(f1, c, task, t);
    } else {
      es, f' := RollbackMisleads(f1, c, task, t);
    }
  }

  /**
   A lookup is safe exactly when it finds the slot at the LN being cleaned, or no open transaction
   has that LN as its before-image or its newest image of the key.  Otherwise that transaction can
   end so that the attempt calls a referenced LN obsolete.
   */
  lemma SafeLookupIff(f: Fine, c: nat, k: Key, logLsn: Lsn)
    requires FineInv(f) && CanStep(f, Look(c, k, logLsn))
    ensures NeverMistaken(Next(f, Look(c, k, logLsn)), c, TaskOf(f.store, k, logLsn)) <==>
            SafeToLook(f.store, k, logLsn)
  {
    var f1, task := Next(f, Look(c, k, logLsn)), TaskOf(f.store, k, logLsn);
    SafeToLookIsSafe(f.store, k, logLsn);
    if SafeToLook(f.store, k, logLsn) {
      StepKeepsFineInv(f, Look(c, k, logLsn));
      SafeIsNeverMistaken(f1, c, task);
    } else {
      var es, f' := UnsafeMisleads(f, c, k, logLsn);
      assert Leads(f1, es, f');
    }
  }

  /** Some open transaction would return to the LN on a rollback. */
  ghost predicate IsBeforeImage(s: State, k: Key, l: Lsn) {
    exists t :: (t, k) in s.changes && s.changes[(t, k)].before == Some(l)
  }

  /** In a file behind every open transaction what is held is a before-image. */
  lemma PastHoldsBeforeImages(s: State, k: Key, l: Lsn)
    requires Past(s, l.file)
    ensures Held(s, k, l) <==> IsBeforeImage(s, k, l)
  {
    forall t: nat | (t, k) in s.changes
      ensures HeldBy(s, t, k, l) <==> s.changes[(t, k)].before == Some(l)
    {
      assert s.changes[(t, k)].newest.file > l.file;
    }
  }

  /** So there only a rollback can mislead a lookup. */
  lemma ClampedLookupIff(f: Fine, c: nat, k: Key, logLsn: Lsn)
    requires FineInv(f) && CanStep(f, Look(c, k, logLsn)) && Past(f.store, logLsn.file)
    ensures NeverMistaken(Next(f, Look(c, k, logLsn)), c, TaskOf(f.store, k, logLsn)) <==>
            (k in f.store.slots && f.store.slots[k].lsn == logLsn) || !IsBeforeImage(f.store, k, logLsn)
  {
    SafeLookupIff(f, c, k, logLsn);
    PastHoldsBeforeImages(f.store, k, logLsn);
  }

  // ----- runs that end in a mistake ----------------------------------------------------------

  /** The states along the way. */
  lemma {:induction false} LeadsStates(f: Fine, es: seq<Step>, f': Fine) returns (fs: seq<Fine>)
    requires Leads(f, es, f')
    ensures |fs| == |es| + 1 && fs[0] == f && fs[|es|] == f'
    ensures forall i :: 0 <= i < |es| ==> CanStep(fs[i], es[i]) && fs[i + 1] == Next(fs[i], es[i])
    decreases |es|
  {
    if es == [] {
      fs := [f];
    } else {
      var rest := LeadsStates(Next(f, es[0]), es[1..], f');
      fs := [f] + rest;
      forall i | 0 <= i < |es|
        ensures CanStep(fs[i], es[i]) && fs[i + 1] == Next(fs[i], es[i])
      {
        if i > 0 {
          assert fs[i] == rest[i - 1] && fs[i + 1] == rest[i] && es[i] == es[1..][i - 1];
        }
      }
    }
  }

  lemma {:induction false} LeadsThen(f: Fine, es1: seq<Step>, f1: Fine, es2: seq<Step>, f2: Fine)
    requires Leads(f, es1, f1) && Leads(f1, es2, f2)
    ensures Leads(f, es1 + es2, f2)
    decreases |es1|
  {
    if es1 == [] {
      assert es1 + es2 == es2;
    } else {
      LeadsThen(Next(f, es1[0]), es1[1..], f1, es2, f2);
      assert (es1 + es2)[1..] == es1[1..] + es2;
    }
  }

  const KEY := Key(0, [])
  const OLD := Lsn(0, 1)
  const NEW := Lsn(1, 1)

  /** A store with one committed record, the key's, in file 0. */
  const ONE_RECORD :=
    State(map[KEY := Slot(OLD, None)], map[OLD := Record(KEY, [1])], OLD, map[], {}, {}, map[])

  lemma RecordIsWritten() returns (es: seq<Step>)
    ensures Leads(START, es, Fine(ONE_RECORD, map[])) && AreWithin(es, {KEY.db})
  {
    var e1, e2, e3, e4 :=
      Outside(Begin(0)), Outside(Insert(0, KEY, [1], OLD)), Outside(Publish(0, KEY, false)), Outside(End(0));
    var f1 := Next(START, e1);
    var f2 := Next(f1, e2);
    var f3 := Next(f2, e3);
    assert Released(f3.store, 0) == ONE_RECORD;
    LeadsBy(f3, e4, [], Fine(ONE_RECORD, map[]));
    LeadsBy(f2, e3, [e4], Fine(ONE_RECORD, map[]));
    LeadsBy(f1, e2, [e3] + [e4], Fine(ONE_RECORD, map[]));
    LeadsBy(START, e1, [e2] + ([e3] + [e4]), Fine(ONE_RECORD, map[]));
    es := [e1] + ([e2] + ([e3] + [e4]));
  }

  /** A committed record in file 0, and an open update of it in file 1. */
  const UPDATED := State(
    map[KEY := Slot(NEW, None)], map[OLD := Record(KEY, [1]), NEW := Record(KEY, [2])], NEW,
    map[(OLD, Txn(1)) := Write, (NEW, Txn(1)) := Write], {}, {1}, map[(1, KEY) := Change(Some(OLD), NEW, true)])

  lemma UpdateIsOpen() returns (es: seq<Step>)
    ensures Leads(START, es, Fine(UPDATED, map[])) && AreWithin(es, {KEY.db})
  {
    var es1 := RecordIsWritten();
    var f1, f4 := Fine(ONE_RECORD, map[]), Fine(UPDATED, map[]);
    var e2, e3, e4 := Outside(Begin(1)), Outside(Log(1, KEY, [2], NEW)), Outside(Publish(1, KEY, false));
    var f2 := Next(f1, e2);
    var f3 := Next(f2, e3);
    assert Next(f3, e4) == f4;
    LeadsBy(f3, e4, [], f4);
    LeadsBy(f2, e3, [e4], f4);
    LeadsBy(f1, e2, [e3] + [e4], f4);
    es := es1 + ([e2] + ([e3] + [e4]));
    LeadsThen(START, es1, f1, [e2] + ([e3] + [e4]), f4);
  }

  /** The update rolled back and its transaction over. */
  const RESTORED :=
    State(map[KEY := Slot(OLD, None)], UPDATED.log, NEW, map[], {}, {}, map[])

  /** An attempt on the committed record that looked while the update was open. */
  const MISLED := Task(KEY, OLD, NEW, false)

  lemma UpdateIsRolledBack(cleaners: map<nat, Pc>) returns (es: seq<Step>)
    ensures Leads(Fine(UPDATED, cleaners), es, Fine(RESTORED, cleaners)) && AreWithin(es, {})
  {
    var e1, e2 := Outside(Undo(1, KEY, false)), Outside(End(1));
    var f1 := Next(Fine(UPDATED, cleaners), e1);
    assert Released(f1.store, 1) == RESTORED;
    LeadsBy(f1, e2, [], Fine(RESTORED, cleaners));
    LeadsBy(Fine(UPDATED, cleaners), e1, [e2], Fine(RESTORED, cleaners));
    es := [e1] + [e2];
  }

  /** The lock is free, the recheck finds the slot elsewhere, and the verdict is wrong. */
  lemma VerdictIsWrong() returns (es: seq<Step>)
    ensures var wrong := Fine(RESTORED, map[0 := Decided(MISLED, Obsolete, false, false)]);
            Leads(Fine(RESTORED, map[0 := Looked(MISLED)]), es, wrong) && Mistaken(wrong, 0)
    ensures AreWithin(es, {})
  {
    var e := Advance(0, CALM);
    var f, f' :=
      Fine(RESTORED, map[0 := Looked(MISLED)]), Fine(RESTORED, map[0 := Decided(MISLED, Obsolete, false, false)]);
    var f1 := Next(f, e);
    var f2 := Next(f1, e);
    assert f2.store.owners - {(NEW, Cleaner(0))} == map[];
    LeadsBy(f2, e, [], f');
    LeadsBy(f1, e, [e], f');
    LeadsBy(f, e, [e] + [e], f');
    es := [e] + ([e] + [e]);
  }

  lemma UpdateIsLookedAt()
    ensures Past(UPDATED, OLD.file) && TaskOf(UPDATED, KEY, OLD) == MISLED
    ensures CanStep(Fine(UPDATED, map[]), Look(0, KEY, OLD))
    ensures Next(Fine(UPDATED, map[]), Look(0, KEY, OLD)) == Fine(UPDATED, map[0 := Looked(MISLED)])
  {
    assert HeldBy(UPDATED, 1, KEY, OLD) && IsRef(UPDATED, OLD);
  }

  /** A run that ends in a mistake with the file behind every open transaction: a rollback follows the lookup. */
  lemma RollbackRun() returns (fs: seq<Fine>, es: seq<Step>, n: nat)
    ensures IsRun(fs, es) && n < |es| && es[n] == Look(0, KEY, OLD)
    ensures Past(fs[n].store, OLD.file) && Mistaken(fs[|es|], 0)
  {
    var es1 := UpdateIsOpen();
    var es2 := UpdateIsRolledBack(map[0 := Looked(MISLED)]);
    var es3 := VerdictIsWrong();
    var f1, f2 := Fine(UPDATED, map[]), Fine(UPDATED, map[0 := Looked(MISLED)]);
    var f3 := Fine(RESTORED, map[0 := Looked(MISLED)]);
    var f4 := Fine(RESTORED, map[0 := Decided(MISLED, Obsolete, false, false)]);
    UpdateIsLookedAt();
    LeadsThen(f2, es2, f3, es3, f4);
    LeadsBy(f1, Look(0, KEY, OLD), es2 + es3, f4);
    fs, es, n := RunThrough(es1, f1, Look(0, KEY, OLD), es2 + es3, f4);
  }

  /** A run that stops at a given step on its way. */
  lemma RunThrough(es1: seq<Step>, f: Fine, e: Step, es2: seq<Step>, f2: Fine)
    returns (fs: seq<Fine>, es: seq<Step>, n: nat)
    requires Leads(START, es1, f) && Leads(f, [e] + es2, f2)
    ensures IsRun(fs, es) && n < |es| && es[n] == e && fs[n] == f && fs[|es|] == f2
  {
    var fs1 := LeadsStates(START, es1, f);
    var fs2 := LeadsStates(f, [e] + es2, f2);
    es := es1 + ([e] + es2);
    fs := fs1 + fs2[1..];
    n := |es1|;
    forall i | 0 <= i < |es|
      ensures CanStep(fs[i], es[i]) && fs[i + 1] == Next(fs[i], es[i])
    {
      if i < n {
        assert fs[i] == fs1[i] && fs[i + 1] == fs1[i + 1] && es[i] == es1[i];
      } else {
        assert fs[i] == fs2[i - n] && fs[i + 1] == fs2[i - n + 1] && es[i] == ([e] + es2)[i - n];
      }
    }
  }

  /** Without the clamp three steps suffice: a new key is logged, and looked up before its slot exists. */
  lemma InsertRun() returns (fs: seq<Fine>, es: seq<Step>)
    ensures IsRun(fs, es) && |es| == 3 && es[2] == Look(0, KEY, OLD) && Mistaken(fs[3], 0)
  {
    var f1 := Next(START, Outside(Begin(0)));
    var f2 := Next(f1, Outside(Insert(0, KEY, [1], OLD)));
    var f3 := Next(f2, Look(0, KEY, OLD));
    assert HeldBy(f2.store, 0, KEY, OLD) && IsRef(f3.store, OLD);
    fs := [START, f1, f2, f3];
    es := [Outside(Begin(0)), Outside(Insert(0, KEY, [1], OLD)), Look(0, KEY, OLD)];
  }

  /** Up to `n` steps of one attempt run back to back, until it has its verdict and has let go of its lock. */
  function Alone(f: Fine, c: nat, faults: Faults, n: nat): Fine
    decreases n
  {
    if n == 0 || c !in f.cleaners || HasVerdict(f, c) then f
    else Alone(Advanced(f, c, if f.cleaners[c].Decided? then CALM else faults), c, faults, n - 1)
  }

  /** These are steps the attempt can take. */
  lemma {:induction false} AloneLeads(f: Fine, c: nat, faults: Faults, n: nat) returns (es: seq<Step>)
    requires c in f.cleaners
    requires !f.cleaners[c].Decided? && faults.newLsn.Some? ==> Fresh(f.store, faults.newLsn.value)
    ensures Leads(f, es, Alone(f, c, faults, n)) && AreWithin(es, {})
    decreases n
  {
    if n == 0 || HasVerdict(f, c) {
      es := [];
    } else {
      var e := Advance(c, if f.cleaners[c].Decided? then CALM else faults);
      var more := AloneLeads(Next(f, e), c, faults, n - 1);
      es := [e] + more;
      LeadsBy(f, e, more, Alone(f, c, faults, n));
    }
  }

  /** The verdict of attempt `c`, with its lock given back and everything else as in `s`. */
  ghost predicate Concludes(f: Fine, c: nat, s: State, rest: map<nat, Pc>, task: Task, o: Outcome) {
    && HasVerdict(f, c) && f.store == s && f.cleaners - {c} == rest - {c}
    && f.cleaners[c].task == task && f.cleaners[c].outcome == o
  }

  lemma DecidedReleases(f: Fine, c: nat, faults: Faults, n: nat)
    requires c in f.cleaners && f.cleaners[c].Decided? && n >= 1
    ensures var pc := f.cleaners[c];
            var s := if pc.held then f.store.(owners := f.store.owners - {(pc.task.treeLsn, Cleaner(c))}) else f.store;
            Concludes(Alone(f, c, faults, n), c, s, f.cleaners, pc.task, pc.outcome)
  {
    if f.cleaners[c].held {
      var f1 := Advanced(f, c, CALM);
      assert Alone(f, c, faults, n) == Alone(f1, c, faults, n - 1) == f1;
    }
  }

  /** Publishing under the attempt's lock and dropping the lock is the last part of `Migrate`. */
  lemma PublishThenRelease(s: State, cat: Catalog, c: nat, t: Task, v: Bytes, faults: Faults)
    requires t.k.db in cat.registered && t.k in s.slots && s.slots[t.k].lsn == t.treeLsn
    requires CanRead(s, t.treeLsn) && !faults.recheck && Captured(s, t.k, faults.read) == Some(v)
    requires forall p :: p in s.owners || p in s.waiters ==> p.1 != Cleaner(c)
    ensures var held := s.(owners := s.owners[(t.treeLsn, Cleaner(c)) := Read]);
            var (s', o) := PublishStep(held, c, t, v, faults.newLsn);
            Migrate(s, cat, t.k, t.logLsn, t.treeLsn, faults) ==
            (s'.(owners := s'.owners - {(t.treeLsn, Cleaner(c))}), o)
  {
    var held := s.(owners := s.owners[(t.treeLsn, Cleaner(c)) := Read]);
    assert held.owners - {(t.treeLsn, Cleaner(c))} == s.owners;
    assert SoleOwner(held, t.treeLsn, Cleaner(c)) <==> Unshared(s, t.treeLsn);
  }

  /** The store `s` with the attempt's lock on top, and the slot where the lookup saw it. */
  ghost predicate HoldsOver(f: Fine, s: State, cat: Catalog, c: nat) {
    && c in f.cleaners && f.cleaners[c].task.k.db in cat.registered
    && f.store == s.(owners := s.owners[(f.cleaners[c].task.treeLsn, Cleaner(c)) := Read])
    && CanRead(s, f.cleaners[c].task.treeLsn)
    && forall p :: p in s.owners || p in s.waiters ==> p.1 != Cleaner(c)
  }

  /** After the recheck: capture, publish, release. */
  lemma CheckedRunsToEnd(f: Fine, s: State, cat: Catalog, c: nat, faults: Faults)
    requires HoldsOver(f, s, cat, c) && f.cleaners[c].Checked? && !faults.recheck
    requires f.cleaners[c].task.k in s.slots && s.slots[f.cleaners[c].task.k].lsn == f.cleaners[c].task.treeLsn
    ensures var t := f.cleaners[c].task;
            var (s', o) := Migrate(s, cat, t.k, t.logLsn, t.treeLsn, faults);
            Concludes(Alone(f, c, faults, 3), c, s', f.cleaners, t, o)
  {
    var t := f.cleaners[c].task;
    assert f.store.owners - {(t.treeLsn, Cleaner(c))} == s.owners;
    var f1 := Advanced(f, c, faults);
    assert f1.cleaners - {c} == f.cleaners - {c};
    if f1.cleaners[c].Decided? {
      DecidedReleases(f1, c, faults, 2);
    } else {
      var f2 := Advanced(f1, c, faults);
      assert f2.cleaners - {c} == f.cleaners - {c};
      PublishThenRelease(s, cat, c, t, f1.cleaners[c].data, faults);
      DecidedReleases(f2, c, faults, 1);
    }
  }

  /** From a held lock on: recheck, capture, publish, release. */
  lemma HeldRunsToEnd(f: Fine, s: State, cat: Catalog, c: nat, faults: Faults)
    requires HoldsOver(f, s, cat, c) && f.cleaners[c].Holding?
    ensures var t := f.cleaners[c].task;
            var (s', o) := Migrate(s, cat, t.k, t.logLsn, t.treeLsn, faults);
            Concludes(Alone(f, c, faults, 4), c, s', f.cleaners, t, o)
  {
    var t := f.cleaners[c].task;
    assert f.store.owners - {(t.treeLsn, Cleaner(c))} == s.owners;
    var f1 := Advanced(f, c, faults);
    assert f1.cleaners - {c} == f.cleaners - {c};
    if f1.cleaners[c].Decided? {
      DecidedReleases(f1, c, faults, 3);
    } else {
      CheckedRunsToEnd(f1, s, cat, c, faults);
    }
  }

  /** Uninterrupted, the fine steps are the single step `Migrate`: same verdict, same store, lock table included. */
  lemma UninterruptedIsAtomic(f: Fine, cat: Catalog, c: nat, k: Key, logLsn: Lsn, faults: Faults)
    requires CanStep(f, Look(c, k, logLsn)) && k in f.store.slots && k.db in cat.registered && !faults.lookup
    requires forall p :: p in f.store.owners || p in f.store.waiters ==> p.1 != Cleaner(c)
    ensures var (s', o) := Migrate(f.store, cat, k, logLsn, f.store.slots[k].lsn, faults);
            var f1 := Next(f, Look(c, k, logLsn));
            Concludes(Alone(f1, c, faults, 5), c, s', f.cleaners, f1.cleaners[c].task, o)
  {
    var f1 := Next(f, Look(c, k, logLsn));
    var f2 := Advanced(f1, c, faults);
    assert f2.cleaners - {c} == f.cleaners - {c};
    if f2.cleaners[c].Holding? {
      HeldRunsToEnd(f2, f.store, cat, c, faults);
    } else {
      DecidedReleases(f2, c, faults, 4);
    }
  }
}

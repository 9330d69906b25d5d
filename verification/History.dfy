/**
 The state of the whole system read off its past: what is pending, what a pass has left to do, which
 records are on disk and who has them locked, which files were deleted and which databases are known,
 each as a statement about the steps taken so far.
 */
module History {
  import opened Lsns
  import opened Migration
  import opened GcSafety
  import opened Latch
  import Store
  import I = Interleaving
  import P = Pipeline

  // ----- facts --------------------------------------------------------------------------------------------

  datatype Fact =
    | LnPends(l: Lsn)
    | DbPends(db: int)
    | Scanned(f: FileNum)
    | ToVisit(f: FileNum, l: Lsn)
    | FoundLocked(f: FileNum, l: Lsn)
    | MustStay(f: FileNum)
    | Recorded(f: FileNum)
    | Clamped(f: FileNum)
    | Doomed(f: FileNum)
    | Deleted(f: FileNum)
    | OnDisk(l: Lsn)
    | PointsAt(k: Key, l: Lsn)
    | Resident(k: Key)
    | Owns(l: Lsn, x: Store.Locker)
    | Waits(l: Lsn, x: Store.Locker)
    | Active(t: nat)
    | Trying(c: nat)
    | DbLive(db: int)
    | DbOpen(db: int)

  ghost predicate Holds(g: Gc, fact: Fact) {
    match fact
    case LnPends(l) => l in g.sel.pendingLns
    case DbPends(db) => db in g.sel.pendingDbs
    case Scanned(f) => f in g.passes
    case ToVisit(f, l) => f in g.passes && l in g.passes[f].todo
    case FoundLocked(f, l) => f in g.passes && l in g.passes[f].locked
    case MustStay(f) => f in g.passes && g.passes[f].retain
    case Recorded(f) => f in g.passes && g.passes[f].recorded
    case Clamped(f) => f in g.clamped
    case Doomed(f) => f in g.doomed
    case Deleted(f) => f in g.deleted
    case OnDisk(l) => l in g.fine.store.log
    case PointsAt(k, l) => k in g.fine.store.slots && g.fine.store.slots[k].lsn == l
    case Resident(k) => k in g.fine.store.slots && g.fine.store.slots[k].data.Some?
    case Owns(l, x) => (l, x) in g.fine.store.owners
    case Waits(l, x) => (l, x) in g.fine.store.waiters
    case Active(t) => t in g.fine.store.active
    case Trying(c) => c in g.fine.cleaners
    case DbLive(db) => db in g.cat.live
    case DbOpen(db) => db in g.cat.registered
  }

  /** The step ends the pass over `f`. */
  predicate EndsPass(e: Step, f: FileNum) {
    (e.Finish? || e.Drop? || e.PutBack?) && e.f == f
  }

  /** It settles what becomes of one LN of the pass over `f`. */
  predicate Visits(g: Gc, e: Step, f: FileNum, l: Lsn) {
    match e
    case SkipObsolete(h, m) => h == f && m == l
    case Undecided(h, m, _) => h == f && m == l
    case Judge(h, c) => h == f && c in g.fine.cleaners && g.fine.cleaners[c].task.logLsn == l
    case _ => false
  }

  /** The attempt `c` has the verdict that the record is locked. */
  predicate SaysLocked(g: Gc, c: nat) {
    c in g.fine.cleaners && g.fine.cleaners[c].Decided? && g.fine.cleaners[c].outcome.Locked?
  }

  /** The step moves the record of attempt `c` to `l`: the slot is still there and nobody else is at the lock. */
  predicate Moves(g: Gc, e: Step, l: Lsn) {
    && e.Advance? && e.faults.newLsn == Some(l) && e.c in g.fine.cleaners && g.fine.cleaners[e.c].Carrying?
    && var s, t := g.fine.store, g.fine.cleaners[e.c].task;
       && t.treeLsn == t.logLsn && t.k in s.slots && s.slots[t.k].lsn == t.logLsn
       && Store.SoleOwner(s, t.logLsn, Store.Cleaner(e.c))
  }

  predicate Writes(e: Step, l: Lsn) {
    e.Outside? && (e.op.Insert? || e.op.Log?) && e.op.l == l
  }

  /** The LSN the slot of `k` gets from a publication or a rollback; none when a rollback takes the slot away. */
  function Redirected(g: Gc, op: Store.Op, k: Key): Option<Lsn> {
    var changes := g.fine.store.changes;
    match op
    case Publish(t, j, _) => if j == k && (t, k) in changes then Some(changes[(t, k)].newest) else None
    case Undo(t, j, _) => if j == k && (t, k) in changes then changes[(t, k)].before else None
    case _ => None
  }

  predicate Redirects(op: Store.Op, k: Key) {
    (op.Publish? || op.Undo?) && op.k == k
  }

  /** A publication, a rollback or a load leaves a resident copy of what the slot points at. */
  predicate LoadsCopy(g: Gc, op: Store.Op, k: Key) {
    var s := g.fine.store;
    if op.Load? then op.k == k && k in s.slots && s.slots[k].lsn in s.log
    else Redirects(op, k) && op.resident && Redirected(g, op, k).Some? && Redirected(g, op, k).value in s.log
  }

  /** A writer locks what it logs and the LSN it found in the slot. */
  predicate TakesWrite(g: Gc, e: Step, l: Lsn, t: nat) {
    && e.Outside? && (e.op.Insert? || e.op.Log?) && e.op.t == t
    && (e.op.l == l || (e.op.Log? && e.op.k in g.fine.store.slots && g.fine.store.slots[e.op.k].lsn == l))
  }

  ghost predicate TakesLock(g: Gc, e: Step, l: Lsn, x: Store.Locker) {
    match x
    case Txn(t) => TakesWrite(g, e, l, t)
    case Reader(r) => e == Outside(Store.LockRead(r, l))
    case Cleaner(c) =>
      && e.Advance? && e.c == c && !e.faults.lookup && c in g.fine.cleaners && g.fine.cleaners[c].Looked?
      && g.fine.cleaners[c].task.treeLsn == l && Store.CanRead(g.fine.store, l)
  }

  predicate DropsLock(g: Gc, e: Step, l: Lsn, x: Store.Locker) {
    match x
    case Txn(t) => e == Outside(Store.End(t))
    case Reader(r) => e == Outside(Store.UnlockRead(r, l))
    case Cleaner(c) =>
      && e.Advance? && e.c == c && c in g.fine.cleaners && g.fine.cleaners[c].task.treeLsn == l
      && g.fine.cleaners[c].Decided? && g.fine.cleaners[c].held
  }

  ghost predicate Makes(g: Gc, e: Step, fact: Fact) {
    match fact
    case LnPends(l) => e.Record? && e.f in g.passes && l in g.passes[e.f].locked
    case DbPends(db) => e == PendDb(db)
    case Scanned(f) => e == BeginPass(f)
    case ToVisit(f, l) => e == BeginPass(f) && l in g.fine.store.log && l.file == f
    case FoundLocked(f, l) =>
      Visits(g, e, f, l) && ((e.Undecided? && !e.retain) || (e.Judge? && SaysLocked(g, e.c)))
    case MustStay(f) => e == RetainFile(f) || (e.Undecided? && e.f == f && e.retain)
    case Recorded(f) => e == Record(f)
    case Clamped(f) => e.Select? && e.f == f
    case Doomed(f) => e == TakeSafe(f)
    case Deleted(f) => e == Unlink(f)
    case OnDisk(l) => Writes(e, l) || Moves(g, e, l)
    case PointsAt(k, l) =>
      (e.Outside? && Redirected(g, e.op, k) == Some(l)) || (Moves(g, e, l) && g.fine.cleaners[e.c].task.k == k)
    case Resident(k) => e.Outside? && LoadsCopy(g, e.op, k)
    case Owns(l, x) => TakesLock(g, e, l, x)
    case Waits(l, x) => e == Outside(Store.Wait(l, x))
    case Active(t) => e == Outside(Store.Begin(t))
    case Trying(c) => e.Look? && e.c == c
    case DbLive(db) => e == CreateDb(db)
    case DbOpen(db) => e == OpenDb(db)
  }

  predicate Unmakes(g: Gc, e: Step, fact: Fact) {
    match fact
    case LnPends(l) =>
      e.Retry? && !SaysLocked(g, e.c) && e.c in g.fine.cleaners && g.fine.cleaners[e.c].task.logLsn == l
    case DbPends(db) => e == UnpendDb(db)
    case Scanned(f) => EndsPass(e, f)
    case ToVisit(f, l) => EndsPass(e, f) || Visits(g, e, f, l)
    case FoundLocked(f, l) => EndsPass(e, f)
    case MustStay(f) => EndsPass(e, f)
    case Recorded(f) => EndsPass(e, f)
    case Clamped(f) => false
    case Doomed(f) => e == Unlink(f) || e == GiveBack(f, false)
    case Deleted(f) => false
    case OnDisk(l) => e == Unlink(l.file)
    case PointsAt(k, l) =>
      || (e.Outside? && Redirects(e.op, k)) || e == RemoveDb(k.db)
      || (e.Advance? && e.faults.newLsn.Some? && Moves(g, e, e.faults.newLsn.value) && g.fine.cleaners[e.c].task.k == k)
    case Resident(k) =>
      || (e.Outside? && (Redirects(e.op, k) || e.op == Store.Strip(k) || e.op == Store.Load(k)))
      || e == RemoveDb(k.db)
    case Owns(l, x) => DropsLock(g, e, l, x)
    case Waits(l, x) => e == Outside(Store.StopWaiting(l, x))
    case Active(t) => e == Outside(Store.End(t))
    case Trying(c) =>
      && (e.Judge? || e.Retry? || e.Advance?) && e.c == c
      && (e.Advance? ==> c in g.fine.cleaners && g.fine.cleaners[c].Decided? && !g.fine.cleaners[c].held)
    case DbLive(db) => e == RemoveDb(db)
    case DbOpen(db) => e == CloseDb(db) || e == RemoveDb(db)
  }

  /** The fact holds after a step exactly when the step made it, or it held and the step did not unmake it. */
  ghost predicate Follows(g: Gc, e: Step, fact: Fact)
    requires CanStep(g, e)
  {
    Holds(Next(g, e), fact) <==> Makes(g, e, fact) || (Holds(g, fact) && !Unmakes(g, e, fact))
  }

  // ----- what a step does not touch stays ------------------------------------------------------------

  predicate TouchesPending(e: Step) {
    e.Record? || e.Retry? || e.PendDb? || e.UnpendDb?
  }

  predicate TouchesPasses(e: Step) {
    || e.BeginPass? || e.SkipObsolete? || e.Undecided? || e.Judge? || e.RetainFile? || e.Record?
    || e.Finish? || e.Drop? || e.PutBack?
  }

  predicate TouchesFiles(e: Step) {
    e.Select? || e.TakeSafe? || e.Unlink? || e.GiveBack?
  }

  predicate TouchesCatalog(e: Step) {
    e.CreateDb? || e.OpenDb? || e.CloseDb? || e.RemoveDb?
  }

  predicate TouchesStore(e: Step) {
    e.Outside? || e.Advance? || e.Unlink?
  }

  predicate TouchesSlots(e: Step) {
    e.Outside? || e.Advance? || e.RemoveDb?
  }

  predicate TouchesAttempts(e: Step) {
    e.Look? || e.Advance? || e.Judge? || e.Retry?
  }

  lemma PendingStays(g: Gc, e: Step)
    requires CanStep(g, e) && !TouchesPending(e)
    ensures Next(g, e).sel.pendingLns == g.sel.pendingLns && Next(g, e).sel.pendingDbs == g.sel.pendingDbs
  {
  }

  lemma PassesStay(g: Gc, e: Step)
    requires CanStep(g, e) && !TouchesPasses(e)
    ensures Next(g, e).passes == g.passes
  {
  }

  lemma FilesStay(g: Gc, e: Step)
    requires CanStep(g, e)
    ensures !TouchesFiles(e) ==>
              Next(g, e).clamped == g.clamped && Next(g, e).doomed == g.doomed && Next(g, e).deleted == g.deleted
    ensures !TouchesCatalog(e) ==> Next(g, e).cat == g.cat
  {
  }

  lemma StoreStays(g: Gc, e: Step)
    requires CanStep(g, e) && !TouchesStore(e)
    ensures var s, s' := g.fine.store, Next(g, e).fine.store;
            s'.log == s.log && s'.owners == s.owners && s'.waiters == s.waiters && s'.active == s.active
  {
  }

  lemma SlotsStay(g: Gc, e: Step)
    requires CanStep(g, e) && !TouchesSlots(e)
    ensures Next(g, e).fine.store.slots == g.fine.store.slots
  {
  }

  lemma AttemptsStay(g: Gc, e: Step)
    requires CanStep(g, e) && !TouchesAttempts(e)
    ensures Next(g, e).fine.cleaners == g.fine.cleaners
  {
  }

  // ----- fact by fact -----------------------------------------------------------------------------------

  lemma PendingFollows(g: Gc, e: Step, fact: Fact)
    requires CanStep(g, e) && TouchesPending(e) && (fact.LnPends? || fact.DbPends?)
    ensures Follows(g, e, fact)
  {
  }

  predicate IsAboutPass(fact: Fact) {
    fact.Scanned? || fact.ToVisit? || fact.FoundLocked? || fact.MustStay? || fact.Recorded?
  }

  lemma VisitFollows(g: Gc, e: Step, fact: Fact)
    requires CanStep(g, e) && (e.SkipObsolete? || e.Undecided? || e.Judge?) && IsAboutPass(fact)
    ensures Follows(g, e, fact)
  {
  }

  lemma MarkFollows(g: Gc, e: Step, fact: Fact)
    requires CanStep(g, e) && (e.BeginPass? || e.RetainFile? || e.Record?) && IsAboutPass(fact)
    ensures Follows(g, e, fact)
  {
  }

  lemma EndFollows(g: Gc, e: Step, fact: Fact)
    requires CanStep(g, e) && (e.Finish? || e.Drop? || e.PutBack?) && IsAboutPass(fact)
    ensures Follows(g, e, fact)
  {
  }

  lemma PassFollows(g: Gc, e: Step, fact: Fact)
    requires CanStep(g, e) && TouchesPasses(e) && IsAboutPass(fact)
    ensures Follows(g, e, fact)
  {
    if e.SkipObsolete? || e.Undecided? || e.Judge? {
      VisitFollows(g, e, fact);
    } else if e.Finish? || e.Drop? || e.PutBack? {
      EndFollows(g, e, fact);
    } else {
      MarkFollows(g, e, fact);
    }
  }

  lemma FileFollows(g: Gc, e: Step, fact: Fact)
    requires CanStep(g, e) && TouchesFiles(e) && (fact.Clamped? || fact.Doomed? || fact.Deleted?)
    ensures Follows(g, e, fact)
  {
  }

  lemma CatalogFollows(g: Gc, e: Step, fact: Fact)
    requires CanStep(g, e) && TouchesCatalog(e) && (fact.DbLive? || fact.DbOpen?)
    ensures Follows(g, e, fact)
  {
  }

  predicate IsAboutStore(fact: Fact) {
    fact.OnDisk? || fact.Owns? || fact.Waits? || fact.Active?
  }

  lemma WritesFollow(g: Gc, op: Store.Op, l: Lsn)
    requires CanStep(g, Outside(op))
    ensures Follows(g, Outside(op), OnDisk(l))
  {
  }

  lemma LocksFollow(g: Gc, op: Store.Op, l: Lsn, x: Store.Locker)
    requires CanStep(g, Outside(op))
    ensures Follows(g, Outside(op), Owns(l, x))
  {
  }

  lemma OthersFollow(g: Gc, op: Store.Op, fact: Fact)
    requires CanStep(g, Outside(op)) && (fact.Waits? || fact.Active?)
    ensures Follows(g, Outside(op), fact)
  {
  }

  predicate IsAboutSlots(fact: Fact) {
    fact.PointsAt? || fact.Resident?
  }

  lemma PointersFollow(g: Gc, op: Store.Op, k: Key, l: Lsn)
    requires CanStep(g, Outside(op))
    ensures Follows(g, Outside(op), PointsAt(k, l))
  {
  }

  lemma CopiesFollow(g: Gc, op: Store.Op, k: Key)
    requires CanStep(g, Outside(op))
    ensures Follows(g, Outside(op), Resident(k))
  {
  }

  lemma MovesFollow(g: Gc, c: nat, faults: Faults, fact: Fact)
    requires CanStep(g, Advance(c, faults)) && IsAboutSlots(fact)
    ensures Follows(g, Advance(c, faults), fact)
  {
  }

  lemma RemoveDbFollows(g: Gc, db: int, fact: Fact)
    requires CanStep(g, RemoveDb(db)) && IsAboutSlots(fact)
    ensures Follows(g, RemoveDb(db), fact)
  {
  }

  lemma SlotsFollow(g: Gc, e: Step, fact: Fact)
    requires CanStep(g, e) && TouchesSlots(e) && IsAboutSlots(fact)
    ensures Follows(g, e, fact)
  {
    if e.Advance? {
      MovesFollow(g, e.c, e.faults, fact);
    } else if e.RemoveDb? {
      RemoveDbFollows(g, e.db, fact);
    } else if fact.PointsAt? {
      PointersFollow(g, e.op, fact.k, fact.l);
    } else {
      CopiesFollow(g, e.op, fact.k);
    }
  }

  lemma AdvanceFollows(g: Gc, c: nat, faults: Faults, fact: Fact)
    requires CanStep(g, Advance(c, faults)) && IsAboutStore(fact)
    ensures Follows(g, Advance(c, faults), fact)
  {
  }

  lemma UnlinkFollows(g: Gc, f: FileNum, fact: Fact)
    requires CanStep(g, Unlink(f)) && IsAboutStore(fact)
    ensures Follows(g, Unlink(f), fact)
  {
  }

  lemma StoreFollows(g: Gc, e: Step, fact: Fact)
    requires CanStep(g, e) && TouchesStore(e) && IsAboutStore(fact)
    ensures Follows(g, e, fact)
  {
    match e
    case Outside(op) =>
      if fact.OnDisk? {
        WritesFollow(g, op, fact.l);
      } else if fact.Owns? {
        LocksFollow(g, op, fact.l, fact.x);
      } else {
        OthersFollow(g, op, fact);
      }
    case Advance(c, faults) => AdvanceFollows(g, c, faults, fact);
    case Unlink(f) => UnlinkFollows(g, f, fact);
  }

  lemma TryingFollows(g: Gc, e: Step, c: nat)
    requires CanStep(g, e) && TouchesAttempts(e)
    ensures Follows(g, e, Trying(c))
  {
  }

  /** A step that does not touch what a fact is about neither makes nor unmakes it. */
  predicate Touches(e: Step, fact: Fact) {
    match fact
    case LnPends(_) => TouchesPending(e)
    case DbPends(_) => TouchesPending(e)
    case Clamped(_) => TouchesFiles(e)
    case Doomed(_) => TouchesFiles(e)
    case Deleted(_) => TouchesFiles(e)
    case PointsAt(_, _) => TouchesSlots(e)
    case Resident(_) => TouchesSlots(e)
    case Trying(_) => TouchesAttempts(e)
    case DbLive(_) => TouchesCatalog(e)
    case DbOpen(_) => TouchesCatalog(e)
    case _ => if IsAboutPass(fact) then TouchesPasses(e) else TouchesStore(e)
  }

  lemma UntouchedStays(g: Gc, e: Step, fact: Fact)
    requires !Touches(e, fact)
    ensures !Makes(g, e, fact) && !Unmakes(g, e, fact)
  {
  }

  lemma UntouchedInStore(g: Gc, e: Step, fact: Fact)
    requires CanStep(g, e) && !Touches(e, fact) && (IsAboutStore(fact) || IsAboutSlots(fact) || fact.Trying?)
    ensures Holds(Next(g, e), fact) <==> Holds(g, fact)
  {
    if fact.Trying? {
      AttemptsStay(g, e);
    } else if IsAboutSlots(fact) {
      SlotsStay(g, e);
    } else {
      StoreStays(g, e);
    }
  }

  lemma UntouchedHolds(g: Gc, e: Step, fact: Fact)
    requires CanStep(g, e) && !Touches(e, fact)
    ensures Holds(Next(g, e), fact) <==> Holds(g, fact)
  {
    if fact.LnPends? || fact.DbPends? {
      PendingStays(g, e);
    } else if IsAboutPass(fact) {
      PassesStay(g, e);
    } else if IsAboutStore(fact) || IsAboutSlots(fact) || fact.Trying? {
      UntouchedInStore(g, e, fact);
    } else {
      FilesStay(g, e);
    }
  }

  lemma TouchedFollows(g: Gc, e: Step, fact: Fact)
    requires CanStep(g, e) && Touches(e, fact)
    ensures Follows(g, e, fact)
  {
    if fact.LnPends? || fact.DbPends? {
      PendingFollows(g, e, fact);
    } else if fact.Trying? {
      TryingFollows(g, e, fact.c);
    } else if IsAboutPass(fact) {
      PassFollows(g, e, fact);
    } else if IsAboutSlots(fact) {
      SlotsFollow(g, e, fact);
    } else if IsAboutStore(fact) {
      StoreFollows(g, e, fact);
    } else if fact.DbLive? || fact.DbOpen? {
      CatalogFollows(g, e, fact);
    } else {
      FileFollows(g, e, fact);
    }
  }

  lemma FactFollows(g: Gc, e: Step, fact: Fact)
    requires CanStep(g, e)
    ensures Follows(g, e, fact)
  {
    if Touches(e, fact) {
      TouchedFollows(g, e, fact);
    } else {
      UntouchedStays(g, e, fact);
      UntouchedHolds(g, e, fact);
    }
  }

  // ----- whole runs ----------------------------------------------------------------------------------------

  ghost function HeldAt(gs: seq<Gc>, fact: Fact): nat -> bool {
    (i: nat) => i < |gs| && Holds(gs[i], fact)
  }

  ghost function MadeAt(gs: seq<Gc>, es: seq<Step>, fact: Fact): nat -> bool {
    (i: nat) => i < |es| && i < |gs| && Makes(gs[i], es[i], fact)
  }

  ghost function UnmadeAt(gs: seq<Gc>, es: seq<Step>, fact: Fact): nat -> bool {
    (i: nat) => i < |es| && i < |gs| && Unmakes(gs[i], es[i], fact)
  }

  lemma StepFollows(gs: seq<Gc>, es: seq<Step>, fact: Fact, i: nat, j: nat)
    requires IsRun(gs, es) && i < |es| && j == i + 1
    ensures Switched(HeldAt(gs, fact), MadeAt(gs, es, fact), UnmadeAt(gs, es, fact), i, j)
  {
    FactFollows(gs[i], es[i], fact);
  }

  lemma StartsOff(gs: seq<Gc>, es: seq<Step>, fact: Fact)
    requires IsRun(gs, es)
    ensures Latches(HeldAt(gs, fact), MadeAt(gs, es, fact), UnmadeAt(gs, es, fact), 0)
  {
    assert gs[0] == START && !Holds(START, fact);
  }

  lemma {:induction false} RunFollows(gs: seq<Gc>, es: seq<Step>, fact: Fact, n: nat)
    requires IsRun(gs, es) && n <= |es|
    ensures Latches(HeldAt(gs, fact), MadeAt(gs, es, fact), UnmadeAt(gs, es, fact), n)
  {
    if n == 0 {
      StartsOff(gs, es, fact);
    } else {
      RunFollows(gs, es, fact, n - 1);
      StepFollows(gs, es, fact, n - 1, n);
      LatchesOnce(HeldAt(gs, fact), MadeAt(gs, es, fact), UnmadeAt(gs, es, fact), n - 1, n);
    }
  }

  /** In every state of every run, each fact holds exactly when some step made it so and none since unmade it. */
  lemma HistoryDecides(gs: seq<Gc>, es: seq<Step>, fact: Fact, n: nat)
    requires IsRun(gs, es) && n <= |es|
    ensures Holds(gs[n], fact) <==> Since(MadeAt(gs, es, fact), UnmadeAt(gs, es, fact), n)
  {
    RunFollows(gs, es, fact, n);
    LatchIff(HeldAt(gs, fact), MadeAt(gs, es, fact), UnmadeAt(gs, es, fact), n);
    assert HeldAt(gs, fact)(n) == Holds(gs[n], fact);
  }

  // ----- a pass ----------------------------------------------------------------------------------------------

  /** The pass over `f` began at step `i` and is not over. */
  ghost predicate PassSince(es: seq<Step>, f: FileNum, i: nat, n: nat) {
    i < n <= |es| && es[i] == BeginPass(f) && forall j :: i < j < n ==> !EndsPass(es[j], f)
  }

  /** It settled what becomes of the LN. */
  ghost predicate Settles(gs: seq<Gc>, es: seq<Step>, f: FileNum, l: Lsn, i: nat, n: nat) {
    exists j :: i < j < n <= |es| < |gs| && Visits(gs[j], es[j], f, l)
  }

  /** It met something the file must stay for. */
  ghost predicate Keeps(gs: seq<Gc>, es: seq<Step>, f: FileNum, i: nat, n: nat) {
    exists j :: i < j < n <= |es| < |gs| && Makes(gs[j], es[j], MustStay(f))
  }

  ghost predicate Records(es: seq<Step>, f: FileNum, i: nat, n: nat) {
    exists j :: i < j < n <= |es| && es[j] == Record(f)
  }

  lemma KeepsIsRemembered(gs: seq<Gc>, es: seq<Step>, f: FileNum, i: nat, n: nat)
    requires IsRun(gs, es) && PassSince(es, f, i, n) && Keeps(gs, es, f, i, n)
    ensures Holds(gs[n], MustStay(f))
  {
    var j: nat :| i < j < n && Makes(gs[j], es[j], MustStay(f));
    HistoryDecides(gs, es, MustStay(f), n);
    assert MadeAt(gs, es, MustStay(f))(j) && StaysOn(UnmadeAt(gs, es, MustStay(f)), j, n);
  }

  lemma UnsettledIsRemembered(gs: seq<Gc>, es: seq<Step>, f: FileNum, l: Lsn, i: nat, n: nat)
    requires IsRun(gs, es) && PassSince(es, f, i, n) && l in gs[i].fine.store.log && l.file == f
    requires !Settles(gs, es, f, l, i, n)
    ensures Holds(gs[n], ToVisit(f, l))
  {
    HistoryDecides(gs, es, ToVisit(f, l), n);
    assert MadeAt(gs, es, ToVisit(f, l))(i) && StaysOn(UnmadeAt(gs, es, ToVisit(f, l)), i, n);
  }

  lemma NotRecordedYet(gs: seq<Gc>, es: seq<Step>, f: FileNum, i: nat)
    requires IsRun(gs, es) && i < |es| && es[i] == BeginPass(f)
    ensures !Since(MadeAt(gs, es, Recorded(f)), UnmadeAt(gs, es, Recorded(f)), i)
  {
    assert CanStep(gs[i], es[i]);
    HistoryDecides(gs, es, Recorded(f), i);
  }

  lemma RecordedIsRecorded(gs: seq<Gc>, es: seq<Step>, f: FileNum, i: nat, n: nat)
    requires IsRun(gs, es) && PassSince(es, f, i, n) && Holds(gs[n], Recorded(f))
    ensures Records(es, f, i, n)
  {
    HistoryDecides(gs, es, Recorded(f), n);
    NotRecordedYet(gs, es, f, i);
    var j := OnAfter(MadeAt(gs, es, Recorded(f)), UnmadeAt(gs, es, Recorded(f)), i, n);
    assert es[j] == Record(f);
  }

  lemma ScannedIsBegun(gs: seq<Gc>, es: seq<Step>, f: FileNum, n: nat) returns (i: nat)
    requires IsRun(gs, es) && n <= |es| && f in gs[n].passes
    ensures PassSince(es, f, i, n)
  {
    var on, off := MadeAt(gs, es, Scanned(f)), UnmadeAt(gs, es, Scanned(f));
    HistoryDecides(gs, es, Scanned(f), n);
    i :| i < n && on(i) && StaysOn(off, i, n);
    forall j | i < j < n
      ensures !EndsPass(es[j], f)
    {
      assert !off(j);
    }
  }

  /**
   A file enters the barrier only after a pass that settled every record the file had when it began, met nothing
   the file must stay for, and recorded what it found locked.
   */
  lemma FinishedIsSettled(gs: seq<Gc>, es: seq<Step>, n: nat, f: FileNum) returns (i: nat)
    requires IsRun(gs, es) && n < |es| && es[n] == Finish(f)
    ensures PassSince(es, f, i, n) && Records(es, f, i, n) && !Keeps(gs, es, f, i, n)
    ensures forall l :: l in gs[i].fine.store.log && l.file == f ==> Settles(gs, es, f, l, i, n)
  {
    i := ScannedIsBegun(gs, es, f, n);
    RecordedIsRecorded(gs, es, f, i, n);
    if Keeps(gs, es, f, i, n) {
      KeepsIsRemembered(gs, es, f, i, n);
    }
    forall l | l in gs[i].fine.store.log && l.file == f
      ensures Settles(gs, es, f, l, i, n)
    {
      if !Settles(gs, es, f, l, i, n) {
        UnsettledIsRemembered(gs, es, f, l, i, n);
      }
    }
  }

  // ----- retries --------------------------------------------------------------------------------------

  /**
   A retry leaves its LN pending exactly when the record was locked, and every other LN as it was.  When nothing
   pends any more, every checkpointed file is safe; as long as something does, no file changes its stage.
   */
  lemma RetryResolves(g: Gc, c: nat)
    requires CanStep(g, Retry(c))
    ensures var l, o, g' := g.fine.cleaners[c].task.logLsn, g.fine.cleaners[c].outcome, Next(g, Retry(c));
            && (l in g'.sel.pendingLns <==> o.Locked?)
            && g'.sel.pendingLns.Keys == (if o.Locked? then g.sel.pendingLns.Keys else g.sel.pendingLns.Keys - {l})
            && (forall m :: m in g'.sel.pendingLns ==> g'.sel.pendingLns[m] == g.sel.pendingLns[m])
            && (P.NothingPending(g'.sel) ==>
                  g'.sel.checkpointed == {} && g'.sel.safe == g.sel.safe + g.sel.checkpointed)
            && (!P.NothingPending(g'.sel) ==> g'.sel == g.sel.(pendingLns := g'.sel.pendingLns))
            && g' == g.(sel := g'.sel, fine := g.fine.(cleaners := g.fine.cleaners - {c}))
  {
  }

  // ----- the selector -----------------------------------------------------------------------------------

  /** The call of the selector a step makes, if it is one. */
  function CallOf(e: Step): Option<P.Op> {
    match e
    case Enqueue(f, util) => Some(P.Enqueue(f, util))
    case Dequeue => Some(P.Dequeue)
    case Select(f, util) => Some(P.Select(f, util))
    case Finish(f) => Some(P.Finish(f))
    case Drop(f) => Some(P.Drop(f))
    case PutBack(f) => Some(P.Retry(f))
    case PendDb(db) => Some(P.AddDb(db))
    case UnpendDb(db) => Some(P.RemoveDb(db))
    case StartCheckpoint => Some(P.Start)
    case EndCheckpoint => Some(P.End)
    case TakeSafe(f) => Some(P.Delete(f))
    case _ => None
  }

  /** Those steps move the selector as the pipeline by itself does. */
  lemma StepIsCall(g: Gc, e: Step)
    requires CanStep(g, e) && CallOf(e).Some? && P.Enabled(P.Machine(g.sel, g.snapshot), CallOf(e).value)
    ensures P.Machine(Next(g, e).sel, Next(g, e).snapshot) == P.Apply(P.Machine(g.sel, g.snapshot), CallOf(e).value)
  {
  }

  /** Recording a pass, retrying an LN and handing a file back change the selector too; no other step does. */
  lemma OthersLeaveSelector(g: Gc, e: Step)
    requires CanStep(g, e) && CallOf(e).None? && !e.Record? && !e.Retry? && !e.GiveBack?
    ensures Next(g, e).sel == g.sel && Next(g, e).snapshot == g.snapshot
  {
  }

  /**
   A safe file that is taken out and handed back is safe as before, and all that is lost is its record; it is still
   on its way out exactly when the caller keeps it on the list.
   */
  lemma HandedBackIsSafeAgain(g: Gc, f: FileNum, keep: bool)
    requires CanStep(g, TakeSafe(f))
    ensures var taken := Next(g, TakeSafe(f));
            && f !in taken.sel.safe && f in taken.doomed && CanStep(taken, GiveBack(f, keep))
            && var back := Next(taken, GiveBack(f, keep));
               back == g.(sel := g.sel.(info := g.sel.info - {f}),
                          doomed := if keep then g.doomed + {f} else g.doomed - {f})
  {
    var taken := Next(g, TakeSafe(f));
    assert taken.sel.safe + {f} == g.sel.safe;
    assert taken.doomed - {f} == g.doomed - {f};
  }
}

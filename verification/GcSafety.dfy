/**
 The whole collector beside a running database: transactions, migration attempts one step at a
 time, file passes, pending retries, checkpoints and file deletion in any order.
 */
module GcSafety {
  import opened Lsns
  import opened Migration
  import Store
  import I = Interleaving
  import Pipeline
  import L = Selection
  import U = Utilization

  /** One file being scanned: LNs still to visit, LNs found locked, and whether the file must be kept. */
  datatype Pass = Pass(todo: map<Lsn, LnInfo>, locked: map<Lsn, LnInfo>, retain: bool, recorded: bool)

  /**
   `fine` is the store with the attempts in progress.  `clamped` are the files chosen from the
   profile, `doomed` ones left the selector for deletion, `deleted` ones are off the disk.
   */
  datatype Gc = Gc(
    fine: I.Fine,
    sel: Pipeline.State,
    snapshot: Option<set<FileNum>>,
    passes: map<FileNum, Pass>,
    clamped: set<FileNum>,
    cat: Catalog,
    doomed: set<FileNum>,
    deleted: set<FileNum>)

  const START := Gc(I.START, Pipeline.EMPTY, None, map[], {}, Catalog({}, {}), {}, {})

  datatype Step =
    | Outside(op: Store.Op)
    | CreateDb(db: int)
    | OpenDb(db: int)
    | CloseDb(db: int)
    | RemoveDb(db: int)
    | Enqueue(f: FileNum, util: Option<int>)
    | Dequeue
    | Select(f: FileNum, util: Option<int>)
    | BeginPass(f: FileNum)
    | SkipObsolete(f: FileNum, l: Lsn)
    | Undecided(f: FileNum, l: Lsn, retain: bool)
    | Look(c: nat, k: Key, l: Lsn)
    | Advance(c: nat, faults: Faults)
    | Judge(f: FileNum, c: nat)
    | Retry(c: nat)
    | RetainFile(f: FileNum)
    | Record(f: FileNum)
    | Finish(f: FileNum)
    | Drop(f: FileNum)
    | PutBack(f: FileNum)
    | PendDb(db: int)
    | UnpendDb(db: int)
    | StartCheckpoint
    | EndCheckpoint
    | TakeSafe(f: FileNum)
    | Unlink(f: FileNum)
    | GiveBack(f: FileNum, keep: bool)

  predicate Scanning(g: Gc, f: FileNum) {
    f in g.passes && !g.passes[f].recorded
  }

  /** Attempts are about LNs a pass has still to visit, or that wait for a retry. */
  predicate IsWanted(g: Gc, k: Key, l: Lsn) {
    || (Scanning(g, l.file) && l in g.passes[l.file].todo && g.passes[l.file].todo[l].key == k)
    || (l in g.sel.pendingLns && g.sel.pendingLns[l].key == k)
  }

  ghost predicate CanStep(g: Gc, e: Step) {
    match e
    case Outside(op) => Store.Enabled(g.fine.store, op) && (op.Insert? ==> op.k.db in g.cat.live)
    case OpenDb(db) => db in g.cat.live
    case RemoveDb(db) =>
      && (forall p :: p in g.fine.store.changes ==> p.1.db != db)
      && (forall c :: c in g.fine.cleaners ==> g.fine.cleaners[c].task.k.db != db)
    case Select(f, _) => f !in g.sel.info && Store.Past(g.fine.store, f)
    case BeginPass(f) => f in g.sel.being && f !in g.passes && f < g.fine.store.last.file
    case SkipObsolete(f, l) => Scanning(g, f) && l in g.passes[f].todo && !Store.IsRef(g.fine.store, l)
    case Undecided(f, l, _) => Scanning(g, f) && l in g.passes[f].todo
    case Look(c, k, l) =>
      I.CanStep(g.fine, I.Look(c, k, l)) && IsWanted(g, k, l) && !ResolveVerdict(g.cat, k.db).LiveNoTree?
    case Advance(c, faults) => I.CanStep(g.fine, I.Advance(c, faults))
    case Judge(f, c) =>
      Scanning(g, f) && I.HasVerdict(g.fine, c) && g.fine.cleaners[c].task.logLsn in g.passes[f].todo
    case Retry(c) => I.HasVerdict(g.fine, c) && g.fine.cleaners[c].task.logLsn in g.sel.pendingLns
    case RetainFile(f) => Scanning(g, f)
    case Record(f) => Scanning(g, f)
    case Finish(f) =>
      f in g.passes && g.passes[f].recorded && g.passes[f].todo == map[] && !g.passes[f].retain
    case Drop(f) => f in g.passes && g.passes[f].recorded && g.passes[f].retain
    case PutBack(f) => f in g.passes
    case EndCheckpoint => g.snapshot.Some?
    case TakeSafe(f) => f in g.sel.safe
    case Unlink(f) => f in g.doomed
    case GiveBack(f, _) => f in g.doomed
    case _ => true
  }

  /**
   What the program does not check.  A lookup that finds no slot must not be about an open insert;
   in a file chosen from the profile it cannot be.  A verdict `Obsolete` must come from a passed
   recheck or a safe lookup.
   */
  ghost predicate Heeds(g: Gc, e: Step)
    requires CanStep(g, e)
  {
    match e
    case Look(c, k, l) => l.file in g.clamped || !OpenInsert(g.fine.store, k, l)
    case Judge(f, c) => VerdictHolds(g.fine.cleaners[c])
    case Retry(c) => VerdictHolds(g.fine.cleaners[c])
    case _ => true
  }

  predicate VerdictHolds(pc: I.Pc)
    requires pc.Decided?
  {
    pc.outcome.Obsolete? ==> pc.task.treeLsn == NULL_LSN || I.Settled(pc)
  }

  /** The LNs of a file, as a scan decodes them. */
  function LnsOf(log: map<Lsn, Store.Record>, f: FileNum): map<Lsn, LnInfo> {
    map l | l in log && l.file == f :: LnInfo(l, log[l].key, 0, false, 0)
  }

  function Visited(p: Pass, l: Lsn, fate: Fate): Pass
    requires l in p.todo
  {
    var q := p.(todo := p.todo - {l});
    match fate
    case Dead => q
    case Kept => q
    case Pending => q.(locked := p.locked[l := p.todo[l]])
    case Retained => q.(retain := true)
  }

  function FateOfVerdict(o: Outcome): Fate {
    match o
    case Migrated => Kept
    case Obsolete => Dead
    case Locked => Pending
  }

  /** `add_pending_ln` for each locked LN of a pass. */
  function AddPending(s: Pipeline.State, lns: map<Lsn, LnInfo>): Pipeline.State {
    if lns == map[] then s else s.(anyPending := true, pendingLns := s.pendingLns + lns)
  }

  function WithoutDb(slots: map<Key, Store.Slot>, db: int): map<Key, Store.Slot> {
    map k | k in slots && k.db != db :: slots[k]
  }

  function WithStore(g: Gc, s: Store.State): Gc {
    g.(fine := g.fine.(store := s))
  }

  function WithoutAttempt(g: Gc, c: nat): Gc {
    g.(fine := g.fine.(cleaners := g.fine.cleaners - {c}))
  }

  ghost function Next(g: Gc, e: Step): Gc
    requires CanStep(g, e)
  {
    match e
    case Outside(op) => WithStore(g, Store.Apply(g.fine.store, op))
    case CreateDb(db) => g.(cat := g.cat.(live := g.cat.live + {db}))
    case OpenDb(db) => g.(cat := g.cat.(registered := g.cat.registered + {db}))
    case CloseDb(db) => g.(cat := g.cat.(registered := g.cat.registered - {db}))
    case RemoveDb(db) =>
      WithStore(g, g.fine.store.(slots := WithoutDb(g.fine.store.slots, db)))
        .(cat := Catalog(g.cat.registered - {db}, g.cat.live - {db}))
    case Enqueue(f, util) => g.(sel := Pipeline.AddToClean(g.sel, f, util))
    case Dequeue => g.(sel := Pipeline.TakeQueued(g.sel))
    case Select(f, util) => g.(sel := Pipeline.Claim(g.sel, f, util), clamped := g.clamped + {f})
    case BeginPass(f) => g.(passes := g.passes[f := Pass(LnsOf(g.fine.store.log, f), map[], false, false)])
    case SkipObsolete(f, l) => g.(passes := g.passes[f := Visited(g.passes[f], l, Dead)])
    case Undecided(f, l, retain) =>
      g.(passes := g.passes[f := Visited(g.passes[f], l, if retain then Retained else Pending)])
    case Look(c, k, l) => g.(fine := I.Next(g.fine, I.Look(c, k, l)))
    case Advance(c, faults) => g.(fine := I.Advanced(g.fine, c, faults))
    case Judge(f, c) =>
      var pc := g.fine.cleaners[c];
      WithoutAttempt(g, c)
        .(passes := g.passes[f := Visited(g.passes[f], pc.task.logLsn, FateOfVerdict(pc.outcome))])
    case Retry(c) =>
      var pc := g.fine.cleaners[c];
      WithoutAttempt(g, c)
        .(sel := if pc.outcome.Locked? then g.sel else Pipeline.RemovePendingLn(g.sel, pc.task.logLsn))
    case RetainFile(f) => g.(passes := g.passes[f := g.passes[f].(retain := true)])
    case Record(f) =>
      g.(sel := AddPending(g.sel, g.passes[f].locked), passes := g.passes[f := g.passes[f].(recorded := true)])
    case Finish(f) => g.(sel := Pipeline.MarkCleaned(g.sel, f), passes := g.passes - {f})
    case Drop(f) => g.(sel := Pipeline.RemoveFromCleaning(g.sel, f), passes := g.passes - {f})
    case PutBack(f) => g.(sel := Pipeline.PutBack(g.sel, f), passes := g.passes - {f})
    case PendDb(db) => g.(sel := Pipeline.AddPendingDb(g.sel, db))
    case UnpendDb(db) => g.(sel := Pipeline.RemovePendingDb(g.sel, db))
    case StartCheckpoint => g.(sel := Pipeline.CheckpointStart(g.sel), snapshot := Some(g.sel.cleaned))
    case EndCheckpoint => g.(sel := Pipeline.CheckpointEnd(g.sel, g.snapshot.value), snapshot := None)
    case TakeSafe(f) => g.(sel := Pipeline.RemoveDeleted(g.sel, f), doomed := g.doomed + {f})
    case Unlink(f) =>
      WithStore(g, g.fine.store.(log := WithoutFile(g.fine.store.log, f)))
        .(doomed := g.doomed - {f}, deleted := g.deleted + {f})
    case GiveBack(f, keep) =>
      g.(sel := Pipeline.AddSafeBack(g.sel, f), doomed := if keep then g.doomed else g.doomed - {f})
  }

  ghost predicate IsRun(gs: seq<Gc>, es: seq<Step>) {
    && |gs| == |es| + 1
    && gs[0] == START
    && (forall i :: 0 <= i < |es| ==> CanStep(gs[i], es[i]) && Heeds(gs[i], es[i]) && gs[i + 1] == Next(gs[i], es[i]))
  }

  // ----- invariant --------------------------------------------------------------------------------

  /** Files the collector is done with. */
  predicate Condemned(g: Gc, f: FileNum) {
    f in g.sel.safe || f in g.doomed || f in g.deleted
  }

  predicate Barred(g: Gc, f: FileNum) {
    f in g.sel.cleaned || f in g.sel.checkpointed
  }

  /** What must hold of a record that something can still reach. */
  predicate Guarded(g: Gc, l: Lsn) {
    && !Condemned(g, l.file)
    && (Barred(g, l.file) ==> l in g.sel.pendingLns)
    && (l.file in g.passes ==>
          var p := g.passes[l.file];
          l in p.todo || p.retain || (if p.recorded then l in g.sel.pendingLns else l in p.locked))
  }

  ghost predicate RefsGuarded(g: Gc) {
    forall l :: Store.IsRef(g.fine.store, l) ==> Guarded(g, l)
  }

  predicate Touched(g: Gc, f: FileNum) {
    Barred(g, f) || Condemned(g, f) || f in g.passes
  }

  /** New records never land in a file the collector has touched. */
  ghost predicate TouchedAreClosed(g: Gc) {
    forall f: FileNum :: Touched(g, f) ==> f < g.fine.store.last.file
  }

  /** Whatever a pass or the pending list remembers of an LN is true of it. */
  ghost predicate InfosTrue(g: Gc) {
    && (forall l :: l in g.sel.pendingLns ==> I.Owned(g.fine.store, l, g.sel.pendingLns[l].key))
    && (forall f, l :: f in g.passes && l in g.passes[f].todo ==> I.Owned(g.fine.store, l, g.passes[f].todo[l].key))
    && (forall f, l :: f in g.passes && l in g.passes[f].locked ==> I.Owned(g.fine.store, l, g.passes[f].locked[l].key))
  }

  /** Slots and open changes belong to databases of the catalog. */
  ghost predicate DbsLive(g: Gc) {
    && (forall k :: k in g.fine.store.slots ==> k.db in g.cat.live)
    && (forall p :: p in g.fine.store.changes ==> p.1.db in g.cat.live)
  }

  /** A file chosen from the profile stays behind every open transaction. */
  ghost predicate ClampHolds(g: Gc) {
    forall f :: f in g.clamped ==> Store.Past(g.fine.store, f)
  }

  /** A lookup that found no slot was about an LN nothing referenced. */
  ghost predicate MissesClear(fine: I.Fine) {
    forall c :: c in fine.cleaners && fine.cleaners[c].task.treeLsn == NULL_LSN ==> fine.cleaners[c].task.clear
  }

  ghost predicate GcInv(g: Gc) {
    && I.FineInv(g.fine) && MissesClear(g.fine)
    && Pipeline.FlagCovers(g.sel)
    && RefsGuarded(g) && TouchedAreClosed(g) && InfosTrue(g) && DbsLive(g) && ClampHolds(g)
  }

  // ----- steps of the store ------------------------------------------------------------------------

  /** Any step of transactions or attempts: the store only appends and only drops old references. */
  lemma GrowthKeepsInv(g: Gc, fine': I.Fine)
    requires GcInv(g) && I.FineInv(fine') && MissesClear(fine') && Store.Grows(g.fine.store, fine'.store)
    requires DbsLive(g.(fine := fine')) && ClampHolds(g.(fine := fine'))
    ensures GcInv(g.(fine := fine'))
  {
    var g' := g.(fine := fine');
    forall l | Store.IsRef(fine'.store, l)
      ensures Guarded(g', l)
    {
      if g.fine.store.last.Before(l) {
        assert !Touched(g, l.file);
      } else {
        assert Guarded(g, l);
      }
    }
    assert forall f: FileNum :: Touched(g', f) ==> Touched(g, f);
    assert forall l, k :: I.Owned(g.fine.store, l, k) ==> I.Owned(fine'.store, l, k);
  }

  lemma OutsideKeepsInv(g: Gc, op: Store.Op)
    requires GcInv(g) && CanStep(g, Outside(op))
    ensures GcInv(Next(g, Outside(op)))
  {
    var fine' := I.Next(g.fine, I.Outside(op));
    I.StepKeepsFineInv(g.fine, I.Outside(op));
    Store.StepGrows(g.fine.store, op);
    assert forall k :: k in fine'.store.slots ==> k in g.fine.store.slots || (op.Publish? && k == op.k);
    forall f | f in g.clamped
      ensures Store.Past(fine'.store, f)
    {
      Store.StepKeepsPast(g.fine.store, op, f);
    }
    GrowthKeepsInv(g, fine');
  }

  lemma LookKeepsInv(g: Gc, c: nat, k: Key, l: Lsn)
    requires GcInv(g) && CanStep(g, Look(c, k, l)) && Heeds(g, Look(c, k, l))
    ensures GcInv(Next(g, Look(c, k, l)))
  {
    var s := g.fine.store;
    I.StepKeepsFineInv(g.fine, I.Look(c, k, l));
    if k !in s.slots {
      assert !OpenInsert(s, k, l) by {
        if l.file in g.clamped {
          assert Store.Past(s, l.file);
        }
      }
      if l in s.log {
        OnlyOpenInsertsHide(s, k, l);
      }
    }
    GrowthKeepsInv(g, I.Next(g.fine, I.Look(c, k, l)));
  }

  lemma GrowthKeepsPast(s: Store.State, s': Store.State, f: FileNum)
    requires Store.Grows(s, s') && s'.changes == s.changes && Store.Past(s, f)
    ensures Store.Past(s', f)
  {
  }

  /** A step of the attempts alone. */
  lemma AttemptsKeepInv(g: Gc, fine': I.Fine)
    requires GcInv(g) && I.FineInv(fine') && Store.Grows(g.fine.store, fine'.store)
    requires fine'.store.slots.Keys == g.fine.store.slots.Keys && fine'.store.changes == g.fine.store.changes
    requires forall a :: a in fine'.cleaners ==>
               a in g.fine.cleaners && fine'.cleaners[a].task == g.fine.cleaners[a].task
    ensures GcInv(g.(fine := fine'))
  {
    forall f | f in g.clamped
      ensures Store.Past(fine'.store, f)
    {
      GrowthKeepsPast(g.fine.store, fine'.store, f);
    }
    GrowthKeepsInv(g, fine');
  }

  lemma AdvanceKeepsInv(g: Gc, c: nat, faults: Faults)
    requires GcInv(g) && CanStep(g, Advance(c, faults))
    ensures GcInv(g.(fine := I.Advanced(g.fine, c, faults)))
  {
    I.StepKeepsFineInv(g.fine, I.Advance(c, faults));
    I.AdvanceGrows(g.fine, c, faults);
    I.AdvanceKeepsTasks(g.fine, c, faults);
    AttemptsKeepInv(g, I.Advanced(g.fine, c, faults));
  }

  /** An attempt that is over can be forgotten. */
  lemma ForgetAttempt(g: Gc, c: nat)
    requires GcInv(g) && I.HasVerdict(g.fine, c)
    ensures GcInv(WithoutAttempt(g, c))
  {
    AdvanceKeepsInv(g, c, I.CALM);
    assert I.Advanced(g.fine, c, I.CALM) == g.fine.(cleaners := g.fine.cleaners - {c});
  }

  /** A verdict that holds is about an LN nothing references. */
  lemma VerdictIsRight(g: Gc, c: nat)
    requires GcInv(g) && I.HasVerdict(g.fine, c)
    requires VerdictHolds(g.fine.cleaners[c]) && !g.fine.cleaners[c].outcome.Locked?
    ensures !Store.IsRef(g.fine.store, g.fine.cleaners[c].task.logLsn)
  {
    assert I.AttemptOk(g.fine.store, c, g.fine.cleaners[c]);
  }

  /** One LN less to visit: it is unreferenced, or locked and remembered, or the file is kept. */
  lemma VisitedKeepsInv(g: Gc, f: FileNum, l: Lsn, fate: Fate)
    requires GcInv(g) && Scanning(g, f) && l in g.passes[f].todo
    requires fate == Dead || fate == Kept ==> !Store.IsRef(g.fine.store, l)
    ensures GcInv(g.(passes := g.passes[f := Visited(g.passes[f], l, fate)]))
  {
    var g' := g.(passes := g.passes[f := Visited(g.passes[f], l, fate)]);
    forall m | Store.IsRef(g'.fine.store, m)
      ensures Guarded(g', m)
    {
      assert Guarded(g, m);
    }
    assert forall h: FileNum :: Touched(g', h) ==> Touched(g, h);
  }

  lemma JudgeKeepsInv(g: Gc, f: FileNum, c: nat)
    requires GcInv(g) && CanStep(g, Judge(f, c)) && Heeds(g, Judge(f, c))
    ensures GcInv(Next(g, Judge(f, c)))
  {
    var pc := g.fine.cleaners[c];
    if !pc.outcome.Locked? {
      VerdictIsRight(g, c);
    }
    ForgetAttempt(g, c);
    VisitedKeepsInv(WithoutAttempt(g, c), f, pc.task.logLsn, FateOfVerdict(pc.outcome));
  }

  // ----- steps of the selector ----------------------------------------------------------------------

  ghost predicate NoRefs(g: Gc, f: FileNum) {
    forall l :: Store.IsRef(g.fine.store, l) ==> l.file != f
  }

  /** Files may change stage as long as none enters the barrier from outside and none is condemned while referenced. */
  lemma StageChangeKeepsInv(g: Gc, sel': Pipeline.State)
    requires GcInv(g) && Pipeline.FlagCovers(sel') && sel'.pendingLns == g.sel.pendingLns
    requires forall f: FileNum :: f in sel'.cleaned || f in sel'.checkpointed ==> Barred(g, f)
    requires forall f: FileNum :: f in sel'.safe ==> f in g.sel.safe || (Barred(g, f) && NoRefs(g, f))
    ensures GcInv(g.(sel := sel'))
  {
    var g' := g.(sel := sel');
    forall l | Store.IsRef(g'.fine.store, l)
      ensures Guarded(g', l)
    {
      assert Guarded(g, l);
    }
    assert forall h: FileNum :: Touched(g', h) ==> Touched(g, h);
  }

  lemma UpdateProcessedKeepsInv(g: Gc)
    requires GcInv(g)
    ensures GcInv(g.(sel := Pipeline.UpdateProcessed(g.sel)))
  {
    forall f: FileNum | Barred(g, f) && Pipeline.NothingPending(g.sel)
      ensures NoRefs(g, f)
    {
      assert forall l :: Store.IsRef(g.fine.store, l) ==> Guarded(g, l);
    }
    StageChangeKeepsInv(g, Pipeline.UpdateProcessed(g.sel));
  }

  lemma SimpleEndKeepsInv(g: Gc, snapshot: set<FileNum>)
    requires GcInv(g)
    ensures GcInv(g.(sel := Pipeline.SimpleCheckpointEnd(g.sel, snapshot)))
  {
    var sel1 := Pipeline.MarkCheckpointed(g.sel, snapshot * g.sel.cleaned);
    StageChangeKeepsInv(g, sel1);
    UpdateProcessedKeepsInv(g.(sel := sel1));
  }

  lemma EndCheckpointKeepsInv(g: Gc)
    requires GcInv(g) && g.snapshot.Some?
    ensures GcInv(Next(g, EndCheckpoint))
  {
    Pipeline.CheckpointEndIsSimple(g.sel, g.snapshot.value);
    SimpleEndKeepsInv(g, g.snapshot.value);
    IgnoresSnapshot(g.(sel := Pipeline.SimpleCheckpointEnd(g.sel, g.snapshot.value)), None);
  }

  lemma IgnoresSnapshot(g: Gc, snapshot: Option<set<FileNum>>)
    requires GcInv(g)
    ensures GcInv(g.(snapshot := snapshot))
  {
    var g' := g.(snapshot := snapshot);
    assert forall l :: Guarded(g, l) ==> Guarded(g', l);
    assert forall h: FileNum :: Touched(g', h) ==> Touched(g, h);
  }

  /** A pending LN may be forgotten once nothing references it. */
  lemma ForgetKeepsInv(g: Gc, l: Lsn)
    requires GcInv(g) && !Store.IsRef(g.fine.store, l)
    ensures GcInv(g.(sel := Pipeline.RemovePendingLn(g.sel, l)))
  {
    var g' := g.(sel := g.sel.(pendingLns := g.sel.pendingLns - {l}));
    forall m | Store.IsRef(g'.fine.store, m)
      ensures Guarded(g', m)
    {
      assert Guarded(g, m);
    }
    assert forall h: FileNum :: Touched(g', h) ==> Touched(g, h);
    UpdateProcessedKeepsInv(g');
  }

  lemma RetryKeepsInv(g: Gc, c: nat)
    requires GcInv(g) && CanStep(g, Retry(c)) && Heeds(g, Retry(c))
    ensures GcInv(Next(g, Retry(c)))
  {
    var pc := g.fine.cleaners[c];
    ForgetAttempt(g, c);
    if !pc.outcome.Locked? {
      VerdictIsRight(g, c);
      ForgetKeepsInv(WithoutAttempt(g, c), pc.task.logLsn);
    }
  }

  // ----- steps of a pass -----------------------------------------------------------------------------

  predicate IsPassStep(e: Step) {
    e.BeginPass? || e.RetainFile? || e.Record? || e.Finish? || e.Drop? || e.PutBack?
  }

  lemma PassStepGuards(g: Gc, e: Step, l: Lsn)
    requires Guarded(g, l) && IsPassStep(e) && CanStep(g, e)
    requires e.BeginPass? && l.file == e.f ==> l in g.fine.store.log
    ensures Guarded(Next(g, e), l)
  {
  }

  lemma PassStepKeepsInv(g: Gc, e: Step)
    requires GcInv(g) && IsPassStep(e) && CanStep(g, e)
    ensures GcInv(Next(g, e))
  {
    var g' := Next(g, e);
    forall l | Store.IsRef(g'.fine.store, l)
      ensures Guarded(g', l)
    {
      assert Guarded(g, l);
      PassStepGuards(g, e, l);
    }
    assert forall h: FileNum :: Touched(g', h) ==> Touched(g, h) || (e.BeginPass? && h == e.f);
  }

  // ----- deletion --------------------------------------------------------------------------------------

  lemma UnlinkKeepsRefs(s: Store.State, f: FileNum)
    requires Store.Inv(s) && forall l :: Store.IsRef(s, l) ==> l.file != f
    ensures var s' := s.(log := WithoutFile(s.log, f));
            Store.Inv(s') && forall l :: Store.IsRef(s', l) <==> Store.IsRef(s, l)
  {
    var s' := s.(log := WithoutFile(s.log, f));
    forall k | k in s.slots
      ensures Store.SlotOk(s', k)
    {
      assert Store.SlotOk(s, k);
      assert Store.IsRef(s, s.slots[k].lsn);
    }
    forall t: nat, k | (t, k) in s.changes
      ensures Store.ChangeOk(s', t, k)
    {
      var c := s.changes[(t, k)];
      assert Store.ChangeOk(s, t, k);
      assert Store.HeldBy(s, t, k, c.newest);
      assert c.before.Some? ==> Store.HeldBy(s, t, k, c.before.value);
    }
    forall l
      ensures Store.IsRef(s', l) <==> Store.IsRef(s, l)
    {
      assert forall t: nat, k :: (t, k) in s.changes ==> Store.HeldBy(s', t, k, l) == Store.HeldBy(s, t, k, l);
    }
  }

  /** Deleting a file nothing references leaves every attempt as it was. */
  lemma UnlinkKeepsAttempts(fine: I.Fine, f: FileNum)
    requires I.FineInv(fine) && forall l :: Store.IsRef(fine.store, l) ==> l.file != f
    ensures I.FineInv(fine.(store := fine.store.(log := WithoutFile(fine.store.log, f))))
  {
    var s, s' := fine.store, fine.store.(log := WithoutFile(fine.store.log, f));
    UnlinkKeepsRefs(s, f);
    forall c | c in fine.cleaners
      ensures I.AttemptOk(s', c, fine.cleaners[c])
    {
      assert I.AttemptOk(s, c, fine.cleaners[c]);
      var k := fine.cleaners[c].task.k;
      if k in s.slots {
        assert Store.SlotOk(s', k);
      }
    }
  }

  predicate IsDeletionStep(e: Step) {
    e.TakeSafe? || e.Unlink? || e.GiveBack?
  }

  lemma DeletionStepKeepsInv(g: Gc, e: Step)
    requires GcInv(g) && IsDeletionStep(e) && CanStep(g, e)
    ensures GcInv(Next(g, e))
  {
    var g' := Next(g, e);
    if e.Unlink? {
      assert forall l :: Store.IsRef(g.fine.store, l) ==> Guarded(g, l);
      UnlinkKeepsRefs(g.fine.store, e.f);
      UnlinkKeepsAttempts(g.fine, e.f);
    }
    forall l | Store.IsRef(g'.fine.store, l)
      ensures Guarded(g', l)
    {
      assert Guarded(g, l);
    }
    assert forall h: FileNum :: Touched(g', h) ==> Touched(g, h);
    assert forall l, k :: I.Owned(g.fine.store, l, k) ==> I.Owned(g'.fine.store, l, k);
    assert forall f :: f in g.clamped ==> Store.Past(g.fine.store, f) && Store.Past(g'.fine.store, f);
  }

  /** Removing a database nobody is writing only drops slots. */
  lemma WithoutDbGrows(s: Store.State, db: int)
    requires Store.Inv(s) && forall p :: p in s.changes ==> p.1.db != db
    ensures Store.Inv(s.(slots := WithoutDb(s.slots, db))) && Store.Grows(s, s.(slots := WithoutDb(s.slots, db)))
  {
    var s' := s.(slots := WithoutDb(s.slots, db));
    assert forall k :: k in s'.slots ==> Store.SlotOk(s, k);
    forall t: nat, k | (t, k) in s'.changes
      ensures Store.ChangeOk(s', t, k)
    {
      assert Store.ChangeOk(s, t, k);
    }
    forall l | Store.IsRef(s', l)
      ensures Store.IsRef(s, l)
    {
      assert forall t: nat, k :: (t, k) in s.changes ==> Store.HeldBy(s', t, k, l) == Store.HeldBy(s, t, k, l);
    }
  }

  lemma WithoutDbKeepsAttempts(fine: I.Fine, db: int)
    requires I.FineInv(fine) && (forall p :: p in fine.store.changes ==> p.1.db != db)
    requires forall c :: c in fine.cleaners ==> fine.cleaners[c].task.k.db != db
    ensures I.FineInv(fine.(store := fine.store.(slots := WithoutDb(fine.store.slots, db))))
  {
    var s, s' := fine.store, fine.store.(slots := WithoutDb(fine.store.slots, db));
    WithoutDbGrows(s, db);
    forall c | c in fine.cleaners
      ensures I.AttemptOk(s', c, fine.cleaners[c])
    {
      assert I.AttemptOk(s, c, fine.cleaners[c]);
    }
  }

  lemma RemoveDbKeepsInv(g: Gc, db: int)
    requires GcInv(g) && CanStep(g, RemoveDb(db))
    ensures GcInv(Next(g, RemoveDb(db)))
  {
    var g' := Next(g, RemoveDb(db));
    WithoutDbGrows(g.fine.store, db);
    WithoutDbKeepsAttempts(g.fine, db);
    forall l | Store.IsRef(g'.fine.store, l)
      ensures Guarded(g', l)
    {
      assert Guarded(g, l);
    }
    assert forall h: FileNum :: Touched(g', h) ==> Touched(g, h);
    assert forall f :: f in g.clamped ==> Store.Past(g.fine.store, f) && Store.Past(g'.fine.store, f);
  }

  /** The catalog may name more live databases, and register any of them. */
  lemma CatalogKeepsInv(g: Gc, cat: Catalog)
    requires GcInv(g) && g.cat.live <= cat.live
    ensures GcInv(g.(cat := cat))
  {
    var g' := g.(cat := cat);
    assert forall l :: Store.IsRef(g.fine.store, l) ==> Guarded(g, l) && Guarded(g', l);
    assert forall h: FileNum :: Touched(g', h) ==> Touched(g, h);
  }

  lemma SelectKeepsInv(g: Gc, f: FileNum, util: Option<int>)
    requires GcInv(g) && CanStep(g, Select(f, util))
    ensures GcInv(Next(g, Select(f, util)))
  {
    var g1 := g.(sel := Pipeline.Claim(g.sel, f, util));
    StageChangeKeepsInv(g, g1.sel);
    var g' := g1.(clamped := g.clamped + {f});
    assert forall l :: Store.IsRef(g'.fine.store, l) ==> Guarded(g1, l) && Guarded(g', l);
    assert forall h: FileNum :: Touched(g', h) ==> Touched(g1, h);
  }

  predicate IsSelectorStep(e: Step) {
    || e.Enqueue? || e.Dequeue? || e.Select? || e.PendDb? || e.UnpendDb? || e.StartCheckpoint? || e.EndCheckpoint?
  }

  lemma SelectorStepKeepsInv(g: Gc, e: Step)
    requires GcInv(g) && IsSelectorStep(e) && CanStep(g, e)
    ensures GcInv(Next(g, e))
  {
    match e
    case UnpendDb(db) =>
      var sel1 := g.sel.(pendingDbs := g.sel.pendingDbs - {db});
      StageChangeKeepsInv(g, sel1);
      UpdateProcessedKeepsInv(g.(sel := sel1));
    case StartCheckpoint =>
      StageChangeKeepsInv(g, Pipeline.CheckpointStart(g.sel));
      IgnoresSnapshot(g.(sel := Pipeline.CheckpointStart(g.sel)), Some(g.sel.cleaned));
    case EndCheckpoint => EndCheckpointKeepsInv(g);
    case Enqueue(_, _) => StageChangeKeepsInv(g, Next(g, e).sel);
    case Dequeue => StageChangeKeepsInv(g, Next(g, e).sel);
    case Select(f, util) => SelectKeepsInv(g, f, util);
    case PendDb(_) => StageChangeKeepsInv(g, Next(g, e).sel);
  }

  predicate IsAttemptStep(e: Step) {
    e.Look? || e.Advance? || e.Judge? || e.Retry? || e.SkipObsolete? || e.Undecided?
  }

  lemma AttemptStepKeepsInv(g: Gc, e: Step)
    requires GcInv(g) && IsAttemptStep(e) && CanStep(g, e) && Heeds(g, e)
    ensures GcInv(Next(g, e))
  {
    match e
    case SkipObsolete(f, l) => VisitedKeepsInv(g, f, l, Dead);
    case Undecided(f, l, retain) => VisitedKeepsInv(g, f, l, if retain then Retained else Pending);
    case Look(c, k, l) => LookKeepsInv(g, c, k, l);
    case Advance(c, faults) => AdvanceKeepsInv(g, c, faults);
    case Judge(f, c) => JudgeKeepsInv(g, f, c);
    case Retry(c) => RetryKeepsInv(g, c);
  }

  predicate IsCatalogStep(e: Step) {
    e.CreateDb? || e.OpenDb? || e.CloseDb? || e.RemoveDb?
  }

  lemma CatalogStepKeepsInv(g: Gc, e: Step)
    requires GcInv(g) && IsCatalogStep(e) && CanStep(g, e)
    ensures GcInv(Next(g, e))
  {
    if e.RemoveDb? {
      RemoveDbKeepsInv(g, e.db);
    } else {
      CatalogKeepsInv(g, Next(g, e).cat);
    }
  }

  lemma StepKeepsGcInv(g: Gc, e: Step)
    requires GcInv(g) && CanStep(g, e) && Heeds(g, e)
    ensures GcInv(Next(g, e))
  {
    if e.Outside? {
      OutsideKeepsInv(g, e.op);
    } else if IsAttemptStep(e) {
      AttemptStepKeepsInv(g, e);
    } else if IsSelectorStep(e) {
      SelectorStepKeepsInv(g, e);
    } else if IsDeletionStep(e) {
      DeletionStepKeepsInv(g, e);
    } else if IsCatalogStep(e) {
      CatalogStepKeepsInv(g, e);
    } else {
      PassStepKeepsInv(g, e);
    }
  }

  lemma {:induction false} RunKeepsGcInv(gs: seq<Gc>, es: seq<Step>, n: nat)
    requires IsRun(gs, es) && n <= |es|
    ensures GcInv(gs[n])
  {
    if n == 0 {
    } else {
      RunKeepsGcInv(gs, es, n - 1);
      StepKeepsGcInv(gs[n - 1], es[n - 1]);
    }
  }

  // ----- theorems -------------------------------------------------------------------------------------

  /** Every slot points at a record in the log; so do the images an open transaction may return to or publish. */
  ghost predicate RefsLogged(s: Store.State) {
    && (forall k :: k in s.slots ==> s.slots[k].lsn in s.log && Store.IsRef(s, s.slots[k].lsn))
    && (forall t, k :: (t, k) in s.changes ==>
          && Store.IsRef(s, s.changes[(t, k)].newest)
          && (s.changes[(t, k)].before.Some? ==> Store.IsRef(s, s.changes[(t, k)].before.value)))
  }

  /** No reachable record lies in a file that may go, and one in a file behind the barrier is on the pending list. */
  ghost predicate NothingLost(g: Gc) {
    && RefsLogged(g.fine.store)
    && forall l :: Store.IsRef(g.fine.store, l) ==>
         && l.file !in g.sel.safe && l.file !in g.doomed && l.file !in g.deleted
         && (l.file in g.sel.cleaned || l.file in g.sel.checkpointed ==> l in g.sel.pendingLns)
  }

  lemma InvLogsRefs(s: Store.State)
    requires Store.Inv(s)
    ensures RefsLogged(s)
  {
    assert forall k :: k in s.slots ==> Store.SlotOk(s, k);
    forall t: nat, k | (t, k) in s.changes
      ensures Store.IsRef(s, s.changes[(t, k)].newest)
      ensures s.changes[(t, k)].before.Some? ==> Store.IsRef(s, s.changes[(t, k)].before.value)
    {
      var c := s.changes[(t, k)];
      assert Store.ChangeOk(s, t, k);
      assert Store.HeldBy(s, t, k, c.newest) && (c.before.Some? ==> Store.HeldBy(s, t, k, c.before.value));
    }
  }

  /**
   Nothing reachable is ever dropped.  In every state of every run, a record that a slot
   points at, that an active transaction may return to, or that it is about to publish, is
   in the log, and its file is neither safe to delete, on its way out, nor deleted; if the
   file is waiting behind a checkpoint, the record is on the pending list.
   */
  lemma GcSafety(gs: seq<Gc>, es: seq<Step>, n: nat)
    requires IsRun(gs, es) && n <= |es|
    ensures NothingLost(gs[n])
  {
    var g := gs[n];
    RunKeepsGcInv(gs, es, n);
    InvLogsRefs(g.fine.store);
    assert forall l :: Store.IsRef(g.fine.store, l) ==> Guarded(g, l);
  }

  function RemovedFrom(d: Store.Db, db: int): Store.Db {
    d.(values := map k | k in d.values && k.db != db :: d.values[k])
  }

  /** The database after `n` steps, had there been no cleaner, no checkpoints and no deletion. */
  function DbAfter(es: seq<Step>, n: nat): Store.Db
    requires n <= |es|
  {
    if n == 0 then Store.EMPTY_DB
    else
      var d := DbAfter(es, n - 1);
      match es[n - 1]
      case Outside(op) => Store.Meaning(d, op)
      case RemoveDb(db) => RemovedFrom(d, db)
      case _ => d
  }

  lemma UnlinkIsInvisible(s: Store.State, d: Store.Db, f: FileNum)
    requires Store.Inv(s) && Store.Shows(s, d) && forall l :: Store.IsRef(s, l) ==> l.file != f
    ensures Store.Shows(s.(log := WithoutFile(s.log, f)), d)
  {
    var s' := s.(log := WithoutFile(s.log, f));
    UnlinkKeepsRefs(s, f);
    forall k | k in s.slots
      ensures Store.ShowsValue(s', d, k)
    {
      assert Store.SlotOk(s', k) && Store.SlotOk(s, k) && Store.ShowsValue(s, d, k);
    }
    forall t: nat, k | (t, k) in s.changes
      ensures Store.ShowsChange(s', d, t, k)
    {
      assert Store.ChangeOk(s', t, k) && Store.ShowsChange(s, d, t, k);
    }
  }

  lemma RemoveDbMeaning(s: Store.State, d: Store.Db, db: int)
    requires Store.Shows(s, d)
    ensures Store.Shows(s.(slots := WithoutDb(s.slots, db)), RemovedFrom(d, db))
  {
    var s', d' := s.(slots := WithoutDb(s.slots, db)), RemovedFrom(d, db);
    assert s'.slots.Keys == d'.values.Keys;
    assert forall k :: k in s'.slots ==> Store.ShowsValue(s, d, k) && Store.ShowsValue(s', d', k);
    assert forall t: nat, k :: (t, k) in s.changes ==> Store.ShowsChange(s, d, t, k) && Store.ShowsChange(s', d', t, k);
  }

  predicate LeavesStore(e: Step) {
    !e.Outside? && !e.RemoveDb? && !e.Look? && !e.Advance? && !e.Unlink?
  }

  lemma StoreIsLeft(g: Gc, e: Step)
    requires CanStep(g, e) && LeavesStore(e)
    ensures Next(g, e).fine.store == g.fine.store
  {
  }

  lemma StepIsInvisible(g: Gc, e: Step, d: Store.Db)
    requires GcInv(g) && CanStep(g, e) && Store.Shows(g.fine.store, d) && !e.Outside? && !e.RemoveDb?
    ensures Store.Shows(Next(g, e).fine.store, d)
  {
    if e.Look? {
      I.CleanerStepIsInvisible(g.fine, I.Look(e.c, e.k, e.l), d);
    } else if e.Advance? {
      I.CleanerStepIsInvisible(g.fine, I.Advance(e.c, e.faults), d);
    } else if e.Unlink? {
      assert forall l :: Store.IsRef(g.fine.store, l) ==> Guarded(g, l);
      UnlinkIsInvisible(g.fine.store, d, e.f);
    } else {
      StoreIsLeft(g, e);
    }
  }

  /**
   Garbage collection is invisible.  After every run of the whole system each key reads, and
   each open transaction would restore, exactly what it would without the collector.
   */
  lemma {:induction false} CollectionIsInvisible(gs: seq<Gc>, es: seq<Step>, n: nat)
    requires IsRun(gs, es) && n <= |es|
    ensures Store.Shows(gs[n].fine.store, DbAfter(es, n))
  {
    if n == 0 {
    } else {
      var g, e, d := gs[n - 1], es[n - 1], DbAfter(es, n - 1);
      CollectionIsInvisible(gs, es, n - 1);
      RunKeepsGcInv(gs, es, n - 1);
      if e.Outside? {
        Store.StepMeaning(g.fine.store, d, e.op);
      } else if e.RemoveDb? {
        RemoveDbMeaning(g.fine.store, d, e.db);
      } else {
        StepIsInvisible(g, e, d);
      }
    }
  }

  // ----- runs whose lookups are safe ----------------------------------------------------------------

  /** Every lookup finds the slot at the LN, or an LN no open transaction holds. */
  ghost predicate LooksSafely(g: Gc, e: Step) {
    e.Look? ==> I.SafeToLook(g.fine.store, e.k, e.l)
  }

  ghost predicate IsSafeRun(gs: seq<Gc>, es: seq<Step>) {
    && |gs| == |es| + 1
    && gs[0] == START
    && (forall i :: 0 <= i < |es| ==>
          CanStep(gs[i], es[i]) && LooksSafely(gs[i], es[i]) && gs[i + 1] == Next(gs[i], es[i]))
  }

  ghost predicate TasksSafe(fine: I.Fine) {
    forall c :: c in fine.cleaners ==> I.SafeLookup(fine.cleaners[c].task)
  }

  lemma SafeLookHeeds(g: Gc, c: nat, k: Key, l: Lsn)
    requires GcInv(g) && TasksSafe(g.fine) && CanStep(g, Look(c, k, l)) && I.SafeToLook(g.fine.store, k, l)
    ensures Heeds(g, Look(c, k, l)) && TasksSafe(I.Next(g.fine, I.Look(c, k, l)))
  {
    var s := g.fine.store;
    I.SafeToLookIsSafe(s, k, l);
    assert forall t: nat :: (t, k) in s.changes && s.changes[(t, k)].newest == l ==> Store.HeldBy(s, t, k, l);
  }

  /** Steps other than lookups start no attempts and change none's subject. */
  lemma TasksStay(g: Gc, e: Step)
    requires CanStep(g, e) && !e.Look?
    ensures var fine' := Next(g, e).fine;
            forall c :: c in fine'.cleaners ==>
              c in g.fine.cleaners && fine'.cleaners[c].task == g.fine.cleaners[c].task
  {
    if e.Advance? {
      I.AdvanceKeepsTasks(g.fine, e.c, e.faults);
    }
  }

  lemma SafeStepHeeds(g: Gc, e: Step)
    requires GcInv(g) && TasksSafe(g.fine) && CanStep(g, e) && LooksSafely(g, e)
    ensures Heeds(g, e) && TasksSafe(Next(g, e).fine)
  {
    if e.Look? {
      SafeLookHeeds(g, e.c, e.k, e.l);
    } else {
      TasksStay(g, e);
    }
  }

  /** Such runs heed all they must, whatever happens between lookup, lock and publication. */
  lemma {:induction false} SafeRunHeeds(gs: seq<Gc>, es: seq<Step>, n: nat)
    requires IsSafeRun(gs, es) && n <= |es|
    ensures GcInv(gs[n]) && TasksSafe(gs[n].fine)
    ensures forall i :: 0 <= i < n ==> Heeds(gs[i], es[i])
  {
    if n == 0 {
    } else {
      SafeRunHeeds(gs, es, n - 1);
      SafeStepHeeds(gs[n - 1], es[n - 1]);
      StepKeepsGcInv(gs[n - 1], es[n - 1]);
    }
  }

  lemma SafeRunIsRun(gs: seq<Gc>, es: seq<Step>)
    requires IsSafeRun(gs, es)
    ensures IsRun(gs, es)
  {
    SafeRunHeeds(gs, es, |es|);
  }

  // ----- runs in which cleaning an LN is one step ------------------------------------------------------

  /**
   While an attempt is open nothing happens but its own steps and its verdict.  What it looks up is in
   a file chosen from the profile, or not an insert whose slot does not exist yet.
   */
  ghost predicate IsAtomic(g: Gc, e: Step) {
    && (g.fine.cleaners != map[] ==> e.Advance? || e.Judge? || e.Retry?)
    && (e.Look? ==> e.l.file in g.clamped || !OpenInsert(g.fine.store, e.k, e.l))
  }

  ghost predicate IsAtomicRun(gs: seq<Gc>, es: seq<Step>) {
    && |gs| == |es| + 1
    && gs[0] == START
    && (forall i :: 0 <= i < |es| ==>
          CanStep(gs[i], es[i]) && IsAtomic(gs[i], es[i]) && gs[i + 1] == Next(gs[i], es[i]))
  }

  /** The slot is still where the lookup saw it, and a verdict `Obsolete` comes from a recheck or a miss. */
  predicate Undisturbed(s: Store.State, pc: I.Pc) {
    && (pc.Looked? || pc.Holding? ==> pc.task.k in s.slots && s.slots[pc.task.k].lsn == pc.task.treeLsn)
    && (pc.Decided? && pc.outcome.Obsolete? ==> pc.checked || pc.task.treeLsn == NULL_LSN)
  }

  ghost predicate OneAtATime(fine: I.Fine) {
    forall c :: c in fine.cleaners ==> fine.cleaners.Keys == {c} && Undisturbed(fine.store, fine.cleaners[c])
  }

  lemma AdvanceIsUndisturbed(fine: I.Fine, c: nat, faults: Faults)
    requires OneAtATime(fine) && c in fine.cleaners
    ensures OneAtATime(I.Advanced(fine, c, faults))
  {
    var fine' := I.Advanced(fine, c, faults);
    assert fine'.cleaners.Keys <= {c};
  }

  lemma AtomicStepHeeds(g: Gc, e: Step)
    requires OneAtATime(g.fine) && CanStep(g, e) && IsAtomic(g, e)
    ensures Heeds(g, e) && OneAtATime(Next(g, e).fine)
  {
    if e.Advance? {
      AdvanceIsUndisturbed(g.fine, e.c, e.faults);
    } else if e.Look? {
      assert Next(g, e).fine.cleaners.Keys == {e.c};
    } else {
      TasksStay(g, e);
      if e.Judge? || e.Retry? {
        assert Next(g, e).fine.cleaners.Keys == {};
      }
    }
  }

  lemma {:induction false} AtomicRunHeeds(gs: seq<Gc>, es: seq<Step>, n: nat)
    requires IsAtomicRun(gs, es) && n <= |es|
    ensures OneAtATime(gs[n].fine) && forall i :: 0 <= i < n ==> Heeds(gs[i], es[i])
  {
    if n == 0 {
    } else {
      AtomicRunHeeds(gs, es, n - 1);
      AtomicStepHeeds(gs[n - 1], es[n - 1]);
    }
  }

  /** Such a run heeds all it must, also when it looks at LNs that open transactions hold. */
  lemma AtomicRunIsRun(gs: seq<Gc>, es: seq<Step>)
    requires IsAtomicRun(gs, es)
    ensures IsRun(gs, es)
  {
    AtomicRunHeeds(gs, es, |es|);
  }

  /** With the cleaning of an LN atomic, nothing reachable is ever dropped and collection is invisible. */
  lemma AtomicGcSafety(gs: seq<Gc>, es: seq<Step>, n: nat)
    requires IsAtomicRun(gs, es) && n <= |es|
    ensures NothingLost(gs[n]) && Store.Shows(gs[n].fine.store, DbAfter(es, n))
  {
    AtomicRunIsRun(gs, es);
    GcSafety(gs, es, n);
    CollectionIsInvisible(gs, es, n);
  }

  // ----- the clamp ----------------------------------------------------------------------------------

  /** The clamp is computed from a truthful first active file and the files there are. */
  ghost predicate Truthful(s: Store.State, m: U.Summaries, p: L.Policy) {
    && (forall f :: f in m ==> f <= s.last.file)
    && (s.changes != map[] ==> p.firstActiveTxnFile.Some?)
    && (forall q :: q in s.changes && p.firstActiveTxnFile.Some? ==>
          p.firstActiveTxnFile.value <= s.changes[q].newest.file)
  }

  lemma {:induction false} NewestExists(m: U.Summaries, files: set<FileNum>) returns (f: FileNum)
    requires files <= m.Keys && files != {}
    ensures f in files && forall h :: h in files ==> h <= f
    decreases |files|
  {
    var x :| x in files;
    f := x;
    if files != {x} {
      var rest := NewestExists(m, files - {x});
      f := if rest > x then rest else x;
      assert forall h :: h in files ==> h == x || h in files - {x};
    }
  }

  /** What the selector chooses from the profile, under a positive minimum age, is behind every open transaction. */
  lemma ChosenIsPast(s: Store.State, m: U.Summaries, tracked: set<FileNum>, p: L.Policy, f: FileNum)
    requires L.Eligible(m, tracked, p, f) && p.minAge >= 1 && Truthful(s, m, p)
    ensures Store.Past(s, f)
  {
    var newest := NewestExists(m, m.Keys);
    assert L.IsNewest(m, newest);
  }
}

/** Two runs of the whole system, each from an empty environment to a slot whose record is gone. */
module LossRuns {
  import opened Lsns
  import opened Migration
  import opened GcSafety
  import opened Continuations
  import Store
  import I = Interleaving
  import Pipeline

  function InStage(status: Pipeline.Status): Pipeline.State {
    var s := Pipeline.EMPTY.(info := map[0 := Pipeline.Info(status, None)]);
    match status
    case ToBeCleaned => s.(queue := [0])
    case BeingCleaned => s.(being := {0})
    case Cleaned => s.(cleaned := {0})
    case Checkpointed => s.(checkpointed := {0})
    case FullyProcessed => s.(safe := {0})
  }

  /** The slot of the key points at a record that is not in the log. */
  predicate IsLost(s: Store.State) {
    I.KEY in s.slots && s.slots[I.KEY].lsn !in s.log
  }

  const OPENED := Gc(I.START, Pipeline.EMPTY, None, map[], {}, Catalog({0}, {0}), {}, {})

  lemma DatabaseIsOpen(x: Excuse) returns (es: seq<Step>)
    ensures Leads(START, es, OPENED, x)
  {
    var g1 := Next(START, CreateDb(0));
    LeadsBy(g1, OpenDb(0), [], OPENED, x);
    LeadsBy(START, CreateDb(0), [OpenDb(0)] + [], OPENED, x);
    es := [CreateDb(0)] + ([OpenDb(0)] + []);
  }

  // ----- a pass over file 0 with one LN ---------------------------------------------------------------

  const ONE_LN := Pass(map[I.OLD := LnInfo(I.OLD, I.KEY, 0, false, 0)], map[], false, false)
  const NO_LN := Pass(map[], map[], false, false)

  lemma PassBegins(g: Gc, x: Excuse) returns (es: seq<Step>)
    requires g.sel == InStage(Pipeline.BeingCleaned) && g.passes == map[]
    requires 0 < g.fine.store.last.file && LnsOf(g.fine.store.log, 0) == ONE_LN.todo
    ensures Leads(g, es, g.(passes := map[0 := ONE_LN]), x)
  {
    LeadsBy(g, BeginPass(0), [], g.(passes := map[0 := ONE_LN]), x);
    es := [BeginPass(0)] + [];
  }

  /** The attempt says obsolete, and the pass takes that for an answer. */
  lemma VerdictIsTaken(g: Gc, task: I.Task, x: Excuse) returns (es: seq<Step>)
    requires g.passes == map[0 := ONE_LN] && task.logLsn == I.OLD
    requires g.fine.cleaners == map[0 := I.Decided(task, Obsolete, false, false)]
    requires task.treeLsn == NULL_LSN || x == Attempt(0, task)
    ensures Leads(g, es, g.(fine := I.Fine(g.fine.store, map[]), passes := map[0 := NO_LN]), x)
  {
    assert g.fine.cleaners - {0} == map[] && ONE_LN.todo - {I.OLD} == map[];
    LeadsBy(g, Judge(0, 0), [], g.(fine := I.Fine(g.fine.store, map[]), passes := map[0 := NO_LN]), x);
    es := [Judge(0, 0)] + [];
  }

  // ----- the way out of a file whose LNs are all visited ------------------------------------------------

  predicate IsScanned(g: Gc) {
    g.sel == InStage(Pipeline.BeingCleaned) && g.passes == map[0 := NO_LN] && g.snapshot.None? && g.doomed == {}
  }

  function Cleaned(g: Gc): Gc {
    g.(sel := InStage(Pipeline.Cleaned), passes := map[])
  }

  function Gone(g: Gc): Gc {
    WithStore(g, g.fine.store.(log := WithoutFile(g.fine.store.log, 0)))
      .(sel := Pipeline.EMPTY, passes := map[], deleted := g.deleted + {0})
  }

  lemma FileIsCleaned(g: Gc, x: Excuse) returns (es: seq<Step>)
    requires IsScanned(g)
    ensures Leads(g, es, Cleaned(g), x)
  {
    var g1 := g.(passes := map[0 := NO_LN.(recorded := true)]);
    assert Next(g, Record(0)) == g1 && Next(g1, Finish(0)) == Cleaned(g);
    LeadsBy(g1, Finish(0), [], Cleaned(g), x);
    LeadsBy(g, Record(0), [Finish(0)] + [], Cleaned(g), x);
    es := [Record(0)] + ([Finish(0)] + []);
  }

  lemma CheckpointIsSimple()
    ensures Pipeline.CheckpointEnd(InStage(Pipeline.Cleaned), {0}) == InStage(Pipeline.FullyProcessed)
  {
    var s := InStage(Pipeline.Cleaned);
    Pipeline.CheckpointEndIsSimple(s, {0});
    assert {0} * s.cleaned == {0};
    assert Pipeline.MarkCheckpointed(s, {0}) == InStage(Pipeline.Checkpointed);
    assert Pipeline.Promote(InStage(Pipeline.Checkpointed)) == InStage(Pipeline.FullyProcessed);
  }

  /** One checkpoint later the file is safe to delete. */
  lemma FileIsSafe(g: Gc, x: Excuse) returns (es: seq<Step>)
    requires g.sel == InStage(Pipeline.Cleaned) && g.snapshot.None?
    ensures Leads(g, es, g.(sel := InStage(Pipeline.FullyProcessed)), x)
  {
    var g1, g2 := g.(snapshot := Some({0})), g.(sel := InStage(Pipeline.FullyProcessed));
    CheckpointIsSimple();
    assert Next(g, StartCheckpoint) == g1 && Next(g1, EndCheckpoint) == g2;
    LeadsBy(g1, EndCheckpoint, [], g2, x);
    LeadsBy(g, StartCheckpoint, [EndCheckpoint] + [], g2, x);
    es := [StartCheckpoint] + ([EndCheckpoint] + []);
  }

  lemma FileIsDeleted(g: Gc, x: Excuse) returns (es: seq<Step>)
    requires g.sel == InStage(Pipeline.FullyProcessed) && g.doomed == {} && g.passes == map[]
    ensures Leads(g, es, Gone(g), x)
  {
    var g1 := g.(sel := Pipeline.EMPTY, doomed := {0});
    assert Next(g, TakeSafe(0)) == g1 && Next(g1, Unlink(0)) == Gone(g);
    LeadsBy(g1, Unlink(0), [], Gone(g), x);
    LeadsBy(g, TakeSafe(0), [Unlink(0)] + [], Gone(g), x);
    es := [TakeSafe(0)] + ([Unlink(0)] + []);
  }

  lemma FileGoes(g: Gc, x: Excuse) returns (es: seq<Step>)
    requires IsScanned(g)
    ensures Leads(g, es, Gone(g), x)
  {
    var g1 := Cleaned(g);
    var g2 := g1.(sel := InStage(Pipeline.FullyProcessed));
    var es1 := FileIsCleaned(g, x);
    var es2 := FileIsSafe(g1, x);
    var es3 := FileIsDeleted(g2, x);
    LeadsThen(g1, es2, g2, es3, Gone(g), x);
    LeadsThen(g, es1, g1, es2 + es3, Gone(g), x);
    es := es1 + (es2 + es3);
  }

  // ----- an insert in a file taken from the queue -----------------------------------------------------

  /** A new key is logged in file 0 by an open transaction; the log has gone on to file 1. */
  const INSERTING := Store.State(
    map[], map[I.OLD := Store.Record(I.KEY, [1])], I.NEW, map[(I.OLD, Store.Txn(0)) := Store.Write], {}, {0},
    map[(0, I.KEY) := Store.Change(None, I.OLD, false)])

  lemma KeyIsLogged() returns (es: seq<I.Step>)
    ensures I.Leads(I.START, es, I.Fine(INSERTING, map[])) && I.AreWithin(es, {0})
  {
    var e1, e2, e3 :=
      I.Outside(Store.Begin(0)), I.Outside(Store.Insert(0, I.KEY, [1], I.OLD)), I.Outside(Store.Pad(I.NEW));
    var f1 := I.Next(I.START, e1);
    var f2 := I.Next(f1, e2);
    I.LeadsBy(f2, e3, [], I.Fine(INSERTING, map[]));
    I.LeadsBy(f1, e2, [e3], I.Fine(INSERTING, map[]));
    I.LeadsBy(I.START, e1, [e2] + [e3], I.Fine(INSERTING, map[]));
    es := [e1] + ([e2] + [e3]);
  }

  lemma FileIsTaken(g: Gc, x: Excuse) returns (es: seq<Step>)
    requires g.sel == Pipeline.EMPTY
    ensures Leads(g, es, g.(sel := InStage(Pipeline.BeingCleaned)), x)
  {
    var g1, g2 := g.(sel := InStage(Pipeline.ToBeCleaned)), g.(sel := InStage(Pipeline.BeingCleaned));
    assert Next(g, Enqueue(0, None)) == g1 && Next(g1, Dequeue) == g2;
    LeadsBy(g1, Dequeue, [], g2, x);
    LeadsBy(g, Enqueue(0, None), [Dequeue] + [], g2, x);
    es := [Enqueue(0, None)] + ([Dequeue] + []);
  }

  const MISSING := I.Task(I.KEY, I.OLD, NULL_LSN, false)
  const TAKEN := OPENED.(fine := I.Fine(INSERTING, map[]), sel := InStage(Pipeline.BeingCleaned))
  const SCANNING := TAKEN.(passes := map[0 := ONE_LN])
  const MISSED := SCANNING.(fine := I.Fine(INSERTING, map[0 := I.Decided(MISSING, Obsolete, false, false)]))
  const FORGOTTEN := TAKEN.(passes := map[0 := NO_LN])

  lemma FileIsBeingCleaned() returns (es: seq<Step>)
    ensures Leads(START, es, SCANNING, Lookups(0))
  {
    var x, g1 := Lookups(0), OPENED.(fine := I.Fine(INSERTING, map[]));
    assert LnsOf(INSERTING.log, 0) == ONE_LN.todo;
    var es1 := DatabaseIsOpen(x);
    var steps := KeyIsLogged();
    var es2 := LeadsLifts(OPENED, steps, g1.fine, {0}, x);
    var es3 := FileIsTaken(g1, x);
    var es4 := PassBegins(TAKEN, x);
    LeadsThen(g1, es3, TAKEN, es4, SCANNING, x);
    LeadsThen(OPENED, es2, g1, es3 + es4, SCANNING, x);
    LeadsThen(START, es1, OPENED, es2 + (es3 + es4), SCANNING, x);
    es := es1 + (es2 + (es3 + es4));
  }

  /** The lookup finds no slot. */
  lemma SlotIsMissed() returns (es: seq<Step>)
    ensures Leads(SCANNING, es, MISSED, Lookups(0))
  {
    assert Store.HeldBy(INSERTING, 0, I.KEY, I.OLD) && Store.IsRef(INSERTING, I.OLD);
    LeadsBy(SCANNING, Look(0, I.KEY, I.OLD), [], MISSED, Lookups(0));
    es := [Look(0, I.KEY, I.OLD)] + [];
  }

  lemma InsertIsPublished(g: Gc, x: Excuse) returns (es: seq<Step>, g': Gc)
    requires g.fine.store.changes == INSERTING.changes && I.OLD !in g.fine.store.log
    ensures Leads(g, es, g', x) && IsLost(g'.fine.store)
  {
    var publish := Outside(Store.Publish(0, I.KEY, false));
    g' := Next(g, publish);
    LeadsBy(g, publish, [], g', x);
    es := [publish] + [];
  }

  /** A file with an open insert is taken from the queue; the insert makes its slot when the file is gone. */
  lemma QueuedPassLoses() returns (es: seq<Step>, g: Gc)
    ensures Leads(START, es, g, Lookups(0)) && IsLost(g.fine.store)
  {
    var x := Lookups(0);
    var es1 := FileIsBeingCleaned();
    var es2 := SlotIsMissed();
    var es3 := VerdictIsTaken(MISSED, MISSING, x);
    var es4 := FileGoes(FORGOTTEN, x);
    var es5;
    es5, g := InsertIsPublished(Gone(FORGOTTEN), x);
    LeadsThen(FORGOTTEN, es4, Gone(FORGOTTEN), es5, g, x);
    LeadsThen(MISSED, es3, FORGOTTEN, es4 + es5, g, x);
    LeadsThen(SCANNING, es2, MISSED, es3 + (es4 + es5), g, x);
    LeadsThen(START, es1, SCANNING, es2 + (es3 + (es4 + es5)), g, x);
    es := es1 + (es2 + (es3 + (es4 + es5)));
  }

  // ----- a rollback behind a lookup in a file chosen from the profile ----------------------------------

  const CHOSEN := OPENED.(fine := I.Fine(I.UPDATED, map[]), sel := InStage(Pipeline.BeingCleaned), clamped := {0})
  const VISITING := CHOSEN.(passes := map[0 := ONE_LN])
  const LOOKED := VISITING.(fine := I.Fine(I.UPDATED, map[0 := I.Looked(I.MISLED)]))
  const UNDONE := VISITING.(fine := I.Fine(I.RESTORED, map[0 := I.Looked(I.MISLED)]))
  const DECIDED := VISITING.(fine := I.Fine(I.RESTORED, map[0 := I.Decided(I.MISLED, Obsolete, false, false)]))
  const DISMISSED := CHOSEN.(fine := I.Fine(I.RESTORED, map[]), passes := map[0 := NO_LN])

  lemma FileIsChosen(x: Excuse) returns (es: seq<Step>)
    ensures Leads(OPENED.(fine := I.Fine(I.UPDATED, map[])), es, CHOSEN, x)
  {
    var g := OPENED.(fine := I.Fine(I.UPDATED, map[]));
    I.UpdateIsLookedAt();
    assert Next(g, Select(0, None)) == CHOSEN;
    LeadsBy(g, Select(0, None), [], CHOSEN, x);
    es := [Select(0, None)] + [];
  }

  lemma FileIsVisited(x: Excuse) returns (es: seq<Step>)
    ensures Leads(START, es, VISITING, x)
  {
    var g1 := OPENED.(fine := I.Fine(I.UPDATED, map[]));
    assert LnsOf(I.UPDATED.log, 0) == ONE_LN.todo;
    var es1 := DatabaseIsOpen(x);
    var steps := I.UpdateIsOpen();
    var es2 := LeadsLifts(OPENED, steps, g1.fine, {0}, x);
    var es3 := FileIsChosen(x);
    var es4 := PassBegins(CHOSEN, x);
    LeadsThen(g1, es3, CHOSEN, es4, VISITING, x);
    LeadsThen(OPENED, es2, g1, es3 + es4, VISITING, x);
    LeadsThen(START, es1, OPENED, es2 + (es3 + es4), VISITING, x);
    es := es1 + (es2 + (es3 + es4));
  }

  /** The lookup sees the open update. */
  lemma UpdateIsSeen(x: Excuse) returns (es: seq<Step>)
    ensures Leads(VISITING, es, LOOKED, x)
  {
    I.UpdateIsLookedAt();
    LeadsBy(VISITING, Look(0, I.KEY, I.OLD), [], LOOKED, x);
    es := [Look(0, I.KEY, I.OLD)] + [];
  }

  /** The update is rolled back before the lock is taken, and the attempt ends in a mistake. */
  lemma LookupIsMisled(x: Excuse) returns (es: seq<Step>)
    ensures Leads(LOOKED, es, DECIDED, x)
  {
    var steps := I.UpdateIsRolledBack(LOOKED.fine.cleaners);
    var es1 := LeadsLifts(LOOKED, steps, UNDONE.fine, {}, x);
    steps := I.VerdictIsWrong();
    var es2 := LeadsLifts(UNDONE, steps, DECIDED.fine, {}, x);
    LeadsThen(LOOKED, es1, UNDONE, es2, DECIDED, x);
    es := es1 + es2;
  }

  /** A file behind every open transaction is chosen; a rollback between lookup and lock costs it its record. */
  lemma RollbackLoses() returns (es: seq<Step>, g: Gc)
    ensures Leads(START, es, g, Attempt(0, I.MISLED)) && 0 in g.clamped && IsLost(g.fine.store)
  {
    var x := Attempt(0, I.MISLED);
    var es1 := FileIsVisited(x);
    var es2 := UpdateIsSeen(x);
    var es3 := LookupIsMisled(x);
    var es4 := VerdictIsTaken(DECIDED, I.MISLED, x);
    var es5 := FileGoes(DISMISSED, x);
    g := Gone(DISMISSED);
    LeadsThen(DECIDED, es4, DISMISSED, es5, g, x);
    LeadsThen(LOOKED, es3, DECIDED, es4 + es5, g, x);
    LeadsThen(VISITING, es2, LOOKED, es3 + (es4 + es5), g, x);
    LeadsThen(START, es1, VISITING, es2 + (es3 + (es4 + es5)), g, x);
    es := es1 + (es2 + (es3 + (es4 + es5)));
  }
}

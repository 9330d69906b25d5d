/**
 One lookup in the whole system: when the verdict it leads to can be acted on, and what an attempt
 that is not disturbed amounts to.
 */
module Verdicts {
  import opened Lsns
  import opened Migration
  import opened GcSafety
  import opened Continuations
  import Store
  import I = Interleaving
  import Pipeline

  /** A pass has yet to visit the LN, and nothing else it knows keeps the file. */
  predicate ToVisit(g: Gc, k: Key, l: Lsn) {
    && Scanning(g, l.file) && !g.passes[l.file].retain && l !in g.passes[l.file].locked
    && l in g.passes[l.file].todo && g.passes[l.file].todo[l].key == k
  }

  /** A file behind the barrier waits for the LN. */
  predicate ToRetry(g: Gc, k: Key, l: Lsn) {
    Barred(g, l.file) && l in g.sel.pendingLns && g.sel.pendingLns[l].key == k
  }

  /** Acting on a mistaken verdict leaves a reachable record unguarded. */
  lemma MistakeUnguards(g: Gc, c: nat) returns (e: Step)
    requires I.Mistaken(g.fine, c) && I.HasVerdict(g.fine, c)
    requires var t := g.fine.cleaners[c].task; ToVisit(g, t.k, t.logLsn) || ToRetry(g, t.k, t.logLsn)
    ensures CanGo(g, e, Attempt(c, g.fine.cleaners[c].task)) && !RefsGuarded(Next(g, e))
  {
    var t := g.fine.cleaners[c].task;
    e := if ToVisit(g, t.k, t.logLsn) then Judge(t.logLsn.file, c) else Retry(c);
    assert Store.IsRef(Next(g, e).fine.store, t.logLsn) && !Guarded(Next(g, e), t.logLsn);
  }

  /** A lookup that is not safe has a continuation in which its verdict unguards the LN. */
  lemma UnsafeUnguards(g: Gc, c: nat, k: Key, l: Lsn) returns (es: seq<Step>, g': Gc)
    requires GcInv(g) && CanStep(g, Look(c, k, l)) && !I.SafeToLook(g.fine.store, k, l)
    requires ToVisit(g, k, l) || ToRetry(g, k, l)
    ensures Leads(Next(g, Look(c, k, l)), es, g', Attempt(c, I.TaskOf(g.fine.store, k, l))) && !RefsGuarded(g')
  {
    var g1, x := Next(g, Look(c, k, l)), Attempt(c, I.TaskOf(g.fine.store, k, l));
    var steps, fine := I.UnsafeMisleads(g.fine, c, k, l);
    es := LeadsLifts(g1, steps, fine, {}, x);
    var g2 := g1.(fine := fine);
    if fine.cleaners[c].held {
      I.ReleasedIsMistaken(fine, c);
      LeadsBy(g2, Advance(c, I.CALM), [], Next(g2, Advance(c, I.CALM)), x);
      LeadsThen(g1, es, g2, [Advance(c, I.CALM)] + [], Next(g2, Advance(c, I.CALM)), x);
      es := es + ([Advance(c, I.CALM)] + []);
      g2 := Next(g2, Advance(c, I.CALM));
    }
    var e := MistakeUnguards(g2, c);
    g' := Next(g2, e);
    LeadsBy(g2, e, [], g', x);
    LeadsThen(g1, es, g2, [e] + [], g', x);
    es := es + ([e] + []);
  }

  /** A safe lookup needs no excuse. */
  lemma {:induction false} SafeKeepsInv(g: Gc, es: seq<Step>, g': Gc, c: nat, task: I.Task)
    requires GcInv(g) && I.SafeLookup(task) && Leads(g, es, g', Attempt(c, task))
    ensures GcInv(g')
    decreases |es|
  {
    if es == [] {
    } else {
      StepKeepsGcInv(g, es[0]);
      SafeKeepsInv(Next(g, es[0]), es[1..], g', c, task);
    }
  }

  lemma SafeStaysGuarded(g: Gc, c: nat, task: I.Task)
    requires GcInv(g) && I.SafeLookup(task)
    ensures StaysGuarded(g, Attempt(c, task))
  {
    forall es, g' | Leads(g, es, g', Attempt(c, task))
      ensures RefsGuarded(g')
    {
      SafeKeepsInv(g, es, g', c, task);
    }
  }

  /**
   Whatever is done with the verdict of a lookup, every reachable record stays guarded, exactly when
   the lookup finds the slot at the LN, or no open transaction has the LN as its before-image or its
   newest image of the key.
   */
  lemma LookupIff(g: Gc, c: nat, k: Key, l: Lsn)
    requires GcInv(g) && CanStep(g, Look(c, k, l)) && (ToVisit(g, k, l) || ToRetry(g, k, l))
    ensures StaysGuarded(Next(g, Look(c, k, l)), Attempt(c, I.TaskOf(g.fine.store, k, l))) <==>
            I.SafeToLook(g.fine.store, k, l)
  {
    var s, task := g.fine.store, I.TaskOf(g.fine.store, k, l);
    I.SafeToLookIsSafe(s, k, l);
    if I.SafeToLook(s, k, l) {
      assert forall t: nat :: (t, k) in s.changes && s.changes[(t, k)].newest == l ==> Store.HeldBy(s, t, k, l);
      StepKeepsGcInv(g, Look(c, k, l));
      SafeStaysGuarded(Next(g, Look(c, k, l)), c, task);
    } else {
      var es, g' := UnsafeUnguards(g, c, k, l);
      assert !StaysGuarded(Next(g, Look(c, k, l)), Attempt(c, task));
    }
  }

  /** In a file chosen from the profile it is before-images alone that make a lookup unsafe. */
  lemma ClampedLookupIff(g: Gc, c: nat, k: Key, l: Lsn)
    requires GcInv(g) && CanStep(g, Look(c, k, l)) && (ToVisit(g, k, l) || ToRetry(g, k, l)) && l.file in g.clamped
    ensures StaysGuarded(Next(g, Look(c, k, l)), Attempt(c, I.TaskOf(g.fine.store, k, l))) <==>
            (k in g.fine.store.slots && g.fine.store.slots[k].lsn == l) || !I.IsBeforeImage(g.fine.store, k, l)
  {
    LookupIff(g, c, k, l);
    I.PastHoldsBeforeImages(g.fine.store, k, l);
  }

  // ----- an attempt that is not disturbed ---------------------------------------------------------------

  lemma {:induction false} AloneIsUndisturbed(fine: I.Fine, c: nat, faults: Faults, n: nat)
    requires OneAtATime(fine)
    ensures OneAtATime(I.Alone(fine, c, faults, n))
    decreases n
  {
    if n == 0 || c !in fine.cleaners || I.HasVerdict(fine, c) {
    } else {
      var faults' := if fine.cleaners[c].Decided? then I.CALM else faults;
      AdvanceIsUndisturbed(fine, c, faults');
      AloneIsUndisturbed(I.Advanced(fine, c, faults'), c, faults, n - 1);
    }
  }

  /** Lookup and the steps after it end in the store and the verdict of `CleanLn`. */
  lemma AloneCleansLn(g: Gc, c: nat, k: Key, l: Lsn, faults: Faults)
    requires GcInv(g) && g.fine.cleaners == map[] && CanStep(g, Look(c, k, l)) && !faults.lookup
    requires forall p :: p in g.fine.store.owners || p in g.fine.store.waiters ==> p.1 != Store.Cleaner(c)
    ensures var fine := I.Alone(I.Next(g.fine, I.Look(c, k, l)), c, faults, 5);
            var (s', fate) := CleanLn(g.fine.store, g.cat, k, l, faults);
            && I.HasVerdict(fine, c) && fine.store == s' && fine.cleaners.Keys == {c} && OneAtATime(fine)
            && fine.cleaners[c].task.logLsn == l && FateOfVerdict(fine.cleaners[c].outcome) == fate
  {
    var f1 := I.Next(g.fine, I.Look(c, k, l));
    assert f1.cleaners.Keys == {c};
    AloneIsUndisturbed(f1, c, faults, 5);
    if k in g.fine.store.slots {
      assert Store.SlotOk(g.fine.store, k);
      I.UninterruptedIsAtomic(g.fine, g.cat, c, k, l, faults);
    }
  }

  /** The LN is wanted, nothing else is being tried, and the attempt has a place to move the record to. */
  ghost predicate CanTry(g: Gc, c: nat, k: Key, l: Lsn, faults: Faults) {
    && GcInv(g) && g.fine.cleaners == map[] && CanStep(g, Look(c, k, l)) && Heeds(g, Look(c, k, l))
    && !faults.lookup && (faults.newLsn.Some? ==> Store.Fresh(g.fine.store, faults.newLsn.value))
    && (forall p :: p in g.fine.store.owners || p in g.fine.store.waiters ==> p.1 != Store.Cleaner(c))
  }

  lemma ReachesVerdict(g: Gc, c: nat, k: Key, l: Lsn, faults: Faults, x: Excuse) returns (es: seq<Step>, g': Gc)
    requires CanTry(g, c, k, l, faults)
    ensures Leads(g, es, g', x) && g' == g.(fine := g'.fine) && I.HasVerdict(g'.fine, c)
    ensures VerdictHolds(g'.fine.cleaners[c]) && g'.fine.cleaners.Keys == {c} && g'.fine.cleaners[c].task.logLsn == l
    ensures var (s', fate) := CleanLn(g.fine.store, g.cat, k, l, faults);
            g'.fine.store == s' && FateOfVerdict(g'.fine.cleaners[c].outcome) == fate
  {
    var look := Look(c, k, l);
    var g1 := Next(g, look);
    var fine := I.Alone(g1.fine, c, faults, 5);
    AloneCleansLn(g, c, k, l, faults);
    var steps := I.AloneLeads(g1.fine, c, faults, 5);
    var more := LeadsLifts(g1, steps, fine, {}, x);
    g' := g1.(fine := fine);
    es := [look] + more;
    LeadsBy(g, look, more, g', x);
  }

  lemma OneMoreStep(g: Gc, es: seq<Step>, g1: Gc, e: Step, x: Excuse)
    requires Leads(g, es, g1, x) && CanStep(g1, e) && Heeds(g1, e)
    ensures Leads(g, es + ([e] + []), Next(g1, e), x)
  {
    LeadsBy(g1, e, [], Next(g1, e), x);
    LeadsThen(g, es, g1, [e] + [], Next(g1, e), x);
  }

  /** An attempt on an LN of a pass, run without interruption, is one visit with the fate `CleanLn` gives. */
  lemma AtomicVisit(g: Gc, c: nat, k: Key, l: Lsn, faults: Faults, x: Excuse) returns (es: seq<Step>, g': Gc)
    requires CanTry(g, c, k, l, faults) && Scanning(g, l.file) && l in g.passes[l.file].todo
    ensures Leads(g, es, g', x)
    ensures var (s', fate) := CleanLn(g.fine.store, g.cat, k, l, faults);
            g' == WithStore(g, s').(passes := g.passes[l.file := Visited(g.passes[l.file], l, fate)])
  {
    var es1, g1 := ReachesVerdict(g, c, k, l, faults, x);
    es, g' := es1 + ([Judge(l.file, c)] + []), Next(g1, Judge(l.file, c));
    assert g1.fine.cleaners - {c} == map[];
    OneMoreStep(g, es1, g1, Judge(l.file, c), x);
  }

  /**
   An attempt on a pending LN, run without interruption, is one retry with the fate `CleanLn` gives: the LN stays
   pending exactly when the fate is `Pending`, and every other LN as it was.
   */
  lemma AtomicRetry(g: Gc, c: nat, k: Key, l: Lsn, faults: Faults, x: Excuse) returns (es: seq<Step>, g': Gc)
    requires CanTry(g, c, k, l, faults) && l in g.sel.pendingLns
    ensures Leads(g, es, g', x)
    ensures var (s', fate) := CleanLn(g.fine.store, g.cat, k, l, faults);
            && g' == WithStore(g, s').(sel := if fate == Pending then g.sel else Pipeline.RemovePendingLn(g.sel, l))
            && (l in g'.sel.pendingLns <==> fate == Pending)
            && (forall m :: m != l ==> (m in g'.sel.pendingLns <==> m in g.sel.pendingLns))
  {
    var es1, g1 := ReachesVerdict(g, c, k, l, faults, x);
    es, g' := es1 + ([Retry(c)] + []), Next(g1, Retry(c));
    assert g1.fine.cleaners - {c} == map[];
    OneMoreStep(g, es1, g1, Retry(c), x);
  }
}

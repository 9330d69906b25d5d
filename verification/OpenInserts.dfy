/** Files taken from the queue skip the first-active-transaction clamp: when exactly that is harmless. */
module OpenInserts {
  import opened Lsns
  import opened Migration
  import opened GcSafety
  import opened Continuations
  import Store
  import I = Interleaving
  import Pipeline

  /** Some open transaction has logged a new key into `f` and not made its slot yet. */
  ghost predicate OpenInsertIn(s: Store.State, f: FileNum) {
    exists t, k :: (t, k) in s.changes && k !in s.slots && s.changes[(t, k)].newest.file == f
  }

  lemma OutsideOpensNoInsert(s: Store.State, op: Store.Op, f: FileNum)
    requires Store.OneWriter(s) && Store.Enabled(s, op) && f < s.last.file && !OpenInsertIn(s, f)
    ensures !OpenInsertIn(Store.Apply(s, op), f)
  {
    var s' := Store.Apply(s, op);
    forall t: nat, k | (t, k) in s'.changes && k !in s'.slots
      ensures s'.changes[(t, k)].newest.file != f
    {
      if !(op.Insert? && k == op.k && t == op.t) {
        assert (t, k) in s.changes && k !in s.slots;
      }
    }
  }

  /** A closed file without open inserts never gets one. */
  lemma StepOpensNoInsert(g: Gc, e: Step, f: FileNum)
    requires GcInv(g) && CanStep(g, e) && f < g.fine.store.last.file && !OpenInsertIn(g.fine.store, f)
    ensures f < Next(g, e).fine.store.last.file && !OpenInsertIn(Next(g, e).fine.store, f)
  {
    var s, s' := g.fine.store, Next(g, e).fine.store;
    if e.Outside? {
      OutsideOpensNoInsert(s, e.op, f);
      Store.StepGrows(s, e.op);
    } else {
      if e.Advance? {
        I.AdvanceGrows(g.fine, e.c, e.faults);
      }
      forall t: nat, k | (t, k) in s'.changes && k !in s'.slots
        ensures s'.changes[(t, k)].newest.file != f
      {
        assert (t, k) in s.changes && k !in s.slots;
      }
    }
  }

  lemma {:induction false} LeadsKeepsInv(g: Gc, es: seq<Step>, g': Gc, f: FileNum)
    requires GcInv(g) && f < g.fine.store.last.file && !OpenInsertIn(g.fine.store, f) && Leads(g, es, g', Lookups(f))
    ensures GcInv(g')
    decreases |es|
  {
    if es == [] {
    } else {
      StepOpensNoInsert(g, es[0], f);
      StepKeepsGcInv(g, es[0]);
      LeadsKeepsInv(Next(g, es[0]), es[1..], g', f);
    }
  }

  lemma {:induction false} FreshId(ids: set<nat>) returns (c: nat)
    ensures forall x :: x in ids ==> x < c
  {
    if ids == {} {
      c := 0;
    } else {
      var x :| x in ids;
      var rest := FreshId(ids - {x});
      c := if rest > x then rest else x + 1;
      assert forall y :: y in ids ==> y == x || y in ids - {x};
    }
  }

  /** A pass that has yet to visit an open insert, of a registered database, forgets it. */
  lemma LookupForgets(g: Gc, c: nat, k: Key, l: Lsn) returns (g': Gc)
    requires Scanning(g, l.file) && l in g.passes[l.file].todo && g.passes[l.file].todo[l].key == k
    requires c !in g.fine.cleaners && k.db in g.cat.registered && k !in g.fine.store.slots
    requires I.Owned(g.fine.store, l, k) && Store.IsRef(g.fine.store, l)
    requires !g.passes[l.file].retain && l !in g.passes[l.file].locked
    ensures Leads(g, [Look(c, k, l)] + [Judge(l.file, c)], g', Lookups(l.file)) && !RefsGuarded(g')
  {
    var g1 := Next(g, Look(c, k, l));
    g' := Next(g1, Judge(l.file, c));
    assert Store.IsRef(g'.fine.store, l) && !Guarded(g', l);
    LeadsBy(g1, Judge(l.file, c), [], g', Lookups(l.file));
    LeadsBy(g, Look(c, k, l), [Judge(l.file, c)], g', Lookups(l.file));
  }

  lemma OpenInsertIsForgotten(g: Gc, f: FileNum, t: nat, k: Key) returns (es: seq<Step>, g': Gc)
    requires GcInv(g) && CanStep(g, BeginPass(f))
    requires (t, k) in g.fine.store.changes && k !in g.fine.store.slots && g.fine.store.changes[(t, k)].newest.file == f
    ensures Leads(Next(g, BeginPass(f)), es, g', Lookups(f)) && !RefsGuarded(g')
  {
    var s, l := g.fine.store, g.fine.store.changes[(t, k)].newest;
    assert Store.ChangeOk(s, t, k) && Store.HeldBy(s, t, k, l);
    var c := FreshId(g.fine.cleaners.Keys);
    var g1 := Next(g, BeginPass(f));
    g' := LookupForgets(Next(g1, OpenDb(k.db)), c, k, l);
    es := [OpenDb(k.db)] + ([Look(c, k, l)] + [Judge(f, c)]);
    LeadsBy(g1, OpenDb(k.db), [Look(c, k, l)] + [Judge(f, c)], g', Lookups(f));
  }

  /**
   A pass begun on a file taken from the queue keeps every reachable record guarded, whatever its
   lookups meet and as long as verdicts about slots that were found are right, exactly when no open
   transaction has an insert in that file whose slot does not exist yet.
   */
  lemma QueuedPassIff(g: Gc, f: FileNum)
    requires GcInv(g) && CanStep(g, BeginPass(f))
    ensures StaysGuarded(Next(g, BeginPass(f)), Lookups(f)) <==> !OpenInsertIn(g.fine.store, f)
  {
    if OpenInsertIn(g.fine.store, f) {
      var t: nat, k :| (t, k) in g.fine.store.changes && k !in g.fine.store.slots &&
                       g.fine.store.changes[(t, k)].newest.file == f;
      var es, g' := OpenInsertIsForgotten(g, f, t, k);
      assert !StaysGuarded(Next(g, BeginPass(f)), Lookups(f));
    } else {
      PassStepKeepsInv(g, BeginPass(f));
      NoInsertStaysGuarded(Next(g, BeginPass(f)), f);
    }
  }

  lemma NoInsertStaysGuarded(g: Gc, f: FileNum)
    requires GcInv(g) && f < g.fine.store.last.file && !OpenInsertIn(g.fine.store, f)
    ensures StaysGuarded(g, Lookups(f))
  {
    forall es, g' | Leads(g, es, g', Lookups(f))
      ensures RefsGuarded(g')
    {
      LeadsKeepsInv(g, es, g', f);
    }
  }
}

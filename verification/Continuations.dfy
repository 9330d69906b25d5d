/** How the whole system may go on from a state, when some steps are excused from what a run must heed. */
module Continuations {
  import opened Lsns
  import opened Migration
  import opened GcSafety
  import I = Interleaving

  /** Lookups about one file, or the verdict of one attempt. */
  datatype Excuse =
    | Lookups(f: FileNum)
    | Attempt(c: nat, task: I.Task)

  predicate IsExcused(g: Gc, e: Step, x: Excuse) {
    match x
    case Lookups(f) => e.Look? && e.l.file == f
    case Attempt(c, task) =>
      (e.Judge? || e.Retry?) && e.c == c && c in g.fine.cleaners && g.fine.cleaners[c].task == task
  }

  ghost predicate CanGo(g: Gc, e: Step, x: Excuse) {
    CanStep(g, e) && (Heeds(g, e) || IsExcused(g, e, x))
  }

  /** The steps `es` lead from `g` to `g'`. */
  ghost predicate Leads(g: Gc, es: seq<Step>, g': Gc, x: Excuse)
    decreases |es|
  {
    if es == [] then g' == g else CanGo(g, es[0], x) && Leads(Next(g, es[0]), es[1..], g', x)
  }

  lemma LeadsBy(g: Gc, e: Step, es: seq<Step>, g': Gc, x: Excuse)
    requires CanGo(g, e, x) && Leads(Next(g, e), es, g', x)
    ensures Leads(g, [e] + es, g', x)
  {
    assert ([e] + es)[1..] == es;
  }

  lemma {:induction false} LeadsThen(g: Gc, es1: seq<Step>, g1: Gc, es2: seq<Step>, g2: Gc, x: Excuse)
    requires Leads(g, es1, g1, x) && Leads(g1, es2, g2, x)
    ensures Leads(g, es1 + es2, g2, x)
    decreases |es1|
  {
    if es1 == [] {
      assert es1 + es2 == es2;
    } else {
      LeadsThen(Next(g, es1[0]), es1[1..], g1, es2, g2, x);
      assert (es1 + es2)[1..] == es1[1..] + es2;
    }
  }

  /** However it goes on, every reachable record stays guarded. */
  ghost predicate StaysGuarded(g: Gc, x: Excuse) {
    forall es, g' :: Leads(g, es, g', x) ==> RefsGuarded(g')
  }

  // ----- steps of the store and the attempts, as steps of the whole system ----------------------------

  function Lifted(e: I.Step): Step
    requires !e.Look?
  {
    match e
    case Outside(op) => Outside(op)
    case Advance(c, faults) => Advance(c, faults)
  }

  lemma {:induction false} LeadsLifts(g: Gc, es: seq<I.Step>, fine: I.Fine, dbs: set<int>, x: Excuse)
    returns (more: seq<Step>)
    requires I.Leads(g.fine, es, fine) && I.AreWithin(es, dbs) && dbs <= g.cat.live
    ensures Leads(g, more, g.(fine := fine), x)
    decreases |es|
  {
    if es == [] {
      more := [];
    } else {
      var e := Lifted(es[0]);
      var rest := LeadsLifts(g.(fine := I.Next(g.fine, es[0])), es[1..], fine, dbs, x);
      more := [e] + rest;
      LeadsBy(g, e, rest, g.(fine := fine), x);
    }
  }
}

/**
 The scan of a file and the pass of the collector are the same thing: what `FullScan` computes from
 the answers to one question per LN is what a pass leaves behind whose lookups, locks and moves ran
 interleaved with everything else.
 */
module ScanPass {
  import opened Lsns
  import opened Sorting
  import opened Files
  import opened Migration
  import opened GcSafety
  import Store
  import I = Interleaving
  import S = FileScan

  /** What step `e` decides about an LN of the pass over `f`. */
  function Decision(g: Gc, e: Step, f: FileNum): Option<(Lsn, Fate)> {
    match e
    case SkipObsolete(f', l) => if f' == f then Some((l, Dead)) else None
    case Undecided(f', l, retain) => if f' == f then Some((l, if retain then Retained else Pending)) else None
    case Judge(f', c) =>
      if f' == f && I.HasVerdict(g.fine, c)
      then Some((g.fine.cleaners[c].task.logLsn, FateOfVerdict(g.fine.cleaners[c].outcome)))
      else None
    case _ => None
  }

  function Noted(fates: map<Lsn, Fate>, d: Option<(Lsn, Fate)>): map<Lsn, Fate> {
    match d
    case Some((l, fate)) => fates[l := fate]
    case None => fates
  }

  /** The fates decided by the steps after step `start`, before step `n`. */
  function Fates(gs: seq<Gc>, es: seq<Step>, f: FileNum, start: nat, n: nat): map<Lsn, Fate>
    requires start < n <= |es| < |gs|
    decreases n
  {
    if n == start + 1 then map[] else Noted(Fates(gs, es, f, start, n - 1), Decision(gs[n - 1], es[n - 1], f))
  }

  /** One of those steps asked for the file to be kept. */
  predicate Asked(es: seq<Step>, f: FileNum, start: nat, n: nat)
    requires start < n <= |es|
    decreases n
  {
    n > start + 1 && (Asked(es, f, start, n - 1) || es[n - 1] == RetainFile(f))
  }

  /** Step `i` is taken and does not end the pass over `f`. */
  ghost predicate GoesOn(gs: seq<Gc>, es: seq<Step>, f: FileNum, i: nat) {
    && i < |es| < |gs| && CanStep(gs[i], es[i]) && gs[i + 1] == Next(gs[i], es[i])
    && es[i] != Record(f) && es[i] != PutBack(f)
  }

  /** Step `start` begins a pass over `f`, and no step before `n` ends it. */
  ghost predicate IsPass(gs: seq<Gc>, es: seq<Step>, f: FileNum, start: nat, n: nat) {
    && start < n <= |es| < |gs| && es[start] == BeginPass(f)
    && (forall i :: start <= i < n ==> GoesOn(gs, es, f, i))
  }

  /** What the pass over the LNs `all` knows of `l` is what these fates leave. */
  predicate LnStands(p: Pass, all: map<Lsn, LnInfo>, fates: map<Lsn, Fate>, l: Lsn) {
    && (l in fates ==> l in all)
    && (l in p.todo <==> l in all && l !in fates)
    && (l in p.todo ==> p.todo[l] == all[l])
    && (l in p.locked <==> l in fates && fates[l].Pending?)
    && (l in p.locked ==> l in all && p.locked[l] == all[l])
  }

  ghost predicate SomeRetained(fates: map<Lsn, Fate>) {
    exists l :: l in fates && fates[l].Retained?
  }

  ghost predicate Remembers(p: Pass, all: map<Lsn, LnInfo>, fates: map<Lsn, Fate>, asked: bool) {
    && (forall l :: LnStands(p, all, fates, l))
    && (p.retain <==> asked || SomeRetained(fates))
  }

  lemma VisitedRemembers(p: Pass, all: map<Lsn, LnInfo>, fates: map<Lsn, Fate>, asked: bool, l: Lsn, fate: Fate)
    requires Remembers(p, all, fates, asked) && l in p.todo
    ensures Remembers(Visited(p, l, fate), all, fates[l := fate], asked)
  {
    var p', fates' := Visited(p, l, fate), fates[l := fate];
    assert LnStands(p, all, fates, l);
    forall m
      ensures LnStands(p', all, fates', m)
    {
      assert LnStands(p, all, fates, m);
    }
    assert forall m :: m in fates ==> m in fates' && fates'[m] == fates[m];
    assert fates'[l] == fate;
  }

  lemma DecisionIsVisit(g: Gc, e: Step, f: FileNum)
    requires CanStep(g, e) && Scanning(g, f) && Decision(g, e, f).Some?
    ensures var p, d := g.passes[f], Decision(g, e, f).value;
            && d.0 in p.todo && Scanning(Next(g, e), f) && Next(g, e).passes[f] == Visited(p, d.0, d.1)
  {
  }

  predicate IsOfPass(e: Step) {
    || e.BeginPass? || e.SkipObsolete? || e.Undecided? || e.Judge? || e.RetainFile?
    || e.Record? || e.Finish? || e.Drop? || e.PutBack?
  }

  lemma PassesStay(g: Gc, e: Step)
    requires CanStep(g, e) && !IsOfPass(e)
    ensures Next(g, e).passes == g.passes
  {
  }

  lemma OtherPassStays(g: Gc, e: Step, f: FileNum)
    requires CanStep(g, e) && IsOfPass(e) && e.f != f && f in g.passes
    ensures f in Next(g, e).passes && Next(g, e).passes[f] == g.passes[f]
  {
  }

  /** Besides its visits, only a request to keep the file and its end touch a pass. */
  lemma OthersLeavePass(g: Gc, e: Step, f: FileNum)
    requires CanStep(g, e) && Scanning(g, f) && Decision(g, e, f).None? && e != Record(f) && e != PutBack(f)
    ensures Scanning(Next(g, e), f)
    ensures var p := g.passes[f]; Next(g, e).passes[f] == if e == RetainFile(f) then p.(retain := true) else p
  {
    if !IsOfPass(e) {
      PassesStay(g, e);
    } else if e.f != f {
      OtherPassStays(g, e, f);
    } else {
      assert e == RetainFile(f);
    }
  }

  ghost predicate PassStands(
    g: Gc, f: FileNum, all: map<Lsn, LnInfo>, fates: map<Lsn, Fate>, asked: bool)
  {
    Scanning(g, f) && Remembers(g.passes[f], all, fates, asked)
  }

  lemma BeginRemembers(g: Gc, f: FileNum)
    requires CanStep(g, BeginPass(f))
    ensures PassStands(Next(g, BeginPass(f)), f, LnsOf(g.fine.store.log, f), map[], false)
  {
  }

  lemma StepRemembers(g: Gc, e: Step, f: FileNum, all: map<Lsn, LnInfo>, fates: map<Lsn, Fate>, asked: bool)
    requires CanStep(g, e) && PassStands(g, f, all, fates, asked) && e != Record(f) && e != PutBack(f)
    ensures PassStands(Next(g, e), f, all, Noted(fates, Decision(g, e, f)), asked || e == RetainFile(f))
  {
    var p, d := g.passes[f], Decision(g, e, f);
    if d.Some? {
      DecisionIsVisit(g, e, f);
      VisitedRemembers(p, all, fates, asked, d.value.0, d.value.1);
    } else {
      OthersLeavePass(g, e, f);
      assert forall l :: LnStands(p, all, fates, l) ==> LnStands(p.(retain := true), all, fates, l);
    }
  }

  lemma PassBegins(gs: seq<Gc>, es: seq<Step>, f: FileNum, start: nat)
    requires IsPass(gs, es, f, start, start + 1)
    ensures PassStands(gs[start + 1], f, LnsOf(gs[start].fine.store.log, f), map[], false)
  {
    assert GoesOn(gs, es, f, start);
    BeginRemembers(gs[start], f);
  }

  lemma PassGoesOn(
    gs: seq<Gc>, es: seq<Step>, f: FileNum, n: nat, all: map<Lsn, LnInfo>, fates: map<Lsn, Fate>, asked: bool)
    requires GoesOn(gs, es, f, n) && PassStands(gs[n], f, all, fates, asked)
    ensures PassStands(gs[n + 1], f, all, Noted(fates, Decision(gs[n], es[n], f)), asked || es[n] == RetainFile(f))
  {
    StepRemembers(gs[n], es[n], f, all, fates, asked);
  }

  lemma {:induction false} PassRemembers(gs: seq<Gc>, es: seq<Step>, f: FileNum, start: nat, n: nat)
    requires IsPass(gs, es, f, start, n)
    ensures PassStands(
              gs[n], f, LnsOf(gs[start].fine.store.log, f), Fates(gs, es, f, start, n), Asked(es, f, start, n))
    decreases n
  {
    if n == start + 1 {
      PassBegins(gs, es, f, start);
    } else {
      PassRemembers(gs, es, f, start, n - 1);
      PassGoesOn(gs, es, f, n - 1, LnsOf(gs[start].fine.store.log, f),
                 Fates(gs, es, f, start, n - 1), Asked(es, f, start, n - 1));
    }
  }

  /** The entries of a file hold its LNs, each once. */
  ghost predicate Lists(entries: seq<S.Entry>, f: FileNum, all: map<Lsn, LnInfo>) {
    && (forall l :: l in all ==> exists i :: 0 <= i < |entries| && IsEntryOf(entries[i], f, l))
    && (forall i :: 0 <= i < |entries| && entries[i].Ln? ==>
          Lsn(f, entries[i].offset) in all && all[Lsn(f, entries[i].offset)].key == entries[i].key)
  }

  predicate IsEntryOf(e: S.Entry, f: FileNum, l: Lsn) {
    e.Ln? && l == Lsn(f, e.offset)
  }

  /** Every LN got its fate: the one the answers give if it was looked up, and none but `Dead` if it was not. */
  ghost predicate Tells(
    a: S.Answers, entries: seq<S.Entry>, obsolete: set<u32>, f: FileNum, fates: map<Lsn, Fate>)
  {
    forall i :: 0 <= i < |entries| && entries[i].Ln? ==>
      var l := Lsn(f, entries[i].offset);
      l in fates && fates[l] == if S.IsLive(entries[i], obsolete) then S.FateAt(a, entries[i].offset) else Dead
  }

  /** The scan's result lists `l` among the LNs it found locked. */
  ghost predicate Reports(r: S.Result, l: Lsn) {
    exists info: LnInfo :: (l, info) in r.lns.lockedLns
  }

  /** The LNs the scan reports are those whose fate is to wait, under the key the log has for them. */
  lemma ReportsIff(
    f: FileNum, entries: seq<S.Entry>, obsolete: set<u32>, a: S.Answers, all: map<Lsn, LnInfo>, fates: map<Lsn, Fate>,
    l: Lsn)
    requires Lists(entries, f, all) && Tells(a, entries, obsolete, f, fates) && (l in fates ==> l in all)
    ensures Reports(S.FullScan(f, entries, obsolete, a), l) <==> l in fates && fates[l].Pending?
    ensures forall info ::
              (l, info) in S.FullScan(f, entries, obsolete, a).lns.lockedLns ==> l in all && info.key == all[l].key
  {
    var r := S.FullScan(f, entries, obsolete, a);
    forall info: LnInfo | (l, info) in r.lns.lockedLns
      ensures l in all && info.key == all[l].key && l in fates && fates[l].Pending?
    {
      S.LockedIff(f, entries, obsolete, a, l, info);
      var i :| 0 <= i < |entries| && S.IsListed(l, info, f, entries[i], obsolete, a);
      S.FateIff(a, entries[i].offset);
    }
    if l in fates && fates[l].Pending? {
      var i :| 0 <= i < |entries| && IsEntryOf(entries[i], f, l);
      var info := S.Described(f, entries[i]);
      S.FateIff(a, entries[i].offset);
      assert S.IsListed(l, info, f, entries[i], obsolete, a);
      S.LockedIff(f, entries, obsolete, a, l, info);
    }
  }

  /** An LN makes the scan keep the file exactly when a fate says so. */
  lemma RetainsIff(
    f: FileNum, entries: seq<S.Entry>, obsolete: set<u32>, a: S.Answers, all: map<Lsn, LnInfo>, fates: map<Lsn, Fate>)
    requires Lists(entries, f, all) && Tells(a, entries, obsolete, f, fates) && forall l :: l in fates ==> l in all
    ensures var lns := S.Live(f, entries, obsolete, |entries|);
            S.LnRetains(lns, a, |lns|) <==> SomeRetained(fates)
  {
    var lns := S.Live(f, entries, obsolete, |entries|);
    S.LnRetainsIff(lns, a, |lns|);
    if S.LnRetains(lns, a, |lns|) {
      var j :| 0 <= j < |lns| && S.FateAt(a, lns[j].lsn.offset).Retained?;
      S.LiveIff(f, entries, obsolete, |entries|, lns[j]);
    }
    if SomeRetained(fates) {
      var l :| l in fates && fates[l].Retained?;
      var i :| 0 <= i < |entries| && IsEntryOf(entries[i], f, l);
      assert S.Describes(S.Described(f, entries[i]), f, entries[i]);
      S.LiveIff(f, entries, obsolete, |entries|, S.Described(f, entries[i]));
    }
  }

  /** The scan asked about each LN of the file what the pass decided, and saw its requests to keep the file. */
  ghost predicate Mirrors(
    gs: seq<Gc>, es: seq<Step>, f: FileNum, start: nat, n: nat, entries: seq<S.Entry>, obsolete: set<u32>, a: S.Answers)
  {
    && IsPass(gs, es, f, start, n)
    && Lists(entries, f, LnsOf(gs[start].fine.store.log, f))
    && Tells(a, entries, obsolete, f, Fates(gs, es, f, start, n))
    && (Asked(es, f, start, n) <==> S.NodeRetains(entries, a, |entries|))
  }

  /**
   What the scan computes is what the pass holds: nothing left to visit, the same retain flag, and the same
   locked LNs under the same keys.
   */
  lemma ScanIsPass(
    gs: seq<Gc>, es: seq<Step>, f: FileNum, start: nat, n: nat, entries: seq<S.Entry>, obsolete: set<u32>, a: S.Answers)
    requires Mirrors(gs, es, f, start, n, entries, obsolete, a)
    ensures Scanning(gs[n], f)
    ensures var p, r := gs[n].passes[f], S.FullScan(f, entries, obsolete, a);
            && p.todo == map[] && (p.retain <==> r.retain) && (forall l :: l in p.locked <==> Reports(r, l))
            && forall l, info :: (l, info) in r.lns.lockedLns ==> l in p.locked && p.locked[l].key == info.key
  {
    var all, fates := LnsOf(gs[start].fine.store.log, f), Fates(gs, es, f, start, n);
    PassRemembers(gs, es, f, start, n);
    var p := gs[n].passes[f];
    assert forall l :: l in fates ==> LnStands(p, all, fates, l);
    RetainsIff(f, entries, obsolete, a, all, fates);
    forall l
      ensures l !in p.todo && (l in p.locked <==> Reports(S.FullScan(f, entries, obsolete, a), l))
      ensures forall info :: (l, info) in S.FullScan(f, entries, obsolete, a).lns.lockedLns ==>
                l in p.locked && p.locked[l].key == info.key
    {
      assert LnStands(p, all, fates, l);
      ReportsIff(f, entries, obsolete, a, all, fates, l);
    }
  }

  lemma RecordedPass(g: Gc, f: FileNum)
    requires Scanning(g, f) && g.passes[f].todo == map[]
    ensures CanStep(g, Record(f))
    ensures var p, g' := g.passes[f], Next(g, Record(f));
            && (CanStep(g', Finish(f)) <==> !p.retain) && (CanStep(g', Drop(f)) <==> p.retain)
            && forall l :: l in p.locked ==> l in g'.sel.pendingLns && g'.sel.pendingLns[l] == p.locked[l]
  {
  }

  /** Once its locked LNs are recorded, a file may be marked cleaned exactly when the scan says completed. */
  lemma CompletedIff(
    gs: seq<Gc>, es: seq<Step>, f: FileNum, start: nat, n: nat, entries: seq<S.Entry>, obsolete: set<u32>, a: S.Answers)
    requires Mirrors(gs, es, f, start, n, entries, obsolete, a)
    ensures CanStep(gs[n], Record(f))
    ensures var g, r := Next(gs[n], Record(f)), S.FullScan(f, entries, obsolete, a);
            && (CanStep(g, Finish(f)) <==> r.completed) && (CanStep(g, Drop(f)) <==> !r.completed)
            && forall l, info :: (l, info) in r.lns.lockedLns ==>
                 l in g.sel.pendingLns && g.sel.pendingLns[l].key == info.key
  {
    ScanIsPass(gs, es, f, start, n, entries, obsolete, a);
    RecordedPass(gs[n], f);
  }

  /** After a completed scan, whatever can still be reached in the file is among the LNs the scan reports. */
  lemma ReachableIsReported(
    gs: seq<Gc>, es: seq<Step>, f: FileNum, start: nat, n: nat, entries: seq<S.Entry>, obsolete: set<u32>, a: S.Answers,
    l: Lsn)
    requires IsRun(gs, es) && Mirrors(gs, es, f, start, n, entries, obsolete, a)
    requires Store.IsRef(gs[n].fine.store, l) && l.file == f
    ensures var r := S.FullScan(f, entries, obsolete, a); r.completed ==> Reports(r, l)
  {
    RunKeepsGcInv(gs, es, n);
    assert Guarded(gs[n], l);
    ScanIsPass(gs, es, f, start, n, entries, obsolete, a);
  }

  // ----- every finished pass is a scan -------------------------------------------------------------------

  /** Answers from which the given fate follows. */
  function AnswerFor(fate: Fate): BinLookup {
    match fate
    case Dead => NotFound
    case Kept => Found(Lsn(0, 0))
    case Pending => FetchFailed
    case Retained => LiveUnresolved
  }

  function AnswersOf(f: FileNum, fates: map<Lsn, Fate>): S.Answers {
    S.Answers(
      (o: u32) => if Lsn(f, o) in fates then AnswerFor(fates[Lsn(f, o)]) else NotFound,
      (o: u32) => Migrated,
      (o: u32) => S.NodeUnknown,
      (o: u32) => false)
  }

  function OffsetsOf(all: map<Lsn, LnInfo>): set<u32> {
    set l | l in all :: l.offset
  }

  function LnAt(f: FileNum, all: map<Lsn, LnInfo>, o: u32): S.Entry {
    S.Ln(o, if Lsn(f, o) in all then all[Lsn(f, o)].key else Key(0, []), 0, false, 0)
  }

  /** A request to keep the file, if there was one, and the LNs in log order. */
  function EntriesOf(f: FileNum, all: map<Lsn, LnInfo>, offsets: seq<u32>, asked: bool): seq<S.Entry> {
    (if asked then [S.Node(0)] else []) + seq(|offsets|, i requires 0 <= i < |offsets| => LnAt(f, all, offsets[i]))
  }

  lemma EntriesListLns(f: FileNum, all: map<Lsn, LnInfo>, offsets: seq<u32>, asked: bool)
    requires (forall l :: l in all ==> l.file == f) && (forall o :: o in offsets <==> o in OffsetsOf(all))
    ensures Lists(EntriesOf(f, all, offsets, asked), f, all)
  {
    var entries, at := EntriesOf(f, all, offsets, asked), if asked then 1 else 0;
    forall l | l in all
      ensures exists i :: 0 <= i < |entries| && IsEntryOf(entries[i], f, l)
    {
      assert l.offset in offsets;
      var j :| 0 <= j < |offsets| && offsets[j] == l.offset;
      assert IsEntryOf(entries[j + at], f, l);
    }
    forall i | 0 <= i < |entries| && entries[i].Ln?
      ensures Lsn(f, entries[i].offset) in all && all[Lsn(f, entries[i].offset)].key == entries[i].key
    {
      assert offsets[i - at] in offsets;
      var l :| l in all && l.offset == offsets[i - at];
    }
  }

  lemma EntriesAscend(f: FileNum, all: map<Lsn, LnInfo>, offsets: seq<u32>, asked: bool)
    requires Ascending(offsets) && (asked ==> 0 !in offsets)
    ensures S.OffsetsAscend(EntriesOf(f, all, offsets, asked))
  {
    assert forall j :: 0 <= j < |offsets| ==> offsets[j] in offsets;
  }

  lemma EntriesAsk(f: FileNum, all: map<Lsn, LnInfo>, offsets: seq<u32>, asked: bool, a: S.Answers)
    requires a.node(0).NodeUnknown?
    ensures var entries := EntriesOf(f, all, offsets, asked); S.NodeRetains(entries, a, |entries|) <==> asked
  {
    var entries := EntriesOf(f, all, offsets, asked);
    S.NodeRetainsIff(entries, a, |entries|);
    if asked {
      assert S.AsksToRetain(entries[0], a);
    }
  }

  lemma EntriesTell(f: FileNum, all: map<Lsn, LnInfo>, offsets: seq<u32>, asked: bool, fates: map<Lsn, Fate>)
    requires Lists(EntriesOf(f, all, offsets, asked), f, all) && forall l :: l in all ==> l in fates
    ensures Tells(AnswersOf(f, fates), EntriesOf(f, all, offsets, asked), {}, f, fates)
  {
  }

  lemma FinishedIsDecided(g: Gc, f: FileNum, all: map<Lsn, LnInfo>, fates: map<Lsn, Fate>, asked: bool)
    requires PassStands(g, f, all, fates, asked) && g.passes[f].todo == map[]
    ensures forall l :: l in all ==> l in fates
  {
    assert forall l :: l in all ==> LnStands(g.passes[f], all, fates, l);
  }

  /**
   Every pass that has visited all its LNs is mirrored by the scan of some entries, in log order when,
   as in a file with a header, no LN is at offset zero.
   */
  lemma FinishedPassIsMirrored(gs: seq<Gc>, es: seq<Step>, f: FileNum, start: nat, n: nat)
    returns (entries: seq<S.Entry>, a: S.Answers)
    requires IsPass(gs, es, f, start, n) && f in gs[n].passes && gs[n].passes[f].todo == map[]
    ensures Mirrors(gs, es, f, start, n, entries, {}, a)
    ensures Lsn(f, 0) !in gs[start].fine.store.log ==> S.OffsetsAscend(entries)
  {
    var all, fates := LnsOf(gs[start].fine.store.log, f), Fates(gs, es, f, start, n);
    var asked := Asked(es, f, start, n);
    var offsets := SortedFiles(OffsetsOf(all));
    entries, a := EntriesOf(f, all, offsets, asked), AnswersOf(f, fates);
    PassRemembers(gs, es, f, start, n);
    EntriesListLns(f, all, offsets, asked);
    EntriesAsk(f, all, offsets, asked, a);
    FinishedIsDecided(gs[n], f, all, fates, asked);
    EntriesTell(f, all, offsets, asked, fates);
    if Lsn(f, 0) !in gs[start].fine.store.log {
      EntriesAscend(f, all, offsets, asked);
    }
  }
}

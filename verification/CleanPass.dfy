/** One pass of the cleaner over the selector, and the deletion of the files that became safe. */
module CleanPass {
  import opened Lsns
  import opened Arith
  import opened Sorting
  import opened Files
  import opened Utilization
  import P = Pipeline
  import L = Selection
  import F = FileSelector
  import H = FileProtector
  import S = FileScan
  import M = Migration
  import Y = Lifecycle

  // ----- deletion ------------------------------------------------------------------------------

  /** What becomes of a file taken out of the safe set. */
  datatype Disposition = AtHead | Held | Failed | Deleted

  /** `current` is the file being written, if there is a file manager; `fails` are the files that cannot be dropped. */
  datatype Disk = Disk(current: Option<FileNum>, fails: set<FileNum>)

  function Dispose(history: seq<H.Call>, disk: Disk, f: FileNum): Disposition {
    if disk.current.Some? && f >= disk.current.value then AtHead
    else if H.Protected(history, f) then Held
    else if disk.current.Some? && f in disk.fails then Failed
    else Deleted
  }

  function One(b: bool, f: FileNum): set<FileNum> {
    if b then {f} else {}
  }

  /** What becomes of each file, as a function. */
  type Verdicts = FileNum -> Disposition

  function Disposer(history: seq<H.Call>, disk: Disk): Verdicts {
    (f: FileNum) => Dispose(history, disk, f)
  }

  /** Those of the first `n` files that are deleted. */
  function Gone(v: Verdicts, files: seq<FileNum>, n: nat): seq<FileNum>
    requires n <= |files|
  {
    if n == 0 then [] else Gone(v, files, n - 1) + if v(files[n - 1]).Deleted? then [files[n - 1]] else []
  }

  predicate IsReturned(d: Disposition) {
    d.Held? || d.Failed?
  }

  function WaitsIf(d: Disposition, f: FileNum): seq<FileNum> {
    if d.AtHead? || d.Held? then [f] else []
  }

  lemma {:induction false} InGone(v: Verdicts, files: seq<FileNum>, n: nat, f: FileNum)
    requires n <= |files|
    ensures f in Gone(v, files, n) <==> f in files[..n] && v(f).Deleted?
  {
    if n == 0 {
    } else {
      InGone(v, files, n - 1, f);
      assert files[..n] == files[..n - 1] + [files[n - 1]];
    }
  }

  ghost predicate Below(q: seq<FileNum>, f: FileNum) {
    forall i :: 0 <= i < |q| ==> q[i] < f
  }

  lemma AscendingSnoc(q: seq<FileNum>, f: FileNum)
    requires Ascending(q) && Below(q, f)
    ensures Ascending(q + [f]) && forall g :: f < g ==> Below(q, g) && Below(q + [f], g)
  {
  }

  /** No file is deleted twice. */
  lemma {:induction false} GoneAscends(v: Verdicts, files: seq<FileNum>, n: nat)
    requires n <= |files| && Ascending(files)
    ensures Ascending(Gone(v, files, n)) && (n < |files| ==> Below(Gone(v, files, n), files[n]))
  {
    if n == 0 {
    } else {
      GoneAscends(v, files, n - 1);
      var g := Gone(v, files, n - 1);
      AscendingSnoc(g, files[n - 1]);
      assert g + [] == g;
    }
  }

  /** What deletion changes besides the info records. */
  datatype Books = Books(
    waiting: seq<FileNum>, safe: set<FileNum>, profile: set<FileNum>, tracked: set<FileNum>, deleted: nat)

  function Entered(b: Books, d: Disposition, f: FileNum): Books {
    Books(b.waiting + WaitsIf(d, f),
          b.safe + One(IsReturned(d), f),
          b.profile - One(d.Deleted?, f),
          b.tracked - One(d.Deleted?, f),
          b.deleted + if d.Deleted? then 1 else 0)
  }

  /** The books after the first `n` files found their place. */
  function Settled(v: Verdicts, b: Books, files: seq<FileNum>, n: nat): Books
    requires n <= |files|
  {
    if n == 0 then b else Entered(Settled(v, b, files, n - 1), v(files[n - 1]), files[n - 1])
  }

  lemma EnteredAt(b: Books, d: Disposition, g: FileNum, f: FileNum)
    ensures var e := Entered(b, d, g);
            && (f in e.waiting <==> f in b.waiting || (f == g && (d.AtHead? || d.Held?)))
            && (f in e.safe <==> f in b.safe || (f == g && IsReturned(d)))
            && (f in e.profile <==> f in b.profile && !(f == g && d.Deleted?))
            && (f in e.tracked <==> f in b.tracked && !(f == g && d.Deleted?))
  {
  }

  lemma {:induction false} SettledAt(v: Verdicts, b: Books, files: seq<FileNum>, n: nat, f: FileNum)
    requires n <= |files|
    ensures var e, d, met := Settled(v, b, files, n), v(f), f in files[..n];
            && (f in e.waiting <==> f in b.waiting || (met && (d.AtHead? || d.Held?)))
            && (f in e.safe <==> f in b.safe || (met && IsReturned(d)))
            && (f in e.profile <==> f in b.profile && !(met && d.Deleted?))
            && (f in e.tracked <==> f in b.tracked && !(met && d.Deleted?))
  {
    if n == 0 {
    } else {
      SettledAt(v, b, files, n - 1, f);
      assert files[..n] == files[..n - 1] + [files[n - 1]];
      EnteredAt(Settled(v, b, files, n - 1), v(files[n - 1]), files[n - 1], f);
    }
  }

  /** Each deleted file is counted. */
  lemma {:induction false} SettledCount(v: Verdicts, b: Books, files: seq<FileNum>, n: nat)
    requires n <= |files|
    ensures Settled(v, b, files, n).deleted == b.deleted + |Gone(v, files, n)|
  {
    if n == 0 {
    } else {
      SettledCount(v, b, files, n - 1);
    }
  }

  /** Those of the first `n` waiting files that have to go on waiting. */
  function StillWaiting(waits: FileNum -> bool, files: seq<FileNum>, n: nat): seq<FileNum>
    requires n <= |files|
  {
    if n == 0 then []
    else StillWaiting(waits, files, n - 1) + if waits(files[n - 1]) then [files[n - 1]] else []
  }

  /** Protected files have to wait, and those at or past the file being written. */
  function MustWait(history: seq<H.Call>, disk: Disk): FileNum -> bool {
    (f: FileNum) => H.Protected(history, f) || AtOrPastHead(disk, f)
  }

  /** The file being written, or a later one. */
  predicate AtOrPastHead(disk: Disk, f: FileNum) {
    disk.current.Some? && f >= disk.current.value
  }

  /** The pipeline, the files the operator forced, and whether the environment is known to be invalid. */
  datatype Env = Env(sel: P.State, forced: set<FileNum>, invalid: bool)

  class Cleaner {
    const selector: F.FileSelector
    const protector: H.FileProtector
    var pendingDeletions: seq<FileNum>
    var profile: set<FileNum>
    var tracked: set<FileNum>
    var envInvalid: bool

    constructor (selector: F.FileSelector, protector: H.FileProtector)
      ensures this.selector == selector && this.protector == protector
      ensures pendingDeletions == [] && profile == {} && tracked == {} && !envInvalid
    {
      this.selector, this.protector := selector, protector;
      pendingDeletions, profile, tracked, envInvalid := [], {}, {}, false;
    }

    /** What the attempts of a pass work on. */
    function Now(): Env
      reads this, selector
    {
      Env(selector.View(), selector.forcedFiles, envInvalid)
    }

    method TakeSafeFiles() returns (files: seq<FileNum>)
      modifies selector`info, selector`safe
      ensures files == SortedFiles(old(selector.safe))
      ensures selector.safe == {} && selector.info == old(selector.info) - old(selector.safe)
    {
      files := selector.GetSafeToDelete();
      for i := 0 to |files|
        invariant selector.safe == old(selector.safe) - P.Elements(files[..i])
        invariant selector.info == old(selector.info) - P.Elements(files[..i])
      {
        assert P.Elements(files[..i + 1]) == P.Elements(files[..i]) + {files[i]};
        selector.RemoveDeletedFile(files[i]);
      }
      assert files[..|files|] == files && P.Elements(files) == old(selector.safe);
    }

    ghost function Kept(deleted: nat): Books
      reads this, selector
    {
      Books(pendingDeletions, selector.safe, profile, tracked, deleted)
    }

    method DisposeOf(f: FileNum, disk: Disk, before: nat) returns (deleted: nat)
      requires protector.Valid()
      modifies selector`safe, this`pendingDeletions, this`profile, this`tracked
      ensures Kept(deleted) == Entered(old(Kept(before)), Dispose(protector.history, disk, f), f)
    {
      deleted := before;
      if disk.current.Some? && f >= disk.current.value {
        pendingDeletions := pendingDeletions + [f];
        return;
      }
      var held := protector.IsProtected(f);
      if !held {
        if disk.current.Some? && f in disk.fails {
          selector.AddSafeToDeleteBack(f);
          return;
        }
        tracked := tracked - {f};
        profile := profile - {f};
        deleted := deleted + 1;
      } else {
        pendingDeletions := pendingDeletions + [f];
        selector.AddSafeToDeleteBack(f);
      }
    }

    method DisposeOfAll(files: seq<FileNum>, disk: Disk) returns (deleted: nat)
      requires protector.Valid()
      modifies selector`safe, this`pendingDeletions, this`profile, this`tracked
      ensures Kept(deleted) == Settled(Disposer(protector.history, disk), old(Kept(0)), files, |files|)
    {
      deleted := 0;
      for i := 0 to |files|
        invariant Kept(deleted) == Settled(Disposer(protector.history, disk), old(Kept(0)), files, i)
      {
        deleted := DisposeOf(files[i], disk, deleted);
      }
    }

    /** Deletes what may be deleted of the safe files and puts every other one where it will be tried again. */
    method DeleteSafeFiles(disk: Disk) returns (deleted: nat)
      requires protector.Valid()
      modifies selector`info, selector`safe, this`pendingDeletions, this`profile, this`tracked
      ensures envInvalid ==> deleted == 0 && selector.View() == old(selector.View()) && Kept(0) == old(Kept(0))
      ensures !envInvalid ==>
                var files := SortedFiles(old(selector.safe));
                && Kept(deleted) ==
                   Settled(Disposer(protector.history, disk), old(Kept(0)).(safe := {}), files, |files|)
                && selector.info == old(selector.info) - old(selector.safe)
    {
      if envInvalid {
        return 0;
      }
      var files := TakeSafeFiles();
      deleted := DisposeOfAll(files, disk);
    }

    /** Drops from the waiting list every file that need not wait any longer, whether or not its deletion fails. */
    method DeletePendingFiles(disk: Disk) returns (dropped: nat)
      requires protector.Valid()
      modifies this`pendingDeletions
      ensures pendingDeletions ==
              if envInvalid then old(pendingDeletions)
              else StillWaiting(MustWait(protector.history, disk), old(pendingDeletions), |old(pendingDeletions)|)
      ensures dropped + |pendingDeletions| == |old(pendingDeletions)|
    {
      dropped := 0;
      if envInvalid {
        return;
      }
      var kept := [];
      for i := 0 to |pendingDeletions|
        invariant pendingDeletions == old(pendingDeletions) && dropped + |kept| == i
        invariant kept == StillWaiting(MustWait(protector.history, disk), pendingDeletions, i)
      {
        var held := protector.IsProtected(pendingDeletions[i]);
        if held || (disk.current.Some? && pendingDeletions[i] >= disk.current.value) {
          kept := kept + [pendingDeletions[i]];
        } else {
          dropped := dropped + 1;
        }
      }
      pendingDeletions := kept;
    }
  }

  /** The files added to the waiting list, in the order they are met. */
  function Added(v: Verdicts, files: seq<FileNum>, n: nat): seq<FileNum>
    requires n <= |files|
  {
    if n == 0 then [] else Added(v, files, n - 1) + WaitsIf(v(files[n - 1]), files[n - 1])
  }

  lemma {:induction false} WaitingGrows(v: Verdicts, b: Books, files: seq<FileNum>, n: nat)
    requires n <= |files|
    ensures Settled(v, b, files, n).waiting == b.waiting + Added(v, files, n)
  {
    if n == 0 {
      assert b.waiting + [] == b.waiting;
    } else {
      WaitingGrows(v, b, files, n - 1);
    }
  }

  lemma {:induction false} AddedAscends(v: Verdicts, files: seq<FileNum>, n: nat)
    requires n <= |files| && Ascending(files)
    ensures Ascending(Added(v, files, n)) && (n < |files| ==> Below(Added(v, files, n), files[n]))
  {
    if n == 0 {
    } else {
      AddedAscends(v, files, n - 1);
      var a := Added(v, files, n - 1);
      AscendingSnoc(a, files[n - 1]);
      assert a + [] == a;
    }
  }

  lemma {:induction false} InAdded(v: Verdicts, files: seq<FileNum>, n: nat, f: FileNum)
    requires n <= |files|
    ensures f in Added(v, files, n) <==> f in files[..n] && (v(f).AtHead? || v(f).Held?)
  {
    if n == 0 {
    } else {
      InAdded(v, files, n - 1, f);
      assert files[..n] == files[..n - 1] + [files[n - 1]];
    }
  }

  predicate CannotGo(disk: Disk, f: FileNum) {
    disk.current.Some? && f in disk.fails
  }

  /**
   A safe file is deleted exactly when it is unprotected and, where there is a file manager, older than the file
   being written and not one the file manager fails to drop.  Any other one is put where it will be tried again:
   at or past the head it waits, a protected one waits and is safe again, one that could not be dropped is safe
   again.  Only deleted files lose their profile and tracker entries, and each is counted once.
   */
  lemma DeletionConserves(history: seq<H.Call>, disk: Disk, b: Books, f: FileNum)
    ensures var files, v := SortedFiles(b.safe), Disposer(history, disk);
            var after := Settled(v, b.(safe := {}), files, |files|);
            var deleted, added := Gone(v, files, |files|), Added(v, files, |files|);
            && (f in deleted <==>
                  f in b.safe && !H.Protected(history, f) && !AtOrPastHead(disk, f) && !CannotGo(disk, f))
            && (f in added <==> f in b.safe && (AtOrPastHead(disk, f) || H.Protected(history, f)))
            && (f in after.safe <==>
                  f in b.safe && !AtOrPastHead(disk, f) && (H.Protected(history, f) || CannotGo(disk, f)))
            && (f in after.profile <==> f in b.profile && f !in deleted)
            && (f in after.tracked <==> f in b.tracked && f !in deleted)
            && after.waiting == b.waiting + added && Ascending(added)
            && after.deleted == b.deleted + |deleted| && Ascending(deleted)
  {
    var files, v := SortedFiles(b.safe), Disposer(history, disk);
    assert files[..|files|] == files && v(f) == Dispose(history, disk, f);
    InGone(v, files, |files|, f);
    SettledAt(v, b.(safe := {}), files, |files|, f);
    SettledCount(v, b.(safe := {}), files, |files|);
    WaitingGrows(v, b.(safe := {}), files, |files|);
    AddedAscends(v, files, |files|);
    InAdded(v, files, |files|, f);
    GoneAscends(v, files, |files|);
  }

  /** How often a file is on a list. */
  function Times(files: seq<FileNum>, f: FileNum): nat {
    if files == [] then 0
    else Times(files[..|files| - 1], f) + if files[|files| - 1] == f then 1 else 0
  }

  lemma TimesOneMore(files: seq<FileNum>, g: FileNum, f: FileNum)
    ensures Times(files + [g], f) == Times(files, f) + if g == f then 1 else 0
  {
    assert (files + [g])[..|files|] == files;
  }

  lemma {:induction false} TimesOfBoth(a: seq<FileNum>, b: seq<FileNum>, f: FileNum)
    ensures Times(a + b, f) == Times(a, f) + Times(b, f)
    decreases |b|
  {
    if b == [] {
      assert a + b == a;
    } else {
      var n := |b| - 1;
      TimesOfBoth(a, b[..n], f);
      assert a + b == a + b[..n] + [b[n]];
      TimesOneMore(a + b[..n], b[n], f);
    }
  }

  lemma {:induction false} StillWaitingIs(waits: FileNum -> bool, files: seq<FileNum>, n: nat, f: FileNum)
    requires n <= |files|
    ensures Times(StillWaiting(waits, files, n), f) == if waits(f) then Times(files[..n], f) else 0
  {
    if n == 0 {
    } else {
      var before, g := StillWaiting(waits, files, n - 1), files[n - 1];
      StillWaitingIs(waits, files, n - 1, f);
      assert files[..n] == files[..n - 1] + [g] && before + [] == before;
      TimesOneMore(files[..n - 1], g, f);
      TimesOneMore(before, g, f);
    }
  }

  lemma {:induction false} AscendingOnce(files: seq<FileNum>, f: FileNum)
    requires Ascending(files)
    ensures Times(files, f) == if f in files then 1 else 0
    decreases |files|
  {
    if files == [] {
    } else {
      var n := |files| - 1;
      AscendingOnce(files[..n], f);
      TimesOneMore(files[..n], files[n], f);
      assert files == files[..n] + [files[n]];
    }
  }

  /** The safe files first, then the waiting ones. */
  ghost function Closed(history: seq<H.Call>, disk: Disk, b: Books): Books {
    var files := SortedFiles(b.safe);
    var after := Settled(Disposer(history, disk), b.(safe := {}), files, |files|);
    after.(waiting := StillWaiting(MustWait(history, disk), after.waiting, |after.waiting|))
  }

  /**
   At the end of a pass a file waits exactly when it waited or was safe and still has to.  A safe file that has to
   wait is on the list once more than before, so a protected one, which is safe again too, once more with each pass;
   and a file that leaves the list loses no profile or tracker entry by it.
   */
  lemma ListGrowsWhileProtected(history: seq<H.Call>, disk: Disk, b: Books, f: FileNum)
    ensures var after, waits := Closed(history, disk, b), H.Protected(history, f) || AtOrPastHead(disk, f);
            && Times(after.waiting, f) == (if waits then Times(b.waiting, f) + (if f in b.safe then 1 else 0) else 0)
            && (H.Protected(history, f) && !AtOrPastHead(disk, f) ==> (f in after.safe <==> f in b.safe))
            && (f !in b.safe ==> (f in after.profile <==> f in b.profile) && (f in after.tracked <==> f in b.tracked))
  {
    var files := SortedFiles(b.safe);
    var v := Disposer(history, disk);
    var after := Settled(v, b.(safe := {}), files, |files|);
    DeletionConserves(history, disk, b, f);
    AscendingOnce(Added(v, files, |files|), f);
    TimesOfBoth(b.waiting, Added(v, files, |files|), f);
    StillWaitingIs(MustWait(history, disk), after.waiting, |after.waiting|, f);
    assert after.waiting[..|after.waiting|] == after.waiting;
  }

  // ----- what an attempt is given -------------------------------------------------------------------

  datatype Settings = Settings(
    minUtilization: nat, minAge: nat, force: bool, firstActiveTxnFile: Option<FileNum>, minFileUtilization: int)

  function PolicyOf(s: Settings): L.Policy {
    L.Policy(s.minUtilization, s.minAge, s.force, s.firstActiveTxnFile, Some(s.minUtilization),
             Some(s.minFileUtilization))
  }

  /** What reading a file gives: its entries with the answers about them, or an error. */
  datatype FileInput =
    | Unsupported
    | Broken
    | Readable(entries: seq<S.Entry>, obsolete: set<u32>, answers: S.Answers, budget: nat, stop: nat -> bool)

  predicate InOrder(input: FileInput) {
    input.Readable? ==> S.OffsetsAscend(input.entries)
  }

  /** What the tree answers when a pending LN is tried again, and whether the try invalidates the environment. */
  datatype Answer = Answer(lookup: M.BinLookup, outcome: M.Outcome, invalidates: bool)

  /** The answers about pending LNs; `stop(i)` is the poll before the try after `i` others. */
  datatype Retries = Retries(answer: Lsn -> Answer, stop: nat -> bool)

  /** What the surroundings do during one attempt. */
  datatype Turn = Turn(
    shutdown: bool,
    retries: Retries,
    summaries: Summaries,
    skip: bool,
    invalid: bool,
    input: FileInput)

  // ----- pending LNs ----------------------------------------------------------------------------------

  /** The LN need not be tried again: nothing can reach it, or it was moved. */
  predicate IsResolved(a: Answer) {
    var fate := M.FateOf(a.lookup, a.outcome);
    fate == M.Dead || fate == M.Kept
  }

  predicate IsFatal(a: Answer) {
    a.lookup.FetchFailed? || (a.lookup.Found? && a.invalidates)
  }

  /** The pending set without the LNs `gone`; dropping any of them promotes the waiting files if nothing pends. */
  function Forgotten(s: P.State, gone: set<Lsn>): P.State {
    if gone == {} then s else P.UpdateProcessed(s.(pendingLns := s.pendingLns - gone))
  }

  function ResolvedAmong(r: Retries, tried: seq<Lsn>): set<Lsn> {
    set l | l in tried && IsResolved(r.answer(l))
  }

  predicate AnyFatal(r: Retries, tried: seq<Lsn>) {
    exists l :: l in tried && IsFatal(r.answer(l))
  }

  /**
   The pending LNs `tried`, one after the other, on a valid environment and for as long as no poll says stop;
   the resolved ones are no longer pending.
   */
  ghost predicate IsRetry(r: Retries, before: Env, tried: seq<Lsn>, after: Env) {
    && (forall i :: 0 <= i < |tried| ==> tried[i] in before.sel.pendingLns && !r.stop(i))
    && (forall i, j :: 0 <= i < j < |tried| ==> tried[i] != tried[j] && !IsFatal(r.answer(tried[i])))
    && (tried != [] ==> !before.invalid)
    && ((forall l :: l in before.sel.pendingLns ==> l in tried) || r.stop(|tried|) || after.invalid)
    && after == Env(Forgotten(before.sel, ResolvedAmong(r, tried)), before.forced,
                    before.invalid || AnyFatal(r, tried))
  }

  lemma ForgetOneMore(s: P.State, gone: set<Lsn>, l: Lsn)
    requires l in s.pendingLns && l !in gone
    ensures Forgotten(s, gone) == s.(pendingLns := s.pendingLns - gone)
    ensures P.RemovePendingLn(Forgotten(s, gone), l) == Forgotten(s, gone + {l})
  {
    assert l in s.pendingLns - gone;
    assert s.pendingLns - gone - {l} == s.pendingLns - (gone + {l});
    assert s.pendingLns - {} == s.pendingLns;
  }

  lemma TriedOneMore(r: Retries, tried: seq<Lsn>, l: Lsn)
    ensures ResolvedAmong(r, tried + [l]) ==
            if IsResolved(r.answer(l)) then ResolvedAmong(r, tried) + {l} else ResolvedAmong(r, tried)
    ensures AnyFatal(r, tried + [l]) <==> AnyFatal(r, tried) || IsFatal(r.answer(l))
  {
    if AnyFatal(r, tried) {
      var m :| m in tried && IsFatal(r.answer(m));
      assert m in tried + [l];
    }
    if IsFatal(r.answer(l)) {
      assert l in tried + [l];
    }
  }

  /** `tried` have been tried, `todo` not. */
  ghost predicate IsTrying(r: Retries, before: Env, tried: seq<Lsn>, todo: set<Lsn>, now: Env) {
    && (forall l :: l in before.sel.pendingLns <==> l in todo || l in tried) && (forall l :: l in todo ==> l !in tried)
    && (forall i :: 0 <= i < |tried| ==> !r.stop(i))
    && (forall i, j :: 0 <= i < j < |tried| ==> tried[i] != tried[j] && !IsFatal(r.answer(tried[i])))
    && (tried != [] ==> !before.invalid)
    && now == Env(Forgotten(before.sel, ResolvedAmong(r, tried)), before.forced, before.invalid || AnyFatal(r, tried))
  }

  /** What one more try makes of it. */
  function TryOne(now: Env, a: Answer, l: Lsn): Env {
    now.(sel := if IsResolved(a) then P.RemovePendingLn(now.sel, l) else now.sel, invalid := now.invalid || IsFatal(a))
  }

  lemma TryingGoesOn(r: Retries, before: Env, tried: seq<Lsn>, todo: set<Lsn>, now: Env, l: Lsn)
    requires IsTrying(r, before, tried, todo, now) && l in todo && !r.stop(|tried|) && !now.invalid
    ensures IsTrying(r, before, tried + [l], todo - {l}, TryOne(now, r.answer(l), l))
  {
    ForgetOneMore(before.sel, ResolvedAmong(r, tried), l);
    TriedOneMore(r, tried, l);
    assert forall i :: 0 <= i < |tried| ==> tried[i] in tried;
  }

  /** Every pending LN is tried once, in whatever order the hash map yields them. */
  method ProcessPending(c: Cleaner, r: Retries) returns (ghost tried: seq<Lsn>)
    modifies c`envInvalid, c.selector`pendingLns, c.selector`info, c.selector`checkpointed, c.selector`safe
    ensures IsRetry(r, old(c.Now()), tried, c.Now())
  {
    ghost var before := c.Now();
    tried := [];
    var todo, polls := c.selector.pendingLns.Keys, 0;
    while todo != {}
      invariant IsTrying(r, before, tried, todo, c.Now()) && polls == |tried|
      decreases |todo|
    {
      if r.stop(polls) || c.envInvalid {
        return;
      }
      var l :| l in todo;
      TryingGoesOn(r, before, tried, todo, c.Now(), l);
      RetryOne(c, r.answer(l), l);
      todo, polls, tried := todo - {l}, polls + 1, tried + [l];
    }
  }

  /** One pending LN: looked up and, if its slot is found, moved. */
  method RetryOne(c: Cleaner, a: Answer, l: Lsn)
    modifies c`envInvalid, c.selector`pendingLns, c.selector`info, c.selector`checkpointed, c.selector`safe
    ensures c.Now() == TryOne(old(c.Now()), a, l)
  {
    match a.lookup {
      case NotFound =>
        c.selector.RemovePendingLn(l);
      case KnownDeleted =>
        c.selector.RemovePendingLn(l);
      case FetchFailed =>
        c.envInvalid := true;
      case LiveUnresolved =>
      case Found(treeLsn) =>
        if a.invalidates {
          c.envInvalid := true;
        }
        if treeLsn == NULL_LSN || a.outcome.Migrated? || a.outcome.Obsolete? {
          c.selector.RemovePendingLn(l);
        }
    }
  }

  /** The answer leaves the LN pending: it could not be looked up, its database is not open, or its record is locked. */
  predicate StaysPending(a: Answer) {
    || a.lookup.FetchFailed? || a.lookup.LiveUnresolved?
    || (a.lookup.Found? && a.lookup.treeLsn != NULL_LSN && a.outcome.Locked?)
  }

  /**
   Unless something stops them, the retries leave pending exactly the LNs whose answers say so, as they were
   described; and once the last one is resolved with no database pending, every checkpointed file is safe.
   */
  lemma RetriesLeave(r: Retries, before: Env, tried: seq<Lsn>, after: Env, l: Lsn)
    requires IsRetry(r, before, tried, after) && !after.invalid && forall i :: !r.stop(i)
    ensures l in after.sel.pendingLns <==> l in before.sel.pendingLns && StaysPending(r.answer(l))
    ensures l in after.sel.pendingLns ==> after.sel.pendingLns[l] == before.sel.pendingLns[l]
    ensures before.sel.pendingLns != map[] && P.NothingPending(after.sel) ==>
              after.sel.checkpointed == {} && after.sel.safe == before.sel.safe + before.sel.checkpointed
    ensures !P.NothingPending(after.sel) ==>
              after.sel == before.sel.(pendingLns := after.sel.pendingLns)
  {
    var gone := ResolvedAmong(r, tried);
    assert forall m :: m in before.sel.pendingLns ==> m in tried && (m in gone <==> !StaysPending(r.answer(m)));
    assert before.sel.pendingLns - {} == before.sel.pendingLns;
    if gone == {} && before.sel.pendingLns != map[] {
      var m :| m in before.sel.pendingLns;
      assert m in after.sel.pendingLns;
    }
  }

  lemma RetryKeepsPartition(r: Retries, before: Env, tried: seq<Lsn>, after: Env)
    requires IsRetry(r, before, tried, after) && P.Partitioned(before.sel)
    ensures P.Partitioned(after.sel)
    ensures after.sel == before.sel.(pendingLns := after.sel.pendingLns, info := after.sel.info,
                                     checkpointed := after.sel.checkpointed, safe := after.sel.safe)
  {
    assert forall f: FileNum :: P.Placed(before.sel, f) ==> P.Placed(after.sel, f);
  }

  // ----- one attempt ----------------------------------------------------------------------------------

  datatype Attempted =
    | NoFile
    | Skipped
    | Aborted
    | Deferred(file: FileNum)
    | Cleaned(file: FileNum)
    | Dropped
    | Interrupted

  /** `r` is what scanning the file gives, the polls having gone on `polls` times. */
  ghost predicate IsScanOf(r: Option<S.Result>, f: FileNum, input: FileInput, polls: nat) {
    && (r.Some? <==> input.Readable?)
    && (r.Some? ==>
          && S.Polled(f, input.entries, input.obsolete, input.budget, input.stop, polls)
          && S.IsScan(r.value, f, input.entries, input.obsolete, input.answers, input.budget, polls))
  }

  /** The scan of the file, if it can be read. */
  method ProcessSingleFile(f: FileNum, input: FileInput) returns (r: Option<S.Result>, ghost polls: nat)
    requires InOrder(input)
    ensures IsScanOf(r, f, input, polls)
  {
    if !input.Readable? {
      return None, 0;
    }
    var result, n, _ := S.ProcessFile(f, input.entries, input.obsolete, input.answers, input.budget, input.stop);
    return Some(result), n;
  }

  predicate SameProtection(h: seq<H.Call>, h': seq<H.Call>) {
    H.Floor(h') == H.Floor(h) && forall f: FileNum :: H.Holds(h', f) == H.Holds(h, f)
  }

  lemma ProtectionRestored(h: seq<H.Call>, f: FileNum)
    ensures SameProtection(h, h + [H.Protect(f)] + [H.Unprotect(f)])
  {
    forall g: FileNum
      ensures H.Holds(h + [H.Protect(f)] + [H.Unprotect(f)], g) == H.Holds(h, g)
    {
      H.Appended(h, H.Protect(f), g);
      H.Appended(h + [H.Protect(f)], H.Unprotect(f), g);
    }
    H.Appended(h, H.Protect(f), 0);
    H.Appended(h + [H.Protect(f)], H.Unprotect(f), 0);
  }

  ghost predicate HeldFor(before: seq<H.Call>, after: seq<H.Call>, f: FileNum) {
    after == before + [H.Protect(f)] + [H.Unprotect(f)]
  }

  /** The file is protected while it is processed, and after that as before. */
  method HoldAndProcess(protector: H.FileProtector, f: FileNum, input: FileInput)
    returns (r: Option<S.Result>, ghost polls: nat)
    requires protector.Valid() && InOrder(input)
    modifies protector
    ensures protector.Valid() && HeldFor(old(protector.history), protector.history, f)
    ensures SameProtection(old(protector.history), protector.history)
    ensures IsScanOf(r, f, input, polls)
  {
    protector.ProtectFile(f);
    assert H.Protected(protector.history, f) by {
      H.Appended(old(protector.history), H.Protect(f), f);
    }
    r, polls := ProcessSingleFile(f, input);
    var _ := protector.UnprotectFile(f);
    ProtectionRestored(old(protector.history), f);
  }

  /** The outcome of processing a file. */
  predicate IsOutcome(o: Attempted, f: FileNum, invalid: bool, input: FileInput, r: Option<S.Result>) {
    && (o.Aborted? <==> invalid || input.Broken?)
    && (o.Deferred? <==> !invalid && input.Unsupported?)
    && (o.Cleaned? <==> !invalid && !input.Broken? && r.Some? && r.value.completed)
    && (o.Dropped? <==> !invalid && !input.Broken? && r.Some? && !r.value.completed && r.value.retain)
    && (o.Interrupted? <==> !invalid && !input.Broken? && r.Some? && !r.value.completed && !r.value.retain)
    && (o.Deferred? || o.Cleaned? ==> o.file == f)
  }

  /** What each outcome does to the pipeline; the locked LNs are pending before the file changes its stage. */
  function Concluded(s: P.State, f: FileNum, o: Attempted, r: Option<S.Result>): P.State {
    var recorded := if r.Some? then P.AddPendingLns(s, r.value.lns.lockedLns, |r.value.lns.lockedLns|) else s;
    match o
    case Aborted => P.PutBack(s, f)
    case Cleaned(_) => P.MarkCleaned(recorded, f)
    case Dropped => P.RemoveFromCleaning(recorded, f)
    case Interrupted => P.PutBack(recorded, f)
    case Skipped => P.RemoveFromCleaning(s, f)
    case _ => s
  }

  method RecordLocked(selector: F.FileSelector, locked: seq<(Lsn, LnInfo)>)
    modifies selector`pendingLns, selector`anyPending
    ensures selector.View() == P.AddPendingLns(old(selector.View()), locked, |locked|)
    ensures S.Distinct(locked) ==>
              forall i :: 0 <= i < |locked| ==>
                locked[i].0 in selector.pendingLns && selector.pendingLns[locked[i].0] == locked[i].1
  {
    ghost var before := selector.View();
    for i := 0 to |locked|
      invariant selector.View() == P.AddPendingLns(before, locked, i)
    {
      var _ := selector.AddPendingLn(locked[i].0, locked[i].1);
    }
    if S.Distinct(locked) {
      forall i | 0 <= i < |locked|
        ensures locked[i].0 in selector.pendingLns && selector.pendingLns[locked[i].0] == locked[i].1
      {
        P.ListedArePending(before, locked, |locked|, i);
      }
    }
  }

  /** What the outcome of processing a file in cleaning does to its stage. */
  method Conclude(selector: F.FileSelector, f: FileNum, invalid: bool, input: FileInput, r: Option<S.Result>)
    returns (o: Attempted)
    requires r.Some? <==> input.Readable?
    modifies selector`info, selector`queue, selector`being, selector`cleaned, selector`pendingLns, selector`anyPending
    ensures IsOutcome(o, f, invalid, input, r)
    ensures selector.View() == Concluded(old(selector.View()), f, o, r)
  {
    if invalid {
      selector.PutBackFileForCleaning(f);
      return Aborted;
    }
    match input {
      case Unsupported =>
        o := Deferred(f);
      case Broken =>
        selector.PutBackFileForCleaning(f);
        o := Aborted;
      case Readable(_, _, _, _, _) =>
        RecordLocked(selector, r.value.lns.lockedLns);
        if r.value.completed {
          selector.MarkFileCleaned(f);
          o := Cleaned(f);
        } else if r.value.retain {
          selector.RemoveFileFromCleaning(f);
          o := Dropped;
        } else {
          selector.PutBackFileForCleaning(f);
          o := Interrupted;
        }
    }
  }

  /** One attempt as it went: the pending LNs tried, the file picked, its scan, and what came of it. */
  datatype Trial = Trial(
    before: Env, tried: seq<Lsn>, retried: Env, pick: Option<F.Pick>, picked: Env, result: Option<S.Result>,
    polls: nat, outcome: Attempted, after: Env)

  /** The file must be measured again, and the measurement says not to clean it. */
  predicate IsSpared(pick: F.Pick, turn: Turn) {
    pick.requiredUtil.Some? && pick.requiredUtil.value >= 0 && turn.skip
  }

  /** The file was held, scanned and concluded. */
  predicate IsProcessed(t: Trial) {
    !t.outcome.NoFile? && !t.outcome.Skipped?
  }

  ghost predicate IsProcessing(turn: Turn, t: Trial)
    requires t.pick.Some?
  {
    var f, invalid := t.pick.value.file, t.picked.invalid || turn.invalid;
    && IsScanOf(t.result, f, turn.input, t.polls)
    && IsOutcome(t.outcome, f, invalid, turn.input, t.result) && IsProcessed(t)
    && t.after == Env(Concluded(t.picked.sel, f, t.outcome, t.result), t.picked.forced, invalid)
  }

  /** The pending LNs are tried again, then a file is picked. */
  ghost predicate IsPicking(c: F.Config, m: Summaries, s: Settings, r: Retries, t: Trial) {
    && IsRetry(r, t.before, t.tried, t.retried)
    && F.SelectionStep(c, m, PolicyOf(s), t.retried.sel, t.retried.forced, t.picked.sel, t.picked.forced, t.pick)
    && t.picked.invalid == t.retried.invalid
  }

  /** The file picked, if any, is spared or processed. */
  ghost predicate IsHandling(turn: Turn, t: Trial) {
    if t.pick.None? then t.outcome.NoFile? && t.after == t.picked
    else if IsSpared(t.pick.value, turn) then
      t.outcome.Skipped? && t.after == t.picked.(sel := Concluded(t.picked.sel, t.pick.value.file, Skipped, None))
    else IsProcessing(turn, t)
  }

  ghost predicate IsTrial(c: F.Config, m: Summaries, s: Settings, turn: Turn, t: Trial) {
    IsPicking(c, m, s, turn.retries, t) && IsHandling(turn, t)
  }

  ghost predicate HeldMeanwhile(before: seq<H.Call>, after: seq<H.Call>, t: Trial) {
    if IsProcessed(t) && t.pick.Some? then HeldFor(before, after, t.pick.value.file) else after == before
  }

  /** The picked file is spared, or held, scanned and concluded. */
  method ProcessPick(c: Cleaner, pick: F.Pick, turn: Turn)
    returns (o: Attempted, result: Option<S.Result>, ghost polls: nat)
    requires c.protector.Valid() && InOrder(turn.input)
    modifies c`envInvalid, c.selector`info, c.selector`queue, c.selector`being, c.selector`cleaned
    modifies c.selector`pendingLns, c.selector`anyPending, c.protector
    ensures if IsSpared(pick, turn)
            then
              && o.Skipped? && result.None? && c.protector.history == old(c.protector.history)
              && c.Now() == old(c.Now()).(sel := Concluded(old(c.selector.View()), pick.file, Skipped, None))
            else
              && !o.NoFile? && !o.Skipped? && HeldFor(old(c.protector.history), c.protector.history, pick.file)
              && IsScanOf(result, pick.file, turn.input, polls)
              && IsOutcome(o, pick.file, old(c.envInvalid) || turn.invalid, turn.input, result)
              && c.Now() == Env(Concluded(old(c.selector.View()), pick.file, o, result), old(c.selector.forcedFiles),
                                old(c.envInvalid) || turn.invalid)
    ensures c.protector.Valid() && SameProtection(old(c.protector.history), c.protector.history)
  {
    if pick.requiredUtil.Some? && pick.requiredUtil.value >= 0 && turn.skip {
      c.selector.RemoveFileFromCleaning(pick.file);
      return Skipped, None, 0;
    }
    result, polls := HoldAndProcess(c.protector, pick.file, turn.input);
    if turn.invalid {
      c.envInvalid := true;
    }
    o := Conclude(c.selector, pick.file, c.envInvalid, turn.input, result);
  }

  /** Pending LNs first, then the next file. */
  method PickFile(c: Cleaner, m: Summaries, s: Settings, r: Retries) returns (pick: Option<F.Pick>, ghost t: Trial)
    modifies c`envInvalid, c.selector
    ensures c.selector.Settings() == old(c.selector.Settings())
    ensures IsPicking(c.selector.Settings(), m, s, r, t)
    ensures t.before == old(c.Now()) && t.pick == pick && t.picked == c.Now() && t.after == c.Now()
    ensures t.outcome.NoFile? && t.result.None?
  {
    ghost var before := c.Now();
    ghost var tried := ProcessPending(c, r);
    ghost var retried := c.Now();
    pick := c.selector.SelectFileForCleaning(
      m, s.minUtilization, s.minAge, s.force, s.firstActiveTxnFile, s.minFileUtilization);
    t := Trial(before, tried, retried, pick, c.Now(), None, 0, NoFile, c.Now());
  }

  /** One attempt: pick a file, measure it again if asked, process it. */
  method Attempt(c: Cleaner, m: Summaries, s: Settings, turn: Turn)
    returns (o: Attempted, result: Option<S.Result>, ghost t: Trial)
    requires c.protector.Valid() && InOrder(turn.input)
    modifies c`envInvalid, c.selector, c.protector
    ensures c.selector.Settings() == old(c.selector.Settings())
    ensures IsTrial(c.selector.Settings(), m, s, turn, t)
    ensures t.before == old(c.Now()) && t.after == c.Now() && t.outcome == o && t.result == result
    ensures c.protector.Valid() && HeldMeanwhile(old(c.protector.history), c.protector.history, t)
    ensures SameProtection(old(c.protector.history), c.protector.history)
  {
    var pick;
    pick, t := PickFile(c, m, s, turn.retries);
    if pick.None? {
      return NoFile, None, t;
    }
    ghost var polls;
    o, result, polls := ProcessPick(c, pick.value, turn);
    t := t.(result := result, polls := polls, outcome := o, after := c.Now());
  }

  // ----- what an attempt does to the stages -----------------------------------------------------------

  lemma SelectionMoves(
    c: F.Config, m: Summaries, p: L.Policy, s: P.State, forced: set<FileNum>, s': P.State, forced': set<FileNum>,
    r: Option<F.Pick>)
    requires P.Partitioned(s) && F.SelectionStep(c, m, p, s, forced, s', forced', r)
    ensures P.Partitioned(s') && s'.cleaned == s.cleaned && s'.pendingLns == s.pendingLns
    ensures r.None? ==> s' == s && s.queue == []
    ensures r.Some? ==> s'.being == s.being + {r.value.file} && r.value.file !in s.being
    ensures s.queue != [] ==> r.Some? && r.value.file == s.queue[0]
    ensures r.Some? ==> r.value.file in s'.info && r.value.requiredUtil == s'.info[r.value.file].requiredUtil
    ensures r.Some? && r.value.file in s.info ==> r.value.requiredUtil == s.info[r.value.file].requiredUtil
  {
    if s.queue != [] {
      assert P.Placed(s, s.queue[0]);
      P.StepKeepsPartition(P.Machine(s, None), P.Dequeue);
    } else if r.Some? {
      assert P.Placed(s, r.value.file);
      P.StepKeepsPartition(P.Machine(s, None), P.Select(r.value.file, r.value.requiredUtil));
    }
  }

  /** Where the outcome leaves the file. */
  function StageFor(o: Attempted): Option<P.Status> {
    match o
    case Aborted => Some(P.ToBeCleaned)
    case Interrupted => Some(P.ToBeCleaned)
    case Cleaned(_) => Some(P.Cleaned)
    case Deferred(_) => Some(P.BeingCleaned)
    case _ => None
  }

  lemma RecordedStays(s: P.State, r: Option<S.Result>)
    requires P.Partitioned(s) && r.Some?
    ensures var locked := r.value.lns.lockedLns;
            var s' := P.AddPendingLns(s, locked, |locked|);
            P.Partitioned(s') && s' == s.(pendingLns := s'.pendingLns, anyPending := s'.anyPending)
  {
    var locked := r.value.lns.lockedLns;
    P.OnlyListedArePending(s, locked, |locked|, Lsn(0, 0));
    assert forall f: FileNum :: P.Placed(s, f) ==> P.Placed(P.AddPendingLns(s, locked, |locked|), f);
  }

  /** A file that is put back goes to the end of the queue. */
  function QueueFor(s: P.State, f: FileNum, o: Attempted): seq<FileNum> {
    if o.Aborted? || o.Interrupted? then s.queue + [f] else s.queue
  }

  /** Concluding moves one file, to the stage its outcome names, and no other. */
  lemma ConcludedMoves(s: P.State, f: FileNum, o: Attempted, r: Option<S.Result>)
    requires P.Partitioned(s) && f in s.being && !o.NoFile? && (o.Cleaned? || o.Dropped? || o.Interrupted? ==> r.Some?)
    ensures var s' := Concluded(s, f, o, r);
            && P.Partitioned(s') && s'.queue == QueueFor(s, f, o)
            && s'.being == (if o.Deferred? then s.being else s.being - {f})
            && s'.cleaned == s.cleaned + One(o.Cleaned?, f) && f !in s.cleaned
            && s'.checkpointed == s.checkpointed && s'.safe == s.safe
            && (forall g: FileNum :: Y.StageOf(s', g) == if g == f then StageFor(o) else Y.StageOf(s, g))
  {
    assert P.Placed(s, f);
    var s1 := s;
    if r.Some? && (o.Cleaned? || o.Dropped? || o.Interrupted?) {
      RecordedStays(s, r);
      s1 := P.AddPendingLns(s, r.value.lns.lockedLns, |r.value.lns.lockedLns|);
    }
    var machine := P.Machine(s1, None);
    match o
    case Aborted => P.StepKeepsPartition(machine, P.Retry(f));
    case Interrupted => P.StepKeepsPartition(machine, P.Retry(f));
    case Cleaned(_) => P.StepKeepsPartition(machine, P.Finish(f));
    case Dropped => P.StepKeepsPartition(machine, P.Drop(f));
    case Skipped => P.StepKeepsPartition(machine, P.Drop(f));
    case Deferred(_) =>
  }

  /** An attempt leaves a deferred file in cleaning and adds a cleaned one to the cleaned stage; else both stay. */
  lemma TrialMoves(c: F.Config, m: Summaries, s: Settings, turn: Turn, t: Trial)
    requires IsTrial(c, m, s, turn, t) && P.Partitioned(t.before.sel)
    ensures P.Partitioned(t.after.sel)
    ensures if t.outcome.Deferred?
            then t.outcome.file !in t.before.sel.being && t.after.sel.being == t.before.sel.being + {t.outcome.file}
            else t.after.sel.being == t.before.sel.being
    ensures if t.outcome.Cleaned?
            then
              && t.outcome.file !in t.before.sel.cleaned
              && t.after.sel.cleaned == t.before.sel.cleaned + {t.outcome.file}
            else t.after.sel.cleaned == t.before.sel.cleaned
  {
    RetryKeepsPartition(turn.retries, t.before, t.tried, t.retried);
    SelectionMoves(c, m, PolicyOf(s), t.retried.sel, t.retried.forced, t.picked.sel, t.picked.forced, t.pick);
    if t.pick.Some? {
      ConcludedMoves(t.picked.sel, t.pick.value.file, t.outcome, t.result);
    }
  }

  /** Every LN on the list is pending, as the list describes it. */
  predicate AllPending(locked: seq<(Lsn, LnInfo)>, pending: map<Lsn, LnInfo>) {
    forall i :: 0 <= i < |locked| ==> locked[i].0 in pending && pending[locked[i].0] == locked[i].1
  }

  /** A file becomes cleaned only by a complete scan that asked for nothing to be kept, its locked LNs all pending. */
  lemma CleanedIsScanned(c: F.Config, m: Summaries, s: Settings, turn: Turn, t: Trial)
    requires IsTrial(c, m, s, turn, t) && t.outcome.Cleaned? && InOrder(turn.input)
    ensures turn.input.Readable? && t.result.Some?
    ensures t.result.value == S.FullScan(t.outcome.file, turn.input.entries, turn.input.obsolete, turn.input.answers)
    ensures AllPending(t.result.value.lns.lockedLns, t.after.sel.pendingLns)
  {
    var f, in', r := t.outcome.file, turn.input, t.result.value;
    S.UnstoppedIsFull(r, f, in'.entries, in'.obsolete, in'.answers, in'.budget, t.polls);
    var lns := S.Live(f, in'.entries, in'.obsolete, |in'.entries|);
    S.LockedAreDistinct(f, in'.entries, in'.obsolete, in'.answers, |lns|);
    forall i | 0 <= i < |r.lns.lockedLns|
      ensures r.lns.lockedLns[i].0 in t.after.sel.pendingLns
      ensures t.after.sel.pendingLns[r.lns.lockedLns[i].0] == r.lns.lockedLns[i].1
    {
      P.ListedArePending(t.picked.sel, r.lns.lockedLns, |r.lns.lockedLns|, i);
    }
  }

  /** No file is picked exactly when none is queued and the description of the choice yields none. */
  lemma NoFileIff(c: F.Config, m: Summaries, s: Settings, turn: Turn, t: Trial)
    requires IsTrial(c, m, s, turn, t) && P.Partitioned(t.before.sel)
    ensures t.outcome.NoFile? <==>
            && t.before.sel.queue == []
            && L.IsChoice(m, t.before.sel.info.Keys, PolicyOf(s), t.before.forced, c.force, None)
    ensures t.before.sel.queue != [] ==> t.pick.Some? && t.pick.value.file == t.before.sel.queue[0]
  {
    RetryKeepsPartition(turn.retries, t.before, t.tried, t.retried);
    SelectionMoves(c, m, PolicyOf(s), t.retried.sel, t.retried.forced, t.picked.sel, t.picked.forced, t.pick);
    assert t.retried.sel.info.Keys == t.before.sel.info.Keys;
    if t.before.sel.queue == [] && t.pick.Some? {
      if L.IsChoice(m, t.before.sel.info.Keys, PolicyOf(s), t.before.forced, c.force, None) {
        L.ChoiceIsUnique(m, t.before.sel.info.Keys, PolicyOf(s), t.before.forced, c.force, None,
                         Some(t.pick.value.file));
      }
    }
  }

  // ----- the pass -------------------------------------------------------------------------------------

  /** Subtraction that stops at zero. */
  function SaturatingSub(a: nat, b: nat): nat {
    if a >= b then a - b else 0
  }

  function UpTo(m: Summaries, newest: FileNum): Summaries {
    map f | f in m && f <= newest :: m[f]
  }

  /** The attempts of a pass, the latest outermost. */
  datatype Trace = Begun(start: Env) | Then(init: Trace, trial: Trial)

  function Length(trace: Trace): nat {
    match trace
    case Begun(_) => 0
    case Then(init, _) => Length(init) + 1
  }

  /** Where the attempts start from, and where they lead. */
  function StartOf(trace: Trace): Env {
    match trace
    case Begun(start) => start
    case Then(init, _) => StartOf(init)
  }

  function EndOf(trace: Trace): Env {
    match trace
    case Begun(start) => start
    case Then(_, t) => t.after
  }

  /** The files cleaned, and those deferred, in order. */
  function CleanedIn(trace: Trace): seq<FileNum> {
    match trace
    case Begun(_) => []
    case Then(init, t) => CleanedIn(init) + if t.outcome.Cleaned? then [t.outcome.file] else []
  }

  function DeferredIn(trace: Trace): seq<FileNum> {
    match trace
    case Begun(_) => []
    case Then(init, t) => DeferredIn(init) + if t.outcome.Deferred? then [t.outcome.file] else []
  }

  /** Entries read of the files cleaned. */
  function EntriesIn(trace: Trace): nat {
    match trace
    case Begun(_) => 0
    case Then(init, t) =>
      EntriesIn(init) + if t.outcome.Cleaned? && t.result.Some? then t.result.value.entriesRead else 0
  }

  /** What a pass is given: the files asked for, the cap, summaries, newest file, settings, and the surroundings. */
  datatype Plan = Plan(
    nFiles: nat, cap: nat, initial: Summaries, newest: FileNum, s: Settings, turns: nat -> Turn)

  /** The summaries the next attempt chooses from: refreshed once a file is cleaned, without files that are new. */
  function SummariesAt(p: Plan, trace: Trace): Summaries {
    if CleanedIn(trace) == [] then p.initial else UpTo(p.turns(Length(trace)).summaries, p.newest)
  }

  /** The last attempt was fatal. */
  predicate IsAborted(trace: Trace) {
    trace.Then? && trace.trial.outcome.Aborted?
  }

  /** The loop ends before another attempt. */
  predicate IsOver(p: Plan, trace: Trace) {
    || Length(trace) >= p.cap || SaturatingSub(Length(trace), |DeferredIn(trace)|) >= p.nFiles
    || p.turns(Length(trace)).shutdown || (trace.Then? && trace.trial.outcome.NoFile?) || IsAborted(trace)
  }

  /** The attempt `t` was made after `init` because the loop was not over, on what `init` left. */
  ghost predicate GoesOn(c: F.Config, p: Plan, init: Trace, t: Trial) {
    && !IsOver(p, init) && t.before == EndOf(init)
    && IsTrial(c, SummariesAt(p, init), p.s, p.turns(Length(init)), t)
  }

  predicate Within(part: Trace, trace: Trace) {
    part == trace || (trace.Then? && Within(part, trace.init))
  }

  ghost predicate IsTrace(c: F.Config, p: Plan, trace: Trace) {
    forall init, t :: Within(Then(init, t), trace) ==> GoesOn(c, p, init, t)
  }

  lemma TraceIff(c: F.Config, p: Plan, init: Trace, t: Trial)
    ensures IsTrace(c, p, Then(init, t)) <==> IsTrace(c, p, init) && GoesOn(c, p, init, t)
  {
    var trace := Then(init, t);
    assert Within(trace, trace);
    forall i, u
      ensures Within(Then(i, u), trace) <==> Then(i, u) == trace || Within(Then(i, u), init)
    {
    }
  }

  ghost predicate GrownBy(start: set<FileNum>, extra: seq<FileNum>, now: set<FileNum>) {
    now == start + P.Elements(extra) && P.Elements(extra) !! start && P.NoDuplicates(extra)
  }

  lemma GrowsByOne(start: set<FileNum>, extra: seq<FileNum>, now: set<FileNum>, f: FileNum)
    requires GrownBy(start, extra, now) && f !in now
    ensures GrownBy(start, extra + [f], now + {f})
  {
    assert P.Elements(extra + [f]) == P.Elements(extra) + {f};
    assert forall i :: 0 <= i < |extra| ==> extra[i] in P.Elements(extra);
  }

  /** The counters against the stages: every deferred file is in cleaning, every cleaned one in the cleaned stage. */
  ghost predicate Tallied(p: Plan, trace: Trace) {
    var start, now, n := StartOf(trace).sel, EndOf(trace).sel, Length(trace);
    && P.Partitioned(now) && n <= p.cap
    && |CleanedIn(trace)| + |DeferredIn(trace)| <= n && |CleanedIn(trace)| <= p.nFiles
    && GrownBy(start.being, DeferredIn(trace), now.being)
    && GrownBy(start.cleaned, CleanedIn(trace), now.cleaned)
  }

  lemma TallyOneMore(c: F.Config, p: Plan, trace: Trace, t: Trial)
    requires Tallied(p, trace) && GoesOn(c, p, trace, t)
    ensures Tallied(p, Then(trace, t))
  {
    TrialMoves(c, SummariesAt(p, trace), p.s, p.turns(Length(trace)), t);
    var start := StartOf(trace).sel;
    if t.outcome.Deferred? {
      GrowsByOne(start.being, DeferredIn(trace), t.before.sel.being, t.outcome.file);
    } else if t.outcome.Cleaned? {
      GrowsByOne(start.cleaned, CleanedIn(trace), t.before.sel.cleaned, t.outcome.file);
    }
  }

  lemma {:induction false} TraceTallies(c: F.Config, p: Plan, trace: Trace)
    requires IsTrace(c, p, trace) && P.Partitioned(StartOf(trace).sel)
    ensures Tallied(p, trace)
  {
    match trace
    case Begun(_) =>
      assert P.Elements([]) == {};
    case Then(init, t) =>
      TraceIff(c, p, init, t);
      TraceTallies(c, p, init);
      TallyOneMore(c, p, init, t);
  }

  /** What the loop keeps count of. */
  datatype Counts = Counts(filesCleaned: nat, entriesRead: nat, deferred: seq<FileNum>)

  function CountsOf(trace: Trace): Counts {
    Counts(|CleanedIn(trace)|, EntriesIn(trace), DeferredIn(trace))
  }

  function Counted(k: Counts, o: Attempted, result: Option<S.Result>): Counts {
    match o
    case Deferred(f) => k.(deferred := k.deferred + [f])
    case Cleaned(_) =>
      k.(filesCleaned := k.filesCleaned + 1,
         entriesRead := k.entriesRead + if result.Some? then result.value.entriesRead else 0)
    case _ => k
  }

  lemma CountsOneMore(trace: Trace, t: Trial)
    ensures CountsOf(Then(trace, t)) == Counted(CountsOf(trace), t.outcome, t.result)
  {
    assert DeferredIn(trace) + [] == DeferredIn(trace);
  }

  lemma SameTwice(h1: seq<H.Call>, h2: seq<H.Call>, h3: seq<H.Call>)
    requires SameProtection(h1, h2) && SameProtection(h2, h3)
    ensures SameProtection(h1, h3)
  {
  }

  /** The next attempt of a pass that is not over. */
  method AttemptNext(c: Cleaner, p: Plan, k: Counts, attempt: nat, ghost trace: Trace)
    returns (o: Attempted, k': Counts, ghost t: Trial)
    requires c.protector.Valid() && InOrder(p.turns(attempt).input)
    requires IsTrace(c.selector.Settings(), p, trace) && !IsOver(p, trace)
    requires Length(trace) == attempt && EndOf(trace) == c.Now() && CountsOf(trace) == k
    modifies c`envInvalid, c.selector, c.protector
    ensures c.selector.Settings() == old(c.selector.Settings()) && o == t.outcome
    ensures IsTrace(c.selector.Settings(), p, Then(trace, t))
    ensures t.after == c.Now() && CountsOf(Then(trace, t)) == k'
    ensures c.protector.Valid() && SameProtection(old(c.protector.history), c.protector.history)
  {
    var turn := p.turns(attempt);
    var m := if k.filesCleaned > 0 then UpTo(turn.summaries, p.newest) else p.initial;
    var result;
    o, result, t := Attempt(c, m, p.s, turn);
    k' := Counted(k, o, result);
    TraceIff(c.selector.Settings(), p, trace, t);
    CountsOneMore(trace, t);
  }

  /** The loop of a pass. */
  method Attempts(c: Cleaner, p: Plan) returns (k: Counts, ghost trace: Trace, aborted: bool)
    requires c.protector.Valid() && forall i :: InOrder(p.turns(i).input)
    modifies c`envInvalid, c.selector, c.protector
    ensures c.selector.Settings() == old(c.selector.Settings())
    ensures IsTrace(c.selector.Settings(), p, trace) && IsOver(p, trace)
    ensures StartOf(trace) == old(c.Now()) && EndOf(trace) == c.Now() && CountsOf(trace) == k
    ensures aborted <==> IsAborted(trace)
    ensures c.protector.Valid() && SameProtection(old(c.protector.history), c.protector.history)
  {
    k, trace, aborted := Counts(0, 0, []), Begun(c.Now()), false;
    for attempt := 0 to p.cap
      invariant c.selector.Settings() == old(c.selector.Settings())
      invariant IsTrace(c.selector.Settings(), p, trace)
      invariant Length(trace) == attempt && (trace.Then? ==> !trace.trial.outcome.NoFile?) && !IsAborted(trace)
      invariant StartOf(trace) == old(c.Now()) && EndOf(trace) == c.Now() && CountsOf(trace) == k
      invariant c.protector.Valid() && SameProtection(old(c.protector.history), c.protector.history)
    {
      if SaturatingSub(attempt, |k.deferred|) >= p.nFiles || p.turns(attempt).shutdown {
        return;
      }
      ghost var before := c.protector.history;
      var o;
      ghost var t;
      o, k, t := AttemptNext(c, p, k, attempt, trace);
      SameTwice(old(c.protector.history), before, c.protector.history);
      trace := Then(trace, t);
      if o.NoFile? || o.Aborted? {
        aborted := o.Aborted?;
        return;
      }
    }
  }

  /** Every deferred file goes back to the queue, however the pass ended. */
  method RestoreDeferred(selector: F.FileSelector, deferred: seq<FileNum>)
    modifies selector`info, selector`queue, selector`being
    ensures selector.View() == P.PutBackAll(old(selector.View()), deferred, |deferred|)
  {
    ghost var before := selector.View();
    for i := 0 to |deferred|
      invariant selector.View() == P.PutBackAll(before, deferred, i)
    {
      selector.PutBackFileForCleaning(deferred[i]);
    }
  }

  /** Files in cleaning that are put back queue up behind the others in their order, and nothing else moves. */
  lemma PutBackQueuesOne(s: P.State, f: FileNum)
    requires P.Partitioned(s) && f in s.being
    ensures var s' := P.PutBack(s, f);
            && P.Partitioned(s') && s'.queue == s.queue + [f] && s'.being == s.being - {f}
            && s' == s.(queue := s'.queue, being := s'.being, info := s'.info)
  {
    P.StepKeepsPartition(P.Machine(s, None), P.Retry(f));
  }

  lemma {:induction false} PutBackQueues(s: P.State, files: seq<FileNum>, n: nat)
    requires P.Partitioned(s) && n <= |files| && P.NoDuplicates(files) && P.Elements(files) <= s.being
    ensures var s' := P.PutBackAll(s, files, n);
            && P.Partitioned(s') && s'.queue == s.queue + files[..n] && s'.being == s.being - P.Elements(files[..n])
            && s' == s.(queue := s'.queue, being := s'.being, info := s'.info)
  {
    if n == 0 {
      assert s.queue + files[..0] == s.queue && P.Elements(files[..0]) == {};
    } else {
      var before := P.PutBackAll(s, files, n - 1);
      PutBackQueues(s, files, n - 1);
      assert files[n - 1] in P.Elements(files) && files[n - 1] !in files[..n - 1];
      PutBackQueuesOne(before, files[n - 1]);
      assert files[..n] == files[..n - 1] + [files[n - 1]];
      assert P.Elements(files[..n]) == P.Elements(files[..n - 1]) + {files[n - 1]};
    }
  }

  /** The plan of a pass over the files there are when it starts. */
  ghost predicate IsPlan(p: Plan, nFiles: nat, initial: Summaries, queued: nat, s: Settings, turns: nat -> Turn) {
    && p.cap >= 1 && p.cap >= |initial| && p.cap >= queued && p.cap in {1, |initial|, queued}
    && p.nFiles <= nFiles && p.nFiles <= p.cap && p.nFiles in {nFiles, p.cap}
    && p.initial == initial && p.s == s && p.turns == turns
    && (if initial == map[] then p.newest == 0 else L.IsNewest(initial, p.newest))
  }

  method MakePlan(nFiles: nat, initial: Summaries, queued: nat, s: Settings, turns: nat -> Turn) returns (p: Plan)
    ensures IsPlan(p, nFiles, initial, queued, s, turns)
  {
    var newest: FileNum := 0;
    if initial != map[] {
      newest := L.NewestFile(initial);
    }
    var cap := Max(Max(|initial|, queued), 1);
    p := Plan(Min(nFiles, cap), cap, initial, newest, s, turns);
  }

  /** The pipeline once the attempts are over and the deferred files are back in the queue. */
  function Restored(trace: Trace): P.State {
    P.PutBackAll(EndOf(trace).sel, DeferredIn(trace), |DeferredIn(trace)|)
  }

  /** The files of a pass; meanwhile the environment may be found invalid by others. */
  method CleanFiles(c: Cleaner, p: Plan, invalidAfter: bool) returns (k: Counts, ghost trace: Trace, aborted: bool)
    requires c.protector.Valid() && forall i :: InOrder(p.turns(i).input)
    modifies c`envInvalid, c.selector, c.protector
    ensures c.selector.Settings() == old(c.selector.Settings())
    ensures IsTrace(c.selector.Settings(), p, trace) && IsOver(p, trace)
    ensures StartOf(trace) == old(c.Now()) && CountsOf(trace) == k && (aborted <==> IsAborted(trace))
    ensures c.selector.View() == Restored(trace) && c.envInvalid == (invalidAfter || EndOf(trace).invalid)
    ensures c.protector.Valid() && SameProtection(old(c.protector.history), c.protector.history)
  {
    k, trace, aborted := Attempts(c, p);
    RestoreDeferred(c.selector, k.deferred);
    if invalidAfter {
      c.envInvalid := true;
    }
  }

  /** How a pass ends.  `Partial` reports files that could not be read after the others were dealt with. */
  datatype Ending =
    | Refused
    | Stopped
    | Invalidated
    | Partial(deleted: nat)
    | Done(filesCleaned: nat, deleted: nat, entriesRead: nat)

  predicate Deletes(e: Ending) {
    e.Partial? || e.Done?
  }

  /** After the files: errors first, then the deletion of the safe files. */
  predicate IsEnding(e: Ending, aborted: bool, invalid: bool, k: Counts) {
    && (e.Stopped? <==> aborted)
    && (e.Invalidated? <==> !aborted && invalid)
    && (e.Partial? <==> !aborted && !invalid && k.deferred != [])
    && (e.Done? <==> !aborted && !invalid && k.deferred == [])
    && (e.Done? ==> e.filesCleaned == k.filesCleaned && e.entriesRead == k.entriesRead)
  }

  /** The safe files and the waiting ones have been dealt with, from the books `b` on, as `e` reports. */
  ghost predicate IsSettledFrom(c: Cleaner, b: Books, disk: Disk, e: Ending)
    reads c, c.selector, c.protector
  {
    if Deletes(e) then c.Kept(e.deleted) == Closed(c.protector.history, disk, b) else c.Kept(0) == b
  }

  /** The pipeline after the deletion, if there was one; `safe` are the files that stay. */
  function Swept(s: P.State, e: Ending, safe: set<FileNum>): P.State {
    if Deletes(e) then s.(safe := safe, info := s.info - s.safe) else s
  }

  method EndPass(c: Cleaner, aborted: bool, k: Counts, disk: Disk) returns (e: Ending)
    requires c.protector.Valid()
    modifies c.selector`info, c.selector`safe, c`pendingDeletions, c`profile, c`tracked
    ensures IsEnding(e, aborted, c.envInvalid, k) && IsSettledFrom(c, old(c.Kept(0)), disk, e)
    ensures c.selector.View() == Swept(old(c.selector.View()), e, c.selector.safe)
  {
    if aborted {
      return Stopped;
    }
    if c.envInvalid {
      return Invalidated;
    }
    var deleted := c.DeleteSafeFiles(disk);
    var _ := c.DeletePendingFiles(disk);
    e := if k.deferred != [] then Partial(deleted) else Done(k.filesCleaned, deleted, k.entriesRead);
  }

  /** The files of a pass, and what is done after them. */
  method CleanAndDelete(c: Cleaner, p: Plan, invalidAfter: bool, disk: Disk) returns (e: Ending, ghost trace: Trace)
    requires c.protector.Valid() && forall i :: InOrder(p.turns(i).input)
    modifies c, c.selector, c.protector
    ensures StartOf(trace) == old(c.Now())
    ensures IsTrace(c.selector.Settings(), p, trace) && IsOver(p, trace)
    ensures IsEnding(e, IsAborted(trace), invalidAfter || EndOf(trace).invalid, CountsOf(trace))
    ensures IsSettledFrom(c, old(c.Kept(0)).(safe := Restored(trace).safe), disk, e)
    ensures c.selector.View() == Swept(Restored(trace), e, c.selector.safe)
    ensures c.protector.Valid() && SameProtection(old(c.protector.history), c.protector.history)
  {
    var k, aborted;
    k, trace, aborted := CleanFiles(c, p, invalidAfter);
    assert c.Kept(0) == old(c.Kept(0)).(safe := c.selector.View().safe);
    e := EndPass(c, aborted, k, disk);
  }

  /**
   A pass: refused when shut down or invalid; else attempts until the loop is over, the deferred files back in the
   queue and, unless an attempt was fatal or the environment is invalid by then, the deletion of the safe files.
   */
  method DoClean(
    c: Cleaner, nFiles: nat, initial: Summaries, s: Settings, shutdown: bool, turns: nat -> Turn, invalidAfter: bool,
    disk: Disk)
    returns (e: Ending, ghost p: Plan, ghost trace: Trace)
    requires c.protector.Valid() && forall i :: InOrder(turns(i).input)
    modifies c, c.selector, c.protector
    ensures StartOf(trace) == old(c.Now())
    ensures e.Refused? <==> shutdown || old(c.envInvalid)
    ensures e.Refused? ==> trace.Begun? && c.Now() == old(c.Now()) && c.Kept(0) == old(c.Kept(0))
    ensures !e.Refused? ==> IsPlan(p, nFiles, initial, |old(c.selector.queue)|, s, turns)
    ensures !e.Refused? ==> IsTrace(c.selector.Settings(), p, trace) && IsOver(p, trace)
    ensures !e.Refused? ==>
              IsEnding(e, IsAborted(trace), invalidAfter || EndOf(trace).invalid, CountsOf(trace))
    ensures !e.Refused? ==> IsSettledFrom(c, old(c.Kept(0)).(safe := Restored(trace).safe), disk, e)
    ensures !e.Refused? ==> c.selector.View() == Swept(Restored(trace), e, c.selector.safe)
    ensures c.protector.Valid() && SameProtection(old(c.protector.history), c.protector.history)
  {
    trace, p := Begun(c.Now()), Plan(nFiles, 0, initial, 0, s, turns);
    if shutdown || c.envInvalid {
      return Refused, p, trace;
    }
    var plan := MakePlan(nFiles, initial, |c.selector.queue|, s, turns);
    e, trace := CleanAndDelete(c, plan, invalidAfter, disk);
    p := plan;
  }

  /**
   What a pass amounts to, from a partitioned pipeline on: at most as many attempts as there were files, at most
   `nFiles` of them cleaned, each one file more in the cleaned stage; nothing is left in cleaning, and the deferred
   files are at the end of the queue.
   */
  lemma PassConserves(c: F.Config, p: Plan, trace: Trace)
    requires IsTrace(c, p, trace) && P.Partitioned(StartOf(trace).sel)
    ensures var n, deferred, done := Length(trace), DeferredIn(trace), CleanedIn(trace);
            var start, end, after := StartOf(trace).sel, EndOf(trace).sel, Restored(trace);
            && n <= p.cap && |done| <= Min(p.nFiles, p.cap) && |done| + |deferred| <= n
            && P.Partitioned(after) && after.being == start.being && after.queue == end.queue + deferred
            && GrownBy(start.cleaned, done, after.cleaned)
  {
    TraceTallies(c, p, trace);
    var deferred, end := DeferredIn(trace), EndOf(trace).sel;
    PutBackQueues(end, deferred, |deferred|);
    assert deferred[..|deferred|] == deferred;
  }

  /**
   A pass that ends early says why: enough files were attempted, a shutdown was seen, the last attempt was fatal, or
   nothing was queued and the description of the choice yielded nothing.
   */
  lemma PassEndsForAReason(c: F.Config, p: Plan, trace: Trace)
    requires IsTrace(c, p, trace) && IsOver(p, trace) && P.Partitioned(StartOf(trace).sel) && Length(trace) < p.cap
    ensures || Length(trace) - |DeferredIn(trace)| >= p.nFiles || p.turns(Length(trace)).shutdown || IsAborted(trace)
            || (trace.Then? && trace.trial.before.sel.queue == [] &&
                L.IsChoice(SummariesAt(p, trace.init), trace.trial.before.sel.info.Keys, PolicyOf(p.s),
                           trace.trial.before.forced, c.force, None))
  {
    TraceTallies(c, p, trace);
    if trace.Then? && trace.trial.outcome.NoFile? {
      TraceIff(c, p, trace.init, trace.trial);
      TraceTallies(c, p, trace.init);
      NoFileIff(c, SummariesAt(p, trace.init), p.s, p.turns(Length(trace.init)), trace.trial);
    }
  }

  /**
   Conversely, an attempt is made only while fewer files than asked for were tried, files put off not counted, no
   shutdown is seen, and the attempt before neither failed nor found nothing.
   */
  lemma AttemptIsDue(c: F.Config, p: Plan, trace: Trace, init: Trace, t: Trial)
    requires IsTrace(c, p, trace) && Within(Then(init, t), trace)
    ensures Length(init) < p.cap && Length(init) - |DeferredIn(init)| < p.nFiles && !p.turns(Length(init)).shutdown
    ensures init.Then? ==> !init.trial.outcome.NoFile? && !init.trial.outcome.Aborted?
    ensures t.before == EndOf(init)
  {
    assert GoesOn(c, p, init, t);
  }

  /** Once a file is cleaned the summaries are the current ones, without files newer than all at the start. */
  lemma ChosenAmong(
    p: Plan, nFiles: nat, initial: Summaries, queued: nat, s: Settings, turns: nat -> Turn, trace: Trace, f: FileNum)
    requires IsPlan(p, nFiles, initial, queued, s, turns)
    ensures var m, now := SummariesAt(p, trace), turns(Length(trace)).summaries;
            if CleanedIn(trace) == [] then m == initial
            else
              && (f in m <==> f in now && (f == 0 || exists g: FileNum :: f <= g && g in initial))
              && (f in m ==> m[f] == now[f])
  {
    if initial != map[] {
      assert p.newest in initial;
    }
  }

  function FirstOf(trace: Trace): Trial
    requires trace.Then?
  {
    if trace.init.Begun? then trace.trial else FirstOf(trace.init)
  }

  lemma {:induction false} FirstTrial(c: F.Config, p: Plan, trace: Trace)
    requires IsTrace(c, p, trace) && trace.Then?
    ensures FirstOf(trace).before == StartOf(trace) && IsTrial(c, p.initial, p.s, p.turns(0), FirstOf(trace))
  {
    TraceIff(c, p, trace.init, trace.trial);
    if trace.init.Then? {
      FirstTrial(c, p, trace.init);
    }
  }

  /** With anything queued, files asked for and no shutdown, the first attempt takes the oldest queued file. */
  lemma QueuedFileIsTaken(c: F.Config, p: Plan, trace: Trace)
    requires IsTrace(c, p, trace) && IsOver(p, trace) && P.Partitioned(StartOf(trace).sel)
    requires StartOf(trace).sel.queue != [] && p.nFiles > 0 && p.cap > 0 && !p.turns(0).shutdown
    ensures trace.Then? && FirstOf(trace).pick.Some? && FirstOf(trace).pick.value.file == StartOf(trace).sel.queue[0]
  {
    FirstTrial(c, p, trace);
    NoFileIff(c, p.initial, p.s, p.turns(0), FirstOf(trace));
  }
}

/**
 The deletion pipeline as values: which stage each file is in, what is pending, and every
 transition of the file selector.  The class `FileSelector` refines these functions.
 */
module Pipeline {
  import opened Lsns

  datatype Status = ToBeCleaned | BeingCleaned | Cleaned | Checkpointed | FullyProcessed

  datatype Info = Info(status: Status, requiredUtil: Option<int>)

  datatype State = State(
    info: map<FileNum, Info>,
    queue: seq<FileNum>,
    being: set<FileNum>,
    cleaned: set<FileNum>,
    checkpointed: set<FileNum>,
    safe: set<FileNum>,
    pendingLns: map<Lsn, LnInfo>,
    pendingDbs: set<int>,
    anyPending: bool)

  const EMPTY := State(map[], [], {}, {}, {}, {}, map[], {}, false)

  predicate NothingPending(s: State) {
    s.pendingLns == map[] && s.pendingDbs == {}
  }

  function WithStatus(info: map<FileNum, Info>, files: set<FileNum>, status: Status): map<FileNum, Info> {
    map f | f in info :: if f in files then info[f].(status := status) else info[f]
  }

  // ----- transitions --------------------------------------------------------------------------

  function AddToClean(s: State, f: FileNum, util: Option<int>): State {
    if f in s.info then s
    else s.(queue := s.queue + [f], info := s.info[f := Info(ToBeCleaned, util)])
  }

  /** Dequeues the oldest file; a queued file without an info record is swallowed. */
  function TakeQueued(s: State): State {
    if s.queue == [] then s
    else s.(queue := s.queue[1..],
            being := s.being + {s.queue[0]},
            info := WithStatus(s.info, {s.queue[0]}, BeingCleaned))
  }

  function Claim(s: State, f: FileNum, util: Option<int>): State {
    s.(being := s.being + {f}, info := s.info[f := Info(BeingCleaned, util)])
  }

  function RemoveFromCleaning(s: State, f: FileNum): State {
    s.(being := s.being - {f}, info := s.info - {f})
  }

  function PutBack(s: State, f: FileNum): State {
    if f !in s.being then s
    else s.(being := s.being - {f}, queue := s.queue + [f], info := WithStatus(s.info, {f}, ToBeCleaned))
  }

  function MarkCleaned(s: State, f: FileNum): State {
    s.(being := s.being - {f}, cleaned := s.cleaned + {f}, info := WithStatus(s.info, {f}, Cleaned))
  }

  /** `mark_file_checkpointed` on each of `files`. */
  function MarkCheckpointed(s: State, files: set<FileNum>): State {
    s.(cleaned := s.cleaned - files,
       checkpointed := s.checkpointed + files,
       info := WithStatus(s.info, files, Checkpointed))
  }

  /** `mark_file_fully_processed` on every checkpointed file. */
  function Promote(s: State): State {
    s.(checkpointed := {}, safe := s.safe + s.checkpointed, info := WithStatus(s.info, s.checkpointed, FullyProcessed))
  }

  function UpdateProcessed(s: State): State {
    if NothingPending(s) then Promote(s) else s
  }

  function CheckpointStart(s: State): State {
    s.(anyPending := !NothingPending(s))
  }

  /** The three steps of `process_checkpoint_end` in source order. */
  function CheckpointEnd(s: State, snapshot: set<FileNum>): State {
    var s1 := if s.anyPending then s else Promote(s);
    var s2 := MarkCheckpointed(s1, snapshot * s1.cleaned);
    UpdateProcessed(s2)
  }

  function AddPendingLn(s: State, l: Lsn, info: LnInfo): State {
    s.(anyPending := true, pendingLns := s.pendingLns[l := info])
  }

  function RemovePendingLn(s: State, l: Lsn): State {
    UpdateProcessed(s.(pendingLns := s.pendingLns - {l}))
  }

  function AddPendingDb(s: State, db: int): State {
    s.(anyPending := true, pendingDbs := s.pendingDbs + {db})
  }

  function RemovePendingDb(s: State, db: int): State {
    UpdateProcessed(s.(pendingDbs := s.pendingDbs - {db}))
  }

  function RemoveDeleted(s: State, f: FileNum): State {
    s.(safe := s.safe - {f}, info := s.info - {f})
  }

  /** Restores set membership only: the info record stays gone. */
  function AddSafeBack(s: State, f: FileNum): State {
    s.(safe := s.safe + {f})
  }

  // ----- the same transition on each of a list ---------------------------------------------------

  /** `add_pending_ln` on the first `n` of a list. */
  function AddPendingLns(s: State, lns: seq<(Lsn, LnInfo)>, n: nat): State
    requires n <= |lns|
  {
    if n == 0 then s else AddPendingLn(AddPendingLns(s, lns, n - 1), lns[n - 1].0, lns[n - 1].1)
  }

  predicate Lists(lns: seq<(Lsn, LnInfo)>, n: nat, l: Lsn)
    requires n <= |lns|
  {
    exists i :: 0 <= i < n && lns[i].0 == l
  }

  /** Nothing else changes, and an LN that is not listed is pending as before. */
  lemma {:induction false} OnlyListedArePending(s: State, lns: seq<(Lsn, LnInfo)>, n: nat, l: Lsn)
    requires n <= |lns|
    ensures var s' := AddPendingLns(s, lns, n);
            && s' == s.(pendingLns := s'.pendingLns, anyPending := s.anyPending || n > 0)
            && (l in s'.pendingLns <==> l in s.pendingLns || Lists(lns, n, l))
            && (l in s'.pendingLns && !Lists(lns, n, l) ==> s'.pendingLns[l] == s.pendingLns[l])
  {
    if n == 0 {
    } else {
      OnlyListedArePending(s, lns, n - 1, l);
      assert Lists(lns, n, l) <==> Lists(lns, n - 1, l) || lns[n - 1].0 == l;
    }
  }

  /** A listed LN is pending under what the last of its entries says. */
  lemma {:induction false} ListedArePending(s: State, lns: seq<(Lsn, LnInfo)>, n: nat, i: nat)
    requires i < n <= |lns| && forall j :: i < j < n ==> lns[j].0 != lns[i].0
    ensures var s' := AddPendingLns(s, lns, n);
            lns[i].0 in s'.pendingLns && s'.pendingLns[lns[i].0] == lns[i].1
  {
    if i < n - 1 {
      ListedArePending(s, lns, n - 1, i);
    }
  }

  /** `put_back_file_for_cleaning` on the first `n` of a list. */
  function PutBackAll(s: State, files: seq<FileNum>, n: nat): State
    requires n <= |files|
  {
    if n == 0 then s else PutBack(PutBackAll(s, files, n - 1), files[n - 1])
  }

  // ----- runs -----------------------------------------------------------------------------------

  /** `snapshot` is the cleaned set the checkpointer took at its start, until its end consumes it. */
  datatype Machine = Machine(sel: State, snapshot: Option<set<FileNum>>)

  const START := Machine(EMPTY, None)

  datatype Op =
    | Enqueue(f: FileNum, util: Option<int>)
    | Dequeue
    | Select(f: FileNum, util: Option<int>)
    | Drop(f: FileNum)
    | Retry(f: FileNum)
    | Finish(f: FileNum)
    | Start
    | End
    | AddLn(l: Lsn, info: LnInfo)
    | RemoveLn(l: Lsn)
    | AddDb(db: int)
    | RemoveDb(db: int)
    | Delete(f: FileNum)

  /** The order in which the cleaner and the checkpointer issue calls. */
  predicate Enabled(m: Machine, op: Op) {
    match op
    case Select(f, _) => m.sel.queue == [] && f !in m.sel.info
    case Drop(f) => f in m.sel.being
    case Finish(f) => f in m.sel.being
    case End => m.snapshot.Some?
    case Delete(f) => f in m.sel.safe
    case _ => true
  }

  function Apply(m: Machine, op: Op): Machine
    requires Enabled(m, op)
  {
    match op
    case Enqueue(f, util) => m.(sel := AddToClean(m.sel, f, util))
    case Dequeue => m.(sel := TakeQueued(m.sel))
    case Select(f, util) => m.(sel := Claim(m.sel, f, util))
    case Drop(f) => m.(sel := RemoveFromCleaning(m.sel, f))
    case Retry(f) => m.(sel := PutBack(m.sel, f))
    case Finish(f) => m.(sel := MarkCleaned(m.sel, f))
    case Start => Machine(CheckpointStart(m.sel), Some(m.sel.cleaned))
    case End => Machine(CheckpointEnd(m.sel, m.snapshot.value), None)
    case AddLn(l, info) => m.(sel := AddPendingLn(m.sel, l, info))
    case RemoveLn(l) => m.(sel := RemovePendingLn(m.sel, l))
    case AddDb(db) => m.(sel := AddPendingDb(m.sel, db))
    case RemoveDb(db) => m.(sel := RemovePendingDb(m.sel, db))
    case Delete(f) => m.(sel := RemoveDeleted(m.sel, f))
  }

  ghost predicate IsRun(ms: seq<Machine>, ops: seq<Op>) {
    && |ms| == |ops| + 1
    && ms[0] == START
    && (forall i :: 0 <= i < |ops| ==> Enabled(ms[i], ops[i]) && ms[i + 1] == Apply(ms[i], ops[i]))
  }

  // ----- each file is in exactly one stage ------------------------------------------------------

  predicate Has(s: State, f: FileNum, status: Status) {
    f in s.info && s.info[f].status == status
  }

  /** The stored status names the one collection that holds the file. */
  predicate Placed(s: State, f: FileNum) {
    && (f in s.queue <==> Has(s, f, ToBeCleaned))
    && (f in s.being <==> Has(s, f, BeingCleaned))
    && (f in s.cleaned <==> Has(s, f, Cleaned))
    && (f in s.checkpointed <==> Has(s, f, Checkpointed))
    && (f in s.safe <==> Has(s, f, FullyProcessed))
  }

  ghost predicate NoDuplicates(q: seq<FileNum>) {
    forall i, j :: 0 <= i < j < |q| ==> q[i] != q[j]
  }

  ghost predicate Partitioned(s: State) {
    NoDuplicates(s.queue) && forall f: FileNum :: Placed(s, f)
  }

  function Elements(q: seq<FileNum>): set<FileNum> {
    set f | f in q
  }

  lemma {:induction false} DistinctLength(q: seq<FileNum>)
    requires NoDuplicates(q)
    ensures |Elements(q)| == |q|
  {
    if q == [] {
    } else {
      var n := |q| - 1;
      DistinctLength(q[..n]);
      assert q[n] !in q[..n];
      assert Elements(q) == Elements(q[..n]) + {q[n]} by {
        assert q == q[..n] + [q[n]];
      }
    }
  }

  /** What that means for the collections: pairwise disjoint, together exactly the tracked files. */
  lemma PartitionIsDisjointCover(s: State)
    requires Partitioned(s)
    ensures Elements(s.queue) !! s.being !! s.cleaned !! s.checkpointed !! s.safe
    ensures Elements(s.queue) + s.being + s.cleaned + s.checkpointed + s.safe == s.info.Keys
    ensures |Elements(s.queue)| == |s.queue|
  {
    forall f: FileNum
      ensures !(f in s.queue && f in s.being)
      ensures !((f in s.queue || f in s.being) && f in s.cleaned)
      ensures !((f in s.queue || f in s.being || f in s.cleaned) && f in s.checkpointed)
      ensures !((f in s.queue || f in s.being || f in s.cleaned || f in s.checkpointed) && f in s.safe)
      ensures f in s.info <==> f in s.queue || f in s.being || f in s.cleaned || f in s.checkpointed || f in s.safe
    {
      assert Placed(s, f);
    }
    DistinctLength(s.queue);
  }

  lemma QueueAfter(s: State, op: Op, s': State)
    requires Partitioned(s) && Enabled(Machine(s, None), op) && !op.End? && s' == Apply(Machine(s, None), op).sel
    ensures NoDuplicates(s'.queue)
    ensures op.Dequeue? && s.queue != [] ==> forall f :: f in s'.queue <==> f in s.queue && f != s.queue[0]
  {
    if op.Dequeue? && s.queue != [] {
      assert s.queue == [s.queue[0]] + s'.queue;
    }
    if op.Enqueue? || op.Retry? {
      assert Placed(s, op.f);
    }
  }

  lemma StepKeepsPlaced(m: Machine, op: Op, f: FileNum)
    requires Placed(m.sel, f) && Enabled(m, op)
    requires op.Dequeue? && m.sel.queue != [] ==> (f in m.sel.queue[1..] <==> f in m.sel.queue && f != m.sel.queue[0])
    ensures Placed(Apply(m, op).sel, f)
  {
  }

  lemma StepKeepsPartition(m: Machine, op: Op)
    requires Partitioned(m.sel) && Enabled(m, op)
    ensures Partitioned(Apply(m, op).sel)
  {
    if !op.End? {
      QueueAfter(m.sel, op, Apply(m, op).sel);
    }
    forall f: FileNum
      ensures Placed(Apply(m, op).sel, f)
    {
      assert Placed(m.sel, f);
      StepKeepsPlaced(m, op, f);
    }
  }

  /** Over every run each file is in exactly one stage, the one its record names. */
  lemma {:induction false} RunKeepsPartition(ms: seq<Machine>, ops: seq<Op>, n: nat)
    requires IsRun(ms, ops) && n <= |ops|
    ensures Partitioned(ms[n].sel)
  {
    if n == 0 {
    } else {
      RunKeepsPartition(ms, ops, n - 1);
      StepKeepsPartition(ms[n - 1], ops[n - 1]);
    }
  }

  /**
   Handing a file back to the safe set is outside the discipline: the partition survives it
   exactly when the file was in the safe set already, so for no file that was taken out.
   */
  lemma AddSafeBackKeepsPartitionIff(s: State, f: FileNum)
    requires Partitioned(s)
    ensures Partitioned(AddSafeBack(s, f)) <==> f in s.safe
  {
    var s' := AddSafeBack(s, f);
    assert Placed(s, f);
    if f in s.safe {
      assert s' == s;
    } else {
      assert !Placed(s', f);
    }
  }

  /** So a file that was taken out to be deleted and handed back has no info record, from the first one on. */
  lemma HandedBackIsUnplaced(s: State, f: FileNum)
    requires Partitioned(s) && f in s.safe
    ensures !Partitioned(AddSafeBack(RemoveDeleted(s, f), f))
    ensures Partitioned(EMPTY) && !Partitioned(AddSafeBack(EMPTY, 0))
  {
    StepKeepsPartition(Machine(s, None), Delete(f));
    AddSafeBackKeepsPartitionIff(RemoveDeleted(s, f), f);
    AddSafeBackKeepsPartitionIff(EMPTY, 0);
  }

  // ----- the pending flag -----------------------------------------------------------------------

  predicate FlagCovers(s: State) {
    !s.anyPending ==> NothingPending(s)
  }

  /** What a checkpoint end does, without the flag: advance the snapshot; empty the stage unless something pends. */
  function SimpleCheckpointEnd(s: State, snapshot: set<FileNum>): State {
    UpdateProcessed(MarkCheckpointed(s, snapshot * s.cleaned))
  }

  lemma PromoteTwiceIsOnce(s: State, files: set<FileNum>)
    requires files <= s.cleaned
    ensures Promote(MarkCheckpointed(Promote(s), files)) == Promote(MarkCheckpointed(s, files))
  {
    var a := Promote(MarkCheckpointed(Promote(s), files));
    var b := Promote(MarkCheckpointed(s, files));
    assert a.info == b.info;
    assert a.safe == b.safe;
  }

  /** The early promotion guarded by the flag is invisible as long as the flag covers the pending sets. */
  lemma CheckpointEndIsSimple(s: State, snapshot: set<FileNum>)
    requires FlagCovers(s)
    ensures CheckpointEnd(s, snapshot) == SimpleCheckpointEnd(s, snapshot)
  {
    if !s.anyPending {
      PromoteTwiceIsOnce(s, snapshot * s.cleaned);
    }
  }

  /** After each step the flag covers what is pending, and a file waits behind a checkpoint only while something is. */
  ghost predicate Gated(s: State) {
    && FlagCovers(s)
    && (s.checkpointed != {} ==> !NothingPending(s))
  }

  lemma StepKeepsGate(m: Machine, op: Op)
    requires Gated(m.sel) && Enabled(m, op)
    ensures Gated(Apply(m, op).sel)
  {
  }

  lemma {:induction false} RunKeepsGate(ms: seq<Machine>, ops: seq<Op>, n: nat)
    requires IsRun(ms, ops) && n <= |ops|
    ensures Gated(ms[n].sel)
  {
    if n == 0 {
    } else {
      RunKeepsGate(ms, ops, n - 1);
      StepKeepsGate(ms[n - 1], ops[n - 1]);
    }
  }

  // ----- the checkpoint barrier ----------------------------------------------------------------

  /** Step `i` starts a checkpoint that is still running before step `j`, and `f` is cleaned throughout. */
  ghost predicate SpansCheckpoint(ms: seq<Machine>, ops: seq<Op>, f: FileNum, i: nat, j: nat)
    requires |ms| == |ops| + 1
  {
    && i < j <= |ops| && ops[i].Start?
    && (forall x :: i < x < j ==> !ops[x].Start? && !ops[x].End?)
    && (forall x :: i <= x <= j ==> f in ms[x].sel.cleaned)
  }

  /** After the end of that checkpoint (step `j`), `f` waits in the checkpointed stage up to state `n`. */
  ghost predicate WaitsBehind(ms: seq<Machine>, ops: seq<Op>, f: FileNum, i: nat, j: nat, n: nat)
    requires |ms| == |ops| + 1
  {
    && SpansCheckpoint(ms, ops, f, i, j) && j < n <= |ops| && ops[j].End?
    && (forall x :: j < x <= n ==> f in ms[x].sel.checkpointed)
  }

  /**
   `f` crossed the barrier: cleaned before a checkpoint started (step `i`) and until that same
   checkpoint ended (step `j`), then held back until a step `p` after which nothing is pending,
   and safe to delete ever since.
   */
  ghost predicate CrossedBarrier(ms: seq<Machine>, ops: seq<Op>, f: FileNum, i: nat, j: nat, p: nat, n: nat)
    requires |ms| == |ops| + 1
  {
    && SpansCheckpoint(ms, ops, f, i, j) && j <= p < n <= |ops| && ops[j].End?
    && (forall x :: j < x <= p ==> f in ms[x].sel.checkpointed)
    && NothingPending(ms[p + 1].sel)
    && (forall x :: p < x <= n ==> f in ms[x].sel.safe)
  }

  lemma NewlyCheckpointed(m: Machine, op: Op, f: FileNum)
    requires Enabled(m, op) && f !in m.sel.checkpointed && f in Apply(m, op).sel.checkpointed
    ensures op.End? && f in m.snapshot.value
  {
  }

  lemma NewlySafe(m: Machine, op: Op, f: FileNum)
    requires Gated(m.sel) && Enabled(m, op) && f !in m.sel.safe && f in Apply(m, op).sel.safe
    ensures NothingPending(Apply(m, op).sel)
    ensures f in m.sel.checkpointed || (op.End? && f in m.snapshot.value)
  {
  }

  lemma {:induction false} SnapshotSpans(ms: seq<Machine>, ops: seq<Op>, n: nat, f: FileNum) returns (i: nat)
    requires IsRun(ms, ops) && n <= |ops|
    requires ms[n].snapshot.Some? && f in ms[n].snapshot.value
    ensures SpansCheckpoint(ms, ops, f, i, n)
  {
    if ops[n - 1].Start? {
      i := n - 1;
    } else {
      i := SnapshotSpans(ms, ops, n - 1, f);
    }
  }

  lemma {:induction false} CheckpointedSpans(ms: seq<Machine>, ops: seq<Op>, n: nat, f: FileNum)
    returns (i: nat, j: nat)
    requires IsRun(ms, ops) && n <= |ops| && f in ms[n].sel.checkpointed
    ensures WaitsBehind(ms, ops, f, i, j, n)
  {
    if f in ms[n - 1].sel.checkpointed {
      i, j := CheckpointedSpans(ms, ops, n - 1, f);
    } else {
      NewlyCheckpointed(ms[n - 1], ops[n - 1], f);
      i := SnapshotSpans(ms, ops, n - 1, f);
      j := n - 1;
    }
  }

  /** No file is ever safe to delete without having crossed the barrier. */
  lemma {:induction false} SafeCrossedBarrier(ms: seq<Machine>, ops: seq<Op>, n: nat, f: FileNum)
    returns (i: nat, j: nat, p: nat)
    requires IsRun(ms, ops) && n <= |ops| && f in ms[n].sel.safe
    ensures CrossedBarrier(ms, ops, f, i, j, p, n)
  {
    if f in ms[n - 1].sel.safe {
      i, j, p := SafeCrossedBarrier(ms, ops, n - 1, f);
    } else {
      RunKeepsGate(ms, ops, n - 1);
      NewlySafe(ms[n - 1], ops[n - 1], f);
      p := n - 1;
      if f in ms[n - 1].sel.checkpointed {
        i, j := CheckpointedSpans(ms, ops, n - 1, f);
      } else {
        i := SnapshotSpans(ms, ops, n - 1, f);
        j := n - 1;
      }
    }
  }
}

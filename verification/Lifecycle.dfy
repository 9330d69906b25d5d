/**
 The pipeline told file by file and LN by LN: the stages one file goes through, the order in which
 queued files are taken, and which calls make something pending.  None of it mentions the selector's
 collections.
 */
module Lifecycle {
  import opened Lsns
  import opened Pipeline

  // ----- one file ---------------------------------------------------------------------------------

  /** Where a file stands; nowhere when the selector does not know it. */
  function StageOf(s: State, f: FileNum): Option<Status> {
    if f in s.info then Some(s.info[f].status) else None
  }

  /** What matters to one file about a call: whether it heads the queue, was cleaned at the start, and what pends. */
  datatype Context = Context(first: bool, inSnapshot: bool, nothingPends: bool)

  function Promoted(stage: Option<Status>, nothingPends: bool): Option<Status> {
    if stage == Some(Checkpointed) && nothingPends then Some(FullyProcessed) else stage
  }

  /** The life of one file. */
  function NextStage(stage: Option<Status>, op: Op, f: FileNum, c: Context): Option<Status> {
    match op
    case Enqueue(g, _) => if g == f && stage == None then Some(ToBeCleaned) else stage
    case Dequeue => if stage == Some(ToBeCleaned) && c.first then Some(BeingCleaned) else stage
    case Select(g, _) => if g == f then Some(BeingCleaned) else stage
    case Drop(g) => if g == f then None else stage
    case Retry(g) => if g == f && stage == Some(BeingCleaned) then Some(ToBeCleaned) else stage
    case Finish(g) => if g == f then Some(Cleaned) else stage
    case End =>
      Promoted(if stage == Some(Cleaned) && c.inSnapshot then Some(Checkpointed) else stage, c.nothingPends)
    case RemoveLn(_) => Promoted(stage, c.nothingPends)
    case RemoveDb(_) => Promoted(stage, c.nothingPends)
    case Delete(g) => if g == f then None else stage
    case _ => stage
  }

  /** The file, the snapshot and what pends once the call is over decide. */
  function ContextOf(m: Machine, op: Op, f: FileNum): Context
    requires Enabled(m, op)
  {
    Context(m.sel.queue != [] && m.sel.queue[0] == f,
            m.snapshot.Some? && f in m.snapshot.value,
            NothingPending(Apply(m, op).sel))
  }

  /** Every call takes every file exactly one step along its life. */
  lemma StageFollows(m: Machine, op: Op, f: FileNum)
    requires Partitioned(m.sel) && FlagCovers(m.sel) && Enabled(m, op)
    ensures StageOf(Apply(m, op).sel, f) == NextStage(StageOf(m.sel, f), op, f, ContextOf(m, op, f))
  {
    assert Placed(m.sel, f);
    if op.End? {
      CheckpointEndIsSimple(m.sel, m.snapshot.value);
    }
  }

  /** What a file must meet in a second look is set when it is queued or selected, and kept while it is known. */
  lemma RequirementStays(m: Machine, op: Op, f: FileNum)
    requires Enabled(m, op) && f in Apply(m, op).sel.info
    ensures var util := Apply(m, op).sel.info[f].requiredUtil;
            if f in m.sel.info && op != Select(f, util) then util == m.sel.info[f].requiredUtil
            else op == Enqueue(f, util) || op == Select(f, util)
  {
  }

  // ----- the queue -----------------------------------------------------------------------------------

  /** The file a call puts at the end of the queue: one not yet known, or one given back. */
  function Queues(m: Machine, op: Op): seq<FileNum> {
    match op
    case Enqueue(f, _) => if StageOf(m.sel, f) == None then [f] else []
    case Retry(f) => if StageOf(m.sel, f) == Some(BeingCleaned) then [f] else []
    case _ => []
  }

  /** The file a call takes out at the front. */
  function Takes(m: Machine, op: Op): seq<FileNum> {
    if op.Dequeue? && m.sel.queue != [] then [m.sel.queue[0]] else []
  }

  /** All files queued by the first `n` calls, in order. */
  function QueuedBy(ms: seq<Machine>, ops: seq<Op>, n: nat): seq<FileNum>
    requires n <= |ops| < |ms|
  {
    if n == 0 then [] else QueuedBy(ms, ops, n - 1) + Queues(ms[n - 1], ops[n - 1])
  }

  /** All files they took out, in order. */
  function TakenBy(ms: seq<Machine>, ops: seq<Op>, n: nat): seq<FileNum>
    requires n <= |ops| < |ms|
  {
    if n == 0 then [] else TakenBy(ms, ops, n - 1) + Takes(ms[n - 1], ops[n - 1])
  }

  lemma QueueMoves(m: Machine, op: Op)
    requires Partitioned(m.sel) && Enabled(m, op)
    ensures Takes(m, op) + Apply(m, op).sel.queue == m.sel.queue + Queues(m, op)
  {
    if op.Retry? {
      assert Placed(m.sel, op.f);
    }
  }

  /** Files are taken in the order they were queued: what was taken and what still waits is what was queued. */
  lemma {:induction false} QueueIsFifo(ms: seq<Machine>, ops: seq<Op>, n: nat)
    requires IsRun(ms, ops) && n <= |ops|
    ensures TakenBy(ms, ops, n) + ms[n].sel.queue == QueuedBy(ms, ops, n)
  {
    if n == 0 {
    } else {
      RunKeepsPartition(ms, ops, n - 1);
      QueueIsFifo(ms, ops, n - 1);
      QueueMoves(ms[n - 1], ops[n - 1]);
      Rebracketed(TakenBy(ms, ops, n - 1), Takes(ms[n - 1], ops[n - 1]), ms[n].sel.queue,
                  ms[n - 1].sel.queue, Queues(ms[n - 1], ops[n - 1]));
    }
  }

  lemma Rebracketed(a: seq<FileNum>, b: seq<FileNum>, c: seq<FileNum>, d: seq<FileNum>, e: seq<FileNum>)
    requires b + c == d + e
    ensures a + b + c == a + d + e
  {
    assert a + b + c == a + (b + c) && a + (d + e) == a + d + e;
  }

  // ----- what pends -----------------------------------------------------------------------------------

  predicate TouchesLn(op: Op, l: Lsn) {
    (op.AddLn? || op.RemoveLn?) && op.l == l
  }

  predicate TouchesDb(op: Op, db: int) {
    (op.AddDb? || op.RemoveDb?) && op.db == db
  }

  /** Call `i` made the LN pending, and none since was about it. */
  ghost predicate LnPendsSince(ops: seq<Op>, l: Lsn, i: nat, n: nat) {
    i < n <= |ops| && ops[i].AddLn? && ops[i].l == l && forall j :: i < j < n ==> !TouchesLn(ops[j], l)
  }

  ghost predicate DbPendsSince(ops: seq<Op>, db: int, i: nat, n: nat) {
    i < n <= |ops| && ops[i].AddDb? && ops[i].db == db && forall j :: i < j < n ==> !TouchesDb(ops[j], db)
  }

  lemma PendingAfter(m: Machine, op: Op, l: Lsn)
    requires Enabled(m, op)
    ensures var p, p' := m.sel.pendingLns, Apply(m, op).sel.pendingLns;
            if !TouchesLn(op, l) then (l in p' <==> l in p) && (l in p ==> p'[l] == p[l])
            else if op.AddLn? then l in p' && p'[l] == op.info
            else l !in p'
    ensures forall db :: db in Apply(m, op).sel.pendingDbs <==>
                         if TouchesDb(op, db) then op.AddDb? else db in m.sel.pendingDbs
  {
  }

  /** Over every run an LN is pending exactly when the last call about it added it, and as that call described it. */
  lemma {:induction false} LnPendingIff(ms: seq<Machine>, ops: seq<Op>, n: nat, l: Lsn)
    requires IsRun(ms, ops) && n <= |ops|
    ensures l in ms[n].sel.pendingLns <==> exists i: nat :: LnPendsSince(ops, l, i, n)
    ensures forall i: nat :: LnPendsSince(ops, l, i, n) && l in ms[n].sel.pendingLns ==>
              ms[n].sel.pendingLns[l] == ops[i].info
  {
    if n == 0 {
    } else {
      var before := n - 1;
      LnPendingIff(ms, ops, before, l);
      PendingAfter(ms[n - 1], ops[n - 1], l);
      if TouchesLn(ops[n - 1], l) {
        assert ops[n - 1].AddLn? ==> LnPendsSince(ops, l, n - 1, n);
        assert forall i: nat :: LnPendsSince(ops, l, i, n) ==> i == n - 1;
      } else {
        assert forall i: nat :: LnPendsSince(ops, l, i, n) <==> LnPendsSince(ops, l, i, before);
      }
    }
  }

  lemma {:induction false} DbPendingIff(ms: seq<Machine>, ops: seq<Op>, n: nat, db: int)
    requires IsRun(ms, ops) && n <= |ops|
    ensures db in ms[n].sel.pendingDbs <==> exists i: nat :: DbPendsSince(ops, db, i, n)
  {
    if n == 0 {
    } else {
      var before := n - 1;
      DbPendingIff(ms, ops, before, db);
      PendingAfter(ms[n - 1], ops[n - 1], Lsn(0, 0));
      if TouchesDb(ops[n - 1], db) {
        assert ops[n - 1].AddDb? ==> DbPendsSince(ops, db, n - 1, n);
        assert forall i: nat :: DbPendsSince(ops, db, i, n) ==> i == n - 1;
      } else {
        assert forall i: nat :: DbPendsSince(ops, db, i, n) <==> DbPendsSince(ops, db, i, before);
      }
    }
  }

  /** Call `i` set the flag, and no checkpoint has started since. */
  ghost predicate FlaggedSince(ms: seq<Machine>, ops: seq<Op>, i: nat, n: nat) {
    && i < n <= |ops| < |ms| && (ops[i].AddLn? || ops[i].AddDb? || (ops[i].Start? && !NothingPending(ms[i].sel)))
    && forall j :: i < j < n ==> !ops[j].Start?
  }

  /** The flag says that something was pending when the last checkpoint started, or was added since. */
  lemma {:induction false} FlagIff(ms: seq<Machine>, ops: seq<Op>, n: nat)
    requires IsRun(ms, ops) && n <= |ops|
    ensures ms[n].sel.anyPending <==> exists i: nat :: FlaggedSince(ms, ops, i, n)
  {
    if n == 0 {
    } else {
      var before, op := n - 1, ops[n - 1];
      FlagIff(ms, ops, before);
      if op.AddLn? || op.AddDb? {
        assert FlaggedSince(ms, ops, n - 1, n);
      } else if op.Start? {
        assert forall i: nat :: FlaggedSince(ms, ops, i, n) ==> i == n - 1;
        assert !NothingPending(ms[n - 1].sel) ==> FlaggedSince(ms, ops, n - 1, n);
      } else {
        assert forall i: nat :: FlaggedSince(ms, ops, i, n) <==> FlaggedSince(ms, ops, i, before);
      }
    }
  }
}

/**
 The store the cleaner works beside: BIN slots, the log, the lock table and the
 active transactions, with every step a transaction, a reader or the evictor can take.

 A transaction keeps write locks on the LSN it overwrote (its before-image) and on every
 LSN it logged until it ends.  Writing a record is two steps, logging and publishing, because
 the log write and the slot update are not atomic; other steps may run in between.  The slot
 of a new key does not exist until it is published.  An abort undoes one key at a time and
 then ends the transaction.
 */
module Store {
  import opened Lsns

  /** `data` is the resident copy; `None` means the value must be read from the log. */
  datatype Slot = Slot(lsn: Lsn, data: Option<Bytes>)

  datatype Record = Record(key: Key, value: Bytes)

  datatype Locker = Txn(id: nat) | Cleaner(id: nat) | Reader(id: nat)

  datatype Mode = Read | Write

  /** What a transaction did to one key: `before` is the LSN an abort returns to. */
  datatype Change = Change(before: Option<Lsn>, newest: Lsn, published: bool)

  datatype State = State(
    slots: map<Key, Slot>,
    log: map<Lsn, Record>,
    last: Lsn,
    owners: map<(Lsn, Locker), Mode>,
    waiters: set<(Lsn, Locker)>,
    active: set<nat>,
    changes: map<(nat, Key), Change>)

  const EMPTY := State(map[], map[], Lsn(0, 0), map[], {}, {}, map[])

  // ----- locks -------------------------------------------------------------------------

  predicate HoldsWrite(s: State, l: Lsn, t: nat) {
    (l, Txn(t)) in s.owners && s.owners[(l, Txn(t))] == Write
  }

  /** A non-blocking read is granted when nobody owns the lock, or only readers do and nobody waits. */
  predicate CanRead(s: State, l: Lsn) {
    || (forall p :: p in s.owners ==> p.0 != l)
    || ((forall p :: p in s.owners && p.0 == l ==> s.owners[p] == Read) && (forall p :: p in s.waiters ==> p.0 != l))
  }

  predicate CanWrite(s: State, l: Lsn, t: nat) {
    forall p :: p in s.owners && p.0 == l ==> p.1 == Txn(t)
  }

  /** `get_lock_info(l) == (1, 0)` as seen by owner `c`. */
  predicate SoleOwner(s: State, l: Lsn, c: Locker) {
    && (l, c) in s.owners
    && (forall p :: p in s.owners && p.0 == l ==> p.1 == c)
    && (forall p :: p in s.waiters ==> p.0 != l)
  }

  predicate IsOwned(s: State, l: Lsn) {
    exists p :: p in s.owners && p.0 == l
  }

  predicate IsWriteOwned(s: State, l: Lsn) {
    exists p :: p in s.owners && p.0 == l && s.owners[p] == Write
  }

  predicate IsAwaited(s: State, l: Lsn) {
    exists p :: p in s.waiters && p.0 == l
  }

  /** A read is refused only by a writer, or by somebody waiting for an owner, whoever the owners are. */
  lemma ReadIff(s: State, l: Lsn)
    ensures CanRead(s, l) <==> !IsWriteOwned(s, l) && !(IsOwned(s, l) && IsAwaited(s, l))
  {
  }

  /** Readers share: one more of them refuses the next only when somebody waits. */
  lemma ReadersShare(s: State, r: nat, l: Lsn)
    requires CanRead(s, l)
    ensures var s' := s.(owners := s.owners[(l, Reader(r)) := Read]);
            CanRead(s', l) <==> !IsAwaited(s, l)
  {
    assert IsOwned(s.(owners := s.owners[(l, Reader(r)) := Read]), l) by {
      assert (l, Reader(r)) in s.owners[(l, Reader(r)) := Read];
    }
  }

  // ----- what is reachable --------------------------------------------------------------

  predicate Logged(s: State, l: Lsn, k: Key) {
    l in s.log && s.log[l].key == k
  }

  predicate HeldBy(s: State, t: nat, k: Key, l: Lsn)
    requires (t, k) in s.changes
  {
    s.changes[(t, k)].before == Some(l) || s.changes[(t, k)].newest == l
  }

  /**
   A record is referenced when a slot points at it, or an active transaction may still
   return to it (before-image) or publish it (newest image).
   */
  ghost predicate IsRef(s: State, l: Lsn) {
    && l in s.log
    && var k := s.log[l].key;
      || (k in s.slots && s.slots[k].lsn == l)
      || (exists t :: (t, k) in s.changes && HeldBy(s, t, k, l))
  }

  /** The value a reader of `k` obtains. */
  function ValueOf(s: State, k: Key): Bytes
    requires k in s.slots && s.slots[k].lsn in s.log
  {
    match s.slots[k].data
    case Some(v) => v
    case None => s.log[s.slots[k].lsn].value
  }

  // ----- invariant ----------------------------------------------------------------------

  ghost predicate SlotOk(s: State, k: Key)
    requires k in s.slots
  {
    && Logged(s, s.slots[k].lsn, k)
    && (s.slots[k].data.Some? ==> s.slots[k].data.value == s.log[s.slots[k].lsn].value)
  }

  /** A new key has no slot until its insert is published. */
  ghost predicate ChangeOk(s: State, t: nat, k: Key)
    requires (t, k) in s.changes
  {
    var c := s.changes[(t, k)];
    && t in s.active
    && Logged(s, c.newest, k)
    && HoldsWrite(s, c.newest, t)
    && (c.before.Some? ==> Logged(s, c.before.value, k) && HoldsWrite(s, c.before.value, t))
    && (if k in s.slots
        then HoldsWrite(s, s.slots[k].lsn, t) && (c.published ==> s.slots[k].lsn == c.newest)
        else c.before.None? && !c.published)
  }

  ghost predicate Exclusive(s: State) {
    forall l, x, y :: (l, x) in s.owners && (l, y) in s.owners && s.owners[(l, x)] == Write ==> x == y
  }

  /** No two transactions change the same key: the slot's lock, or the lock on the new key, excludes it. */
  ghost predicate OneWriter(s: State) {
    forall t, u, k :: (t, k) in s.changes && (u, k) in s.changes ==> t == u
  }

  ghost predicate SlotsOk(s: State) {
    forall k :: k in s.slots ==> SlotOk(s, k)
  }

  ghost predicate ChangesOk(s: State) {
    forall t, k :: (t, k) in s.changes ==> ChangeOk(s, t, k)
  }

  ghost predicate LogBounded(s: State) {
    s.last.Before(NULL_LSN) && forall l :: l in s.log ==> !s.last.Before(l)
  }

  ghost predicate LocksBounded(s: State) {
    forall l, x :: (l, x) in s.owners ==> !s.last.Before(l)
  }

  ghost predicate Inv(s: State) {
    LogBounded(s) && LocksBounded(s) && Exclusive(s) && OneWriter(s) && SlotsOk(s) && ChangesOk(s)
  }

  // ----- steps --------------------------------------------------------------------------

  datatype Op =
    | Begin(t: nat)
    | Insert(t: nat, k: Key, v: Bytes, l: Lsn)
    | Log(t: nat, k: Key, v: Bytes, l: Lsn)
    | Publish(t: nat, k: Key, resident: bool)
    | Undo(t: nat, k: Key, resident: bool)
    | End(t: nat)
    | LockRead(r: nat, l: Lsn)
    | UnlockRead(r: nat, l: Lsn)
    | Wait(l: Lsn, x: Locker)
    | StopWaiting(l: Lsn, x: Locker)
    | Strip(k: Key)
    | Load(k: Key)
    | Pad(l: Lsn)

  predicate Fresh(s: State, l: Lsn) {
    s.last.Before(l) && l.Before(NULL_LSN)
  }

  ghost predicate Enabled(s: State, op: Op) {
    match op
    case Begin(t) => t !in s.active
    case Insert(t, k, v, l) => t in s.active && k !in s.slots && Fresh(s, l) && forall u :: (u, k) !in s.changes
    case Log(t, k, v, l) =>
      && t in s.active && k in s.slots && Fresh(s, l)
      && CanWrite(s, s.slots[k].lsn, t)
      && ((t, k) in s.changes ==> s.changes[(t, k)].published)
    case Publish(t, k, _) => (t, k) in s.changes && !s.changes[(t, k)].published
    case Undo(t, k, _) => (t, k) in s.changes
    case End(t) => t in s.active && forall k :: (t, k) in s.changes ==> s.changes[(t, k)].published
    case LockRead(r, l) => CanRead(s, l) && !s.last.Before(l)
    case UnlockRead(r, l) => true
    case Wait(l, x) => true
    case StopWaiting(l, x) => true
    case Strip(k) => k in s.slots
    case Load(k) => k in s.slots
    case Pad(l) => Fresh(s, l)
  }

  function Copy(s: State, l: Lsn, resident: bool): Option<Bytes> {
    if resident && l in s.log then Some(s.log[l].value) else None
  }

  /** The slots once the change `t` made to `k` is rolled back to its before-image. */
  function Undone(s: State, t: nat, k: Key, resident: bool): map<Key, Slot>
    requires (t, k) in s.changes
  {
    match s.changes[(t, k)].before
    case Some(l) => s.slots[k := Slot(l, Copy(s, l, resident))]
    case None => s.slots - {k}
  }

  /** Transaction `t` is over: its locks and its change records go. */
  function Released(s: State, t: nat): State {
    s.(owners := map p | p in s.owners && p.1 != Txn(t) :: s.owners[p],
       active := s.active - {t},
       changes := map p | p in s.changes && p.0 != t :: s.changes[p])
  }

  ghost function Apply(s: State, op: Op): State
    requires Enabled(s, op)
  {
    match op
    case Begin(t) => s.(active := s.active + {t})
    case Insert(t, k, v, l) =>
      s.(log := s.log[l := Record(k, v)],
         last := l,
         owners := s.owners[(l, Txn(t)) := Write],
         changes := s.changes[(t, k) := Change(None, l, false)])
    case Log(t, k, v, l) =>
      var before := if (t, k) in s.changes then s.changes[(t, k)].before else Some(s.slots[k].lsn);
      s.(log := s.log[l := Record(k, v)],
         last := l,
         owners := s.owners[(s.slots[k].lsn, Txn(t)) := Write][(l, Txn(t)) := Write],
         changes := s.changes[(t, k) := Change(before, l, false)])
    case Publish(t, k, resident) =>
      var c := s.changes[(t, k)];
      s.(slots := s.slots[k := Slot(c.newest, Copy(s, c.newest, resident))],
         changes := s.changes[(t, k) := c.(published := true)])
    case Undo(t, k, resident) => s.(slots := Undone(s, t, k, resident), changes := s.changes - {(t, k)})
    case End(t) => Released(s, t)
    case LockRead(r, l) => s.(owners := s.owners[(l, Reader(r)) := Read])
    case UnlockRead(r, l) => s.(owners := s.owners - {(l, Reader(r))})
    case Wait(l, x) => s.(waiters := s.waiters + {(l, x)})
    case StopWaiting(l, x) => s.(waiters := s.waiters - {(l, x)})
    case Strip(k) => s.(slots := s.slots[k := s.slots[k].(data := None)])
    case Load(k) => s.(slots := s.slots[k := s.slots[k].(data := Copy(s, s.slots[k].lsn, true))])
    case Pad(l) => s.(last := l)
  }

  // ----- what the steps mean to a user of the database -----------------------------------

  datatype SpecChange = SpecChange(undo: Option<Bytes>, value: Bytes, published: bool)

  /** A database without a log: values, and what each open transaction would undo. */
  datatype Db = Db(values: map<Key, Bytes>, changes: map<(nat, Key), SpecChange>)

  const EMPTY_DB := Db(map[], map[])

  function Ended(d: Db, t: nat): map<(nat, Key), SpecChange> {
    map p | p in d.changes && p.0 != t :: d.changes[p]
  }

  function Meaning(d: Db, op: Op): Db {
    match op
    case Insert(t, k, v, _) => d.(changes := d.changes[(t, k) := SpecChange(None, v, false)])
    case Log(t, k, v, _) =>
      if k !in d.values then d else
      var undo := if (t, k) in d.changes then d.changes[(t, k)].undo else Some(d.values[k]);
      d.(changes := d.changes[(t, k) := SpecChange(undo, v, false)])
    case Publish(t, k, _) =>
      if (t, k) !in d.changes then d else
      var c := d.changes[(t, k)];
      Db(d.values[k := c.value], d.changes[(t, k) := c.(published := true)])
    case Undo(t, k, _) =>
      if (t, k) !in d.changes then d else
      var undo := d.changes[(t, k)].undo;
      Db(if undo.Some? then d.values[k := undo.value] else d.values - {k}, d.changes - {(t, k)})
    case End(t) => d.(changes := Ended(d, t))
    case _ => d
  }

  predicate ShowsValue(s: State, d: Db, k: Key)
    requires k in s.slots && k in d.values
  {
    s.slots[k].lsn in s.log && d.values[k] == ValueOf(s, k)
  }

  predicate ShowsChange(s: State, d: Db, t: nat, k: Key)
    requires (t, k) in s.changes && (t, k) in d.changes
  {
    var c, e := s.changes[(t, k)], d.changes[(t, k)];
    && c.published == e.published
    && c.newest in s.log && e.value == s.log[c.newest].value
    && c.before.Some? == e.undo.Some?
    && (c.before.Some? ==> c.before.value in s.log && e.undo.value == s.log[c.before.value].value)
  }

  /** A reader of slots and log sees exactly the database `d`, and every abort would restore what `d` says. */
  ghost predicate Shows(s: State, d: Db) {
    && s.slots.Keys == d.values.Keys
    && s.changes.Keys == d.changes.Keys
    && (forall k :: k in s.slots ==> ShowsValue(s, d, k))
    && (forall t, k :: (t, k) in s.changes ==> ShowsChange(s, d, t, k))
  }

  // ----- every step keeps the invariant ---------------------------------------------------

  /** What a step may do to the log and to references: only records after the old end are new. */
  ghost predicate Grows(s: State, s': State) {
    && !s'.last.Before(s.last)
    && (forall l :: l in s.log ==> l in s'.log && s'.log[l] == s.log[l])
    && (forall l :: l in s'.log && !s.last.Before(l) ==> l in s.log)
    && (forall l :: IsRef(s', l) && !s.last.Before(l) ==> IsRef(s, l))
  }

  lemma InsertKeepsInv(s: State, t: nat, k: Key, v: Bytes, l: Lsn)
    requires Inv(s) && Enabled(s, Insert(t, k, v, l))
    ensures Inv(Apply(s, Insert(t, k, v, l)))
  {
    var s' := Apply(s, Insert(t, k, v, l));
    forall u, j | (u, j) in s'.changes
      ensures ChangeOk(s', u, j)
    {
      if (u, j) in s.changes {
        assert ChangeOk(s, u, j);
      }
    }
    assert forall j :: j in s.slots ==> SlotOk(s, j);
  }

  lemma LogKeepsInv(s: State, t: nat, k: Key, v: Bytes, l: Lsn)
    requires Inv(s) && Enabled(s, Log(t, k, v, l))
    ensures Inv(Apply(s, Log(t, k, v, l)))
  {
    var s' := Apply(s, Log(t, k, v, l));
    assert SlotOk(s, k);
    forall u, j | (u, j) in s'.changes
      ensures ChangeOk(s', u, j)
    {
      if (u, j) in s.changes {
        assert ChangeOk(s, u, j);
      }
    }
    forall u | (u, k) in s.changes
      ensures u == t
    {
      assert ChangeOk(s, u, k);
      assert (s.slots[k].lsn, Txn(u)) in s.owners;
    }
    assert forall j :: j in s.slots ==> SlotOk(s, j);
  }

  lemma PublishKeepsInv(s: State, t: nat, k: Key, resident: bool)
    requires Inv(s) && Enabled(s, Publish(t, k, resident))
    ensures Inv(Apply(s, Publish(t, k, resident)))
  {
    var s' := Apply(s, Publish(t, k, resident));
    assert ChangeOk(s, t, k);
    forall u, j | (u, j) in s'.changes
      ensures ChangeOk(s', u, j)
    {
      assert ChangeOk(s, u, j);
    }
    assert forall j :: j in s.slots ==> SlotOk(s, j);
  }

  lemma UndoKeepsInv(s: State, t: nat, k: Key, resident: bool)
    requires Inv(s) && Enabled(s, Undo(t, k, resident))
    ensures Inv(Apply(s, Undo(t, k, resident)))
  {
    var s' := Apply(s, Undo(t, k, resident));
    assert ChangeOk(s, t, k);
    forall u, j | (u, j) in s'.changes
      ensures ChangeOk(s', u, j)
    {
      assert ChangeOk(s, u, j);
    }
    assert forall j :: j in s.slots ==> SlotOk(s, j);
  }

  lemma EndKeepsInv(s: State, t: nat)
    requires Inv(s)
    ensures Inv(Released(s, t))
  {
    var s' := Released(s, t);
    assert forall k :: k in s.slots ==> SlotOk(s, k);
    forall u, k | (u, k) in s'.changes
      ensures ChangeOk(s', u, k)
    {
      assert ChangeOk(s, u, k);
    }
  }

  /** A reader's lock comes or goes; every write lock stays. */
  lemma ReadLockKeepsInv(s: State, op: Op)
    requires Inv(s) && (op.LockRead? || op.UnlockRead?) && Enabled(s, op)
    ensures Inv(Apply(s, op))
  {
    var s' := Apply(s, op);
    assert forall k :: k in s.slots ==> SlotOk(s, k);
    forall t, k | (t, k) in s'.changes
      ensures ChangeOk(s', t, k)
    {
      assert ChangeOk(s, t, k);
    }
  }

  lemma QuietKeepsInv(s: State, op: Op)
    requires Inv(s) && (op.Wait? || op.StopWaiting? || op.Pad? || op.Begin?) && Enabled(s, op)
    ensures Inv(Apply(s, op))
  {
    var s' := Apply(s, op);
    assert forall k :: k in s.slots ==> SlotOk(s, k);
    forall t, k | (t, k) in s'.changes
      ensures ChangeOk(s', t, k)
    {
      assert ChangeOk(s, t, k);
    }
  }

  lemma CacheKeepsInv(s: State, k: Key, data: Option<Bytes>)
    requires Inv(s) && k in s.slots && s.slots[k].lsn in s.log
    requires data.Some? ==> data.value == s.log[s.slots[k].lsn].value
    ensures Inv(s.(slots := s.slots[k := s.slots[k].(data := data)]))
  {
    var s' := s.(slots := s.slots[k := s.slots[k].(data := data)]);
    assert forall j :: j in s.slots ==> SlotOk(s, j);
    forall t, j | (t, j) in s'.changes
      ensures ChangeOk(s', t, j)
    {
      assert ChangeOk(s, t, j);
    }
  }

  lemma StepKeepsInv(s: State, op: Op)
    requires Inv(s) && Enabled(s, op)
    ensures Inv(Apply(s, op))
  {
    match op
    case Insert(t, k, v, l) => InsertKeepsInv(s, t, k, v, l);
    case Log(t, k, v, l) => LogKeepsInv(s, t, k, v, l);
    case Publish(t, k, resident) => PublishKeepsInv(s, t, k, resident);
    case Undo(t, k, resident) => UndoKeepsInv(s, t, k, resident);
    case End(t) => EndKeepsInv(s, t);
    case Strip(k) => assert SlotOk(s, k); CacheKeepsInv(s, k, None);
    case Load(k) => assert SlotOk(s, k); CacheKeepsInv(s, k, Copy(s, s.slots[k].lsn, true));
    case LockRead(_, _) => ReadLockKeepsInv(s, op);
    case UnlockRead(_, _) => ReadLockKeepsInv(s, op);
    case _ => QuietKeepsInv(s, op);
  }

  /** References to records already in the log are never created, only dropped. */
  lemma OldRefStays(s: State, op: Op, l: Lsn)
    requires Enabled(s, op)
    requires IsRef(Apply(s, op), l) && !s.last.Before(l)
    ensures IsRef(s, l)
  {
    var s' := Apply(s, op);
    var k := s'.log[l].key;
    if k in s'.slots && s'.slots[k].lsn == l {
      if k !in s.slots || s.slots[k].lsn != l {
        assert (op.Publish? || op.Undo?) && HeldBy(s, op.t, k, l);
      }
    } else {
      var t :| (t, k) in s'.changes && HeldBy(s', t, k, l);
      assert (t, k) in s.changes && HeldBy(s, t, k, l);
    }
  }

  lemma StepGrows(s: State, op: Op)
    requires LogBounded(s) && Enabled(s, op)
    ensures Grows(s, Apply(s, op))
  {
    forall l | IsRef(Apply(s, op), l) && !s.last.Before(l)
      ensures IsRef(s, l)
    {
      OldRefStays(s, op, l);
    }
  }

  // ----- the first-active-transaction clamp ------------------------------------------------

  /** File `f` is closed, and no open transaction has its newest image of anything in it or before it. */
  ghost predicate Past(s: State, f: FileNum) {
    f < s.last.file && forall p :: p in s.changes ==> f < s.changes[p].newest.file
  }

  /** Once behind every open transaction, a file stays there: whatever is logged later lies further on. */
  lemma StepKeepsPast(s: State, op: Op, f: FileNum)
    requires Enabled(s, op) && Past(s, f)
    ensures Past(Apply(s, op), f)
  {
  }

  // ----- every step means what the database without a log says -----------------------------

  ghost predicate ShowsKey(s: State, d: Db, k: Key) {
    && (k in s.slots <==> k in d.values)
    && (k in s.slots ==> SlotOk(s, k) && ShowsValue(s, d, k) && !s.last.Before(s.slots[k].lsn))
  }

  ghost predicate ShowsPair(s: State, d: Db, t: nat, k: Key) {
    && ((t, k) in s.changes <==> (t, k) in d.changes)
    && ((t, k) in s.changes ==>
          && ChangeOk(s, t, k) && ShowsChange(s, d, t, k) && !s.last.Before(s.changes[(t, k)].newest)
          && (s.changes[(t, k)].before.Some? ==> !s.last.Before(s.changes[(t, k)].before.value)))
  }

  lemma StepShowsKey(s: State, d: Db, op: Op, k: Key)
    requires Enabled(s, op) && ShowsKey(s, d, k)
    requires op.Publish? || op.Undo? ==> ShowsPair(s, d, op.t, k)
    ensures k in Apply(s, op).slots <==> k in Meaning(d, op).values
    ensures k in Apply(s, op).slots ==> ShowsValue(Apply(s, op), Meaning(d, op), k)
  {
  }

  ghost predicate PairAgrees(s: State, d: Db, t: nat, k: Key) {
    ((t, k) in s.changes <==> (t, k) in d.changes) && ((t, k) in s.changes ==> ShowsChange(s, d, t, k))
  }

  lemma LogShowsPair(s: State, d: Db, u: nat, j: Key, v: Bytes, l: Lsn, t: nat, k: Key)
    requires Enabled(s, Log(u, j, v, l)) && ShowsKey(s, d, k) && ShowsPair(s, d, t, k)
    ensures PairAgrees(Apply(s, Log(u, j, v, l)), Meaning(d, Log(u, j, v, l)), t, k)
  {
  }

  lemma PublishShowsPair(s: State, d: Db, u: nat, j: Key, resident: bool, t: nat, k: Key)
    requires Enabled(s, Publish(u, j, resident)) && ShowsPair(s, d, t, k)
    ensures PairAgrees(Apply(s, Publish(u, j, resident)), Meaning(d, Publish(u, j, resident)), t, k)
  {
  }

  lemma StepShowsPair(s: State, d: Db, op: Op, t: nat, k: Key)
    requires Enabled(s, op) && ShowsKey(s, d, k) && ShowsPair(s, d, t, k)
    ensures PairAgrees(Apply(s, op), Meaning(d, op), t, k)
  {
    match op
    case Log(u, j, v, l) => LogShowsPair(s, d, u, j, v, l, t, k);
    case Publish(u, j, resident) => PublishShowsPair(s, d, u, j, resident, t, k);
    case _ =>
  }

  lemma ShowsPointwise(s: State, d: Db)
    requires LogBounded(s) && SlotsOk(s) && ChangesOk(s) && Shows(s, d)
    ensures forall k: Key :: ShowsKey(s, d, k)
    ensures forall t: nat, k: Key :: ShowsPair(s, d, t, k)
  {
    assert forall k :: k in s.slots ==> SlotOk(s, k);
    assert forall t: nat, k :: (t, k) in s.changes ==> ChangeOk(s, t, k);
  }

  lemma ShowsFromPoints(s: State, d: Db)
    requires forall k: Key :: (k in s.slots <==> k in d.values) && (k in s.slots ==> ShowsValue(s, d, k))
    requires forall t: nat, k: Key :: PairAgrees(s, d, t, k)
    ensures Shows(s, d)
  {
    forall p | p in s.changes || p in d.changes
      ensures p in s.changes && p in d.changes
    {
      assert p == (p.0, p.1) && PairAgrees(s, d, p.0, p.1);
    }
    assert forall t: nat, k :: (t, k) in s.changes ==> PairAgrees(s, d, t, k);
  }

  /** Whatever a transaction does, readers go on seeing exactly the database without a log. */
  lemma StepMeaning(s: State, d: Db, op: Op)
    requires Inv(s) && Enabled(s, op) && Shows(s, d)
    ensures Shows(Apply(s, op), Meaning(d, op))
  {
    var s', d' := Apply(s, op), Meaning(d, op);
    ShowsPointwise(s, d);
    forall k: Key
      ensures (k in s'.slots <==> k in d'.values) && (k in s'.slots ==> ShowsValue(s', d', k))
    {
      StepShowsKey(s, d, op, k);
    }
    forall t: nat, k: Key
      ensures PairAgrees(s', d', t, k)
    {
      StepShowsPair(s, d, op, t, k);
    }
    ShowsFromPoints(s', d');
  }
}

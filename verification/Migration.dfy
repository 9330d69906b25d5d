/**
 How the cleaner decides the fate of one LN and moves it: tree lookup, non-blocking read
 lock, recheck, capture of the value, and publication under the BIN latch.
 */
module Migration {
  import opened Lsns
  import opened Store

  datatype BinLookup = NotFound | KnownDeleted | Found(treeLsn: Lsn) | FetchFailed | LiveUnresolved

  datatype Outcome = Migrated | Locked | Obsolete

  /** `registered` databases have a tree to search; `live` ones exist in the environment catalog. */
  datatype Catalog = Catalog(registered: set<int>, live: set<int>)

  datatype Verdict = Registered | LiveNoTree | Gone

  function ResolveVerdict(cat: Catalog, db: int): Verdict {
    if db in cat.registered then Registered
    else if db in cat.live then LiveNoTree
    else Gone
  }

  /** Which reads and writes of the log fail during one attempt; `newLsn` is where the WAL put the copy. */
  datatype Faults = Faults(lookup: bool, recheck: bool, read: bool, fatal: bool, newLsn: Option<Lsn>)

  /** A search sees only registered trees; for any other database it ends up in an empty placeholder. */
  predicate Visible(s: State, cat: Catalog, k: Key) {
    k in s.slots && k.db in cat.registered
  }

  function Lookup(s: State, cat: Catalog, k: Key, faults: Faults): BinLookup {
    if ResolveVerdict(cat, k.db).LiveNoTree? then LiveUnresolved
    else if faults.lookup then FetchFailed
    else if Visible(s, cat, k) then Found(s.slots[k].lsn)
    else NotFound
  }

  /** The value the slot stands for, or nothing when it is not resident and the log read fails. */
  function Captured(s: State, k: Key, readFails: bool): Option<Bytes> {
    if k !in s.slots then None
    else if s.slots[k].data.Some? then s.slots[k].data
    else if readFails || s.slots[k].lsn !in s.log then None
    else Some(s.log[s.slots[k].lsn].value)
  }

  function Moved(s: State, k: Key, v: Bytes, l: Lsn): State
    requires k in s.slots
  {
    s.(slots := s.slots[k := s.slots[k].(lsn := l)], log := s.log[l := Record(k, v)], last := l)
  }

  /** No owner and no waiter but the cleaner itself. */
  predicate Unshared(s: State, l: Lsn) {
    (forall p :: p in s.owners ==> p.0 != l) && (forall p :: p in s.waiters ==> p.0 != l)
  }

  /** `migrate_ln_slot` as one step: nothing else runs between its lock and its release. */
  function Migrate(s: State, cat: Catalog, k: Key, logLsn: Lsn, treeLsn: Lsn, faults: Faults): (State, Outcome) {
    if ResolveVerdict(cat, k.db).LiveNoTree? then (s, Locked)
    else if !CanRead(s, treeLsn) || faults.recheck then (s, Locked)
    else if !Visible(s, cat, k) || s.slots[k].lsn != treeLsn then (s, Obsolete)
    else if Captured(s, k, faults.read).None? then (s, Locked)
    else if treeLsn != logLsn then (s, Obsolete)
    else if !Unshared(s, treeLsn) || faults.newLsn.None? then (s, Locked)
    else (Moved(s, k, Captured(s, k, faults.read).value, faults.newLsn.value), Migrated)
  }

  /** An attempt invalidates the environment when its recheck, or its read of the value, hits a lost file. */
  predicate Invalidates(s: State, cat: Catalog, k: Key, treeLsn: Lsn, faults: Faults) {
    && !ResolveVerdict(cat, k.db).LiveNoTree? && CanRead(s, treeLsn)
    && (faults.recheck
        || (Visible(s, cat, k) && s.slots[k].lsn == treeLsn && Captured(s, k, faults.read).None? && faults.fatal))
  }

  /** The four things that can happen to an LN of a file being cleaned, or to a pending one. */
  datatype Fate = Dead | Kept | Pending | Retained

  /** `process_ln` / `process_found_ln`: from the two answers of the tree to the fate of the LN. */
  function FateOf(lookup: BinLookup, outcome: Outcome): Fate {
    match lookup
    case NotFound => Dead
    case KnownDeleted => Dead
    case FetchFailed => Pending
    case LiveUnresolved => Retained
    case Found(treeLsn) =>
      if treeLsn == NULL_LSN then Dead else
      match outcome
      case Migrated => Kept
      case Locked => Pending
      case Obsolete => Dead
  }

  /** Lookup and migration of one LN with nothing in between. */
  function CleanLn(s: State, cat: Catalog, k: Key, l: Lsn, faults: Faults): (State, Fate) {
    var found := Lookup(s, cat, k, faults);
    if found.Found? && found.treeLsn != NULL_LSN
    then var (s', outcome) := Migrate(s, cat, k, l, found.treeLsn, faults); (s', FateOf(found, outcome))
    else (s, FateOf(found, Locked))
  }

  // ----- the lookup object of the source, with its lock bookkeeping -----------------------

  class SharedTreeLookup {
    const catalog: Catalog
    var store: State
    var envInvalid: bool

    constructor (catalog: Catalog, store: State)
      ensures this.catalog == catalog && this.store == store && !envInvalid
    {
      this.catalog := catalog;
      this.store := store;
      envInvalid := false;
    }

    method LookupParentBin(k: Key, faults: Faults) returns (r: BinLookup)
      modifies this`envInvalid
      ensures r == Lookup(store, catalog, k, faults)
      ensures envInvalid == (old(envInvalid) || r.FetchFailed?)
    {
      if ResolveVerdict(catalog, k.db).LiveNoTree? {
        return LiveUnresolved;
      }
      if faults.lookup {
        envInvalid := true;
        return FetchFailed;
      }
      r := if Visible(store, catalog, k) then Found(store.slots[k].lsn) else NotFound;
    }

    /** Recheck, append and slot update under the latched BIN, with the read lock of `c` held. */
    method PublishMigrationLatched(c: Locker, k: Key, logLsn: Lsn, treeLsn: Lsn, captured: Bytes, newLsn: Option<Lsn>)
      returns (o: Outcome)
      modifies this`store
      ensures o.Migrated? <==>
              && treeLsn == logLsn && k in old(store).slots && old(store).slots[k].lsn == logLsn
              && SoleOwner(old(store), logLsn, c) && newLsn.Some?
      ensures o.Obsolete? <==> treeLsn != logLsn || k !in old(store).slots || old(store).slots[k].lsn != logLsn
      ensures o.Migrated? ==>
                var v := if old(store).slots[k].data.Some? then old(store).slots[k].data.value else captured;
                store == Moved(old(store), k, v, newLsn.value)
      ensures !o.Migrated? ==> store == old(store)
    {
      if treeLsn != logLsn {
        return Obsolete;
      }
      if k !in store.slots || store.slots[k].lsn != logLsn {
        return Obsolete;
      }
      if !SoleOwner(store, logLsn, c) {
        return Locked;
      }
      var data := match store.slots[k].data case Some(d) => d case None => captured;
      if newLsn.None? {
        return Locked;
      }
      var slot := store.slots[k].(lsn := newLsn.value);
      store := store.(log := store.log[newLsn.value := Record(k, data)], last := newLsn.value);
      store := store.(slots := store.slots[k := slot]);
      return Migrated;
    }

    method ReleaseCleanerLock(l: Lsn, c: Locker)
      modifies this`store
      ensures store == old(store).(owners := old(store).owners - {(l, c)})
    {
      store := store.(owners := store.owners - {(l, c)});
    }

    /**
     One migration attempt under the ephemeral locker `c`.  It has exactly the effect of the
     single step `Migrate`: on every exit, early or late, the lock table is as it was found.
     */
    method MigrateLnSlot(c: Locker, k: Key, logLsn: Lsn, treeLsn: Lsn, faults: Faults) returns (o: Outcome)
      requires forall p :: p in store.owners || p in store.waiters ==> p.1 != c
      modifies this`store, this`envInvalid
      ensures (store, o) == Migrate(old(store), catalog, k, logLsn, treeLsn, faults)
      ensures envInvalid == (old(envInvalid) || Invalidates(old(store), catalog, k, treeLsn, faults))
    {
      if ResolveVerdict(catalog, k.db).LiveNoTree? {
        return Locked;
      }
      if !CanRead(store, treeLsn) {
        return Locked;
      }
      ghost var start := store;
      store := store.(owners := store.owners[(treeLsn, c) := Read]);
      assert store.owners - {(treeLsn, c)} == start.owners;
      if faults.recheck {
        envInvalid := true;
        ReleaseCleanerLock(treeLsn, c);
        return Locked;
      }
      if !Visible(store, catalog, k) || store.slots[k].lsn != treeLsn {
        ReleaseCleanerLock(treeLsn, c);
        return Obsolete;
      }
      var data := Captured(store, k, faults.read);
      if data.None? {
        if faults.fatal {
          envInvalid := true;
        }
        ReleaseCleanerLock(treeLsn, c);
        return Locked;
      }
      assert SoleOwner(store, treeLsn, c) <==> Unshared(start, treeLsn);
      o := PublishMigrationLatched(c, k, logLsn, treeLsn, data.value, faults.newLsn);
      ReleaseCleanerLock(treeLsn, c);
    }
  }

  // ----- the fate of an LN, case by case -----------------------------------------------------

  /** The value can be had: it is resident, or its record is there and can be read. */
  predicate IsReadable(s: State, k: Key, readFails: bool) {
    k in s.slots && (s.slots[k].data.Some? || (!readFails && s.slots[k].lsn in s.log))
  }

  /** The slot is found, its lock granted, and its value read. */
  predicate IsReached(s: State, cat: Catalog, k: Key, faults: Faults) {
    && k in s.slots && k.db in cat.registered && s.slots[k].lsn != NULL_LSN
    && CanRead(s, s.slots[k].lsn) && !faults.recheck && IsReadable(s, k, faults.read)
  }

  /**
   The file must be kept for an LN of a live database without a tree.  For any other, unless the lookup fails, the LN
   is dead when its key has no slot, or one that stands elsewhere and could be read; it is moved when its slot stands
   at it, could be read, is nobody else's and the copy can be logged; and else it waits.
   */
  lemma CleanedFateIff(s: State, cat: Catalog, k: Key, l: Lsn, faults: Faults)
    ensures var fate, known := CleanLn(s, cat, k, l, faults).1, k in s.slots && k.db in cat.registered;
            && (fate == Retained <==> k.db in cat.live && k.db !in cat.registered)
            && (fate == Dead <==>
                  && !(k.db in cat.live && k.db !in cat.registered) && !faults.lookup
                  && (known && s.slots[k].lsn != NULL_LSN ==> IsReached(s, cat, k, faults) && s.slots[k].lsn != l))
            && (fate == Kept <==>
                  && !faults.lookup && IsReached(s, cat, k, faults) && s.slots[k].lsn == l
                  && Unshared(s, l) && faults.newLsn.Some?)
  {
  }

  // ----- what one attempt guarantees --------------------------------------------------------

  /** The slot of a key some transaction is changing is write-locked: no cleaner can read-lock it. */
  lemma ChangedKeyIsLocked(s: State, k: Key)
    requires ChangesOk(s) && k in s.slots
    ensures forall t :: (t, k) in s.changes ==> !CanRead(s, s.slots[k].lsn)
  {
    forall t | (t, k) in s.changes
      ensures !CanRead(s, s.slots[k].lsn)
    {
      assert ChangeOk(s, t, k);
      assert (s.slots[k].lsn, Txn(t)) in s.owners;
    }
  }

  /** The record is a new key's, logged by an open transaction that has not made the slot yet. */
  ghost predicate OpenInsert(s: State, k: Key, l: Lsn) {
    k !in s.slots && exists t :: (t, k) in s.changes && s.changes[(t, k)].newest == l
  }

  /** An LN other than its key's read-lockable slot is referenced only as an open insert. */
  lemma OnlyOpenInsertsHide(s: State, k: Key, l: Lsn)
    requires ChangesOk(s) && Logged(s, l, k)
    requires k in s.slots ==> CanRead(s, s.slots[k].lsn) && s.slots[k].lsn != l
    ensures IsRef(s, l) <==> OpenInsert(s, k, l)
  {
    if k in s.slots {
      ChangedKeyIsLocked(s, k);
    } else {
      forall t | (t, k) in s.changes
        ensures HeldBy(s, t, k, l) <==> s.changes[(t, k)].newest == l
      {
        assert ChangeOk(s, t, k);
      }
    }
  }

  lemma MoveKeepsInv(s: State, k: Key, v: Bytes, l: Lsn)
    requires Inv(s) && k in s.slots && Fresh(s, l)
    requires CanRead(s, s.slots[k].lsn) && v == ValueOf(s, k)
    ensures Inv(Moved(s, k, v, l))
    ensures Grows(s, Moved(s, k, v, l))
    ensures !IsRef(Moved(s, k, v, l), s.slots[k].lsn)
  {
    var s' := Moved(s, k, v, l);
    assert SlotOk(s, k);
    forall j | j in s'.slots
      ensures SlotOk(s', j)
    {
      assert SlotOk(s, j);
    }
    forall t, j | (t, j) in s'.changes
      ensures ChangeOk(s', t, j)
    {
      assert ChangeOk(s, t, j);
    }
    forall m | IsRef(s', m) && !s.last.Before(m)
      ensures IsRef(s, m)
    {
      var j := s.log[m].key;
      if !(j in s'.slots && s'.slots[j].lsn == m) {
        var t :| (t, j) in s'.changes && HeldBy(s', t, j, m);
        assert HeldBy(s, t, j, m);
      }
    }
    assert CanRead(s', l);
    OnlyOpenInsertsHide(s', k, s.slots[k].lsn);
  }

  /** Moving a record does not change what any reader sees or any abort restores. */
  lemma MoveIsInvisible(s: State, d: Db, k: Key, v: Bytes, l: Lsn)
    requires Inv(s) && k in s.slots && Fresh(s, l) && SlotOk(s, k) && v == ValueOf(s, k) && Shows(s, d)
    ensures Shows(Moved(s, k, v, l), d)
  {
    var s' := Moved(s, k, v, l);
    ShowsPointwise(s, d);
    forall j: Key
      ensures (j in s'.slots <==> j in d.values) && (j in s'.slots ==> ShowsValue(s', d, j))
    {
      assert ShowsKey(s, d, j);
    }
    forall t: nat, j: Key
      ensures PairAgrees(s', d, t, j)
    {
      assert ShowsPair(s, d, t, j);
    }
    ShowsFromPoints(s', d);
  }

  lemma KeptMeansMoved(s: State, cat: Catalog, k: Key, l: Lsn, faults: Faults)
    requires SlotsOk(s) && CleanLn(s, cat, k, l, faults).1 == Kept
    ensures k in s.slots && SlotOk(s, k) && s.slots[k].lsn == l && Unshared(s, l) && faults.newLsn.Some?
    ensures CleanLn(s, cat, k, l, faults).0 == Moved(s, k, ValueOf(s, k), faults.newLsn.value)
  {
  }

  lemma OtherwiseUntouched(s: State, cat: Catalog, k: Key, l: Lsn, faults: Faults)
    requires LogBounded(s) && SlotsOk(s) && CleanLn(s, cat, k, l, faults).1 != Kept
    requires k in s.slots ==> k.db in cat.live
    ensures CleanLn(s, cat, k, l, faults).0 == s
    ensures CleanLn(s, cat, k, l, faults).1 == Dead && k in s.slots ==>
              CanRead(s, s.slots[k].lsn) && s.slots[k].lsn != l
  {
    if k in s.slots {
      assert SlotOk(s, k);
    }
  }

  /**
   The contract of the atomic attempt: the store stays consistent and only grows, the lock table
   and transactions are untouched, anything but a move leaves the store alone, a moved LN is
   referenced by nothing, and a dead one exactly when it is an open insert.
   */
  lemma CleanLnGrows(s: State, cat: Catalog, k: Key, l: Lsn, faults: Faults)
    requires Inv(s)
    requires l in s.log ==> s.log[l].key == k
    requires k in s.slots ==> k.db in cat.live
    requires faults.newLsn.Some? ==> Fresh(s, faults.newLsn.value)
    ensures var (s', fate) := CleanLn(s, cat, k, l, faults);
            && Inv(s') && Grows(s, s')
            && s'.owners == s.owners && s'.waiters == s.waiters && s'.changes == s.changes && s'.active == s.active
            && s'.slots.Keys == s.slots.Keys
            && (fate != Kept ==> s' == s)
            && (fate == Kept ==> !IsRef(s', l))
            && (fate == Dead ==> (IsRef(s', l) <==> l in s.log && OpenInsert(s, k, l)))
  {
    var (s', fate) := CleanLn(s, cat, k, l, faults);
    if fate == Kept {
      KeptMeansMoved(s, cat, k, l, faults);
      MoveKeepsInv(s, k, ValueOf(s, k), faults.newLsn.value);
    } else {
      OtherwiseUntouched(s, cat, k, l, faults);
      if fate == Dead && l in s.log {
        OnlyOpenInsertsHide(s, k, l);
      }
    }
  }

  /** Cleaning an LN, whatever its fate, is invisible to readers and to pending aborts. */
  lemma CleanLnIsInvisible(s: State, d: Db, cat: Catalog, k: Key, l: Lsn, faults: Faults)
    requires Inv(s) && Shows(s, d)
    requires k in s.slots ==> k.db in cat.live
    requires faults.newLsn.Some? ==> Fresh(s, faults.newLsn.value)
    ensures Shows(CleanLn(s, cat, k, l, faults).0, d)
  {
    if CleanLn(s, cat, k, l, faults).1 == Kept {
      KeptMeansMoved(s, cat, k, l, faults);
      MoveIsInvisible(s, d, k, ValueOf(s, k), faults.newLsn.value);
    } else {
      OtherwiseUntouched(s, cat, k, l, faults);
    }
  }
}

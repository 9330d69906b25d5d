/**
 The scan of one log file: every entry is classified, live LNs pass through a bounded look-ahead
 cache to the tree, and the counters account for each entry exactly once.
 */
module FileScan {
  import opened Lsns
  import opened Arith
  import opened M = Migration

  datatype Entry =
    | Ln(offset: u32, key: Key, size: int, deleted: bool, expiration: nat)
    | Node(offset: u32)
    | Delta(offset: u32)
    | Tombstone(offset: u32)
    | Other(offset: u32)

  datatype NodeLookup = NodeFound | NodeObsolete | NodeUnknown

  /** What the tree and the name snapshot answer about the entry at an offset; each is asked at most once. */
  datatype Answers = Answers(
    lookup: u32 -> BinLookup,
    outcome: u32 -> Outcome,
    node: u32 -> NodeLookup,
    retains: u32 -> bool)

  function FateAt(a: Answers, offset: u32): Fate {
    FateOf(a.lookup(offset), a.outcome(offset))
  }

  datatype LnTally = LnTally(cleaned: nat, dead: nat, migrated: nat, locked: nat, lockedLns: seq<(Lsn, LnInfo)>)

  datatype NodeTally = NodeTally(
    cleaned: nat, dead: nat, migrated: nat,
    deltas: nat, deltasDead: nat, deltasMigrated: nat,
    undecided: nat)

  datatype Result = Result(
    entriesRead: nat, lnsObsolete: nat, lns: LnTally, nodes: NodeTally, retain: bool, completed: bool)

  const NO_LNS := LnTally(0, 0, 0, 0, [])
  const NO_NODES := NodeTally(0, 0, 0, 0, 0, 0, 0)
  const EMPTY := Result(0, 0, NO_LNS, NO_NODES, false, false)

  // ----- what the scan should find ----------------------------------------------------------------

  predicate OffsetsAscend(entries: seq<Entry>) {
    forall i, j :: 0 <= i < j < |entries| ==> entries[i].offset < entries[j].offset
  }

  /** An LN the scan must ask the tree about. */
  predicate IsLive(e: Entry, obsolete: set<u32>) {
    e.Ln? && !e.deleted && e.offset !in obsolete
  }

  function Described(file: FileNum, e: Entry): LnInfo
    requires e.Ln?
  {
    LnInfo(Lsn(file, e.offset), e.key, e.size, e.deleted, e.expiration)
  }

  /** The live LNs among the first `n` entries, in log order. */
  function Live(file: FileNum, entries: seq<Entry>, obsolete: set<u32>, n: nat): seq<LnInfo>
    requires n <= |entries|
  {
    if n == 0 then []
    else
      var before := Live(file, entries, obsolete, n - 1);
      if IsLive(entries[n - 1], obsolete) then before + [Described(file, entries[n - 1])] else before
  }

  function ObsoleteLns(entries: seq<Entry>, obsolete: set<u32>, n: nat): nat
    requires n <= |entries|
  {
    if n == 0 then 0
    else ObsoleteLns(entries, obsolete, n - 1) +
         if entries[n - 1].Ln? && !IsLive(entries[n - 1], obsolete) then 1 else 0
  }

  function CountFate(lns: seq<LnInfo>, a: Answers, fate: Fate, n: nat): nat
    requires n <= |lns|
  {
    if n == 0 then 0 else CountFate(lns, a, fate, n - 1) + if FateAt(a, lns[n - 1].lsn.offset) == fate then 1 else 0
  }

  /** The LNs left to retry, in log order. */
  function PendingLns(lns: seq<LnInfo>, a: Answers, n: nat): seq<(Lsn, LnInfo)>
    requires n <= |lns|
  {
    if n == 0 then []
    else PendingLns(lns, a, n - 1) +
         if FateAt(a, lns[n - 1].lsn.offset).Pending? then [(lns[n - 1].lsn, lns[n - 1])] else []
  }

  // ----- what the scan does, entry by entry ---------------------------------------------------------

  function AddLn(t: LnTally, ln: LnInfo, a: Answers): LnTally {
    var u := t.(cleaned := t.cleaned + 1);
    match FateAt(a, ln.lsn.offset)
    case Dead => u.(dead := t.dead + 1)
    case Kept => u.(migrated := t.migrated + 1)
    case Pending => u.(locked := t.locked + 1, lockedLns := t.lockedLns + [(ln.lsn, ln)])
    case Retained => u.(locked := t.locked + 1)
  }

  function Tally(lns: seq<LnInfo>, a: Answers, n: nat): LnTally
    requires n <= |lns|
  {
    if n == 0 then NO_LNS else AddLn(Tally(lns, a, n - 1), lns[n - 1], a)
  }

  function AddNode(t: NodeTally, answer: NodeLookup): NodeTally {
    var u := t.(cleaned := t.cleaned + 1);
    match answer
    case NodeFound => u.(migrated := t.migrated + 1)
    case NodeObsolete => u.(dead := t.dead + 1)
    case NodeUnknown => u.(undecided := t.undecided + 1)
  }

  /** A delta is counted as a node, then one count is moved over, whichever is there. */
  function AddDelta(t: NodeTally, answer: NodeLookup): NodeTally {
    var u := AddNode(t, answer).(deltas := t.deltas + 1);
    if u.migrated > 0 then u.(migrated := u.migrated - 1, deltasMigrated := u.deltasMigrated + 1)
    else if u.dead > 0 then u.(dead := u.dead - 1, deltasDead := u.deltasDead + 1)
    else u
  }

  function Nodes(entries: seq<Entry>, a: Answers, n: nat): NodeTally
    requires n <= |entries|
  {
    if n == 0 then NO_NODES
    else
      var before, e := Nodes(entries, a, n - 1), entries[n - 1];
      if e.Node? then AddNode(before, a.node(e.offset))
      else if e.Delta? then AddDelta(before, a.node(e.offset))
      else before
  }

  predicate AsksToRetain(e: Entry, a: Answers) {
    ((e.Node? || e.Delta?) && a.node(e.offset).NodeUnknown?) || (e.Tombstone? && a.retains(e.offset))
  }

  predicate NodeRetains(entries: seq<Entry>, a: Answers, n: nat)
    requires n <= |entries|
  {
    n > 0 && (NodeRetains(entries, a, n - 1) || AsksToRetain(entries[n - 1], a))
  }

  predicate LnRetains(lns: seq<LnInfo>, a: Answers, n: nat)
    requires n <= |lns|
  {
    n > 0 && (LnRetains(lns, a, n - 1) || FateAt(a, lns[n - 1].lsn.offset).Retained?)
  }

  /** The result of a scan that is not interrupted: no cache and no memory budget in it. */
  function FullScan(file: FileNum, entries: seq<Entry>, obsolete: set<u32>, a: Answers): Result {
    var lns := Live(file, entries, obsolete, |entries|);
    var retain := NodeRetains(entries, a, |entries|) || LnRetains(lns, a, |lns|);
    Result(|entries|, ObsoleteLns(entries, obsolete, |entries|), Tally(lns, a, |lns|), Nodes(entries, a, |entries|),
           retain, !retain)
  }

  // ----- the look-ahead cache -----------------------------------------------------------------------

  const MAP_OVERHEAD := 64
  const ENTRY_OVERHEAD := 48

  function MemorySize(ln: LnInfo): nat {
    54 + |ln.key.bytes|
  }

  ghost function MemoryOf(m: map<u32, LnInfo>, offsets: set<u32>): nat
    requires offsets <= m.Keys
  {
    if offsets == {} then 0
    else
      var o :| o in offsets;
      MemorySize(m[o]) + ENTRY_OVERHEAD + MemoryOf(m, offsets - {o})
  }

  lemma {:induction false} MemoryTakeOut(m: map<u32, LnInfo>, offsets: set<u32>, o: u32)
    requires offsets <= m.Keys && o in offsets
    ensures MemoryOf(m, offsets) == MemorySize(m[o]) + ENTRY_OVERHEAD + MemoryOf(m, offsets - {o})
    decreases |offsets|
  {
    var p :| p in offsets && MemoryOf(m, offsets) == MemorySize(m[p]) + ENTRY_OVERHEAD + MemoryOf(m, offsets - {p});
    if p != o {
      MemoryTakeOut(m, offsets - {p}, o);
      MemoryTakeOut(m, offsets - {o}, p);
      assert offsets - {p} - {o} == offsets - {o} - {p};
    }
  }

  lemma {:induction false} MemoryOfSame(m: map<u32, LnInfo>, m': map<u32, LnInfo>, offsets: set<u32>)
    requires offsets <= m.Keys && offsets <= m'.Keys && forall o :: o in offsets ==> m[o] == m'[o]
    ensures MemoryOf(m, offsets) == MemoryOf(m', offsets)
    decreases |offsets|
  {
    if offsets == {} {
    } else {
      var o :| o in offsets;
      MemoryTakeOut(m, offsets, o);
      MemoryTakeOut(m', offsets, o);
      MemoryOfSame(m, m', offsets - {o});
    }
  }

  class LookAheadCache {
    var lns: map<u32, LnInfo>
    var usedMem: nat
    const maxMem: nat
    /** Everything taken out so far, in order. */
    ghost var taken: seq<LnInfo>

    /** The memory charged is exactly that of the entries held. */
    ghost predicate Exact()
      reads this
    {
      usedMem == MAP_OVERHEAD + MemoryOf(lns, lns.Keys)
    }

    constructor (maxMem: nat)
      ensures lns == map[] && taken == [] && Exact() && this.maxMem == maxMem
    {
      this.maxMem := maxMem;
      lns, usedMem, taken := map[], MAP_OVERHEAD, [];
    }

    predicate IsFull()
      reads this
    {
      usedMem >= maxMem
    }

    /** An offset added twice is charged twice. */
    method Add(offset: u32, ln: LnInfo)
      modifies this`lns, this`usedMem
      ensures lns == old(lns)[offset := ln]
      ensures old(Exact()) && offset !in old(lns) ==> Exact()
    {
      usedMem := usedMem + MemorySize(ln) + ENTRY_OVERHEAD;
      lns := lns[offset := ln];
      if offset !in old(lns) {
        MemoryTakeOut(lns, lns.Keys, offset);
        assert lns.Keys - {offset} == old(lns).Keys;
        MemoryOfSame(lns, old(lns), old(lns).Keys);
      }
    }

    method NextOffset() returns (r: Option<u32>)
      ensures r.None? <==> lns == map[]
      ensures r.Some? ==> r.value in lns && forall o :: o in lns ==> r.value <= o
    {
      r := None;
      var todo := lns.Keys;
      while todo != {}
        invariant todo <= lns.Keys
        invariant r.None? ==> todo == lns.Keys
        invariant r.Some? ==> r.value in lns && forall o :: o in lns && o !in todo ==> r.value <= o
        decreases |todo|
      {
        var o :| o in todo;
        if r.None? || o < r.value {
          r := Some(o);
        }
        todo := todo - {o};
      }
    }

    /** The subtraction saturates at zero, which an exact cache never reaches. */
    method Remove(offset: u32) returns (r: Option<LnInfo>)
      modifies this
      ensures r == if offset in old(lns) then Some(old(lns)[offset]) else None
      ensures lns == old(lns) - {offset}
      ensures taken == old(taken) + if r.Some? then [r.value] else []
      ensures old(Exact()) ==> Exact()
    {
      if offset !in lns {
        assert lns - {offset} == lns;
        return None;
      }
      r := Some(lns[offset]);
      taken := taken + [lns[offset]];
      var size := MemorySize(lns[offset]) + ENTRY_OVERHEAD;
      usedMem := if usedMem >= size then usedMem - size else 0;
      lns := lns - {offset};
      MemoryTakeOut(old(lns), old(lns).Keys, offset);
      assert lns.Keys == old(lns).Keys - {offset};
      MemoryOfSame(lns, old(lns), lns.Keys);
    }
  }

  // ----- the scan -----------------------------------------------------------------------------------

  predicate InLogOrder(lns: seq<LnInfo>, file: FileNum) {
    && (forall i, j :: 0 <= i < j < |lns| ==> lns[i].lsn.offset < lns[j].lsn.offset)
    && (forall i :: 0 <= i < |lns| ==> lns[i].lsn.file == file)
  }

  /** The cache that holds `lns[lo..hi]`. */
  function CacheOf(lns: seq<LnInfo>, lo: nat, hi: nat): map<u32, LnInfo>
    requires lo <= hi <= |lns|
    decreases hi
  {
    if lo == hi then map[] else CacheOf(lns, lo, hi - 1)[lns[hi - 1].lsn.offset := lns[hi - 1]]
  }

  lemma {:induction false} CacheRange(lns: seq<LnInfo>, file: FileNum, lo: nat, hi: nat, o: u32)
    requires InLogOrder(lns, file) && lo <= hi <= |lns| && o in CacheOf(lns, lo, hi)
    ensures lo < hi && lns[lo].lsn.offset <= o <= lns[hi - 1].lsn.offset
    decreases hi
  {
    if o != lns[hi - 1].lsn.offset {
      CacheRange(lns, file, lo, hi - 1, o);
    }
  }

  lemma CacheAdds(lns: seq<LnInfo>, file: FileNum, lo: nat, hi: nat)
    requires InLogOrder(lns, file) && lo <= hi < |lns|
    ensures lns[hi].lsn.offset !in CacheOf(lns, lo, hi)
  {
    if lns[hi].lsn.offset in CacheOf(lns, lo, hi) {
      CacheRange(lns, file, lo, hi, lns[hi].lsn.offset);
    }
  }

  lemma {:induction false} CacheDrops(lns: seq<LnInfo>, file: FileNum, lo: nat, hi: nat)
    requires InLogOrder(lns, file) && lo < hi <= |lns|
    ensures var o := lns[lo].lsn.offset;
            o in CacheOf(lns, lo, hi) && CacheOf(lns, lo, hi)[o] == lns[lo] &&
            CacheOf(lns, lo, hi) - {o} == CacheOf(lns, lo + 1, hi)
    decreases hi
  {
    if lo < hi - 1 {
      CacheDrops(lns, file, lo, hi - 1);
      assert lns[lo].lsn.offset < lns[hi - 1].lsn.offset;
    }
  }

  /** Memory the LNs `lns[lo..hi]` take in the cache. */
  function Charge(lns: seq<LnInfo>, lo: nat, hi: nat): nat
    requires lo <= hi <= |lns|
    decreases hi
  {
    if lo == hi then 0 else Charge(lns, lo, hi - 1) + MemorySize(lns[hi - 1]) + ENTRY_OVERHEAD
  }

  /** Key bytes of the LNs `lns[lo..hi]`. */
  function KeyBytes(lns: seq<LnInfo>, lo: nat, hi: nat): nat
    requires lo <= hi <= |lns|
    decreases hi
  {
    if lo == hi then 0 else KeyBytes(lns, lo, hi - 1) + |lns[hi - 1].key.bytes|
  }

  /** Every cached LN is charged 102 bytes and its key. */
  lemma {:induction false} ChargeIs(lns: seq<LnInfo>, lo: nat, hi: nat)
    requires lo <= hi <= |lns|
    ensures Charge(lns, lo, hi) == 102 * (hi - lo) + KeyBytes(lns, lo, hi)
    decreases hi
  {
    if lo == hi {
    } else {
      ChargeIs(lns, lo, hi - 1);
    }
  }

  lemma {:induction false} CacheCharge(lns: seq<LnInfo>, file: FileNum, lo: nat, hi: nat)
    requires InLogOrder(lns, file) && lo <= hi <= |lns|
    ensures var m := CacheOf(lns, lo, hi); MemoryOf(m, m.Keys) == Charge(lns, lo, hi)
    decreases hi
  {
    if lo == hi {
    } else {
      var m, m', o := CacheOf(lns, lo, hi - 1), CacheOf(lns, lo, hi), lns[hi - 1].lsn.offset;
      CacheCharge(lns, file, lo, hi - 1);
      CacheAdds(lns, file, lo, hi - 1);
      MemoryTakeOut(m', m'.Keys, o);
      assert m'.Keys - {o} == m.Keys;
      MemoryOfSame(m, m', m.Keys);
    }
  }

  /** How many of the first `n` LNs are handed on as they come in: the oldest, whenever the rest fill the budget. */
  function HandedOn(lns: seq<LnInfo>, budget: nat, n: nat): (p: nat)
    requires n <= |lns|
    ensures p <= n
  {
    if n == 0 then 0
    else
      var p := HandedOn(lns, budget, n - 1);
      if MAP_OVERHEAD + Charge(lns, p, n) >= budget then p + 1 else p
  }

  lemma {:induction false} ChargeGrows(lns: seq<LnInfo>, lo: nat, n: nat, m: nat)
    requires lo <= n <= m <= |lns|
    ensures Charge(lns, lo, n) <= Charge(lns, lo, m)
    decreases m
  {
    if n < m {
      ChargeGrows(lns, lo, n, m - 1);
    }
  }

  lemma {:induction false} BudgetBounds(lns: seq<LnInfo>, budget: nat, n: nat)
    requires n <= |lns|
    ensures MAP_OVERHEAD + Charge(lns, 0, n) < budget ==> HandedOn(lns, budget, n) == 0
    ensures budget <= MAP_OVERHEAD ==> HandedOn(lns, budget, n) == n
  {
    if n == 0 {
    } else {
      BudgetBounds(lns, budget, n - 1);
      ChargeGrows(lns, 0, n - 1, n);
    }
  }

  /** A budget that covers the map and all LNs hands none on early; one the map alone fills hands on each at once. */
  lemma BudgetDecides(lns: seq<LnInfo>, budget: nat, n: nat)
    requires n <= |lns|
    ensures 64 + 102 * n + KeyBytes(lns, 0, n) < budget ==> HandedOn(lns, budget, n) == 0
    ensures budget <= 64 ==> HandedOn(lns, budget, n) == n
  {
    BudgetBounds(lns, budget, n);
    ChargeIs(lns, 0, n);
  }

  /** Takes the lowest-offset LN out of the cache: the next one in log order. */
  method TakeNext(cache: LookAheadCache, ghost lns: seq<LnInfo>, ghost file: FileNum, ghost lo: nat, ghost hi: nat)
    returns (next: Option<LnInfo>)
    requires InLogOrder(lns, file) && lo <= hi <= |lns| && cache.lns == CacheOf(lns, lo, hi) && cache.Exact()
    modifies cache
    ensures cache.Exact()
    ensures lo == hi ==> next.None? && cache.lns == old(cache.lns) && cache.taken == old(cache.taken)
    ensures lo < hi ==>
              && next == Some(lns[lo])
              && cache.lns == CacheOf(lns, lo + 1, hi) && cache.taken == old(cache.taken) + [lns[lo]]
  {
    if lo < hi {
      CacheDrops(lns, file, lo, hi);
    }
    var offset := cache.NextOffset();
    if offset.None? {
      return None;
    }
    CacheRange(lns, file, lo, hi, offset.value);
    next := cache.Remove(offset.value);
  }

  /** What the tree answers about the LN, counted. */
  method ProcessLn(file: FileNum, info: LnInfo, a: Answers, t: LnTally, retain: bool)
    returns (t': LnTally, retain': bool)
    requires info.lsn.file == file
    ensures t' == AddLn(t, info, a) && (retain' <==> retain || FateAt(a, info.lsn.offset).Retained?)
  {
    retain' := retain;
    var offset := info.lsn.offset;
    var logLsn := Lsn(file, offset);
    t' := t.(cleaned := t.cleaned + 1);
    match a.lookup(offset) {
      case NotFound =>
        t' := t'.(dead := t.dead + 1);
      case KnownDeleted =>
        t' := t'.(dead := t.dead + 1);
      case FetchFailed =>
        t' := t'.(locked := t.locked + 1, lockedLns := t.lockedLns + [(logLsn, info)]);
      case LiveUnresolved =>
        t' := t'.(locked := t.locked + 1);
        retain' := true;
      case Found(treeLsn) =>
        if treeLsn == NULL_LSN || a.outcome(offset).Obsolete? {
          t' := t'.(dead := t.dead + 1);
        } else if a.outcome(offset).Migrated? {
          t' := t'.(migrated := t.migrated + 1);
        } else {
          t' := t'.(locked := t.locked + 1, lockedLns := t.lockedLns + [(logLsn, info)]);
        }
    }
  }

  lemma {:induction false} LiveGrows(file: FileNum, entries: seq<Entry>, obsolete: set<u32>, n: nat, m: nat)
    requires n <= m <= |entries|
    ensures Live(file, entries, obsolete, n) <= Live(file, entries, obsolete, m)
    decreases m
  {
    if n < m {
      LiveGrows(file, entries, obsolete, n, m - 1);
    }
  }

  ghost predicate AllBefore(lns: seq<LnInfo>, offset: u32) {
    forall i :: 0 <= i < |lns| ==> lns[i].lsn.offset < offset
  }

  lemma LogOrderSnoc(lns: seq<LnInfo>, file: FileNum, ln: LnInfo)
    requires InLogOrder(lns, file) && ln.lsn.file == file && AllBefore(lns, ln.lsn.offset)
    ensures InLogOrder(lns + [ln], file)
    ensures forall o :: ln.lsn.offset < o ==> AllBefore(lns + [ln], o)
  {
  }

  lemma {:induction false} LiveInLogOrder(file: FileNum, entries: seq<Entry>, obsolete: set<u32>, n: nat)
    requires OffsetsAscend(entries) && n <= |entries|
    ensures InLogOrder(Live(file, entries, obsolete, n), file)
    ensures n < |entries| ==> AllBefore(Live(file, entries, obsolete, n), entries[n].offset)
  {
    if n == 0 {
    } else {
      LiveInLogOrder(file, entries, obsolete, n - 1);
      if entries[n - 1].Ln? {
        LogOrderSnoc(Live(file, entries, obsolete, n - 1), file, Described(file, entries[n - 1]));
      }
    }
  }

  /** `r` accounts for the first `scanned` entries and the first `processed` live LNs. */
  ghost predicate Accounts(
    r: Result, entries: seq<Entry>, obsolete: set<u32>, lns: seq<LnInfo>, a: Answers, scanned: nat, processed: nat)
  {
    && scanned <= |entries| && processed <= |lns|
    && r.lnsObsolete == ObsoleteLns(entries, obsolete, scanned)
    && r.nodes == Nodes(entries, a, scanned)
    && r.lns == Tally(lns, a, processed)
    && (r.retain <==> NodeRetains(entries, a, scanned) || LnRetains(lns, a, processed))
  }

  method ProcessNext(file: FileNum, cache: LookAheadCache, a: Answers, r: Result,
                     ghost lns: seq<LnInfo>, ghost lo: nat, ghost hi: nat) returns (r': Result)
    requires InLogOrder(lns, file) && lo < hi <= |lns| && cache.lns == CacheOf(lns, lo, hi) && cache.Exact()
    modifies cache
    ensures cache.Exact() && cache.lns == CacheOf(lns, lo + 1, hi) && cache.taken == old(cache.taken) + [lns[lo]]
    ensures r' == r.(lns := AddLn(r.lns, lns[lo], a), retain := r.retain || FateAt(a, lns[lo].lsn.offset).Retained?)
  {
    var next := TakeNext(cache, lns, file, lo, hi);
    var t, retain := ProcessLn(file, next.value, a, r.lns, r.retain);
    r' := r.(lns := t, retain := retain);
  }

  function ScanOther(r: Result, e: Entry, a: Answers): Result
    requires !e.Ln?
  {
    match e
    case Node(offset) =>
      r.(nodes := AddNode(r.nodes, a.node(offset)), retain := r.retain || a.node(offset).NodeUnknown?)
    case Delta(offset) =>
      r.(nodes := AddDelta(r.nodes, a.node(offset)), retain := r.retain || a.node(offset).NodeUnknown?)
    case Tombstone(offset) => r.(retain := r.retain || a.retains(offset))
    case Other(_) => r
  }

  lemma LiveStep(file: FileNum, entries: seq<Entry>, obsolete: set<u32>, i: nat)
    requires i < |entries|
    ensures var lns := Live(file, entries, obsolete, |entries|);
            var hi := |Live(file, entries, obsolete, i)|;
            hi <= |lns| &&
            if IsLive(entries[i], obsolete)
            then
              && hi < |lns| && lns[hi] == Described(file, entries[i])
              && |Live(file, entries, obsolete, i + 1)| == hi + 1
            else |Live(file, entries, obsolete, i + 1)| == hi
  {
    LiveGrows(file, entries, obsolete, i + 1, |entries|);
  }

  /** Where the scan stands: entries up to `scanned` seen, live LNs up to `processed` resolved, up to `hi` cached. */
  ghost predicate Standing(
    r: Result, cached: map<u32, LnInfo>, taken: seq<LnInfo>, entries: seq<Entry>, obsolete: set<u32>, lns: seq<LnInfo>,
    a: Answers, scanned: nat, processed: nat, hi: nat)
  {
    && Accounts(r, entries, obsolete, lns, a, scanned, processed)
    && processed <= hi <= |lns| && cached == CacheOf(lns, processed, hi) && taken == lns[..processed]
  }

  lemma StandsOneFurther(
    r: Result, cached: map<u32, LnInfo>, taken: seq<LnInfo>, entries: seq<Entry>, obsolete: set<u32>, lns: seq<LnInfo>,
    a: Answers, scanned: nat, processed: nat, hi: nat)
    requires Standing(r, cached, taken, entries, obsolete, lns, a, scanned, processed, hi) && processed < hi
    ensures var ln := lns[processed];
            Standing(r.(lns := AddLn(r.lns, ln, a), retain := r.retain || FateAt(a, ln.lsn.offset).Retained?),
                     CacheOf(lns, processed + 1, hi), taken + [ln], entries, obsolete, lns, a,
                     scanned, processed + 1, hi)
  {
    assert lns[..processed + 1] == lns[..processed] + [lns[processed]];
  }

  /** A live LN enters the cache, and a full cache gives up its oldest one. */
  method CacheLn(file: FileNum, ghost entries: seq<Entry>, ghost obsolete: set<u32>, a: Answers, ghost i: nat,
                 ln: LnInfo, cache: LookAheadCache, r: Result,
                 ghost lns: seq<LnInfo>, ghost processed: nat, ghost hi: nat)
    returns (r': Result, ghost processed': nat)
    requires InLogOrder(lns, file) && cache.Exact() && hi < |lns| && ln == lns[hi]
    requires Standing(r, cache.lns, cache.taken, entries, obsolete, lns, a, i, processed, hi)
    requires processed == HandedOn(lns, cache.maxMem, hi)
    modifies cache
    ensures cache.Exact() && processed' == HandedOn(lns, cache.maxMem, hi + 1)
    ensures Standing(r', cache.lns, cache.taken, entries, obsolete, lns, a, i, processed', hi + 1)
    ensures r' == r.(lns := r'.lns, retain := r'.retain)
  {
    r', processed' := r, processed;
    CacheAdds(lns, file, processed, hi);
    cache.Add(ln.lsn.offset, ln);
    CacheCharge(lns, file, processed, hi + 1);
    if cache.IsFull() {
      StandsOneFurther(r, cache.lns, cache.taken, entries, obsolete, lns, a, i, processed, hi + 1);
      r' := ProcessNext(file, cache, a, r, lns, processed, hi + 1);
      processed' := processed + 1;
    }
  }

  lemma SeenOneMore(
    r: Result, cached: map<u32, LnInfo>, taken: seq<LnInfo>, entries: seq<Entry>, obsolete: set<u32>, lns: seq<LnInfo>,
    a: Answers, scanned: nat, processed: nat, hi: nat)
    requires Standing(r, cached, taken, entries, obsolete, lns, a, scanned, processed, hi) && scanned < |entries|
    ensures var e := entries[scanned];
            var r' := if !e.Ln? then ScanOther(r, e, a) else if IsLive(e, obsolete) then r
                      else r.(lnsObsolete := r.lnsObsolete + 1);
            Standing(r', cached, taken, entries, obsolete, lns, a, scanned + 1, processed, hi)
  {
  }

  /** One entry: counted, or handed to the cache. */
  method ScanEntry(file: FileNum, entries: seq<Entry>, obsolete: set<u32>, a: Answers, i: nat,
                   cache: LookAheadCache, r: Result, ghost lns: seq<LnInfo>, ghost processed: nat, ghost hi: nat)
    returns (r': Result, ghost processed': nat, ghost hi': nat)
    requires InLogOrder(lns, file) && i < |entries| && cache.Exact()
    requires IsLive(entries[i], obsolete) ==> hi < |lns| && lns[hi] == Described(file, entries[i])
    requires Standing(r, cache.lns, cache.taken, entries, obsolete, lns, a, i, processed, hi)
    requires processed == HandedOn(lns, cache.maxMem, hi)
    modifies cache
    ensures cache.Exact() && hi' == hi + if IsLive(entries[i], obsolete) then 1 else 0
    ensures Standing(r', cache.lns, cache.taken, entries, obsolete, lns, a, i + 1, processed', hi')
    ensures hi' <= |lns| && processed' == HandedOn(lns, cache.maxMem, hi')
    ensures r'.entriesRead == r.entriesRead && r'.completed == r.completed
  {
    var e := entries[i];
    r', processed', hi' := r, processed, hi;
    SeenOneMore(r, cache.lns, cache.taken, entries, obsolete, lns, a, i, processed, hi);
    if e.Ln? {
      if e.offset in obsolete || e.deleted {
        r' := r.(lnsObsolete := r.lnsObsolete + 1);
      } else {
        r', processed' :=
          CacheLn(file, entries, obsolete, a, i + 1, Described(file, e), cache, r, lns, processed, hi);
        hi' := hi + 1;
      }
    } else {
      r' := ScanOther(r, e, a);
    }
  }

  /** The LNs still cached at the end of the file, unless a poll asks to stop. */
  method Drain(file: FileNum, ghost entries: seq<Entry>, ghost obsolete: set<u32>, a: Answers,
               cache: LookAheadCache, r: Result, shutdown: nat -> bool, polled: nat,
               ghost lns: seq<LnInfo>, ghost processed: nat)
    returns (r': Result, stop: bool, ghost processed': nat)
    requires InLogOrder(lns, file) && cache.Exact()
    requires Standing(r, cache.lns, cache.taken, entries, obsolete, lns, a, |entries|, processed, |lns|)
    modifies cache
    ensures Standing(r', cache.lns, cache.taken, entries, obsolete, lns, a, |entries|, processed', |lns|)
    ensures r'.entriesRead == r.entriesRead && r'.completed == r.completed
    ensures processed <= processed' && forall k :: polled <= k < polled + processed' - processed ==> !shutdown(k)
    ensures stop ==> processed' < |lns| && shutdown(polled + processed' - processed)
    ensures !stop ==> processed' == |lns|
  {
    r', stop, processed' := r, false, processed;
    var polls := polled;
    while cache.lns != map[]
      invariant cache.Exact()
      invariant Standing(r', cache.lns, cache.taken, entries, obsolete, lns, a, |entries|, processed', |lns|)
      invariant r'.entriesRead == r.entriesRead && r'.completed == r.completed
      invariant processed <= processed' && polls == polled + processed' - processed
      invariant forall k :: polled <= k < polls ==> !shutdown(k)
      decreases |lns| - processed'
    {
      if shutdown(polls) {
        stop := true;
        return;
      }
      polls := polls + 1;
      StandsOneFurther(r', cache.lns, cache.taken, entries, obsolete, lns, a, |entries|, processed', |lns|);
      r' := ProcessNext(file, cache, a, r', lns, processed', |lns|);
      processed' := processed' + 1;
    }
    if processed' < |lns| {
      CacheDrops(lns, file, processed', |lns|);
    }
  }

  /** Every entry in turn, unless a poll asks to stop. */
  method ScanEntries(file: FileNum, entries: seq<Entry>, obsolete: set<u32>, a: Answers,
                     cache: LookAheadCache, shutdown: nat -> bool, ghost lns: seq<LnInfo>)
    returns (r: Result, stop: bool, ghost scanned: nat, ghost processed: nat, ghost hi: nat)
    requires lns == Live(file, entries, obsolete, |entries|) && InLogOrder(lns, file)
    requires cache.lns == map[] && cache.taken == [] && cache.Exact()
    modifies cache
    ensures cache.Exact() && !r.completed
    ensures Standing(r, cache.lns, cache.taken, entries, obsolete, lns, a, scanned, processed, hi)
    ensures hi == |Live(file, entries, obsolete, scanned)| <= |lns| && processed == HandedOn(lns, cache.maxMem, hi)
    ensures forall k :: 0 < k <= scanned ==> !shutdown(k)
    ensures stop ==> scanned < |entries| && shutdown(scanned + 1) && r.entriesRead == scanned + 1
    ensures !stop ==> scanned == r.entriesRead == |entries| && hi == |lns|
  {
    r, stop, scanned, processed, hi := EMPTY, false, 0, 0, 0;
    for i := 0 to |entries|
      invariant scanned == r.entriesRead == i && !r.completed && cache.Exact()
      invariant hi == |Live(file, entries, obsolete, i)| <= |lns| && processed == HandedOn(lns, cache.maxMem, hi)
      invariant Standing(r, cache.lns, cache.taken, entries, obsolete, lns, a, i, processed, hi)
      invariant forall k :: 0 < k <= i ==> !shutdown(k)
    {
      r := r.(entriesRead := r.entriesRead + 1);
      if shutdown(i + 1) {
        stop := true;
        return;
      }
      LiveStep(file, entries, obsolete, i);
      r, processed, hi := ScanEntry(file, entries, obsolete, a, i, cache, r, lns, processed, hi);
      scanned := i + 1;
    }
  }

  // ----- how far a scan gets ------------------------------------------------------------------------

  /** Entries scanned when `polls` polls have said to go on: one before the first entry, one at each entry. */
  function Scanned(entries: seq<Entry>, polls: nat): nat {
    if polls == 0 then 0 else Min(polls - 1, |entries|)
  }

  /** LNs drained at the end of the file, one for each poll after that. */
  function Drained(entries: seq<Entry>, polls: nat): nat {
    if polls <= |entries| then 0 else polls - 1 - |entries|
  }

  /** Live LNs resolved by then: those the full cache handed on, and those drained. */
  function Resolved(file: FileNum, entries: seq<Entry>, obsolete: set<u32>, budget: nat, polls: nat): nat {
    var met := Live(file, entries, obsolete, Scanned(entries, polls));
    HandedOn(met, budget, |met|) + Drained(entries, polls)
  }

  /** A scan that got so far was told to stop. */
  predicate Stopped(file: FileNum, entries: seq<Entry>, obsolete: set<u32>, budget: nat, polls: nat) {
    polls <= |entries| ||
    Resolved(file, entries, obsolete, budget, polls) < |Live(file, entries, obsolete, |entries|)|
  }

  /** The polls went on `polls` times, and the next one, if there was one, did not. */
  ghost predicate Polled(
    file: FileNum, entries: seq<Entry>, obsolete: set<u32>, budget: nat, shutdown: nat -> bool, polls: nat)
  {
    && Resolved(file, entries, obsolete, budget, polls) <= |Live(file, entries, obsolete, |entries|)|
    && (forall k :: 0 <= k < polls ==> !shutdown(k))
    && (Stopped(file, entries, obsolete, budget, polls) ==> shutdown(polls))
  }

  /** What such a scan reports. */
  ghost predicate IsScan(
    r: Result, file: FileNum, entries: seq<Entry>, obsolete: set<u32>, a: Answers, budget: nat, polls: nat)
  {
    && r.entriesRead == Min(polls, |entries|)
    && Accounts(r, entries, obsolete, Live(file, entries, obsolete, |entries|), a,
                Scanned(entries, polls), Resolved(file, entries, obsolete, budget, polls))
    && (r.completed <==> !Stopped(file, entries, obsolete, budget, polls) && !r.retain)
  }

  /** The LNs handed on depend on no LN that comes later. */
  lemma {:induction false} HandedOnOfPrefix(lns: seq<LnInfo>, more: seq<LnInfo>, budget: nat, n: nat)
    requires n <= |lns| && lns <= more
    ensures HandedOn(lns, budget, n) == HandedOn(more, budget, n)
  {
    if n == 0 {
    } else {
      HandedOnOfPrefix(lns, more, budget, n - 1);
      ChargeOfPrefix(lns, more, HandedOn(lns, budget, n - 1), n);
    }
  }

  lemma {:induction false} ChargeOfPrefix(lns: seq<LnInfo>, more: seq<LnInfo>, lo: nat, hi: nat)
    requires lo <= hi <= |lns| && lns <= more
    ensures Charge(lns, lo, hi) == Charge(more, lo, hi)
    decreases hi
  {
    if lo == hi {
    } else {
      ChargeOfPrefix(lns, more, lo, hi - 1);
    }
  }

  /** Polls, entries, cache budget and answers leave one result. */
  lemma ScanIsDetermined(
    r1: Result, polls1: nat, r2: Result, polls2: nat, file: FileNum, entries: seq<Entry>, obsolete: set<u32>,
    a: Answers, budget: nat, shutdown: nat -> bool)
    requires Polled(file, entries, obsolete, budget, shutdown, polls1)
    requires Polled(file, entries, obsolete, budget, shutdown, polls2)
    requires IsScan(r1, file, entries, obsolete, a, budget, polls1)
    requires IsScan(r2, file, entries, obsolete, a, budget, polls2)
    ensures polls1 == polls2 && r1 == r2
  {
  }

  /** A scan nobody stops accounts for everything. */
  lemma UnstoppedIsFull(
    r: Result, file: FileNum, entries: seq<Entry>, obsolete: set<u32>, a: Answers, budget: nat, polls: nat)
    requires IsScan(r, file, entries, obsolete, a, budget, polls)
    requires !Stopped(file, entries, obsolete, budget, polls)
    ensures r == FullScan(file, entries, obsolete, a)
  {
  }

  /** `asked` are the LNs the tree was asked about, in order. */
  method ProcessFile(
    file: FileNum, entries: seq<Entry>, obsolete: set<u32>, a: Answers, budget: nat, shutdown: nat -> bool)
    returns (r: Result, ghost polls: nat, ghost asked: seq<LnInfo>)
    requires OffsetsAscend(entries)
    ensures Polled(file, entries, obsolete, budget, shutdown, polls)
    ensures IsScan(r, file, entries, obsolete, a, budget, polls)
    ensures asked ==
            Live(file, entries, obsolete, |entries|)[..Resolved(file, entries, obsolete, budget, polls)]
    ensures r.completed || (forall k :: !shutdown(k)) ==>
              r == FullScan(file, entries, obsolete, a) && asked == Live(file, entries, obsolete, |entries|)
  {
    r, polls, asked := EMPTY, 0, [];
    if shutdown(0) {
      return;
    }
    var cache := new LookAheadCache(budget);
    ghost var lns := Live(file, entries, obsolete, |entries|);
    LiveInLogOrder(file, entries, obsolete, |entries|);
    var stop;
    ghost var scanned, processed, hi;
    r, stop, scanned, processed, hi := ScanEntries(file, entries, obsolete, a, cache, shutdown, lns);
    LiveGrows(file, entries, obsolete, scanned, |entries|);
    HandedOnOfPrefix(Live(file, entries, obsolete, scanned), lns, budget, hi);
    polls := scanned + 1;
    if !stop {
      ghost var handedOn := processed;
      r, stop, processed := Drain(file, entries, obsolete, a, cache, r, shutdown, |entries| + 1, lns, processed);
      polls := |entries| + 1 + processed - handedOn;
    }
    asked := cache.taken;
    assert Resolved(file, entries, obsolete, budget, polls) == processed;
    if !stop {
      r := r.(completed := !r.retain);
      UnstoppedIsFull(r, file, entries, obsolete, a, budget, polls);
      assert lns[..|lns|] == lns;
    }
  }

  // ----- conservation -----------------------------------------------------------------------------------

  function LnEntries(entries: seq<Entry>, n: nat): nat
    requires n <= |entries|
  {
    if n == 0 then 0 else LnEntries(entries, n - 1) + if entries[n - 1].Ln? then 1 else 0
  }

  /** Each LN entry is either known obsolete or looked up. */
  lemma {:induction false} LnsAreSplit(file: FileNum, entries: seq<Entry>, obsolete: set<u32>, n: nat)
    requires n <= |entries|
    ensures LnEntries(entries, n) == ObsoleteLns(entries, obsolete, n) + |Live(file, entries, obsolete, n)|
  {
    if n == 0 {
    } else {
      LnsAreSplit(file, entries, obsolete, n - 1);
    }
  }

  /** Each LN looked up has one fate, and is counted under it once. */
  lemma {:induction false} TallyCounts(lns: seq<LnInfo>, a: Answers, n: nat)
    requires n <= |lns|
    ensures var t := Tally(lns, a, n);
            && t.cleaned == n == t.dead + t.migrated + t.locked
            && t.dead == CountFate(lns, a, Dead, n) && t.migrated == CountFate(lns, a, Kept, n)
            && t.locked == |t.lockedLns| + CountFate(lns, a, Retained, n)
            && t.lockedLns == PendingLns(lns, a, n) && |t.lockedLns| == CountFate(lns, a, Pending, n)
  {
    if n == 0 {
    } else {
      TallyCounts(lns, a, n - 1);
    }
  }

  /** Nodes, or deltas, that the tree answered with `answer`. */
  function Answered(entries: seq<Entry>, a: Answers, delta: bool, answer: NodeLookup, n: nat): nat
    requires n <= |entries|
  {
    if n == 0 then 0
    else
      var e := entries[n - 1];
      Answered(entries, a, delta, answer, n - 1) +
      if (if delta then e.Delta? else e.Node?) && a.node(e.offset) == answer then 1 else 0
  }

  function AnsweredBoth(entries: seq<Entry>, a: Answers, answer: NodeLookup, n: nat): nat
    requires n <= |entries|
  {
    Answered(entries, a, false, answer, n) + Answered(entries, a, true, answer, n)
  }

  function DeltaEntries(entries: seq<Entry>, n: nat): nat
    requires n <= |entries|
  {
    if n == 0 then 0 else DeltaEntries(entries, n - 1) + if entries[n - 1].Delta? then 1 else 0
  }

  function CountIf(b: bool): nat {
    if b then 1 else 0
  }

  lemma NodeCountsOnce(t: NodeTally, answer: NodeLookup, delta: bool)
    ensures var u := if delta then AddDelta(t, answer) else AddNode(t, answer);
            && u.migrated + u.deltasMigrated == t.migrated + t.deltasMigrated + CountIf(answer.NodeFound?)
            && u.dead + u.deltasDead == t.dead + t.deltasDead + CountIf(answer.NodeObsolete?)
            && u.undecided == t.undecided + CountIf(answer.NodeUnknown?) && u.cleaned == t.cleaned + 1
            && u.deltas == t.deltas + CountIf(delta)
  {
  }

  /** Moving counts over to the delta counters conserves the sums, whatever the order of entries. */
  lemma {:induction false} NodeSums(entries: seq<Entry>, a: Answers, n: nat)
    requires n <= |entries|
    ensures var t := Nodes(entries, a, n);
            && t.migrated + t.deltasMigrated == AnsweredBoth(entries, a, NodeFound, n)
            && t.dead + t.deltasDead == AnsweredBoth(entries, a, NodeObsolete, n)
            && t.undecided == AnsweredBoth(entries, a, NodeUnknown, n)
            && t.cleaned == t.migrated + t.deltasMigrated + t.dead + t.deltasDead + t.undecided
            && t.deltas == DeltaEntries(entries, n)
  {
    if n == 0 {
    } else {
      NodeSums(entries, a, n - 1);
      var e := entries[n - 1];
      if e.Node? || e.Delta? {
        NodeCountsOnce(Nodes(entries, a, n - 1), a.node(e.offset), e.Delta?);
      }
    }
  }

  /** The counters attribute each answer to the kind of entry it was about. */
  predicate Attributed(entries: seq<Entry>, a: Answers, n: nat)
    requires n <= |entries|
  {
    var t := Nodes(entries, a, n);
    && t.migrated == Answered(entries, a, false, NodeFound, n)
    && t.dead == Answered(entries, a, false, NodeObsolete, n)
    && t.deltasMigrated == Answered(entries, a, true, NodeFound, n)
    && t.deltasDead == Answered(entries, a, true, NodeObsolete, n)
  }

  /** Entry `i` is not a delta that takes over a count some plain node left behind. */
  predicate TakesNoOthersCount(entries: seq<Entry>, a: Answers, i: nat)
    requires i < |entries|
  {
    entries[i].Delta? ==>
      && (a.node(entries[i].offset).NodeObsolete? ==> Answered(entries, a, false, NodeFound, i) == 0)
      && (a.node(entries[i].offset).NodeUnknown? ==>
            Answered(entries, a, false, NodeFound, i) == 0 && Answered(entries, a, false, NodeObsolete, i) == 0)
  }

  predicate NoneTakesOthersCount(entries: seq<Entry>, a: Answers, n: nat)
    requires n <= |entries|
  {
    forall i :: 0 <= i < n ==> TakesNoOthersCount(entries, a, i)
  }

  /** Counts that plain nodes lost to deltas: first of migrated ones, then of dead ones. */
  function LostMigrated(entries: seq<Entry>, a: Answers, n: nat): int
    requires n <= |entries|
  {
    Answered(entries, a, false, NodeFound, n) - Nodes(entries, a, n).migrated
  }

  function LostDead(entries: seq<Entry>, a: Answers, n: nat): int
    requires n <= |entries|
  {
    Answered(entries, a, false, NodeObsolete, n) - Nodes(entries, a, n).dead
  }

  /** A lost migrated count never comes back; while none is lost, neither does a dead one. */
  lemma LossesStay(entries: seq<Entry>, a: Answers, n: nat)
    requires n < |entries|
    requires LostMigrated(entries, a, n) >= 0 && (LostMigrated(entries, a, n) == 0 ==> LostDead(entries, a, n) >= 0)
    ensures LostMigrated(entries, a, n + 1) >= LostMigrated(entries, a, n)
    ensures LostMigrated(entries, a, n + 1) == 0 ==> LostDead(entries, a, n + 1) >= LostDead(entries, a, n)
    ensures LostMigrated(entries, a, n) == LostDead(entries, a, n) == 0 ==>
              ((LostMigrated(entries, a, n + 1) == 0 && LostDead(entries, a, n + 1) == 0) <==>
               TakesNoOthersCount(entries, a, n))
  {
  }

  lemma {:induction false} LossIff(entries: seq<Entry>, a: Answers, n: nat)
    requires n <= |entries|
    ensures LostMigrated(entries, a, n) >= 0 && (LostMigrated(entries, a, n) == 0 ==> LostDead(entries, a, n) >= 0)
    ensures (LostMigrated(entries, a, n) == 0 && LostDead(entries, a, n) == 0) <==> NoneTakesOthersCount(entries, a, n)
  {
    if n == 0 {
    } else {
      LossIff(entries, a, n - 1);
      LossesStay(entries, a, n - 1);
      assert NoneTakesOthersCount(entries, a, n) <==>
             NoneTakesOthersCount(entries, a, n - 1) && TakesNoOthersCount(entries, a, n - 1);
    }
  }

  /**
   The per-kind counters are right exactly when every delta the tree calls obsolete comes before
   the first live plain node, and every undecided delta before the first plain node that is decided.
   */
  lemma AttributedIff(entries: seq<Entry>, a: Answers, n: nat)
    requires n <= |entries|
    ensures Attributed(entries, a, n) <==> NoneTakesOthersCount(entries, a, n)
  {
    NodeSums(entries, a, n);
    LossIff(entries, a, n);
  }

  /** A live node followed by a dead delta: the counters report a live delta and a dead node. */
  lemma DeadDeltaTakesLiveCount(a: Answers)
    requires a.node(0) == NodeFound && a.node(1) == NodeObsolete
    ensures var entries := [Node(0), Delta(1)];
            && !Attributed(entries, a, 2)
            && Nodes(entries, a, 2) == NodeTally(2, 1, 0, 1, 0, 1, 0)
  {
    var entries := [Node(0), Delta(1)];
    assert Nodes(entries, a, 0) == NO_NODES && Answered(entries, a, false, NodeFound, 0) == 0;
    assert Nodes(entries, a, 1) == NodeTally(1, 0, 1, 0, 0, 0, 0) && Answered(entries, a, false, NodeFound, 1) == 1;
  }

  lemma {:induction false} NodeRetainsIff(entries: seq<Entry>, a: Answers, n: nat)
    requires n <= |entries|
    ensures NodeRetains(entries, a, n) <==> exists i :: 0 <= i < n && AsksToRetain(entries[i], a)
  {
    if n == 0 {
    } else {
      NodeRetainsIff(entries, a, n - 1);
    }
  }

  lemma {:induction false} LnRetainsIff(lns: seq<LnInfo>, a: Answers, n: nat)
    requires n <= |lns|
    ensures LnRetains(lns, a, n) <==> exists i :: 0 <= i < n && FateAt(a, lns[i].lsn.offset).Retained?
  {
    if n == 0 {
    } else {
      LnRetainsIff(lns, a, n - 1);
    }
  }

  lemma {:induction false} PendingIff(lns: seq<LnInfo>, a: Answers, n: nat, l: Lsn, info: LnInfo)
    requires n <= |lns|
    ensures (l, info) in PendingLns(lns, a, n) <==>
            l == info.lsn && info in lns[..n] && FateAt(a, info.lsn.offset).Pending?
  {
    if n == 0 {
    } else {
      PendingIff(lns, a, n - 1, l, info);
      assert lns[..n] == lns[..n - 1] + [lns[n - 1]];
    }
  }

  // ----- the scan's report against the entries themselves ------------------------------------------------

  /** The tree is asked about this entry. */
  predicate IsAsked(e: Entry, obsolete: set<u32>) {
    e.Ln? && e.offset !in obsolete && !e.deleted
  }

  /** What the scan remembers of an LN entry: its position, key, size, deleted flag and expiration. */
  predicate Describes(info: LnInfo, file: FileNum, e: Entry) {
    && e.Ln? && info.lsn.file == file && info.lsn.offset == e.offset && info.key == e.key
    && info.logSize == e.size && info.deleted == e.deleted && info.expiration == e.expiration
  }

  lemma {:induction false} LiveIff(file: FileNum, entries: seq<Entry>, obsolete: set<u32>, n: nat, info: LnInfo)
    requires n <= |entries|
    ensures info in Live(file, entries, obsolete, n) <==>
            exists i :: 0 <= i < n && IsAsked(entries[i], obsolete) && Describes(info, file, entries[i])
  {
    if n == 0 {
    } else {
      LiveIff(file, entries, obsolete, n - 1, info);
    }
  }

  /** The answers leave the LN where it is, to be tried again. */
  predicate Waits(a: Answers, o: u32) {
    a.lookup(o).FetchFailed? || (a.lookup(o).Found? && a.lookup(o).treeLsn != NULL_LSN && a.outcome(o).Locked?)
  }

  /** An LN is dead when its key has no slot, or the slot was deleted, never logged, or is not at the LN. */
  predicate Dies(a: Answers, o: u32) {
    || a.lookup(o).NotFound? || a.lookup(o).KnownDeleted?
    || (a.lookup(o).Found? && (a.lookup(o).treeLsn == NULL_LSN || a.outcome(o).Obsolete?))
  }

  predicate Moves(a: Answers, o: u32) {
    a.lookup(o).Found? && a.lookup(o).treeLsn != NULL_LSN && a.outcome(o).Migrated?
  }

  lemma FateIff(a: Answers, o: u32)
    ensures FateAt(a, o).Pending? <==> Waits(a, o)
    ensures FateAt(a, o).Dead? <==> Dies(a, o)
    ensures FateAt(a, o).Kept? <==> Moves(a, o)
    ensures FateAt(a, o).Retained? <==> a.lookup(o).LiveUnresolved?
  {
  }

  /** Entry `e` is one the scan leaves locked, and `(l, info)` is how it is listed. */
  predicate IsListed(l: Lsn, info: LnInfo, file: FileNum, e: Entry, obsolete: set<u32>, a: Answers) {
    l == info.lsn && IsAsked(e, obsolete) && Describes(info, file, e) && Waits(a, e.offset)
  }

  /** The list of locked LNs holds exactly the entries that wait, each under its own LSN, key and details. */
  lemma LockedIff(file: FileNum, entries: seq<Entry>, obsolete: set<u32>, a: Answers, l: Lsn, info: LnInfo)
    ensures (l, info) in FullScan(file, entries, obsolete, a).lns.lockedLns <==>
            exists i :: 0 <= i < |entries| && IsListed(l, info, file, entries[i], obsolete, a)
  {
    var lns := Live(file, entries, obsolete, |entries|);
    TallyCounts(lns, a, |lns|);
    PendingIff(lns, a, |lns|, l, info);
    LiveIff(file, entries, obsolete, |entries|, info);
    assert lns[..|lns|] == lns;
    FateIff(a, info.lsn.offset);
  }

  /** An interrupted scan lists no others. */
  lemma LockedOfPart(
    file: FileNum, entries: seq<Entry>, obsolete: set<u32>, a: Answers, n: nat, l: Lsn, info: LnInfo)
    requires n <= |Live(file, entries, obsolete, |entries|)|
    requires (l, info) in Tally(Live(file, entries, obsolete, |entries|), a, n).lockedLns
    ensures exists i :: 0 <= i < |entries| && IsListed(l, info, file, entries[i], obsolete, a)
  {
    var lns := Live(file, entries, obsolete, |entries|);
    TallyCounts(lns, a, n);
    PendingIff(lns, a, n, l, info);
    LiveIff(file, entries, obsolete, |entries|, info);
    FateIff(a, info.lsn.offset);
  }

  predicate Distinct(locked: seq<(Lsn, LnInfo)>) {
    forall i, j :: 0 <= i < j < |locked| ==> locked[i].0 != locked[j].0
  }

  ghost predicate LockedBefore(locked: seq<(Lsn, LnInfo)>, offset: u32) {
    forall i :: 0 <= i < |locked| ==> locked[i].0.offset < offset
  }

  /** No LN is listed twice. */
  lemma {:induction false} PendingAreDistinct(lns: seq<LnInfo>, file: FileNum, a: Answers, n: nat)
    requires InLogOrder(lns, file) && n <= |lns|
    ensures Distinct(PendingLns(lns, a, n)) && (n < |lns| ==> LockedBefore(PendingLns(lns, a, n), lns[n].lsn.offset))
  {
    if n == 0 {
    } else {
      PendingAreDistinct(lns, file, a, n - 1);
    }
  }

  lemma LockedAreDistinct(file: FileNum, entries: seq<Entry>, obsolete: set<u32>, a: Answers, n: nat)
    requires OffsetsAscend(entries) && n <= |Live(file, entries, obsolete, |entries|)|
    ensures Distinct(Tally(Live(file, entries, obsolete, |entries|), a, n).lockedLns)
  {
    var lns := Live(file, entries, obsolete, |entries|);
    LiveInLogOrder(file, entries, obsolete, |entries|);
    TallyCounts(lns, a, n);
    PendingAreDistinct(lns, file, a, n);
  }

  /** `e` asks for the file to be kept: an undecided node, a tombstone still needed, an LN of a database not open. */
  predicate KeepsFile(e: Entry, obsolete: set<u32>, a: Answers) {
    match e
    case Ln(o, _, _, _, _) => IsAsked(e, obsolete) && a.lookup(o).LiveUnresolved?
    case Node(o) => a.node(o).NodeUnknown?
    case Delta(o) => a.node(o).NodeUnknown?
    case Tombstone(o) => a.retains(o)
    case Other(_) => false
  }

  lemma {:induction false} EntryRetains(file: FileNum, entries: seq<Entry>, obsolete: set<u32>, a: Answers)
    ensures FullScan(file, entries, obsolete, a).retain <==>
            exists i :: 0 <= i < |entries| && KeepsFile(entries[i], obsolete, a)
  {
    var lns := Live(file, entries, obsolete, |entries|);
    NodeRetainsIff(entries, a, |entries|);
    LnRetainsIff(lns, a, |lns|);
    if NodeRetains(entries, a, |entries|) {
      var i :| 0 <= i < |entries| && AsksToRetain(entries[i], a);
      assert KeepsFile(entries[i], obsolete, a);
    }
    if LnRetains(lns, a, |lns|) {
      var j :| 0 <= j < |lns| && FateAt(a, lns[j].lsn.offset).Retained?;
      LiveIff(file, entries, obsolete, |entries|, lns[j]);
      var i :| 0 <= i < |entries| && IsAsked(entries[i], obsolete) && Describes(lns[j], file, entries[i]);
      assert KeepsFile(entries[i], obsolete, a);
    }
    if i :| 0 <= i < |entries| && KeepsFile(entries[i], obsolete, a) {
      if entries[i].Ln? {
        var info := Described(file, entries[i]);
        assert Describes(info, file, entries[i]);
        LiveIff(file, entries, obsolete, |entries|, info);
      } else {
        assert AsksToRetain(entries[i], a);
      }
    }
  }

  /** A full account: nothing is lost, nothing counted twice, and completion means nothing asked to keep the file. */
  lemma ScanConserves(r: Result, file: FileNum, entries: seq<Entry>, obsolete: set<u32>, a: Answers)
    requires r == FullScan(file, entries, obsolete, a)
    ensures r.entriesRead == |entries|
    ensures LnEntries(entries, |entries|) == r.lnsObsolete + r.lns.cleaned
    ensures r.lns.cleaned == r.lns.dead + r.lns.migrated + r.lns.locked
    ensures var lns := Live(file, entries, obsolete, |entries|);
            r.lns.locked == |r.lns.lockedLns| + CountFate(lns, a, Retained, |lns|)
    ensures r.nodes.cleaned ==
            r.nodes.migrated + r.nodes.deltasMigrated + r.nodes.dead + r.nodes.deltasDead + r.nodes.undecided
    ensures r.nodes.deltas == DeltaEntries(entries, |entries|)
    ensures r.completed <==> forall i :: 0 <= i < |entries| ==> !KeepsFile(entries[i], obsolete, a)
  {
    var lns := Live(file, entries, obsolete, |entries|);
    LnsAreSplit(file, entries, obsolete, |entries|);
    TallyCounts(lns, a, |lns|);
    NodeSums(entries, a, |entries|);
    EntryRetains(file, entries, obsolete, a);
  }

  /** Every live LN of a completed file is dead, moved, or handed over for retry. */
  lemma CompletedFileIsResolved(
    r: Result, file: FileNum, entries: seq<Entry>, obsolete: set<u32>, a: Answers, i: nat)
    requires r == FullScan(file, entries, obsolete, a) && r.completed
    requires i < |entries| && IsAsked(entries[i], obsolete)
    ensures var e := entries[i];
            || Dies(a, e.offset) || Moves(a, e.offset)
            || (Waits(a, e.offset) &&
                (Lsn(file, e.offset), LnInfo(Lsn(file, e.offset), e.key, e.size, e.deleted, e.expiration))
                  in r.lns.lockedLns)
  {
    var e := entries[i];
    var info := LnInfo(Lsn(file, e.offset), e.key, e.size, e.deleted, e.expiration);
    ScanConserves(r, file, entries, obsolete, a);
    assert !KeepsFile(e, obsolete, a);
    if Waits(a, e.offset) {
      assert IsListed(info.lsn, info, file, e, obsolete, a);
      LockedIff(file, entries, obsolete, a, info.lsn, info);
    }
  }
}

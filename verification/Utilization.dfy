/** Utilization of one log file and the utilization predicted for the whole log. */
module Utilization {
  import opened Lsns
  import opened Sorting
  import opened Arith

  /** `obsolete` is what `FileSummary::get_obsolete_size` estimates from the counters. */
  datatype Summary = Summary(
    totalCount: int,
    totalSize: int,
    obsoleteInCount: int,
    obsoleteLnCount: int,
    obsolete: int,
    expiredLower: int,
    expiredGradual: int)

  type Summaries = map<FileNum, Summary>

  predicate IsEmpty(s: Summary) {
    s.totalCount == 0 && s.totalSize == 0 && s.obsoleteInCount == 0 && s.obsoleteLnCount == 0
  }

  /** Obsolete bytes are part of the file, and the expired-bytes band is a band. */
  predicate Consistent(s: Summary) {
    0 <= s.obsolete <= s.totalSize && 0 <= s.expiredLower <= s.expiredGradual
  }

  predicate AllConsistent(m: Summaries) {
    forall f :: f in m ==> Consistent(m[f])
  }

  function Clamp(x: int): int {
    if x < 0 then 0 else if x > 100 then 100 else x
  }

  // ----- one file -----------------------------------------------------------------------------

  function Percent(s: Summary, expired: int): int {
    if s.totalSize <= 0 then 0
    else
      var active := Max(s.totalSize - s.obsolete - Min(expired, s.totalSize), 0);
      Clamp(active * 100 / s.totalSize)
  }

  /** Counting every byte that may have expired. */
  function MinUtilization(s: Summary): int {
    Percent(s, s.expiredGradual)
  }

  /** Counting only bytes that surely expired. */
  function MaxUtilization(s: Summary): int {
    Percent(s, s.expiredLower)
  }

  function AvgUtilization(s: Summary): int {
    (MinUtilization(s) + MaxUtilization(s)) / 2
  }

  /** The average the selector ranks by lies inside the band it is taken from. */
  lemma UtilizationBand(s: Summary)
    requires Consistent(s)
    ensures 0 <= MinUtilization(s) <= AvgUtilization(s) <= MaxUtilization(s) <= 100
  {
    if s.totalSize > 0 {
      var low := Max(s.totalSize - s.obsolete - Min(s.expiredGradual, s.totalSize), 0);
      var high := Max(s.totalSize - s.obsolete - Min(s.expiredLower, s.totalSize), 0);
      DivGrows(low * 100, high * 100, s.totalSize);
    }
  }

  /** `u` is the live percentage, rounded down; none when more is gone than there is, all when less than nothing is. */
  predicate IsPercentage(u: int, live: int, total: int) {
    if live < 0 then u == 0 else if live > total then u == 100 else u * total <= 100 * live < (u + 1) * total
  }

  /** Bytes left in the file when these have expired, or fewer than none. */
  function LiveBytes(s: Summary, expired: int): int {
    s.totalSize - s.obsolete - if expired < s.totalSize then expired else s.totalSize
  }

  lemma PercentIs(s: Summary, expired: int)
    requires s.totalSize > 0
    ensures IsPercentage(Percent(s, expired), LiveBytes(s, expired), s.totalSize)
    ensures Percent(s, expired) == 100 <==> LiveBytes(s, expired) >= s.totalSize
  {
    var live, total := LiveBytes(s, expired), s.totalSize;
    if live >= 0 {
      var u := 100 * live / total;
      assert 100 * live == total * u + 100 * live % total;
      QuotientIs(100 * total, total, 100);
      if live <= total {
        DivGrows(100 * live, 100 * total, total);
      } else {
        DivGrows(100 * total, 100 * live, total);
      }
    } else {
      QuotientIs(0, total, 0);
    }
  }

  /**
   The scores are the live percentages at the two ends of the expired-bytes band, and the average is half their sum,
   rounded down.  A consistent file scores full exactly when nothing in it is obsolete or has expired; a file without
   bytes scores nothing.
   */
  lemma UtilizationIs(s: Summary)
    ensures s.totalSize > 0 ==>
              && IsPercentage(MinUtilization(s), LiveBytes(s, s.expiredGradual), s.totalSize)
              && IsPercentage(MaxUtilization(s), LiveBytes(s, s.expiredLower), s.totalSize)
    ensures 2 * AvgUtilization(s) <= MinUtilization(s) + MaxUtilization(s) < 2 * AvgUtilization(s) + 2
    ensures Consistent(s) && s.totalSize > 0 ==>
              && (MinUtilization(s) == 100 <==> s.obsolete == 0 && s.expiredGradual == 0)
              && (MaxUtilization(s) == 100 <==> s.obsolete == 0 && s.expiredLower == 0)
    ensures s.totalSize <= 0 ==> MinUtilization(s) == 0 && MaxUtilization(s) == 0
  {
    if s.totalSize > 0 {
      PercentIs(s, s.expiredGradual);
      PercentIs(s, s.expiredLower);
    }
  }

  /** Of two files of one size, the one with more bytes gone never scores higher. */
  lemma MoreGoneScoresLess(s: Summary, worse: Summary)
    requires Consistent(s) && Consistent(worse) && worse.totalSize == s.totalSize && worse.obsolete >= s.obsolete
    requires worse.expiredLower >= s.expiredLower && worse.expiredGradual >= s.expiredGradual
    ensures MinUtilization(worse) <= MinUtilization(s) && MaxUtilization(worse) <= MaxUtilization(s)
    ensures AvgUtilization(worse) <= AvgUtilization(s)
  {
    if s.totalSize > 0 {
      DivGrows(Max(LiveBytes(worse, worse.expiredGradual), 0) * 100, Max(LiveBytes(s, s.expiredGradual), 0) * 100,
               s.totalSize);
      DivGrows(Max(LiveBytes(worse, worse.expiredLower), 0) * 100, Max(LiveBytes(s, s.expiredLower), 0) * 100,
               s.totalSize);
    }
  }

  // ----- the whole log ------------------------------------------------------------------------

  function MinObsolete(s: Summary): int {
    Max(s.obsolete, Min(s.expiredLower, s.totalSize))
  }

  function MaxObsolete(s: Summary): int {
    Min(s.obsolete + Min(s.expiredGradual, s.totalSize), s.totalSize)
  }

  /** Bytes a file adds to the predicted total: a file in progress is expected to shrink to its live bytes. */
  function TotalShare(s: Summary, inProgress: bool): int {
    if IsEmpty(s) then 0 else if inProgress then s.totalSize - MinObsolete(s) else s.totalSize
  }

  function ObsoleteShare(s: Summary, inProgress: bool): int {
    if IsEmpty(s) || inProgress then 0 else MaxObsolete(s)
  }

  predicate Known(files: seq<nat>, m: Summaries) {
    forall i :: 0 <= i < |files| ==> files[i] in m
  }

  function TotalSize(m: Summaries, files: seq<nat>, inProgress: set<FileNum>, n: nat): int
    requires n <= |files| && Known(files, m)
  {
    if n == 0 then 0
    else TotalSize(m, files, inProgress, n - 1) + TotalShare(m[files[n - 1]], files[n - 1] in inProgress)
  }

  function ObsoleteSize(m: Summaries, files: seq<nat>, inProgress: set<FileNum>, n: nat): int
    requires n <= |files| && Known(files, m)
  {
    if n == 0 then 0
    else ObsoleteSize(m, files, inProgress, n - 1) + ObsoleteShare(m[files[n - 1]], files[n - 1] in inProgress)
  }

  /** Percentage rounded half up. */
  function UtilizationOf(obsolete: int, total: int): int {
    if total <= 0 then 0 else (200 * Max(total - obsolete, 0) + total) / (2 * total)
  }

  ghost function PredictedMinUtil(m: Summaries, inProgress: set<FileNum>): int {
    SortedMembers(m.Keys);
    var files := Sorted(m.Keys);
    UtilizationOf(ObsoleteSize(m, files, inProgress, |files|), TotalSize(m, files, inProgress, |files|))
  }

  method ComputePredictedMinUtil(m: Summaries, inProgress: set<FileNum>) returns (util: int)
    ensures util == PredictedMinUtil(m, inProgress)
  {
    SortedMembers(m.Keys);
    var files := SortedElements(m.Keys);
    var total, obsolete := 0, 0;
    for i := 0 to |files|
      invariant total == TotalSize(m, files, inProgress, i)
      invariant obsolete == ObsoleteSize(m, files, inProgress, i)
    {
      var s := m[files[i]];
      if !IsEmpty(s) {
        var minObsolete := Max(s.obsolete, Min(s.expiredLower, s.totalSize));
        if files[i] in inProgress {
          total := total + (s.totalSize - minObsolete);
        } else {
          var gradual := Min(s.expiredGradual, s.totalSize);
          total := total + s.totalSize;
          obsolete := obsolete + Min(s.obsolete + gradual, s.totalSize);
        }
      }
    }
    util := UtilizationOf(obsolete, total);
  }

  /** Moving files into progress only shrinks the total, by no more than it shrinks the obsolete part. */
  lemma {:induction false} SizesOrdered(m: Summaries, files: seq<nat>, some: set<FileNum>, more: set<FileNum>, n: nat)
    requires n <= |files| && Known(files, m) && AllConsistent(m) && some <= more
    ensures 0 <= ObsoleteSize(m, files, more, n) <= TotalSize(m, files, more, n)
    ensures 0 <= TotalSize(m, files, some, n) - TotalSize(m, files, more, n) <=
            ObsoleteSize(m, files, some, n) - ObsoleteSize(m, files, more, n)
  {
    if n == 0 {
    } else {
      SizesOrdered(m, files, some, more, n - 1);
      ShareOrdered(m[files[n - 1]]);
    }
  }

  lemma ShareOrdered(s: Summary)
    requires Consistent(s)
    ensures 0 <= MinObsolete(s) <= MaxObsolete(s) <= s.totalSize
  {
  }

  /**
   A file taken into cleaning takes its surely obsolete bytes off the total and its possibly
   obsolete ones off the other sum.
   */
  lemma {:induction false} OneMoreInProgress(
    m: Summaries, files: seq<nat>, inProgress: set<FileNum>, f: FileNum, n: nat)
    requires n <= |files| && Known(files, m) && Ascending(files) && f in m && f !in inProgress && !IsEmpty(m[f])
    ensures var met := f in files[..n];
            && TotalSize(m, files, inProgress + {f}, n) ==
               TotalSize(m, files, inProgress, n) - (if met then MinObsolete(m[f]) else 0)
            && ObsoleteSize(m, files, inProgress + {f}, n) ==
               ObsoleteSize(m, files, inProgress, n) - (if met then MaxObsolete(m[f]) else 0)
  {
    if n == 0 {
    } else {
      OneMoreInProgress(m, files, inProgress, f, n - 1);
      assert files[..n] == files[..n - 1] + [files[n - 1]];
    }
  }

  /** So many bytes of the file are gone if obsolete and expired ones overlap in `overlap` bytes. */
  predicate IsGone(s: Summary, expired: int, overlap: int, gone: int) {
    var x := if expired < s.totalSize then expired else s.totalSize;
    0 <= overlap <= s.obsolete && overlap <= x && gone == s.obsolete + x - overlap && gone <= s.totalSize
  }

  /** However obsolete and expired bytes overlap, no fewer are gone than the one and no more than the other. */
  lemma ObsoleteIsExtreme(s: Summary) returns (most: int, least: int)
    requires Consistent(s)
    ensures IsGone(s, s.expiredLower, most, MinObsolete(s)) && IsGone(s, s.expiredGradual, least, MaxObsolete(s))
    ensures forall o, gone :: IsGone(s, s.expiredLower, o, gone) ==> MinObsolete(s) <= gone
    ensures forall o, gone :: IsGone(s, s.expiredGradual, o, gone) ==> gone <= MaxObsolete(s)
  {
    most := Min(s.obsolete, Min(s.expiredLower, s.totalSize));
    least := Max(s.obsolete + Min(s.expiredGradual, s.totalSize) - s.totalSize, 0);
  }

  /** The log's utilization is the live percentage rounded to the nearest, halves up. */
  lemma UtilizationRounds(obsolete: int, total: int)
    requires total > 0
    ensures var u, live := UtilizationOf(obsolete, total), if obsolete < total then total - obsolete else 0;
            2 * total * u - total <= 200 * live < 2 * total * u + total
  {
    var live := Max(total - obsolete, 0);
    var x, y := 200 * live + total, 2 * total;
    assert x == y * (x / y) + x % y;
  }

  lemma UtilizationInRange(obsolete: int, total: int)
    requires 0 <= obsolete <= total
    ensures 0 <= UtilizationOf(obsolete, total) <= 100
  {
    if total > 0 {
      DivGrows(200 * (total - obsolete) + total, 201 * total, 2 * total);
      QuotientIs(201 * total, 2 * total, 100);
    }
  }

  /** A larger share of a smaller total rounds to at least as much. */
  lemma UtilizationGrows(o1: int, t1: int, o2: int, t2: int)
    requires 0 <= o2 <= t2 && 0 <= t1 - t2 <= o1 - o2
    ensures UtilizationOf(o1, t1) <= UtilizationOf(o2, t2)
  {
    if t2 == 0 {
    } else {
      var a1, a2 := Max(t1 - o1, 0), t2 - o2;
      var q := UtilizationOf(o1, t1);
      assert a1 <= a2 && t2 <= t1;
      Rounded(a1, t1, q);
      ScaledDown(a1, t1, a2, t2, q);
      AtLeast(200 * a2 + t2, 2 * t2, q);
    }
  }

  lemma Rounded(a: nat, t: nat, q: int)
    requires t > 0 && q == (200 * a + t) / (2 * t)
    ensures 0 <= q && q * (2 * t) <= 200 * a + t
  {
    DivGrows(0, 200 * a + t, 2 * t);
    QuotientIs(0, 2 * t, 0);
    assert 200 * a + t == (2 * t) * q + (200 * a + t) % (2 * t);
  }

  lemma AtLeast(x: nat, y: nat, q: nat)
    requires y > 0 && q * y <= x
    ensures q <= x / y
  {
    DivGrows(q * y, x, y);
    QuotientIs(q * y, y, q);
  }

  lemma ScaledDown(a1: nat, t1: nat, a2: nat, t2: nat, q: nat)
    requires a1 <= a2 && 0 < t2 <= t1 && q * (2 * t1) <= 200 * a1 + t1
    ensures q * (2 * t2) <= 200 * a2 + t2
  {
    var d := t1 - t2;
    if q == 0 {
    } else {
      assert q * (2 * t1) == q * (2 * t2) + q * (2 * d);
      MulGrows(2 * d, 1, q);
    }
  }

  /** The prediction is a percentage. */
  lemma PredictedInRange(m: Summaries, inProgress: set<FileNum>)
    requires AllConsistent(m)
    ensures 0 <= PredictedMinUtil(m, inProgress) <= 100
  {
    var files := Sorted(m.Keys);
    SortedMembers(m.Keys);
    SizesOrdered(m, files, inProgress, inProgress, |files|);
    UtilizationInRange(ObsoleteSize(m, files, inProgress, |files|), TotalSize(m, files, inProgress, |files|));
  }

  /** Taking more files into cleaning never lowers the predicted utilization. */
  lemma PredictedNeverFalls(m: Summaries, some: set<FileNum>, more: set<FileNum>)
    requires AllConsistent(m) && some <= more
    ensures PredictedMinUtil(m, some) <= PredictedMinUtil(m, more)
  {
    var files := Sorted(m.Keys);
    SortedMembers(m.Keys);
    SizesOrdered(m, files, some, more, |files|);
    UtilizationGrows(ObsoleteSize(m, files, some, |files|), TotalSize(m, files, some, |files|),
                     ObsoleteSize(m, files, more, |files|), TotalSize(m, files, more, |files|));
  }
}

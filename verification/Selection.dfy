/**
 Which file the cleaner takes next, said without the selector's loops: the oldest eligible file
 the operator forced, else the file a utilization tier ranks first, else none.
 */
module Selection {
  import opened Lsns
  import opened Arith
  import opened Sorting
  import opened Files
  import opened Utilization

  datatype Policy = Policy(
    minUtilization: nat,
    minAge: nat,
    forceCleaning: bool,
    firstActiveTxnFile: Option<FileNum>,
    totalThreshold: Option<int>,
    fileThreshold: Option<int>)

  // ----- eligible files -------------------------------------------------------------------------

  ghost predicate IsNewest(m: Summaries, f: FileNum) {
    f in m && forall g :: g in m ==> g <= f
  }

  /** Old enough: `minAge` files lie between it and both the newest file and the oldest open transaction's. */
  ghost predicate OldEnough(m: Summaries, p: Policy, f: FileNum) {
    && (p.firstActiveTxnFile.Some? ==> f + p.minAge <= p.firstActiveTxnFile.value)
    && forall newest :: IsNewest(m, newest) ==> f + p.minAge <= newest
  }

  ghost predicate Eligible(m: Summaries, tracked: set<FileNum>, p: Policy, f: FileNum) {
    f in m && f !in tracked && !IsEmpty(m[f]) && OldEnough(m, p, f)
  }

  // ----- ranking --------------------------------------------------------------------------------

  datatype Rank = ByAverage | ByGradual

  function Score(m: Summaries, rank: Rank, f: FileNum): int
    requires f in m
  {
    if rank == ByAverage then AvgUtilization(m[f]) else MinUtilization(m[f])
  }

  /** `f` scores lowest of the eligible files, and lowest-numbered of those. */
  ghost predicate IsBest(m: Summaries, tracked: set<FileNum>, p: Policy, rank: Rank, f: FileNum) {
    && Eligible(m, tracked, p, f)
    && forall g: FileNum :: Eligible(m, tracked, p, g) ==>
         Score(m, rank, f) < Score(m, rank, g) || (Score(m, rank, f) == Score(m, rank, g) && f <= g)
  }

  ghost predicate IsFirstForced(m: Summaries, tracked: set<FileNum>, p: Policy, forced: set<FileNum>, f: FileNum) {
    && f in forced && Eligible(m, tracked, p, f)
    && forall g :: g in forced && Eligible(m, tracked, p, g) ==> f <= g
  }

  ghost predicate AnyForced(m: Summaries, tracked: set<FileNum>, p: Policy, forced: set<FileNum>) {
    exists f :: f in forced && Eligible(m, tracked, p, f)
  }

  // ----- the tiers ------------------------------------------------------------------------------

  function TotalThreshold(p: Policy): int {
    if p.totalThreshold.Some? then p.totalThreshold.value else p.minUtilization
  }

  function FileThreshold(p: Policy): int {
    if p.fileThreshold.Some? then p.fileThreshold.value else 0
  }

  ghost predicate LogIsSparse(m: Summaries, tracked: set<FileNum>, p: Policy) {
    PredictedMinUtil(m, tracked) < TotalThreshold(p)
  }

  ghost predicate SomeFileIsSparse(m: Summaries, tracked: set<FileNum>, p: Policy) {
    exists f: FileNum :: Eligible(m, tracked, p, f) && MinUtilization(m[f]) < FileThreshold(p)
  }

  /** The ranking the decision falls to; none when neither the log nor any file is sparse. */
  ghost function Tier(m: Summaries, tracked: set<FileNum>, p: Policy, always: bool): Option<Rank> {
    if p.forceCleaning || always then Some(ByAverage)
    else if LogIsSparse(m, tracked, p) then Some(ByAverage)
    else if SomeFileIsSparse(m, tracked, p) then Some(ByGradual)
    else None
  }

  ghost predicate IsChoice(
    m: Summaries, tracked: set<FileNum>, p: Policy, forced: set<FileNum>, always: bool, r: Option<FileNum>)
  {
    if AnyForced(m, tracked, p, forced) then r.Some? && IsFirstForced(m, tracked, p, forced, r.value)
    else
      var tier := Tier(m, tracked, p, always);
      if r.Some? then tier.Some? && IsBest(m, tracked, p, tier.value, r.value)
      else tier.None? || forall f: FileNum :: !Eligible(m, tracked, p, f)
  }

  /** Something was counted in the file, even if it takes no bytes. */
  predicate CountsAnything(s: Summary) {
    s.totalCount != 0 || s.totalSize != 0 || s.obsoleteInCount != 0 || s.obsoleteLnCount != 0
  }

  lemma EligibleIff(m: Summaries, tracked: set<FileNum>, p: Policy, f: FileNum)
    ensures Eligible(m, tracked, p, f) <==> f in m && f !in tracked && CountsAnything(m[f]) && OldEnough(m, p, f)
    ensures f in m && CountsAnything(m[f]) ==> TotalShare(m[f], false) == m[f].totalSize
  {
  }

  /**
   Files are ranked by average when cleaning is forced or the whole log is below the total threshold, which is the
   minimum utilization unless set; else by gradual utilization when some file is below the file threshold, which
   only ever happens if one is set, scores being no less than zero.
   */
  lemma TierIff(m: Summaries, tracked: set<FileNum>, p: Policy, always: bool)
    requires AllConsistent(m)
    ensures var tier, log := Tier(m, tracked, p, always), PredictedMinUtil(m, tracked);
            var low := match p.totalThreshold case Some(t) => log < t case None => log < p.minUtilization;
            && (tier == Some(ByAverage) <==> p.forceCleaning || always || low)
            && (tier == Some(ByGradual) <==>
                  && !p.forceCleaning && !always && !low && p.fileThreshold.Some?
                  && exists f: FileNum :: Eligible(m, tracked, p, f) && MinUtilization(m[f]) < p.fileThreshold.value)
  {
    forall f: FileNum | f in m
      ensures MinUtilization(m[f]) >= 0
    {
      UtilizationBand(m[f]);
    }
  }

  /** The description leaves no freedom. */
  lemma ChoiceIsUnique(
    m: Summaries, tracked: set<FileNum>, p: Policy, forced: set<FileNum>, always: bool,
    r1: Option<FileNum>, r2: Option<FileNum>)
    requires IsChoice(m, tracked, p, forced, always, r1) && IsChoice(m, tracked, p, forced, always, r2)
    ensures r1 == r2
  {
  }

  /** Nothing is ever chosen that is young, tracked, empty or still in an open transaction's window. */
  lemma ChoiceIsEligible(
    m: Summaries, tracked: set<FileNum>, p: Policy, forced: set<FileNum>, always: bool, r: Option<FileNum>)
    requires IsChoice(m, tracked, p, forced, always, r) && r.Some?
    ensures Eligible(m, tracked, p, r.value)
  {
  }

  /** Once the selector finds nothing to clean, taking further files into cleaning does not change its mind. */
  lemma NothingToCleanStays(
    m: Summaries, some: set<FileNum>, more: set<FileNum>, p: Policy, forced: set<FileNum>, always: bool)
    requires AllConsistent(m) && some <= more && IsChoice(m, some, p, forced, always, None)
    ensures IsChoice(m, more, p, forced, always, None)
  {
    assert forall f: FileNum :: Eligible(m, more, p, f) ==> Eligible(m, some, p, f);
    PredictedNeverFalls(m, some, more);
  }

  // ----- the two-pass gate ----------------------------------------------------------------------

  /** A file whose utilization is both uncertain and possibly high is measured again before it is cleaned. */
  function RequiredUtil(s: Summary, minUtilization: nat, gap: int, threshold: int): Option<int> {
    var limit := if threshold == 0 then Max(minUtilization - 5, 0) else threshold;
    if MaxUtilization(s) > limit && MaxUtilization(s) - MinUtilization(s) >= gap then Some(limit) else None
  }

  /** The mark to meet in a second look: as configured, or else five points below the minimum, but not below zero. */
  predicate IsMark(mark: int, minUtilization: nat, threshold: int) {
    if threshold != 0 then mark == threshold
    else mark >= 0 && mark >= minUtilization - 5 && (mark == 0 || mark == minUtilization - 5)
  }

  /** A second look is asked for exactly when the file may be above the mark and the estimates lie far apart. */
  lemma SecondLookIff(s: Summary, minUtilization: nat, gap: int, threshold: int, mark: int)
    ensures RequiredUtil(s, minUtilization, gap, threshold) == Some(mark) <==>
            && IsMark(mark, minUtilization, threshold)
            && mark < MaxUtilization(s) && MinUtilization(s) + gap <= MaxUtilization(s)
  {
  }

  /**
   A second look is only ever asked for at a mark below the pessimistic estimate and, under a
   positive gap, where the expired bytes are uncertain.
   */
  lemma SecondLookIsWarranted(s: Summary, minUtilization: nat, gap: int, threshold: int)
    requires Consistent(s) && RequiredUtil(s, minUtilization, gap, threshold).Some?
    ensures MinUtilization(s) + gap <= MaxUtilization(s)
    ensures RequiredUtil(s, minUtilization, gap, threshold).value < MaxUtilization(s)
    ensures gap > 0 ==> s.totalSize > 0 && s.expiredLower < s.expiredGradual && s.expiredLower < s.totalSize
  {
    assert Min(s.expiredLower, s.totalSize) == Min(s.expiredGradual, s.totalSize) ==>
             MinUtilization(s) == MaxUtilization(s);
  }

  // ----- the selector's loops -------------------------------------------------------------------

  method NewestFile(m: Summaries) returns (newest: FileNum)
    requires m != map[]
    ensures IsNewest(m, newest)
  {
    var files := FilesIn(m.Keys);
    newest := files[|files| - 1];
    forall g | g in m
      ensures g <= newest
    {
      assert g in files;
    }
  }

  /** The last file old enough to clean, as the selector computes it; none when every file is too young. */
  method LastFileToClean(m: Summaries, p: Policy) returns (last: Option<FileNum>)
    ensures last.Some? ==> forall f: FileNum :: f <= last.value <==> OldEnough(m, p, f)
    ensures last.None? ==> forall f: FileNum :: f in m ==> !OldEnough(m, p, f)
  {
    if m == map[] {
      return None;
    }
    var newest := NewestFile(m);
    var effective := newest;
    if p.firstActiveTxnFile.Some? && p.firstActiveTxnFile.value < newest {
      effective := p.firstActiveTxnFile.value;
    }
    if effective < p.minAge {
      return None;
    }
    last := Some(effective - p.minAge);
  }

  /** The lowest eligible file of the forced set. */
  method FirstForced(m: Summaries, tracked: set<FileNum>, p: Policy, forced: set<FileNum>, last: FileNum)
    returns (r: Option<FileNum>)
    requires forall f: FileNum :: f <= last <==> OldEnough(m, p, f)
    ensures r.Some? ==> IsFirstForced(m, tracked, p, forced, r.value)
    ensures r.None? ==> !AnyForced(m, tracked, p, forced)
  {
    var files := FilesIn(forced);
    for i := 0 to |files|
      invariant forall j :: 0 <= j < i ==>
                  !(files[j] <= last && files[j] !in tracked && files[j] in m && !IsEmpty(m[files[j]]))
    {
      var f := files[i];
      assert f in forced;
      if f <= last && f !in tracked && f in m && !IsEmpty(m[f]) {
        forall g | g in forced && Eligible(m, tracked, p, g)
          ensures f <= g
        {
          assert g in files;
        }
        return Some(f);
      }
    }
    forall g | g in forced
      ensures !Eligible(m, tracked, p, g)
    {
      assert g in files;
    }
    return None;
  }

  /** `score` beats file `g`, whether or not it is eligible. */
  ghost predicate Beats(
    m: Summaries, tracked: set<FileNum>, p: Policy, rank: Rank, best: FileNum, score: int, g: FileNum)
  {
    Eligible(m, tracked, p, g) ==> score < Score(m, rank, g) || (score == Score(m, rank, g) && best <= g)
  }

  /** `best` is the best of the first `n` files. */
  ghost predicate BestSoFar(
    m: Summaries, tracked: set<FileNum>, p: Policy, rank: Rank, files: seq<FileNum>, n: nat,
    best: Option<FileNum>, score: int)
    requires n <= |files|
  {
    if best.None? then forall i :: 0 <= i < n ==> !Eligible(m, tracked, p, files[i])
    else
      && Eligible(m, tracked, p, best.value) && score == Score(m, rank, best.value)
      && (forall i :: n <= i < |files| ==> best.value < files[i])
      && (forall i :: 0 <= i < n ==> Beats(m, tracked, p, rank, best.value, score, files[i]))
  }

  lemma BestStep(
    m: Summaries, tracked: set<FileNum>, p: Policy, rank: Rank, files: seq<FileNum>, n: nat,
    best: Option<FileNum>, score: int)
    requires n < |files| && Ascending(files) && BestSoFar(m, tracked, p, rank, files, n, best, score)
    ensures var f := files[n];
            if Eligible(m, tracked, p, f) && (best.None? || Score(m, rank, f) < score)
            then BestSoFar(m, tracked, p, rank, files, n + 1, Some(f), Score(m, rank, f))
            else BestSoFar(m, tracked, p, rank, files, n + 1, best, score)
  {
  }

  lemma BestOfAll(
    m: Summaries, tracked: set<FileNum>, p: Policy, rank: Rank, files: seq<FileNum>, best: Option<FileNum>, score: int)
    requires forall g :: g in m ==> g in files
    requires BestSoFar(m, tracked, p, rank, files, |files|, best, score)
    ensures best.None? ==> forall g: FileNum :: !Eligible(m, tracked, p, g)
    ensures best.Some? ==> IsBest(m, tracked, p, rank, best.value)
  {
    forall g: FileNum | Eligible(m, tracked, p, g)
      ensures best.Some? && Beats(m, tracked, p, rank, best.value, score, g)
    {
      assert g in files;
    }
  }

  /** One pass that ranks every eligible file both ways. */
  method BestFiles(m: Summaries, tracked: set<FileNum>, p: Policy, last: FileNum)
    returns (best: Option<FileNum>, gradual: Option<FileNum>, gradualUtil: int)
    requires forall f: FileNum :: f <= last <==> OldEnough(m, p, f)
    ensures best.None? || gradual.None? ==> forall g: FileNum :: !Eligible(m, tracked, p, g)
    ensures best.Some? ==> IsBest(m, tracked, p, ByAverage, best.value)
    ensures gradual.Some? ==>
              IsBest(m, tracked, p, ByGradual, gradual.value) && gradualUtil == MinUtilization(m[gradual.value])
  {
    var files := FilesIn(m.Keys);
    var bestAvg := 101;
    best, gradual, gradualUtil := None, None, 101;
    for i := 0 to |files|
      invariant BestSoFar(m, tracked, p, ByAverage, files, i, best, bestAvg)
      invariant BestSoFar(m, tracked, p, ByGradual, files, i, gradual, gradualUtil)
    {
      BestStep(m, tracked, p, ByAverage, files, i, best, bestAvg);
      BestStep(m, tracked, p, ByGradual, files, i, gradual, gradualUtil);
      var f := files[i];
      if f in tracked || f > last || IsEmpty(m[f]) {
        continue;
      }
      var low, high := MinUtilization(m[f]), MaxUtilization(m[f]);
      var avg := (low + high) / 2;
      if best.None? || avg < bestAvg {
        best, bestAvg := Some(f), avg;
      }
      if gradual.None? || low < gradualUtil {
        gradual, gradualUtil := Some(f), low;
      }
    }
    BestOfAll(m, tracked, p, ByAverage, files, best, bestAvg);
    BestOfAll(m, tracked, p, ByGradual, files, gradual, gradualUtil);
  }

  /** The best gradual file is below the file threshold exactly when some eligible file is. */
  lemma GradualDecides(m: Summaries, tracked: set<FileNum>, p: Policy, f: FileNum)
    requires IsBest(m, tracked, p, ByGradual, f)
    ensures SomeFileIsSparse(m, tracked, p) <==> MinUtilization(m[f]) < FileThreshold(p)
  {
  }

  method Decide(m: Summaries, tracked: set<FileNum>, p: Policy, forced: set<FileNum>, always: bool, last: FileNum)
    returns (r: Option<FileNum>)
    requires !AnyForced(m, tracked, p, forced)
    requires forall f: FileNum :: f <= last <==> OldEnough(m, p, f)
    ensures IsChoice(m, tracked, p, forced, always, r)
  {
    var best, gradual, gradualUtil := BestFiles(m, tracked, p, last);
    var predicted := ComputePredictedMinUtil(m, tracked);
    var force := p.forceCleaning || always;
    if gradual.Some? {
      GradualDecides(m, tracked, p, gradual.value);
    }
    if !force && predicted < TotalThreshold(p) {
      r := best;
    } else if !force && gradualUtil < FileThreshold(p) {
      r := gradual;
    } else if force {
      r := best;
    } else {
      r := None;
    }
  }

  /** What the operator forced comes first; `drained` tells that the file leaves the forced set. */
  method Choose(m: Summaries, tracked: set<FileNum>, p: Policy, forced: set<FileNum>, always: bool)
    returns (r: Option<FileNum>, drained: bool)
    ensures IsChoice(m, tracked, p, forced, always, r)
    ensures drained <==> AnyForced(m, tracked, p, forced)
  {
    var last := LastFileToClean(m, p);
    if last.None? {
      return None, false;
    }
    r := FirstForced(m, tracked, p, forced, last.value);
    drained := r.Some?;
    if r.None? {
      r := Decide(m, tracked, p, forced, always, last.value);
    }
  }
}

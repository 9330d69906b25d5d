/**
 Protection of log files from deletion: a hold count per file, and the replication floor from
 which on every file is protected.
 */
module FileProtector {
  import opened Lsns

  const NO_FLOOR: nat := 0xFFFF_FFFF_FFFF_FFFF

  datatype Call =
    | Protect(file: FileNum)
    | Unprotect(file: FileNum)
    | SetFloor(floor: Option<FileNum>)
    | Clear

  // ----- what a history of calls means --------------------------------------------------------

  /** Holds left on a file. A release without a hold does nothing. */
  function Holds(history: seq<Call>, f: FileNum): nat {
    if history == [] then 0
    else
      var before, call := Holds(history[..|history| - 1], f), history[|history| - 1];
      match call
      case Protect(g) => if g == f then before + 1 else before
      case Unprotect(g) => if g == f && before > 0 then before - 1 else before
      case SetFloor(_) => before
      case Clear => 0
  }

  function Raw(floor: Option<FileNum>): nat {
    if floor.Some? then floor.value else NO_FLOOR
  }

  function Floor(history: seq<Call>): nat {
    if history == [] then NO_FLOOR
    else
      var last := history[|history| - 1];
      if last.SetFloor? then Raw(last.floor) else Floor(history[..|history| - 1])
  }

  predicate Protected(history: seq<Call>, f: FileNum) {
    f >= Floor(history) || Holds(history, f) > 0
  }

  /** Call `i` is the last to set the floor. */
  ghost predicate IsLastFloor(history: seq<Call>, i: nat) {
    i < |history| && history[i].SetFloor? && forall j :: i < j < |history| ==> !history[j].SetFloor?
  }

  /** Call `i` set the floor the file is at or past. */
  ghost predicate IsPastFloor(history: seq<Call>, f: FileNum, i: nat) {
    IsLastFloor(history, i) && history[i].floor.Some? && history[i].floor.value <= f
  }

  lemma {:induction false} FloorIff(history: seq<Call>, f: FileNum)
    ensures f >= Floor(history) <==> exists i: nat :: IsPastFloor(history, f, i)
    decreases |history|
  {
    if history == [] {
    } else {
      var n := |history| - 1;
      var init := history[..n];
      FloorIff(init, f);
      if history[n].SetFloor? {
        assert IsLastFloor(history, n) && forall i: nat :: IsLastFloor(history, i) ==> i == n;
        assert f >= Floor(history) <==> IsPastFloor(history, f, n);
      } else {
        assert forall i: nat :: IsPastFloor(history, f, i) <==> IsPastFloor(init, f, i);
      }
    }
  }

  /** A file is protected exactly when it is held, or lies at or past the floor last set. */
  lemma ProtectedIff(history: seq<Call>, f: FileNum)
    ensures Protected(history, f) <==> Holds(history, f) > 0 || exists i: nat :: IsPastFloor(history, f, i)
  {
    FloorIff(history, f);
  }

  lemma Appended(history: seq<Call>, call: Call, f: FileNum)
    ensures Floor(history + [call]) ==
            if call.SetFloor? then Raw(call.floor) else Floor(history)
    ensures Holds(history + [call], f) ==
            if call == Protect(f) then Holds(history, f) + 1
            else if call == Unprotect(f) && Holds(history, f) > 0 then Holds(history, f) - 1
            else if call == Clear then 0
            else Holds(history, f)
  {
    assert (history + [call])[..|history|] == history;
  }

  // ----- holds counted without running the calls ------------------------------------------------

  /** Holds taken minus releases in a stretch of calls. */
  function Net(calls: seq<Call>, f: FileNum): int {
    if calls == [] then 0
    else Net(calls[..|calls| - 1], f) +
         if calls[|calls| - 1] == Protect(f) then 1 else if calls[|calls| - 1] == Unprotect(f) then -1 else 0
  }

  predicate Unbroken(history: seq<Call>, j: nat) {
    j <= |history| && Clear !in history[j..]
  }

  lemma SuffixOfPrefix(history: seq<Call>, j: nat, f: FileNum)
    requires Unbroken(history, j) && j < |history|
    ensures Unbroken(history[..|history| - 1], j)
    ensures var last := history[|history| - 1];
            Net(history[j..], f) ==
            Net(history[..|history| - 1][j..], f) +
            if last == Protect(f) then 1 else if last == Unprotect(f) then -1 else 0
  {
    var init := history[..|history| - 1];
    assert history[j..] == init[j..] + [history[|history| - 1]];
    assert history[j..][..|history| - 1 - j] == init[j..];
  }

  /** No recent stretch of calls took more holds, net of releases, than are left. */
  lemma {:induction false} HoldsCoverEveryStretch(history: seq<Call>, j: nat, f: FileNum)
    requires Unbroken(history, j)
    ensures Net(history[j..], f) <= Holds(history, f)
    decreases |history|
  {
    if j < |history| {
      SuffixOfPrefix(history, j, f);
      HoldsCoverEveryStretch(history[..|history| - 1], j, f);
      assert history[|history| - 1] in history[j..];
    } else {
      assert history[j..] == [];
    }
  }

  /** And some recent stretch took exactly as many: a file is held exactly when one took more than it gave back. */
  lemma {:induction false} SomeStretchGivesHolds(history: seq<Call>, f: FileNum) returns (j: nat)
    ensures Unbroken(history, j) && Net(history[j..], f) == Holds(history, f)
    decreases |history|
  {
    if history == [] {
      j := 0;
      assert history[0..] == [];
    } else {
      var n := |history| - 1;
      if Holds(history, f) == 0 {
        j := n + 1;
        assert history[j..] == [];
      } else {
        j := SomeStretchGivesHolds(history[..n], f);
        assert history[j..] == history[..n][j..] + [history[n]];
        assert history[j..][..n - j] == history[..n][j..];
      }
    }
  }

  lemma HeldIffSomeStretchIsPositive(history: seq<Call>, f: FileNum)
    ensures Holds(history, f) > 0 <==> exists j: nat :: Unbroken(history, j) && Net(history[j..], f) > 0
  {
    var k := SomeStretchGivesHolds(history, f);
    if exists j: nat :: Unbroken(history, j) && Net(history[j..], f) > 0 {
      var j: nat :| Unbroken(history, j) && Net(history[j..], f) > 0;
      HoldsCoverEveryStretch(history, j, f);
    }
  }

  function Releases(calls: seq<Call>, f: FileNum): nat {
    if calls == [] then 0
    else Releases(calls[..|calls| - 1], f) + if calls[|calls| - 1] == Unprotect(f) then 1 else 0
  }

  /**
   As many releases as holds are needed to free a file: with fewer it stays protected, however
   the floor moves and whatever happens to other files; with exactly as many and no new hold
   only the floor still protects it.
   */
  lemma {:induction false} HoldersMustAllRelease(history: seq<Call>, more: seq<Call>, f: FileNum)
    requires Clear !in more
    ensures Holds(history + more, f) >= Holds(history, f) - Releases(more, f)
    ensures Protect(f) !in more ==>
              Holds(history + more, f) ==
              if Releases(more, f) < Holds(history, f) then Holds(history, f) - Releases(more, f) else 0
    decreases |more|
  {
    if more == [] {
      assert history + more == history;
    } else {
      var n := |more| - 1;
      HoldersMustAllRelease(history, more[..n], f);
      assert history + more == (history + more[..n]) + [more[n]];
      Appended(history + more[..n], more[n], f);
    }
  }

  lemma HeldFileSurvives(history: seq<Call>, more: seq<Call>, f: FileNum)
    requires Clear !in more && Releases(more, f) < Holds(history, f)
    ensures Protected(history + more, f)
  {
    HoldersMustAllRelease(history, more, f);
  }

  // ----- the protector -----------------------------------------------------------------------------

  predicate Counted(counts: map<FileNum, nat>, history: seq<Call>, f: FileNum) {
    if f in counts then Holds(history, f) == counts[f] > 0 else Holds(history, f) == 0
  }

  class FileProtector {
    var counts: map<FileNum, nat>
    var floor: nat
    ghost var history: seq<Call>

    ghost predicate Valid()
      reads this
    {
      floor == Floor(history) && forall f: FileNum :: Counted(counts, history, f)
    }

    constructor ()
      ensures Valid() && history == []
    {
      counts := map[];
      floor := NO_FLOOR;
      history := [];
    }

    method ProtectFile(file: FileNum)
      requires Valid()
      modifies this
      ensures Valid() && history == old(history) + [Protect(file)]
    {
      if file in counts {
        counts := counts[file := counts[file] + 1];
      } else {
        counts := counts[file := 1];
      }
      history := history + [Protect(file)];
      forall f: FileNum
        ensures Counted(counts, history, f)
      {
        assert old(Counted(counts, history, f));
        Appended(old(history), Protect(file), f);
      }
    }

    /** Tells whether the file has no hold left. */
    method UnprotectFile(file: FileNum) returns (free: bool)
      requires Valid()
      modifies this
      ensures Valid() && history == old(history) + [Unprotect(file)]
      ensures free <==> Holds(history, file) == 0
    {
      free := true;
      assert Counted(counts, history, file);
      if file in counts {
        if counts[file] > 1 {
          counts := counts[file := counts[file] - 1];
          free := false;
        } else {
          counts := counts - {file};
        }
      }
      history := history + [Unprotect(file)];
      forall f: FileNum
        ensures Counted(counts, history, f)
      {
        assert old(Counted(counts, history, f));
        Appended(old(history), Unprotect(file), f);
      }
    }

    method SetReplicationFloor(file: Option<FileNum>)
      requires Valid()
      modifies this
      ensures Valid() && history == old(history) + [SetFloor(file)]
    {
      floor := Raw(file);
      Appended(history, SetFloor(file), 0);
      history := history + [SetFloor(file)];
      forall f: FileNum
        ensures Counted(counts, history, f)
      {
        assert old(Counted(counts, history, f));
        Appended(old(history), SetFloor(file), f);
      }
    }

    method IsProtected(file: FileNum) returns (r: bool)
      requires Valid()
      ensures r <==> Protected(history, file)
    {
      assert Counted(counts, history, file);
      r := file >= floor || file in counts;
    }

    method ClearAll()
      requires Valid()
      modifies this
      ensures Valid() && history == old(history) + [Clear]
    {
      counts := map[];
      history := history + [Clear];
      forall f: FileNum
        ensures Counted(counts, history, f)
      {
        assert old(Counted(counts, history, f));
        Appended(old(history), Clear, f);
      }
    }
  }
}

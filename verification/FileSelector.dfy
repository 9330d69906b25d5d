/** The file selector as an object: its fields are the pipeline state, its methods the pipeline transitions. */
module FileSelector {
  import opened Lsns
  import opened Files
  import opened Utilization
  import opened Selection
  import P = Pipeline

  datatype Pick = Pick(file: FileNum, requiredUtil: Option<int>)

  /** Taking the head of the queue; a file without a record is swallowed and yields nothing. */
  function Queued(s: P.State): Option<Pick> {
    if s.queue != [] && s.queue[0] in s.info then Some(Pick(s.queue[0], s.info[s.queue[0]].requiredUtil)) else None
  }

  datatype Snapshot = Snapshot(cleaned: seq<FileNum>, fullyProcessed: seq<FileNum>)

  /** The selector's settings. */
  datatype Config = Config(force: bool, gap: int, threshold: int)

  /** What a selection over an empty queue does: claims the choice and drains it from the forced set. */
  ghost predicate Selected(
    c: Config, m: Summaries, p: Policy, s: P.State, forced: set<FileNum>, s': P.State, forced': set<FileNum>,
    r: Option<Pick>)
  {
    var tracked := s.info.Keys;
    var file := if r.Some? then Some(r.value.file) else None;
    && IsChoice(m, tracked, p, forced, c.force, file)
    && (r.None? ==> s' == s && forced' == forced)
    && (r.Some? ==>
          && Eligible(m, tracked, p, r.value.file)
          && s' == P.Claim(s, r.value.file, r.value.requiredUtil)
          && (if AnyForced(m, tracked, p, forced)
              then r.value.requiredUtil == None && forced' == forced - {r.value.file}
              else
                && forced' == forced
                && r.value.requiredUtil ==
                   if c.force then None else RequiredUtil(m[r.value.file], p.minUtilization, c.gap, c.threshold)))
  }

  ghost predicate PolicyStep(
    c: Config, m: Summaries, p: Policy, s: P.State, forced: set<FileNum>, s': P.State, forced': set<FileNum>,
    r: Option<Pick>)
  {
    if s.queue != [] then s' == P.TakeQueued(s) && forced' == forced && r == Queued(s)
    else Selected(c, m, p, s, forced, s', forced', r)
  }

  /** The queue first; only when it yields nothing, the profile. */
  ghost predicate SelectionStep(
    c: Config, m: Summaries, p: Policy, s: P.State, forced: set<FileNum>, s': P.State, forced': set<FileNum>,
    r: Option<Pick>)
  {
    if Queued(s).Some? then s' == P.TakeQueued(s) && forced' == forced && r == Queued(s)
    else PolicyStep(c, m, p, P.TakeQueued(s), forced, s', forced', r)
  }

  class FileSelector {
    var info: map<FileNum, P.Info>
    var queue: seq<FileNum>
    var being: set<FileNum>
    var cleaned: set<FileNum>
    var checkpointed: set<FileNum>
    var safe: set<FileNum>
    var pendingLns: map<Lsn, LnInfo>
    var pendingDbs: set<int>
    var anyPending: bool
    var forcedFiles: set<FileNum>
    var forceCleaning: bool
    var twoPassGap: int
    var twoPassThreshold: int

    function View(): P.State
      reads this
    {
      P.State(info, queue, being, cleaned, checkpointed, safe, pendingLns, pendingDbs, anyPending)
    }

    function Settings(): Config
      reads this
    {
      Config(forceCleaning, twoPassGap, twoPassThreshold)
    }

    constructor ()
      ensures View() == P.EMPTY && forcedFiles == {} && !forceCleaning && twoPassGap == 10 && twoPassThreshold == 0
    {
      info, queue, being, cleaned, checkpointed, safe := map[], [], {}, {}, {}, {};
      pendingLns, pendingDbs, anyPending := map[], {}, false;
      forcedFiles, forceCleaning, twoPassGap, twoPassThreshold := {}, false, 10, 0;
    }

    method SetStatus(file: FileNum, status: P.Status)
      modifies this`info
      ensures info == P.WithStatus(old(info), {file}, status)
    {
      if file in info {
        info := info[file := info[file].(status := status)];
      }
    }

    method AddFileToCleanWithUtil(file: FileNum, util: Option<int>)
      modifies this`info, this`queue
      ensures View() == P.AddToClean(old(View()), file, util)
    {
      if file !in info {
        queue := queue + [file];
        info := info[file := P.Info(P.ToBeCleaned, util)];
      }
    }

    method SelectFromQueue() returns (r: Option<Pick>)
      modifies this`info, this`queue, this`being
      ensures View() == P.TakeQueued(old(View())) && r == Queued(old(View()))
    {
      r := None;
      if queue != [] {
        var file := queue[0];
        queue := queue[1..];
        being := being + {file};
        SetStatus(file, P.BeingCleaned);
        if file in info {
          r := Some(Pick(file, info[file].requiredUtil));
        }
      }
    }

    method RemoveFileFromCleaning(file: FileNum)
      modifies this`info, this`being
      ensures View() == P.RemoveFromCleaning(old(View()), file)
    {
      being := being - {file};
      info := info - {file};
    }

    method PutBackFileForCleaning(file: FileNum)
      modifies this`info, this`being, this`queue
      ensures View() == P.PutBack(old(View()), file)
    {
      if file !in being {
        return;
      }
      being := being - {file};
      queue := queue + [file];
      SetStatus(file, P.ToBeCleaned);
    }

    method MarkFileCleaned(file: FileNum)
      modifies this`info, this`being, this`cleaned
      ensures View() == P.MarkCleaned(old(View()), file)
    {
      being := being - {file};
      cleaned := cleaned + {file};
      SetStatus(file, P.Cleaned);
    }

    method MarkFileCheckpointed(file: FileNum)
      modifies this`info, this`cleaned, this`checkpointed
      ensures View() == P.MarkCheckpointed(old(View()), {file})
    {
      cleaned := cleaned - {file};
      checkpointed := checkpointed + {file};
      SetStatus(file, P.Checkpointed);
    }

    method MarkFileFullyProcessed(file: FileNum)
      modifies this`info, this`checkpointed, this`safe
      ensures info == P.WithStatus(old(info), {file}, P.FullyProcessed)
      ensures checkpointed == old(checkpointed) - {file} && safe == old(safe) + {file}
    {
      checkpointed := checkpointed - {file};
      safe := safe + {file};
      SetStatus(file, P.FullyProcessed);
    }

    /** Every checkpointed file, one at a time, in whatever order the hash set yields them. */
    method PromoteAll()
      modifies this`info, this`checkpointed, this`safe
      ensures View() == P.Promote(old(View()))
    {
      var todo := checkpointed;
      while todo != {}
        invariant todo == checkpointed
        invariant P.Promote(View()) == P.Promote(old(View()))
        decreases |todo|
      {
        var file :| file in todo;
        ghost var before := View();
        MarkFileFullyProcessed(file);
        PromoteOne(before, file, View());
        todo := todo - {file};
      }
      assert View().info == P.WithStatus(View().info, {}, P.FullyProcessed);
    }

    method UpdateProcessedFiles()
      modifies this`info, this`checkpointed, this`safe
      ensures View() == P.UpdateProcessed(old(View()))
    {
      if pendingLns == map[] && pendingDbs == {} {
        PromoteAll();
      }
    }

    method GetCheckpointState() returns (state: Snapshot)
      modifies this`anyPending
      ensures View() == P.CheckpointStart(old(View()))
      ensures state.cleaned == SortedFiles(cleaned) && state.fullyProcessed == SortedFiles(safe)
    {
      anyPending := !(pendingLns == map[]) || !(pendingDbs == {});
      var q := FilesIn(cleaned);
      var r := FilesIn(safe);
      state := Snapshot(q, r);
    }

    /** The snapshot is any list of files; duplicates and files that left the stage are skipped. */
    method ProcessCheckpointEnd(state: Snapshot)
      modifies this`info, this`cleaned, this`checkpointed, this`safe
      ensures View() == P.CheckpointEnd(old(View()), P.Elements(state.cleaned))
    {
      if !anyPending {
        PromoteAll();
      }
      MarkAllCheckpointed(state.cleaned);
      UpdateProcessedFiles();
    }

    method MarkAllCheckpointed(files: seq<FileNum>)
      modifies this`info, this`cleaned, this`checkpointed
      ensures View() == P.MarkCheckpointed(old(View()), P.Elements(files) * old(cleaned))
    {
      ghost var start := View();
      assert P.WithStatus(info, {}, P.Checkpointed) == info;
      assert P.Elements(files[..0]) == {};
      for i := 0 to |files|
        invariant View() == P.MarkCheckpointed(start, P.Elements(files[..i]) * start.cleaned)
      {
        ghost var done := P.Elements(files[..i]) * start.cleaned;
        assert P.Elements(files[..i + 1]) == P.Elements(files[..i]) + {files[i]};
        if files[i] in cleaned {
          MarkFileCheckpointed(files[i]);
          MarkOneMore(start, done, files[i]);
          assert P.Elements(files[..i + 1]) * start.cleaned == done + {files[i]};
        } else {
          assert P.Elements(files[..i + 1]) * start.cleaned == done;
        }
      }
      assert files[..|files|] == files;
    }

    method GetSafeToDelete() returns (files: seq<FileNum>)
      ensures files == SortedFiles(safe)
    {
      files := FilesIn(safe);
    }

    method RemoveDeletedFile(file: FileNum)
      modifies this`info, this`safe
      ensures View() == P.RemoveDeleted(old(View()), file)
    {
      safe := safe - {file};
      info := info - {file};
    }

    method AddSafeToDeleteBack(file: FileNum)
      modifies this`safe
      ensures View() == P.AddSafeBack(old(View()), file)
    {
      safe := safe + {file};
    }

    method AddPendingLn(lsn: Lsn, ln: LnInfo) returns (known: bool)
      modifies this`anyPending, this`pendingLns
      ensures View() == P.AddPendingLn(old(View()), lsn, ln) && (known <==> lsn in old(pendingLns))
    {
      anyPending := true;
      known := lsn in pendingLns;
      pendingLns := pendingLns[lsn := ln];
    }

    method RemovePendingLn(lsn: Lsn)
      modifies this`pendingLns, this`info, this`checkpointed, this`safe
      ensures View() == P.RemovePendingLn(old(View()), lsn)
    {
      pendingLns := pendingLns - {lsn};
      UpdateProcessedFiles();
    }

    method AddPendingDb(db: int) returns (added: bool)
      modifies this`anyPending, this`pendingDbs
      ensures View() == P.AddPendingDb(old(View()), db) && (added <==> db !in old(pendingDbs))
    {
      anyPending := true;
      added := db !in pendingDbs;
      pendingDbs := pendingDbs + {db};
    }

    method RemovePendingDb(db: int)
      modifies this`pendingDbs, this`info, this`checkpointed, this`safe
      ensures View() == P.RemovePendingDb(old(View()), db)
    {
      pendingDbs := pendingDbs - {db};
      UpdateProcessedFiles();
    }

    // ----- selection ------------------------------------------------------------------------------

    method SelectWithPolicy(m: Summaries, p: Policy) returns (r: Option<Pick>)
      modifies this`info, this`queue, this`being, this`forcedFiles
      ensures PolicyStep(Settings(), m, p, old(View()), old(forcedFiles), View(), forcedFiles, r)
    {
      if queue != [] {
        r := SelectFromQueue();
        return;
      }
      var file, drained := Choose(m, info.Keys, p, forcedFiles, forceCleaning);
      if file.None? {
        return None;
      }
      ChoiceIsEligible(m, info.Keys, p, forcedFiles, forceCleaning, file);
      var util := None;
      if drained {
        forcedFiles := forcedFiles - {file.value};
      } else if !forceCleaning {
        util := RequiredUtil(m[file.value], p.minUtilization, twoPassGap, twoPassThreshold);
      }
      being := being + {file.value};
      info := info[file.value := P.Info(P.BeingCleaned, util)];
      r := Some(Pick(file.value, util));
    }

    /** The queue first; only when it yields nothing, the profile. */
    method SelectFileForCleaning(
      m: Summaries, minUtilization: nat, minAge: nat, force: bool, firstActiveTxnFile: Option<FileNum>,
      minFileUtilization: int)
      returns (r: Option<Pick>)
      modifies this`info, this`queue, this`being, this`forcedFiles
      ensures var p := Policy(
                minUtilization, minAge, force, firstActiveTxnFile, Some(minUtilization), Some(minFileUtilization));
              SelectionStep(Settings(), m, p, old(View()), old(forcedFiles), View(), forcedFiles, r)
    {
      r := SelectFromQueue();
      if r.None? {
        var p := Policy(
          minUtilization, minAge, force, firstActiveTxnFile, Some(minUtilization), Some(minFileUtilization));
        r := SelectWithPolicy(m, p);
      }
    }
  }

  /** Promoting one file and then the rest is promoting them all. */
  lemma PromoteOne(s: P.State, f: FileNum, s': P.State)
    requires f in s.checkpointed
    requires s' == s.(info := P.WithStatus(s.info, {f}, P.FullyProcessed),
                      checkpointed := s.checkpointed - {f}, safe := s.safe + {f})
    ensures P.Promote(s') == P.Promote(s)
  {
    assert P.Promote(s').info == P.Promote(s).info;
    assert P.Promote(s').safe == P.Promote(s).safe;
  }

  lemma MarkOneMore(s: P.State, done: set<FileNum>, f: FileNum)
    ensures P.MarkCheckpointed(P.MarkCheckpointed(s, done), {f}) == P.MarkCheckpointed(s, done + {f})
  {
    var a, b := P.MarkCheckpointed(P.MarkCheckpointed(s, done), {f}), P.MarkCheckpointed(s, done + {f});
    assert a.info == b.info && a.cleaned == b.cleaned && a.checkpointed == b.checkpointed;
  }
}

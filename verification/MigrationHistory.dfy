/**
 What the ledger can look like after any history of runs on a database that started empty, when every package keeps the
 numbered files of the one before it and adds only names that sort later. The files of every package are then a prefix
 of one list, here called master; the schema snapshot of a fresh run may change from package to package.
 */
module MigrationHistory {
  import opened Options
  import opened MigrationStore
  import opened MigrationRuns

  ghost predicate Master(master: seq<File>) {
    DistinctNames(master) && SCHEMA !in Names(master)
  }

  /** The frozen list of one package: numbered files, behind the schema snapshot on a fresh run. */
  ghost predicate Packaged(master: seq<File>, files: seq<File>, freshSchema: bool) {
    if freshSchema then files != [] && files[0].name == SCHEMA && files[1..] <= master else files <= master
  }

  ghost predicate Packages(master: seq<File>, steps: seq<Step>) {
    forall i :: 0 <= i < |steps| && steps[i].Connect? ==> Packaged(master, steps[i].files, steps[i].freshSchema)
  }

  function Numbered(log: seq<File>): seq<File> {
    if log != [] && log[0].name == SCHEMA then log[1..] else log
  }

  /** The schema row, if the history began with a fresh run. */
  function SchemaPart(log: seq<File>): seq<File> {
    if log != [] && log[0].name == SCHEMA then [log[0]] else []
  }

  ghost predicate RunHistory(master: seq<File>, log: seq<File>, r: Run) {
    && Packaged(master, r.files, r.freshSchema)
    && (r.freshSchema && r.phase.Applying? ==> r.phase.next <= |r.files| && log == r.files[..r.phase.next])
  }

  ghost predicate HistoryInv(master: seq<File>, w: World) {
    && Numbered(w.log) <= master
    && forall id :: id in w.runs ==> RunHistory(master, w.log, w.runs[id])
  }

  lemma PackagedIsDistinct(master: seq<File>, files: seq<File>, freshSchema: bool)
    requires Master(master) && Packaged(master, files, freshSchema)
    ensures DistinctNames(files)
  {
    if freshSchema {
      forall i, j | 0 <= i < j < |files|
        ensures files[i].name != files[j].name
      {
        assert files[j] == files[1..][j - 1] == master[j - 1];
        if i > 0 {
          assert files[i] == files[1..][i - 1] == master[i - 1];
        }
      }
    }
  }

  /** A numbered file of the list is on the log exactly when its position is below the number of numbered commits. */
  lemma OnLogIffBelow(master: seq<File>, log: seq<File>, i: nat)
    requires Master(master) && Numbered(log) <= master && i < |master|
    ensures master[i].name in Names(log) <==> i < |Numbered(log)|
  {
    var shift := |log| - |Numbered(log)|;
    if i < |Numbered(log)| {
      assert log[i + shift] == Numbered(log)[i] == master[i];
    }
    if master[i].name in Names(log) {
      var j :| 0 <= j < |log| && log[j].name == master[i].name;
      assert master[i].name in Names(master);
      assert j >= shift;
      assert log[j] == Numbered(log)[j - shift] == master[j - shift];
    }
  }

  /** With an empty starting ledger the current rows name exactly the committed files. */
  lemma LedgerNames(e: Engine, db: Db, w: World)
    requires LogInv(e, Store(db, None), w)
    ensures Rows(w.store.ledger) == RowsOf(w.log) && RowsOf(w.log).Keys == Names(w.log)
  {
    RowsOfKeys(w.log);
    assert RowsOf([]) == map[];
    assert map[] + RowsOf(w.log) == RowsOf(w.log);
  }

  /** The passed files are all committed, so the position is at most the number of numbered commits. */
  lemma PassedAreCommitted(master: seq<File>, log: seq<File>, files: seq<File>, existing: Ledger, next: nat)
    requires Master(master) && Numbered(log) <= master && files <= master && next <= |files|
    requires (RowsOf(files[..next]) + existing).Keys == Names(log)
    ensures next <= |Numbered(log)|
  {
    if next > 0 {
      RowsOfKeys(files[..next]);
      assert files[..next][next - 1].name in Names(files[..next]);
      OnLogIffBelow(master, log, next - 1);
    }
  }

  /** A file that the snapshot lacks is the first numbered file that the database lacks. */
  lemma NewFileIsNext(master: seq<File>, log: seq<File>, files: seq<File>, existing: Ledger, next: nat)
    requires Master(master) && Numbered(log) <= master && files <= master && next < |files|
    requires (RowsOf(files[..next]) + existing).Keys == Names(log)
    requires files[next].name !in existing
    ensures next == |Numbered(log)|
  {
    PassedAreCommitted(master, log, files, existing, next);
    RowsOfKeys(files[..next]);
    assert files[next] == master[next];
    assert files[next].name !in Names(files[..next]);
    OnLogIffBelow(master, log, next);
  }

  /** Validation admitted no foreign row, so a run that passed all its files has reached the end of the log. */
  lemma AllPassedIsAll(master: seq<File>, log: seq<File>, files: seq<File>, existing: Ledger)
    requires Master(master) && Numbered(log) <= master && files <= master
    requires (RowsOf(files) + existing).Keys == Names(log)
    requires existing.Keys <= Names(files) + {SCHEMA}
    ensures Numbered(log) == files
  {
    assert files[..|files|] == files;
    PassedAreCommitted(master, log, files, existing, |files|);
    RowsOfKeys(files);
    if |files| < |master| {
      LaterIsAbsent(master, files);
      OnLogIffBelow(master, log, |files|);
    }
  }

  lemma LaterIsAbsent(master: seq<File>, files: seq<File>)
    requires Master(master) && files <= master && |files| < |master|
    ensures master[|files|].name !in Names(files) + {SCHEMA}
  {
    assert master[|files|].name in Names(master);
    assert forall j :: 0 <= j < |files| ==> files[j] == master[j];
  }

  /** A fresh run read an empty ledger, so nothing was committed before it. */
  lemma FreshFindsNothing(e: Engine, db: Db, w: World, r: Run)
    requires LogInv(e, Store(db, None), w) && r.phase.Read? && RunInv(w.store, r) && r.freshSchema
    ensures w.log == []
  {
    LedgerNames(e, db, w);
    NamesEmpty(w.log);
  }

  lemma NamesEmpty(files: seq<File>)
    ensures Names(files) == {} <==> files == []
  {
    assert files != [] ==> files[0].name in Names(files);
  }

  /** A step that commits nothing and starts no apply loop keeps the history. */
  lemma QuietStep(master: seq<File>, w: World, w': World)
    requires HistoryInv(master, w) && w'.log == w.log
    requires forall id :: id in w'.runs ==>
               if id in w.runs
               then w'.runs[id].files == w.runs[id].files && w'.runs[id].freshSchema == w.runs[id].freshSchema
                    && (w'.runs[id].phase.Applying? ==>
                          w'.runs[id].phase == w.runs[id].phase || RunHistory(master, w.log, w'.runs[id]))
               else RunHistory(master, w.log, w'.runs[id])
    ensures HistoryInv(master, w')
  {
  }

  lemma NextKeepsHistory(e: Engine, db: Db, master: seq<File>, w: World, s: Step)
    requires Master(master) && Safe(e, Store(db, None), w) && HistoryInv(master, w)
    requires s.Connect? ==> Packaged(master, s.files, s.freshSchema)
    ensures HistoryInv(master, Next(e, w, s))
  {
    if s.Advance? {
      if s.id in w.runs && w.runs[s.id].phase.Applying? {
        AdvanceKeepsHistory(e, db, master, w, s.id);
      }
    } else if s.CheckLedger? {
      if s.id in w.runs && w.runs[s.id].phase.Read? {
        CheckLedgerKeepsHistory(e, db, master, w, s.id);
      }
    } else if s.Connect? {
      QuietStep(master, w, Next(e, w, s));
    } else {
      OtherStepsAreQuiet(e, master, w, s);
    }
  }

  /** Locking, looking, finishing and dying touch one run's phase and no file list. */
  lemma OtherStepsAreQuiet(e: Engine, master: seq<File>, w: World, s: Step)
    requires HistoryInv(master, w) && !s.Connect? && !s.CheckLedger? && !s.Advance?
    ensures HistoryInv(master, Next(e, w, s))
  {
    var w' := Next(e, w, s);
    forall id | id in w'.runs
      ensures RunHistory(master, w'.log, w'.runs[id])
    {
      assert RunHistory(master, w.log, w.runs[id]);
    }
  }

  lemma CheckLedgerKeepsHistory(e: Engine, db: Db, master: seq<File>, w: World, id: nat)
    requires Safe(e, Store(db, None), w) && HistoryInv(master, w)
    requires id in w.runs && w.runs[id].phase.Read?
    ensures HistoryInv(master, Next(e, w, CheckLedger(id)))
  {
    var r := w.runs[id];
    if r.freshSchema {
      FreshFindsNothing(e, db, w, r);
    }
    assert RunHistory(master, w.log, r.(phase := Applying(r.phase.existing, 0, 0, 0)));
    QuietStep(master, w, Next(e, w, CheckLedger(id)));
  }

  lemma AdvanceKeepsHistory(e: Engine, db: Db, master: seq<File>, w: World, id: nat)
    requires Master(master) && Safe(e, Store(db, None), w) && HistoryInv(master, w)
    requires id in w.runs && w.runs[id].phase.Applying?
    ensures HistoryInv(master, AdvanceRun(e, w, id))
  {
    var r := w.runs[id];
    var p := r.phase;
    var w' := AdvanceRun(e, w, id);
    if w'.log == w.log {
      if p.next < |r.files| && r.freshSchema {
        assert p.existing == map[];
      }
      QuietStep(master, w, w');
    } else {
      CommitKeepsHistory(e, db, master, w, id);
    }
  }

  lemma CommitKeepsHistory(e: Engine, db: Db, master: seq<File>, w: World, id: nat)
    requires Master(master) && Safe(e, Store(db, None), w) && HistoryInv(master, w)
    requires id in w.runs && w.runs[id].phase.Applying? && AdvanceRun(e, w, id).log != w.log
    ensures HistoryInv(master, AdvanceRun(e, w, id))
  {
    var r := w.runs[id];
    var w' := AdvanceRun(e, w, id);
    CommitKeepsShape(e, db, master, w, r);
    assert HoldsLock(r.phase) && w.holder == Some(id);
    forall other | other in w'.runs
      ensures RunHistory(master, w'.log, w'.runs[other])
    {
      assert RunHistory(master, w.log, w.runs[other]);
      if other != id {
        assert !HoldsLock(w.runs[other].phase);
      }
    }
  }

  lemma CommitKeepsShape(e: Engine, db: Db, master: seq<File>, w: World, r: Run)
    requires Master(master) && LogInv(e, Store(db, None), w) && Numbered(w.log) <= master
    requires RunInv(w.store, r) && RunHistory(master, w.log, r)
    requires r.phase.Applying? && r.phase.next < |r.files| && r.files[r.phase.next].name !in r.phase.existing
    ensures Numbered(w.log + [r.files[r.phase.next]]) <= master
    ensures r.freshSchema ==> w.log + [r.files[r.phase.next]] == r.files[..r.phase.next + 1]
  {
    var p := r.phase;
    if r.freshSchema {
      FreshShape(master, r.files, p.next);
    } else {
      LedgerNames(e, db, w);
      NewFileIsNext(master, w.log, r.files, p.existing, p.next);
      NumberedGrows(master, w.log);
    }
  }

  lemma FreshShape(master: seq<File>, files: seq<File>, next: nat)
    requires Packaged(master, files, true) && next < |files|
    ensures files[..next] + [files[next]] == files[..next + 1]
    ensures Numbered(files[..next + 1]) <= master
  {
    assert Numbered(files[..next + 1]) == files[1..][..next];
  }

  lemma NumberedGrows(master: seq<File>, log: seq<File>)
    requires Master(master) && Numbered(log) <= master && |Numbered(log)| < |master|
    ensures Numbered(log + [master[|Numbered(log)|]]) <= master
  {
    var f := master[|Numbered(log)|];
    assert f.name in Names(master);
    assert Numbered(log + [f]) == Numbered(log) + [f];
  }

  lemma {:induction false} EveryHistoryIsSafe(e: Engine, db: Db, master: seq<File>, steps: seq<Step>)
    requires Master(master) && Packages(master, steps)
    ensures Safe(e, Store(db, None), Execute(e, Idle(Store(db, None)), steps))
    ensures HistoryInv(master, Execute(e, Idle(Store(db, None)), steps))
  {
    if steps != [] {
      var init := steps[..|steps| - 1];
      var w := Execute(e, Idle(Store(db, None)), init);
      var last := steps[|steps| - 1];
      EveryHistoryIsSafe(e, db, master, init);
      if last.Connect? {
        PackagedIsDistinct(master, last.files, last.freshSchema);
      }
      NextKeepsSafe(e, Store(db, None), w, last);
      NextKeepsHistory(e, db, master, w, last);
    }
  }

  /**
   Every reachable ledger lists a prefix of the numbered files, behind at most one schema row, and the database state is
   the fold of exactly those scripts.
   */
  lemma LedgerIsPrefix(e: Engine, db: Db, master: seq<File>, steps: seq<Step>)
    requires Master(master) && Packages(master, steps)
    ensures var w := Execute(e, Idle(Store(db, None)), steps);
            && Numbered(w.log) <= master
            && w.store.ledger == (if w.log == [] then None else Some(RowsOf(w.log)))
            && Replay(e, db, w.log) == Some(w.store.db)
  {
    EveryHistoryIsSafe(e, db, master, steps);
    LedgerNames(e, db, Execute(e, Idle(Store(db, None)), steps));
  }

  /** Nothing committed means nothing to find: a fresh run is admitted again. */
  lemma {:induction false} FreshStillAccepted(e: Engine, db: Db, master: seq<File>, steps: seq<Step>)
    requires Master(master) && Packages(master, steps) && e.vacant(db)
    ensures var w := Execute(e, Idle(Store(db, None)), steps);
            && (PassesEmptyCheck(e, w.store, true) <==> w.log == [])
            && (e.vacant(w.store.db) && w.store.ledger.None? <==> w.log == [])
  {
    LedgerIsPrefix(e, db, master, steps);
  }

  // ---------------------------------------------------------------- one undisturbed run

  lemma PrefixReplays(e: Engine, db: Db, files: seq<File>, i: nat)
    requires i <= |files| && Replay(e, db, files).Some?
    ensures Replay(e, db, files[..i]).Some?
    decreases |files|
  {
    if i < |files| {
      var init := files[..|files| - 1];
      PrefixReplays(e, db, init, i);
      assert init[..i] == files[..i];
    } else {
      assert files[..i] == files;
    }
  }

  lemma {:induction false} ApplyFromReplays(e: Engine, db: Db, files: seq<File>, i: nat)
    requires i <= |files| && DistinctNames(files) && Replay(e, db, files).Some?
    requires Replay(e, db, files[..i]).Some?
    ensures var s := Store(Replay(e, db, files[..i]).value, if i == 0 then None else Some(RowsOf(files[..i])));
            ApplyFrom(e, s, files, map[], i, i, 0) ==
            (Success(|files|, 0),
             Store(Replay(e, db, files).value, if files == [] then None else Some(RowsOf(files))))
    decreases |files| - i
  {
    if i == |files| {
      assert files[..i] == files;
    } else {
      ReplayStep(e, db, files, i);
      RowsOfKeys(files[..i]);
      assert files[i].name !in Names(files[..i]);
      assert i == 0 ==> RowsOf(files[..i]) == map[];
      ApplyFromReplays(e, db, files, i + 1);
    }
  }

  /** On an empty database one undisturbed run applies everything whenever the scripts run in order. */
  lemma ApplyOnEmpty(e: Engine, db: Db, files: seq<File>, freshSchema: bool)
    requires e.vacant(db) && DistinctNames(files) && Replay(e, db, files).Some?
    ensures Apply(e, Store(db, None), files, freshSchema) ==
            (Success(|files|, 0),
             Store(Replay(e, db, files).value, if files == [] then None else Some(RowsOf(files))))
  {
    assert files[..0] == [];
    ApplyFromReplays(e, db, files, 0);
  }

  lemma SchemaRowIsFirst(master: seq<File>, log: seq<File>)
    requires Master(master) && Numbered(log) <= master
    ensures log == SchemaPart(log) + Numbered(log)
    ensures SCHEMA in Names(log) <==> SchemaPart(log) != []
  {
    if SchemaPart(log) == [] {
      forall j | 0 <= j < |log|
        ensures log[j].name in Names(master)
      {
        assert log[j] == master[j];
      }
    }
  }

  /**
   When any run is about to report success, after any history of crashed, rejected, interrupted and finished runs, the
   store is what one uninterrupted run over an empty database leaves: a fresh one with the schema snapshot that was
   committed first, or a plain one when no fresh run ever committed.
   */
  lemma ResumeEqualsOneRun(e: Engine, db: Db, master: seq<File>, steps: seq<Step>, id: nat)
    requires Master(master) && Packages(master, steps) && e.vacant(db)
    requires var w := Execute(e, Idle(Store(db, None)), steps);
             id in w.runs && w.runs[id].phase.Applying? && w.runs[id].phase.next == |w.runs[id].files|
    ensures var w := Execute(e, Idle(Store(db, None)), steps);
            var r := w.runs[id];
            && w.log == SchemaPart(w.log) + Numbered(r.files)
            && (r.freshSchema ==> w.log == r.files)
            && (SCHEMA in Rows(w.store.ledger) <==> SchemaPart(w.log) != [])
            && Apply(e, Store(db, None), w.log, SchemaPart(w.log) != []) == (Success(|w.log|, 0), w.store)
  {
    var w := Execute(e, Idle(Store(db, None)), steps);
    EveryHistoryIsSafe(e, db, master, steps);
    FinishedLog(e, db, master, w, id);
    LogReplaysAlone(e, db, master, w);
  }

  /** The log that a run at the end of its files has in front of it. */
  lemma FinishedLog(e: Engine, db: Db, master: seq<File>, w: World, id: nat)
    requires Master(master) && LogInv(e, Store(db, None), w) && HistoryInv(master, w)
    requires id in w.runs && RunInv(w.store, w.runs[id])
    requires w.runs[id].phase.Applying? && w.runs[id].phase.next == |w.runs[id].files|
    ensures var r := w.runs[id];
            w.log == SchemaPart(w.log) + Numbered(r.files) && (r.freshSchema ==> w.log == r.files)
  {
    var r := w.runs[id];
    SchemaRowIsFirst(master, w.log);
    assert RunHistory(master, w.log, r);
    assert r.files[..|r.files|] == r.files;
    if !r.freshSchema {
      LedgerNames(e, db, w);
      AllPassedIsAll(master, w.log, r.files, r.phase.existing);
      PlainListHasNoSchema(master, r.files);
    }
  }

  /** One undisturbed run over the logged files, on a database that is empty, ends in the present store. */
  lemma LogReplaysAlone(e: Engine, db: Db, master: seq<File>, w: World)
    requires Master(master) && LogInv(e, Store(db, None), w) && Numbered(w.log) <= master && e.vacant(db)
    ensures SCHEMA in Rows(w.store.ledger) <==> SchemaPart(w.log) != []
    ensures Apply(e, Store(db, None), w.log, SchemaPart(w.log) != []) == (Success(|w.log|, 0), w.store)
  {
    LedgerNames(e, db, w);
    SchemaRowIsFirst(master, w.log);
    ApplyOnEmpty(e, db, w.log, SchemaPart(w.log) != []);
  }

  lemma PlainListHasNoSchema(master: seq<File>, files: seq<File>)
    requires Master(master) && files <= master
    ensures Numbered(files) == files
  {
    if files != [] {
      assert master[0].name in Names(master);
    }
  }

  /**
   Distinct names are exactly what keeps a fresh run free of insert conflicts: when every script runs in order, the run
   fails on a ledger insert if and only if two files share a name.
   */
  lemma ConflictIffDuplicate(e: Engine, db: Db, files: seq<File>)
    requires e.vacant(db) && Replay(e, db, files).Some?
    ensures (exists name :: Apply(e, Store(db, None), files, true).0 == Stopped(InsertConflict(name)))
       <==> !DistinctNames(files)
  {
    if DistinctNames(files) {
      ApplyOnEmpty(e, db, files, true);
    } else {
      assert files[..0] == [];
      DuplicateConflicts(e, db, files, 0);
    }
  }

  lemma {:induction false} DuplicateConflicts(e: Engine, db: Db, files: seq<File>, i: nat)
    requires i <= |files| && Replay(e, db, files).Some? && Replay(e, db, files[..i]).Some?
    requires !DistinctNames(files) && DistinctNames(files[..i])
    ensures var s := Store(Replay(e, db, files[..i]).value, if i == 0 then None else Some(RowsOf(files[..i])));
            exists name :: ApplyFrom(e, s, files, map[], i, i, 0).0 == Stopped(InsertConflict(name))
    decreases |files| - i
  {
    assert files[..|files|] == files;
    if i < |files| {
      RowsOfKeys(files[..i]);
      var s := Store(Replay(e, db, files[..i]).value, if i == 0 then None else Some(RowsOf(files[..i])));
      assert Rows(s.ledger) == RowsOf(files[..i]) by {
        assert i == 0 ==> RowsOf(files[..i]) == map[];
      }
      ReplayStep(e, db, files, i);
      if files[i].name !in Names(files[..i]) {
        assert files[..i + 1] == files[..i] + [files[i]];
        DistinctGrows(files[..i], files[i]);
        DuplicateConflicts(e, db, files, i + 1);
      }
    }
  }

  lemma ReplayStep(e: Engine, db: Db, files: seq<File>, i: nat)
    requires i < |files| && Replay(e, db, files).Some?
    ensures Replay(e, db, files[..i]).Some? && Replay(e, db, files[..i + 1]).Some?
    ensures e.exec(files[i].sql, Replay(e, db, files[..i]).value) == Replay(e, db, files[..i + 1])
    ensures RowsOf(files[..i + 1]) == RowsOf(files[..i])[files[i].name := files[i].digest]
  {
    PrefixReplays(e, db, files, i);
    PrefixReplays(e, db, files, i + 1);
    assert files[..i + 1][..i] == files[..i];
  }

  // ---------------------------------------------------------------- the step machine against the runner's own loops

  function Loop(id: nat, n: nat): seq<Step> {
    if n == 0 then [] else Loop(id, n - 1) + [Advance(id)]
  }

  /** All steps of one run, with nobody in between. */
  function Alone(id: nat, files: seq<File>, freshSchema: bool): seq<Step> {
    [Connect(id, files, freshSchema), TryLock(id), CheckEmpty(id), ReadLedger(id), CheckLedger(id)]
    + Loop(id, |files|) + [Finish(id)]
  }

  lemma {:induction false} ExecuteConcat(e: Engine, w: World, a: seq<Step>, b: seq<Step>)
    ensures Execute(e, w, a + b) == Execute(e, Execute(e, w, a), b)
  {
    if b == [] {
      assert a + b == a;
    } else {
      ExecuteConcat(e, w, a, b[..|b| - 1]);
      assert (a + b)[..|a + b| - 1] == a + b[..|b| - 1];
    }
  }

  lemma {:induction false} LoopFromHere(e: Engine, w: World, id: nat, n: nat)
    requires n > 0
    ensures Execute(e, w, Loop(id, n)) == Execute(e, Next(e, w, Advance(id)), Loop(id, n - 1))
  {
    assert Loop(id, n)[..|Loop(id, n)| - 1] == Loop(id, n - 1);
    if n > 1 {
      LoopFromHere(e, w, id, n - 1);
      assert Loop(id, n - 1)[..|Loop(id, n - 1)| - 1] == Loop(id, n - 2);
    } else {
      assert Loop(id, 1) == [Advance(id)];
      assert [Advance(id)][..0] == [];
    }
  }

  lemma {:induction false} EndedStays(e: Engine, w: World, id: nat, n: nat)
    requires id in w.runs && w.runs[id].phase.Ended?
    ensures Execute(e, w, Loop(id, n)) == w
  {
    if n > 0 {
      EndedStays(e, w, id, n - 1);
      assert Loop(id, n)[..|Loop(id, n)| - 1] == Loop(id, n - 1);
    }
  }

  lemma {:induction false} LoopIsApplyFrom(e: Engine, w: World, id: nat, n: nat)
    requires id in w.runs && w.runs[id].phase.Applying? && w.holder == Some(id)
    requires w.runs[id].phase.next <= |w.runs[id].files| && n == |w.runs[id].files| - w.runs[id].phase.next
    ensures var r := w.runs[id];
            var w' := Next(e, Execute(e, w, Loop(id, n)), Finish(id));
            && id in w'.runs && w'.runs[id].phase.Ended? && w'.holder == None
            && (w'.runs[id].phase.outcome, w'.store) ==
               ApplyFrom(e, w.store, r.files, r.phase.existing, r.phase.next, r.phase.applied, r.phase.skipped)
    decreases n
  {
    hide ApplyFrom, AdvanceRun;
    if n == 0 {
      LoopDone(e, w, id);
    } else {
      LoopFromHere(e, w, id, n);
      OneTurn(e, w, id);
      var w1 := Next(e, w, Advance(id));
      if w1.runs[id].phase.Applying? {
        LoopIsApplyFrom(e, w1, id, n - 1);
      } else {
        EndedStays(e, w1, id, n - 1);
      }
    }
  }

  lemma LoopDone(e: Engine, w: World, id: nat)
    requires id in w.runs && w.runs[id].phase.Applying? && w.holder == Some(id)
    requires w.runs[id].phase.next == |w.runs[id].files|
    ensures var r := w.runs[id];
            var w' := Next(e, w, Finish(id));
            && id in w'.runs && w'.runs[id].phase.Ended? && w'.holder == None
            && (w'.runs[id].phase.outcome, w'.store) ==
               ApplyFrom(e, w.store, r.files, r.phase.existing, r.phase.next, r.phase.applied, r.phase.skipped)
  {
  }

  /** One step of the run is one turn of the apply loop. */
  lemma OneTurn(e: Engine, w: World, id: nat)
    requires id in w.runs && w.runs[id].phase.Applying? && w.holder == Some(id)
    requires w.runs[id].phase.next < |w.runs[id].files|
    ensures var r := w.runs[id];
            var w1 := Next(e, w, Advance(id));
            var turn := ApplyFrom(e, w.store, r.files, r.phase.existing, r.phase.next, r.phase.applied,
                                  r.phase.skipped);
            && id in w1.runs
            && if w1.runs[id].phase.Applying?
               then var p := w1.runs[id].phase;
                    && w1.holder == Some(id) && w1.runs[id].files == r.files && p.next == r.phase.next + 1
                    && turn == ApplyFrom(e, w1.store, r.files, p.existing, p.next, p.applied, p.skipped)
               else w1.holder == None && w1.runs[id].phase.Ended? && turn == (w1.runs[id].phase.outcome, w1.store)
  {
  }

  /** A run that nobody interleaves with does what the runner's sequential loops do, and frees the lock. */
  lemma AloneIsApply(e: Engine, w: World, id: nat, files: seq<File>, freshSchema: bool)
    requires w.holder.None? && id !in w.runs
    ensures var w' := Execute(e, w, Alone(id, files, freshSchema));
            && id in w'.runs && w'.runs[id].phase.Ended? && w'.holder == None
            && (w'.runs[id].phase.outcome, w'.store) == Apply(e, w.store, files, freshSchema)
  {
    var head := [Connect(id, files, freshSchema), TryLock(id), CheckEmpty(id), ReadLedger(id), CheckLedger(id)];
    var loop := Loop(id, |files|);
    ExecuteConcat(e, w, head + loop, [Finish(id)]);
    ExecuteConcat(e, w, head, loop);
    var w5 := Execute(e, w, head);
    HeadOfAlone(e, w, id, files, freshSchema);
    var w6 := Execute(e, w5, loop);
    assert [Finish(id)][..0] == [];
    assert Execute(e, w6, [Finish(id)]) == Next(e, w6, Finish(id));
    if w5.runs[id].phase.Applying? {
      LoopIsApplyFrom(e, w5, id, |files|);
    } else {
      EndedStays(e, w5, id, |files|);
    }
  }

  lemma HeadOfAlone(e: Engine, w: World, id: nat, files: seq<File>, freshSchema: bool)
    requires w.holder.None? && id !in w.runs
    ensures var head := [Connect(id, files, freshSchema), TryLock(id), CheckEmpty(id), ReadLedger(id), CheckLedger(id)];
            var w5 := Execute(e, w, head);
            && id in w5.runs && w5.runs[id].files == files && w5.store == w.store
            && if !PassesEmptyCheck(e, w.store, freshSchema)
               then w5.runs[id].phase == Ended(Stopped(NotEmpty)) && w5.holder == None
               else if Validate(Rows(w.store.ledger), files).Some?
               then && w5.runs[id].phase == Ended(Stopped(Validate(Rows(w.store.ledger), files).value))
                    && w5.holder == None
               else w5.runs[id].phase == Applying(Rows(w.store.ledger), 0, 0, 0) && w5.holder == Some(id)
  {
    var c, t, k, r, v := Connect(id, files, freshSchema), TryLock(id), CheckEmpty(id), ReadLedger(id), CheckLedger(id);
    assert [c][..0] == [] && [c, t][..1] == [c] && [c, t, k][..2] == [c, t];
    assert [c, t, k, r][..3] == [c, t, k] && [c, t, k, r, v][..4] == [c, t, k, r];
    var w1 := Next(e, w, c);
    var w2 := Next(e, w1, t);
    var w3 := Next(e, w2, k);
    var w4 := Next(e, w3, r);
    assert Execute(e, w, [c]) == w1;
    assert Execute(e, w, [c, t]) == w2;
    assert Execute(e, w, [c, t, k]) == w3;
    assert Execute(e, w, [c, t, k, r]) == w4;
    assert Execute(e, w, [c, t, k, r, v]) == Next(e, w4, v);
  }
}

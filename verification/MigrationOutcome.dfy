/**
 What one run does, without the runner's own helpers: when it refuses, why, and how far it gets; and what the single
 steps of the step machine do to the lock.
 */
module MigrationOutcome {
  import opened Options
  import opened MigrationStore
  import opened MigrationRuns
  import opened MigrationHistory

  // ---------------------------------------------------------------- refusals

  /** The apply loop itself neither refuses nor rejects. */
  lemma {:induction false} LoopNeverRejects(e: Engine, s: Store, files: seq<File>, existing: Ledger, i: nat,
                                            applied: nat, skipped: nat)
    requires i <= |files|
    ensures !Rejected(Ended(ApplyFrom(e, s, files, existing, i, applied, skipped).0))
    decreases |files| - i
  {
    if i < |files| {
      if files[i].name in existing {
        LoopNeverRejects(e, s, files, existing, i + 1, applied, skipped + 1);
      } else if CommitOne(e, s, files[i]).Ok? {
        LoopNeverRejects(e, CommitOne(e, s, files[i]).value, files, existing, i + 1, applied + 1, skipped);
      }
    }
  }

  /** A fresh run refuses exactly a database that holds any object or a ledger, and then changes nothing. */
  lemma NotEmptyIff(e: Engine, s: Store, files: seq<File>, freshSchema: bool)
    ensures freshSchema && (!e.vacant(s.db) || s.ledger.Some?) <==>
            Apply(e, s, files, freshSchema) == (Stopped(NotEmpty), s)
    ensures freshSchema && (!e.vacant(s.db) || s.ledger.Some?) <==>
            Apply(e, s, files, freshSchema).0 == Stopped(NotEmpty)
  {
    LoopNeverRejects(e, s, files, Rows(s.ledger), 0, 0, 0);
  }

  /** The ledger names a migration that the package lacks, other than the schema. */
  ghost predicate Foreign(s: Store, files: seq<File>, name: string) {
    && s.ledger.Some? && name in s.ledger.value && name != "000_db_schema.sql"
    && forall i :: 0 <= i < |files| ==> files[i].name != name
  }

  /** File i is recorded with a checksum that is not its own. */
  predicate Tampered(s: Store, files: seq<File>, i: nat)
    requires i < |files|
  {
    s.ledger.Some? && files[i].name in s.ledger.value && s.ledger.value[files[i].name] != files[i].digest
  }

  /** A run that is not turned away as not empty rejects exactly a foreign ledger row, and then changes nothing. */
  lemma UnknownEntriesIff(e: Engine, s: Store, files: seq<File>, freshSchema: bool)
    requires !(freshSchema && (!e.vacant(s.db) || s.ledger.Some?))
    ensures (exists name :: Foreign(s, files, name)) <==> Apply(e, s, files, freshSchema).0 == Stopped(UnknownEntries)
    ensures (exists name :: Foreign(s, files, name)) ==> Apply(e, s, files, freshSchema).1 == s
  {
    hide ApplyFrom, FirstMismatch;
    LoopNeverRejects(e, s, files, Rows(s.ledger), 0, 0, 0);
    forall name
      ensures Foreign(s, files, name) <==> name in Rows(s.ledger) && name !in Names(files) + {SCHEMA}
    {
    }
  }

  /** Otherwise it rejects exactly a tampered file, names the first one, and changes nothing. */
  lemma HashMismatchIff(e: Engine, s: Store, files: seq<File>, freshSchema: bool, i: nat)
    requires !(freshSchema && (!e.vacant(s.db) || s.ledger.Some?)) && forall name :: !Foreign(s, files, name)
    requires i < |files| && Tampered(s, files, i) && forall j :: 0 <= j < i ==> !Tampered(s, files, j)
    ensures Apply(e, s, files, freshSchema) == (Stopped(HashMismatch(files[i].name)), s)
  {
    hide ApplyFrom;
    UnknownEntriesIff(e, s, files, freshSchema);
    TamperedDiffers(s, files);
    FirstIsReported(Rows(s.ledger), files, i);
    NoForeign(s, files);
  }

  lemma NoForeign(s: Store, files: seq<File>)
    requires forall name :: !Foreign(s, files, name)
    ensures Rows(s.ledger).Keys <= Names(files) + {SCHEMA}
  {
    forall name | name in Rows(s.ledger)
      ensures name in Names(files) + {SCHEMA}
    {
      assert !Foreign(s, files, name);
    }
  }

  lemma TamperedDiffers(s: Store, files: seq<File>)
    ensures forall i :: 0 <= i < |files| ==> (Differs(Rows(s.ledger), files[i]) <==> Tampered(s, files, i))
  {
  }

  lemma FirstIsReported(existing: Ledger, files: seq<File>, i: nat)
    requires FirstDiffers(existing, files, i)
    ensures FirstMismatch(existing, files) == Some(files[i].name)
  {
    var r := FirstMismatch(existing, files);
    var k: nat :| FirstDiffers(existing, files, k) && files[k].name == r.value;
    assert k == i;
  }

  // ---------------------------------------------------------------- the apply loop

  /** The files that the ledger does not record, in order. */
  function Pending(existing: Ledger, files: seq<File>): seq<File> {
    if files == [] then []
    else (if files[0].name in existing then [] else [files[0]]) + Pending(existing, files[1..])
  }

  lemma {:induction false} PendingMembers(existing: Ledger, files: seq<File>)
    ensures forall f :: f in Pending(existing, files) <==> f in files && f.name !in existing
    ensures DistinctNames(files) ==> DistinctNames(Pending(existing, files))
    ensures |Pending(existing, files)| <= |files|
  {
    if files != [] {
      assert files == [files[0]] + files[1..];
      PendingMembers(existing, files[1..]);
      var rest := Pending(existing, files[1..]);
      if DistinctNames(files) {
        forall i | 0 <= i < |rest|
          ensures rest[i].name != files[0].name
        {
          assert rest[i] in files[1..];
        }
      }
    }
  }

  /** The store after some files were committed one after the other. */
  ghost predicate CommittedTo(e: Engine, s: Store, done: seq<File>, s': Store) {
    && Replay(e, s.db, done) == Some(s'.db)
    && s'.ledger == if done == [] then s.ledger else Some(Rows(s.ledger) + RowsOf(done))
  }

  lemma {:induction false} ReplayFrom(e: Engine, db: Db, f: File, rest: seq<File>)
    ensures Replay(e, db, [f] + rest) == (match e.exec(f.sql, db)
                                          case None => None
                                          case Some(next) => Replay(e, next, rest))
  {
    var all := [f] + rest;
    if rest == [] {
      assert all[..0] == [] && all == [f];
    } else {
      ReplayFrom(e, db, f, rest[..|rest| - 1]);
      assert all[..|all| - 1] == [f] + rest[..|rest| - 1];
    }
  }

  lemma {:induction false} RowsFrom(f: File, rest: seq<File>)
    requires f.name !in Names(rest)
    ensures RowsOf([f] + rest) == RowsOf(rest)[f.name := f.digest]
  {
    var all := [f] + rest;
    if rest == [] {
      assert all[..0] == [] && all == [f];
    } else {
      var init, last := rest[..|rest| - 1], rest[|rest| - 1];
      assert last.name in Names(rest);
      assert Names(init) <= Names(rest) by {
        assert forall i :: 0 <= i < |init| ==> init[i] == rest[i];
      }
      RowsFrom(f, init);
      assert all[..|all| - 1] == [f] + init;
    }
  }

  lemma OneMoreInFront(e: Engine, s: Store, f: File, s1: Store, done: seq<File>, s': Store)
    requires CommitOne(e, s, f) == Ok(s1) && CommittedTo(e, s1, done, s') && f.name !in Names(done)
    ensures CommittedTo(e, s, [f] + done, s')
  {
    ReplayFrom(e, s.db, f, done);
    RowsFrom(f, done);
    RowsOfKeys(done);
    RowsMove(Rows(s.ledger), f, RowsOf(done));
    assert RowsOf([]) == map[];
    assert Rows(s1.ledger) + map[] == Rows(s1.ledger);
  }

  lemma RowsMove(rows: Ledger, f: File, more: Ledger)
    requires f.name !in more
    ensures rows[f.name := f.digest] + more == rows + more[f.name := f.digest]
  {
  }

  /** Where the loop ends: everything pending is committed, or the first script that fails stops it just before. */
  ghost predicate EndsAt(e: Engine, s: Store, todo: seq<File>, k: nat, s': Store) {
    && k <= |todo| && CommittedTo(e, s, todo[..k], s')
    && (k < |todo| ==> e.exec(todo[k].sql, s'.db).None?)
  }

  /** The loop from file i on ends behind k of the pending files and reports that. */
  ghost predicate LoopIs(e: Engine, s: Store, files: seq<File>, existing: Ledger, i: nat, applied: nat, skipped: nat,
                         k: nat)
    requires i <= |files|
  {
    var todo := Pending(existing, files[i..]);
    var (outcome, s') := ApplyFrom(e, s, files, existing, i, applied, skipped);
    && EndsAt(e, s, todo, k, s')
    && |todo| <= |files| - i
    && outcome == if k == |todo| then Success(applied + |todo|, skipped + (|files| - i - |todo|))
                  else Stopped(SqlFailed(todo[k].name))
  }

  lemma LoopDoneIs(e: Engine, s: Store, files: seq<File>, existing: Ledger, applied: nat, skipped: nat)
    ensures LoopIs(e, s, files, existing, |files|, applied, skipped, 0)
  {
    assert files[|files|..] == [];
  }

  lemma PendingStep(existing: Ledger, files: seq<File>, i: nat)
    requires i < |files|
    ensures Pending(existing, files[i..]) ==
            (if files[i].name in existing then [] else [files[i]]) + Pending(existing, files[i + 1..])
  {
    assert files[i..][0] == files[i] && files[i..][1..] == files[i + 1..];
  }

  lemma SkipIs(e: Engine, s: Store, files: seq<File>, existing: Ledger, i: nat, applied: nat, skipped: nat, k: nat)
    requires i < |files| && files[i].name in existing
    requires LoopIs(e, s, files, existing, i + 1, applied, skipped + 1, k)
    ensures LoopIs(e, s, files, existing, i, applied, skipped, k)
  {
    hide Pending, EndsAt;
    PendingStep(existing, files, i);
    assert [] + Pending(existing, files[i + 1..]) == Pending(existing, files[i + 1..]);
  }

  lemma FailIs(e: Engine, s: Store, files: seq<File>, existing: Ledger, i: nat, applied: nat, skipped: nat)
    requires i < |files| && files[i].name !in existing && e.exec(files[i].sql, s.db).None?
    ensures LoopIs(e, s, files, existing, i, applied, skipped, 0)
  {
    hide Pending;
    PendingStep(existing, files, i);
    PendingMembers(existing, files[i + 1..]);
    var todo := Pending(existing, files[i..]);
    assert todo[0] == files[i] && todo[..0] == [];
  }

  lemma CommitIs(e: Engine, s: Store, files: seq<File>, existing: Ledger, i: nat, applied: nat, skipped: nat,
                 s1: Store, m: nat)
    requires i < |files| && files[i].name !in existing && CommitOne(e, s, files[i]) == Ok(s1)
    requires DistinctNames(files[i..])
    requires LoopIs(e, s1, files, existing, i + 1, applied + 1, skipped, m)
    ensures LoopIs(e, s, files, existing, i, applied, skipped, m + 1)
  {
    hide Pending, CommittedTo, CommitOne;
    var f, rest := files[i], Pending(existing, files[i + 1..]);
    var s' := ApplyFrom(e, s1, files, existing, i + 1, applied + 1, skipped).1;
    PendingStep(existing, files, i);
    assert files[i..] == [f] + files[i + 1..];
    NotAmong(f, rest, m, files[i + 1..], existing);
    OneMoreInFront(e, s, f, s1, rest[..m], s');
    assert ([f] + rest)[..m + 1] == [f] + rest[..m];
    assert m < |rest| ==> ([f] + rest)[m + 1] == rest[m];
  }

  lemma {:induction false} LoopMeaning(e: Engine, s: Store, files: seq<File>, existing: Ledger, i: nat, applied: nat,
                                       skipped: nat)
    returns (k: nat)
    requires i <= |files| && DistinctNames(files[i..])
    requires forall f :: f in Pending(existing, files[i..]) ==> f.name !in Rows(s.ledger)
    ensures LoopIs(e, s, files, existing, i, applied, skipped, k)
    decreases |files| - i
  {
    hide LoopIs, Pending;
    if i == |files| {
      k := 0;
      LoopDoneIs(e, s, files, existing, applied, skipped);
    } else {
      PendingStep(existing, files, i);
      TailIsDistinct(files, i);
      if files[i].name in existing {
        assert [] + Pending(existing, files[i + 1..]) == Pending(existing, files[i + 1..]);
        k := LoopMeaning(e, s, files, existing, i + 1, applied, skipped + 1);
        SkipIs(e, s, files, existing, i, applied, skipped, k);
      } else if e.exec(files[i].sql, s.db).None? {
        k := 0;
        FailIs(e, s, files, existing, i, applied, skipped);
      } else {
        assert files[i] in Pending(existing, files[i..]);
        var s1 := CommitOne(e, s, files[i]).value;
        PendingIsNew(existing, files, i, s, s1);
        var m := LoopMeaning(e, s1, files, existing, i + 1, applied + 1, skipped);
        CommitIs(e, s, files, existing, i, applied, skipped, s1, m);
        k := m + 1;
      }
    }
  }

  lemma TailIsDistinct(files: seq<File>, i: nat)
    requires i < |files| && DistinctNames(files[i..])
    ensures DistinctNames(files[i + 1..])
  {
    var all, rest := files[i..], files[i + 1..];
    forall m, n | 0 <= m < n < |rest|
      ensures rest[m].name != rest[n].name
    {
      assert rest[m] == all[m + 1] && rest[n] == all[n + 1];
    }
  }

  lemma PendingIsNew(existing: Ledger, files: seq<File>, i: nat, s: Store, s1: Store)
    requires i < |files| && DistinctNames(files[i..]) && files[i].name !in existing
    requires forall f :: f in Pending(existing, files[i..]) ==> f.name !in Rows(s.ledger)
    requires Rows(s1.ledger) == Rows(s.ledger)[files[i].name := files[i].digest]
    ensures DistinctNames(files[i + 1..])
    ensures forall f :: f in Pending(existing, files[i + 1..]) ==> f.name !in Rows(s1.ledger)
  {
    var tail, rest := files[i..], files[i + 1..];
    assert tail[0] == files[i] && tail[1..] == rest;
    assert forall n :: 0 <= n < |rest| ==> tail[n + 1] == rest[n];
    PendingMembers(existing, rest);
    forall f | f in Pending(existing, rest)
      ensures f.name !in Rows(s1.ledger)
    {
      assert f in Pending(existing, tail);
      var n :| 0 <= n < |rest| && rest[n] == f;
      assert tail[0].name != tail[n + 1].name;
    }
  }

  lemma NotAmong(f: File, todo: seq<File>, m: nat, files: seq<File>, existing: Ledger)
    requires DistinctNames([f] + files) && todo == Pending(existing, files) && m <= |todo|
    ensures f.name !in Names(todo[..m])
  {
    PendingMembers(existing, files);
    forall n | 0 <= n < m
      ensures todo[..m][n].name != f.name
    {
      assert todo[n] in files;
      var j :| 0 <= j < |files| && files[j] == todo[n];
      assert ([f] + files)[0].name != ([f] + files)[j + 1].name;
    }
  }

  /** The ledger and the package agree: no foreign row and no tampered file. */
  ghost predicate Agrees(s: Store, files: seq<File>) {
    (forall name :: !Foreign(s, files, name)) && forall i :: 0 <= i < |files| ==> !Tampered(s, files, i)
  }

  /**
   A run that nothing rejects commits exactly the files that the ledger lacks, in order, up to the first whose script
   fails; the rest of the database and of the ledger stays, and success counts what it did.
   */
  lemma AdmittedRunMeaning(e: Engine, s: Store, files: seq<File>, freshSchema: bool) returns (k: nat)
    requires DistinctNames(files) && Agrees(s, files)
    requires freshSchema ==> e.vacant(s.db) && s.ledger.None?
    ensures var todo := Pending(Rows(s.ledger), files);
            var (outcome, s') := Apply(e, s, files, freshSchema);
            && EndsAt(e, s, todo, k, s')
            && |todo| <= |files|
            && outcome == if k == |todo| then Success(|todo|, |files| - |todo|) else Stopped(SqlFailed(todo[k].name))
  {
    hide ApplyFrom, FirstMismatch, Pending;
    assert files[0..] == files;
    PendingMembers(Rows(s.ledger), files);
    NoForeign(s, files);
    NoneTampered(s, files);
    k := LoopMeaning(e, s, files, Rows(s.ledger), 0, 0, 0);
  }

  lemma NoneTampered(s: Store, files: seq<File>)
    requires forall i :: 0 <= i < |files| ==> !Tampered(s, files, i)
    ensures FirstMismatch(Rows(s.ledger), files).None?
  {
    TamperedDiffers(s, files);
  }

  // ---------------------------------------------------------------- single steps

  /** A run that asks for the lock gets it exactly when nobody has it; otherwise it ends, and the holder keeps it. */
  lemma LockIsGivenOnce(e: Engine, w: World, id: nat)
    requires id in w.runs && w.runs[id].phase.Connected? && w.holder != Some(id)
    ensures var w' := Next(e, w, TryLock(id));
            && id in w'.runs && w'.store == w.store && w'.log == w.log
            && if w.holder.None? then w'.runs[id].phase == Locked && w'.holder == Some(id)
               else w'.runs[id].phase == Ended(Stopped(LockHeld)) && w'.holder == w.holder
  {
  }

  /** A fresh run goes on from the emptiness check exactly on a vacant database without ledger. */
  lemma EmptinessIsChecked(e: Engine, w: World, id: nat)
    requires id in w.runs && w.runs[id].phase.Locked?
    ensures var w' := Next(e, w, CheckEmpty(id));
            && id in w'.runs && w'.store == w.store && w'.log == w.log
            && (w'.runs[id].phase.Admitted? <==>
                  w.runs[id].freshSchema ==> e.vacant(w.store.db) && w.store.ledger.None?)
            && (!w'.runs[id].phase.Admitted? ==>
                  w'.runs[id].phase == Ended(Stopped(NotEmpty)) && w'.holder != Some(id))
  {
  }

  /** Death is possible in every phase before the end; it gives the lock back and leaves what was committed. */
  lemma DeathFreesTheLock(e: Engine, w: World, id: nat)
    requires id in w.runs && !w.runs[id].phase.Ended?
    ensures var w' := Next(e, w, Die(id));
            && id in w'.runs && w'.runs[id].phase == Dead && w'.holder != Some(id)
            && (w.holder != Some(id) ==> w'.holder == w.holder)
            && w'.store == w.store && w'.log == w.log
            && forall other :: other in w.runs && other != id ==> other in w'.runs && w'.runs[other] == w.runs[other]
  {
  }

  /** So after the death of the holder the next run is admitted to the lock. */
  lemma LockIsInherited(e: Engine, w: World, dead: nat, next: nat)
    requires LockInv(w) && dead in w.runs && HoldsLock(w.runs[dead].phase)
    requires next in w.runs && w.runs[next].phase.Connected?
    ensures var w' := Next(e, Next(e, w, Die(dead)), TryLock(next));
            next in w'.runs && w'.runs[next].phase == Locked && w'.holder == Some(next)
  {
    DeathFreesTheLock(e, w, dead);
  }
}

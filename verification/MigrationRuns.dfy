/**
 Any number of migration runs against one database, interleaved step by step. A run may die at every step, also right
 after a commit whose success it never reports; the disconnect then gives the session lock back.
 */
module MigrationRuns {
  import opened Options
  import opened MigrationStore

  datatype Phase =
    | Connected
    | Locked
    | Admitted                       // the emptiness check passed or was not asked for
    | Read(existing: Ledger)         // the ledger snapshot is taken, never to be refreshed
    | Applying(existing: Ledger, next: nat, applied: nat, skipped: nat)
    | Ended(outcome: Outcome)
    | Dead

  datatype Run = Run(files: seq<File>, freshSchema: bool, phase: Phase)

  /** log is the list of all files committed so far, oldest first. */
  datatype World = World(store: Store, log: seq<File>, holder: Option<nat>, runs: map<nat, Run>)

  datatype Step =
    | Connect(id: nat, files: seq<File>, freshSchema: bool)
    | TryLock(id: nat)
    | CheckEmpty(id: nat)
    | ReadLedger(id: nat)
    | CheckLedger(id: nat)
    | Advance(id: nat)
    | Finish(id: nat)
    | Die(id: nat)

  predicate HoldsLock(p: Phase) {
    p.Locked? || p.Admitted? || p.Read? || p.Applying?
  }

  function Move(w: World, id: nat, p: Phase): World
    requires id in w.runs
  {
    w.(runs := w.runs[id := w.runs[id].(phase := p)])
  }

  /** A run that leaves the connection block: its session ends and PostgreSQL releases the lock. */
  function Leave(w: World, id: nat, p: Phase): World
    requires id in w.runs
  {
    Move(w, id, p).(holder := if w.holder == Some(id) then None else w.holder)
  }

  /** The next file has its row already. */
  function Passed(p: Phase): Phase
    requires p.Applying?
  {
    p.(next := p.next + 1, skipped := p.skipped + 1)
  }

  /** The next file and its row are in the database. */
  function Committed(p: Phase): Phase
    requires p.Applying?
  {
    p.(next := p.next + 1, applied := p.applied + 1)
  }

  function AdvanceRun(e: Engine, w: World, id: nat): World
    requires id in w.runs && w.runs[id].phase.Applying?
  {
    var r := w.runs[id];
    var p := r.phase;
    if p.next >= |r.files| then w
    else if r.files[p.next].name in p.existing then Move(w, id, Passed(p))
    else match CommitOne(e, w.store, r.files[p.next])
      case Err(reason) => Leave(w, id, Ended(Stopped(reason)))
      case Ok(store) =>
        Move(w, id, Committed(p)).(store := store, log := w.log + [r.files[p.next]])
  }

  /** One step of one run; a step that is not enabled changes nothing. */
  function Next(e: Engine, w: World, s: Step): World {
    if s.Connect? then
      if s.id in w.runs then w else w.(runs := w.runs[s.id := Run(s.files, s.freshSchema, Connected)])
    else if s.id !in w.runs then w
    else
      var r := w.runs[s.id];
      match s
      case TryLock(id) =>
        if !r.phase.Connected? then w
        else if w.holder.None? then Move(w, id, Locked).(holder := Some(id))
        else Leave(w, id, Ended(Stopped(LockHeld)))
      case CheckEmpty(id) =>
        if !r.phase.Locked? then w
        else if PassesEmptyCheck(e, w.store, r.freshSchema) then Move(w, id, Admitted)
        else Leave(w, id, Ended(Stopped(NotEmpty)))
      case ReadLedger(id) =>
        if !r.phase.Admitted? then w else Move(w, id, Read(Rows(w.store.ledger)))
      case CheckLedger(id) =>
        if !r.phase.Read? then w
        else (match Validate(r.phase.existing, r.files)
              case Some(reason) => Leave(w, id, Ended(Stopped(reason)))
              case None => Move(w, id, Applying(r.phase.existing, 0, 0, 0)))
      case Advance(id) =>
        if !r.phase.Applying? then w else AdvanceRun(e, w, id)
      case Finish(id) =>
        if r.phase.Applying? && r.phase.next == |r.files|
        then Leave(w, id, Ended(Success(r.phase.applied, r.phase.skipped))) else w
      case Die(id) =>
        if r.phase.Ended? then w else Leave(w, id, Dead)
  }

  function Execute(e: Engine, w: World, steps: seq<Step>): World {
    if steps == [] then w else Next(e, Execute(e, w, steps[..|steps| - 1]), steps[|steps| - 1])
  }

  function Idle(s: Store): World {
    World(s, [], None, map[])
  }

  // ---------------------------------------------------------------- safety of every interleaving

  /** What a run knows about the database while it holds the lock. */
  ghost predicate RunInv(s: Store, r: Run) {
    match r.phase
    case Admitted => r.freshSchema ==> s.ledger.None?
    case Read(existing) => existing == Rows(s.ledger) && (r.freshSchema ==> existing == map[])
    case Applying(existing, next, applied, skipped) =>
      && next <= |r.files|
      && applied + skipped == next
      && Validate(existing, r.files).None?
      && Rows(s.ledger) == RowsOf(r.files[..next]) + existing
      && (r.freshSchema ==> existing == map[] && skipped == 0)
    case Ended(Success(applied, skipped)) =>
      applied + skipped == |r.files| && (r.freshSchema ==> skipped == 0)
    case Ended(Stopped(InsertConflict(_))) => false
    case _ => true
  }

  ghost predicate LockInv(w: World) {
    && (w.holder.Some? ==> w.holder.value in w.runs)
    && forall id :: id in w.runs ==> (HoldsLock(w.runs[id].phase) <==> w.holder == Some(id))
  }

  /** The ledger and the database state are what the logged commits made of the starting point. */
  ghost predicate LogInv(e: Engine, base: Store, w: World) {
    && Replay(e, base.db, w.log) == Some(w.store.db)
    && DistinctNames(w.log)
    && (forall i :: 0 <= i < |w.log| ==> w.log[i].name !in Rows(base.ledger))
    && w.store.ledger == if w.log == [] then base.ledger else Some(Rows(base.ledger) + RowsOf(w.log))
  }

  ghost predicate Safe(e: Engine, base: Store, w: World) {
    && LockInv(w)
    && LogInv(e, base, w)
    && forall id :: id in w.runs ==> DistinctNames(w.runs[id].files) && RunInv(w.store, w.runs[id])
  }

  ghost predicate DistinctPackages(steps: seq<Step>) {
    forall i :: 0 <= i < |steps| && steps[i].Connect? ==> DistinctNames(steps[i].files)
  }

  lemma {:induction false} RowsOfKeys(files: seq<File>)
    ensures RowsOf(files).Keys == Names(files)
  {
    if files != [] {
      var init, last := files[..|files| - 1], files[|files| - 1];
      RowsOfKeys(init);
      assert files == init + [last];
      forall n ensures n in Names(files) <==> n in Names(init) || n == last.name {
        if n in Names(init) {
          var i :| 0 <= i < |init| && init[i].name == n;
          assert files[i].name == n;
        }
        if n in Names(files) {
          var i :| 0 <= i < |files| && files[i].name == n;
          assert i < |init| ==> init[i].name == n;
        }
        assert files[|files| - 1].name == last.name;
      }
      assert RowsOf(files).Keys == RowsOf(init).Keys + {last.name};
    }
  }

  lemma RowsOfAt(files: seq<File>, i: nat)
    requires DistinctNames(files) && i < |files|
    ensures files[i].name in RowsOf(files) && RowsOf(files)[files[i].name] == files[i].digest
    decreases |files|
  {
    if i < |files| - 1 {
      RowsOfAt(files[..|files| - 1], i);
    }
  }

  lemma RowsOfNext(files: seq<File>, n: nat)
    requires n < |files|
    ensures RowsOf(files[..n + 1]) == RowsOf(files[..n])[files[n].name := files[n].digest]
  {
    assert files[..n + 1][..n] == files[..n];
  }

  lemma UnionUpdate(a: Ledger, b: Ledger, k: string, v: string)
    ensures (a + b)[k := v] == a + b[k := v]
    ensures k !in b ==> (a + b)[k := v] == a[k := v] + b
    ensures k in b ==> a[k := v] + b == a + b
  {
  }

  /** Skipping a recorded file keeps the snapshot equation. */
  lemma SkipKeepsRun(s: Store, r: Run)
    requires r.phase.Applying? && r.phase.next < |r.files| && RunInv(s, r)
    requires r.files[r.phase.next].name in r.phase.existing
    ensures RunInv(s, r.(phase := Passed(r.phase)))
  {
    var p := r.phase;
    RowsOfNext(r.files, p.next);
    UnionUpdate(RowsOf(r.files[..p.next]), p.existing, r.files[p.next].name, r.files[p.next].digest);
  }

  /** Committing the next file keeps it too: the new row is in the ledger and in the rows of the passed files. */
  lemma CommitKeepsRun(e: Engine, s: Store, r: Run)
    requires r.phase.Applying? && r.phase.next < |r.files| && RunInv(s, r)
    requires r.files[r.phase.next].name !in r.phase.existing && CommitOne(e, s, r.files[r.phase.next]).Ok?
    ensures RunInv(CommitOne(e, s, r.files[r.phase.next]).value, r.(phase := Committed(r.phase)))
  {
    var p := r.phase;
    RowsOfNext(r.files, p.next);
    UnionUpdate(RowsOf(r.files[..p.next]), p.existing, r.files[p.next].name, r.files[p.next].digest);
  }

  /** A file that is not in the snapshot cannot be in the ledger either, so its insert cannot conflict. */
  lemma AbsentFromLedger(s: Store, r: Run)
    requires r.phase.Applying? && RunInv(s, r) && DistinctNames(r.files)
    requires r.phase.next < |r.files| && r.files[r.phase.next].name !in r.phase.existing
    ensures r.files[r.phase.next].name !in Rows(s.ledger)
  {
    RowsOfKeys(r.files[..r.phase.next]);
  }

  lemma MoveKeepsSafe(e: Engine, base: Store, w: World, id: nat, p: Phase)
    requires Safe(e, base, w) && id in w.runs
    requires HoldsLock(p) == HoldsLock(w.runs[id].phase) && RunInv(w.store, w.runs[id].(phase := p))
    ensures Safe(e, base, Move(w, id, p))
  {
  }

  lemma LeaveKeepsSafe(e: Engine, base: Store, w: World, id: nat, p: Phase)
    requires Safe(e, base, w) && id in w.runs
    requires !HoldsLock(p) && RunInv(w.store, w.runs[id].(phase := p))
    ensures Safe(e, base, Leave(w, id, p))
  {
  }

  lemma AdvanceKeepsSafe(e: Engine, base: Store, w: World, id: nat)
    requires Safe(e, base, w) && id in w.runs && w.runs[id].phase.Applying?
    ensures Safe(e, base, AdvanceRun(e, w, id))
  {
    var r := w.runs[id];
    var p := r.phase;
    if p.next >= |r.files| {
    } else if r.files[p.next].name in p.existing {
      SkipKeepsSafe(e, base, w, id);
    } else if CommitOne(e, w.store, r.files[p.next]).Ok? {
      CommitKeepsSafe(e, base, w, id);
    } else {
      RefusalKeepsSafe(e, base, w, id);
    }
  }

  lemma SkipKeepsSafe(e: Engine, base: Store, w: World, id: nat)
    requires Safe(e, base, w) && id in w.runs && w.runs[id].phase.Applying?
    requires var r := w.runs[id]; r.phase.next < |r.files| && r.files[r.phase.next].name in r.phase.existing
    ensures Safe(e, base, AdvanceRun(e, w, id))
  {
    SkipKeepsRun(w.store, w.runs[id]);
    MoveKeepsSafe(e, base, w, id, Passed(w.runs[id].phase));
  }

  lemma RefusalKeepsSafe(e: Engine, base: Store, w: World, id: nat)
    requires Safe(e, base, w) && id in w.runs && w.runs[id].phase.Applying?
    requires var r := w.runs[id];
             && r.phase.next < |r.files|
             && r.files[r.phase.next].name !in r.phase.existing
             && CommitOne(e, w.store, r.files[r.phase.next]).Err?
    ensures Safe(e, base, AdvanceRun(e, w, id))
  {
    var r := w.runs[id];
    RefusedCommit(e, w.store, r);
    LeaveKeepsSafe(e, base, w, id, Ended(Stopped(CommitOne(e, w.store, r.files[r.phase.next]).error)));
  }

  /** A transaction that rolls back does so because of its script, never because of its ledger row. */
  lemma RefusedCommit(e: Engine, s: Store, r: Run)
    requires r.phase.Applying? && RunInv(s, r) && DistinctNames(r.files)
    requires r.phase.next < |r.files| && r.files[r.phase.next].name !in r.phase.existing
    requires CommitOne(e, s, r.files[r.phase.next]).Err?
    ensures CommitOne(e, s, r.files[r.phase.next]) == Err(SqlFailed(r.files[r.phase.next].name))
    ensures RunInv(s, r.(phase := Ended(Stopped(CommitOne(e, s, r.files[r.phase.next]).error))))
  {
    AbsentFromLedger(s, r);
  }

  lemma CommitKeepsSafe(e: Engine, base: Store, w: World, id: nat)
    requires Safe(e, base, w) && id in w.runs && w.runs[id].phase.Applying?
    requires var r := w.runs[id];
             && r.phase.next < |r.files|
             && r.files[r.phase.next].name !in r.phase.existing
             && CommitOne(e, w.store, r.files[r.phase.next]).Ok?
    ensures Safe(e, base, AdvanceRun(e, w, id))
  {
    hide LockInv, LogInv, RunInv, CommitOne;
    var r := w.runs[id];
    var f := r.files[r.phase.next];
    var store := CommitOne(e, w.store, f).value;
    AbsentFromLedger(w.store, r);
    LogGrows(e, base, w, f);
    CommitKeepsRun(e, w.store, r);
    OthersUndisturbed(w, id, store);
    LockKept(w, id, Committed(r.phase));
    SameButLock(e, base, w, id, Committed(r.phase), store, w.log + [f]);
  }

  /** The runs without the lock know nothing about the store, so a commit does not disturb them. */
  lemma OthersUndisturbed(w: World, id: nat, store: Store)
    requires LockInv(w) && id in w.runs && HoldsLock(w.runs[id].phase)
    requires forall other :: other in w.runs ==> RunInv(w.store, w.runs[other])
    ensures forall other :: other in w.runs && other != id ==> RunInv(store, w.runs[other])
  {
    hide RunInv;
    forall other | other in w.runs && other != id
      ensures RunInv(store, w.runs[other])
    {
      assert w.holder == Some(id) && !HoldsLock(w.runs[other].phase);
      IdleRunIgnoresStore(w.store, store, w.runs[other]);
    }
  }

  lemma LockKept(w: World, id: nat, p: Phase)
    requires LockInv(w) && id in w.runs && HoldsLock(p) == HoldsLock(w.runs[id].phase)
    ensures LockInv(Move(w, id, p))
  {
  }

  /** The log's invariant says nothing about locks and runs, the lock's nothing about the store. */
  lemma SameButLock(e: Engine, base: Store, w: World, id: nat, p: Phase, store: Store, log: seq<File>)
    requires id in w.runs && LockInv(Move(w, id, p)) && LogInv(e, base, w.(store := store, log := log))
    requires forall other :: other in w.runs ==> DistinctNames(w.runs[other].files)
    requires forall other :: other in w.runs && other != id ==> RunInv(store, w.runs[other])
    requires RunInv(store, w.runs[id].(phase := p))
    ensures Safe(e, base, Move(w, id, p).(store := store, log := log))
  {
    hide RunInv, DistinctNames, HoldsLock;
  }

  lemma IdleRunIgnoresStore(s: Store, s': Store, r: Run)
    requires RunInv(s, r) && !HoldsLock(r.phase)
    ensures RunInv(s', r)
  {
  }

  lemma LogGrows(e: Engine, base: Store, w: World, f: File)
    requires LogInv(e, base, w) && f.name !in Rows(w.store.ledger) && CommitOne(e, w.store, f).Ok?
    ensures LogInv(e, base, w.(store := CommitOne(e, w.store, f).value, log := w.log + [f]))
  {
    var log := w.log + [f];
    assert log[..|log| - 1] == w.log;
    assert RowsOf(log) == RowsOf(w.log)[f.name := f.digest];
    assert Rows(w.store.ledger) == Rows(base.ledger) + RowsOf(w.log) by {
      assert RowsOf([]) == map[];
    }
    UnionUpdate(Rows(base.ledger), RowsOf(w.log), f.name, f.digest);
    RowsOfKeys(w.log);
    DistinctGrows(w.log, f);
  }

  lemma DistinctGrows(files: seq<File>, f: File)
    requires DistinctNames(files) && f.name !in Names(files)
    ensures DistinctNames(files + [f])
  {
  }

  lemma NextKeepsSafe(e: Engine, base: Store, w: World, s: Step)
    requires Safe(e, base, w) && (s.Connect? ==> DistinctNames(s.files))
    ensures Safe(e, base, Next(e, w, s))
  {
    if s.Connect? || s.TryLock? {
      EntryKeepsSafe(e, base, w, s);
    } else if s.id !in w.runs {
    } else if s.CheckEmpty? {
      CheckEmptyKeepsSafe(e, base, w, s.id);
    } else if s.ReadLedger? && w.runs[s.id].phase.Admitted? {
      MoveKeepsSafe(e, base, w, s.id, Read(Rows(w.store.ledger)));
    } else if s.CheckLedger? && w.runs[s.id].phase.Read? {
      CheckLedgerKeepsSafe(e, base, w, s.id);
    } else if s.Advance? && w.runs[s.id].phase.Applying? {
      AdvanceKeepsSafe(e, base, w, s.id);
    } else if s.Finish? && w.runs[s.id].phase.Applying? && w.runs[s.id].phase.next == |w.runs[s.id].files| {
      LeaveKeepsSafe(e, base, w, s.id, Ended(Success(w.runs[s.id].phase.applied, w.runs[s.id].phase.skipped)));
    } else if s.Die? && !w.runs[s.id].phase.Ended? {
      LeaveKeepsSafe(e, base, w, s.id, Dead);
    }
  }

  lemma EntryKeepsSafe(e: Engine, base: Store, w: World, s: Step)
    requires Safe(e, base, w) && (s.Connect? || s.TryLock?) && (s.Connect? ==> DistinctNames(s.files))
    ensures Safe(e, base, Next(e, w, s))
  {
    if s.TryLock? && s.id in w.runs && w.runs[s.id].phase.Connected? && w.holder.Some? {
      LeaveKeepsSafe(e, base, w, s.id, Ended(Stopped(LockHeld)));
    }
  }

  lemma CheckEmptyKeepsSafe(e: Engine, base: Store, w: World, id: nat)
    requires Safe(e, base, w) && id in w.runs
    ensures Safe(e, base, Next(e, w, CheckEmpty(id)))
  {
    var r := w.runs[id];
    if r.phase.Locked? {
      if PassesEmptyCheck(e, w.store, r.freshSchema) {
        MoveKeepsSafe(e, base, w, id, Admitted);
      } else {
        LeaveKeepsSafe(e, base, w, id, Ended(Stopped(NotEmpty)));
      }
    }
  }

  lemma CheckLedgerKeepsSafe(e: Engine, base: Store, w: World, id: nat)
    requires Safe(e, base, w) && id in w.runs && w.runs[id].phase.Read?
    ensures Safe(e, base, Next(e, w, CheckLedger(id)))
  {
    var r := w.runs[id];
    var existing := r.phase.existing;
    match Validate(existing, r.files)
    case Some(reason) => LeaveKeepsSafe(e, base, w, id, Ended(Stopped(reason)));
    case None =>
      FirstTurn(w.store, r);
      MoveKeepsSafe(e, base, w, id, Applying(existing, 0, 0, 0));
  }

  lemma FirstTurn(s: Store, r: Run)
    requires r.phase.Read? && RunInv(s, r) && Validate(r.phase.existing, r.files).None?
    ensures RunInv(s, r.(phase := Applying(r.phase.existing, 0, 0, 0)))
  {
    assert r.files[..0] == [] && RowsOf([]) == map[];
    assert map[] + r.phase.existing == r.phase.existing;
  }

  /**
   In every interleaving, from any existing installation: one lock holder at most; its snapshot and the files it has
   passed make up the current ledger; nothing is applied twice; no ledger insert conflicts; the counters add up.
   */
  lemma {:induction false} EveryInterleavingIsSafe(e: Engine, base: Store, steps: seq<Step>)
    requires DistinctPackages(steps)
    ensures Safe(e, base, Execute(e, Idle(base), steps))
  {
    if steps != [] {
      var init := steps[..|steps| - 1];
      EveryInterleavingIsSafe(e, base, init);
      NextKeepsSafe(e, base, Execute(e, Idle(base), init), steps[|steps| - 1]);
    }
  }

  /** Safe, read as mutual exclusion. */
  lemma OneHolder(e: Engine, base: Store, steps: seq<Step>, a: nat, b: nat)
    requires DistinctPackages(steps)
    requires var runs := Execute(e, Idle(base), steps).runs;
             a in runs && b in runs && HoldsLock(runs[a].phase) && HoldsLock(runs[b].phase)
    ensures a == b
  {
    EveryInterleavingIsSafe(e, base, steps);
  }

  /** One step writes only out of the apply loop, and then it commits the next file of that run. */
  lemma OnlyAdvanceWrites(e: Engine, w: World, s: Step)
    requires Next(e, w, s).store != w.store || Next(e, w, s).log != w.log
    ensures s.Advance? && s.id in w.runs && w.runs[s.id].phase.Applying?
    ensures var r := w.runs[s.id];
            && r.phase.next < |r.files|
            && r.files[r.phase.next].name !in r.phase.existing
            && Next(e, w, s).log == w.log + [r.files[r.phase.next]]
            && Next(e, w, s).store.db == e.exec(r.files[r.phase.next].sql, w.store.db).value
  {
  }

  /** The state before step k of a history. */
  function Before(e: Engine, base: Store, steps: seq<Step>, k: nat): World
    requires k <= |steps|
  {
    Execute(e, Idle(base), steps[..k])
  }

  lemma StepBetween(e: Engine, base: Store, steps: seq<Step>, k: nat)
    requires k < |steps|
    ensures Before(e, base, steps, k + 1) == Next(e, Before(e, base, steps, k), steps[k])
  {
    assert steps[..k + 1][..k] == steps[..k];
  }

  /**
   Wherever a history changes the database or the ledger, it commits the next unrecorded file of a run whose whole
   ledger snapshot was validated, which holds the lock, and whose snapshot is still the ledger but for its own commits.
   */
  lemma OnlyValidatedRunsWrite(e: Engine, base: Store, steps: seq<Step>, k: nat)
    requires DistinctPackages(steps) && k < |steps|
    requires var w, w' := Before(e, base, steps, k), Before(e, base, steps, k + 1);
             w'.store != w.store || w'.log != w.log
    ensures var w, w', id := Before(e, base, steps, k), Before(e, base, steps, k + 1), steps[k].id;
            && id in w.runs && w.holder == Some(id)
            && var r := w.runs[id];
               && r.phase.Applying? && r.phase.next < |r.files|
               && Validate(r.phase.existing, r.files).None?
               && Rows(w.store.ledger) == RowsOf(r.files[..r.phase.next]) + r.phase.existing
               && r.files[r.phase.next].name !in Rows(w.store.ledger)
               && w'.log == w.log + [r.files[r.phase.next]]
  {
    assert DistinctPackages(steps[..k]);
    EveryInterleavingIsSafe(e, base, steps[..k]);
    StepBetween(e, base, steps, k);
    OnlyAdvanceWrites(e, Before(e, base, steps, k), steps[k]);
    AbsentFromLedger(Before(e, base, steps, k).store, Before(e, base, steps, k).runs[steps[k].id]);
  }

  /** Turned away by the lock, by the emptiness check or by the validation of the ledger. */
  predicate Rejected(p: Phase) {
    p.Ended? && p.outcome.Stopped? && !p.outcome.reason.SqlFailed? && !p.outcome.reason.InsertConflict?
  }

  /** Once in the apply loop, a run is never again waiting or rejected. */
  predicate HasStarted(p: Phase) {
    p.Applying? || p.Dead? || (p.Ended? && !Rejected(p))
  }

  lemma StartedStays(e: Engine, w: World, s: Step, id: nat)
    requires id in w.runs && HasStarted(w.runs[id].phase)
    ensures id in Next(e, w, s).runs && HasStarted(Next(e, w, s).runs[id].phase)
  {
  }

  lemma {:induction false} StartedToTheEnd(e: Engine, base: Store, steps: seq<Step>, k: nat, id: nat)
    requires k <= |steps|
    requires id in Before(e, base, steps, k).runs && HasStarted(Before(e, base, steps, k).runs[id].phase)
    ensures var w := Execute(e, Idle(base), steps); id in w.runs && HasStarted(w.runs[id].phase)
    decreases |steps| - k
  {
    if k == |steps| {
      assert steps[..k] == steps;
    } else {
      StepBetween(e, base, steps, k);
      StartedStays(e, Before(e, base, steps, k), steps[k], id);
      StartedToTheEnd(e, base, steps, k + 1, id);
    }
  }

  /** A run that ends rejected changed neither database nor ledger with any of its steps. */
  lemma RejectedRunsWriteNothing(e: Engine, base: Store, steps: seq<Step>, id: nat, k: nat)
    requires var w := Execute(e, Idle(base), steps); id in w.runs && Rejected(w.runs[id].phase)
    requires k < |steps| && steps[k].id == id
    ensures Before(e, base, steps, k + 1).store == Before(e, base, steps, k).store
    ensures Before(e, base, steps, k + 1).log == Before(e, base, steps, k).log
  {
    var w, w' := Before(e, base, steps, k), Before(e, base, steps, k + 1);
    StepBetween(e, base, steps, k);
    if w'.store != w.store || w'.log != w.log {
      OnlyAdvanceWrites(e, w, steps[k]);
      StartedToTheEnd(e, base, steps, k, id);
    }
  }
}

/**
 The database side of the migration runner: what one run checks and what one transaction commits.

 SQL is an uninterpreted partial function on database states. A file either fails, and then its whole transaction rolls
 back, or moves the state on. SQL files do not write the ledger themselves.
 */
module MigrationStore {
  import opened Options

  /** Everything in schema public other than the ledger table. */
  type Db(==, !new)

  /** A frozen file: its name, its checksum and the SQL that the driver executes. */
  datatype File = File(name: string, digest: string, sql: string)

  const SCHEMA := "000_db_schema.sql"

  type Ledger = map<string, string>

  /** PostgreSQL as the runner sees it: what a script does, and whether the catalog query finds no object. */
  datatype Engine = Engine(exec: (string, Db) -> Option<Db>, vacant: Db -> bool)

  /** The ledger is missing until the first commit creates its table. */
  datatype Store = Store(db: Db, ledger: Option<Ledger>)

  datatype Reason = LockHeld | NotEmpty | UnknownEntries | HashMismatch(name: string) | SqlFailed(name: string) |
                    InsertConflict(name: string)

  datatype Outcome = Success(applied: nat, skipped: nat) | Stopped(reason: Reason)

  predicate DistinctNames(files: seq<File>) {
    forall i, j :: 0 <= i < j < |files| ==> files[i].name != files[j].name
  }

  function Names(files: seq<File>): (names: set<string>)
    ensures forall n :: n in names <==> exists i :: 0 <= i < |files| && files[i].name == n
  {
    set i | 0 <= i < |files| :: files[i].name
  }

  /** The rows that committing these files one after the other leaves behind. */
  function RowsOf(files: seq<File>): Ledger {
    if files == [] then map[]
    else RowsOf(files[..|files| - 1])[files[|files| - 1].name := files[|files| - 1].digest]
  }

  function Rows(ledger: Option<Ledger>): Ledger {
    if ledger.Some? then ledger.value else map[]
  }

  /** The fold of a list of scripts over a database state. */
  function Replay(e: Engine, db: Db, files: seq<File>): Option<Db> {
    if files == [] then Some(db)
    else match Replay(e, db, files[..|files| - 1])
      case None => None
      case Some(before) => e.exec(files[|files| - 1].sql, before)
  }

  /** The emptiness query of a fresh run: the ledger table is itself an object of schema public. */
  predicate PassesEmptyCheck(e: Engine, s: Store, freshSchema: bool) {
    freshSchema ==> e.vacant(s.db) && s.ledger.None?
  }

  /** The ledger records another checksum for the file. */
  predicate Differs(existing: Ledger, f: File) {
    f.name in existing && existing[f.name] != f.digest
  }

  ghost predicate FirstDiffers(existing: Ledger, files: seq<File>, i: nat) {
    i < |files| && Differs(existing, files[i]) && forall j :: 0 <= j < i ==> !Differs(existing, files[j])
  }

  /** The first file whose recorded checksum differs, if there is one. */
  function FirstMismatch(existing: Ledger, files: seq<File>): (r: Option<string>)
    ensures r.None? <==> forall i :: 0 <= i < |files| ==> !Differs(existing, files[i])
    ensures r.Some? ==> exists i: nat :: FirstDiffers(existing, files, i) && files[i].name == r.value
  {
    if files == [] then None
    else if Differs(existing, files[0]) then
      assert FirstDiffers(existing, files, 0);
      Some(files[0].name)
    else
      var r := FirstMismatch(existing, files[1..]);
      assert files == [files[0]] + files[1..];
      MismatchInTail(existing, files, r);
      r
  }

  lemma MismatchInTail(existing: Ledger, files: seq<File>, r: Option<string>)
    requires files != [] && !Differs(existing, files[0])
    requires r.Some? ==> exists i: nat :: FirstDiffers(existing, files[1..], i) && files[1..][i].name == r.value
    ensures r.Some? ==> exists i: nat :: FirstDiffers(existing, files, i) && files[i].name == r.value
  {
    if r.Some? {
      var i: nat :| FirstDiffers(existing, files[1..], i) && files[1..][i].name == r.value;
      forall j | 0 <= j < i + 1
        ensures !Differs(existing, files[j])
      {
        assert j > 0 ==> files[j] == files[1..][j - 1];
      }
      assert files[i + 1] == files[1..][i];
      assert FirstDiffers(existing, files, i + 1);
    }
  }

  /** The whole-ledger validation that precedes the first new file. */
  function Validate(existing: Ledger, files: seq<File>): Option<Reason> {
    if !(existing.Keys <= Names(files) + {SCHEMA}) then Some(UnknownEntries)
    else match FirstMismatch(existing, files)
      case Some(name) => Some(HashMismatch(name))
      case None => None
  }

  /** One transaction: the script and its ledger row, or nothing. */
  function CommitOne(e: Engine, s: Store, f: File): Result<Store, Reason> {
    match e.exec(f.sql, s.db)
    case None => Err(SqlFailed(f.name))
    case Some(db) =>
      if f.name in Rows(s.ledger) then Err(InsertConflict(f.name))
      else Ok(Store(db, Some(Rows(s.ledger)[f.name := f.digest])))
  }

  /** The apply loop from file i on, against the ledger snapshot read once before it. */
  function ApplyFrom(e: Engine, s: Store, files: seq<File>, existing: Ledger, i: nat, applied: nat, skipped: nat)
    : (Outcome, Store)
    requires i <= |files|
    decreases |files| - i
  {
    if i == |files| then (Success(applied, skipped), s)
    else if files[i].name in existing then ApplyFrom(e, s, files, existing, i + 1, applied, skipped + 1)
    else match CommitOne(e, s, files[i])
      case Err(reason) => (Stopped(reason), s)
      case Ok(next) => ApplyFrom(e, next, files, existing, i + 1, applied + 1, skipped)
  }

  /** One undisturbed run that found the advisory lock free. */
  function Apply(e: Engine, s: Store, files: seq<File>, freshSchema: bool): (Outcome, Store) {
    if !PassesEmptyCheck(e, s, freshSchema) then (Stopped(NotEmpty), s)
    else match Validate(Rows(s.ledger), files)
      case Some(reason) => (Stopped(reason), s)
      case None => ApplyFrom(e, s, files, Rows(s.ledger), 0, 0, 0)
  }

  /** The connected database, changed in place by a run. */
  class Database {
    var db: Db
    var ledger: Option<Ledger>
    var lockFree: bool

    constructor (db: Db, ledger: Option<Ledger>)
      ensures this.db == db && this.ledger == ledger && lockFree
    {
      this.db, this.ledger, this.lockFree := db, ledger, true;
    }

    /** The runner's own loops; the session lock is given back on every way out. */
    method ApplyMigrations(e: Engine, files: seq<File>, freshSchema: bool) returns (outcome: Outcome)
      modifies this
      ensures old(lockFree) ==>
                lockFree && (outcome, Store(db, ledger)) == Apply(e, old(Store(db, ledger)), files, freshSchema)
      ensures !old(lockFree) ==> outcome == Stopped(LockHeld) && unchanged(this)
      ensures old(lockFree) ==>
                (freshSchema && (!e.vacant(old(db)) || old(ledger).Some?) <==> outcome == Stopped(NotEmpty))
      ensures outcome == Stopped(NotEmpty) ==> db == old(db) && ledger == old(ledger)
    {
      if !lockFree {
        return Stopped(LockHeld);
      }
      lockFree := false;
      if freshSchema && !(e.vacant(db) && ledger.None?) {
        lockFree := true;
        return Stopped(NotEmpty);
      }
      var existing := if ledger.Some? then ledger.value else map[];
      if existing.Keys - (Names(files) + {SCHEMA}) != {} {
        lockFree := true;
        return Stopped(UnknownEntries);
      }
      assert existing.Keys <= Names(files) + {SCHEMA} by {
        forall n | n in existing.Keys ensures n in Names(files) + {SCHEMA} {
          assert n !in existing.Keys - (Names(files) + {SCHEMA});
        }
      }
      var i := 0;
      while i < |files|
        invariant 0 <= i <= |files|
        invariant db == old(db) && ledger == old(ledger)
        invariant FirstMismatch(existing, files) == FirstMismatch(existing, files[i..])
      {
        if files[i].name in existing && existing[files[i].name] != files[i].digest {
          lockFree := true;
          return Stopped(HashMismatch(files[i].name));
        }
        assert files[i..][1..] == files[i + 1..];
        i := i + 1;
      }
      var applied, skipped := 0, 0;
      i := 0;
      while i < |files|
        invariant 0 <= i <= |files| && 0 <= applied && 0 <= skipped
        invariant Apply(e, old(Store(db, ledger)), files, freshSchema) ==
                  ApplyFrom(e, Store(db, ledger), files, existing, i, applied, skipped)
      {
        var f := files[i];
        if f.name in existing {
          skipped := skipped + 1;
        } else {
          var moved := e.exec(f.sql, db);
          if moved.None? {
            lockFree := true;
            return Stopped(SqlFailed(f.name));
          }
          if f.name in Rows(ledger) {
            lockFree := true;
            return Stopped(InsertConflict(f.name));
          }
          db := moved.value;
          ledger := Some(Rows(ledger)[f.name := f.digest]);
          applied := applied + 1;
        }
        i := i + 1;
      }
      lockFree := true;
      return Success(applied, skipped);
    }
  }
}

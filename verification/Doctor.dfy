/** The read-only installation check, and its agreement with the migration runner. */
module Doctor {
  import opened Options
  import opened MigrationStore
  import opened MigrationRuns
  import opened MigrationHistory

  /** name -> checksum of the numbered files of the installed package. */
  function Inventory(numbered: seq<File>): Ledger {
    RowsOf(numbered)
  }

  function NumberedRows(rows: Ledger): (r: Ledger)
    ensures r.Keys == rows.Keys - {SCHEMA}
    ensures forall n :: n in r ==> r[n] == rows[n]
  {
    map n | n in rows && n != SCHEMA :: rows[n]
  }

  predicate LedgerTest(rows: Ledger, inventory: Ledger) {
    SCHEMA in rows && NumberedRows(rows) == inventory && |rows| == |inventory| + 1
  }

  /** The length clause decides nothing. */
  lemma LengthClauseRedundant(rows: Ledger, inventory: Ledger)
    ensures LedgerTest(rows, inventory) <==> SCHEMA in rows && NumberedRows(rows) == inventory
  {
    if SCHEMA in rows {
      assert rows.Keys == NumberedRows(rows).Keys + {SCHEMA};
      assert |rows.Keys| == |NumberedRows(rows).Keys| + 1;
    }
  }

  /** The test accepts exactly one schema row beside the inventory. */
  lemma LedgerTestMeaning(rows: Ledger, inventory: Ledger)
    ensures LedgerTest(rows, inventory) <==>
            SCHEMA in rows && SCHEMA !in inventory && rows == inventory[SCHEMA := rows[SCHEMA]]
  {
    LengthClauseRedundant(rows, inventory);
    if SCHEMA in rows {
      var m := inventory[SCHEMA := rows[SCHEMA]];
      if NumberedRows(rows) == inventory {
        assert rows.Keys == m.Keys;
        assert rows == m;
      }
      if SCHEMA !in inventory && rows == m {
        assert NumberedRows(rows).Keys == inventory.Keys;
        assert NumberedRows(rows) == inventory;
      }
    }
  }

  /** A package with a numbered file of the schema's name can never pass. */
  lemma SchemaNamedFileNeverPasses(rows: Ledger, numbered: seq<File>)
    requires SCHEMA in Names(numbered)
    ensures !LedgerTest(rows, Inventory(numbered))
  {
    RowsOfKeys(numbered);
    LedgerTestMeaning(rows, Inventory(numbered));
  }

  /** The test holds whenever a fresh run of the same package is about to report success, whatever ran before it. */
  lemma {:induction false} PassesAfterFreshRun(e: Engine, db: Db, master: seq<File>, steps: seq<Step>, id: nat)
    requires Master(master) && Packages(master, steps) && e.vacant(db)
    requires var w := Execute(e, Idle(Store(db, None)), steps);
             && id in w.runs && w.runs[id].freshSchema
             && w.runs[id].phase.Applying? && w.runs[id].phase.next == |w.runs[id].files|
    ensures var w := Execute(e, Idle(Store(db, None)), steps);
            LedgerTest(Rows(w.store.ledger), Inventory(Numbered(w.runs[id].files)))
  {
    var w := Execute(e, Idle(Store(db, None)), steps);
    var files := w.runs[id].files;
    EveryHistoryIsSafe(e, db, master, steps);
    ResumeEqualsOneRun(e, db, master, steps, id);
    LedgerNames(e, db, w);
    assert RunHistory(master, w.log, w.runs[id]);
    PackagedIsDistinct(master, files, true);
    SchemaFirstRows(files);
    LedgerTestMeaning(Rows(w.store.ledger), Inventory(files[1..]));
  }

  lemma {:induction false} SchemaFirstRows(files: seq<File>)
    requires files != [] && files[0].name == SCHEMA && DistinctNames(files)
    ensures RowsOf(files) == RowsOf(files[1..])[SCHEMA := files[0].digest]
    ensures SCHEMA !in RowsOf(files[1..])
  {
    RowsOfKeys(files[1..]);
    if |files| == 1 {
      assert files[..0] == [] && files[1..] == [];
    } else {
      var init := files[..|files| - 1];
      var last := files[|files| - 1];
      assert files[0].name != last.name;
      SchemaFirstRows(init);
      RowsOfNext(files, |files| - 1);
      RowsOfNext(files[1..], |files| - 2);
      assert files[..|files|] == files && files[1..][..|files| - 1] == files[1..];
      assert files[1..][..|files| - 2] == init[1..];
      OtherKeys(RowsOf(init[1..]), SCHEMA, files[0].digest, last.name, last.digest);
    }
  }

  lemma OtherKeys(rows: Ledger, a: string, x: string, b: string, y: string)
    requires a != b
    ensures rows[a := x][b := y] == rows[b := y][a := x]
  {
  }

  /**
   Given a schema row, the doctor accepts the ledger exactly when an undisturbed plain run of the package would succeed
   with nothing to apply; such a run leaves the store as it is.
   */
  lemma DoctorAgreesWithRunner(e: Engine, s: Store, numbered: seq<File>)
    requires DistinctNames(numbered) && SCHEMA !in Names(numbered) && SCHEMA in Rows(s.ledger)
    ensures LedgerTest(Rows(s.ledger), Inventory(numbered)) <==>
            Apply(e, s, numbered, false) == (Success(0, |numbered|), s)
  {
    LengthClauseRedundant(Rows(s.ledger), Inventory(numbered));
    if LedgerTest(Rows(s.ledger), Inventory(numbered)) {
      PassedMeansNothingToDo(e, s, numbered);
    }
    if Apply(e, s, numbered, false).0 == Success(0, |numbered|) {
      RowsOfKeys(numbered);
      SkippedAllMeansRecorded(e, s, numbered, Rows(s.ledger), 0, 0, 0);
      SameRows(Rows(s.ledger), numbered);
    }
  }

  lemma PassedMeansNothingToDo(e: Engine, s: Store, numbered: seq<File>)
    requires DistinctNames(numbered) && SCHEMA !in Names(numbered)
    requires NumberedRows(Rows(s.ledger)) == Inventory(numbered)
    ensures Apply(e, s, numbered, false) == (Success(0, |numbered|), s)
  {
    var rows := Rows(s.ledger);
    RowsOfKeys(numbered);
    forall i | 0 <= i < |numbered|
      ensures numbered[i].name in rows && rows[numbered[i].name] == numbered[i].digest
    {
      RowsOfAt(numbered, i);
      assert numbered[i].name in NumberedRows(rows);
    }
    assert rows.Keys <= Names(numbered) + {SCHEMA};
    SkipsAll(e, s, numbered, rows, 0, 0);
  }

  lemma SameRows(rows: Ledger, numbered: seq<File>)
    requires DistinctNames(numbered) && SCHEMA !in Names(numbered)
    requires rows.Keys <= Names(numbered) + {SCHEMA}
    requires forall i :: 0 <= i < |numbered| ==>
               numbered[i].name in rows && rows[numbered[i].name] == numbered[i].digest
    ensures NumberedRows(rows) == Inventory(numbered)
  {
    RowsOfKeys(numbered);
    assert NumberedRows(rows).Keys == Names(numbered);
    forall n | n in Names(numbered)
      ensures NumberedRows(rows)[n] == Inventory(numbered)[n]
    {
      var i :| 0 <= i < |numbered| && numbered[i].name == n;
      RowsOfAt(numbered, i);
    }
  }

  lemma {:induction false} SkipsAll(e: Engine, s: Store, files: seq<File>, existing: Ledger, i: nat, skipped: nat)
    requires i <= |files| && forall j :: i <= j < |files| ==> files[j].name in existing
    ensures ApplyFrom(e, s, files, existing, i, 0, skipped) == (Success(0, skipped + |files| - i), s)
    decreases |files| - i
  {
    if i < |files| {
      SkipsAll(e, s, files, existing, i + 1, skipped + 1);
    }
  }

  lemma {:induction false} SkippedAllMeansRecorded(e: Engine, s: Store, files: seq<File>, existing: Ledger, i: nat,
                                                   applied: nat, skipped: nat)
    requires i <= |files|
    ensures var outcome := ApplyFrom(e, s, files, existing, i, applied, skipped).0;
            outcome.Success? ==>
              && outcome.applied >= applied
              && (outcome.applied == applied ==> forall j :: i <= j < |files| ==> files[j].name in existing)
    decreases |files| - i
  {
    if i < |files| {
      if files[i].name in existing {
        SkippedAllMeansRecorded(e, s, files, existing, i + 1, applied, skipped + 1);
      } else if CommitOne(e, s, files[i]).Ok? {
        SkippedAllMeansRecorded(e, CommitOne(e, s, files[i]).value, files, existing, i + 1, applied + 1, skipped);
      }
    }
  }

  // ---------------------------------------------------------------- the report

  datatype Status = Passed | Blocked | Unavailable | NotRun

  datatype Item = Item(id: string, status: Status, required: bool)

  /** What the probes of one doctor call find; a settings value can be handed in or has to be read. */
  datatype Findings = Findings(
    pythonSupported: bool,
    pathsSafe: seq<(string, bool)>,
    migrations: Option<Ledger>,
    givenSettings: Option<bool>,
    readSettings: bool,
    node: Status,
    npm: Status,
    compose: Status,
    rows: Option<Ledger>)

  datatype Report = Report(ready: bool, blockedChecks: seq<string>, checks: seq<Item>)

  function PassedIf(b: bool): Status {
    if b then Passed else Blocked
  }

  function DatabaseStatus(rows: Option<Ledger>, migrations: Ledger): Status {
    PassedIf(rows.Some? && LedgerTest(rows.value, migrations))
  }

  function BlockedIds(checks: seq<Item>): seq<string> {
    if checks == [] then []
    else (if checks[0].required && checks[0].status != Passed then [checks[0].id] else []) + BlockedIds(checks[1..])
  }

  ghost predicate AllRequiredPass(checks: seq<Item>) {
    forall i :: 0 <= i < |checks| && checks[i].required ==> checks[i].status == Passed
  }

  lemma {:induction false} NoBlockedIffAllPass(checks: seq<Item>)
    ensures BlockedIds(checks) == [] <==> AllRequiredPass(checks)
  {
    if checks != [] {
      NoBlockedIffAllPass(checks[1..]);
      assert checks == [checks[0]] + checks[1..];
    }
  }

  /** The checks that block, by their positions in order: each required one that did not pass, and no other. */
  lemma {:induction false} BlockedInOrder(checks: seq<Item>) returns (at: seq<nat>)
    ensures forall m, n :: 0 <= m < n < |at| ==> at[m] < at[n]
    ensures forall i :: 0 <= i < |checks| ==> (i in at <==> checks[i].required && checks[i].status != Passed)
    ensures |at| == |BlockedIds(checks)|
    ensures forall n :: 0 <= n < |at| ==> at[n] < |checks| && BlockedIds(checks)[n] == checks[at[n]].id
  {
    if checks == [] {
      at := [];
    } else {
      var init, last := checks[..|checks| - 1], checks[|checks| - 1];
      at := BlockedInOrder(init);
      BlockedOfNext(init, last);
      assert checks == init + [last];
      if last.required && last.status != Passed {
        at := at + [|init|];
      }
    }
  }

  lemma {:induction false} BlockedOfNext(checks: seq<Item>, next: Item)
    ensures BlockedIds(checks + [next]) ==
            BlockedIds(checks) + if next.required && next.status != Passed then [next.id] else []
  {
    if checks != [] {
      BlockedOfNext(checks[1..], next);
      assert (checks + [next])[1..] == checks[1..] + [next];
    }
  }

  lemma AllRequiredPassConcat(a: seq<Item>, b: seq<Item>)
    ensures AllRequiredPass(a + b) <==> AllRequiredPass(a) && AllRequiredPass(b)
  {
    assert forall i :: 0 <= i < |b| ==> (a + b)[i + |a|] == b[i];
    assert forall i :: 0 <= i < |a| ==> (a + b)[i] == a[i];
  }

  lemma AllRequiredPassOne(item: Item)
    ensures AllRequiredPass([item]) <==> (item.required ==> item.status == Passed)
  {
    assert [item][0] == item;
  }

  function PathItems(paths: seq<(string, bool)>): seq<Item> {
    if paths == [] then []
    else PathItems(paths[..|paths| - 1]) + [Item(paths[|paths| - 1].0, PassedIf(paths[|paths| - 1].1), true)]
  }

  lemma {:induction false} PathsPass(paths: seq<(string, bool)>)
    ensures AllRequiredPass(PathItems(paths)) <==> forall i :: 0 <= i < |paths| ==> paths[i].1
  {
    if paths != [] {
      var init, last := paths[..|paths| - 1], paths[|paths| - 1];
      var item := Item(last.0, PassedIf(last.1), true);
      PathsPass(init);
      AllRequiredPassOne(item);
      AllRequiredPassConcat(PathItems(init), [item]);
      assert paths == init + [last];
    }
  }

  /** The settings are usable: handed in, or read without an exception. */
  predicate HaveSettings(f: Findings) {
    f.givenSettings.Some? || f.readSettings
  }

  predicate HaveSource(f: Findings) {
    f.migrations.Some? && f.migrations.value != map[]
  }

  /** The checks behind the paths; the database is looked at only with settings and a migration source. */
  function LaterItems(f: Findings): seq<Item> {
    [Item("migration-source", PassedIf(f.migrations.Some?), true),
     Item("community-profile", PassedIf(if f.givenSettings.Some? then f.givenSettings.value else f.readSettings), true),
     Item("node", f.node, true), Item("npm", f.npm, true), Item("docker-compose", f.compose, false),
     Item("database",
          if HaveSettings(f) && HaveSource(f) then DatabaseStatus(f.rows, f.migrations.value) else NotRun, true)]
  }

  /** One required check per path, in their order. */
  lemma {:induction false} PathChecks(paths: seq<(string, bool)>)
    ensures |PathItems(paths)| == |paths|
    ensures forall i :: 0 <= i < |paths| ==>
              PathItems(paths)[i] == Item(paths[i].0, if paths[i].1 then Passed else Blocked, true)
  {
    if paths != [] {
      PathChecks(paths[..|paths| - 1]);
    }
  }

  /**
   Of the checks behind the paths only docker compose is optional. The database is not looked at without settings or
   without migrations, and else passes exactly if the ledger could be read and holds the inventory and one schema row.
   */
  lemma LaterChecks(f: Findings)
    ensures var later := LaterItems(f);
            && |later| == 6
            && [later[0].id, later[1].id, later[2].id, later[3].id, later[4].id, later[5].id] ==
               ["migration-source", "community-profile", "node", "npm", "docker-compose", "database"]
            && (forall i :: 0 <= i < 6 ==> (later[i].required <==> later[i].id != "docker-compose"))
            && later[5].status in [Passed, Blocked, NotRun]
            && (later[5].status == NotRun <==>
                  (f.givenSettings.None? && !f.readSettings) || f.migrations.None? || f.migrations.value == map[])
            && (later[5].status == Passed ==>
                  && f.rows.Some? && SCHEMA in f.rows.value && SCHEMA !in f.migrations.value
                  && f.rows.value == f.migrations.value[SCHEMA := f.rows.value[SCHEMA]])
            && (later[5].status == Blocked && f.rows.Some? && SCHEMA in f.rows.value ==>
                  SCHEMA in f.migrations.value
                  || f.rows.value != f.migrations.value[SCHEMA := f.rows.value[SCHEMA]])
  {
    hide LedgerTest;
    if HaveSource(f) && f.rows.Some? {
      LedgerTestMeaning(f.rows.value, f.migrations.value);
    }
  }

  /** Ready means every required finding is good; docker compose never counts. */
  lemma ReadyMeans(f: Findings)
    ensures AllRequiredPass([Item("python", PassedIf(f.pythonSupported), true)] + PathItems(f.pathsSafe)
                            + LaterItems(f)) <==>
            && f.pythonSupported
            && (forall i :: 0 <= i < |f.pathsSafe| ==> f.pathsSafe[i].1)
            && HaveSource(f)
            && (if f.givenSettings.Some? then f.givenSettings.value else f.readSettings)
            && f.node == Passed && f.npm == Passed
            && f.rows.Some? && LedgerTest(f.rows.value, f.migrations.value)
  {
    var python := Item("python", PassedIf(f.pythonSupported), true);
    var later := LaterItems(f);
    PathsPass(f.pathsSafe);
    AllRequiredPassOne(python);
    AllRequiredPassConcat([python], PathItems(f.pathsSafe));
    AllRequiredPassConcat([python] + PathItems(f.pathsSafe), later);
    assert AllRequiredPass(later) <==>
           && later[0].status == Passed && later[1].status == Passed && later[2].status == Passed
           && later[3].status == Passed && later[5].status == Passed;
  }

  lemma AppendedItems(f: Findings, first: seq<Item>, profile: Item, database: Item)
    requires profile == LaterItems(f)[1] && database == LaterItems(f)[5]
    ensures first + [Item("migration-source", PassedIf(f.migrations.Some?), true)] + [profile]
            + [Item("node", f.node, true), Item("npm", f.npm, true), Item("docker-compose", f.compose, false)]
            + [database] == first + LaterItems(f)
  {
  }

  /**
   The installation is ready only if the ledger of a reachable database passes the ledger test against the inventory of
   a non-empty, verified migration source; a missing optional tool never blocks.
   */
  method CommunityDoctor(f: Findings) returns (report: Report)
    ensures report.checks ==
            [Item("python", PassedIf(f.pythonSupported), true)] + PathItems(f.pathsSafe) + LaterItems(f)
    ensures report.blockedChecks == BlockedIds(report.checks)
    ensures report.ready <==> report.blockedChecks == []
    ensures report.ready <==>
            && f.pythonSupported
            && (forall i :: 0 <= i < |f.pathsSafe| ==> f.pathsSafe[i].1)
            && HaveSource(f)
            && (if f.givenSettings.Some? then f.givenSettings.value else f.readSettings)
            && f.node == Passed && f.npm == Passed
            && f.rows.Some? && LedgerTest(f.rows.value, f.migrations.value)
  {
    hide LedgerTest, DatabaseStatus, AllRequiredPass;
    var checks := [Item("python", PassedIf(f.pythonSupported), true)];
    var i := 0;
    while i < |f.pathsSafe|
      invariant 0 <= i <= |f.pathsSafe|
      invariant checks == [Item("python", PassedIf(f.pythonSupported), true)] + PathItems(f.pathsSafe[..i])
    {
      assert f.pathsSafe[..i + 1][..i] == f.pathsSafe[..i];
      checks := checks + [Item(f.pathsSafe[i].0, PassedIf(f.pathsSafe[i].1), true)];
      i := i + 1;
    }
    assert f.pathsSafe[..|f.pathsSafe|] == f.pathsSafe;
    ghost var first := checks;
    var migrations: Ledger := map[];
    if f.migrations.Some? {
      migrations := f.migrations.value;
    }
    checks := checks + [Item("migration-source", PassedIf(f.migrations.Some?), true)];
    var haveSettings := true;
    var profile: Item;
    if f.givenSettings.None? {
      haveSettings := f.readSettings;
      profile := Item("community-profile", PassedIf(f.readSettings), true);
    } else {
      profile := Item("community-profile", PassedIf(f.givenSettings.value), true);
    }
    checks := checks + [profile];
    checks := checks + [Item("node", f.node, true), Item("npm", f.npm, true), Item("docker-compose", f.compose, false)];
    var database := Item("database", NotRun, true);
    if haveSettings && migrations != map[] {
      database := Item("database", DatabaseStatus(f.rows, migrations), true);
    }
    checks := checks + [database];
    AppendedItems(f, first, profile, database);
    ReadyMeans(f);
    NoBlockedIffAllPass(checks);
    var blocked := BlockedIds(checks);
    return Report(blocked == [], blocked, checks);
  }
}

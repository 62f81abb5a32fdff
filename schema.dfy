/** The two tables of the store, the handle on the store, and the versioned
    migration that creates the tables (database-migration.js). */
module Schema {
  import opened Wrappers
  import opened Sql
  import opened Seqs

  /** A row of `elever`: `elev_id INTEGER PRIMARY KEY, navn TEXT NOT NULL,
      klasse TEXT`. */
  datatype Elev = Elev(elevId: int, navn: string, klasse: Option<string>)

  /** A row of `tilrettelegginger`. The three flags are INTEGER columns
      with default 0; `elev_id` is NOT NULL and references `elever` with
      ON DELETE CASCADE. */
  datatype Tilrettelegging = Tilrettelegging(
    tilretteleggingId: int,
    elevId: int,
    faggruppeNavn: Option<string>,
    fagnavn: Option<string>,
    laerer: Option<string>,
    ekstraTid: int,
    skjermetPlass: int,
    opplestOppgave: int,
    kommentar: Option<string>)

  /** The three accommodation flags. */
  datatype FlagColumn = EkstraTid | SkjermetPlass | OpplestOppgave

  function ColumnName(c: FlagColumn): string {
    match c
    case EkstraTid => "ekstra_tid"
    case SkjermetPlass => "skjermet_plass"
    case OpplestOppgave => "opplest_oppgave"
  }

  function FlagOf(t: Tilrettelegging, c: FlagColumn): int {
    match c
    case EkstraTid => t.ekstraTid
    case SkjermetPlass => t.skjermetPlass
    case OpplestOppgave => t.opplestOppgave
  }

  function WithFlag(t: Tilrettelegging, c: FlagColumn, v: int): (u: Tilrettelegging)
    ensures FlagOf(u, c) == v
    ensures forall d :: d != c ==> FlagOf(u, d) == FlagOf(t, d)
    ensures u.tilretteleggingId == t.tilretteleggingId && u.elevId == t.elevId
    ensures u.faggruppeNavn == t.faggruppeNavn && u.fagnavn == t.fagnavn
    ensures u.laerer == t.laerer && u.kommentar == t.kommentar
  {
    match c
    case EkstraTid => t.(ekstraTid := v)
    case SkjermetPlass => t.(skjermetPlass := v)
    case OpplestOppgave => t.(opplestOppgave := v)
  }

  function ElevIds(es: seq<Elev>): set<int> {
    set e | e in es :: e.elevId
  }

  function ElevIdOf(e: Elev): int { e.elevId }

  function RecordIdOf(t: Tilrettelegging): int { t.tilretteleggingId }

  /** `elev_id` is a primary key. */
  predicate UniqueElevIds(es: seq<Elev>) {
    UniqueBy(es, ElevIdOf)
  }

  /** `tilrettelegging_id` is a primary key. */
  predicate UniqueRecordIds(ts: seq<Tilrettelegging>) {
    UniqueBy(ts, RecordIdOf)
  }

  /** The foreign key holds: every record's owner exists. */
  predicate OwnersExist(es: seq<Elev>, ts: seq<Tilrettelegging>) {
    forall t :: t in ts ==> t.elevId in ElevIds(es)
  }

  predicate IsBit(v: int) { v == 0 || v == 1 }

  predicate HasBitFlags(t: Tilrettelegging) {
    IsBit(t.ekstraTid) && IsBit(t.skjermetPlass) && IsBit(t.opplestOppgave)
  }

  /** Every write binds 0 or 1 to a flag, and the default is 0. */
  predicate FlagsAreBits(ts: seq<Tilrettelegging>) {
    forall t :: t in ts ==> HasBitFlags(t)
  }

  /** Rows are kept in row id order, the order in which SQLite scans a
      table that has no index on the searched column. Every insert takes
      a row id above all stored ones, so the order holds by construction. */
  predicate InRowIdOrder(es: seq<Elev>, ts: seq<Tilrettelegging>) {
    AscendingBy(es, ElevIdOf) && AscendingBy(ts, RecordIdOf)
  }

  predicate TablesValid(es: seq<Elev>, ts: seq<Tilrettelegging>) {
    UniqueElevIds(es) && UniqueRecordIds(ts) && OwnersExist(es, ts) && FlagsAreBits(ts)
    && InRowIdOrder(es, ts)
  }

  /** The store: `PRAGMA user_version`, which tables exist, and their rows
      in row id order. `hasSequenceTable` says whether the engine's
      `sqlite_sequence` table exists; only AUTOINCREMENT columns create it,
      and this schema has none. */
  class Database {
    var userVersion: int
    var hasElever: bool
    var hasTilrettelegginger: bool
    var hasSequenceTable: bool
    var elever: seq<Elev>
    var tilrettelegginger: seq<Tilrettelegging>

    ghost predicate Valid()
      reads this
    {
      && (!hasElever ==> elever == [])
      && (!hasTilrettelegginger ==> tilrettelegginger == [])
      && TablesValid(elever, tilrettelegginger)
    }

    /** A new, empty store file. */
    constructor ()
      ensures Valid()
      ensures userVersion == 0 && !hasElever && !hasTilrettelegginger && !hasSequenceTable
      ensures elever == [] && tilrettelegginger == []
    {
      userVersion := 0;
      hasElever, hasTilrettelegginger, hasSequenceTable := false, false, false;
      elever, tilrettelegginger := [], [];
    }
  }

  // -----------------------------------------------------------------------
  // Migration
  // -----------------------------------------------------------------------

  const LATEST_DB_VERSION := 1

  /** A storage failure of one statement of the migration, supplied from
      outside since it depends on the file system. */
  datatype Fault = NoFault | FailCreateElever | FailCreateTilrettelegginger | FailSetVersion

  /** Whether the migration from `version` reaches the failing statement. */
  predicate FaultStrikes(fault: Fault, version: int) {
    match fault
    case NoFault => false
    case FailCreateElever => version < 1
    case FailCreateTilrettelegginger => version < 1
    case FailSetVersion => true
  }

  /** `runMigrations`: nothing when the store is at the latest version;
      otherwise, in one transaction, the version 1 step when the store is
      below version 1, then `user_version` set to the latest version. The
      step creates each table only if it is absent, so rows are never
      touched. A failing statement rolls the whole transaction back. */
  method RunMigrations(db: Database, fault: Fault) returns (r: Result<()>)
    requires db.Valid()
    modifies db
    ensures db.Valid()
    ensures old(db.userVersion) == LATEST_DB_VERSION ==> r.Ok? && unchanged(db)
    ensures r.Err? ==> unchanged(db) && r.error == IO_ERROR
    ensures r.Err? <==> old(db.userVersion) != LATEST_DB_VERSION && FaultStrikes(fault, old(db.userVersion))
    ensures r.Ok? ==> db.userVersion == LATEST_DB_VERSION
    ensures db.elever == old(db.elever) && db.tilrettelegginger == old(db.tilrettelegginger)
    ensures db.hasSequenceTable == old(db.hasSequenceTable)
    ensures r.Ok? && old(db.userVersion) < 1 ==> db.hasElever && db.hasTilrettelegginger
    ensures old(db.userVersion) >= 1 ==>
              db.hasElever == old(db.hasElever) && db.hasTilrettelegginger == old(db.hasTilrettelegginger)
  {
    var currentVersion := db.userVersion;
    if currentVersion == LATEST_DB_VERSION {
      return Ok(());
    }
    // The transaction works on its own copy of the schema and commits at the end.
    var hasElever, hasTilrettelegginger := db.hasElever, db.hasTilrettelegginger;
    if currentVersion < 1 {
      if fault == FailCreateElever { return Err(IO_ERROR); }
      hasElever := true;
      if fault == FailCreateTilrettelegginger { return Err(IO_ERROR); }
      hasTilrettelegginger := true;
    }
    if fault == FailSetVersion { return Err(IO_ERROR); }
    db.hasElever, db.hasTilrettelegginger := hasElever, hasTilrettelegginger;
    db.userVersion := LATEST_DB_VERSION;
    r := Ok(());
  }

  /** Running the migration a second time changes nothing, whatever the
      second run's storage would have done. */
  method RunMigrationsTwice(db: Database, fault1: Fault, fault2: Fault)
    returns (first: Result<()>, second: Result<()>)
    requires db.Valid()
    modifies db
    ensures db.Valid()
    ensures first.Ok? ==> second.Ok? && db.userVersion == LATEST_DB_VERSION
    ensures first.Ok? && old(db.userVersion) < 1 ==> db.hasElever && db.hasTilrettelegginger
    ensures first.Ok? ==>
              && db.elever == old(db.elever) && db.tilrettelegginger == old(db.tilrettelegginger)
              && db.hasSequenceTable == old(db.hasSequenceTable)
    ensures first.Ok? && old(db.userVersion) >= 1 ==>
              db.hasElever == old(db.hasElever) && db.hasTilrettelegginger == old(db.hasTilrettelegginger)
  {
    first := RunMigrations(db, fault1);
    label afterFirst:
    second := RunMigrations(db, fault2);
    assert first.Ok? ==> unchanged@afterFirst(db);
  }

  /** A store written by a newer program version is stamped back to
      version 1, with no step run: the guard compares with `===`. */
  method MigrateNewerStore(db: Database) returns (r: Result<()>)
    requires db.Valid() && db.userVersion > LATEST_DB_VERSION
    modifies db
    ensures r.Ok? && db.userVersion == LATEST_DB_VERSION < old(db.userVersion)
    ensures db.hasElever == old(db.hasElever) && db.hasTilrettelegginger == old(db.hasTilrettelegginger)
  {
    r := RunMigrations(db, NoFault);
  }
}

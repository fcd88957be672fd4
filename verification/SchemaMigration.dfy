/** The driver that creates, adopts or migrates a database, one transaction per version. A process may die
    between any two transactions; `fuel` is the number of transactions that it still commits. */
module SchemaMigration {
  import opened Budgets
  import opened Wrappers

  /** The steps between versions, and the predicates that the driver checks. It has two tables of them:
      `entry` for the version that it finds, `exit` for the one that a step is about to commit. Both cover
      the versions one to six only. Besides, there are `validCurrent` for the current version, `versionOne`
      for databases without a version, `legacy` for older ones, and `clean` before every commit. */
  datatype Schema<!C> = Schema(
    current: nat, steps: map<nat, C -> Option<C>>, entry: map<nat, C -> bool>, exit: map<nat, C -> bool>,
    validCurrent: C -> bool, versionOne: C -> bool, legacy: C -> bool, clean: C -> bool, initial: C)
  {
    /** What the driver demands of an older version that it finds. */
    predicate Enters(version: nat, content: C) {
      1 <= version <= 6 && version in entry ==> entry[version](content)
    }

    /** What a transaction demands of the version that it is about to commit. */
    predicate Commits(version: nat, content: C) {
      && clean(content)
      && if version == current then validCurrent(content)
         else 1 <= version <= 6 && version in exit ==> exit[version](content)
    }

    /** The content that one migration step commits. */
    function Stepped(version: nat, content: C): Option<C> {
      if version !in steps then None
      else
        match steps[version](content)
        case None => None
        case Some(next) => if Commits(version + 1, next) then Some(next) else None
    }

    /** The final content of an uninterrupted migration from a version. */
    function Climb(version: nat, content: C): Option<C>
      decreases current - version
    {
      if version >= current then if version == current && validCurrent(content) then Some(content) else None
      else
        match Stepped(version, content)
        case None => None
        case Some(next) => Climb(version + 1, next)
    }

    /** Every version that a migration from here commits on its way would be let in again. */
    predicate Resumes(version: nat, content: C)
      decreases current - version
    {
      version < current && Stepped(version, content).Some? ==>
        var next := Stepped(version, content).value;
        (version + 1 < current ==> Enters(version + 1, next)) && Resumes(version + 1, next)
    }
  }

  /** What a step may commit as an older version is let in when it is found. */
  ghost predicate Coherent<C(!new)>(s: Schema<C>) {
    forall v: nat, c :: v < s.current && s.Commits(v, c) ==> s.Enters(v, c)
  }

  lemma {:induction false} CoherentResumes<C(!new)>(s: Schema<C>, version: nat, content: C)
    requires Coherent(s)
    ensures s.Resumes(version, content)
    decreases s.current - version
  {
    if version < s.current && s.Stepped(version, content).Some? {
      CoherentResumes(s, version + 1, s.Stepped(version, content).value);
    }
  }

  /** The tables of the driver: the same six validators, found by version on entry and, in another order,
      before a commit. */
  function EntryTable<C>(validators: seq<C -> bool>): map<nat, C -> bool>
    requires |validators| == 6
  {
    map[1 := validators[0], 2 := validators[1], 3 := validators[2], 4 := validators[3], 5 := validators[4], 6 := validators[5]]
  }

  function ExitTable<C>(validators: seq<C -> bool>): map<nat, C -> bool>
    requires |validators| == 6
  {
    map[6 := validators[5], 5 := validators[4], 4 := validators[3], 3 := validators[2], 2 := validators[1], 1 := validators[0]]
  }

  lemma DriverCoheres<C(!new)>(s: Schema<C>, validators: seq<C -> bool>)
    requires |validators| == 6 && s.entry == EntryTable(validators) && s.exit == ExitTable(validators)
    ensures Coherent(s)
    ensures forall version: nat, c :: s.Enters(version, c) <==> (1 <= version <= 6 ==> validators[version - 1](c))
    ensures forall version: nat, c :: s.Commits(version, c) <==>
      s.clean(c) && if version == s.current then s.validCurrent(c) else 1 <= version <= 6 ==> validators[version - 1](c)
  {
  }

  // ---- The state after a number of commits ----

  function Progressed<C>(s: Schema<C>, version: nat, content: C, k: nat): C
    decreases k
  {
    if k == 0 || s.Stepped(version, content).None? then content
    else Progressed(s, version + 1, s.Stepped(version, content).value, k - 1)
  }

  lemma {:induction false} ProgressedFurther<C>(s: Schema<C>, version: nat, content: C, k: nat)
    requires s.Climb(version, content).Some? && version + k < s.current
    ensures var now := Progressed(s, version, content, k);
      s.Stepped(version + k, now).Some? && Progressed(s, version, content, k + 1) == s.Stepped(version + k, now).value
    decreases k
  {
    if k > 0 { ProgressedFurther(s, version + 1, s.Stepped(version, content).value, k - 1); }
  }

  /** The content is that of a migration after `k` commits; it is let in again if the migration can be
      resumed. */
  ghost predicate OnTheWay<C>(s: Schema<C>, version: nat, content: C, k: nat, reached: C) {
    && s.Climb(version + k, reached) == s.Climb(version, content)
    && (s.Climb(version, content).Some? ==> reached == Progressed(s, version, content, k))
    && (s.Resumes(version, content) ==> s.Resumes(version + k, reached))
    && (s.Resumes(version, content) && 0 < k && version + k < s.current ==> s.Enters(version + k, reached))
  }

  lemma NotYetOnTheWay<C>(s: Schema<C>, version: nat, content: C)
    ensures OnTheWay(s, version, content, 0, content)
  {
  }

  lemma OneStepFurther<C>(s: Schema<C>, version: nat, content: C, k: nat, reached: C)
    requires OnTheWay(s, version, content, k, reached)
    requires version + k < s.current && s.Stepped(version + k, reached).Some?
    ensures OnTheWay(s, version, content, k + 1, s.Stepped(version + k, reached).value)
  {
    if s.Climb(version, content).Some? { ProgressedFurther(s, version, content, k); }
  }

  /** The number of commits after which a migration that cannot be resumed has reached a version that is
      refused when it is found. */
  function RefusedAfter<C>(s: Schema<C>, version: nat, content: C): (k: nat)
    requires s.Climb(version, content).Some? && !s.Resumes(version, content)
    ensures 1 <= k && version + k < s.current && !s.Enters(version + k, Progressed(s, version, content, k))
    decreases s.current - version
  {
    var next := s.Stepped(version, content).value;
    assert Progressed(s, version, content, 1) == next;
    if version + 1 < s.current && !s.Enters(version + 1, next) then 1 else RefusedAfter(s, version + 1, next) + 1
  }

  datatype Database<!C> = Empty | Unversioned(content: C) | Versioned(version: nat, content: C)

  datatype Outcome = Current | Refused | Interrupted

  /** What adoption makes of a database without a version: version one, after a migration if it is older. */
  function Adopted<C>(s: Schema<C>, content: C): Option<C> {
    var adopted :=
      if s.versionOne(content) then Some(content)
      else if s.legacy(content) && 0 in s.steps && s.steps[0](content).Some? && s.versionOne(s.steps[0](content).value)
      then s.steps[0](content)
      else None;
    if adopted.Some? && s.clean(adopted.value) then adopted else None
  }

  /** The content that an uninterrupted run ends with, or None when it refuses the database. */
  function Target<C>(s: Schema<C>, db: Database<C>): Option<C> {
    match db
    case Empty => if s.clean(s.initial) && s.validCurrent(s.initial) then Some(s.initial) else None
    case Versioned(v, c) => if v > s.current || (v < s.current && !s.Enters(v, c)) then None else s.Climb(v, c)
    case Unversioned(c) =>
      if s.validCurrent(c) then if s.clean(c) then Some(c) else None
      else
        match Adopted(s, c)
        case None => None
        case Some(one) => if 1 < s.current && !s.Enters(1, one) then None else s.Climb(1, one)
  }

  /** No version that an uninterrupted run commits on its way would be refused when it is found. */
  predicate Resumable<C>(s: Schema<C>, db: Database<C>) {
    match db
    case Empty => true
    case Versioned(v, c) => s.Resumes(v, c)
    case Unversioned(c) => !s.validCurrent(c) && Adopted(s, c).Some? ==> s.Resumes(1, Adopted(s, c).value)
  }

  /** The transactions that are still to be committed. */
  function Distance<C>(s: Schema<C>, db: Database<C>): nat {
    match db
    case Empty => 1
    case Versioned(v, _) => if v <= s.current then s.current - v else 0
    case Unversioned(c) => if s.validCurrent(c) then 1 else s.current
  }

  /** The database after that many commits of an uninterrupted run. */
  function StateAfter<C>(s: Schema<C>, db: Database<C>, k: nat): Database<C> {
    match db
    case Empty => db
    case Versioned(v, c) => Versioned(v + k, Progressed(s, v, c, k))
    case Unversioned(c) =>
      if k == 0 || Adopted(s, c).None? then db else Versioned(k, Progressed(s, 1, Adopted(s, c).value, k - 1))
  }

  class Connection<C(!new)> {
    const schema: Schema<C>
    var db: Database<C>
    var fuel: nat

    constructor (schema: Schema<C>, db: Database<C>)
      ensures this.schema == schema && this.db == db
    {
      this.schema, this.db, fuel := schema, db, 0;
    }

    /** Commits one transaction, or dies before it. */
    method Commit(next: Database<C>) returns (dead: bool)
      modifies this
      ensures dead == (old(fuel) == 0) && fuel == old(fuel) - (if dead then 0 else 1)
      ensures db == if dead then old(db) else next
    {
      if fuel == 0 { return true; }
      db, fuel := next, fuel - 1;
      return false;
    }

    /** One ordered migration, committed together with its version, or not at all. */
    method MigrateVersion() returns (outcome: Outcome)
      requires db.Versioned? && db.version < schema.current
      modifies this
      ensures db.Versioned?
      ensures outcome.Current? ==> db.version == old(db).version + 1 && fuel == old(fuel) - 1
      ensures outcome.Current? ==> schema.Stepped(old(db).version, old(db).content) == Some(db.content) && schema.Commits(db.version, db.content)
      ensures !outcome.Current? ==> db == old(db) && fuel == old(fuel)
      ensures outcome.Refused? ==> schema.Stepped(db.version, db.content).None?
      ensures outcome.Interrupted? ==> fuel == 0
    {
      var next := schema.Stepped(db.version, db.content);
      if next.None? { return Refused; }
      var dead := Commit(Versioned(db.version + 1, next.value));
      return if dead then Interrupted else Current;
    }

    /** The loop over the ordered migrations. */
    method MigrateVersions() returns (outcome: Outcome)
      requires db.Versioned? && db.version <= schema.current
      modifies this
      ensures db.Versioned? && 0 <= old(fuel) - fuel == db.version - old(db).version
      ensures OnTheWay(schema, old(db).version, old(db).content, old(fuel) - fuel, db.content)
      ensures outcome.Current? ==> db.version == schema.current
      ensures !outcome.Current? ==> db.version < schema.current
      ensures outcome.Refused? ==> schema.Stepped(db.version, db.content).None?
      ensures outcome.Interrupted? ==> fuel == 0
    {
      ghost var start, from, k := db.version, db.content, 0;
      NotYetOnTheWay(schema, start, from);
      while db.version < schema.current
        invariant db.Versioned? && db.version == start + k <= schema.current && old(fuel) - fuel == k
        invariant OnTheWay(schema, start, from, k, db.content)
        decreases schema.current - db.version
      {
        ghost var content := db.content;
        outcome := MigrateVersion();
        if !outcome.Current? { return; }
        OneStepFurther(schema, start, from, k, content);
        k := k + 1;
      }
      return Current;
    }

    /** Migrates a database with a version, after a check of that version. */
    method MigrateFound() returns (outcome: Outcome)
      requires db.Versioned? && db.version <= schema.current
      requires db.version < schema.current ==> schema.Enters(db.version, db.content)
      modifies this
      ensures Reached(schema, old(db), db, outcome, old(fuel) - fuel)
      ensures outcome.Interrupted? ==> fuel == 0
      ensures outcome.Interrupted? && Target(schema, old(db)).Some? ==> db == StateAfter(schema, old(db), old(fuel))
    {
      outcome := MigrateVersions();
      if outcome.Current? && !schema.validCurrent(db.content) { outcome := Refused; }
    }

    /** Creates, adopts or migrates the database, or refuses it. */
    method EnsureCurrentSchema() returns (outcome: Outcome)
      requires schema.current >= 1
      modifies this
      ensures Reached(schema, old(db), db, outcome, old(fuel) - fuel)
      ensures outcome.Interrupted? ==> fuel == 0
      ensures outcome.Interrupted? && Target(schema, old(db)).Some? ==> db == StateAfter(schema, old(db), old(fuel))
      decreases if db.Unversioned? then 1 else 0
    {
      match db {
        case Empty =>
          if !schema.clean(schema.initial) { return Refused; }
          var dead := Commit(Versioned(schema.current, schema.initial));
          if dead { return Interrupted; }
          return if schema.validCurrent(schema.initial) then Current else Refused;
        case Versioned(version, content) =>
          if version > schema.current { return Refused; }
          if version < schema.current && !schema.Enters(version, content) { return Refused; }
          outcome := MigrateFound();
        case Unversioned(content) =>
          if schema.validCurrent(content) {
            if !schema.clean(content) { return Refused; }
            var dead := Commit(Versioned(schema.current, content));
            return if dead then Interrupted else Current;
          }
          outcome := AdoptVersionOne(content);
          if outcome.Current? { outcome := EnsureCurrentSchema(); }
      }
    }

    /** Adopts an unversioned database as version one, migrating it there first when it is older. */
    method AdoptVersionOne(content: C) returns (outcome: Outcome)
      requires db == Unversioned(content) && !schema.validCurrent(content) && schema.current >= 1
      modifies this
      ensures outcome.Current? ==> db.Versioned? && Target(schema, db) == Target(schema, old(db)) && fuel == old(fuel) - 1
      ensures outcome.Current? ==> Adopted(schema, content).Some? && db == Versioned(1, Adopted(schema, content).value)
      ensures outcome.Current? ==> (Resumable(schema, db) <==> Resumable(schema, old(db)))
      ensures outcome.Current? ==> Distance(schema, db) + 1 == Distance(schema, old(db))
      ensures !outcome.Current? ==> db == old(db) && fuel == old(fuel)
      ensures outcome.Refused? ==> Target(schema, db).None?
      ensures outcome.Interrupted? ==> fuel == 0
    {
      var adopted := content;
      if !schema.versionOne(content) {
        if !schema.legacy(content) || 0 !in schema.steps { return Refused; }
        var stepped := schema.steps[0](content);
        if stepped.None? || !schema.versionOne(stepped.value) { return Refused; }
        adopted := stepped.value;
      }
      if !schema.clean(adopted) { return Refused; }
      var dead := Commit(Versioned(1, adopted));
      return if dead then Interrupted else Current;
    }
  }

  /** What a run has done to the database: it has committed part of what an uninterrupted run commits, and
      when that can be resumed, it has the same end. */
  ghost predicate Reached<C(!new)>(s: Schema<C>, before: Database<C>, after: Database<C>, outcome: Outcome, spent: int) {
    && (outcome.Current? ==> Target(s, before).Some? && after == Versioned(s.current, Target(s, before).value) && spent == Distance(s, before))
    && (outcome.Refused? ==> Target(s, before).None?)
    && (outcome.Interrupted? ==> Distance(s, after) > 0 && Distance(s, after) + spent == Distance(s, before))
    && (Resumable(s, before) ==> Resumable(s, after) && Target(s, after) == Target(s, before))
  }

  /** Runs the driver again after every crash; run `i` commits at most `budgets[i]` transactions. When every
      version on the way is let in again, the end is that of one uninterrupted run, however the crashes
      split it, and is reached exactly when the runs together could commit every step. */
  method EnsureAcrossCrashes<C(!new)>(connection: Connection<C>, budgets: seq<nat>) returns (done: bool)
    requires connection.schema.current >= 1 && Target(connection.schema, connection.db).Some?
    requires Resumable(connection.schema, connection.db)
    modifies connection
    ensures done <==> budgets != [] && Sum(budgets) >= Distance(connection.schema, old(connection.db))
    ensures done ==>
      connection.db == Versioned(connection.schema.current, Target(connection.schema, old(connection.db)).value)
    ensures Target(connection.schema, connection.db) == Target(connection.schema, old(connection.db))
    decreases |budgets|
  {
    if budgets == [] { return false; }
    connection.fuel := budgets[0];
    var outcome := connection.EnsureCurrentSchema();
    if outcome.Current? { return true; }
    if budgets[1..] == [] { return false; }
    done := EnsureAcrossCrashes(connection, budgets[1..]);
  }

  lemma DriverResumes<C(!new)>(s: Schema<C>, validators: seq<C -> bool>, db: Database<C>)
    requires |validators| == 6 && s.entry == EntryTable(validators) && s.exit == ExitTable(validators)
    ensures Resumable(s, db)
  {
    DriverCoheres(s, validators);
    match db
    case Empty =>
    case Versioned(v, c) => CoherentResumes(s, v, c);
    case Unversioned(c) => if Adopted(s, c).Some? { CoherentResumes(s, 1, Adopted(s, c).value); }
  }

  /** The number of commits that lead a run into a state that is refused. */
  function RefusalPoint<C>(s: Schema<C>, db: Database<C>): (n: nat)
    requires s.current >= 1 && Target(s, db).Some? && !Resumable(s, db)
    ensures n < Distance(s, db) && Target(s, StateAfter(s, db, n)).None?
  {
    match db
    case Versioned(version, content) => RefusedAfter(s, version, content)
    case Unversioned(content) => RefusedAfter(s, 1, Adopted(s, content).value) + 1
  }

  /** When some version on the way is not let in again, a crash right after its commit leaves a database that
      every later run refuses, although an uninterrupted run would have reached the current version. */
  method CrashIntoRefusal<C(!new)>(connection: Connection<C>) returns (outcome: Outcome)
    requires connection.schema.current >= 1 && Target(connection.schema, connection.db).Some?
    requires !Resumable(connection.schema, connection.db)
    modifies connection
    ensures outcome.Interrupted? && Target(connection.schema, connection.db).None?
  {
    connection.fuel := RefusalPoint(connection.schema, connection.db);
    outcome := connection.EnsureCurrentSchema();
  }
}

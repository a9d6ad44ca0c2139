/**
 * src/persistence/PluginDatabase.cpp: migrations, transactions and erasure as atomic changes of a database that may
 * fail anywhere.
 */
module PluginDatabase {
  import opened Foundation
  import opened ForeignKeys
  import PreferenceStore
  import PluginNamespace

  // ----- What the database holds -------------------------------------------------------------------

  datatype Kind = Table | View | Index | Trigger

  /** An object of the schema; an index or a trigger stands on a table or a view. */
  datatype Object = Object(kind: Kind, on: string, definition: string)

  type Objects = map<string, Object>

  /**
   * The schema, the recorded version of every plugin, the preference documents, and how the rows of the tables refer
   * to each other.
   */
  datatype Data = Data(objects: Objects, versions: map<string, int>, settings: map<string, string>, rows: Rows)

  /** An answer, or the operation that failed. */
  datatype Result<T> = Success(value: T) | Failure(at: nat)

  /**
   * What becomes of an operation: SQLite may refuse it, refuse it and roll the transaction back by itself, or the
   * product may end in it, before or after what it does is durable. What an ended product would have been answered
   * nobody hears.
   */
  datatype Fault = Works | Refused | RolledBack | Ended | EndedAfter

  // ----- The connection ---------------------------------------------------------------------------------

  /** `durable` is what a restart finds and `work` what an open transaction has made of it. */
  class Database {
    const faults: nat -> Fault
    var clock: nat
    var durable: Data
    var work: Option<Data>
    var ended: bool

    /** A product that ended left no transaction open, and no broken reference is durable. */
    ghost predicate Valid()
      reads this
    {
      (ended ==> work == None) && durable.rows.broken == {}
    }

    constructor (durable: Data, faults: nat -> Fault)
      requires durable.rows.broken == {}
      ensures this.durable == durable && this.faults == faults && clock == 0 && work == None && !ended && Valid()
    {
      this.faults, clock, this.durable, work, ended := faults, 0, durable, None, false;
    }

    /** The fate of the next operation. */
    method Attempt() returns (fine: bool, at: nat)
      requires Valid()
      modifies this`clock, this`work, this`ended
      ensures Valid()
      ensures clock == old(clock) + 1 && at == old(clock)
      ensures fine ==> !old(ended) && !ended && work == old(work) && faults(at) == Works
      ensures !fine ==> old(ended) || faults(at) != Works
      ensures work == old(work) || work == None
      ensures old(ended) ==> ended && !fine
      ensures !fine && !ended ==> work == if faults(at) == RolledBack then None else old(work)
      ensures ended && !old(ended) ==> work == None
    {
      at := clock;
      clock := clock + 1;
      if ended {
        return false, at;
      }
      match faults(at)
      case Works => return true, at;
      case Refused => return false, at;
      case RolledBack =>
        work := None;
        return false, at;
      case _ =>
        work, ended := None, true;
        return false, at;
    }

    /** A question that changes nothing. */
    method Ask() returns (answer: Result<()>)
      requires Valid()
      modifies this`clock, this`work, this`ended
      ensures Valid()
      ensures clock == old(clock) + 1 && (answer.Failure? ==> answer.at == old(clock))
      ensures answer.Success? ==> work == old(work) && !ended
      ensures work == old(work) || work == None
      ensures !old(ended) && faults(old(clock)) == Works ==> answer.Success?
      ensures answer.Failure? && !ended ==> work == if faults(old(clock)) == RolledBack then None else old(work)
    {
      var fine, at := Attempt();
      return if fine then Success(()) else Failure(at);
    }

    /** BEGIN IMMEDIATE. */
    method Begin() returns (begun: Result<()>)
      requires Valid()
      modifies this`clock, this`work, this`ended
      ensures Valid()
      ensures clock == old(clock) + 1 && (begun.Failure? ==> begun.at == old(clock))
      ensures begun.Success? ==> old(work) == None && work == Some(durable) && !ended
      ensures begun.Failure? ==> work == old(work) || work == None
      ensures !old(ended) && old(work) == None && faults(old(clock)) == Works ==> begun.Success?
    {
      var fine, at := Attempt();
      if !fine || work.Some? {
        return Failure(at);
      }
      work := Some(durable);
      return Success(());
    }

    /** A statement inside a transaction: all it does or nothing. */
    method Execute(change: Data -> Option<Data>) returns (done: Result<()>)
      requires Valid() && work.Some?
      modifies this`clock, this`work, this`ended
      ensures Valid()
      ensures clock == old(clock) + 1 && (done.Failure? ==> done.at == old(clock))
      ensures done.Success? ==> change(old(work).value).Some? && work == change(old(work).value) && !ended
      ensures done.Failure? ==> work == old(work) || work == None
      ensures !old(ended) && faults(old(clock)) == Works && change(old(work).value).Some? ==> done.Success?
    {
      var fine, at := Attempt();
      if !fine || change(work.value) == None {
        return Failure(at);
      }
      work := change(work.value);
      return Success(());
    }

    /** A statement outside a transaction is one of its own, committed with it. */
    method Run(change: Data -> Option<Data>) returns (done: Result<()>)
      requires Valid() && work == None
      modifies this
      ensures Valid() && clock == old(clock) + 1 && work == None && (done.Failure? ==> done.at == old(clock))
      ensures done.Success? ==> Alone(change, old(durable)) == Some(durable) && !ended
      ensures done.Failure? ==> durable == old(durable)
      ensures !old(ended) && faults(old(clock)) == Works && Alone(change, old(durable)).Some? ==> done.Success?
    {
      var fine, at := Attempt();
      if !fine || change(durable) == None || change(durable).value.rows.broken != {} {
        return Failure(at);
      }
      durable := change(durable).value;
      return Success(());
    }

    /** COMMIT, which is refused while a reference is broken; the product may end before or after it is durable. */
    method Commit() returns (committed: Result<()>)
      requires Valid() && work.Some?
      modifies this
      ensures Valid() && clock == old(clock) + 1 && (committed.Failure? ==> committed.at == old(clock))
      ensures committed.Success? ==> durable == old(work).value && work == None && durable.rows.broken == {}
      ensures committed.Success? && ended ==> faults(old(clock)) == EndedAfter
      ensures committed.Failure? ==> durable == old(durable) && (work == old(work) || work == None)
      ensures faults(old(clock)) == Works ==> (committed.Success? <==> old(work).value.rows.broken == {})
      ensures faults(old(clock)) == EndedAfter && old(work).value.rows.broken == {} ==> committed.Success?
    {
      if faults(clock) == EndedAfter && work.value.rows.broken == {} {
        durable, work, ended, clock := work.value, None, true, clock + 1;
        return Success(());
      }
      var fine, at := Attempt();
      if !fine || work.value.rows.broken != {} {
        return Failure(at);
      }
      durable, work := work.value, None;
      return Success(());
    }

    /**
     * PluginDatabase::rollback: only an open transaction is rolled back, and the caller learns what failed first
     * unless this fails too.
     */
    method Rollback(error: nat) returns (failed: nat)
      requires Valid()
      modifies this`clock, this`work, this`ended
      ensures Valid()
      ensures old(work) == None ==> failed == error && work == None && clock == old(clock)
      ensures old(work).Some? ==>
          clock == old(clock) + 1 && ((failed == error && work == None)
          || (failed == old(clock) && faults(old(clock)) != Works))
      ensures work == old(work) || work == None
    {
      if work == None {
        return error;
      }
      var fine, at := Attempt();
      if fine {
        work := None;
      }
      return if fine then error else at;
    }
  }

  /** A change as a transaction of its own. */
  function Alone(change: Data -> Option<Data>, data: Data): Option<Data> {
    if change(data).Some? && change(data).value.rows.broken == {} then change(data) else None
  }

  // ----- Statements, one after the other --------------------------------------------------------------

  type Sql = string

  /** What a list of statements makes of the data, if each of them can be executed. */
  function Executed(data: Data, statements: seq<Sql>, run: (Data, Sql) -> Option<Data>): Option<Data>
    decreases |statements|
  {
    if statements == [] then Some(data)
    else
      match run(data, statements[0])
      case None => None
      case Some(next) => Executed(next, statements[1..], run)
  }

  lemma {:induction false} ExecutedAppended(data: Data, statements: seq<Sql>, last: Sql,
      run: (Data, Sql) -> Option<Data>)
    ensures Executed(data, statements + [last], run) ==
              match Executed(data, statements, run) { case None => None case Some(next) => run(next, last) }
    decreases |statements|
  {
    if statements == [] {
      assert [last][1..] == [];
    } else {
      assert (statements + [last])[1..] == statements[1..] + [last];
      if run(data, statements[0]).Some? {
        ExecutedAppended(run(data, statements[0]).value, statements[1..], last, run);
      }
    }
  }

  lemma {:induction false} ExecutedPrefix(data: Data, statements: seq<Sql>, count: nat,
      run: (Data, Sql) -> Option<Data>)
    requires count <= |statements| && Executed(data, statements, run).Some?
    ensures Executed(data, statements[..count], run).Some?
    decreases |statements|
  {
    if count > 0 {
      assert statements[..count][1..] == statements[1..][..count - 1];
      ExecutedPrefix(run(data, statements[0]).value, statements[1..], count - 1, run);
    }
  }

  ghost predicate Calm(faults: nat -> Fault) {
    forall k :: faults(k) == Works
  }

  lemma CalmWorks()
    ensures Calm(k => Works) && !Calm(k => Refused)
  {
    var refused: nat -> Fault := k => Refused;
    assert refused(0) != Works;
  }

  /** The statements of a transaction or of a migration, up to the first that fails. */
  method ExecuteAll(database: Database, statements: seq<Sql>,
      run: (Data, Sql) -> Option<Data>) returns (done: Result<()>)
    requires database.Valid() && database.work.Some?
    modifies database`clock, database`work, database`ended
    ensures database.Valid()
    ensures done.Success? ==>
        database.work == Executed(old(database.work).value, statements, run) && database.work.Some? && !database.ended
    ensures Calm(database.faults) && Executed(old(database.work).value, statements, run).Some? ==> done.Success?
  {
    ghost var start := database.work.value;
    assert statements[..0] == [];
    for k := 0 to |statements|
      invariant database.work.Some? && database.work == Executed(start, statements[..k], run)
      invariant database.Valid()
    {
      assert statements[..k + 1] == statements[..k] + [statements[k]];
      ExecutedAppended(start, statements[..k], statements[k], run);
      if Executed(start, statements, run).Some? {
        ExecutedPrefix(start, statements, k + 1, run);
      }
      var sql := statements[k];
      var executed := database.Execute(data => run(data, sql));
      if executed.Failure? {
        return executed;
      }
    }
    assert statements[..|statements|] == statements;
    return Success(());
  }

  /** PluginDatabase::transaction: all statements apply together or not at all. */
  method Transaction(database: Database, statements: seq<Sql>,
      run: (Data, Sql) -> Option<Data>) returns (done: Result<()>)
    requires database.Valid()
    modifies database
    ensures database.Valid()
    ensures done.Success? ==>
        Executed(old(database.durable), statements, run) == Some(database.durable) && database.work == None
    ensures done.Failure? ==> database.durable == old(database.durable)
    ensures Calm(database.faults) && old(database.work) == None ==> database.work == None
    ensures Calm(database.faults) && old(database.work) == None && !old(database.ended) ==>
              (done.Success? <==>
                Executed(old(database.durable), statements, run).Some?
                  && Executed(old(database.durable), statements, run).value.rows.broken == {})
  {
    var begun := database.Begin();
    if begun.Failure? {
      return begun;
    }
    var executed := ExecuteAll(database, statements, run);
    if executed.Failure? {
      var failed := database.Rollback(executed.at);
      return Failure(failed);
    }
    var committed := database.Commit();
    if committed.Failure? {
      var failed := database.Rollback(committed.at);
      return Failure(failed);
    }
    return Success(());
  }

  // ----- The schema of a plugin ------------------------------------------------------------------------

  /**
   * What SQLite makes of the objects of a plugin with a statement, what it makes of the rows unless they refuse it,
   * which foreign keys a table declares, what a DROP does that sets off more than its keys, and what a definition
   * says apart from its spelling.
   */
  datatype Rules = Rules(
    effect: (Objects, Sql) -> Option<Objects>,
    rows: (Data, Sql) -> Option<Rows>,
    declares: Object -> set<Reference>,
    effects: Effects,
    normalized: string -> string)

  /** A foreign key in the definition of a table: the table it refers to, and what it does when a row of that goes. */
  datatype Reference = Reference(parent: string, action: Action)

  /** PRAGMA foreign_key_list of every table. */
  function KeysOf(objects: Objects, rules: Rules): set<Key> {
    set name, reference | name in objects && objects[name].kind.Table? && reference in rules.declares(objects[name]) ::
      Key(name, reference.parent, reference.action)
  }

  function SchemaOf(objects: Objects, rules: Rules): Schema {
    Schema((set name | name in objects && objects[name].kind.Table?),
           KeysOf(objects, rules),
           (set name | name in objects && objects[name].kind.Trigger? && objects[name].on in objects
               && objects[objects[name].on].kind.Table? ::
              objects[name].on))
  }

  /** PluginDatabase::ownParents: every foreign key of a table with the prefix refers to a table with the prefix. */
  predicate OwnParents(objects: Objects, prefix: string, rules: Rules) {
    forall key | key in KeysOf(objects, rules) && prefix <= key.child :: prefix <= key.parent
  }

  /** The keys are those the definitions of the tables declare. */
  lemma KeysOfTables(objects: Objects, rules: Rules, key: Key)
    ensures key in KeysOf(objects, rules) <==>
              && key.child in objects && objects[key.child].kind.Table?
              && Reference(key.parent, key.action) in rules.declares(objects[key.child])
  {
  }

  lemma OwnParentsOfTables(objects: Objects, prefix: string, rules: Rules)
    ensures OwnParents(objects, prefix, rules) <==>
              forall name, reference | name in objects && prefix <= name && objects[name].kind.Table?
                && reference in rules.declares(objects[name]) :: prefix <= reference.parent
  {
    if OwnParents(objects, prefix, rules) {
      forall name, reference | name in objects && prefix <= name && objects[name].kind.Table?
        && reference in rules.declares(objects[name])
        ensures prefix <= reference.parent
      {
        assert Key(name, reference.parent, reference.action) in KeysOf(objects, rules);
      }
    }
  }

  /** The objects named with the prefix. */
  function Own(objects: Objects, prefix: string): Objects {
    map name | name in objects && prefix <= name :: objects[name]
  }

  function Others(objects: Objects, prefix: string): Objects {
    map name | name in objects && !(prefix <= name) :: objects[name]
  }

  /** The authorizer lets a migration make only objects of the plugin. */
  predicate OnlyOwn(objects: Objects, prefix: string) {
    forall name | name in objects :: prefix < name
  }

  function Permitted(own: Objects, prefix: string, sql: Sql, rules: Rules): Option<Objects> {
    match rules.effect(own, sql)
    case None => None
    case Some(next) => if OnlyOwn(next, prefix) then Some(next) else None
  }

  /** PluginDatabase::change: a statement of a migration. */
  function Changed(data: Data, prefix: string, sql: Sql, rules: Rules): Option<Data> {
    match Permitted(Own(data.objects, prefix), prefix, sql, rules)
    case None => None
    case Some(own) =>
      match rules.rows(data, sql)
      case None => None
      case Some(rows) => Some(data.(objects := Others(data.objects, prefix) + own, rows := rows))
  }

  /**
   * The rows that are stored refuse one of the statements, or the commit behind them, though the schema would take
   * them all so far.
   */
  predicate RowsRefuse(data: Data, prefix: string, statements: seq<Sql>, rules: Rules)
    decreases |statements|
  {
    if statements == [] then data.rows.broken != {}
    else if Permitted(Own(data.objects, prefix), prefix, statements[0], rules) == None then false
    else
      match Changed(data, prefix, statements[0], rules)
      case None => true
      case Some(next) => RowsRefuse(next, prefix, statements[1..], rules)
  }

  function Changing(prefix: string, rules: Rules): (Data, Sql) -> Option<Data> {
    (data, sql) => Changed(data, prefix, sql, rules)
  }

  /** The objects of the plugin after the statements of a migration. */
  function Applied(own: Objects, prefix: string, statements: seq<Sql>, rules: Rules): Option<Objects>
    decreases |statements|
  {
    if statements == [] then Some(own)
    else
      match Permitted(own, prefix, statements[0], rules)
      case None => None
      case Some(next) => Applied(next, prefix, statements[1..], rules)
  }

  /** What the first migrations produce. */
  function Migrated(prefix: string, migrations: seq<seq<Sql>>, count: nat, rules: Rules): Option<Objects>
    requires count <= |migrations|
  {
    if count == 0 then Some(map[])
    else
      match Migrated(prefix, migrations, count - 1, rules)
      case None => None
      case Some(before) =>
        match Applied(before, prefix, migrations[count - 1], rules)
        case None => None
        case Some(after) => if OwnParents(after, prefix, rules) then Some(after) else None
  }

  function Version(data: Data, plugin: string): int {
    if plugin in data.versions then data.versions[plugin] else 0
  }

  /** The recorded version and the objects of the plugin are together what the first migrations produce. */
  predicate Consistent(data: Data, plugin: string, prefix: string, migrations: seq<seq<Sql>>, rules: Rules) {
    && 0 <= Version(data, plugin) <= |migrations|
    && Migrated(prefix, migrations, Version(data, plugin), rules) == Some(Own(data.objects, prefix))
  }

  /** Nothing but the objects and the version of the plugin differs. */
  predicate SameElsewhere(before: Data, after: Data, plugin: string, prefix: string) {
    && Others(after.objects, prefix) == Others(before.objects, prefix)
    && after.settings == before.settings
    && after.versions - {plugin} == before.versions - {plugin}
  }

  /** Nobody else loses or gains an object, a version or a document. */
  lemma SameElsewhereMeans(before: Data, after: Data, plugin: string, prefix: string, name: string)
    requires SameElsewhere(before, after, plugin, prefix)
    ensures !(prefix <= name) ==>
              (name in after.objects <==> name in before.objects)
                  && (name in before.objects ==> after.objects[name] == before.objects[name])
    ensures name != plugin ==>
              (name in after.versions <==> name in before.versions)
                  && (name in before.versions ==> after.versions[name] == before.versions[name])
    ensures after.settings == before.settings
  {
    if !(prefix <= name) {
      assert name in Others(after.objects, prefix) <==> name in Others(before.objects, prefix);
      assert name in before.objects ==> Others(after.objects, prefix)[name] == Others(before.objects, prefix)[name];
    }
    if name != plugin {
      assert name in after.versions - {plugin} <==> name in before.versions - {plugin};
      assert name in before.versions ==> (after.versions - {plugin})[name] == (before.versions - {plugin})[name];
    }
  }

  /** A plugin that keeps nothing yet is consistent, and a version beyond its migrations is not. */
  lemma FreshIsConsistent(data: Data, plugin: string, prefix: string, migrations: seq<seq<Sql>>, rules: Rules)
    ensures plugin !in data.versions && (forall name | name in data.objects :: !(prefix <= name)) ==>
              Consistent(data, plugin, prefix, migrations, rules)
    ensures Version(data, plugin) > |migrations| ==> !Consistent(data, plugin, prefix, migrations, rules)
    ensures Consistent(data, plugin, prefix, migrations, rules) ==>
              Version(data, plugin) <= |migrations|
                  && Migrated(prefix, migrations, Version(data, plugin), rules) == Some(Own(data.objects, prefix))
  {
    if plugin !in data.versions && (forall name | name in data.objects :: !(prefix <= name)) {
      assert Own(data.objects, prefix) == map[];
    }
  }

  /**
   * A statement of a migration is made exactly if SQLite can make it of the plugin's objects, leaves only objects of
   * the plugin, and no row refuses it; then nothing else changes.
   */
  lemma StatementChanges(data: Data, prefix: string, sql: Sql, rules: Rules)
    ensures
      var asked := rules.effect(Own(data.objects, prefix), sql);
      && (Changed(data, prefix, sql, rules).Some? <==>
            && asked.Some? && (forall name | name in asked.value :: prefix <= name && name != prefix)
            && rules.rows(data, sql).Some?)
      && (Changed(data, prefix, sql, rules).Some? ==>
            var next := Changed(data, prefix, sql, rules).value;
            && next.rows == rules.rows(data, sql).value && next.versions == data.versions
                && next.settings == data.settings
            && (forall name | prefix <= name ::
                  && (name in next.objects <==> name in asked.value)
                  && (name in asked.value ==> next.objects[name] == asked.value[name]))
            && (forall name | !(prefix <= name) ::
                  && (name in next.objects <==> name in data.objects)
                  && (name in data.objects ==> next.objects[name] == data.objects[name])))
  {
    var asked := rules.effect(Own(data.objects, prefix), sql);
    if asked.Some? {
      assert OnlyOwn(asked.value, prefix) <==> forall name | name in asked.value :: prefix <= name && name != prefix;
    }
  }

  lemma ChangedParts(data: Data, prefix: string, own: Objects)
    requires OnlyOwn(own, prefix)
    ensures Own(Others(data.objects, prefix) + own, prefix) == own
    ensures Others(Others(data.objects, prefix) + own, prefix) == Others(data.objects, prefix)
  {
  }

  /** Executing the statements of a migration applies them to the objects of the plugin and leaves the rest alone. */
  lemma {:induction false} ExecutedIsApplied(data: Data, prefix: string, statements: seq<Sql>, rules: Rules)
    ensures
      match Executed(data, statements, Changing(prefix, rules))
      case None => Applied(Own(data.objects, prefix), prefix, statements, rules) == None
          || RowsRefuse(data, prefix, statements, rules)
      case Some(after) =>
        && (RowsRefuse(data, prefix, statements, rules) <==> after.rows.broken != {})
        && Applied(Own(data.objects, prefix), prefix, statements, rules) == Some(Own(after.objects, prefix))
        && Others(after.objects, prefix) == Others(data.objects, prefix)
        && after.versions == data.versions && after.settings == data.settings
    decreases |statements|
  {
    if statements != [] {
      var own := Permitted(Own(data.objects, prefix), prefix, statements[0], rules);
      if own.Some? {
        ChangedParts(data, prefix, own.value);
        var next := Changed(data, prefix, statements[0], rules);
        if next.Some? {
          ExecutedIsApplied(next.value, prefix, statements[1..], rules);
        }
      }
    }
  }

  // ----- Migrations ----------------------------------------------------------------------------------------

  /**
   * One migration as a whole: its statements, its foreign keys within the plugin, its version, and no reference
   * broken behind it.
   */
  function Step(data: Data, plugin: string, prefix: string, version: int, statements: seq<Sql>,
      rules: Rules): Option<Data> {
    match Executed(data, statements, Changing(prefix, rules))
    case None => None
    case Some(next) =>
      if OwnParents(next.objects, prefix, rules) && next.rows.broken == {} then
        Some(next.(versions := next.versions[plugin := version]))
      else None
  }

  /**
   * The migration after the recorded version leads from what the first migrations produce to what one more produces.
   */
  lemma StepAdvances(data: Data, plugin: string, prefix: string, migrations: seq<seq<Sql>>, rules: Rules)
    requires Consistent(data, plugin, prefix, migrations, rules) && Version(data, plugin) < |migrations|
    ensures
      var version := Version(data, plugin) + 1;
      match Step(data, plugin, prefix, version, migrations[version - 1], rules)
      case None => Migrated(prefix, migrations, version, rules) == None
          || RowsRefuse(data, prefix, migrations[version - 1], rules)
      case Some(after) => Consistent(after, plugin, prefix, migrations, rules) && Version(after, plugin) == version
  {
    hide OwnParents, RowsRefuse, Own, Others;
    var version, own := Version(data, plugin) + 1, Own(data.objects, prefix);
    ExecutedIsApplied(data, prefix, migrations[version - 1], rules);
    assert Migrated(prefix, migrations, version - 1, rules) == Some(own);
    var applied := Applied(own, prefix, migrations[version - 1], rules);
    assert Migrated(prefix, migrations, version, rules) ==
           if applied.Some? && OwnParents(applied.value, prefix, rules) then applied else None;
    var executed := Executed(data, migrations[version - 1], Changing(prefix, rules));
    if executed.Some? {
      OwnParentsOwn(executed.value.objects, prefix, rules);
    }
  }

  /** The question for the foreign keys sees only tables of the plugin. */
  lemma OwnParentsOwn(objects: Objects, prefix: string, rules: Rules)
    ensures OwnParents(Own(objects, prefix), prefix, rules) <==> OwnParents(objects, prefix, rules)
  {
    forall key | key in KeysOf(objects, rules) && prefix <= key.child
      ensures key in KeysOf(Own(objects, prefix), rules)
    {
      assert key.child in Own(objects, prefix);
    }
    assert forall key | key in KeysOf(Own(objects, prefix), rules) :: key in KeysOf(objects, rules);
  }

  lemma StepElsewhere(data: Data, plugin: string, prefix: string, version: int, statements: seq<Sql>, rules: Rules)
    requires Step(data, plugin, prefix, version, statements, rules).Some?
    ensures SameElsewhere(data, Step(data, plugin, prefix, version, statements, rules).value, plugin, prefix)
    ensures Version(Step(data, plugin, prefix, version, statements, rules).value, plugin) == version
  {
    ExecutedIsApplied(data, prefix, statements, rules);
    var next := Executed(data, statements, Changing(prefix, rules)).value;
    assert next.versions[plugin := version] - {plugin} == data.versions - {plugin};
  }

  /** Where the migrations behind the recorded version lead when nothing interrupts them. */
  function Completed(data: Data, plugin: string, prefix: string, migrations: seq<seq<Sql>>, rules: Rules): Option<Data>
    requires 0 <= Version(data, plugin) <= |migrations|
    decreases |migrations| - Version(data, plugin)
  {
    var version := Version(data, plugin);
    if version == |migrations| then Some(data)
    else
      match Step(data, plugin, prefix, version + 1, migrations[version], rules)
      case None => None
      case Some(next) =>
        StepElsewhere(data, plugin, prefix, version + 1, migrations[version], rules);
        Completed(next, plugin, prefix, migrations, rules)
  }

  /**
   * No row that is stored refuses one of the migrations behind the recorded version, as long as each of them can be
   * made.
   */
  predicate RowsAllow(data: Data, plugin: string, prefix: string, migrations: seq<seq<Sql>>, rules: Rules)
    requires 0 <= Version(data, plugin) <= |migrations|
    decreases |migrations| - Version(data, plugin)
  {
    var version := Version(data, plugin);
    version < |migrations| ==>
      && !RowsRefuse(data, prefix, migrations[version], rules)
      && match Step(data, plugin, prefix, version + 1, migrations[version], rules) {
           case None => true
           case Some(next) =>
             StepElsewhere(data, plugin, prefix, version + 1, migrations[version], rules);
             RowsAllow(next, plugin, prefix, migrations, rules)
         }
  }

  /**
   * The migrations behind the recorded version can be completed exactly if all of them can be made and the stored
   * rows allow it.
   */
  lemma {:induction false} CompletedIffMigrated(data: Data, plugin: string, prefix: string,
      migrations: seq<seq<Sql>>, rules: Rules)
    requires Consistent(data, plugin, prefix, migrations, rules)
    ensures Completed(data, plugin, prefix, migrations, rules).Some? <==>
              Migrated(prefix, migrations, |migrations|, rules).Some?
                  && RowsAllow(data, plugin, prefix, migrations, rules)
    decreases |migrations| - Version(data, plugin)
  {
    hide RowsRefuse, Executed, Applied, OwnParents;
    var version := Version(data, plugin);
    if version < |migrations| {
      StepAdvances(data, plugin, prefix, migrations, rules);
      StepAllowed(data, plugin, prefix, version + 1, migrations[version], rules);
      match Step(data, plugin, prefix, version + 1, migrations[version], rules)
      case None => NoneAfter(prefix, migrations, version + 1, rules);
      case Some(next) => CompletedIffMigrated(next, plugin, prefix, migrations, rules);
    }
  }

  lemma StepAllowed(data: Data, plugin: string, prefix: string, version: int, statements: seq<Sql>, rules: Rules)
    ensures Step(data, plugin, prefix, version, statements, rules).Some? ==>
        !RowsRefuse(data, prefix, statements, rules)
  {
    ExecutedIsApplied(data, prefix, statements, rules);
  }

  /** What statements make of the references between rows that leave them as they are. */
  function AsTheyAre(): (Data, Sql) -> Option<Rows> {
    (data: Data, sql: Sql) => Some(data.rows)
  }

  /** Where statements leave the references between rows as they are, the rows allow every migration. */
  lemma {:induction false} LeftRowsAllow(data: Data, plugin: string, prefix: string, migrations: seq<seq<Sql>>,
      rules: Rules)
    requires rules.rows == AsTheyAre() && data.rows.broken == {}
    requires 0 <= Version(data, plugin) <= |migrations|
    ensures RowsAllow(data, plugin, prefix, migrations, rules)
    decreases |migrations| - Version(data, plugin)
  {
    var version := Version(data, plugin);
    if version < |migrations| {
      LeftRowsRefuseNothing(data, prefix, migrations[version], rules);
      var step := Step(data, plugin, prefix, version + 1, migrations[version], rules);
      if step.Some? {
        StepElsewhere(data, plugin, prefix, version + 1, migrations[version], rules);
        LeftRowsAllow(step.value, plugin, prefix, migrations, rules);
      }
    }
  }

  lemma {:induction false} LeftRowsRefuseNothing(data: Data, prefix: string, statements: seq<Sql>, rules: Rules)
    requires rules.rows == AsTheyAre() && data.rows.broken == {}
    ensures !RowsRefuse(data, prefix, statements, rules)
    decreases |statements|
  {
    if statements != [] && Changed(data, prefix, statements[0], rules).Some? {
      LeftRowsRefuseNothing(Changed(data, prefix, statements[0], rules).value, prefix, statements[1..], rules);
    }
  }

  /** The body of the loop of migrate: one migration in a transaction of its own. */
  method MigrateOnce(database: Database, plugin: string, prefix: string, version: int, statements: seq<Sql>,
      rules: Rules) returns (done: Result<()>)
    requires database.Valid()
    modifies database
    ensures database.Valid()
    ensures done.Success? ==>
        Step(old(database.durable), plugin, prefix, version, statements, rules) == Some(database.durable)
        && database.work == None
    ensures done.Failure? ==> database.durable == old(database.durable)
    ensures Calm(database.faults) && old(database.work) == None && !old(database.ended) ==>
              (done.Success? <==> Step(old(database.durable), plugin, prefix, version, statements, rules).Some?)
                  && (done.Success? ==> !database.ended)
  {
    hide Executed, Changed, Own, Others;
    var begun := database.Begin();
    if begun.Failure? {
      return begun;
    }
    var executed := ExecuteAll(database, statements, Changing(prefix, rules));
    if executed.Failure? {
      var failed := database.Rollback(executed.at);
      return Failure(failed);
    }
    var asked := database.Ask();
    if asked.Failure? {
      var failed := database.Rollback(asked.at);
      return Failure(failed);
    }
    if !OwnParents(database.work.value.objects, prefix, rules) {
      var failed := database.Rollback(database.clock);
      return Failure(failed);
    }
    var recorded := database.Execute((data: Data) => Some(data.(versions := data.versions[plugin := version])));
    if recorded.Failure? {
      var failed := database.Rollback(recorded.at);
      return Failure(failed);
    }
    var committed := database.Commit();
    if committed.Failure? {
      var failed := database.Rollback(committed.at);
      return Failure(failed);
    }
    return Success(());
  }

  /** What the migrations create in a database of its own, without a look at their foreign keys. */
  function Scratch(prefix: string, own: Objects, migrations: seq<seq<Sql>>, rules: Rules): Option<Objects>
    decreases |migrations|
  {
    if migrations == [] then Some(own)
    else
      match Applied(own, prefix, migrations[0], rules)
      case None => None
      case Some(next) => Scratch(prefix, next, migrations[1..], rules)
  }

  lemma {:induction false} ScratchAppended(prefix: string, own: Objects, migrations: seq<seq<Sql>>, last: seq<Sql>,
      rules: Rules)
    ensures Scratch(prefix, own, migrations + [last], rules) ==
              match Scratch(prefix, own, migrations, rules) {
                case None => None
                case Some(next) => Applied(next, prefix, last, rules)
              }
    decreases |migrations|
  {
    if migrations == [] {
      assert [last][1..] == [];
      assert migrations + [last] == [last];
    } else {
      assert (migrations + [last])[1..] == migrations[1..] + [last];
      if Applied(own, prefix, migrations[0], rules).Some? {
        ScratchAppended(prefix, Applied(own, prefix, migrations[0], rules).value, migrations[1..], last, rules);
      }
    }
  }

  /**
   * The migrations can be made exactly if all their statements can, with the foreign keys within the plugin behind
   * each.
   */
  lemma {:induction false} MigratedIffScratch(prefix: string, migrations: seq<seq<Sql>>, count: nat, rules: Rules)
    requires count <= |migrations|
    ensures Migrated(prefix, migrations, count, rules).Some? <==>
              && Scratch(prefix, map[], migrations[..count], rules).Some?
              && forall k | 0 < k <= count ::
                   && Scratch(prefix, map[], migrations[..k], rules).Some?
                   && OwnParents(Scratch(prefix, map[], migrations[..k], rules).value, prefix, rules)
  {
    hide OwnParents, Applied;
    if count == 0 {
      assert migrations[..0] == [];
    } else {
      MigratedIffScratch(prefix, migrations, count - 1, rules);
      if Migrated(prefix, migrations, count - 1, rules).Some? {
        MigratedIsScratch(prefix, migrations, count - 1, rules);
      }
      assert migrations[..count] == migrations[..count - 1] + [migrations[count - 1]];
      ScratchAppended(prefix, map[], migrations[..count - 1], migrations[count - 1], rules);
    }
  }

  /** What migrating produces is what the scratch database holds. */
  lemma {:induction false} MigratedIsScratch(prefix: string, migrations: seq<seq<Sql>>, count: nat, rules: Rules)
    requires count <= |migrations| && Migrated(prefix, migrations, count, rules).Some?
    ensures Scratch(prefix, map[], migrations[..count], rules) == Migrated(prefix, migrations, count, rules)
  {
    if count == 0 {
      assert migrations[..0] == [];
    } else {
      MigratedIsScratch(prefix, migrations, count - 1, rules);
      assert migrations[..count] == migrations[..count - 1] + [migrations[count - 1]];
      ScratchAppended(prefix, map[], migrations[..count - 1], migrations[count - 1], rules);
    }
  }

  const NOTHING: Data := Data(map[], map[], map[], NO_ROWS)

  /** Statements that are a transaction each. */
  function AloneEach(run: (Data, Sql) -> Option<Data>): (Data, Sql) -> Option<Data> {
    (data, sql) => Alone((here: Data) => run(here, sql), data)
  }

  lemma {:induction false} AloneIsExecuted(data: Data, statements: seq<Sql>, run: (Data, Sql) -> Option<Data>)
    ensures Executed(data, statements, AloneEach(run)).Some? ==>
        Executed(data, statements, run) == Executed(data, statements, AloneEach(run))
    decreases |statements|
  {
    if statements != [] && AloneEach(run)(data, statements[0]).Some? {
      AloneIsExecuted(run(data, statements[0]).value, statements[1..], run);
    }
  }

  /** The database in memory behind all migrations, each statement a transaction of its own. */
  function Built(data: Data, prefix: string, migrations: seq<seq<Sql>>, rules: Rules): Option<Data>
    decreases |migrations|
  {
    if migrations == [] then Some(data)
    else
      match Executed(data, migrations[0], AloneEach(Changing(prefix, rules)))
      case None => None
      case Some(next) => Built(next, prefix, migrations[1..], rules)
  }

  lemma {:induction false} BuiltAppended(data: Data, prefix: string, migrations: seq<seq<Sql>>, last: seq<Sql>,
      rules: Rules)
    ensures Built(data, prefix, migrations + [last], rules) ==
              match Built(data, prefix, migrations, rules) {
                case None => None
                case Some(next) => Executed(next, last, AloneEach(Changing(prefix, rules)))
              }
    decreases |migrations|
  {
    hide Executed, AloneEach;
    if migrations == [] {
      assert [last][1..] == [];
      assert migrations + [last] == [last];
    } else {
      assert (migrations + [last])[1..] == migrations[1..] + [last];
      var next := Executed(data, migrations[0], AloneEach(Changing(prefix, rules)));
      if next.Some? {
        BuiltAppended(next.value, prefix, migrations[1..], last, rules);
      }
    }
  }

  lemma {:induction false} BuiltPrefix(data: Data, prefix: string, migrations: seq<seq<Sql>>, count: nat, rules: Rules)
    requires count <= |migrations|
    ensures Built(data, prefix, migrations, rules).Some? ==> Built(data, prefix, migrations[..count], rules).Some?
    decreases |migrations|
  {
    hide Executed, AloneEach;
    if count > 0 {
      var next := Executed(data, migrations[0], AloneEach(Changing(prefix, rules)));
      assert migrations[..count][1..] == migrations[1..][..count - 1];
      if next.Some? {
        BuiltPrefix(next.value, prefix, migrations[1..], count - 1, rules);
      }
    }
  }

  /** The objects of the database in memory are what the statements of the migrations make of none. */
  lemma {:induction false} BuiltIsScratch(data: Data, prefix: string, migrations: seq<seq<Sql>>, rules: Rules)
    ensures Built(data, prefix, migrations, rules).Some? ==>
              Scratch(prefix, Own(data.objects, prefix), migrations, rules) ==
                  Some(Own(Built(data, prefix, migrations, rules).value.objects, prefix))
    decreases |migrations|
  {
    hide Executed, Own, AloneEach;
    if migrations != [] {
      var next := Executed(data, migrations[0], AloneEach(Changing(prefix, rules)));
      if next.Some? {
        AloneIsExecuted(data, migrations[0], Changing(prefix, rules));
        ExecutedIsApplied(data, prefix, migrations[0], rules);
        BuiltIsScratch(next.value, prefix, migrations[1..], rules);
      }
    }
  }

  /** The statements of one migration in the scratch database. */
  method CreateAll(scratch: Database, prefix: string, statements: seq<Sql>, rules: Rules) returns (done: bool)
    requires scratch.Valid() && scratch.work == None
    modifies scratch
    ensures scratch.Valid() && scratch.work == None
    ensures done ==>
              Executed(old(scratch.durable), statements, AloneEach(Changing(prefix, rules))) == Some(scratch.durable)
    ensures Calm(scratch.faults) && !old(scratch.ended)
            && Executed(old(scratch.durable), statements, AloneEach(Changing(prefix, rules))).Some? ==>
                 done && !scratch.ended
  {
    hide Changed;
    ghost var start, run := scratch.durable, AloneEach(Changing(prefix, rules));
    assert statements[..0] == [];
    for k := 0 to |statements|
      invariant scratch.Valid() && scratch.work == None
      invariant Executed(start, statements[..k], run) == Some(scratch.durable)
      invariant Calm(scratch.faults) && !old(scratch.ended) ==> !scratch.ended
    {
      assert statements[..k + 1] == statements[..k] + [statements[k]];
      ExecutedAppended(start, statements[..k], statements[k], run);
      if Executed(start, statements, run).Some? {
        ExecutedPrefix(start, statements, k + 1, run);
      }
      var sql := statements[k];
      var executed := scratch.Run(data => Changing(prefix, rules)(data, sql));
      if executed.Failure? {
        return false;
      }
    }
    assert statements[..|statements|] == statements;
    return true;
  }

  /** PluginDatabase::schema: what the definitions of the objects say. */
  function Spelled(objects: Objects, rules: Rules): map<string, string> {
    map name | name in objects :: rules.normalized(objects[name].definition)
  }

  /** The stored objects say what those say that the migrations create in a database of its own. */
  predicate Agrees(data: Data, prefix: string, migrations: seq<seq<Sql>>, rules: Rules) {
    && Built(NOTHING, prefix, migrations, rules).Some?
    && Spelled(Own(Built(NOTHING, prefix, migrations, rules).value.objects, prefix), rules) ==
        Spelled(Own(data.objects, prefix), rules)
  }

  /**
   * Under the prefix the same names are stored and created, and each definition says the same apart from its
   * spelling.
   */
  ghost predicate SameDefinitions(stored: Objects, created: Objects, prefix: string, rules: Rules) {
    forall name | prefix <= name ::
      && (name in stored <==> name in created)
      && (name in stored ==> rules.normalized(stored[name].definition) == rules.normalized(created[name].definition))
  }

  lemma SpelledSame(stored: Objects, created: Objects, prefix: string, rules: Rules)
    ensures Spelled(Own(created, prefix), rules) == Spelled(Own(stored, prefix), rules) <==>
              SameDefinitions(stored, created, prefix, rules)
  {
    var left, right := Spelled(Own(created, prefix), rules), Spelled(Own(stored, prefix), rules);
    assert forall name | prefix <= name :: (name in created <==> name in left) && (name in stored <==> name in right);
    assert forall name | name in left :: prefix <= name;
    assert forall name | name in right :: prefix <= name;
    if left == right {
      forall name | prefix <= name
        ensures name in stored <==> name in created
        ensures name in stored ==>
            rules.normalized(stored[name].definition) == rules.normalized(created[name].definition)
      {
        assert name in left <==> name in right;
        assert name in left ==> left[name] == right[name];
      }
    }
    if SameDefinitions(stored, created, prefix, rules) {
      assert left.Keys == right.Keys;
      assert forall name | name in left :: left[name] == right[name];
    }
  }

  lemma AgreesMeans(data: Data, prefix: string, migrations: seq<seq<Sql>>, rules: Rules)
    ensures Agrees(data, prefix, migrations, rules) <==>
              && Built(NOTHING, prefix, migrations, rules).Some?
              && SameDefinitions(data.objects, Built(NOTHING, prefix, migrations, rules).value.objects, prefix, rules)
  {
    hide Spelled, Own, Built, SameDefinitions;
    if Built(NOTHING, prefix, migrations, rules).Some? {
      SpelledSame(data.objects, Built(NOTHING, prefix, migrations, rules).value.objects, prefix, rules);
    }
  }

  /** PluginDatabase::verify: the objects of the plugin are compared both ways with those its migrations create. */
  method Verify(database: Database, prefix: string, migrations: seq<seq<Sql>>, rules: Rules,
      scratchFaults: nat -> Fault) returns (verified: bool)
    requires database.Valid()
    modifies database`clock, database`work, database`ended
    ensures database.Valid()
    ensures verified ==> Agrees(database.durable, prefix, migrations, rules)
    ensures Calm(database.faults) && Calm(scratchFaults) && !old(database.ended) ==>
        (verified <==> Agrees(database.durable, prefix, migrations, rules))
    ensures verified ==>
              && Built(NOTHING, prefix, migrations, rules).Some?
              && SameDefinitions(database.durable.objects, Built(NOTHING, prefix, migrations, rules).value.objects,
                  prefix, rules)
    ensures Calm(database.faults) && Calm(scratchFaults) && !old(database.ended)
            && Built(NOTHING, prefix, migrations, rules).Some?
            && SameDefinitions(database.durable.objects, Built(NOTHING, prefix, migrations, rules).value.objects,
                prefix, rules) ==>
              verified
  {
    AgreesMeans(database.durable, prefix, migrations, rules);
    hide SameDefinitions;
    hide Changed, Executed, Applied, Own, AloneEach;
    var scratch := new Database(NOTHING, scratchFaults);
    assert migrations[..0] == [];
    for k := 0 to |migrations|
      invariant unchanged(database) && database.Valid()
      invariant scratch.Valid() && scratch.work == None && fresh(scratch) && scratch.faults == scratchFaults
      invariant Built(NOTHING, prefix, migrations[..k], rules) == Some(scratch.durable)
      invariant Calm(scratchFaults) ==> !scratch.ended
    {
      assert migrations[..k + 1] == migrations[..k] + [migrations[k]];
      BuiltAppended(NOTHING, prefix, migrations[..k], migrations[k], rules);
      BuiltPrefix(NOTHING, prefix, migrations, k + 1, rules);
      var done := CreateAll(scratch, prefix, migrations[k], rules);
      if !done {
        return false;
      }
    }
    assert migrations[..|migrations|] == migrations;
    var asked := database.Ask();
    if asked.Failure? {
      return false;
    }
    var expected, stored := Spelled(Own(scratch.durable.objects, prefix), rules),
        Spelled(Own(database.durable.objects, prefix), rules);
    if exists name | name in expected :: name !in stored || stored[name] != expected[name] {
      return false;
    }
    if exists name | name in stored :: name !in expected {
      return false;
    }
    assert expected == stored;
    return true;
  }

  /**
   * A plugin whose version and objects belong together always verifies, if its migrations can be made in a database
   * of its own.
   */
  lemma ConsistentAgrees(data: Data, plugin: string, prefix: string, migrations: seq<seq<Sql>>, rules: Rules)
    requires Consistent(data, plugin, prefix, migrations, rules) && Version(data, plugin) == |migrations|
    ensures Agrees(data, prefix, migrations, rules) <==> Built(NOTHING, prefix, migrations, rules).Some?
  {
    hide Own, Built, Spelled, Scratch;
    MigratedIsScratch(prefix, migrations, |migrations|, rules);
    assert migrations[..|migrations|] == migrations;
    BuiltIsScratch(NOTHING, prefix, migrations, rules);
    OwnNothing(prefix);
  }

  lemma OwnNothing(prefix: string)
    ensures Own(NOTHING.objects, prefix) == map[]
  {
  }

  /** PluginDatabase::migrate. */
  method Migrate(database: Database, plugin: string, prefix: string, migrations: seq<seq<Sql>>, rules: Rules,
      scratchFaults: nat -> Fault)
    returns (reached: Result<int>)
    requires database.Valid() && 0 <= Version(database.durable, plugin)
    modifies database
    ensures database.Valid() && SameElsewhere(old(database.durable), database.durable, plugin, prefix)
    ensures Version(old(database.durable), plugin) <= Version(database.durable, plugin)
    ensures Version(old(database.durable), plugin) > |migrations| ==>
        reached.Failure? && database.durable == old(database.durable)
    ensures Version(old(database.durable), plugin) <= |migrations| ==>
              && Version(database.durable, plugin) <= |migrations|
              && Completed(database.durable, plugin, prefix, migrations, rules) ==
                  Completed(old(database.durable), plugin, prefix, migrations, rules)
    ensures Consistent(old(database.durable), plugin, prefix, migrations, rules) ==>
        Consistent(database.durable, plugin, prefix, migrations, rules)
    ensures reached.Success? ==> reached.value == |migrations| == Version(database.durable, plugin)
    ensures reached.Success? ==> Agrees(database.durable, prefix, migrations, rules)
    ensures Calm(database.faults) && Calm(scratchFaults) && !old(database.ended) && old(database.work) == None
            && Consistent(old(database.durable), plugin, prefix, migrations, rules) ==>
              (reached.Success? <==>
                Completed(old(database.durable), plugin, prefix, migrations, rules).Some?
                  && Built(NOTHING, prefix, migrations, rules).Some?)
    ensures reached.Success? ==>
              && Built(NOTHING, prefix, migrations, rules).Some?
              && SameDefinitions(database.durable.objects, Built(NOTHING, prefix, migrations, rules).value.objects,
                  prefix, rules)
    ensures Calm(database.faults) && Calm(scratchFaults) && !old(database.ended) && old(database.work) == None
            && Version(old(database.durable), plugin) <= |migrations| ==>
              var completed := Completed(old(database.durable), plugin, prefix, migrations, rules);
              (reached.Success? <==>
                && completed.Some? && Built(NOTHING, prefix, migrations, rules).Some?
                && SameDefinitions(completed.value.objects, Built(NOTHING, prefix, migrations, rules).value.objects,
                    prefix, rules))
  {
    hide Step, Built, Own, Others, Executed, Agrees, RowsRefuse, SameDefinitions;
    var stored := database.Ask();
    if stored.Failure? {
      return Failure(stored.at);
    }
    var current, declared := Version(database.durable, plugin), |migrations|;
    if current > declared {
      return Failure(database.clock);
    }
    ghost var before := database.durable;
    ghost var completed := Completed(before, plugin, prefix, migrations, rules);
    ghost var calm := Calm(database.faults) && Calm(scratchFaults) && !old(database.ended)
        && old(database.work) == None;
    var version := current;
    while version < declared
      invariant current <= version <= declared && version == Version(database.durable, plugin)
      invariant database.Valid() && SameElsewhere(before, database.durable, plugin, prefix)
      invariant Completed(database.durable, plugin, prefix, migrations, rules) == completed
      invariant Consistent(before, plugin, prefix, migrations, rules) ==>
          Consistent(database.durable, plugin, prefix, migrations, rules)
      invariant calm ==> database.work == None && !database.ended
    {
      ghost var here := database.durable;
      if Consistent(here, plugin, prefix, migrations, rules) {
        StepAdvances(here, plugin, prefix, migrations, rules);
      }
      var migrated := MigrateOnce(database, plugin, prefix, version + 1, migrations[version], rules);
      if migrated.Failure? {
        return Failure(migrated.at);
      }
      StepElsewhere(here, plugin, prefix, version + 1, migrations[version], rules);
      version := version + 1;
    }
    if Consistent(database.durable, plugin, prefix, migrations, rules) {
      ConsistentAgrees(database.durable, plugin, prefix, migrations, rules);
    }
    AgreesMeans(database.durable, prefix, migrations, rules);
    var verified := Verify(database, prefix, migrations, rules, scratchFaults);
    if !verified {
      return Failure(database.clock);
    }
    return Success(declared);
  }

  /** A migration that cannot be made leaves nothing for those behind it. */
  lemma {:induction false} NoneAfter(prefix: string, migrations: seq<seq<Sql>>, count: nat, rules: Rules)
    requires count <= |migrations|
    ensures Migrated(prefix, migrations, count, rules) == None ==>
        Migrated(prefix, migrations, |migrations|, rules) == None
    decreases |migrations| - count
  {
    if count < |migrations| {
      NoneAfter(prefix, migrations, count + 1, rules);
    }
  }

  /** Any number of starts, each of which may fail or end anywhere: what is left to do leads where it always led. */
  method Restarts(data: Data, plugin: string, prefix: string, migrations: seq<seq<Sql>>, rules: Rules,
      starts: seq<nat -> Fault>, scratchFaults: nat -> Fault)
    returns (last: Data, reached: bool)
    requires Consistent(data, plugin, prefix, migrations, rules) && data.rows.broken == {}
    ensures Consistent(last, plugin, prefix, migrations, rules) && SameElsewhere(data, last, plugin, prefix)
    ensures Completed(last, plugin, prefix, migrations, rules) == Completed(data, plugin, prefix, migrations, rules)
    ensures reached ==> Some(last) == Completed(data, plugin, prefix, migrations, rules)
    ensures reached ==> Migrated(prefix, migrations, |migrations|, rules) == Some(Own(last.objects, prefix))
    ensures starts != [] && Calm(starts[|starts| - 1]) && Calm(scratchFaults) ==>
              (reached <==>
                Completed(data, plugin, prefix, migrations, rules).Some?
                  && Built(NOTHING, prefix, migrations, rules).Some?)
  {
    hide Own, Others, Migrated, Step, Built, Agrees;
    last, reached := data, false;
    ghost var completed := Completed(data, plugin, prefix, migrations, rules);
    for k := 0 to |starts|
      invariant Consistent(last, plugin, prefix, migrations, rules) && SameElsewhere(data, last, plugin, prefix)
          && last.rows.broken == {}
      invariant Completed(last, plugin, prefix, migrations, rules) == completed
      invariant reached ==> Version(last, plugin) == |migrations|
      invariant k > 0 && Calm(starts[k - 1]) && Calm(scratchFaults) ==>
          (reached <==> completed.Some? && Built(NOTHING, prefix, migrations, rules).Some?)
    {
      var database := new Database(last, starts[k]);
      var answer := Migrate(database, plugin, prefix, migrations, rules, scratchFaults);
      last, reached := database.durable, answer.Success?;
    }
  }

  // ----- Erasing what a plugin keeps -----------------------------------------------------------------------

  predicate Stands(item: Object) {
    item.kind.Table? || item.kind.View?
  }

  /** What a DROP leaves of the objects: the indexes and triggers that stand on one go along. */
  function Without(objects: Objects, name: string): Objects {
    map other | other in objects && other != name
        && (Stands(objects[other]) || objects[other].on != name) :: objects[other]
  }

  /** A DROP of a table or a view. The rows of a table are deleted first, which may refuse it. */
  function Drop(data: Data, name: string, rules: Rules): Option<Data> {
    if name !in data.objects || !Stands(data.objects[name]) then None
    else
      var rows := if data.objects[name].kind.Table? then Emptying(SchemaOf(data.objects, rules), data.rows, name,
          rules.effects) else Some(data.rows);
      match rows
      case None => None
      case Some(next) => Some(data.(objects := Without(data.objects, name), rows := next))
  }

  function Dropping(rules: Rules): (Data, Sql) -> Option<Data> {
    (data, name) => Drop(data, name, rules)
  }

  lemma SchemaWithout(objects: Objects, name: string, rules: Rules)
    requires name in objects && Stands(objects[name])
    ensures SchemaOf(Without(objects, name), rules) ==
              if objects[name].kind.Table? then Dropped(SchemaOf(objects, rules), name) else SchemaOf(objects, rules)
  {
    var before, after := SchemaOf(objects, rules), SchemaOf(Without(objects, name), rules);
    var expected := if objects[name].kind.Table? then Dropped(before, name) else before;
    assert forall other | other in Without(objects, name) ::
             other in objects && Without(objects, name)[other] == objects[other];
    assert after.tables == expected.tables;
    assert after.keys == expected.keys;
    assert after.triggered == expected.triggered;
  }

  /** An object goes with the names: it is one of them or stands on one of them. */
  predicate Goes(objects: Objects, name: string, names: seq<string>)
    requires name in objects
  {
    name in names || (!Stands(objects[name]) && objects[name].on in names)
  }

  function Kept(objects: Objects, names: seq<string>): Objects {
    map name | name in objects && !Goes(objects, name, names) :: objects[name]
  }

  predicate Distinct(names: seq<string>) {
    forall i, j | 0 <= i < j < |names| :: names[i] != names[j]
  }

  /** The tables among the names. */
  function TablesOf(objects: Objects, names: seq<string>): seq<string> {
    if names == [] then []
    else (if names[0] in objects
      && objects[names[0]].kind.Table? then [names[0]] else []) + TablesOf(objects, names[1..])
  }

  lemma {:induction false} TablesSame(objects: Objects, next: Objects, names: seq<string>)
    requires forall name | name in names ::
               (name in objects <==> name in next) && (name in objects ==> objects[name] == next[name])
    ensures TablesOf(objects, names) == TablesOf(next, names)
  {
    if names != [] {
      assert names[0] in names && forall name | name in names[1..] :: name in names;
      TablesSame(objects, next, names[1..]);
    }
  }

  /**
   * Dropping one name after the other takes them with what stands on them, unless the deletion of their rows is
   * refused.
   */
  lemma {:induction false} DroppedAll(data: Data, names: seq<string>, rules: Rules)
    requires Distinct(names) && forall name | name in names :: name in data.objects && Stands(data.objects[name])
    ensures
      match EmptyingAll(SchemaOf(data.objects, rules), data.rows, TablesOf(data.objects, names), rules.effects)
      case None => Executed(data, names, Dropping(rules)) == None
      case Some(rows) =>
        Executed(data, names, Dropping(rules)) == Some(data.(objects := Kept(data.objects, names), rows := rows))
    decreases |names|
  {
    hide Emptying, SchemaOf;
    if names == [] {
      assert Kept(data.objects, []) == data.objects;
    } else {
      var next, rest := Without(data.objects, names[0]), names[1..];
      assert names == [names[0]] + rest;
      assert forall name | name in rest :: name in names && name != names[0];
      TablesSame(data.objects, next, rest);
      SchemaWithout(data.objects, names[0], rules);
      var tables := TablesOf(data.objects, names);
      assert data.objects[names[0]].kind.Table? ==> tables[0] == names[0] && tables[1..] == TablesOf(next, rest);
      assert !data.objects[names[0]].kind.Table? ==> tables == TablesOf(next, rest);
      var dropped := Drop(data, names[0], rules);
      if dropped.Some? {
        DroppedAll(dropped.value, rest, rules);
        KeptWithout(data.objects, names);
      }
    }
  }

  lemma KeptWithout(objects: Objects, names: seq<string>)
    requires names != [] && names[0] in objects && Stands(objects[names[0]])
    ensures Kept(Without(objects, names[0]), names[1..]) == Kept(objects, names)
  {
    var next, rest := Without(objects, names[0]), names[1..];
    assert names == [names[0]] + rest;
    assert forall name | name in next :: Goes(objects, name, names) <==> Goes(next, name, rest);
    assert forall name | name in objects && name !in next :: Goes(objects, name, names);
  }

  /** The rows the first question answers: the views and tables under the prefix. */
  predicate Lists(names: seq<string>, objects: Objects, prefix: string) {
    && Distinct(names)
    && (forall name | name in names :: name in objects && prefix <= name && Stands(objects[name]))
    && (forall name | name in objects && prefix <= name && Stands(objects[name]) :: name in names)
  }

  /** An object goes with a plugin: it is a view or a table under its prefix or stands on one. */
  predicate GoesWith(objects: Objects, name: string, prefix: string)
    requires name in objects
  {
    var carrier := if Stands(objects[name]) then name else objects[name].on;
    prefix <= carrier && carrier in objects && Stands(objects[carrier])
  }

  function KeptFrom(objects: Objects, prefix: string): Objects {
    map name | name in objects && !GoesWith(objects, name, prefix) :: objects[name]
  }

  /** The data without a plugin: its objects, its version and its preference documents, and what is left of the rows. */
  function Erased(data: Data, plugin: string, prefix: string, rows: Rows): Data {
    Data(KeptFrom(data.objects, prefix),
         data.versions - {plugin},
         map owner | owner in data.settings && !PreferenceStore.Deleted(owner, plugin) :: data.settings[owner],
         rows)
  }

  /** What dropping the tables among the names leaves of the rows, unless SQLite refuses it. */
  function RowsLeft(data: Data, names: seq<string>, rules: Rules): Option<Rows> {
    EmptyingAll(SchemaOf(data.objects, rules), data.rows, TablesOf(data.objects, names), rules.effects)
  }

  /** No table among the names sets off more than its keys when it is dropped. */
  predicate OnlyKeys(data: Data, names: seq<string>, rules: Rules) {
    PlainAll(SchemaOf(data.objects, rules), data.rows, TablesOf(data.objects, names))
  }

  /** Keys and rows let the tables among the names go, in this order. */
  predicate LetGo(data: Data, names: seq<string>, rules: Rules) {
    Free(SchemaOf(data.objects, rules), data.rows, TablesOf(data.objects, names))
  }

  lemma DroppedIsErased(data: Data, names: seq<string>, prefix: string, rules: Rules)
    requires Lists(names, data.objects, prefix)
    ensures
      match RowsLeft(data, names, rules)
      case None => Executed(data, names, Dropping(rules)) == None
      case Some(rows) =>
        Executed(data, names, Dropping(rules)) == Some(data.(objects := KeptFrom(data.objects, prefix), rows := rows))
  {
    hide EmptyingAll, Executed, SchemaOf, TablesOf;
    DroppedAll(data, names, rules);
    assert forall name | name in data.objects :: Goes(data.objects, name, names) <==>
        GoesWith(data.objects, name, prefix);
    assert Kept(data.objects, names) == KeptFrom(data.objects, prefix);
  }

  /**
   * Without triggers, without keys that change rows otherwise and without long cascades, drops set off only their
   * keys.
   */
  lemma OnlyKeysWithout(data: Data, names: seq<string>, rules: Rules, rank: Row -> nat)
    requires forall name | name in data.objects :: !data.objects[name].kind.Trigger?
    requires forall key | key in KeysOf(data.objects, rules) :: !key.action.Other?
    requires Ranked(data.rows.links, rank)
    ensures OnlyKeys(data, names, rules)
  {
    PlainAllWithout(SchemaOf(data.objects, rules), data.rows, TablesOf(data.objects, names), rank);
  }

  /**
   * Where the drops set off nothing but the keys, they are refused, or leave a broken key, exactly when keys and rows
   * do not let the tables go.
   */
  lemma LeftIffLetGo(data: Data, names: seq<string>, rules: Rules)
    requires OnlyKeys(data, names, rules)
    ensures LetGo(data, names, rules) <==>
        RowsLeft(data, names, rules).Some? && RowsLeft(data, names, rules).value.broken == {}
    ensures RowsLeft(data, names, rules).Some? ==>
        RowsLeft(data, names, rules).value == EmptiedAll(data.rows, TablesOf(data.objects, names))
  {
    hide Free, EmptyingAll, EmptiedAll, SchemaOf, TablesOf;
    PlainIsFree(SchemaOf(data.objects, rules), data.rows, TablesOf(data.objects, names), rules.effects);
    if EmptyingAll(SchemaOf(data.objects, rules), data.rows, TablesOf(data.objects, names), rules.effects) == None {
      assert !LetGo(data, names, rules);
    }
  }

  /** A plugin with a table, an index on it and a view, beside a table of another one. */
  function OnePlugin(table: string, index: string, view: string, other: string): Objects {
    map[table := Object(Table, "", "t"), index := Object(Index, table, "i"), view := Object(View, "", "v"),
        other := Object(Table, "", "o")]
  }

  predicate OneEach(prefix: string, table: string, index: string, view: string, other: string) {
    && prefix <= table && prefix <= index && prefix <= view && !(prefix <= other)
    && table != index && table != view && index != view
  }

  /** Its view and its table are listed, each once. */
  lemma OnePluginIsListed(prefix: string, table: string, index: string, view: string, other: string)
    requires OneEach(prefix, table, index, view, other)
    ensures Lists([view, table], OnePlugin(table, index, view, other), prefix)
    ensures !Lists([table], OnePlugin(table, index, view, other), prefix)
  {
    var objects := OnePlugin(table, index, view, other);
    assert view in objects && Stands(objects[view]) && view !in [table];
  }

  lemma OnePluginIsListedOnce(prefix: string, table: string, index: string, view: string, other: string)
    requires OneEach(prefix, table, index, view, other)
    ensures !Lists([table, view, other], OnePlugin(table, index, view, other), prefix)
    ensures !Lists([table, view, table], OnePlugin(table, index, view, other), prefix)
  {
    var more, twice := [table, view, other], [table, view, table];
    assert other in more;
    assert twice[0] == twice[2] && !Distinct(twice);
  }

  /** With them the index goes, which stands on the table. */
  lemma OnePluginGoes(prefix: string, table: string, index: string, view: string, other: string)
    requires OneEach(prefix, table, index, view, other)
    ensures KeptFrom(OnePlugin(table, index, view, other), prefix) == map[other := Object(Table, "", "o")]
    ensures Attached(OnePlugin(table, index, view, other), prefix)
    ensures !Attached(OnePlugin(table, index, view, other) - {table}, prefix)
  {
    var bare := OnePlugin(table, index, view, other) - {table};
    assert index in bare && !Stands(bare[index]) && bare[index].on !in bare;
  }

  /** Every index and every trigger stands on a table or a view, of the same plugin on both sides or on none. */
  predicate Attached(objects: Objects, prefix: string) {
    forall name | name in objects && !Stands(objects[name]) ::
      objects[name].on in objects && Stands(objects[objects[name].on])
          && (prefix <= name <==> prefix <= objects[name].on)
  }

  /** Erasing leaves nothing of the plugin and takes nothing of anybody else. */
  lemma ErasedIsExact(data: Data, plugin: string, prefix: string, names: seq<string>, rows: Rows)
    requires Attached(data.objects, prefix) && Lists(names, data.objects, prefix)
    ensures
      var after := Erased(data, plugin, prefix, rows);
      && Own(after.objects, prefix) == map[] && Others(after.objects, prefix) == Others(data.objects, prefix)
      && Version(after, plugin) == 0 && after.versions - {plugin} == data.versions - {plugin}
      && (forall owner | owner in data.settings :: owner in after.settings <==> !PreferenceStore.Belongs(owner, plugin))
      && (forall owner | owner in after.settings ::
           owner in data.settings && after.settings[owner] == data.settings[owner])
    ensures Apart(data.rows.links, prefix) ==>
              forall link | link in data.rows.links
                  && !(prefix <= link.child.table) :: link in EmptiedAll(data.rows, TablesOf(data.objects, names)).links
  {
    if Apart(data.rows.links, prefix) {
      TablesNamed(data.objects, names);
      OthersKept(data.rows, TablesOf(data.objects, names), prefix);
    }
    forall owner | owner in data.settings
      ensures PreferenceStore.Belongs(owner, plugin) <==> PreferenceStore.Deleted(owner, plugin)
    {
      PreferenceStore.DiscardedIsDeleted(owner, plugin);
    }
  }

  lemma {:induction false} TablesNamed(objects: Objects, names: seq<string>)
    ensures forall table | table in TablesOf(objects, names) :: table in names
  {
    if names != [] {
      TablesNamed(objects, names[1..]);
      assert forall name | name in names[1..] :: name in names;
    }
  }

  /**
   * Where every reference cascades or clears, or is checked at the commit and of a table that goes too, a plugin can
   * be erased exactly if no cascade reaches a table with a key to one that was dropped before.
   */
  lemma CascadesErase(data: Data, names: seq<string>, rules: Rules)
    requires data.rows.broken == {}
        && forall link | link in data.rows.links :: Loose(link, TablesOf(data.objects, names))
    ensures LetGo(data, names, rules) <==> Unstranded(SchemaOf(data.objects, rules), TablesOf(data.objects, names))
  {
    LooseFree(SchemaOf(data.objects, rules), data.rows, TablesOf(data.objects, names));
  }

  /**
   * A standing row of another plugin that refers to a table of the plugin with RESTRICT keeps the plugin from being
   * erased, on a machine without failures too.
   */
  lemma ForeignRowKeeps(data: Data, link: Link, prefix: string, names: seq<string>, rules: Rules)
    requires Lists(names, data.objects, prefix) && data.rows == Rows({link}, {}) && link.action.Restrict?
    requires !(prefix <= link.child.table) && link.parent.table in names && data.objects[link.parent.table].kind.Table?
    ensures !LetGo(data, names, rules)
  {
    var tables := TablesOf(data.objects, names);
    TableListed(data.objects, names, link.parent.table);
    TablesNamed(data.objects, names);
    OutsiderHolds(SchemaOf(data.objects, rules), link, tables);
  }

  lemma {:induction false} TableListed(objects: Objects, names: seq<string>, table: string)
    requires table in names && table in objects && objects[table].kind.Table?
    ensures table in TablesOf(objects, names)
  {
    if names[0] != table {
      TableListed(objects, names[1..], table);
    }
  }

  lemma {:induction false} OutsiderHolds(schema: Schema, link: Link, tables: seq<string>)
    requires link.action.Restrict? && link.parent.table in tables && link.child.table !in tables
    ensures !Free(schema, Rows({link}, {}), tables)
    decreases |tables|
  {
    var rows := Rows({link}, {});
    FreeFirst(schema, rows, tables);
    if tables[0] == link.parent.table {
      ForbidsFromOutside(rows, link);
    } else {
      assert RowsOf(rows, tables[0]) == {};
      DoomedLeast(rows.links, {}, {link.parent, link.child});
      assert Emptied(rows, tables[0]) == rows;
      OutsiderHolds(Dropped(schema, tables[0]), link, tables[1..]);
    }
  }

  /** PluginDatabase::erase: `names` is what the question for the objects of the plugin answers. */
  method Erase(database: Database, plugin: string, prefix: string, names: seq<string>,
      rules: Rules) returns (done: Result<()>)
    requires database.Valid() && Lists(names, database.durable.objects, prefix)
    modifies database
    ensures database.Valid()
    ensures done.Success? ==> RowsLeft(old(database.durable), names, rules).Some?
    ensures done.Success? ==>
              database.durable == Erased(old(database.durable), plugin, prefix,
                  RowsLeft(old(database.durable), names, rules).value) && database.work == None
    ensures done.Failure? ==> database.durable == old(database.durable)
    ensures Calm(database.faults) && old(database.work) == None && !old(database.ended) ==>
              (done.Success? <==>
                RowsLeft(old(database.durable), names, rules).Some?
                  && RowsLeft(old(database.durable), names, rules).value.broken == {})
    ensures done.Success? && OnlyKeys(old(database.durable), names, rules) ==>
        LetGo(old(database.durable), names, rules)
    ensures Calm(database.faults) && old(database.work) == None && !old(database.ended)
            && OnlyKeys(old(database.durable), names, rules) ==>
              (done.Success? <==> LetGo(old(database.durable), names, rules))
  {
    hide Executed, Lists, KeptFrom, RowsLeft, OnlyKeys, LetGo;
    if OnlyKeys(database.durable, names, rules) {
      LeftIffLetGo(database.durable, names, rules);
    }
    var asked := database.Ask();
    if asked.Failure? {
      return asked;
    }
    var begun := database.Begin();
    if begun.Failure? {
      return begun;
    }
    DroppedIsErased(database.durable, names, prefix, rules);
    var dropped := ExecuteAll(database, names, Dropping(rules));
    if dropped.Failure? {
      var failed := database.Rollback(dropped.at);
      return Failure(failed);
    }
    var forgotten := database.Execute((data: Data) => Some(data.(versions := data.versions - {plugin})));
    if forgotten.Failure? {
      var failed := database.Rollback(forgotten.at);
      return Failure(failed);
    }
    var erased := database.Execute((data: Data) =>
      Some(data.(settings := map owner | owner in data.settings
          && !PreferenceStore.Deleted(owner, plugin) :: data.settings[owner])));
    if erased.Failure? {
      var failed := database.Rollback(erased.at);
      return Failure(failed);
    }
    var committed := database.Commit();
    if committed.Failure? {
      var failed := database.Rollback(committed.at);
      return Failure(failed);
    }
    return Success(());
  }

  // ----- Whose rows can refuse an erase --------------------------------------------------------------------

  /** Every foreign key joins two tables of one of the plugins. */
  predicate WithinPlugins(objects: Objects, plugins: set<string>, rules: Rules) {
    forall key | key in KeysOf(objects, rules) :: WithinOne(key, plugins)
  }

  predicate WithinOne(key: Key, plugins: set<string>) {
    exists plugin | plugin in plugins :: PluginNamespace.TablePrefix(plugin) <= key.child
        && PluginNamespace.TablePrefix(plugin) <= key.parent
  }

  predicate Identifiers(plugins: set<string>) {
    forall plugin | plugin in plugins :: PluginNamespace.ValidIdentifier(plugin)
  }

  lemma SomeIdentifiers()
    ensures Identifiers({}) && Identifiers({"keeper"}) && !Identifiers({"keeper", "a--b"})
  {
    PluginNamespace.Identifiers();
    assert "a--b" in {"keeper", "a--b"};
  }

  /**
   * What changes the database: a migration of a plugin, statements that leave the schema alone, the erasure of a
   * plugin.
   */
  datatype Act = Migrating(plugin: string, version: int, statements: seq<Sql>) | Writing | Erasing(plugin: string)

  predicate Leads(before: Data, act: Act, after: Data, plugins: set<string>, rules: Rules) {
    match act
    case Migrating(plugin, version, statements) =>
      plugin in plugins && Step(before, plugin, PluginNamespace.TablePrefix(plugin), version, statements, rules) ==
          Some(after)
    case Writing => after.objects == before.objects
    case Erasing(plugin) => after.objects == KeptFrom(before.objects, PluginNamespace.TablePrefix(plugin))
  }

  /** One act leads from each data to the next. */
  predicate History(steps: seq<Data>, acts: seq<Act>, plugins: set<string>, rules: Rules) {
    |steps| == |acts| + 1 && forall k | 0 <= k < |acts| :: Leads(steps[k], acts[k], steps[k + 1], plugins, rules)
  }

  /** A history begins anywhere and goes on with every migration that succeeds, every write and every erasure. */
  lemma HistoryGoesOn(steps: seq<Data>, acts: seq<Act>, act: Act, after: Data, plugins: set<string>, rules: Rules)
    ensures History([after], [], plugins, rules)
    ensures |steps| == |acts| + 1 ==>
              (History(steps + [after], acts + [act], plugins, rules) <==>
                History(steps, acts, plugins, rules) && Leads(steps[|acts|], act, after, plugins, rules))
    ensures |steps| == |acts| + 1 ==>
              var last := steps[|acts|];
              && Leads(last, Writing, last.(rows := after.rows), plugins, rules)
              && (forall plugin, version, statements | plugin in plugins
                    && Step(last, plugin, PluginNamespace.TablePrefix(plugin), version, statements, rules) ==
                        Some(after) ::
                      Leads(last, Migrating(plugin, version, statements), after, plugins, rules))
              && (forall plugin | after == Erased(last, plugin, PluginNamespace.TablePrefix(plugin), after.rows) ::
                    Leads(last, Erasing(plugin), after, plugins, rules))
  {
    hide Step, KeptFrom;
    if |steps| == |acts| + 1 {
      var further, more := steps + [after], acts + [act];
      forall k | 0 <= k < |acts|
        ensures Leads(further[k], more[k], further[k + 1], plugins, rules) ==
            Leads(steps[k], acts[k], steps[k + 1], plugins, rules)
      {
      }
      assert more[|acts|] == act && further[|acts|] == steps[|acts|] && further[|acts| + 1] == after;
      if History(further, more, plugins, rules) {
        assert forall k | 0 <= k < |acts| :: Leads(further[k], more[k], further[k + 1], plugins, rules);
      }
    }
  }

  lemma LeadsWithin(before: Data, act: Act, after: Data, plugins: set<string>, rules: Rules)
    requires WithinPlugins(before.objects, plugins, rules) && Leads(before, act, after, plugins, rules)
    ensures WithinPlugins(after.objects, plugins, rules)
  {
    hide Executed, Applied, WithinOne;
    forall key | key in KeysOf(after.objects, rules)
      ensures WithinOne(key, plugins)
    {
      if act.Migrating? {
        var prefix := PluginNamespace.TablePrefix(act.plugin);
        MigratedKeys(before, act.plugin, prefix, act.version, act.statements, rules, key);
        if prefix <= key.child && prefix <= key.parent {
          OwnKeyWithin(key, act.plugin, plugins);
        }
      } else {
        assert key in KeysOf(before.objects, rules);
      }
    }
  }

  lemma OwnKeyWithin(key: Key, plugin: string, plugins: set<string>)
    requires plugin in plugins && PluginNamespace.TablePrefix(plugin) <= key.child
        && PluginNamespace.TablePrefix(plugin) <= key.parent
    ensures WithinOne(key, plugins)
  {
  }

  lemma MigratedKeys(data: Data, plugin: string, prefix: string, version: int, statements: seq<Sql>, rules: Rules,
      key: Key)
    requires Step(data, plugin, prefix, version, statements, rules).Some?
    requires key in KeysOf(Step(data, plugin, prefix, version, statements, rules).value.objects, rules)
    ensures (prefix <= key.child && prefix <= key.parent) || key in KeysOf(data.objects, rules)
  {
    var after := Step(data, plugin, prefix, version, statements, rules).value;
    ExecutedIsApplied(data, prefix, statements, rules);
    OwnParentsOwn(after.objects, prefix, rules);
    if !(prefix <= key.child) {
      assert key.child in Others(after.objects, prefix) && key.child in Others(data.objects, prefix);
    }
  }

  /** However plugins migrate, write and are erased, every foreign key stays within the plugin that declares it. */
  lemma {:induction false} HistoryWithin(steps: seq<Data>, acts: seq<Act>, plugins: set<string>, rules: Rules)
    requires History(steps, acts, plugins, rules) && WithinPlugins(steps[0].objects, plugins, rules)
    ensures WithinPlugins(steps[|acts|].objects, plugins, rules)
    decreases |acts|
  {
    hide Leads, WithinPlugins;
    if acts != [] {
      assert History(steps[1..], acts[1..], plugins, rules);
      LeadsWithin(steps[0], acts[0], steps[1], plugins, rules);
      HistoryWithin(steps[1..], acts[1..], plugins, rules);
    }
  }

  lemma WithinIsApart(objects: Objects, plugins: set<string>, plugin: string, rules: Rules)
    requires WithinPlugins(objects, plugins, rules) && Identifiers(plugins) && PluginNamespace.ValidIdentifier(plugin)
    ensures KeysApart(KeysOf(objects, rules), PluginNamespace.TablePrefix(plugin))
  {
    hide PluginNamespace.TablePrefix, PluginNamespace.ValidIdentifier, KeysOf;
    forall key | key in KeysOf(objects, rules)
      ensures PluginNamespace.TablePrefix(plugin) <= key.child <==> PluginNamespace.TablePrefix(plugin) <= key.parent
    {
      assert WithinOne(key, plugins);
      var other :| other in plugins && PluginNamespace.TablePrefix(other) <= key.child
          && PluginNamespace.TablePrefix(other) <= key.parent;
      if PluginNamespace.TablePrefix(plugin) <= key.child {
        SamePrefix(plugin, other, key.child);
      } else if PluginNamespace.TablePrefix(plugin) <= key.parent {
        SamePrefix(plugin, other, key.parent);
      }
    }
  }

  lemma SamePrefix(plugin: string, other: string, name: string)
    requires PluginNamespace.ValidIdentifier(plugin) && PluginNamespace.ValidIdentifier(other)
    requires PluginNamespace.TablePrefix(plugin) <= name && PluginNamespace.TablePrefix(other) <= name
    ensures plugin == other
  {
    PluginNamespace.ShorterStarts(PluginNamespace.TablePrefix(plugin), PluginNamespace.TablePrefix(other), name);
    if PluginNamespace.TablePrefix(plugin) <= PluginNamespace.TablePrefix(other) {
      PluginNamespace.PrefixesApart(plugin, other);
    } else {
      PluginNamespace.PrefixesApart(other, plugin);
    }
  }

  /**
   * In every database whose foreign keys come from migrations of plugins, however these migrated, wrote and were
   * erased, no row refers from one plugin to another, and whether a plugin lets go is decided by its own tables and
   * rows alone.
   */
  lemma OnlyOwnRowsRefuse(steps: seq<Data>, acts: seq<Act>, plugins: set<string>, plugin: string, names: seq<string>,
      rules: Rules)
    requires History(steps, acts, plugins, rules) && KeysOf(steps[0].objects, rules) == {}
    requires Identifiers(plugins) && PluginNamespace.ValidIdentifier(plugin)
    requires Declared(KeysOf(steps[|acts|].objects, rules), steps[|acts|].rows) && steps[|acts|].rows.broken == {}
    requires Lists(names, steps[|acts|].objects, PluginNamespace.TablePrefix(plugin))
    ensures
      var last, prefix := steps[|acts|], PluginNamespace.TablePrefix(plugin);
      && Apart(last.rows.links, prefix)
      && (LetGo(last, names, rules) <==>
            Free(OwnSchema(SchemaOf(last.objects, rules), prefix), OwnRows(last.rows, prefix),
                TablesOf(last.objects, names)))
  {
    hide Free, PluginNamespace.TablePrefix, PluginNamespace.ValidIdentifier, OwnSchema, OwnRows, TablesOf;
    var last, prefix := steps[|acts|], PluginNamespace.TablePrefix(plugin);
    HistoryWithin(steps, acts, plugins, rules);
    WithinIsApart(last.objects, plugins, plugin, rules);
    DeclaredApart(KeysOf(last.objects, rules), last.rows, prefix);
    TablesNamed(last.objects, names);
    OnlyOwnDecide(SchemaOf(last.objects, rules), last.rows, TablesOf(last.objects, names), prefix);
  }

  // ----- The name in a statement ---------------------------------------------------------------------------

  function Quoted(name: string): string {
    if name == "" then "" else (if name[0] == '"' then "\"\"" else [name[0]]) + Quoted(name[1..])
  }

  lemma {:induction false} QuotedAppended(name: string, last: char)
    ensures Quoted(name + [last]) == Quoted(name) + if last == '"' then "\"\"" else [last]
  {
    if name == "" {
      assert Quoted([last]) == (if last == '"' then "\"\"" else [last]) + Quoted([last][1..]);
    } else {
      assert (name + [last])[1..] == name[1..] + [last];
      QuotedAppended(name[1..], last);
      Associative(if name[0] == '"' then "\"\"" else [name[0]], Quoted(name[1..]), if last == '"' then "\"\""
          else [last]);
    }
  }

  /** The loop of erase that quotes the name of an object. */
  method Quote(name: string) returns (quoted: string)
    ensures quoted == Quoted(name)
  {
    quoted := "";
    assert name[..0] == "";
    for k := 0 to |name|
      invariant quoted == Quoted(name[..k])
    {
      assert name[..k + 1] == name[..k] + [name[k]];
      QuotedAppended(name[..k], name[k]);
      quoted := quoted + if name[k] == '"' then "\"\"" else [name[k]];
    }
    assert name[..|name|] == name;
  }

  /** How SQL reads a quoted identifier behind its opening quote: up to a quote that no other quote follows. */
  function ReadIdentifier(text: string): Option<(string, string)>
    decreases |text|
  {
    if text == "" then None
    else if text[0] != '"' then
      match ReadIdentifier(text[1..])
      case None => None
      case Some(pair) => Some(([text[0]] + pair.0, pair.1))
    else if |text| > 1 && text[1] == '"' then
      match ReadIdentifier(text[2..])
      case None => None
      case Some(pair) => Some((['"'] + pair.0, pair.1))
    else Some(("", text[1..]))
  }

  /**
   * A quoted name is read back whole, so a DROP names exactly the object that was listed, whatever characters its
   * name holds.
   */
  lemma {:induction false} QuotedReadsBack(name: string, rest: string)
    requires rest == "" || rest[0] != '"'
    ensures ReadIdentifier(Quoted(name) + ("\"" + rest)) == Some((name, rest))
    decreases |name|
  {
    var text := Quoted(name) + ("\"" + rest);
    if name == "" {
      assert text == "\"" + rest;
      assert text[1..] == rest;
    } else {
      var first := if name[0] == '"' then "\"\"" else [name[0]];
      Associative(first, Quoted(name[1..]), "\"" + rest);
      assert text[|first|..] == Quoted(name[1..]) + ("\"" + rest);
      QuotedReadsBack(name[1..], rest);
      assert [name[0]] + name[1..] == name;
    }
  }
}

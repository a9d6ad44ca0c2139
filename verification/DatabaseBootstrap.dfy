/** src/persistence/DatabaseBootstrap.cpp: a staged import that survives a stop between any two renames or removes. */
module DatabaseBootstrap {
  import opened Foundation

  datatype Place = Database | Staged | Backup

  datatype Part = Main | Wal | Shm

  datatype Name = Name(place: Place, part: Part)

  /** The data directory: which database each file belongs to. */
  type Files = map<Name, int>

  // ----- The shapes an import passes through -----------------------------------------------------------

  /** The main file at a place belongs to a database. */
  predicate Holds(files: Files, place: Place, database: int) {
    Name(place, Main) in files && files[Name(place, Main)] == database
  }

  predicate Vacant(files: Files, place: Place) {
    Name(place, Main) !in files
  }

  /** Every log at a place belongs to one database. */
  predicate OwnLogs(files: Files, place: Place, database: int) {
    && (Name(place, Wal) in files ==> files[Name(place, Wal)] == database)
    && (Name(place, Shm) in files ==> files[Name(place, Shm)] == database)
  }

  /**
   * One import: the database it replaces, the one it brings, and what opening the latter answers when the machine
   * does not fail.
   */
  datatype Import = Import(previous: int, imported: int, whole: bool, validates: bool)

  predicate Arrived(files: Files, change: Import) {
    && Holds(files, Database, change.previous) && OwnLogs(files, Database, change.previous)
    && Holds(files, Staged, change.imported) && OwnLogs(files, Staged, change.imported)
    && Vacant(files, Backup)
  }

  predicate SetAside(files: Files, change: Import) {
    && change.whole
    && Vacant(files, Database)
    && Holds(files, Staged, change.imported) && OwnLogs(files, Staged, change.imported)
    && Holds(files, Backup, change.previous) && OwnLogs(files, Backup, change.previous)
  }

  predicate Placed(files: Files, change: Import) {
    && change.whole
    && Holds(files, Database, change.imported) && OwnLogs(files, Database, change.imported)
    && Vacant(files, Staged)
    && Holds(files, Backup, change.previous) && OwnLogs(files, Backup, change.previous)
  }

  predicate Rejected(files: Files, change: Import) {
    && change.whole
    && Vacant(files, Database) && Vacant(files, Staged)
    && Holds(files, Backup, change.previous) && OwnLogs(files, Backup, change.previous)
  }

  /** The database an uninterrupted import ends with. */
  function Winner(change: Import): int {
    if change.whole && change.validates then change.imported else change.previous
  }

  predicate Finished(files: Files, database: int) {
    && Holds(files, Database, database) && OwnLogs(files, Database, database)
    && Vacant(files, Staged) && Vacant(files, Backup)
  }

  /** Where an import stands, whenever it was stopped. */
  predicate Underway(files: Files, change: Import) {
    || Arrived(files, change)
    || SetAside(files, change)
    || Placed(files, change)
    || Rejected(files, change)
    || Finished(files, change.previous)
    || (change.whole && change.validates && Finished(files, change.imported))
  }

  /**
   * The previous database is never without its main file unless the imported one took its place for good, and the
   * three main files never stand together.
   */
  lemma UnderwaySafe(files: Files, change: Import)
    requires Underway(files, change)
    ensures Holds(files, Database, change.previous) || Holds(files, Backup, change.previous)
      || (change.whole && change.validates && Holds(files, Database, change.imported))
    ensures Vacant(files, Database) || Vacant(files, Staged) || Vacant(files, Backup)
    ensures !Vacant(files, Database) ==> OwnLogs(files, Database, files[Name(Database, Main)])
    ensures !Vacant(files, Staged) ==> OwnLogs(files, Staged, files[Name(Staged, Main)])
    ensures !Vacant(files, Backup) ==> OwnLogs(files, Backup, files[Name(Backup, Main)])
  {
  }

  /** The log of the previous database stands beside its main file, at the backup name while that file is there. */
  predicate WithLog(files: Files, change: Import) {
    Name(if Holds(files, Backup, change.previous) then Backup else Database, Wal) in files
  }

  /** What an import comes from and leads to, file by file. */
  lemma ImportOfFiles(previous: int, imported: int, whole: bool, validates: bool)
    requires previous != imported
    ensures
      var change := Import(previous, imported, whole, validates);
      var database, log, staged, backup := Name(Database, Main), Name(Database, Wal), Name(Staged, Main),
          Name(Backup, Main);
      && Arrived(map[database := previous, log := previous, staged := imported], change)
      && WithLog(map[database := previous, log := previous, staged := imported], change)
      && !Arrived(map[database := imported, staged := imported], change)
      && !Arrived(map[database := previous], change)
      && !Arrived(map[database := previous, log := imported, staged := imported], change)
      && !Arrived(map[database := previous, staged := imported, backup := previous], change)
      && Finished(map[database := imported], imported) && !Finished(map[database := previous], imported)
      && !Finished(map[database := imported, backup := previous], imported)
      && (Underway(map[database := imported], change) <==> whole && validates)
      && (Winner(change) == imported <==> whole && validates) && (Winner(change) == previous <==> !(whole && validates))
  {
  }

  // ----- What a removal or a move leaves when it stops -----------------------------------------------------

  /** After the first `steps` removes of removeDatabase. */
  function Removing(files: Files, place: Place, steps: nat): Files {
    if steps == 0 then files
    else if steps == 1 then files - {Name(place, Main)}
    else if steps == 2 then files - {Name(place, Main), Name(place, Wal)}
    else files - {Name(place, Main), Name(place, Wal), Name(place, Shm)}
  }

  function Renamed(files: Files, from: Place, to: Place, part: Part): Files {
    if Name(from, part) in files then (files - {Name(from, part)})[Name(to, part) := files[Name(from, part)]] else files
  }

  /** After the first `steps` steps of moveDatabase: three removes, the main file and its two logs. */
  function Moving(files: Files, from: Place, to: Place, steps: nat): Files {
    var cleared := Removing(files, to, steps);
    if steps <= 3 then cleared
    else
      var main := Renamed(cleared, from, to, Main);
      if steps == 4 then main
      else
        var wal := Renamed(main, from, to, Wal);
        if steps == 5 then wal else Renamed(wal, from, to, Shm)
  }

  /**
   * Setting the previous database aside. Its log is left behind by the stop between its main file and the log, and by
   * no other.
   */
  lemma SettingAside(files: Files, change: Import, steps: nat)
    requires Arrived(files, change) && change.whole && steps <= 6
    ensures if steps <= 3 then Arrived(Moving(files, Database, Backup, steps), change)
        else SetAside(Moving(files, Database, Backup, steps), change)
    ensures WithLog(Moving(files, Database, Backup, steps), change) <==> WithLog(files, change) && steps != 4
  {
  }

  /** Putting the imported database in place. */
  lemma Placing(files: Files, change: Import, steps: nat)
    requires SetAside(files, change) && steps <= 6
    ensures if steps <= 3 then SetAside(Moving(files, Staged, Database, steps), change)
        else Placed(Moving(files, Staged, Database, steps), change)
    ensures WithLog(Moving(files, Staged, Database, steps), change) <==> WithLog(files, change)
  {
  }

  /** Removing a rejected database and putting the previous one back. */
  lemma Rejecting(files: Files, change: Import, steps: nat)
    requires (Placed(files, change) || Rejected(files, change)) && steps <= 3
    ensures if steps == 0 then Removing(files, Database, steps) == files
        else Rejected(Removing(files, Database, steps), change)
    ensures WithLog(Removing(files, Database, steps), change) <==> WithLog(files, change)
  {
  }

  lemma Restoring(files: Files, change: Import, steps: nat)
    requires Rejected(files, change) && steps <= 6
    ensures if steps <= 3 then Rejected(Moving(files, Backup, Database, steps), change)
        else Finished(Moving(files, Backup, Database, steps), change.previous)
    ensures WithLog(Moving(files, Backup, Database, steps), change) <==> WithLog(files, change) && steps != 4
  {
  }

  /**
   * Removing the backup of an accepted import, or a staged file that is not whole, which puts an import back that had
   * begun.
   */
  lemma Closing(files: Files, change: Import, steps: nat)
    requires 1 <= steps <= 3
    ensures Placed(files, change) ==> Finished(Removing(files, Backup, steps), change.imported)
    ensures Arrived(files, change) ==> Finished(Removing(files, Staged, steps), change.previous)
    ensures SetAside(files, change) ==> Rejected(Removing(files, Staged, steps), change)
    ensures WithLog(Removing(files, Staged, steps), change) <==> WithLog(files, change)
  {
  }

  /** An import rejected without a stop leaves the previous database with its log. */
  function Uninterrupted(files: Files): Files {
    Moving(Removing(Moving(Moving(files, Database, Backup, 6), Staged, Database, 6), Database, 3), Backup, Database, 6)
  }

  /** The same import stopped once, between setting the main file aside and setting its log aside. */
  function StoppedAside(files: Files): Files {
    Moving(Removing(Moving(Moving(files, Database, Backup, 4), Staged, Database, 6), Database, 3), Backup, Database, 6)
  }

  /** The same import stopped once, between putting the main file back and putting its log back. */
  function StoppedBack(files: Files): Files {
    Moving(Removing(Moving(Moving(files, Database, Backup, 6), Staged, Database, 6), Database, 3), Backup, Database, 4)
  }

  lemma RejectedAfter(files: Files, change: Import, aside: nat)
    requires Arrived(files, change) && change.whole && Name(Database, Wal) in files && 4 <= aside <= 6
    ensures
      var rejected := Removing(Moving(Moving(files, Database, Backup, aside), Staged, Database, 6), Database, 3);
      && Finished(Moving(rejected, Backup, Database, 6), change.previous)
          && (Name(Database, Wal) in Moving(rejected, Backup, Database, 6) <==> aside != 4)
      && Finished(Moving(rejected, Backup, Database, 4), change.previous)
          && Name(Database, Wal) !in Moving(rejected, Backup, Database, 4)
  {
    hide Moving, Removing;
    var moved := Moving(files, Database, Backup, aside);
    SettingAside(files, change, aside);
    var placed := Moving(moved, Staged, Database, 6);
    Placing(moved, change, 6);
    Rejecting(placed, change, 3);
    Restoring(Removing(placed, Database, 3), change, 4);
    Restoring(Removing(placed, Database, 3), change, 6);
  }

  /**
   * Either stop costs the previous database the commits of its log, although its main file stands again and the
   * import counts as finished.
   */
  lemma LogIsLost(files: Files, change: Import)
    requires Arrived(files, change) && change.whole && !change.validates && Name(Database, Wal) in files
    ensures Finished(Uninterrupted(files), change.previous) && Name(Database, Wal) in Uninterrupted(files)
    ensures Finished(StoppedAside(files), change.previous) && Name(Database, Wal) !in StoppedAside(files)
    ensures Finished(StoppedBack(files), change.previous) && Name(Database, Wal) !in StoppedBack(files)
  {
    hide Moving, Removing;
    RejectedAfter(files, change, 4);
    RejectedAfter(files, change, 6);
  }

  // ----- One import after another --------------------------------------------------------------------------

  /** The next import begins like the first exactly when no log of another database stands at the staged name. */
  lemma NextArrives(files: Files, next: Import)
    requires Finished(files, next.previous)
    ensures Arrived(files[Name(Staged, Main) := next.imported], next) <==> OwnLogs(files, Staged, next.imported)
  {
  }

  /**
   * Such a log remains when a start is stopped between the imported main file and its log, so that a staged file
   * arrives without companions is not something the moves alone bring about.
   */
  lemma StagedLogMayRemain(files: Files, change: Import)
    requires SetAside(files, change) && Name(Staged, Wal) in files
    ensures var stopped := Moving(files, Staged, Database, 4);
      && Placed(stopped, change)
      && Finished(Removing(stopped, Backup, 3), change.imported)
      && !OwnLogs(Removing(stopped, Backup, 3), Staged, change.imported + 1)
  {
    Placing(files, change, 4);
    Closing(Moving(files, Staged, Database, 4), change, 3);
  }

  datatype Outcome = Applied | Noticed | Stopped

  /**
   * The start of the product over one data directory. `strength` is how many renames and removes go through before
   * the start is stopped, by a crash or by an operation that fails: both leave the directory as it is and run nothing
   * more of the import.
   */
  class Directory {
    var files: Files
    var strength: nat
    ghost var validated: set<int>   // every database that ever validated at the database name
    ghost var failed: bool          // whether a file that holds a good database was ever not opened
    ghost var severed: set<int>     // every database whose move stopped between its main file and its log

    constructor (files: Files)
      ensures this.files == files && strength == 0 && validated == {} && severed == {} && !failed
    {
      this.files, strength, validated, severed, failed := files, 0, {}, {}, false;
    }

    method Remove(name: Name) returns (done: bool)
      modifies this`files, this`strength
      ensures files == if done then old(files) - {name} else old(files)
      ensures strength == old(strength) - (if done then 1 else 0) && (done <==> old(strength) > 0)
    {
      if strength == 0 {
        return false;
      }
      strength := strength - 1;
      files := files - {name};
      return true;
    }

    method Rename(from: Name, to: Name) returns (done: bool)
      modifies this`files, this`strength
      ensures done ==> from in old(files) && files == (old(files) - {from})[to := old(files)[from]]
      ensures !done ==> files == old(files)
      ensures strength == old(strength) - (if done then 1 else 0) && (done <==> from in old(files) && old(strength) > 0)
    {
      if strength == 0 || from !in files {
        return false;
      }
      strength := strength - 1;
      files := (files - {from})[to := files[from]];
      return true;
    }

    method RemoveDatabase(place: Place) returns (done: bool, ghost steps: nat)
      modifies this`files, this`strength
      ensures files == Removing(old(files), place, steps) && steps <= 3 && (done <==> steps == 3)
      ensures strength + steps == old(strength) && (!done ==> strength == 0)
    {
      steps := 0;
      done := Remove(Name(place, Main));
      if !done {
        return;
      }
      steps := 1;
      done := Remove(Name(place, Wal));
      if !done {
        return;
      }
      steps := 2;
      assert files == Removing(old(files), place, 2);
      done := Remove(Name(place, Shm));
      if !done {
        return;
      }
      steps := 3;
      assert files == Removing(old(files), place, 3);
    }

    method MoveDatabase(from: Place, to: Place) returns (done: bool, ghost steps: nat)
      requires from != to && Name(from, Main) in files
      modifies this`files, this`strength, this`severed
      ensures severed == old(severed)
          + (if steps == 4 && Name(from, Wal) in old(files) then {old(files)[Name(from, Main)]} else {})
      ensures files == Moving(old(files), from, to, steps) && steps <= 6 && (done <==> steps == 6)
      ensures strength + steps >= old(strength) && (!done ==> strength == 0)
    {
      done, steps := RemoveDatabase(to);
      if !done {
        return;
      }
      done := Rename(Name(from, Main), Name(to, Main));
      if !done {
        return;
      }
      steps := 4;
      if Name(from, Wal) in files {
        done := Rename(Name(from, Wal), Name(to, Wal));
        if !done {
          severed := severed + {files[Name(to, Main)]};
          return;
        }
      }
      steps := 5;
      if Name(from, Shm) in files {
        done := Rename(Name(from, Shm), Name(to, Shm));
        if !done {
          return;
        }
      }
      steps := 6;
    }

    /** Opening a database may leave its own logs beside it, and it is never done beside the log of another one. */
    method Open(place: Place)
      requires Name(place, Main) in files && OwnLogs(files, place, files[Name(place, Main)])
      modifies this`files
      ensures forall name | name !in {Name(place, Wal), Name(place, Shm)} ::
                (name in files <==> name in old(files)) && (name in files ==> files[name] == old(files)[name])
      ensures OwnLogs(files, place, old(files)[Name(place, Main)])
    {
      var database := files[Name(place, Main)];
      var wal: bool, shm: bool := *, *;
      files := files - {Name(place, Wal), Name(place, Shm)};
      if wal {
        files := files[Name(place, Wal) := database];
      }
      if shm {
        files := files[Name(place, Shm) := database];
      }
    }

    /**
     * Opening the imported database at its place; a failure of the machine is answered like a database that does not
     * validate.
     */
    method OpenValidated(change: Import) returns (valid: bool)
      requires Placed(files, change)
      modifies this`files, this`validated, this`failed
      ensures Placed(files, change) && (WithLog(files, change) <==> old(WithLog(files, change)))
      ensures valid ==> change.validates
      ensures failed == (old(failed) || (!valid && change.validates))
      ensures validated == old(validated) + (if valid then {change.imported} else {})
    {
      Open(Database);
      var opens: bool := *;
      valid := opens && change.validates;
      if valid {
        validated := validated + {change.imported};
      }
      failed := failed || (!valid && change.validates);
    }

    /** Looking at the staged file; a failure of the machine is answered like a file that is not whole. */
    method Whole(change: Import) returns (whole: bool)
      requires Arrived(files, change) || SetAside(files, change)
      modifies this`files, this`failed
      ensures whole ==> change.whole
      ensures failed == (old(failed) || (!whole && change.whole))
      ensures old(Arrived(files, change)) ==> Arrived(files, change)
      ensures old(SetAside(files, change)) ==> SetAside(files, change)
      ensures WithLog(files, change) <==> old(WithLog(files, change))
    {
      Open(Staged);
      var opens: bool := *;
      whole := opens && change.whole;
      failed := failed || (!whole && change.whole);
    }

    /**
     * Unless the imported database took its place for good, the previous one stands with the log it arrived with,
     * exactly when no move of it stopped between its main file and that log.
     */
    ghost predicate Accounted(change: Import, log: bool)
      reads this
    {
      Finished(files, change.imported) || (WithLog(files, change) <==> log && change.previous !in severed)
    }

    /**
     * The import is decided as its content says unless a file could not be opened, and the imported database only
     * after it validated.
     */
    ghost predicate Decided(change: Import)
      reads this
    {
      && (Rejected(files, change) ==> failed || !change.validates)
      && (Finished(files, change.previous) ==> failed || Winner(change) == change.previous)
      && (Finished(files, change.imported) ==> change.imported in validated)
    }

    ghost predicate Ongoing(change: Import, log: bool)
      reads this
    {
      change.imported != change.previous && Underway(files, change) && Accounted(change, log) && Decided(change)
    }

    /** The rejected database is removed before the backup comes back. */
    method Restore(change: Import, ghost log: bool) returns (outcome: Outcome)
      requires (Placed(files, change) || Rejected(files, change)) && (failed || !change.validates)
      requires Ongoing(change, log)
      modifies this`files, this`strength, this`severed
      ensures Ongoing(change, log)
      ensures outcome == Noticed || outcome == Stopped
      ensures outcome == Noticed ==> Finished(files, change.previous)
      ensures outcome == Stopped ==> old(strength) < 9
    {
      ghost var before := files;
      var removed, steps := RemoveDatabase(Database);
      Rejecting(before, change, steps);
      if !removed {
        return Stopped;
      }
      before := files;
      var restored, moved := MoveDatabase(Backup, Database);
      Restoring(before, change, moved);
      return if restored then Noticed else Stopped;
    }

    method RemoveBackup(change: Import, ghost log: bool) returns (outcome: Outcome)
      requires Placed(files, change) && change.validates && change.imported in validated
      requires Ongoing(change, log)
      modifies this`files, this`strength
      ensures Ongoing(change, log) && (outcome == Applied || outcome == Stopped)
      ensures outcome == Applied ==> Finished(files, change.imported)
      ensures outcome == Stopped ==> old(strength) < 3
    {
      ghost var before := files;
      var removed, steps := RemoveDatabase(Backup);
      if steps > 0 {
        Closing(before, change, steps);
      }
      return if removed then Applied else Stopped;
    }

    /** A staged file that is not whole is dropped, and an import that had begun is put back. */
    method DropStaged(change: Import, ghost log: bool, hasBackup: bool) returns (outcome: Outcome)
      requires Arrived(files, change) || SetAside(files, change)
      requires failed || !change.whole
      requires Ongoing(change, log) && hasBackup == !Vacant(files, Backup)
      modifies this`files, this`strength, this`severed
      ensures Ongoing(change, log)
      ensures outcome == Noticed || outcome == Stopped
      ensures outcome == Noticed ==> Finished(files, change.previous)
      ensures outcome == Stopped ==> old(strength) < 12
    {
      ghost var before := files;
      var removed, steps := RemoveDatabase(Staged);
      if steps > 0 {
        Closing(before, change, steps);
      }
      if !removed {
        return Stopped;
      }
      if hasBackup {
        outcome := Restore(change, log);
        return;
      }
      return Noticed;
    }

    /** Neither a staged nor a backup main file is there. */
    predicate NoImport()
      reads this
    {
      Vacant(files, Staged) && Vacant(files, Backup)
    }

    /**
     * Wherever the import stands, a run of this either is stopped with the import still underway or finishes it. Where
     * there is none it changes nothing and tells nothing.
     */
    method ApplyStagedImport(change: Import, ghost log: bool) returns (outcome: Outcome)
      requires NoImport() || Ongoing(change, log)
      modifies this
      ensures old(NoImport()) ==>
                outcome == Applied && files == old(files) && strength == old(strength) && failed == old(failed)
                && validated == old(validated) && severed == old(severed)
      ensures old(Ongoing(change, log)) ==> Ongoing(change, log)
      ensures !old(NoImport()) && outcome != Stopped ==>
                Finished(files, if outcome == Applied then change.imported else change.previous)
      ensures old(Ongoing(change, log)) && outcome != Stopped && !failed ==> Finished(files, Winner(change))
      ensures outcome == Stopped ==> old(strength) < 21
      ensures old(failed) ==> failed
    {
      var hasStaged, hasBackup := Name(Staged, Main) in files, Name(Backup, Main) in files;
      if hasBackup && !hasStaged {
        if Name(Database, Main) in files {
          var valid := OpenValidated(change);
          if valid {
            outcome := RemoveBackup(change, log);
            return;
          }
        }
        outcome := Restore(change, log);
        return;
      }
      if !hasStaged {
        return Applied;
      }
      var whole := Whole(change);
      if !whole {
        outcome := DropStaged(change, log, hasBackup);
        return;
      }
      outcome := Replace(change, log, hasBackup);
    }

    /** The staged database takes the place of the previous one, and gives it back when it does not validate. */
    method Replace(change: Import, ghost log: bool, hasBackup: bool) returns (outcome: Outcome)
      requires (Arrived(files, change) && change.whole) || SetAside(files, change)
      requires Ongoing(change, log) && hasBackup == !Vacant(files, Backup)
      modifies this
      ensures Ongoing(change, log)
      ensures outcome == Applied ==> Finished(files, change.imported)
      ensures outcome == Noticed ==> Finished(files, change.previous)
      ensures outcome == Stopped ==> old(strength) < 21
      ensures old(failed) ==> failed
    {
      if Name(Database, Main) in files && !hasBackup {
        ghost var before := files;
        var moved, steps := MoveDatabase(Database, Backup);
        SettingAside(before, change, steps);
        if !moved {
          return Stopped;
        }
      }
      ghost var before := files;
      var placed, steps := MoveDatabase(Staged, Database);
      Placing(before, change, steps);
      if !placed {
        return Stopped;
      }
      var valid := OpenValidated(change);
      if valid {
        outcome := RemoveBackup(change, log);
        return;
      }
      outcome := Restore(change, log);
    }

    /**
     * DatabaseBootstrap::open up to the first opening: the database the import left, beside its own log, and a notice
     * exactly when an import was underway that did not end with the imported database.
     */
    method Start(change: Import, ghost log: bool) returns (database: Option<int>, notice: bool, ghost beside: bool)
      requires Ongoing(change, log)
      modifies this
      ensures Underway(files, change) && Decided(change)
      ensures database.Some? ==>
                Finished(files, database.value)
                    && (database.value == change.previous || database.value == change.imported)
      ensures database.Some? && !failed ==> database.value == Winner(change)
      ensures database.Some? ==> (notice <==> !old(NoImport()) && database.value != change.imported)
      ensures old(NoImport()) ==> database.Some? && Holds(old(files), Database, database.value)
      ensures database == Some(change.previous) ==> (beside <==> log && change.previous !in severed)
      ensures database.None? ==> old(strength) < 21 && !notice
    {
      var outcome := ApplyStagedImport(change, log);
      beside := Name(Database, Wal) in files;
      notice := outcome == Noticed;
      if outcome == Stopped {
        return None, false, beside;
      }
      database := Some(files[Name(Database, Main)]);
      Open(Database);
    }

    /**
     * Any number of starts, each stopped anywhere: until one finishes, the previous main file stands at the database
     * or the backup name or the imported one has validated; the first that finishes leaves the main file an
     * uninterrupted start would, unless a file could not be opened on the way, and then still one of the two. When
     * that is the previous one, the log it arrived with stands beside it exactly when no move of it stopped between
     * the main file and the log.
     */
    method Starts(change: Import, strengths: seq<nat>) returns (finished: bool)
      requires Arrived(files, change) && change.imported != change.previous && validated == {} && severed == {}
          && !failed
      modifies this
      ensures Underway(files, change)
      ensures Holds(files, Database, change.previous) || Holds(files, Backup, change.previous)
          || (Holds(files, Database, change.imported) && change.imported in validated)
      ensures finished ==>
                Finished(files, change.previous) || (Finished(files, change.imported) && change.imported in validated)
      ensures finished && !failed ==> Finished(files, Winner(change))
      ensures finished && Holds(files, Database, change.previous) ==>
                (Name(Database, Wal) in files <==> Name(Database, Wal) in old(files) && change.previous !in severed)
      ensures (exists k | 0 <= k < |strengths| :: strengths[k] >= 21) ==> finished
    {
      finished := false;
      ghost var log := Name(Database, Wal) in files;
      for k := 0 to |strengths|
        invariant Ongoing(change, log)
        invariant !finished && forall j | 0 <= j < k :: strengths[j] < 21
      {
        strength := strengths[k];
        var outcome := ApplyStagedImport(change, log);
        if outcome != Stopped {
          UnderwaySafe(files, change);
          return true;
        }
      }
      UnderwaySafe(files, change);
    }
  }
}

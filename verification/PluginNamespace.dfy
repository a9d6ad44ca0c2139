/**
 * src/scripting/Identifier.cpp, the prefix of src/persistence/PluginDatabase.cpp and
 * src/persistence/PluginAuthorizer.cpp: every plugin keeps to the tables under its own prefix.
 */
module PluginNamespace {
  import opened Foundation

  // ----- Identifiers and prefixes ------------------------------------------------------------------

  /** Two characters of a kind stand side by side. */
  predicate Doubled(text: string, character: char) {
    exists k | 0 <= k < |text| - 1 :: text[k] == character && text[k + 1] == character
  }

  /** Identifier::valid. */
  predicate ValidIdentifier(identifier: string) {
    && identifier != "" && identifier[0] != '-' && identifier[|identifier| - 1] != '-' && !Doubled(identifier, '-')
    && forall k | 0 <= k < |identifier| :: 'a' <= identifier[k] <= 'z' || '0' <= identifier[k] <= '9'
        || identifier[k] == '-'
  }

  function Underscored(identifier: string): (text: string)
    ensures |text| == |identifier|
    ensures forall k | 0 <= k < |identifier| :: text[k] == if identifier[k] == '-' then '_' else identifier[k]
  {
    seq(|identifier|, k requires 0 <= k < |identifier| => if identifier[k] == '-' then '_' else identifier[k])
  }

  /** PluginDatabase::tablePrefix. */
  function TablePrefix(plugin: string): string {
    Underscored(plugin) + "__"
  }

  /** PluginAuthorizer::owned; a name may be missing. */
  predicate Owned(name: Option<string>, prefix: string) {
    name.Some? && |name.value| > |prefix| && prefix <= name.value
  }

  /** A prefix that starts a longer one puts hyphens into its identifier. */
  lemma HyphensBehind(plugin: string, other: string)
    requires TablePrefix(plugin) <= TablePrefix(other) && |plugin| < |other| && '_' !in other
    ensures other[|plugin|] == '-'
    ensures |plugin| + 1 < |other| ==> other[|plugin| + 1] == '-'
  {
    var longer := TablePrefix(other);
    assert longer[|plugin|] == TablePrefix(plugin)[|plugin|]
        && longer[|plugin| + 1] == TablePrefix(plugin)[|plugin| + 1];
    assert longer[|plugin|] == Underscored(other)[|plugin|];
    assert |plugin| + 1 < |other| ==> longer[|plugin| + 1] == Underscored(other)[|plugin| + 1];
  }

  lemma SameUnderscored(plugin: string, other: string)
    requires '_' !in plugin && '_' !in other && Underscored(plugin) == Underscored(other)
    ensures plugin == other
  {
    forall k | 0 <= k < |plugin|
      ensures plugin[k] == other[k]
    {
      assert Underscored(plugin)[k] == Underscored(other)[k];
      assert plugin[k] in plugin && other[k] in other;
    }
  }

  lemma NoUnderscore(identifier: string)
    requires ValidIdentifier(identifier)
    ensures '_' !in identifier
  {
  }

  /** No prefix starts another one. */
  lemma PrefixesApart(plugin: string, other: string)
    requires ValidIdentifier(plugin) && ValidIdentifier(other) && TablePrefix(plugin) <= TablePrefix(other)
    ensures plugin == other
  {
    NoUnderscore(plugin);
    NoUnderscore(other);
    if |plugin| < |other| {
      HyphensBehind(plugin, other);
    } else {
      assert TablePrefix(other)[..|plugin|] == Underscored(other)
          && TablePrefix(plugin)[..|plugin|] == Underscored(plugin);
      SameUnderscored(plugin, other);
    }
  }

  /** No name is owned by two plugins. */
  lemma NamespacesDisjoint(plugin: string, other: string, name: Option<string>)
    requires ValidIdentifier(plugin) && ValidIdentifier(other) && plugin != other
    ensures !(Owned(name, TablePrefix(plugin)) && Owned(name, TablePrefix(other)))
  {
    if Owned(name, TablePrefix(plugin)) && Owned(name, TablePrefix(other)) {
      ShorterStarts(TablePrefix(plugin), TablePrefix(other), name.value);
      if TablePrefix(plugin) <= TablePrefix(other) {
        PrefixesApart(plugin, other);
      } else {
        PrefixesApart(other, plugin);
      }
    }
  }

  lemma ShorterStarts(left: string, right: string, text: string)
    requires left <= text && right <= text
    ensures left <= right || right <= left
  {
  }

  lemma OwnedIsDoubled(plugin: string, name: string)
    requires Owned(Some(name), TablePrefix(plugin))
    ensures Doubled(name, '_')
  {
    var prefix := TablePrefix(plugin);
    assert name[|plugin|] == prefix[|plugin|] && name[|plugin| + 1] == prefix[|plugin| + 1];
  }

  /** A name without two underscores in a row is owned by no plugin. */
  lemma UndoubledUnowned(plugin: string, name: Option<string>)
    requires name.Some? ==> !Doubled(name.value, '_')
    ensures !Owned(name, TablePrefix(plugin))
  {
    if Owned(name, TablePrefix(plugin)) {
      OwnedIsDoubled(plugin, name.value);
    }
  }

  // ----- The tables nobody owns ------------------------------------------------------------------------

  /** The tables of the core. */
  const CORE: seq<string> := ["core_settings", "core_plugin_schemas"]

  const SCHEMA: seq<string> := ["sqlite_master", "sqlite_schema", "sqlite_temp_master", "sqlite_temp_schema"]

  predicate Named(name: Option<string>, expected: string) {
    name == Some(expected)
  }

  predicate SchemaTable(name: Option<string>) {
    name.Some? && name.value in SCHEMA
  }

  predicate InternalTable(name: Option<string>) {
    SchemaTable(name) || Named(name, "sqlite_sequence") || Named(name, "pragma_quick_check")
  }

  predicate AutomaticIndex(name: Option<string>) {
    name.Some? && "sqlite_autoindex_" <= name.value
  }

  lemma CoreUndoubled()
    ensures forall name | name in CORE :: !Doubled(name, '_')
  {
    assert !Doubled("core_settings", '_');
    assert !Doubled("core_plugin_schemas", '_');
  }

  lemma SchemaUndoubled()
    ensures forall name | name in SCHEMA :: !Doubled(name, '_')
  {
    assert !Doubled("sqlite_master", '_');
    assert !Doubled("sqlite_schema", '_');
    assert !Doubled("sqlite_temp_master", '_');
    assert !Doubled("sqlite_temp_schema", '_');
  }

  /** No plugin owns a table of the core or one of SQLite. */
  lemma SharedUnowned(plugin: string, name: Option<string>)
    requires InternalTable(name) || (name.Some? && name.value in CORE)
    ensures !Owned(name, TablePrefix(plugin))
  {
    hide Doubled, TablePrefix;
    CoreUndoubled();
    SchemaUndoubled();
    InternalUndoubled();
    UndoubledUnowned(plugin, name);
  }

  lemma InternalUndoubled()
    ensures !Doubled("sqlite_sequence", '_') && !Doubled("pragma_quick_check", '_')
  {
  }

  // ----- The authorizer ------------------------------------------------------------------------------------

  /** What SQLite asks about while it compiles a statement, with the names it hands over. */
  datatype Action =
    | Select
    | Recursive
    | Function(name: Option<string>)
    | Read(table: Option<string>)
    | Change(table: Option<string>)
    | CreateTable(table: Option<string>)
    | DropTable(table: Option<string>)
    | ChangeIndex(index: Option<string>, table: Option<string>)
    | ChangeView(view: Option<string>)
    | ChangeTrigger(trigger: Option<string>, table: Option<string>)
    | AlterTable(table: Option<string>)
    | Reindex(index: Option<string>)
    | Pragma(name: Option<string>, argument: Option<string>)
    | Other

  /** The flags of the authorizer while one statement runs. */
  datatype State = State(migrating: bool, changingSchema: bool, altering: bool, querying: bool)

  function Start(migrating: bool): State {
    State(migrating, false, false, false)
  }

  /** PluginAuthorizer::internalRead. */
  predicate InternalRead(state: State, table: Option<string>) {
    state.changingSchema && InternalTable(table) && (!state.querying || Named(table, "pragma_quick_check"))
  }

  /** What the rules say of the names of an action, before it is asked whether a migration runs. */
  predicate Permitted(state: State, action: Action, prefix: string) {
    match action
    case CreateTable(table) => Owned(table, prefix) || (state.changingSchema && Named(table, "sqlite_sequence"))
    case DropTable(table) => Owned(table, prefix)
    case ChangeIndex(index, table) => (Owned(index, prefix) || AutomaticIndex(index)) && Owned(table, prefix)
    case ChangeView(view) => Owned(view, prefix)
    case ChangeTrigger(trigger, table) => Owned(trigger, prefix) && Owned(table, prefix)
    case AlterTable(table) => Owned(table, prefix)
    case _ => false
  }

  /** The action changes the schema. */
  predicate ChangesSchema(action: Action) {
    action.CreateTable? || action.DropTable? || action.ChangeIndex? || action.ChangeView? || action.ChangeTrigger?
        || action.AlterTable?
  }

  /** PluginAuthorizer::authorize: the flags afterwards and whether the action is granted. */
  function Authorized(state: State, action: Action, prefix: string): (State, bool) {
    match action
    case Select => (state.(querying := state.querying || !state.altering), true)
    case Recursive => (state, true)
    case Function(name) => (state, !Named(name, "sqlite_rename_table"))
    case Read(table) => (state, Owned(table, prefix) || InternalRead(state, table))
    case Change(table) => (state, Owned(table, prefix) || SchemaTable(table)
        || (state.changingSchema && InternalTable(table)))
    case Reindex(index) => (state, state.changingSchema && Owned(index, prefix))
    case Pragma(name, argument) => (state, state.changingSchema && Named(name, "quick_check")
        && Owned(argument, prefix))
    case Other => (state, false)
    case _ =>
      var granted := Permitted(state, action, prefix) && state.migrating;
      (state.(altering := state.altering || action.AlterTable?, changingSchema := state.changingSchema || granted),
          granted)
  }

  // ----- Whole statements ----------------------------------------------------------------------------------

  /** The flags after a list of callbacks, whatever was answered to them. */
  function After(state: State, actions: seq<Action>, prefix: string): State
    decreases |actions|
  {
    if actions == [] then state else After(Authorized(state, actions[0], prefix).0, actions[1..], prefix)
  }

  /** The answer to the last of the callbacks. */
  predicate Granted(migrating: bool, before: seq<Action>, action: Action, prefix: string) {
    Authorized(After(Start(migrating), before, prefix), action, prefix).1
  }

  lemma {:induction false} AfterAppended(state: State, actions: seq<Action>, action: Action, prefix: string)
    ensures After(state, actions + [action], prefix) == Authorized(After(state, actions, prefix), action, prefix).0
    decreases |actions|
  {
    if actions == [] {
      assert [action][1..] == [];
      assert actions + [action] == [action];
    } else {
      assert (actions + [action])[1..] == actions[1..] + [action];
      AfterAppended(Authorized(state, actions[0], prefix).0, actions[1..], action, prefix);
    }
  }

  /** Outside a migration no callback ever changes the schema flag. */
  lemma {:induction false} StatementChangesNothing(state: State, actions: seq<Action>, prefix: string)
    requires !state.migrating && !state.changingSchema
    ensures !After(state, actions, prefix).migrating && !After(state, actions, prefix).changingSchema
    decreases |actions|
  {
    if actions != [] {
      StatementChangesNothing(Authorized(state, actions[0], prefix).0, actions[1..], prefix);
    }
  }

  /**
   * Whatever SQLite asked before: outside a migration a granted read names a table of the plugin, and no change of a
   * schema is granted.
   */
  lemma StatementReadsOwn(before: seq<Action>, action: Action, prefix: string)
    requires Granted(false, before, action, prefix)
    ensures action.Read? ==> Owned(action.table, prefix)
    ensures action.Change? ==> Owned(action.table, prefix) || SchemaTable(action.table)
    ensures !ChangesSchema(action) && !action.Reindex? && !action.Pragma? && !action.Other?
  {
    StatementChangesNothing(Start(false), before, prefix);
  }

  /**
   * Not even a migration reads or writes a table of another plugin or of the core or renames one, and whatever else
   * it names is not another plugin's: an index, a trigger, a view, what is reindexed or checked.
   */
  lemma NobodyElse(migrating: bool, before: seq<Action>, action: Action, plugin: string, other: string)
    requires ValidIdentifier(plugin) && ValidIdentifier(other) && plugin != other
    requires Granted(migrating, before, action, TablePrefix(plugin))
    ensures action.Read? || action.Change? ==>
        !Owned(action.table, TablePrefix(other)) && !(action.table.Some? && action.table.value in CORE)
    ensures (action.CreateTable? || action.DropTable? || action.AlterTable? || action.ChangeIndex?
        || action.ChangeTrigger?) ==>
              !Owned(action.table, TablePrefix(other))
    ensures action.ChangeIndex? ==> !Owned(action.index, TablePrefix(other)) || AutomaticIndex(action.index)
    ensures action.ChangeTrigger? ==> !Owned(action.trigger, TablePrefix(other))
    ensures action.ChangeView? ==> !Owned(action.view, TablePrefix(other))
    ensures action.Reindex? ==> !Owned(action.index, TablePrefix(other))
    ensures action.Pragma? ==> !Owned(action.argument, TablePrefix(other))
    ensures !(action.Function? && Named(action.name, "sqlite_rename_table"))
  {
    hide TablePrefix, Owned, ValidIdentifier;
    if action.ChangeView? {
      NamespacesDisjoint(plugin, other, action.view);
    } else if action.Reindex? {
      NamespacesDisjoint(plugin, other, action.index);
    } else if action.Pragma? {
      NamespacesDisjoint(plugin, other, action.argument);
    } else if action.Read? || action.Change? || ChangesSchema(action) {
      NamespacesDisjoint(plugin, other, action.table);
      if action.ChangeIndex? {
        NamespacesDisjoint(plugin, other, action.index);
      } else if action.ChangeTrigger? {
        NamespacesDisjoint(plugin, other, action.trigger);
      }
      if InternalTable(action.table) {
        SharedUnowned(other, action.table);
        InternalNotCore(action.table);
      }
      if action.table.Some? && action.table.value in CORE {
        SharedUnowned(plugin, action.table);
      }
    }
  }

  lemma InternalNotCore(name: Option<string>)
    requires InternalTable(name)
    ensures name.value !in CORE
  {
    assert "sqlite_master"[0] == 's' && "sqlite_schema"[0] == 's' && "sqlite_temp_master"[0] == 's'
        && "sqlite_temp_schema"[0] == 's';
    assert "sqlite_sequence"[0] == 's' && "pragma_quick_check"[0] == 'p';
    assert "core_settings"[0] == 'c' && "core_plugin_schemas"[0] == 'c';
  }

  /** A flag once set stays set, so what follows a query of the plugin follows it for good. */
  lemma {:induction false} FlagsStay(state: State, actions: seq<Action>, prefix: string)
    ensures After(state, actions, prefix).migrating == state.migrating
    ensures state.querying ==> After(state, actions, prefix).querying
    ensures state.changingSchema ==> After(state, actions, prefix).changingSchema
    ensures state.altering ==> After(state, actions, prefix).altering
    decreases |actions|
  {
    if actions != [] {
      FlagsStay(Authorized(state, actions[0], prefix).0, actions[1..], prefix);
    }
  }

  /**
   * Once the plugin has queried, and not SQLite for an altered column, no schema table is read for the rest of the
   * statement.
   */
  lemma QueryEndsSchemaReads(migrating: bool, before: seq<Action>, between: seq<Action>, table: Option<string>,
      prefix: string)
    requires !After(Start(migrating), before, prefix).altering
    requires Granted(migrating, before + [Select] + between, Read(table), prefix)
    ensures Owned(table, prefix) || Named(table, "pragma_quick_check")
  {
    AfterAppended(Start(migrating), before, Select, prefix);
    var queried := After(Start(migrating), before + [Select], prefix);
    AfterJoined(Start(migrating), before + [Select], between, prefix);
    FlagsStay(queried, between, prefix);
  }

  lemma {:induction false} AfterJoined(state: State, left: seq<Action>, right: seq<Action>, prefix: string)
    ensures After(state, left + right, prefix) == After(After(state, left, prefix), right, prefix)
    decreases |left|
  {
    if left == [] {
      assert left + right == right;
    } else {
      assert (left + right)[1..] == left[1..] + right;
      AfterJoined(Authorized(state, left[0], prefix).0, left[1..], right, prefix);
    }
  }

  /**
   * SQLite's own tables are opened only by a granted change of an object of the plugin earlier in the same statement.
   */
  lemma {:induction false} OwnChangeCameFirst(migrating: bool, actions: seq<Action>, prefix: string) returns (at: int)
    requires After(Start(migrating), actions, prefix).changingSchema
    ensures 0 <= at < |actions| && NamesOwn(actions[at], prefix)
        && Granted(migrating, actions[..at], actions[at], prefix)
    decreases |actions|
  {
    hide Owned;
    assert actions != [];
    var last := |actions| - 1;
    assert actions == actions[..last] + [actions[last]];
    AfterAppended(Start(migrating), actions[..last], actions[last], prefix);
    if After(Start(migrating), actions[..last], prefix).changingSchema {
      at := OwnChangeCameFirst(migrating, actions[..last], prefix);
      assert actions[..last][..at] == actions[..at];
    } else {
      at := last;
    }
  }

  // ----- What is granted, by the callbacks before ----------------------------------------------------------

  /** A name is owned exactly if something stands behind the prefix. */
  lemma OwnedIffPrefixed(name: string, prefix: string)
    ensures Owned(Some(name), prefix) <==> exists rest: string | rest != "" :: name == prefix + rest
  {
    if Owned(Some(name), prefix) {
      assert name == prefix + name[|prefix|..];
    }
  }

  /** The tables of the schema, by their names, and an index that SQLite names itself. */
  lemma SchemaNames(name: string)
    ensures SchemaTable(Some(name)) <==>
              name == "sqlite_master" || name == "sqlite_schema" || name == "sqlite_temp_master"
                  || name == "sqlite_temp_schema"
    ensures InternalTable(Some(name)) <==>
        SchemaTable(Some(name)) || name == "sqlite_sequence" || name == "pragma_quick_check"
    ensures AutomaticIndex(Some(name)) <==> exists rest: string :: name == "sqlite_autoindex_" + rest
    ensures !SchemaTable(None) && !InternalTable(None) && !AutomaticIndex(None)
  {
    if AutomaticIndex(Some(name)) {
      assert name == "sqlite_autoindex_" + name[|"sqlite_autoindex_"|..];
    }
  }

  /** Some identifiers, and some that are none. */
  lemma Identifiers()
    ensures ValidIdentifier("keeper") && ValidIdentifier("a-1")
    ensures !ValidIdentifier("") && !ValidIdentifier("-a") && !ValidIdentifier("a-") && !ValidIdentifier("a--b")
        && !ValidIdentifier("A") && !ValidIdentifier("a_b")
  {
    assert "a--b"[1] == '-' && "a--b"[2] == '-';
    assert "A"[0] == 'A' && "a_b"[1] == '_';
  }

  /** A change of the schema names only objects of the plugin; the index may be one that SQLite names itself. */
  predicate NamesOwn(action: Action, prefix: string) {
    match action
    case CreateTable(table) => Owned(table, prefix)
    case DropTable(table) => Owned(table, prefix)
    case ChangeIndex(index, table) => (Owned(index, prefix) || AutomaticIndex(index)) && Owned(table, prefix)
    case ChangeView(view) => Owned(view, prefix)
    case ChangeTrigger(trigger, table) => Owned(trigger, prefix) && Owned(table, prefix)
    case AlterTable(table) => Owned(table, prefix)
    case _ => false
  }

  /** A migration has changed an object of the plugin. */
  predicate Opened(migrating: bool, before: seq<Action>, prefix: string) {
    migrating && exists k | 0 <= k < |before| :: NamesOwn(before[k], prefix)
  }

  predicate Altered(before: seq<Action>) {
    exists k | 0 <= k < |before| :: before[k].AlterTable?
  }

  /** The plugin itself has queried: a select came before any change of a column. */
  predicate Queried(before: seq<Action>) {
    exists k | 0 <= k < |before| :: before[k].Select? && !Altered(before[..k])
  }

  /** What SQLite may do, told by what it asked before in the same statement. */
  predicate MayDo(migrating: bool, before: seq<Action>, action: Action, prefix: string) {
    match action
    case Select => true
    case Recursive => true
    case Function(name) => name != Some("sqlite_rename_table")
    case Read(table) =>
      || Owned(table, prefix)
      || (Opened(migrating, before, prefix)
          && (table == Some("pragma_quick_check") || (InternalTable(table) && !Queried(before))))
    case Change(table) =>
      Owned(table, prefix) || SchemaTable(table) || (Opened(migrating, before, prefix) && InternalTable(table))
    case CreateTable(table) =>
      migrating && (Owned(table, prefix) || (Opened(migrating, before, prefix) && table == Some("sqlite_sequence")))
    case Reindex(index) => Opened(migrating, before, prefix) && Owned(index, prefix)
    case Pragma(name, argument) =>
      Opened(migrating, before, prefix) && name == Some("quick_check") && Owned(argument, prefix)
    case Other => false
    case _ => migrating && NamesOwn(action, prefix)
  }

  lemma OpenedAppended(migrating: bool, before: seq<Action>, action: Action, prefix: string)
    ensures Opened(migrating, before + [action], prefix) <==>
              Opened(migrating, before, prefix) || (migrating && NamesOwn(action, prefix))
    ensures Altered(before + [action]) <==> Altered(before) || action.AlterTable?
    ensures Queried(before + [action]) <==> Queried(before) || (action.Select? && !Altered(before))
  {
    hide NamesOwn;
    var after := before + [action];
    assert after[|before|] == action && after[..|before|] == before;
    assert forall k | 0 <= k < |before| :: after[k] == before[k] && after[..k] == before[..k];
    if Opened(migrating, before, prefix) {
      var k :| 0 <= k < |before| && NamesOwn(before[k], prefix);
      assert NamesOwn(after[k], prefix);
    }
    if Altered(before) {
      var k :| 0 <= k < |before| && before[k].AlterTable?;
      assert after[k].AlterTable?;
    }
    if Queried(before) {
      var k :| 0 <= k < |before| && before[k].Select? && !Altered(before[..k]);
      assert after[k].Select?;
    }
  }

  lemma AuthorizedFlags(state: State, action: Action, prefix: string)
    ensures
      var next := Authorized(state, action, prefix).0;
      && next.migrating == state.migrating
      && (state.changingSchema ==> next.changingSchema)
      && (next.changingSchema <==> state.changingSchema || (state.migrating && NamesOwn(action, prefix)))
      && (next.altering <==> state.altering || action.AlterTable?)
      && (next.querying <==> state.querying || (action.Select? && !state.altering))
  {
    hide Owned, InternalTable, SchemaTable, AutomaticIndex;
  }

  /** The flags remember just that. */
  lemma {:induction false} FlagsAreHistory(migrating: bool, before: seq<Action>, prefix: string)
    ensures After(Start(migrating), before, prefix) ==
        State(migrating, Opened(migrating, before, prefix), Altered(before), Queried(before))
    decreases |before|
  {
    hide Opened, Altered, Queried, Authorized;
    if before == [] {
      NothingBefore(migrating, prefix);
    } else {
      var last := |before| - 1;
      assert before == before[..last] + [before[last]];
      FlagsAreHistory(migrating, before[..last], prefix);
      AfterAppended(Start(migrating), before[..last], before[last], prefix);
      AuthorizedFlags(After(Start(migrating), before[..last], prefix), before[last], prefix);
      OpenedAppended(migrating, before[..last], before[last], prefix);
    }
  }

  lemma NothingBefore(migrating: bool, prefix: string)
    ensures !Opened(migrating, [], prefix) && !Altered([]) && !Queried([])
  {
  }

  /** After any callbacks of a statement, SQLite is granted exactly what it may do. */
  lemma GrantedIff(migrating: bool, before: seq<Action>, action: Action, prefix: string)
    ensures Granted(migrating, before, action, prefix) <==> MayDo(migrating, before, action, prefix)
  {
    hide Owned, SchemaTable, AutomaticIndex, Opened, Queried, Altered, After;
    FlagsAreHistory(migrating, before, prefix);
    assert action.Read? && Named(action.table, "pragma_quick_check") ==> InternalTable(action.table);
  }

  /** A plugin reads and writes its own tables in every statement, and outside a migration it reads nothing else. */
  lemma OwnTablesAreGranted(migrating: bool, before: seq<Action>, table: Option<string>, prefix: string)
    ensures Owned(table, prefix) ==>
        Granted(migrating, before, Read(table), prefix) && Granted(migrating, before, Change(table), prefix)
    ensures !migrating ==> (Granted(migrating, before, Read(table), prefix) <==> Owned(table, prefix))
    ensures !migrating ==> (Granted(migrating, before, Change(table), prefix) <==>
        Owned(table, prefix) || SchemaTable(table))
  {
    hide Owned, InternalTable, SchemaTable;
    GrantedIff(migrating, before, Read(table), prefix);
    GrantedIff(migrating, before, Change(table), prefix);
  }

  /**
   * A migration creates, changes and drops whatever is named for the plugin, and nothing else of a schema but the
   * sequence table.
   */
  lemma OwnChangesAreGranted(before: seq<Action>, action: Action, prefix: string)
    requires ChangesSchema(action)
    ensures !Granted(false, before, action, prefix)
    ensures Granted(true, before, action, prefix) <==>
              NamesOwn(action, prefix) || (action == CreateTable(Some("sqlite_sequence"))
                  && Opened(true, before, prefix))
  {
    hide Owned, AutomaticIndex, Opened;
    GrantedIff(false, before, action, prefix);
    GrantedIff(true, before, action, prefix);
  }

  // ----- The object ----------------------------------------------------------------------------------------

  class PluginAuthorizer {
    const prefix: string
    const migrating: bool
    var changingSchema: bool
    var altering: bool
    var querying: bool
    ghost var asked: seq<Action>

    ghost function Abstract(): State
      reads this
    {
      State(migrating, changingSchema, altering, querying)
    }

    /** The flags are what the callbacks so far have made of them. */
    ghost predicate Valid()
      reads this
    {
      Abstract() == After(Start(migrating), asked, prefix)
    }

    constructor (prefix: string, migrating: bool)
      ensures Valid() && this.prefix == prefix && this.migrating == migrating && asked == []
    {
      this.prefix, this.migrating := prefix, migrating;
      changingSchema, altering, querying, asked := false, false, false, [];
    }

    /** changeSchema. */
    method ChangeSchema(permitted: bool) returns (granted: bool)
      modifies this`changingSchema
      ensures granted <==> permitted && migrating
      ensures changingSchema == (old(changingSchema) || granted)
    {
      if !permitted || !migrating {
        return false;
      }
      changingSchema := true;
      return true;
    }

    method Authorize(action: Action) returns (granted: bool)
      requires Valid()
      modifies this
      ensures Valid() && asked == old(asked) + [action]
      ensures granted <==> Granted(migrating, old(asked), action, prefix)
      ensures granted <==> MayDo(migrating, old(asked), action, prefix)
    {
      hide Owned, InternalTable, SchemaTable, After, MayDo;
      AfterAppended(Start(migrating), asked, action, prefix);
      GrantedIff(migrating, asked, action, prefix);
      asked := asked + [action];
      match action
      case Select =>
        querying := querying || !altering;
        return true;
      case Recursive => return true;
      case Function(name) => return !Named(name, "sqlite_rename_table");
      case Read(table) => return Owned(table, prefix)
          || InternalRead(State(migrating, changingSchema, altering, querying), table);
      case Change(table) => return Owned(table, prefix) || SchemaTable(table)
          || (changingSchema && InternalTable(table));
      case CreateTable(table) => granted := ChangeSchema(Owned(table, prefix)
          || (changingSchema && Named(table, "sqlite_sequence")));
      case DropTable(table) => granted := ChangeSchema(Owned(table, prefix));
      case ChangeIndex(index, table) => granted := ChangeSchema((Owned(index, prefix) || AutomaticIndex(index))
          && Owned(table, prefix));
      case ChangeView(view) => granted := ChangeSchema(Owned(view, prefix));
      case ChangeTrigger(trigger, table) => granted := ChangeSchema(Owned(trigger, prefix) && Owned(table, prefix));
      case AlterTable(table) =>
        altering := true;
        granted := ChangeSchema(Owned(table, prefix));
      case Reindex(index) => return changingSchema && Owned(index, prefix);
      case Pragma(name, argument) => return changingSchema && Named(name, "quick_check") && Owned(argument, prefix);
      case Other => return false;
    }
  }
}

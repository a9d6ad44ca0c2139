/**
 * What SQLite does to rows that refer to each other when a table is dropped with foreign keys enforced, as
 * src/persistence/Database.cpp turns them on: its rows are deleted first, with the actions of the keys that refer to
 * them.
 */
module ForeignKeys {
  import opened Foundation

  datatype Row = Row(table: string, key: int)

  /**
   * What a foreign key says of a row whose parent goes. `Restrict` stands also for a SET NULL that the column
   * refuses. `Deferred` is a key without an action that is checked when the transaction commits. `Clear` is a SET
   * NULL of a column that takes part in no other key, and `Other` is any other change of the referring row.
   */
  datatype Action = Restrict | NoAction | Deferred | Cascade | Clear | Other

  /** A key that a table declares, and the table it refers to, which need not stand. */
  datatype Key = Key(child: string, parent: string, action: Action)

  /**
   * A row refers to another one. `later` tells whether a deletion of both deletes the referring row after the other.
   */
  datatype Link = Link(child: Row, parent: Row, action: Action, later: bool)

  /** The tables that stand, the keys they declare, and those of them that carry triggers. */
  datatype Schema = Schema(tables: set<string>, keys: set<Key>, triggered: set<string>)

  /** The references between rows that stand, and those a transaction has broken and a commit would find. */
  datatype Rows = Rows(links: set<Link>, broken: set<Link>)

  const NO_ROWS: Rows := Rows({}, {})

  /** Every reference between rows is one that a key declares. */
  predicate Declared(keys: set<Key>, rows: Rows) {
    forall link | link in rows.links + rows.broken :: Key(link.child.table, link.parent.table, link.action) in keys
  }

  lemma DeclaredLink(keys: set<Key>, link: Link)
    ensures Declared(keys, NO_ROWS)
    ensures Declared(keys, Rows({link}, {})) <==> Key(link.child.table, link.parent.table, link.action) in keys
  {
    assert link in Rows({link}, {}).links + Rows({link}, {}).broken;
  }

  // ----- Where steps from one thing to the next lead -------------------------------------------------------

  function Outside<T(==)>(edges: set<(T, T)>, from: set<T>): set<(T, T)> {
    set edge | edge in edges && edge.1 !in from
  }

  function Further<T(==)>(edges: set<(T, T)>, from: set<T>): set<T> {
    from + set edge | edge in edges && edge.0 in from :: edge.1
  }

  lemma FurtherShrinks<T>(edges: set<(T, T)>, from: set<T>)
    requires exists edge | edge in edges :: edge.0 in from && edge.1 !in from
    ensures Outside(edges, Further(edges, from)) < Outside(edges, from)
  {
    var edge :| edge in edges && edge.0 in from && edge.1 !in from;
    assert edge in Outside(edges, from) && edge.1 in Further(edges, from);
    assert edge !in Outside(edges, Further(edges, from));
  }

  /** Everything the steps lead to. */
  function Closure<T(==)>(edges: set<(T, T)>, from: set<T>): (all: set<T>)
    ensures from <= all
    ensures forall edge | edge in edges :: edge.0 in all ==> edge.1 in all
    decreases Outside(edges, from)
  {
    if exists edge | edge in edges :: edge.0 in from && edge.1 !in from then
      FurtherShrinks(edges, from);
      Closure(edges, Further(edges, from))
    else from
  }

  /** Nothing is led to but by the steps. */
  lemma {:induction false} ClosureLeast<T>(edges: set<(T, T)>, from: set<T>, all: set<T>)
    requires from <= all && forall edge | edge in edges :: edge.0 in all ==> edge.1 in all
    ensures Closure(edges, from) <= all
    decreases Outside(edges, from)
  {
    if exists edge | edge in edges :: edge.0 in from && edge.1 !in from {
      FurtherShrinks(edges, from);
      ClosureLeast(edges, Further(edges, from), all);
    }
  }

  /** Steps that start outside and lead outside can be left out. */
  lemma ClosureApart<T>(edges: set<(T, T)>, some: set<(T, T)>, from: set<T>, inside: set<T>)
    requires some <= edges && from <= inside
    requires forall edge | edge in edges && edge.0 in inside :: edge in some && edge.1 in inside
    ensures Closure(edges, from) == Closure(some, from) <= inside
  {
    ClosureLeast(some, from, inside);
    ClosureLeast(edges, from, Closure(some, from));
    ClosureLeast(some, from, Closure(edges, from));
  }

  // ----- The rows a deletion takes --------------------------------------------------------------------

  /** The rows of a table that refer to others, could not find what they refer to, or are referred to. */
  function RowsOf(rows: Rows, table: string): set<Row> {
    (set link | link in rows.links && link.parent.table == table :: link.parent)
    + (set link | link in rows.links + rows.broken && link.child.table == table :: link.child)
  }

  function Cascades(links: set<Link>): set<(Row, Row)> {
    set link | link in links && link.action.Cascade? :: (link.parent, link.child)
  }

  /** The rows with all that refer to them through cascading keys. */
  function Doomed(links: set<Link>, rows: set<Row>): (doomed: set<Row>)
    ensures rows <= doomed
    ensures forall link | link in links && link.action.Cascade? && link.parent in doomed :: link.child in doomed
  {
    assert forall link | link in links && link.action.Cascade? :: (link.parent, link.child) in Cascades(links);
    Closure(Cascades(links), rows)
  }

  /** A row that no cascade leads to from outside a set stays outside. */
  lemma DoomedLeast(links: set<Link>, rows: set<Row>, spared: set<Row>)
    requires rows !! spared
    requires forall link | link in links && link.action.Cascade? && link.child in spared :: link.parent in spared
    ensures Doomed(links, rows) !! spared
  {
    ClosureLeast(Cascades(links), rows, Doomed(links, rows) - spared);
  }

  // ----- Emptying a table ----------------------------------------------------------------------------------

  /** The key of the reference does not let the deletion happen. */
  predicate Forbids(link: Link, doomed: set<Row>) {
    link.parent in doomed &&
    match link.action
    case Restrict => link.child !in doomed || link.later
    case NoAction => link.child !in doomed
    case _ => false
  }

  /** Rows that stand refer to rows of the table with an action that forbids to delete them. */
  predicate Guarded(rows: Rows, table: string) {
    exists link | link in rows.links :: Forbids(link, Doomed(rows.links, RowsOf(rows, table)))
  }

  function Carries(keys: set<Key>): set<(string, string)> {
    set key | key in keys && key.action.Cascade? :: (key.parent, key.child)
  }

  function Children(keys: set<Key>, table: string): set<string> {
    set key | key in keys && key.action.Cascade? && key.parent == table :: key.child
  }

  /** The tables a cascade from the table reaches, whether or not there are rows. */
  function Carried(keys: set<Key>, table: string): set<string> {
    Closure(Carries(keys), Children(keys, table))
  }

  /** A cascade goes on from the table and from every table it reaches, and reaches no other. */
  lemma CarriedExactly(keys: set<Key>, table: string, tables: set<string>)
    ensures forall key | key in keys && key.action.Cascade?
        && (key.parent == table || key.parent in Carried(keys, table)) ::
              key.child in Carried(keys, table)
    ensures (forall key | key in keys && key.action.Cascade?
        && (key.parent == table || key.parent in tables) :: key.child in tables) ==>
              Carried(keys, table) <= tables
  {
    forall key | key in keys && key.action.Cascade? && (key.parent == table || key.parent in Carried(keys, table))
      ensures key.child in Carried(keys, table)
    {
      assert (key.parent, key.child) in Carries(keys);
      assert key.parent == table ==> key.child in Children(keys, table);
    }
    if forall key | key in keys && key.action.Cascade?
        && (key.parent == table || key.parent in tables) :: key.child in tables {
      ClosureLeast(Carries(keys), Children(keys, table), tables);
    }
  }

  /**
   * A cascade reaches a table with a key to a table that does not stand, which no deletion of its rows can be made
   * for.
   */
  predicate Strands(schema: Schema, table: string) {
    exists key | key in schema.keys :: key.child in Carried(schema.keys, table) && key.parent !in schema.tables
  }

  /** SQLite refuses to drop the table. */
  predicate Held(schema: Schema, rows: Rows, table: string) {
    Guarded(rows, table) || Strands(schema, table)
  }

  /** The references once the rows of the table are deleted. */
  function Emptied(rows: Rows, table: string): Rows {
    var doomed := Doomed(rows.links, RowsOf(rows, table));
    Rows((set link | link in rows.links && link.child !in doomed && link.parent !in doomed),
         (set link | link in rows.broken && link.child !in doomed)
         + set link | link in rows.links && link.action.Deferred? && link.parent in doomed && link.child !in doomed)
  }

  /** The schema without a table. */
  function Dropped(schema: Schema, table: string): Schema {
    Schema(schema.tables - {table}, (set key | key in schema.keys && key.child != table), schema.triggered - {table})
  }

  /** An emptied table has no row left that stands for anything, nor one that a commit would find. */
  lemma EmptiedStands(rows: Rows, table: string, link: Link)
    requires link in Emptied(rows, table).links + Emptied(rows, table).broken
    ensures link in rows.links + rows.broken && link.child.table != table
    ensures link in Emptied(rows, table).links ==> link in rows.links && link.parent.table != table
  {
    var doomed := Doomed(rows.links, RowsOf(rows, table));
    assert link.child !in doomed;
    assert link in rows.links + rows.broken;
    assert link.child.table == table ==> link.child in RowsOf(rows, table);
    assert link in rows.links && link.parent.table == table ==> link.parent in RowsOf(rows, table);
  }

  function EmptiedAll(rows: Rows, tables: seq<string>): Rows
    decreases |tables|
  {
    if tables == [] then rows else EmptiedAll(Emptied(rows, tables[0]), tables[1..])
  }

  function DroppedAll(schema: Schema, tables: seq<string>): Schema
    decreases |tables|
  {
    if tables == [] then schema else DroppedAll(Dropped(schema, tables[0]), tables[1..])
  }

  /** SQLite refuses to drop the table when it comes to it in the list. */
  predicate HeldAt(schema: Schema, rows: Rows, tables: seq<string>, k: nat)
    requires k < |tables|
  {
    Held(DroppedAll(schema, tables[..k]), EmptiedAll(rows, tables[..k]), tables[k])
  }

  /** The tables can be dropped in this order: none is refused at its turn, and nothing is broken at the end. */
  predicate Free(schema: Schema, rows: Rows, tables: seq<string>) {
    && (forall k | 0 <= k < |tables| :: !HeldAt(schema, rows, tables, k))
    && EmptiedAll(rows, tables).broken == {}
  }

  lemma HeldAtNext(schema: Schema, rows: Rows, tables: seq<string>, k: nat)
    requires 0 < k < |tables|
    ensures HeldAt(schema, rows, tables, k) ==
        HeldAt(Dropped(schema, tables[0]), Emptied(rows, tables[0]), tables[1..], k - 1)
  {
    assert tables[..k][1..] == tables[1..][..k - 1];
  }

  lemma FreeFirst(schema: Schema, rows: Rows, tables: seq<string>)
    requires tables != []
    ensures Free(schema, rows, tables) <==>
              !Held(schema, rows, tables[0]) && Free(Dropped(schema, tables[0]), Emptied(rows, tables[0]), tables[1..])
  {
    hide Held, Emptied, Dropped;
    var fewer, next, rest := Dropped(schema, tables[0]), Emptied(rows, tables[0]), tables[1..];
    assert tables[..0] == [];
    assert HeldAt(schema, rows, tables, 0) == Held(schema, rows, tables[0]);
    forall k | 0 <= k < |rest|
      ensures HeldAt(fewer, next, rest, k) == HeldAt(schema, rows, tables, k + 1)
    {
      HeldAtNext(schema, rows, tables, k + 1);
    }
    if Free(schema, rows, tables) {
      assert forall k | 0 <= k < |rest| :: HeldAt(fewer, next, rest, k) == HeldAt(schema, rows, tables, k + 1);
    } else if !HeldAt(schema, rows, tables, 0) && Free(fewer, next, rest) {
      assert forall k | 0 < k < |tables| :: HeldAt(schema, rows, tables, k) == HeldAt(fewer, next, rest, k - 1);
    }
  }

  // ----- What a deletion sets off besides ------------------------------------------------------------------

  /** How many deletions SQLite lets follow from one another. */
  const LEVELS: nat := 1000

  /** The rows that many cascades away from the rows. */
  function Behind(links: set<Link>, rows: set<Row>, levels: nat): set<Row>
    decreases levels
  {
    if levels == 0 then rows
    else Behind(links, (set link | link in links && link.action.Cascade? && link.parent in rows :: link.child),
        levels - 1)
  }

  /** A key by which a deletion in the tables changes rows of its table, or looks for them first. */
  predicate Acts(key: Key, tables: set<string>) {
    key.parent in tables && !key.action.NoAction? && !key.action.Deferred?
  }

  /**
   * A deletion of the rows of the table fires no trigger, makes no change but those of its keys, and ends within the
   * levels.
   */
  predicate Plain(schema: Schema, rows: Rows, table: string) {
    && (forall key | key in schema.keys
        && Acts(key, {table} + Carried(schema.keys, table)) :: key.child !in schema.triggered && !key.action.Other?)
    && Behind(rows.links, RowsOf(rows, table), LEVELS) == {}
  }

  /** What SQLite makes of a deletion that sets off more. */
  type Effects = (Schema, Rows, string) -> Option<Rows>

  /** What dropping a table leaves of the rows, unless it is refused. */
  function Emptying(schema: Schema, rows: Rows, table: string, effects: Effects): Option<Rows> {
    if !Plain(schema, rows, table) then effects(schema, rows, table)
    else if Held(schema, rows, table) then None
    else Some(Emptied(rows, table))
  }

  function EmptyingAll(schema: Schema, rows: Rows, tables: seq<string>, effects: Effects): Option<Rows>
    decreases |tables|
  {
    if tables == [] then Some(rows)
    else
      match Emptying(schema, rows, tables[0], effects)
      case None => None
      case Some(next) => EmptyingAll(Dropped(schema, tables[0]), next, tables[1..], effects)
  }

  /** No table of the list sets off more when it comes to it. */
  predicate PlainAll(schema: Schema, rows: Rows, tables: seq<string>)
    decreases |tables|
  {
    tables != [] ==>
      Plain(schema, rows, tables[0]) && PlainAll(Dropped(schema, tables[0]), Emptied(rows, tables[0]), tables[1..])
  }

  /**
   * Where nothing more is set off, whether the tables can be dropped and what is left is decided by keys and rows
   * alone.
   */
  lemma {:induction false} PlainIsFree(schema: Schema, rows: Rows, tables: seq<string>, effects: Effects)
    requires PlainAll(schema, rows, tables)
    ensures
      match EmptyingAll(schema, rows, tables, effects)
      case None => !Free(schema, rows, tables)
      case Some(after) => after == EmptiedAll(rows, tables) && (Free(schema, rows, tables) <==> after.broken == {})
    decreases |tables|
  {
    hide Held, Emptied, Dropped, Plain;
    if tables != [] {
      FreeFirst(schema, rows, tables);
      if !Held(schema, rows, tables[0]) {
        PlainIsFree(Dropped(schema, tables[0]), Emptied(rows, tables[0]), tables[1..], effects);
      }
    }
  }

  // ----- Which references hold a table ---------------------------------------------------------------------

  /** A row of another table that no cascade takes along holds the table it refers to. */
  lemma ForbidsFromOutside(rows: Rows, link: Link)
    requires link in rows.links && (link.action.Restrict? || link.action.NoAction?)
        && link.child.table != link.parent.table
    requires forall other | other in rows.links && other.child == link.child :: !other.action.Cascade?
    ensures Guarded(rows, link.parent.table)
  {
    var seeds := RowsOf(rows, link.parent.table);
    assert link.parent in seeds && link.child !in seeds;
    DoomedLeast(rows.links, seeds, {link.child});
    assert Forbids(link, Doomed(rows.links, seeds));
  }

  /**
   * A row that refers to a row of its own table holds the table exactly with RESTRICT, and only if it is deleted after
   * the other one.
   */
  lemma GuardedWithin(link: Link)
    requires link.child.table == link.parent.table
    ensures Guarded(Rows({link}, {}), link.child.table) <==> link.action.Restrict? && link.later
  {
    var rows := Rows({link}, {});
    var doomed := Doomed(rows.links, RowsOf(rows, link.child.table));
    assert link.parent in RowsOf(rows, link.child.table) && link.child in RowsOf(rows, link.child.table);
    assert Guarded(rows, link.child.table) <==> Forbids(link, doomed);
  }

  /**
   * A reference stays exactly if neither row is deleted, and a deferred one is broken exactly if only its parent is.
   */
  lemma EmptiedExactly(rows: Rows, table: string, link: Link)
    ensures
      var doomed := Doomed(rows.links, RowsOf(rows, table));
      && (link in Emptied(rows, table).links <==> link in rows.links && link.child !in doomed && link.parent !in doomed)
      && (link in Emptied(rows, table).broken <==>
            link.child !in doomed && (link in rows.broken
                || (link in rows.links && link.action == Deferred && link.parent in doomed)))
  {
  }

  /** Dropping the one table leaves nothing of a single reference from its rows. */
  lemma EmptiedAlone(link: Link, links: set<Link>, broken: set<Link>)
    requires links <= {link} && broken <= {link}
    ensures Emptied(Rows(links, broken), link.child.table) == NO_ROWS
  {
    var rows := Rows(links, broken);
    assert link in links + broken ==> link.child in RowsOf(rows, link.child.table);
  }

  lemma LoneGuarded(link: Link, rows: Rows)
    requires rows.links <= {link} && link.child.table != link.parent.table
    ensures !Guarded(rows, link.child.table)
    ensures link.action.Deferred? ==> !Guarded(rows, link.parent.table)
  {
    if link in rows.links {
      var seeds := RowsOf(rows, link.child.table);
      DoomedLeast(rows.links, seeds, {link.parent});
    }
  }

  /**
   * A single row that refers to another table by a key that is checked at once: the order in which the two tables are
   * dropped decides.
   */
  lemma OrderDecides(schema: Schema, link: Link)
    requires link.action.NoAction? && link.child.table != link.parent.table
        && forall key | key in schema.keys :: !key.action.Cascade?
    ensures !Free(schema, Rows({link}, {}), [link.parent.table, link.child.table])
    ensures Free(schema, Rows({link}, {}), [link.child.table, link.parent.table])
  {
    var rows, parent, child := Rows({link}, {}), link.parent.table, link.child.table;
    ForbidsFromOutside(rows, link);
    FreeFirst(schema, rows, [parent, child]);
    LoneGuarded(link, rows);
    EmptiedAlone(link, {link}, {});
    NoCascade(schema, [child, parent]);
    FreeFirst(schema, rows, [child, parent]);
    assert [child, parent][1..] == [parent];
    UnstrandedFirst(schema, [child, parent]);
    LooseFree(Dropped(schema, child), NO_ROWS, [parent]);
  }

  /**
   * A row of a table that stays and refers by a key that is checked at the commit lets the tables be dropped, but not
   * the drops be committed.
   */
  lemma {:induction false} DeferredFromOutside(schema: Schema, link: Link, broken: set<Link>, tables: seq<string>)
    requires link.action.Deferred? && link.child.table !in tables
    requires broken == {link} || (broken == {} && link.parent.table in tables)
    ensures !Free(schema, Rows({link} - broken, broken), tables)
    decreases |tables|
  {
    var rows := Rows({link} - broken, broken);
    if tables != [] {
      FreeFirst(schema, rows, tables);
      var seeds := RowsOf(rows, tables[0]);
      DoomedLeast(rows.links, seeds, {link.child});
      var next := Emptied(rows, tables[0]);
      if broken == {link} {
        assert next == rows;
        DeferredFromOutside(Dropped(schema, tables[0]), link, broken, tables[1..]);
      } else if link.parent.table == tables[0] {
        assert link.parent in seeds;
        assert next.links == {} && next.broken == {link};
        assert next == Rows({link} - {link}, {link});
        DeferredFromOutside(Dropped(schema, tables[0]), link, {link}, tables[1..]);
      } else {
        DoomedLeast(rows.links, seeds, {link.child, link.parent});
        assert next == rows;
        DeferredFromOutside(Dropped(schema, tables[0]), link, broken, tables[1..]);
      }
    }
  }

  // ----- References that forbid nothing --------------------------------------------------------------------

  /** No cascade ever reaches a table whose other parent was dropped before it. */
  predicate Unstranded(schema: Schema, tables: seq<string>) {
    forall k | 0 <= k < |tables| :: !Strands(DroppedAll(schema, tables[..k]), tables[k])
  }

  lemma UnstrandedFirst(schema: Schema, tables: seq<string>)
    requires tables != []
    ensures Unstranded(schema, tables) <==>
        !Strands(schema, tables[0]) && Unstranded(Dropped(schema, tables[0]), tables[1..])
  {
    hide Strands, Dropped;
    var fewer, rest := Dropped(schema, tables[0]), tables[1..];
    assert tables[..0] == [];
    assert forall k | 0 <= k < |rest| :: tables[..k + 1][1..] == rest[..k];
    forall k | 0 <= k < |rest|
      ensures Strands(DroppedAll(fewer, rest[..k]), rest[k]) ==
          Strands(DroppedAll(schema, tables[..k + 1]), tables[k + 1])
    {
      assert DroppedAll(schema, tables[..k + 1]) == DroppedAll(fewer, tables[..k + 1][1..]);
    }
    if !Strands(schema, tables[0]) && Unstranded(fewer, rest) {
      forall k | 0 <= k < |tables|
        ensures !Strands(DroppedAll(schema, tables[..k]), tables[k])
      {
        if k > 0 {
          assert !Strands(DroppedAll(fewer, rest[..k - 1]), rest[k - 1]);
        }
      }
    }
    if Unstranded(schema, tables) {
      assert !Strands(DroppedAll(schema, tables[..0]), tables[0]);
      forall k | 0 <= k < |rest|
        ensures !Strands(DroppedAll(fewer, rest[..k]), rest[k])
      {
        assert !Strands(DroppedAll(schema, tables[..k + 1]), tables[k + 1]);
      }
    }
  }

  /**
   * The reference forbids nothing in the end: it cascades, clears, or is checked at a commit before which its own
   * table goes.
   */
  predicate Loose(link: Link, tables: seq<string>) {
    link.action.Cascade? || link.action.Clear? || (link.action.Deferred? && link.child.table in tables)
  }

  /** Where every reference is such a one, the tables can be dropped exactly in the orders that strand no cascade. */
  lemma {:induction false} LooseFree(schema: Schema, rows: Rows, tables: seq<string>)
    requires forall link | link in rows.links :: Loose(link, tables)
    requires forall link | link in rows.broken :: link.child.table in tables
    ensures Free(schema, rows, tables) <==> Unstranded(schema, tables)
    decreases |tables|
  {
    if tables == [] {
      assert rows.broken == {};
    } else {
      var next, rest := Emptied(rows, tables[0]), tables[1..];
      assert tables == [tables[0]] + rest;
      forall link | link in next.links + next.broken
        ensures link in rows.links + rows.broken && (link.child.table in tables ==> link.child.table in rest)
      {
        EmptiedStands(rows, tables[0], link);
      }
      LooseNext(rows, tables);
      LooseFree(Dropped(schema, tables[0]), next, rest);
      FreeFirst(schema, rows, tables);
      UnstrandedFirst(schema, tables);
      assert !Guarded(rows, tables[0]);
    }
  }

  lemma LooseNext(rows: Rows, tables: seq<string>)
    requires tables != [] && forall link | link in rows.links :: Loose(link, tables)
    requires forall link | link in rows.broken :: link.child.table in tables
    ensures forall link | link in Emptied(rows, tables[0]).links :: Loose(link, tables[1..])
    ensures forall link | link in Emptied(rows, tables[0]).broken :: link.child.table in tables[1..]
  {
    var next := Emptied(rows, tables[0]);
    assert tables == [tables[0]] + tables[1..];
    forall link | link in next.links
      ensures Loose(link, tables[1..])
    {
      EmptiedStands(rows, tables[0], link);
    }
    forall link | link in next.broken
      ensures link.child.table in tables[1..]
    {
      EmptiedStands(rows, tables[0], link);
    }
  }

  /** Without a key that cascades no cascade is stranded. */
  lemma {:induction false} NoCascade(schema: Schema, tables: seq<string>)
    requires forall key | key in schema.keys :: !key.action.Cascade?
    ensures Unstranded(schema, tables)
    decreases |tables|
  {
    if tables != [] {
      ClosureLeast(Carries(schema.keys), Children(schema.keys, tables[0]), {});
      NoCascade(Dropped(schema, tables[0]), tables[1..]);
      UnstrandedFirst(schema, tables);
    }
  }

  /**
   * Rows that refer to each other by keys that are checked at the commit can be dropped in any order, if all that
   * refer are dropped.
   */
  lemma DeferredFree(schema: Schema, rows: Rows, tables: seq<string>)
    requires rows.broken == {} && forall link | link in rows.links ::
               link.action.Deferred? && link.child.table in tables
    requires forall key | key in schema.keys :: !key.action.Cascade?
    ensures Free(schema, rows, tables)
  {
    NoCascade(schema, tables);
    LooseFree(schema, rows, tables);
  }

  /**
   * Where every reference cascades or clears, the tables can be dropped exactly in the orders that strand no cascade.
   */
  lemma CascadesFree(schema: Schema, rows: Rows, tables: seq<string>)
    requires rows.broken == {} && forall link | link in rows.links :: link.action.Cascade? || link.action.Clear?
    ensures Free(schema, rows, tables) <==> Unstranded(schema, tables)
  {
    LooseFree(schema, rows, tables);
  }

  /**
   * A table that cascades from itself and from another one: dropped behind the other one it is refused, with no row
   * in either, and before it both go.
   */
  lemma CascadeStrands(parent: string, table: string, rows: Rows)
    requires parent != table && rows.broken == {} && forall link | link in rows.links :: link.action.Cascade?
    ensures
      var schema := Schema({parent, table}, {Key(table, table, Cascade), Key(table, parent, Cascade)}, {});
      !Free(schema, rows, [parent, table]) && Free(schema, rows, [table, parent])
  {
    var up, over := Key(table, table, Cascade), Key(table, parent, Cascade);
    var schema := Schema({parent, table}, {up, over}, {});
    var behind := Dropped(schema, parent);
    assert up in behind.keys && over in behind.keys;
    assert table in Children(behind.keys, table) && parent !in behind.tables;
    assert Strands(behind, table);
    UnstrandedFirst(schema, [parent, table]);
    assert [parent, table][1..] == [table];
    UnstrandedFirst(behind, [table]);
    CascadesFree(schema, rows, [parent, table]);
    var before := Dropped(schema, table);
    assert before.keys == {};
    UnstrandedFirst(schema, [table, parent]);
    assert [table, parent][1..] == [parent];
    NoCascade(before, [parent]);
    CascadesFree(schema, rows, [table, parent]);
  }

  // ----- What sets off more --------------------------------------------------------------------------------

  /** The rows have ranks below the levels that rise along every cascade. */
  ghost predicate Ranked(links: set<Link>, rank: Row -> nat) {
    forall link | link in links && link.action.Cascade? :: rank(link.parent) < rank(link.child) < LEVELS
  }

  lemma {:induction false} BehindRanked(links: set<Link>, rows: set<Row>, rank: Row -> nat, levels: nat, least: nat)
    requires Ranked(links, rank) && forall row | row in rows :: least <= rank(row)
    ensures forall row | row in Behind(links, rows, levels) :: least + levels <= rank(row)
    ensures levels > 0 ==> forall row | row in Behind(links, rows, levels) :: rank(row) < LEVELS
    decreases levels
  {
    if levels > 0 {
      var next := set link | link in links && link.action.Cascade? && link.parent in rows :: link.child;
      BehindRanked(links, next, rank, levels - 1, least + 1);
    }
  }

  /**
   * Where no key by which a deletion changes rows, or looks for them first, is of a table with triggers or sets off
   * another change, and cascades end within the levels, a drop is decided by keys and rows.
   */
  lemma PlainWithout(schema: Schema, rows: Rows, table: string, rank: Row -> nat)
    requires forall key | key in schema.keys && (key.parent == table || key.parent in Carried(schema.keys, table))
               && (key.action.Cascade? || key.action.Clear? || key.action.Restrict? || key.action.Other?) ::
                 key.child !in schema.triggered && !key.action.Other?
    requires Ranked(rows.links, rank)
    ensures Plain(schema, rows, table)
  {
    BehindRanked(rows.links, RowsOf(rows, table), rank, LEVELS, 0);
  }

  lemma RankedWithout(links: set<Link>, rank: Row -> nat)
    requires forall link | link in links :: !link.action.Cascade?
    ensures Ranked(links, rank)
  {
  }

  /** Without triggers and other changes, and without long cascades, every drop of a list is such a one. */
  lemma {:induction false} PlainAllWithout(schema: Schema, rows: Rows, tables: seq<string>, rank: Row -> nat)
    requires schema.triggered == {} && forall key | key in schema.keys :: !key.action.Other?
    requires Ranked(rows.links, rank)
    ensures PlainAll(schema, rows, tables)
    decreases |tables|
  {
    if tables != [] {
      PlainWithout(schema, rows, tables[0], rank);
      PlainAllWithout(Dropped(schema, tables[0]), Emptied(rows, tables[0]), tables[1..], rank);
    }
  }

  /** Behind a row is every row that refers to it through a cascading key. */
  lemma {:induction false} BehindFurther(links: set<Link>, rows: set<Row>, levels: nat, link: Link)
    requires link in links && link.action.Cascade? && link.parent in Behind(links, rows, levels)
    ensures link.child in Behind(links, rows, levels + 1)
    decreases levels
  {
    if levels > 0 {
      var next := set other | other in links && other.action.Cascade? && other.parent in rows :: other.child;
      BehindFurther(links, next, levels - 1, link);
    }
  }

  lemma BehindStart(links: set<Link>, rows: set<Row>)
    ensures Behind(links, rows, 0) == rows
  {
  }

  /** A cascade of that many levels sets off more. */
  lemma LongCascadeIsMore(schema: Schema, rows: Rows, table: string, row: Row)
    requires row in Behind(rows.links, RowsOf(rows, table), LEVELS)
    ensures !Plain(schema, rows, table)
  {
  }

  /** A trigger on a table that rows are deleted from by a cascade is set off. */
  lemma TriggerIsMore(schema: Schema, rows: Rows, table: string, key: Key)
    requires key in schema.keys && key.parent == table && key.child in schema.triggered
    requires key.action.Cascade? || key.action.Clear? || key.action.Restrict?
    ensures !Plain(schema, rows, table)
  {
    assert Acts(key, {table} + Carried(schema.keys, table));
  }

  // ----- Tables that keep to themselves --------------------------------------------------------------------

  /** No reference joins a row of the tables with the prefix and one of another table. */
  predicate Apart(links: set<Link>, prefix: string) {
    forall link | link in links :: prefix <= link.child.table <==> prefix <= link.parent.table
  }

  predicate KeysApart(keys: set<Key>, prefix: string) {
    forall key | key in keys :: prefix <= key.child <==> prefix <= key.parent
  }

  lemma DeclaredApart(keys: set<Key>, rows: Rows, prefix: string)
    requires Declared(keys, rows) && KeysApart(keys, prefix)
    ensures Apart(rows.links, prefix) && Apart(rows.broken, prefix)
  {
    forall link | link in rows.links + rows.broken
      ensures prefix <= link.child.table <==> prefix <= link.parent.table
    {
      assert Key(link.child.table, link.parent.table, link.action) in keys;
    }
  }

  function OwnLinks(links: set<Link>, prefix: string): set<Link> {
    set link | link in links && prefix <= link.child.table
  }

  /** The references of the rows of the tables with the prefix. */
  function OwnRows(rows: Rows, prefix: string): Rows {
    Rows(OwnLinks(rows.links, prefix), OwnLinks(rows.broken, prefix))
  }

  function OwnSchema(schema: Schema, prefix: string): Schema {
    Schema((set table | table in schema.tables && prefix <= table),
           (set key | key in schema.keys && prefix <= key.child),
           (set table | table in schema.triggered && prefix <= table))
  }

  /** They are those of the rows, of the tables and of the keys with the prefix, and all of them. */
  lemma OwnAreOwn(schema: Schema, rows: Rows, prefix: string)
    ensures forall link :: link in OwnRows(rows, prefix).links <==> link in rows.links && prefix <= link.child.table
    ensures forall link :: link in OwnRows(rows, prefix).broken <==> link in rows.broken && prefix <= link.child.table
    ensures forall table :: table in OwnSchema(schema, prefix).tables <==> table in schema.tables && prefix <= table
    ensures forall key :: key in OwnSchema(schema, prefix).keys <==> key in schema.keys && prefix <= key.child
  {
  }

  lemma DoomedOwn(rows: Rows, table: string, prefix: string)
    requires Apart(rows.links, prefix) && prefix <= table
    ensures RowsOf(OwnRows(rows, prefix), table) == RowsOf(rows, table)
    ensures Doomed(OwnRows(rows, prefix).links, RowsOf(rows, table)) == Doomed(rows.links, RowsOf(rows, table))
    ensures forall row | row in Doomed(rows.links, RowsOf(rows, table)) :: prefix <= row.table
  {
    var links, own, seeds := rows.links, OwnLinks(rows.links, prefix), RowsOf(rows, table);
    assert RowsOf(OwnRows(rows, prefix), table) == seeds;
    var inside := seeds + set link | link in own :: link.child;
    assert forall row | row in inside :: prefix <= row.table;
    forall edge | edge in Cascades(links) && edge.0 in inside
      ensures edge in Cascades(own) && edge.1 in inside
    {
      var link :| link in links && link.action.Cascade? && edge == (link.parent, link.child);
      assert link in own;
    }
    ClosureApart(Cascades(links), Cascades(own), seeds, inside);
  }

  lemma CarriedOwn(schema: Schema, table: string, prefix: string)
    requires KeysApart(schema.keys, prefix) && prefix <= table
    ensures Carried(OwnSchema(schema, prefix).keys, table) == Carried(schema.keys, table)
    ensures forall other | other in Carried(schema.keys, table) :: prefix <= other
  {
    var keys, own := schema.keys, OwnSchema(schema, prefix).keys;
    assert Children(own, table) == Children(keys, table);
    var inside := set key | key in own :: key.child;
    forall edge | edge in Carries(keys) && edge.0 in inside
      ensures edge in Carries(own) && edge.1 in inside
    {
      var key :| key in keys && key.action.Cascade? && edge == (key.parent, key.child);
      assert key in own;
    }
    ClosureApart(Carries(keys), Carries(own), Children(keys, table), inside);
  }

  lemma HeldOwn(schema: Schema, rows: Rows, table: string, prefix: string)
    requires KeysApart(schema.keys, prefix) && Apart(rows.links, prefix) && prefix <= table
    ensures Held(OwnSchema(schema, prefix), OwnRows(rows, prefix), table) <==> Held(schema, rows, table)
  {
    hide Carried, Doomed, RowsOf;
    var doomed, own := Doomed(rows.links, RowsOf(rows, table)), OwnRows(rows, prefix);
    DoomedOwn(rows, table, prefix);
    CarriedOwn(schema, table, prefix);
    if link :| link in rows.links && Forbids(link, doomed) {
      assert link in own.links;
    }
    if key :| key in schema.keys && key.child in Carried(schema.keys, table) && key.parent !in schema.tables {
      assert key in OwnSchema(schema, prefix).keys && key.parent !in OwnSchema(schema, prefix).tables;
    }
    var mine := OwnSchema(schema, prefix);
    if key :| key in mine.keys && key.child in Carried(schema.keys, table) && key.parent !in mine.tables {
      assert key in schema.keys && key.parent !in schema.tables;
    }
  }

  lemma EmptiedOwn(rows: Rows, table: string, prefix: string)
    requires Apart(rows.links, prefix) && prefix <= table
    ensures OwnRows(Emptied(rows, table), prefix) == Emptied(OwnRows(rows, prefix), table)
    ensures Apart(Emptied(rows, table).links, prefix)
    ensures forall link | link in Emptied(rows, table).broken :: prefix <= link.child.table || link in rows.broken
    ensures forall link | link in rows.links && !(prefix <= link.child.table) :: link in Emptied(rows, table).links
    ensures Emptied(rows, table).links <= rows.links
  {
    hide Doomed, RowsOf;
    DoomedOwn(rows, table, prefix);
    var after, own := OwnRows(Emptied(rows, table), prefix), Emptied(OwnRows(rows, prefix), table);
    assert after.links == own.links;
    assert after.broken == own.broken;
  }

  lemma DroppedOwn(schema: Schema, table: string, prefix: string)
    requires KeysApart(schema.keys, prefix)
    ensures OwnSchema(Dropped(schema, table), prefix) == Dropped(OwnSchema(schema, prefix), table)
    ensures KeysApart(Dropped(schema, table).keys, prefix)
  {
    var after, own := OwnSchema(Dropped(schema, table), prefix), Dropped(OwnSchema(schema, prefix), table);
    assert after.tables == own.tables && after.keys == own.keys && after.triggered == own.triggered;
  }

  /**
   * Where neither keys nor references leave the tables with the prefix or enter them, only their own rows decide
   * whether they can be dropped.
   */
  lemma {:induction false} OnlyOwnDecide(schema: Schema, rows: Rows, tables: seq<string>, prefix: string)
    requires KeysApart(schema.keys, prefix) && Apart(rows.links, prefix)
    requires forall link | link in rows.broken :: prefix <= link.child.table
    requires forall table | table in tables :: prefix <= table
    ensures Free(schema, rows, tables) <==> Free(OwnSchema(schema, prefix), OwnRows(rows, prefix), tables)
    decreases |tables|
  {
    hide Held, Emptied, Dropped, OwnSchema;
    if tables == [] {
      assert OwnRows(rows, prefix).broken == rows.broken;
    } else {
      var table, rest := tables[0], tables[1..];
      assert table in tables && forall other | other in rest :: other in tables;
      HeldOwn(schema, rows, table, prefix);
      EmptiedOwn(rows, table, prefix);
      DroppedOwn(schema, table, prefix);
      OnlyOwnDecide(Dropped(schema, table), Emptied(rows, table), rest, prefix);
      FreeFirst(schema, rows, tables);
      FreeFirst(OwnSchema(schema, prefix), OwnRows(rows, prefix), tables);
    }
  }

  /** Emptying the tables of one side takes no reference of the other side, and none of its rows can hold them. */
  lemma {:induction false} OthersKept(rows: Rows, tables: seq<string>, prefix: string)
    requires Apart(rows.links, prefix) && forall table | table in tables :: prefix <= table
    ensures forall link | link in rows.links && !(prefix <= link.child.table) :: link in EmptiedAll(rows, tables).links
    ensures EmptiedAll(rows, tables).links <= rows.links
    decreases |tables|
  {
    hide Emptied;
    if tables != [] {
      assert tables[0] in tables && forall table | table in tables[1..] :: table in tables;
      EmptiedOwn(rows, tables[0], prefix);
      OthersKept(Emptied(rows, tables[0]), tables[1..], prefix);
    }
  }
}

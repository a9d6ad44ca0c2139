/**
 * src/files/TreeWalk.cpp: a walk with an explicit stack of folder iterators against the recursive preorder of the
 * tree.
 */
module TreeWalk {
  import opened Foundation

  const MAXIMUM_ENTRIES: nat := 100000

  // ----- The tree as the machine hands it out -----------------------------------------------------

  /**
   * One entry of a folder. `advances` tells whether the iterator could move on after it; when it could not,
   * the entries behind it are never seen.
   */
  datatype Entry = Entry(name: string, kind: Kind, advances: bool)

  /** What the status of an entry answers; `Unknown` has no status and `Closed` is a folder that cannot be opened. */
  datatype Kind = Regular | Other | Unknown | Closed | Folder(entries: seq<Entry>)

  // ----- The reference: recursive preorder -----------------------------------------------------------

  /** What the iterator stands on after an entry. */
  function Rest(entries: seq<Entry>): (rest: seq<Entry>)
    requires entries != []
    ensures |rest| < |entries|
  {
    if entries[0].advances then entries[1..] else []
  }

  /** The regular files of a folder and of the folders inside it that are not skipped, in preorder. */
  function Listing(prefix: string, entries: seq<Entry>, skipped: seq<string>): seq<string>
    decreases entries
  {
    if entries == [] then []
    else
      var entry := entries[0];
      (match entry.kind
       case Regular => [prefix + entry.name]
       case Folder(inner) => if entry.name in skipped then [] else Listing(prefix + entry.name + "/", inner, skipped)
       case _ => [])
      + if entry.advances then Listing(prefix, entries[1..], skipped) else []
  }

  /** How many entries a walk of the whole folder looks at. */
  function Inspections(entries: seq<Entry>, skipped: seq<string>): nat
    decreases entries
  {
    if entries == [] then 0
    else
      var entry := entries[0];
      1 + (match entry.kind
           case Folder(inner) => if entry.name in skipped then 0 else Inspections(inner, skipped)
           case _ => 0)
      + if entry.advances then Inspections(entries[1..], skipped) else 0
  }

  /** No entry that a walk of the folder looks at meets an error. */
  predicate Readable(entries: seq<Entry>, skipped: seq<string>)
    decreases entries
  {
    entries != [] ==>
      var entry := entries[0];
      && entry.advances
      && (match entry.kind
          case Unknown => false
          case Closed => entry.name in skipped
          case Folder(inner) => entry.name in skipped || Readable(inner, skipped)
          case _ => true)
      && Readable(entries[1..], skipped)
  }

  /** What a walk of the folder hands out for each entry it looks at, in preorder: a file or nothing. */
  function Preorder(prefix: string, entries: seq<Entry>, skipped: seq<string>): seq<seq<string>>
    decreases entries
  {
    if entries == [] then []
    else
      var entry := entries[0];
      [if entry.kind.Regular? then [prefix + entry.name] else []]
      + (match entry.kind
         case Folder(inner) => if entry.name in skipped then [] else Preorder(prefix + entry.name + "/", inner, skipped)
         case _ => [])
      + if entry.advances then Preorder(prefix, entries[1..], skipped) else []
  }

  lemma ConcatOne<T>(part: seq<T>)
    ensures Concat([part]) == part
  {
    assert [part][1..] == [];
  }

  /** The files of the listing are those handed out, and the inspections count the entries. */
  lemma {:induction false} PreorderIsListing(prefix: string, entries: seq<Entry>, skipped: seq<string>)
    ensures |Preorder(prefix, entries, skipped)| == Inspections(entries, skipped)
    ensures Concat(Preorder(prefix, entries, skipped)) == Listing(prefix, entries, skipped)
    decreases entries
  {
    if entries != [] {
      var entry := entries[0];
      var here := if entry.kind.Regular? then [prefix + entry.name] else [];
      var inner := match entry.kind
        case Folder(inner) => if entry.name in skipped then [] else Preorder(prefix + entry.name + "/", inner, skipped)
        case _ => [];
      var behind := if entry.advances then Preorder(prefix, entries[1..], skipped) else [];
      if entry.kind.Folder? && entry.name !in skipped {
        PreorderIsListing(prefix + entry.name + "/", entry.kind.entries, skipped);
      }
      if entry.advances {
        PreorderIsListing(prefix, entries[1..], skipped);
      }
      ConcatOne(here);
      ConcatAppend([here], inner);
      ConcatAppend([here] + inner, behind);
      assert here + [] == here && [] + Concat(inner) == Concat(inner);
    }
  }

  // ----- The stack of iterators ---------------------------------------------------------------------------

  /** An open folder: the path it was reached by and what its iterator has left. */
  datatype Open = Open(prefix: string, entries: seq<Entry>)

  /** The files the open folders still hold, from the innermost folder outwards. */
  function FilesLeft(folders: seq<Open>, skipped: seq<string>): seq<string> {
    if folders == [] then []
    else
      var top := folders[|folders| - 1];
      Listing(top.prefix, top.entries, skipped) + FilesLeft(folders[..|folders| - 1], skipped)
  }

  /** What the open folders still hand out, entry by entry. */
  function PreorderLeft(folders: seq<Open>, skipped: seq<string>): seq<seq<string>> {
    if folders == [] then []
    else
      var top := folders[|folders| - 1];
      Preorder(top.prefix, top.entries, skipped) + PreorderLeft(folders[..|folders| - 1], skipped)
  }

  lemma PreorderPushed(below: seq<Open>, top: Open, skipped: seq<string>)
    ensures PreorderLeft(below + [top], skipped) ==
        Preorder(top.prefix, top.entries, skipped) + PreorderLeft(below, skipped)
  {
    assert (below + [top])[..|below|] == below;
  }

  function InspectionsLeft(folders: seq<Open>, skipped: seq<string>): nat {
    if folders == [] then 0
    else Inspections(folders[|folders| - 1].entries, skipped) + InspectionsLeft(folders[..|folders| - 1], skipped)
  }

  predicate ReadableLeft(folders: seq<Open>, skipped: seq<string>) {
    folders != [] ==>
      && Readable(folders[|folders| - 1].entries, skipped)
      && ReadableLeft(folders[..|folders| - 1], skipped)
  }

  /** What is left with a folder on top of others. */
  lemma Pushed(below: seq<Open>, top: Open, skipped: seq<string>)
    ensures FilesLeft(below + [top], skipped) == Listing(top.prefix, top.entries, skipped) + FilesLeft(below, skipped)
    ensures InspectionsLeft(below + [top], skipped) ==
        Inspections(top.entries, skipped) + InspectionsLeft(below, skipped)
    ensures ReadableLeft(below + [top], skipped) <==> Readable(top.entries, skipped) && ReadableLeft(below, skipped)
  {
    var folders := below + [top];
    assert folders[|folders| - 1] == top && folders[..|folders| - 1] == below;
  }

  /** The work that is left, seen from its three sides. */
  datatype Left = Left(files: seq<string>, inspections: nat, readable: bool)

  function LeftOf(folders: seq<Open>, skipped: seq<string>): Left {
    Left(FilesLeft(folders, skipped), InspectionsLeft(folders, skipped), ReadableLeft(folders, skipped))
  }

  /** A folder at its end adds nothing. */
  lemma PoppedEnd(below: seq<Open>, top: Open, skipped: seq<string>)
    requires top.entries == []
    ensures LeftOf(below + [top], skipped) == LeftOf(below, skipped)
  {
    Pushed(below, top, skipped);
  }

  lemma NothingLeft(skipped: seq<string>)
    ensures LeftOf([], skipped) == Left([], 0, true)
  {
  }

  // ----- One entry -----------------------------------------------------------------------------------------

  /** The file an entry hands out, if it is one. */
  function Hands(prefix: string, entry: Entry): seq<string> {
    if entry.kind.Regular? then [prefix + entry.name] else []
  }

  /** The folder an entry opens, if it is one to enter. */
  function Opens(prefix: string, entry: Entry, skipped: seq<string>): seq<Open> {
    if entry.kind.Folder? && entry.name !in skipped then [Open(prefix + entry.name + "/", entry.kind.entries)] else []
  }

  /** Looking at an entry meets no error. */
  predicate Sound(entry: Entry, skipped: seq<string>) {
    entry.advances && !entry.kind.Unknown? && (entry.kind.Closed? ==> entry.name in skipped)
  }

  lemma ListingStep(prefix: string, entries: seq<Entry>, skipped: seq<string>)
    requires entries != []
    ensures Listing(prefix, entries, skipped) ==
        Hands(prefix, entries[0])
        + (FilesLeft(Opens(prefix, entries[0], skipped), skipped) + Listing(prefix, Rest(entries), skipped))
  {
    var entry, rest := entries[0], Listing(prefix, Rest(entries), skipped);
    assert Listing(prefix, [], skipped) == [];
    if entry.kind.Folder? && entry.name !in skipped {
      var inner := Open(prefix + entry.name + "/", entry.kind.entries);
      Pushed([], inner, skipped);
      assert [] + [inner] == [inner];
      var listed := Listing(inner.prefix, inner.entries, skipped);
      assert listed + [] == listed && [] + (listed + rest) == listed + rest;
    } else {
      assert [] + rest == rest;
    }
  }

  lemma InspectionsStep(prefix: string, entries: seq<Entry>, skipped: seq<string>)
    requires entries != []
    ensures Inspections(entries, skipped) ==
        1 + InspectionsLeft(Opens(prefix, entries[0], skipped), skipped) + Inspections(Rest(entries), skipped)
    ensures Readable(entries, skipped) <==>
              Sound(entries[0], skipped) && ReadableLeft(Opens(prefix, entries[0], skipped), skipped)
                  && Readable(Rest(entries), skipped)
  {
    var entry := entries[0];
    if entry.kind.Folder? && entry.name !in skipped {
      var inner := Open(prefix + entry.name + "/", entry.kind.entries);
      Pushed([], inner, skipped);
      assert [] + [inner] == [inner];
    }
  }

  /** At most one folder on top of others. */
  lemma PushedOpens(below: seq<Open>, opens: seq<Open>, skipped: seq<string>)
    requires |opens| <= 1
    ensures FilesLeft(below + opens, skipped) == FilesLeft(opens, skipped) + FilesLeft(below, skipped)
    ensures InspectionsLeft(below + opens, skipped) == InspectionsLeft(opens, skipped) + InspectionsLeft(below, skipped)
    ensures ReadableLeft(below + opens, skipped) <==> ReadableLeft(opens, skipped) && ReadableLeft(below, skipped)
  {
    hide Listing, Inspections, Readable;
    if opens == [] {
      assert below + opens == below;
      assert [] + FilesLeft(below, skipped) == FilesLeft(below, skipped);
    } else {
      Pushed(below, opens[0], skipped);
      Pushed([], opens[0], skipped);
      assert opens == [opens[0]] && [] + [opens[0]] == opens;
      var listed := Listing(opens[0].prefix, opens[0].entries, skipped);
      assert listed + [] == listed;
    }
  }

  lemma Regroup(a: seq<string>, b: seq<string>, c: seq<string>, d: seq<string>)
    ensures (a + (b + c)) + d == a + (b + (c + d))
  {
  }

  /** What one entry adds to what is left behind it. */
  lemma Looked(below: seq<Open>, top: Open, skipped: seq<string>, opens: seq<Open>, before: Left, after: Left)
    requires top.entries != [] && opens == Opens(top.prefix, top.entries[0], skipped)
    requires before == LeftOf(below + [top], skipped)
    requires after == LeftOf(below + [Open(top.prefix, Rest(top.entries))] + opens, skipped)
    ensures before.files == Hands(top.prefix, top.entries[0]) + after.files
    ensures before.inspections == 1 + after.inspections
    ensures before.readable <==> after.readable && Sound(top.entries[0], skipped)
  {
    hide Listing, Inspections, Readable, FilesLeft, InspectionsLeft, ReadableLeft, Hands, Sound;
    var moved := Open(top.prefix, Rest(top.entries));
    Pushed(below, top, skipped);
    Pushed(below, moved, skipped);
    PushedOpens(below + [moved], opens, skipped);
    ListingStep(top.prefix, top.entries, skipped);
    InspectionsStep(top.prefix, top.entries, skipped);
    Regroup(Hands(top.prefix, top.entries[0]), FilesLeft(opens, skipped),
        Listing(moved.prefix, moved.entries, skipped), FilesLeft(below, skipped));
  }

  lemma PreorderStep(prefix: string, entries: seq<Entry>, skipped: seq<string>)
    requires entries != []
    ensures Preorder(prefix, entries, skipped) ==
        [Hands(prefix, entries[0])] + PreorderLeft(Opens(prefix, entries[0], skipped), skipped)
            + Preorder(prefix, Rest(entries), skipped)
  {
    var entry := entries[0];
    assert Preorder(prefix, [], skipped) == [];
    if entry.kind.Folder? && entry.name !in skipped {
      var inner := Open(prefix + entry.name + "/", entry.kind.entries);
      PreorderPushed([], inner, skipped);
      assert [] + [inner] == [inner];
      assert Preorder(inner.prefix, inner.entries, skipped) + [] == Preorder(inner.prefix, inner.entries, skipped);
    }
  }

  /** An entry looked at hands out the first of what the open folders still do. */
  lemma PreorderLooked(below: seq<Open>, top: Open, skipped: seq<string>, opens: seq<Open>)
    requires top.entries != [] && opens == Opens(top.prefix, top.entries[0], skipped)
    ensures PreorderLeft(below + [top], skipped) ==
              [Hands(top.prefix, top.entries[0])]
              + PreorderLeft(below + [Open(top.prefix, Rest(top.entries))] + opens, skipped)
  {
    hide Preorder, PreorderLeft, Hands;
    var moved := Open(top.prefix, Rest(top.entries));
    var under := below + [moved];
    PreorderPushed(below, top, skipped);
    PreorderPushed(below, moved, skipped);
    PreorderStep(top.prefix, top.entries, skipped);
    PreorderNothing(skipped);
    if opens == [] {
      assert under + opens == under;
    } else {
      PreorderPushed(under, opens[0], skipped);
      PreorderPushed([], opens[0], skipped);
      assert opens == [opens[0]] && [] + [opens[0]] == opens;
      var inner := Preorder(opens[0].prefix, opens[0].entries, skipped);
      assert inner + [] == inner;
    }
  }

  lemma PreorderNothing(skipped: seq<string>)
    ensures PreorderLeft([], skipped) == []
  {
  }

  lemma PreorderPopped(below: seq<Open>, top: Open, skipped: seq<string>)
    requires top.entries == []
    ensures PreorderLeft(below + [top], skipped) == PreorderLeft(below, skipped)
  {
    PreorderPushed(below, top, skipped);
  }

  /** What the first so many entries of a walk hand out. */
  function FirstFiles(root: seq<Entry>, skipped: seq<string>, entries: nat): seq<string> {
    var all := Preorder("", root, skipped);
    Concat(all[..if entries <= |all| then entries else |all|])
  }

  lemma ConcatFront<T>(parts: seq<seq<T>>, fewer: nat, more: nat)
    requires fewer <= more <= |parts|
    ensures Concat(parts[..fewer]) <= Concat(parts[..more])
  {
    hide Concat;
    assert parts[..more] == parts[..fewer] + parts[fewer..more];
    ConcatAppend(parts[..fewer], parts[fewer..more]);
  }

  /** More entries hand out the same files and maybe more, and all of them the listing. */
  lemma FirstFilesGrow(root: seq<Entry>, skipped: seq<string>, fewer: nat, more: nat)
    requires fewer <= more
    ensures FirstFiles(root, skipped, fewer) <= FirstFiles(root, skipped, more)
    ensures Inspections(root, skipped) <= more ==> FirstFiles(root, skipped, more) == Listing("", root, skipped)
  {
    hide Preorder, Concat, Listing, Inspections;
    var all := Preorder("", root, skipped);
    ConcatFront(all, if fewer <= |all| then fewer else |all|, if more <= |all| then more else |all|);
    PreorderIsListing("", root, skipped);
    assert all[..|all|] == all;
  }

  /** What was handed out is that of the entries looked at so far. */
  ghost predicate Seen(root: seq<Entry>, skipped: seq<string>, handed: seq<string>, inspected: nat,
      left: seq<seq<string>>) {
    exists seen :: |seen| == inspected && seen + left == Preorder("", root, skipped) && Concat(seen) == handed
  }

  lemma SeenAtStart(root: seq<Entry>, skipped: seq<string>)
    ensures Seen(root, skipped, [], 0, PreorderLeft([Open("", root)], skipped))
  {
    PreorderPushed([], Open("", root), skipped);
    PreorderNothing(skipped);
    assert [] + [Open("", root)] == [Open("", root)];
    var left := PreorderLeft([Open("", root)], skipped);
    assert left == Preorder("", root, skipped) && [] + left == left;
    var seen: seq<seq<string>> := [];
    assert Concat(seen) == [];
  }

  lemma SeenNext(root: seq<Entry>, skipped: seq<string>, handed: seq<string>, inspected: nat, file: seq<string>,
      left: seq<seq<string>>)
    requires Seen(root, skipped, handed, inspected, [file] + left)
    ensures Seen(root, skipped, handed + file, inspected + 1, left)
  {
    var seen :| |seen| == inspected && seen + ([file] + left) == Preorder("", root, skipped) && Concat(seen) == handed;
    ConcatAppend(seen, [file]);
    ConcatOne(file);
    Associative(seen, [file], left);
    assert |seen + [file]| == inspected + 1;
  }

  lemma SeenFirst(root: seq<Entry>, skipped: seq<string>, handed: seq<string>, inspected: nat, left: seq<seq<string>>)
    requires Seen(root, skipped, handed, inspected, left)
    ensures handed == FirstFiles(root, skipped, inspected)
    ensures left == [] ==> forall entries: nat | inspected <= entries :: handed == FirstFiles(root, skipped, entries)
  {
    var seen :| |seen| == inspected && seen + left == Preorder("", root, skipped) && Concat(seen) == handed;
    assert (seen + left)[..inspected] == seen;
  }

  // ----- The visitor and the stop --------------------------------------------------------------------------

  /** A visitor may answer by all it was handed so far. */
  type Visitor = seq<string> -> bool

  predicate AcceptedBefore(visitor: Visitor, handed: seq<string>) {
    forall k | 0 < k < |handed| :: visitor(handed[..k])
  }

  predicate Accepted(visitor: Visitor, handed: seq<string>) {
    forall k | 0 < k <= |handed| :: visitor(handed[..k])
  }

  lemma AcceptedNext(visitor: Visitor, handed: seq<string>, file: string, next: seq<string>)
    requires Accepted(visitor, handed) && next == handed + [file]
    ensures AcceptedBefore(visitor, next)
    ensures visitor(next) ==> Accepted(visitor, next)
  {
    assert forall k | 0 < k <= |handed| :: next[..k] == handed[..k];
    assert next[..|next|] == next;
  }

  /** A stop that was set stays set. */
  ghost predicate Lasting(stops: nat -> bool) {
    forall i, j | i <= j && stops(i) :: stops(j)
  }

  ghost predicate Unstopped(stops: nat -> bool) {
    forall i :: !stops(i)
  }

  /** A walk finds all there is: no error, few enough entries, and a visitor that wants every file. */
  predicate Fits(root: seq<Entry>, skipped: seq<string>, visitor: Visitor, maximumInspected: nat) {
    && Readable(root, skipped)
    && Inspections(root, skipped) <= maximumInspected
    && Accepted(visitor, Listing("", root, skipped))
  }

  // ----- The walk ------------------------------------------------------------------------------------------

  /** How far a walk has come: what was handed out, looked at and found readable, with what is left, makes the whole. */
  ghost predicate Underway(root: seq<Entry>, skipped: seq<string>, handed: seq<string>, inspected: nat,
      complete: bool, left: Left) {
    && handed + left.files == Listing("", root, skipped)
    && inspected + left.inspections == Inspections(root, skipped)
    && (complete && left.readable <==> Readable(root, skipped))
  }

  lemma UnderwayAtStart(root: seq<Entry>, skipped: seq<string>)
    ensures Underway(root, skipped, [], 0, true, LeftOf([Open("", root)], skipped))
  {
    Pushed([], Open("", root), skipped);
    assert [] + [Open("", root)] == [Open("", root)];
    assert Listing("", root, skipped) + [] == Listing("", root, skipped);
  }

  /** One entry further. */
  lemma Further(root: seq<Entry>, skipped: seq<string>, handed: seq<string>, inspected: nat, complete: bool,
      before: Left,
                file: seq<string>, sound: bool, after: Left)
    requires Underway(root, skipped, handed, inspected, complete, before)
    requires before.files == file + after.files && before.inspections == 1 + after.inspections
    requires before.readable <==> after.readable && sound
    ensures Underway(root, skipped, handed + file, inspected + 1, complete && sound, after)
  {
    Associative(handed, file, after.files);
  }

  /** With nothing left the walk has found all there is, unless it met an error. */
  lemma AtEnd(root: seq<Entry>, skipped: seq<string>, visitor: Visitor, handed: seq<string>, inspected: nat,
      complete: bool, maximumInspected: nat)
    requires Underway(root, skipped, handed, inspected, complete, Left([], 0, true))
    requires Accepted(visitor, handed) && inspected <= maximumInspected
    ensures handed == Listing("", root, skipped)
    ensures complete <==> Fits(root, skipped, visitor, maximumInspected)
  {
    assert handed + [] == handed;
  }

  /** How far a walk has come, by its open folders. */
  ghost predicate At(root: seq<Entry>, skipped: seq<string>, handed: seq<string>, inspected: nat, complete: bool,
      folders: seq<Open>) {
    && Underway(root, skipped, handed, inspected, complete, LeftOf(folders, skipped))
    && Seen(root, skipped, handed, inspected, PreorderLeft(folders, skipped))
  }

  lemma AtStart(root: seq<Entry>, skipped: seq<string>)
    ensures At(root, skipped, [], 0, true, [Open("", root)])
  {
    UnderwayAtStart(root, skipped);
    SeenAtStart(root, skipped);
  }

  lemma AtPopped(root: seq<Entry>, skipped: seq<string>, handed: seq<string>, inspected: nat, complete: bool,
      below: seq<Open>, top: Open)
    requires At(root, skipped, handed, inspected, complete, below + [top]) && top.entries == []
    ensures At(root, skipped, handed, inspected, complete, below)
  {
    PoppedEnd(below, top, skipped);
    PreorderPopped(below, top, skipped);
  }

  /** The entry on top is looked at. */
  lemma AtNext(root: seq<Entry>, skipped: seq<string>, handed: seq<string>, inspected: nat, complete: bool,
      below: seq<Open>, top: Open)
    requires At(root, skipped, handed, inspected, complete, below + [top]) && top.entries != []
    ensures
      var entry := top.entries[0];
      && At(root, skipped, handed + Hands(top.prefix, entry), inspected + 1, complete && Sound(entry, skipped),
            below + [Open(top.prefix, Rest(top.entries))] + Opens(top.prefix, entry, skipped))
      && handed + Hands(top.prefix, entry) <= Listing("", root, skipped)
      && inspected < Inspections(root, skipped)
  {
    hide Listing, Inspections, Readable, FilesLeft, InspectionsLeft, ReadableLeft, LeftOf, Hands, Opens, Sound, Seen,
        PreorderLeft;
    var entry := top.entries[0];
    var opens := Opens(top.prefix, entry, skipped);
    var after := below + [Open(top.prefix, Rest(top.entries))] + opens;
    Looked(below, top, skipped, opens, LeftOf(below + [top], skipped), LeftOf(after, skipped));
    PreorderLooked(below, top, skipped, opens);
    Further(root, skipped, handed, inspected, complete, LeftOf(below + [top], skipped), Hands(top.prefix, entry),
        Sound(entry, skipped), LeftOf(after, skipped));
    SeenNext(root, skipped, handed, inspected, Hands(top.prefix, entry), PreorderLeft(after, skipped));
  }

  /** What was handed out at any time, and when the walk ends. */
  lemma AtHanded(root: seq<Entry>, skipped: seq<string>, visitor: Visitor, handed: seq<string>, inspected: nat,
      complete: bool, folders: seq<Open>, maximumInspected: nat)
    requires At(root, skipped, handed, inspected, complete, folders)
    requires Accepted(visitor, handed) && inspected <= maximumInspected
    ensures handed <= Listing("", root, skipped) && handed == FirstFiles(root, skipped, inspected)
    ensures handed <= FirstFiles(root, skipped, maximumInspected)
    ensures folders == [] ==>
              && handed == Listing("", root, skipped) == FirstFiles(root, skipped, maximumInspected)
              && (complete <==> Fits(root, skipped, visitor, maximumInspected))
  {
    hide FirstFiles, Seen;
    FirstFilesGrow(root, skipped, inspected, maximumInspected);
    SeenFirst(root, skipped, handed, inspected, PreorderLeft(folders, skipped));
    if folders == [] {
      NothingLeft(skipped);
      PreorderNothing(skipped);
      AtEnd(root, skipped, visitor, handed, inspected, complete, maximumInspected);
    }
  }

  lemma NothingAccepted(visitor: Visitor)
    ensures Accepted(visitor, [])
  {
  }

  lemma AcceptedIsBefore(visitor: Visitor, handed: seq<string>)
    requires Accepted(visitor, handed)
    ensures AcceptedBefore(visitor, handed)
  {
  }

  lemma RefusedEnds(root: seq<Entry>, skipped: seq<string>, visitor: Visitor, handed: seq<string>,
      maximumInspected: nat)
    requires handed != [] && handed <= Listing("", root, skipped) && !visitor(handed) && AcceptedBefore(visitor, handed)
    requires handed <= FirstFiles(root, skipped, maximumInspected)
    ensures EndedEarly(root, skipped, visitor, handed, maximumInspected)
  {
    assert handed == Listing("", root, skipped)[..|handed|];
  }

  lemma TooManyEnd(root: seq<Entry>, skipped: seq<string>, visitor: Visitor, handed: seq<string>, maximumInspected: nat)
    requires Inspections(root, skipped) > maximumInspected
    requires handed <= Listing("", root, skipped) && handed == FirstFiles(root, skipped, maximumInspected)
    requires AcceptedBefore(visitor, handed)
    ensures EndedEarly(root, skipped, visitor, handed, maximumInspected)
  {
  }

  lemma EndedEarlyMeans(root: seq<Entry>, skipped: seq<string>, visitor: Visitor, handed: seq<string>,
      maximumInspected: nat)
    requires EndedEarly(root, skipped, visitor, handed, maximumInspected)
    ensures handed <= Listing("", root, skipped) && AcceptedBefore(visitor, handed)
    ensures handed <= FirstFiles(root, skipped, maximumInspected)
    ensures !Fits(root, skipped, visitor, maximumInspected)
    ensures handed == FirstFiles(root, skipped, maximumInspected) || (handed != [] && !visitor(handed))
    ensures Inspections(root, skipped) <= maximumInspected ==> handed != [] && !visitor(handed)
  {
  }

  lemma BeforeMeans(visitor: Visitor)
    ensures forall handed | AcceptedBefore(visitor, handed) :: forall k | 0 < k < |handed| :: visitor(handed[..k])
  {
  }

  /** A stop may never be set, or be set for good at any time. */
  lemma StopsLast(at: nat)
    ensures Lasting(k => false) && Unstopped(k => false)
    ensures Lasting((k: nat) => k >= at) && !Unstopped((k: nat) => k >= at)
  {
    var late := (k: nat) => k >= at;
    assert late(at);
  }

  lemma StopLasts(stops: nat -> bool, loads: nat)
    requires Lasting(stops)
    ensures stops(loads) ==> stops(loads + 1)
    ensures Unstopped(stops) ==> !stops(loads) && !stops(loads + 1)
  {
  }

  /** One entry: the iterator moves on, and the entry is entered, handed out or left. */
  method Look(below: seq<Open>, top: Open, skipped: seq<string>) returns (folders: seq<Open>, sound: bool,
      file: seq<string>)
    requires top.entries != []
    ensures folders == below + [Open(top.prefix, Rest(top.entries))] + Opens(top.prefix, top.entries[0], skipped)
    ensures sound == Sound(top.entries[0], skipped) && file == Hands(top.prefix, top.entries[0])
    ensures |file| <= 1
  {
    var entry := top.entries[0];
    folders, sound, file := below + [Open(top.prefix, Rest(top.entries))], entry.advances, [];
    assert folders + [] == folders;
    match entry.kind
    case Unknown =>
      sound := false;
    case Closed =>
      if entry.name !in skipped {
        sound := false;
      }
    case Folder(entries) =>
      if entry.name !in skipped {
        folders := folders + [Open(top.prefix + entry.name + "/", entries)];
      }
    case Other =>
    case Regular =>
      file := [top.prefix + entry.name];
  }

  lemma AtFiles(root: seq<Entry>, skipped: seq<string>, handed: seq<string>, inspected: nat, complete: bool,
      folders: seq<Open>)
    requires At(root, skipped, handed, inspected, complete, folders)
    ensures handed == FirstFiles(root, skipped, inspected)
  {
    SeenFirst(root, skipped, handed, inspected, PreorderLeft(folders, skipped));
  }

  /** The walk goes on, or ends early: with an entry behind the bound, or with a file the visitor refused. */
  ghost predicate EndedEarly(root: seq<Entry>, skipped: seq<string>, visitor: Visitor, handed: seq<string>,
      maximumInspected: nat) {
    && handed <= Listing("", root, skipped) && AcceptedBefore(visitor, handed)
    && handed <= FirstFiles(root, skipped, maximumInspected)
    && !Fits(root, skipped, visitor, maximumInspected)
    && ((handed == FirstFiles(root, skipped, maximumInspected) && Inspections(root, skipped) > maximumInspected)
        || (handed != [] && !visitor(handed)))
  }

  /** One round of the loop. */
  method Round(root: seq<Entry>, skipped: seq<string>, visitor: Visitor, folders: seq<Open>, handed: seq<string>,
      inspected: nat, complete: bool, maximumInspected: nat)
    returns (next: seq<Open>, files: seq<string>, looked: nat, whole: bool, going: bool)
    requires At(root, skipped, handed, inspected, complete, folders) && Accepted(visitor, handed)
    requires folders != [] && inspected <= maximumInspected
    ensures going ==>
              && At(root, skipped, files, looked, whole, next) && Accepted(visitor, files) && looked <= maximumInspected
              && (looked == inspected + 1 || (looked == inspected && |next| < |folders|))
    ensures !going ==> !whole && EndedEarly(root, skipped, visitor, files, maximumInspected)
  {
    hide *;
    var below, top := folders[..|folders| - 1], folders[|folders| - 1];
    assert folders == below + [top];
    if top.entries == [] {
      AtPopped(root, skipped, handed, inspected, complete, below, top);
      return below, handed, inspected, complete, true;
    }
    AtNext(root, skipped, handed, inspected, complete, below, top);
    if inspected == maximumInspected {
      AtHanded(root, skipped, visitor, handed, inspected, complete, folders, maximumInspected);
      AcceptedIsBefore(visitor, handed);
      TooManyEnd(root, skipped, visitor, handed, maximumInspected);
      return folders, handed, inspected, false, false;
    }
    var sound: bool, file: seq<string>;
    next, sound, file := Look(below, top, skipped);
    looked, whole, files := inspected + 1, complete && sound, handed + file;
    if file == [] {
      assert files == handed;
      return next, files, looked, whole, true;
    }
    assert file == [file[0]];
    AcceptedNext(visitor, handed, file[0], files);
    going := visitor(files);
    if !going {
      whole := false;
      FirstFilesGrow(root, skipped, looked, maximumInspected);
      AtFiles(root, skipped, files, looked, whole || (complete && sound), next);
      RefusedEnds(root, skipped, visitor, files, maximumInspected);
    }
  }

  /** TreeWalk::visit: hands the files out in preorder, until the visitor, the bound or the stop ends it. */
  method Visit(root: Option<seq<Entry>>, skipped: seq<string>, visitor: Visitor, stops: nat -> bool,
      maximumInspected: nat)
    returns (complete: Option<bool>, handed: seq<string>)
    requires Lasting(stops)
    ensures complete == None <==> root == None
    ensures root == None ==> handed == []
    ensures root.Some? ==> handed <= Listing("", root.value, skipped) && AcceptedBefore(visitor, handed)
    ensures forall k | 0 < k < |handed| :: visitor(handed[..k])
    ensures root.Some? && complete == Some(true) ==>
              Fits(root.value, skipped, visitor, maximumInspected) && handed == Listing("", root.value, skipped)
    ensures root.Some? && Unstopped(stops) && Fits(root.value, skipped, visitor, maximumInspected) ==>
        complete == Some(true)
    ensures root.Some? && Unstopped(stops) && Inspections(root.value, skipped) <= maximumInspected ==>
              handed == Listing("", root.value, skipped) || (handed != [] && !visitor(handed))
    ensures root.Some? ==> handed <= FirstFiles(root.value, skipped, maximumInspected)
    ensures root.Some? && Unstopped(stops) ==>
              handed == FirstFiles(root.value, skipped, maximumInspected) || (handed != [] && !visitor(handed))
  {
    if root == None {
      return None, [];
    }
    hide *;
    BeforeMeans(visitor);
    NothingAccepted(visitor);
    var folders, whole, inspected, loads := [Open("", root.value)], true, 0, 0;
    handed := [];
    AtStart(root.value, skipped);
    var going := true;
    while folders != [] && !stops(loads)
      invariant inspected <= maximumInspected
      invariant At(root.value, skipped, handed, inspected, whole, folders)
      invariant Accepted(visitor, handed)
      decreases maximumInspected - inspected, |folders|
    {
      loads := loads + 1;
      folders, handed, inspected, whole, going :=
        Round(root.value, skipped, visitor, folders, handed, inspected, whole, maximumInspected);
      if !going {
        EndedEarlyMeans(root.value, skipped, visitor, handed, maximumInspected);
        return Some(false), handed;
      }
    }
    AtHanded(root.value, skipped, visitor, handed, inspected, whole, folders, maximumInspected);
    AcceptedIsBefore(visitor, handed);
    StopLasts(stops, loads);
    return Some(whole && !stops(loads + 1)), handed;
  }

  // ----- The bounded collection ----------------------------------------------------------------------------

  /** The collector refuses the file after the last one it has room for. */
  function Collector(maximum: nat): Visitor {
    (handed: seq<string>) => |handed| <= maximum
  }

  lemma CollectorAccepts(maximum: nat, listing: seq<string>)
    ensures Accepted(Collector(maximum), listing) <==> |listing| <= maximum
  {
    if |listing| > maximum {
      assert !Collector(maximum)(listing[..|listing|]);
    }
  }

  /** TreeWalk::walk: the first files of the listing, up to the bound, and whether they are all. */
  method Walk(root: Option<seq<Entry>>, maximum: nat, skipped: seq<string>,
      stops: nat -> bool) returns (walked: Option<(seq<string>, bool)>)
    requires Lasting(stops)
    ensures walked == None <==> root == None
    ensures root.Some? ==> |walked.value.0| <= maximum && walked.value.0 <= Listing("", root.value, skipped)
    ensures root.Some? && walked.value.1 ==>
              && walked.value.0 == Listing("", root.value, skipped)
              && Readable(root.value, skipped) && Inspections(root.value, skipped) <= MAXIMUM_ENTRIES
    ensures root.Some? && Unstopped(stops) && Readable(root.value, skipped) ==>
              (walked.value.1 <==>
                Inspections(root.value, skipped) <= MAXIMUM_ENTRIES && |Listing("", root.value, skipped)| <= maximum)
    ensures root.Some? && Unstopped(stops) && Inspections(root.value, skipped) <= MAXIMUM_ENTRIES ==>
              walked.value.0 == Listing("", root.value,
                  skipped)[..if |Listing("", root.value, skipped)| <= maximum then |Listing("", root.value, skipped)|
                  else maximum]
    ensures root.Some? && Unstopped(stops) ==>
              var files := FirstFiles(root.value, skipped, MAXIMUM_ENTRIES);
              walked.value.0 == files[..if |files| <= maximum then |files| else maximum]
  {
    hide Listing, Inspections, Readable, FirstFiles;
    var visited, handed := Visit(root, skipped, Collector(maximum), stops, MAXIMUM_ENTRIES);
    if visited == None {
      return None;
    }
    ghost var listing := Listing("", root.value, skipped);
    CollectorAccepts(maximum, listing);
    assert |handed| > 1 ==>
             handed[..|handed| - 1] == listing[..|handed| - 1] && Collector(maximum)(handed[..|handed| - 1]);
    if |handed| <= maximum {
      return Some((handed, visited.value));
    }
    return Some((handed[..maximum], false));
  }
}

/**
 * src/persistence/PreferenceStore.cpp over src/persistence/DatabaseExecutor.cpp and src/execution/MainThreadQueue.cpp:
 * documents that are read at once and written in the background, over two queues that keep their order.
 */
module PreferenceStore {
  import opened Foundation

  // ----- Documents and what travels through the queues -------------------------------------------

  /** A JSON value; only an object is a document. */
  datatype Json = Object(members: map<string, string>) | Other(text: string)

  const EMPTY: Json := Object(map[])

  datatype Entry = Entry(current: Json, committed: Json, revision: nat)

  /** What the worker does with the database: store a document, or erase what a plugin keeps. */
  datatype Work = Write(owner: string, document: Json, revision: nat) | Erase(plugin: string)

  /** A completion posted to the interface thread: the work and whether the database took it. */
  datatype Task = Task(work: Work, success: bool)

  /** `ready` is the part of the completions that a drain has swapped out and not yet run. */
  datatype State = State(entries: map<string, Entry>, queue: seq<Work>, tasks: seq<Task>, ready: seq<Task>,
      rows: map<string, Json>)

  // ----- Whose documents a plugin owns --------------------------------------------------------------

  /** PreferenceStore::belongs. */
  predicate Belongs(owner: string, plugin: string) {
    owner == plugin || (|owner| > |plugin| && plugin <= owner && owner[|plugin|] == ':')
  }

  /** substr(text, 1, count) of SQLite. */
  function Substr(text: string, count: nat): string {
    if count < |text| then text[..count] else text
  }

  /** The condition of the DELETE statement of PreferenceStore::erase. */
  predicate Deleted(owner: string, plugin: string) {
    owner == plugin || Substr(owner, |plugin| + 1) == plugin + ":"
  }

  /** Memory drops exactly the owners that the table deletes. */
  lemma DiscardedIsDeleted(owner: string, plugin: string)
    ensures Belongs(owner, plugin) <==> Deleted(owner, plugin)
  {
    var taken := Substr(owner, |plugin| + 1);
    if |owner| > |plugin| {
      assert taken == owner[..|plugin|] + [owner[|plugin|]];
    }
  }

  function WithoutRows(rows: map<string, Json>, plugin: string): map<string, Json> {
    map owner | owner in rows && !Deleted(owner, plugin) :: rows[owner]
  }

  function WithoutEntries(entries: map<string, Entry>, plugin: string): map<string, Entry> {
    map owner | owner in entries && !Belongs(owner, plugin) :: entries[owner]
  }

  // ----- The steps -----------------------------------------------------------------------------------------

  function EntryOf(entries: map<string, Entry>, owner: string): Entry {
    if owner in entries then entries[owner] else Entry(EMPTY, EMPTY, 0)
  }

  /** PreferenceStore::write up to the point where the work is queued. */
  function Written(state: State, owner: string, document: Json): State {
    if !document.Object? then state
    else
      var entry := EntryOf(state.entries, owner);
      state.(entries := state.entries[owner := Entry(document, entry.committed, entry.revision + 1)],
             queue := state.queue + [Write(owner, document, entry.revision + 1)])
  }

  function Erasing(state: State, plugin: string): State {
    state.(queue := state.queue + [Erase(plugin)])
  }

  /** What a work makes of the table. */
  function Stored(rows: map<string, Json>, work: Work): map<string, Json> {
    match work
    case Write(owner, document, _) => rows[owner := document]
    case Erase(plugin) => WithoutRows(rows, plugin)
  }

  /** The worker takes the first work, which succeeds or fails, and posts its completion. */
  function Worked(state: State, success: bool): State
    requires state.queue != []
  {
    var work := state.queue[0];
    state.(queue := state.queue[1..],
           rows := if success then Stored(state.rows, work) else state.rows,
           tasks := state.tasks + [Task(work, success)])
  }

  /** A drain swaps the posted completions out. */
  function Swapped(state: State): State
    requires state.ready == []
  {
    state.(ready := state.tasks, tasks := [])
  }

  /** What a completion makes of the entries. */
  function Settled(entries: map<string, Entry>, task: Task): map<string, Entry> {
    match task.work
    case Write(owner, document, revision) =>
      var entry := EntryOf(entries, owner);
      entries[owner := if task.success then entry.(committed := document)
                       else if revision == entry.revision then entry.(current := entry.committed)
                       else entry]
    case Erase(plugin) =>
      if task.success then WithoutEntries(entries, plugin) else entries
  }

  function Finished(state: State): State
    requires state.ready != []
  {
    state.(entries := Settled(state.entries, state.ready[0]), ready := state.ready[1..])
  }

  // ----- What is in flight ---------------------------------------------------------------------------------

  /** An erase that failed takes nothing any more. */
  predicate Harmless(task: Task) {
    task.work.Erase? && !task.success
  }

  function Works(tasks: seq<Task>): seq<Work> {
    if tasks == [] then [] else (if Harmless(tasks[0]) then [] else [tasks[0].work]) + Works(tasks[1..])
  }

  /** Everything queued or waiting for its completion that still has an effect to come, the oldest first. */
  function Pending(state: State): seq<Work> {
    Works(state.ready + state.tasks) + state.queue
  }

  predicate Touches(work: Work, owner: string) {
    match work
    case Write(written, _, _) => written == owner
    case Erase(plugin) => Belongs(owner, plugin)
  }

  predicate WritesTo(work: Work, owner: string) {
    work.Write? && work.owner == owner
  }

  /** The last write of an owner that is in flight. */
  function LastWrite(pending: seq<Work>, owner: string): (last: Option<Work>)
    ensures last.Some? ==> WritesTo(last.value, owner)
  {
    if pending == [] then None
    else if WritesTo(pending[|pending| - 1], owner) then Some(pending[|pending| - 1])
    else LastWrite(pending[..|pending| - 1], owner)
  }

  /** PreferenceStore::document. */
  function Document(state: State, owner: string): Json {
    EntryOf(state.entries, owner).current
  }

  /** What the table holds of an owner; a damaged row counts as none, as when it is loaded. */
  function Row(rows: map<string, Json>, owner: string): Json {
    if owner in rows && rows[owner].Object? then rows[owner] else EMPTY
  }

  /** The committed document of an owner after one completion. */
  function After(committed: Json, task: Task, owner: string): Json {
    if !task.success || !Touches(task.work, owner) then committed
    else if task.work.Write? then task.work.document
    else EMPTY
  }

  /** The committed document of an owner once the completions have run. */
  function Committed(committed: Json, tasks: seq<Task>, owner: string): Json
    decreases tasks
  {
    if tasks == [] then committed else Committed(After(committed, tasks[0], owner), tasks[1..], owner)
  }

  // ----- The invariant of one owner ------------------------------------------------------------------------

  /** Writes carry objects, and their revisions rise. */
  predicate Ranked(pending: seq<Work>, owner: string) {
    && (forall i | 0 <= i < |pending| && WritesTo(pending[i], owner) :: pending[i].document.Object?)
    && (forall i, j | 0 <= i < j < |pending| && WritesTo(pending[i], owner)
        && WritesTo(pending[j], owner) :: pending[i].revision < pending[j].revision)
  }

  /** No write stands behind an erase that takes its document. */
  predicate Ordered(pending: seq<Work>, owner: string) {
    && Ranked(pending, owner)
    && (forall i, j | 0 <= i < j < |pending| && pending[i].Erase?
        && Touches(pending[i], owner) :: !WritesTo(pending[j], owner))
  }

  /** Readers see the last write in flight, or what is committed when there is none. */
  predicate Seen(entries: map<string, Entry>, pending: seq<Work>, owner: string) {
    var entry := EntryOf(entries, owner);
    match LastWrite(pending, owner)
    case Some(write) => owner in entries && entry.current == write.document && entry.revision == write.revision
    case None => entry.current == entry.committed
  }

  predicate Consistent(state: State, owner: string) {
    && Ordered(Pending(state), owner)
    && Seen(state.entries, Pending(state), owner)
    && Committed(EntryOf(state.entries, owner).committed, state.ready + state.tasks, owner) == Row(state.rows, owner)
  }

  ghost predicate Valid(state: State) {
    forall owner :: Consistent(state, owner)
  }

  // ----- Queues --------------------------------------------------------------------------------------------

  lemma {:induction false} WorksConcat(left: seq<Task>, right: seq<Task>)
    ensures Works(left + right) == Works(left) + Works(right)
  {
    if left == [] {
      assert left + right == right;
    } else {
      assert (left + right)[1..] == left[1..] + right;
      WorksConcat(left[1..], right);
      Associative(if Harmless(left[0]) then [] else [left[0].work], Works(left[1..]), Works(right));
    }
  }

  lemma WorksOne(task: Task)
    ensures Works([task]) == if Harmless(task) then [] else [task.work]
  {
    assert [task][1..] == [];
  }

  lemma LastWriteAppended(pending: seq<Work>, work: Work, owner: string)
    ensures LastWrite(pending + [work], owner) == if WritesTo(work, owner) then Some(work)
        else LastWrite(pending, owner)
  {
    assert (pending + [work])[..|pending|] == pending;
  }

  lemma {:induction false} LastWriteHeld(pending: seq<Work>, owner: string) returns (at: int)
    ensures LastWrite(pending, owner).Some? ==>
        0 <= at < |pending| && LastWrite(pending, owner) == Some(pending[at]) && WritesTo(pending[at], owner)
    ensures LastWrite(pending, owner) == None ==> forall k | 0 <= k < |pending| :: !WritesTo(pending[k], owner)
  {
    if pending == [] {
      at := 0;
    } else if WritesTo(pending[|pending| - 1], owner) {
      at := |pending| - 1;
    } else {
      at := LastWriteHeld(pending[..|pending| - 1], owner);
      assert forall k | 0 <= k < |pending| - 1 :: pending[k] == pending[..|pending| - 1][k];
    }
  }

  lemma {:induction false} LastWritePrepended(work: Work, pending: seq<Work>, owner: string)
    ensures LastWrite([work] + pending, owner) ==
              if LastWrite(pending, owner).Some? then LastWrite(pending, owner)
                  else if WritesTo(work, owner) then Some(work) else None
  {
    if pending == [] {
      assert ([work] + pending)[..0] == [];
    } else {
      assert ([work] + pending)[..|pending|] == [work] + pending[..|pending| - 1];
      LastWritePrepended(work, pending[..|pending| - 1], owner);
    }
  }

  lemma {:induction false} CommittedAppended(committed: Json, tasks: seq<Task>, task: Task, owner: string)
    ensures Committed(committed, tasks + [task], owner) == After(Committed(committed, tasks, owner), task, owner)
    decreases tasks
  {
    if tasks == [] {
      assert tasks + [task] == [task];
    } else {
      assert (tasks + [task])[1..] == tasks[1..] + [task];
      CommittedAppended(After(committed, tasks[0], owner), tasks[1..], task, owner);
    }
  }

  // ----- Every step keeps the invariant --------------------------------------------------------------------

  /**
   * No erase in flight takes the document of the owner: none that is undecided, and none that succeeded and has yet
   * to complete.
   */
  predicate NotErasing(state: State, owner: string) {
    forall k | 0 <= k < |Pending(state)| :: Pending(state)[k].Erase? ==> !Touches(Pending(state)[k], owner)
  }

  lemma PendingQueued(state: State, after: State, work: Work)
    requires after.queue == state.queue + [work] && after.ready == state.ready && after.tasks == state.tasks
    ensures Pending(after) == Pending(state) + [work]
  {
    Associative(Works(state.ready + state.tasks), state.queue, [work]);
  }

  /** The revision of an owner is that of its last write in flight, so the next one is higher than all of them. */
  lemma RevisionsBelow(state: State, owner: string)
    requires Consistent(state, owner)
    ensures forall k | 0 <= k < |Pending(state)|
        && WritesTo(Pending(state)[k], owner) :: Pending(state)[k].revision <= EntryOf(state.entries, owner).revision
  {
    var at := LastWriteHeld(Pending(state), owner);
    forall k | 0 <= k < |Pending(state)| && WritesTo(Pending(state)[k], owner)
      ensures Pending(state)[k].revision <= EntryOf(state.entries, owner).revision
    {
      LastWriteLatest(Pending(state), owner, k);
    }
  }

  lemma {:induction false} LastWriteLatest(pending: seq<Work>, owner: string, k: nat)
    requires Ranked(pending, owner) && k < |pending| && WritesTo(pending[k], owner)
    ensures LastWrite(pending, owner).Some? && pending[k].revision <= LastWrite(pending, owner).value.revision
  {
    var last := |pending| - 1;
    if !WritesTo(pending[last], owner) {
      LastWriteLatest(pending[..last], owner, k);
    }
  }

  lemma WrittenKeeps(state: State, owner: string, document: Json)
    requires Valid(state) && NotErasing(state, owner)
    ensures Valid(Written(state, owner, document))
    ensures document.Object? ==> Document(Written(state, owner, document), owner) == document
  {
    var after := Written(state, owner, document);
    if document.Object? {
      var work := Write(owner, document, EntryOf(state.entries, owner).revision + 1);
      PendingQueued(state, after, work);
      forall other
        ensures Consistent(after, other)
      {
        assert Consistent(state, other);
        LastWriteAppended(Pending(state), work, other);
        RevisionsBelow(state, other);
      }
    }
  }

  lemma ErasingKeeps(state: State, plugin: string)
    requires Valid(state)
    ensures Valid(Erasing(state, plugin))
  {
    var after := Erasing(state, plugin);
    PendingQueued(state, after, Erase(plugin));
    forall owner
      ensures Consistent(after, owner)
    {
      assert Consistent(state, owner);
      LastWriteAppended(Pending(state), Erase(plugin), owner);
    }
  }

  lemma PendingWorked(state: State, success: bool)
    requires state.queue != []
    ensures Pending(state) == Works(state.ready + state.tasks) + ([state.queue[0]] + state.queue[1..])
    ensures Pending(Worked(state, success)) ==
              if Harmless(Task(state.queue[0], success)) then Works(state.ready + state.tasks) + state.queue[1..]
                  else Pending(state)
    ensures Worked(state, success).ready + Worked(state, success).tasks ==
        (state.ready + state.tasks) + [Task(state.queue[0], success)]
  {
    var task, before := Task(state.queue[0], success), Works(state.ready + state.tasks);
    Associative(state.ready, state.tasks, [task]);
    WorksConcat(state.ready + state.tasks, [task]);
    WorksOne(task);
    assert state.queue == [state.queue[0]] + state.queue[1..];
    Associative(before, [state.queue[0]], state.queue[1..]);
    assert before + [] == before;
  }

  /** The works without the erase between them are the same works. */
  lemma WithoutErase(before: seq<Work>, work: Work, behind: seq<Work>, k: nat)
    requires k < |before + behind|
    ensures (before + behind)[k] == (before + ([work] + behind))[if k < |before| then k else k + 1]
  {
  }

  /** An erase that fails leaves the writes of an owner in their order. */
  lemma EraseRemoved(before: seq<Work>, work: Work, behind: seq<Work>, owner: string)
    ensures Ranked(before + ([work] + behind), owner) ==> Ranked(before + behind, owner)
    ensures Ordered(before + ([work] + behind), owner) ==> Ordered(before + behind, owner)
  {
    var fewer, more := before + behind, before + ([work] + behind);
    forall k | 0 <= k < |fewer|
      ensures fewer[k] == more[if k < |before| then k else k + 1]
    {
      WithoutErase(before, work, behind, k);
    }
  }

  /** The last write of an owner is the same without an erase. */
  lemma {:induction false} LastWriteWithout(before: seq<Work>, work: Work, behind: seq<Work>, owner: string)
    requires work.Erase?
    ensures LastWrite(before + behind, owner) == LastWrite(before + ([work] + behind), owner)
    decreases |behind|
  {
    if behind == [] {
      assert before + behind == before && before + ([work] + behind) == before + [work];
      LastWriteAppended(before, work, owner);
    } else {
      var last := |behind| - 1;
      assert before + behind == (before + behind[..last]) + [behind[last]];
      assert before + ([work] + behind) == (before + ([work] + behind[..last])) + [behind[last]];
      LastWriteAppended(before + behind[..last], behind[last], owner);
      LastWriteAppended(before + ([work] + behind[..last]), behind[last], owner);
      LastWriteWithout(before, work, behind[..last], owner);
    }
  }

  lemma RowStored(rows: map<string, Json>, work: Work, owner: string)
    requires work.Write? ==> work.document.Object?
    ensures Row(Stored(rows, work), owner) == After(Row(rows, owner), Task(work, true), owner)
  {
    if work.Erase? {
      DiscardedIsDeleted(owner, work.plugin);
    }
  }

  /** A turn of the worker settles the table of an owner as its completion will settle the entry. */
  lemma WorkedSettles(state: State, success: bool, owner: string)
    requires state.queue != [] && (state.queue[0].Write? ==> state.queue[0].document.Object?)
    requires Committed(EntryOf(state.entries, owner).committed, state.ready + state.tasks, owner) ==
        Row(state.rows, owner)
    ensures
      var after := Worked(state, success);
      Committed(EntryOf(after.entries, owner).committed, after.ready + after.tasks, owner) == Row(after.rows, owner)
  {
    PendingWorked(state, success);
    CommittedAppended(EntryOf(state.entries, owner).committed, state.ready + state.tasks,
        Task(state.queue[0], success), owner);
    RowStored(state.rows, state.queue[0], owner);
  }

  lemma QueuedObject(state: State)
    requires state.queue != [] && state.queue[0].Write? && Ranked(Pending(state), state.queue[0].owner)
    ensures state.queue[0].document.Object?
  {
    assert Pending(state)[|Works(state.ready + state.tasks)|] == state.queue[0];
    assert WritesTo(state.queue[0], state.queue[0].owner);
  }

  lemma WorkedKeeps(state: State, success: bool)
    requires Valid(state) && state.queue != []
    ensures Valid(Worked(state, success))
  {
    var after, work := Worked(state, success), state.queue[0];
    PendingWorked(state, success);
    if work.Write? {
      assert Consistent(state, work.owner);
      QueuedObject(state);
    }
    forall owner
      ensures Consistent(after, owner)
    {
      assert Consistent(state, owner);
      WorkedSettles(state, success, owner);
      if Harmless(Task(work, success)) {
        EraseRemoved(Works(state.ready + state.tasks), work, state.queue[1..], owner);
        LastWriteWithout(Works(state.ready + state.tasks), work, state.queue[1..], owner);
      }
    }
  }

  lemma SwappedKeeps(state: State)
    requires Valid(state) && state.ready == []
    ensures Valid(Swapped(state))
  {
    var after := Swapped(state);
    assert after.ready + after.tasks == state.ready + state.tasks;
    forall owner
      ensures Consistent(after, owner)
    {
      assert Consistent(state, owner);
    }
  }

  lemma PendingFinished(state: State)
    requires state.ready != []
    ensures Pending(state) == if Harmless(state.ready[0]) then Pending(Finished(state))
        else [state.ready[0].work] + Pending(Finished(state))
    ensures state.ready + state.tasks == [state.ready[0]] + (Finished(state).ready + Finished(state).tasks)
  {
    var first, rest := state.ready[0], state.ready[1..];
    assert state.ready == [first] + rest;
    Associative([first], rest, state.tasks);
    assert ([first] + (rest + state.tasks))[1..] == rest + state.tasks;
    Associative([first.work], Works(rest + state.tasks), state.queue);
    assert [] + Works(rest + state.tasks) == Works(rest + state.tasks);
  }

  lemma RankedBehind(work: Work, pending: seq<Work>, owner: string)
    requires Ranked([work] + pending, owner)
    ensures Ranked(pending, owner)
    ensures WritesTo(work, owner) ==>
        work.document.Object? && forall k | 0 <= k < |pending|
        && WritesTo(pending[k], owner) :: work.revision < pending[k].revision
  {
    var all := [work] + pending;
    assert all[0] == work;
    assert forall k | 0 <= k < |pending| :: pending[k] == all[k + 1];
  }

  lemma OrderedBehind(work: Work, pending: seq<Work>, owner: string)
    requires Ordered([work] + pending, owner)
    ensures Ordered(pending, owner)
    ensures work.Erase? && Touches(work, owner) ==> forall k | 0 <= k < |pending| :: !WritesTo(pending[k], owner)
  {
    var all := [work] + pending;
    RankedBehind(work, pending, owner);
    assert all[0] == work;
    assert forall k | 0 <= k < |pending| :: pending[k] == all[k + 1];
  }

  /** A completion settles what readers see of an owner, unless it erases a document that is written again behind it. */
  lemma SeenBehind(entries: map<string, Entry>, task: Task, pending: seq<Work>, owner: string)
    requires Ranked([task.work] + pending, owner) && Seen(entries, [task.work] + pending, owner)
    requires task.work.Erase? && Touches(task.work, owner) ==>
        forall k | 0 <= k < |pending| :: !WritesTo(pending[k], owner)
    ensures Seen(Settled(entries, task), pending, owner)
    ensures EntryOf(Settled(entries, task), owner).committed == After(EntryOf(entries, owner).committed, task, owner)
  {
    RankedBehind(task.work, pending, owner);
    LastWritePrepended(task.work, pending, owner);
    var at := LastWriteHeld(pending, owner);
    hide LastWrite, Ranked;
  }

  /** A completion settles an owner just as the table was settled before. */
  lemma FinishedKeepsOne(state: State, owner: string)
    requires state.ready != [] && Consistent(state, owner)
    ensures Consistent(Finished(state), owner)
  {
    var after, task := Finished(state), state.ready[0];
    PendingFinished(state);
    assert (([task] + (after.ready + after.tasks))[1..]) == after.ready + after.tasks;
    if !Harmless(task) {
      hide Settled, Pending, Seen, Ranked;
      OrderedBehind(task.work, Pending(after), owner);
      SeenBehind(state.entries, task, Pending(after), owner);
    }
  }

  lemma FinishedKeeps(state: State)
    requires Valid(state) && state.ready != []
    ensures Valid(Finished(state))
  {
    forall owner
      ensures Consistent(Finished(state), owner)
    {
      assert Consistent(state, owner);
      FinishedKeepsOne(state, owner);
    }
  }

  // ----- What readers are promised -------------------------------------------------------------------------

  /** While a write of an owner is in flight readers see the last document written. */
  lemma ReadersSeeLastWrite(state: State, owner: string, at: nat)
    requires Valid(state) && at < |Pending(state)| && WritesTo(Pending(state)[at], owner)
    requires forall k | at < k < |Pending(state)| :: !WritesTo(Pending(state)[k], owner)
    ensures Document(state, owner) == Pending(state)[at].document
  {
    assert Consistent(state, owner);
    var last := LastWriteHeld(Pending(state), owner);
    LastWriteLatest(Pending(state), owner, at);
  }

  /** Once nothing of an owner is in flight, what readers see, what is committed and what the table holds agree. */
  lemma QuietAgrees(state: State, owner: string)
    requires Valid(state) && forall k | 0 <= k < |Pending(state)| :: !Touches(Pending(state)[k], owner)
    ensures Document(state, owner) == EntryOf(state.entries, owner).committed == Row(state.rows, owner)
  {
    assert Consistent(state, owner);
    var at := LastWriteHeld(Pending(state), owner);
    Untouched(EntryOf(state.entries, owner).committed, state.ready + state.tasks, owner, state.queue);
  }

  lemma {:induction false} Untouched(committed: Json, tasks: seq<Task>, owner: string, queue: seq<Work>)
    requires forall k | 0 <= k < |Works(tasks) + queue| :: !Touches((Works(tasks) + queue)[k], owner)
    ensures Committed(committed, tasks, owner) == committed
  {
    if tasks != [] {
      var skip := if Harmless(tasks[0]) then 0 else 1;
      assert !Harmless(tasks[0]) ==> !Touches((Works(tasks) + queue)[0], owner);
      assert forall k | 0 <= k < |Works(tasks[1..]) + queue| ::
          (Works(tasks[1..]) + queue)[k] == (Works(tasks) + queue)[k + skip];
      Untouched(committed, tasks[1..], owner, queue);
    }
  }

  // ----- Whole runs ----------------------------------------------------------------------------------------

  /** What is loaded at the start: every row that holds an object, and nothing in flight. */
  function Loaded(rows: map<string, Json>): State {
    State(map owner | owner in rows && rows[owner].Object? :: Entry(rows[owner], rows[owner], 0), [], [], [], rows)
  }

  lemma LoadedEntry(rows: map<string, Json>, owner: string)
    ensures EntryOf(Loaded(rows).entries, owner).current == EntryOf(Loaded(rows).entries, owner).committed ==
        Row(rows, owner)
  {
  }

  lemma IdleConsistent(state: State, owner: string)
    requires state.queue == [] && state.tasks == [] && state.ready == []
    requires EntryOf(state.entries, owner).current == EntryOf(state.entries, owner).committed == Row(state.rows, owner)
    ensures Consistent(state, owner)
  {
    hide EntryOf, Row;
    assert state.ready + state.tasks == [] && Pending(state) == [];
  }

  lemma LoadedValid(rows: map<string, Json>)
    ensures Valid(Loaded(rows))
  {
    hide EntryOf, Row, Consistent;
    forall owner
      ensures Consistent(Loaded(rows), owner)
    {
      LoadedEntry(rows, owner);
      IdleConsistent(Loaded(rows), owner);
    }
  }

  /** A call on the interface thread, a turn of the worker with its outcome, or a turn of the drain. */
  datatype Step = Writing(owner: string,
      document: Json) | Erases(plugin: string) | Working(success: bool) | Swapping | Finishing

  predicate Enabled(state: State, step: Step) {
    match step
    case Writing(_, _) => true
    case Erases(_) => true
    case Working(_) => state.queue != []
    case Swapping => state.ready == []
    case Finishing => state.ready != []
  }

  function Take(state: State, step: Step): State
    requires Enabled(state, step)
  {
    match step
    case Writing(owner, document) => Written(state, owner, document)
    case Erases(plugin) => Erasing(state, plugin)
    case Working(success) => Worked(state, success)
    case Swapping => Swapped(state)
    case Finishing => Finished(state)
  }

  predicate Runs(state: State, steps: seq<Step>)
    decreases |steps|
  {
    steps != [] ==> Enabled(state, steps[0]) && Runs(Take(state, steps[0]), steps[1..])
  }

  function Run(state: State, steps: seq<Step>): State
    requires Runs(state, steps)
    decreases |steps|
  {
    if steps == [] then state else Run(Take(state, steps[0]), steps[1..])
  }

  /** No write is queued behind an erase that may still take its document. */
  predicate Careful(state: State, steps: seq<Step>)
    requires Runs(state, steps)
    decreases |steps|
  {
    steps != [] ==>
      && (steps[0].Writing? ==> NotErasing(state, steps[0].owner))
      && Careful(Take(state, steps[0]), steps[1..])
  }

  /**
   * In every careful run, however the works succeed and fail and the threads take turns, readers and table stay
   * consistent.
   */
  lemma {:induction false} RunKeeps(state: State, steps: seq<Step>)
    requires Valid(state) && Runs(state, steps) && Careful(state, steps)
    ensures Valid(Run(state, steps))
    decreases |steps|
  {
    if steps != [] {
      match steps[0] {
        case Writing(owner, document) => WrittenKeeps(state, owner, document);
        case Erases(plugin) => ErasingKeeps(state, plugin);
        case Working(success) => WorkedKeeps(state, success);
        case Swapping => SwappedKeeps(state);
        case Finishing => FinishedKeeps(state);
      }
      RunKeeps(Take(state, steps[0]), steps[1..]);
    }
  }

  /** What a reader is promised of an owner at any moment. */
  predicate Promised(state: State, owner: string) {
    var pending := Pending(state);
    && (forall at | 0 <= at < |pending| && WritesTo(pending[at], owner)
        && (forall k | at < k < |pending| :: !WritesTo(pending[k], owner)) ::
          Document(state, owner) == pending[at].document)
    && ((forall k | 0 <= k < |pending| :: !Touches(pending[k], owner)) ==>
          Document(state, owner) == EntryOf(state.entries, owner).committed == Row(state.rows, owner))
  }

  lemma ValidPromises(state: State, owner: string)
    requires Valid(state)
    ensures Promised(state, owner)
  {
    hide Consistent, Document, Pending, Row, EntryOf;
    var pending := Pending(state);
    forall at | 0 <= at < |pending| && WritesTo(pending[at], owner)
        && (forall k | at < k < |pending| :: !WritesTo(pending[k], owner))
      ensures Document(state, owner) == pending[at].document
    {
      ReadersSeeLastWrite(state, owner, at);
    }
    if forall k | 0 <= k < |pending| :: !Touches(pending[k], owner) {
      QuietAgrees(state, owner);
    }
  }

  lemma PromisedMeans(state: State, owner: string)
    requires Promised(state, owner)
    ensures (forall k | 0 <= k < |Pending(state)| :: !Touches(Pending(state)[k], owner)) ==>
              Document(state, owner) == EntryOf(state.entries, owner).committed == Row(state.rows, owner)
    ensures forall at | 0 <= at < |Pending(state)| && WritesTo(Pending(state)[at], owner)
              && (forall k | at < k < |Pending(state)| :: !WritesTo(Pending(state)[k], owner)) ::
                Document(state, owner) == Pending(state)[at].document
  {
  }

  /** One write, from the call to its completion: it is careful, and ends in agreement. */
  lemma OneWrite(state: State, owner: string, document: Json)
    requires Quiet(state) && document.Object?
    ensures
      var steps := [Writing(owner, document), Working(true), Swapping, Finishing];
      && Runs(state, steps) && Careful(state, steps) && Settling(steps[1..])
      && var last := Run(state, steps);
         Quiet(last) && Document(last, owner) == document == Row(last.rows, owner)
  {
    var steps := [Writing(owner, document), Working(true), Swapping, Finishing];
    var written := Written(state, owner, document);
    var write := Write(owner, document, EntryOf(state.entries, owner).revision + 1);
    assert written.queue == [write];
    assert NotErasing(state, owner) by {
      assert state.ready + state.tasks == [] && Pending(state) == [];
    }
    var worked := Worked(written, true);
    assert worked.queue == [] && worked.tasks == [Task(write, true)];
    var swapped := Swapped(worked);
    var last := Finished(swapped);
    assert last.ready == [] && last.tasks == [] && last.queue == [];
    assert steps[1..] == [Working(true), Swapping, Finishing] && steps[1..][1..] == [Swapping, Finishing];
    assert [Swapping, Finishing][1..] == [Finishing] && [Finishing][1..] == [];
    hide Written, Worked, Swapped, Finished, NotErasing, Document, Row;
    assert Runs(last, []) && Run(last, []) == last && Careful(last, []);
    assert Runs(swapped, [Finishing]) && Run(swapped, [Finishing]) == last && Careful(swapped, [Finishing]);
    assert Runs(worked, [Swapping, Finishing]) && Run(worked, [Swapping, Finishing]) == last
        && Careful(worked, [Swapping, Finishing]);
    assert Runs(written, steps[1..]) && Run(written, steps[1..]) == last && Careful(written, steps[1..]);
  }

  /** The promise holds from the start of the product on, for every owner. */
  lemma RunPromises(rows: map<string, Json>, steps: seq<Step>, owner: string)
    requires Runs(Loaded(rows), steps) && Careful(Loaded(rows), steps)
    ensures Promised(Run(Loaded(rows), steps), owner)
    ensures
      var last := Run(Loaded(rows), steps);
      (forall k | 0 <= k < |Pending(last)| :: !Touches(Pending(last)[k], owner)) ==>
        Document(last, owner) == EntryOf(last.entries, owner).committed == Row(last.rows, owner)
    ensures
      var pending := Pending(Run(Loaded(rows), steps));
      forall at | 0 <= at < |pending| && WritesTo(pending[at], owner)
          && (forall k | at < k < |pending| :: !WritesTo(pending[k], owner)) ::
        Document(Run(Loaded(rows), steps), owner) == pending[at].document
  {
    hide Promised, Consistent, Loaded, Pending, Document, EntryOf, Row, Run, Runs, Careful;
    LoadedValid(rows);
    RunKeeps(Loaded(rows), steps);
    ValidPromises(Run(Loaded(rows), steps), owner);
    PromisedMeans(Run(Loaded(rows), steps), owner);
  }

  /**
   * The care is needed: a document written behind an erase that takes it is stored, yet readers are left with an
   * empty one.
   */
  lemma WriteBehindErase(state: State, plugin: string, owner: string, document: Json)
    requires Valid(state) && state.queue == [] && state.tasks == [] && state.ready == []
    requires Belongs(owner, plugin) && document.Object? && document != EMPTY
    ensures
      var erasing := Written(Erasing(state, plugin), owner, document);
      var last := Finished(Finished(Swapped(Worked(Worked(erasing, true), true))));
      && Pending(last) == []
      && Document(last, owner) == EMPTY
      && Row(last.rows, owner) == document
  {
    var erasing := Written(Erasing(state, plugin), owner, document);
    var write := Write(owner, document, EntryOf(state.entries, owner).revision + 1);
    assert erasing.queue == [Erase(plugin), write];
    var worked := Worked(Worked(erasing, true), true);
    assert worked.queue == [] && worked.tasks == [Task(Erase(plugin), true), Task(write, true)];
    var once := Finished(Swapped(worked));
    assert once.ready == [Task(write, true)];
    assert owner !in once.entries;
    var last := Finished(once);
    assert last.ready == [] && last.ready + last.tasks == [];
  }

  // ----- When a write behind an erase does no harm ---------------------------------------------------------

  predicate Quiet(state: State) {
    state.queue == [] && state.tasks == [] && state.ready == []
  }

  /** What readers see, what is committed and what the table holds are one. */
  predicate Agrees(state: State, owner: string) {
    Document(state, owner) == EntryOf(state.entries, owner).committed == Row(state.rows, owner)
  }

  /** Nobody writes or erases any more: the works in flight only come to their end. */
  predicate Settling(steps: seq<Step>) {
    forall k | 0 <= k < |steps| :: steps[k].Working? || steps[k].Swapping? || steps[k].Finishing?
  }

  /** However the works in flight succeed and fail and the threads take turns, the owner agrees at the end. */
  ghost predicate AlwaysAgrees(state: State, owner: string) {
    forall steps | Settling(steps) && Runs(state, steps) && Quiet(Run(state, steps)) :: Agrees(Run(state, steps), owner)
  }

  /**
   * A document written now agrees with the table in the end, whatever happens, if and only if no erase that may still
   * take it is in flight or it is the empty one.
   */
  lemma WriteAgreesIff(state: State, owner: string, document: Json)
    requires Valid(state) && document.Object?
    ensures AlwaysAgrees(Written(state, owner, document), owner) <==> NotErasing(state, owner) || document == EMPTY
  {
    var written := Written(state, owner, document);
    if NotErasing(state, owner) {
      WrittenKeeps(state, owner, document);
      ValidAgrees(written, owner);
    } else if document == EMPTY {
      EmptyFades(state, owner);
      QueueSane(state);
      FadingAgrees(written, owner);
    } else {
      WriteIsLost(state, owner, document);
    }
  }

  lemma {:induction false} SettlingIsCareful(state: State, steps: seq<Step>)
    requires Settling(steps) && Runs(state, steps)
    ensures Careful(state, steps)
    decreases |steps|
  {
    if steps != [] {
      SettlingIsCareful(Take(state, steps[0]), steps[1..]);
    }
  }

  lemma ValidAgrees(state: State, owner: string)
    requires Valid(state)
    ensures AlwaysAgrees(state, owner)
  {
    hide Valid, Run, Runs, Careful, Settling, EntryOf, Row;
    forall steps | Settling(steps) && Runs(state, steps) && Quiet(Run(state, steps))
      ensures Agrees(Run(state, steps), owner)
    {
      SettlingIsCareful(state, steps);
      RunKeeps(state, steps);
      assert Pending(Run(state, steps)) == [];
      QuietAgrees(Run(state, steps), owner);
    }
  }

  /** Only the last write stands behind an erase, and it is empty. */
  predicate Loose(pending: seq<Work>, owner: string) {
    && Ranked(pending, owner)
    && (forall i, j | 0 <= i < j < |pending| && pending[i].Erase? && Touches(pending[i], owner)
        && WritesTo(pending[j], owner) :: pending[j].document == EMPTY)
  }

  predicate OnlyEmpty(pending: seq<Work>, owner: string) {
    forall k | 0 <= k < |pending| && WritesTo(pending[k], owner) :: pending[k].document == EMPTY
  }

  /**
   * An empty document behind an erase: either the erase is still to complete, or the entry has gone and stays empty.
   */
  predicate Fading(state: State, owner: string) {
    var entry := EntryOf(state.entries, owner);
    && Committed(entry.committed, state.ready + state.tasks, owner) == Row(state.rows, owner)
    && ((Loose(Pending(state), owner) && Seen(state.entries, Pending(state), owner))
        || (OnlyEmpty(Pending(state), owner) && entry.current == entry.committed == EMPTY))
  }

  lemma EmptyFades(state: State, owner: string)
    requires Valid(state)
    ensures Fading(Written(state, owner, EMPTY), owner)
  {
    var after, work := Written(state, owner, EMPTY), Write(owner, EMPTY, EntryOf(state.entries, owner).revision + 1);
    PendingQueued(state, after, work);
    assert Consistent(state, owner);
    LastWriteAppended(Pending(state), work, owner);
    RevisionsBelow(state, owner);
  }

  /** What the queue carries are objects. */
  predicate Sane(queue: seq<Work>) {
    forall k | 0 <= k < |queue| && queue[k].Write? :: queue[k].document.Object?
  }

  lemma QueueSane(state: State)
    requires Valid(state)
    ensures Sane(state.queue)
  {
    forall k | 0 <= k < |state.queue| && state.queue[k].Write?
      ensures state.queue[k].document.Object?
    {
      var work := state.queue[k];
      assert Consistent(state, work.owner);
      assert Pending(state)[|Works(state.ready + state.tasks)| + k] == work && WritesTo(work, work.owner);
    }
  }

  lemma LooseRemoved(before: seq<Work>, work: Work, behind: seq<Work>, owner: string)
    ensures Loose(before + ([work] + behind), owner) ==> Loose(before + behind, owner)
    ensures OnlyEmpty(before + ([work] + behind), owner) ==> OnlyEmpty(before + behind, owner)
  {
    var fewer, more := before + behind, before + ([work] + behind);
    EraseRemoved(before, work, behind, owner);
    forall k | 0 <= k < |fewer|
      ensures fewer[k] == more[if k < |before| then k else k + 1]
    {
      WithoutErase(before, work, behind, k);
    }
    hide Ranked;
  }

  lemma FadingWorked(state: State, success: bool, owner: string)
    requires Fading(state, owner) && Sane(state.queue) && state.queue != []
    ensures Fading(Worked(state, success), owner) && Sane(Worked(state, success).queue)
  {
    hide Loose, OnlyEmpty, Row, Committed, LastWrite;
    var before, work, behind := Works(state.ready + state.tasks), state.queue[0], state.queue[1..];
    PendingWorked(state, success);
    WorkedSettles(state, success, owner);
    if Harmless(Task(work, success)) {
      LooseRemoved(before, work, behind, owner);
      LastWriteWithout(before, work, behind, owner);
    }
  }

  lemma LooseBehind(work: Work, pending: seq<Work>, owner: string)
    requires Loose([work] + pending, owner)
    ensures Loose(pending, owner)
    ensures work.Erase? && Touches(work, owner) ==> OnlyEmpty(pending, owner)
  {
    var all := [work] + pending;
    RankedBehind(work, pending, owner);
    assert all[0] == work && forall k | 0 <= k < |pending| :: pending[k] == all[k + 1];
  }

  /** An erase that completes leaves an entry that is empty, and an empty entry stays so behind empty writes. */
  lemma EmptySettled(entries: map<string, Entry>, task: Task, owner: string)
    requires WritesTo(task.work, owner) ==> task.work.document == EMPTY
    requires EntryOf(entries, owner).current == EntryOf(entries, owner).committed == EMPTY
        || (task.work.Erase? && Touches(task.work, owner) && task.success)
    ensures EntryOf(Settled(entries, task), owner).current == EntryOf(Settled(entries, task), owner).committed == EMPTY
  {
  }

  lemma SettledCommits(entries: map<string, Entry>, task: Task, owner: string)
    ensures EntryOf(Settled(entries, task), owner).committed == After(EntryOf(entries, owner).committed, task, owner)
  {
  }

  lemma FadingFinished(state: State, owner: string)
    requires Fading(state, owner) && state.ready != []
    ensures Fading(Finished(state), owner) && Finished(state).queue == state.queue
  {
    var after, task := Finished(state), state.ready[0];
    var pending := Pending(after);
    PendingFinished(state);
    SettledCommits(state.entries, task, owner);
    assert (([task] + (after.ready + after.tasks))[1..]) == after.ready + after.tasks;
    hide Settled, Seen, Ranked, EntryOf, Pending, Row;
    if !Harmless(task) {
      FadingBehind(state.entries, task, pending, owner);
    } else {
      HarmlessSettles(state.entries, task);
    }
  }

  lemma HarmlessSettles(entries: map<string, Entry>, task: Task)
    requires Harmless(task)
    ensures Settled(entries, task) == entries
  {
  }

  lemma FadingBehind(entries: map<string, Entry>, task: Task, pending: seq<Work>, owner: string)
    requires !Harmless(task)
    requires (Loose([task.work] + pending, owner) && Seen(entries, [task.work] + pending, owner))
             || (OnlyEmpty([task.work] + pending, owner)
                 && EntryOf(entries, owner).current == EntryOf(entries, owner).committed == EMPTY)
    ensures (Loose(pending, owner) && Seen(Settled(entries, task), pending, owner))
            || (OnlyEmpty(pending, owner)
                && EntryOf(Settled(entries, task), owner).current ==
                EntryOf(Settled(entries, task), owner).committed == EMPTY)
  {
    hide Settled, Seen, Ranked, EntryOf;
    var all := [task.work] + pending;
    assert all[0] == task.work && forall k | 0 <= k < |pending| :: pending[k] == all[k + 1];
    var erases := task.work.Erase? && Touches(task.work, owner);
    if Loose(all, owner) && Seen(entries, all, owner) {
      LooseBehind(task.work, pending, owner);
      if erases {
        EmptySettled(entries, task, owner);
      } else {
        SeenBehind(entries, task, pending, owner);
      }
    } else {
      EmptySettled(entries, task, owner);
    }
  }

  lemma {:induction false} FadingRuns(state: State, steps: seq<Step>, owner: string)
    requires Fading(state, owner) && Sane(state.queue) && Settling(steps) && Runs(state, steps)
    ensures Fading(Run(state, steps), owner)
    decreases |steps|
  {
    hide Fading, Sane;
    if steps != [] {
      var next := Take(state, steps[0]);
      match steps[0] {
        case Working(success) => FadingWorked(state, success, owner);
        case Swapping => FadingSwapped(state, owner);
        case Finishing => FadingFinished(state, owner);
        case _ =>
      }
      FadingRuns(next, steps[1..], owner);
    }
  }

  lemma FadingSwapped(state: State, owner: string)
    requires Fading(state, owner) && state.ready == []
    ensures Fading(Swapped(state), owner) && Swapped(state).queue == state.queue
  {
    assert Swapped(state).ready + Swapped(state).tasks == state.ready + state.tasks;
  }

  lemma FadingAgrees(state: State, owner: string)
    requires Fading(state, owner) && Sane(state.queue)
    ensures AlwaysAgrees(state, owner)
  {
    forall steps | Settling(steps) && Runs(state, steps) && Quiet(Run(state, steps))
      ensures Agrees(Run(state, steps), owner)
    {
      FadingRuns(state, steps, owner);
      var last := Run(state, steps);
      assert last.ready + last.tasks == [] && Pending(last) == [];
    }
  }

  // ----- The run in which everything succeeds --------------------------------------------------------------

  function Successes(queue: seq<Work>): (tasks: seq<Task>)
    ensures |tasks| == |queue| && forall k | 0 <= k < |queue| :: tasks[k] == Task(queue[k], true)
  {
    seq(|queue|, k requires 0 <= k < |queue| => Task(queue[k], true))
  }

  /** Every completion there will be when every work in flight succeeds. */
  function AllTasks(state: State): seq<Task> {
    state.ready + state.tasks + Successes(state.queue)
  }

  function SettledAll(entries: map<string, Entry>, tasks: seq<Task>): map<string, Entry>
    decreases |tasks|
  {
    if tasks == [] then entries else SettledAll(Settled(entries, tasks[0]), tasks[1..])
  }

  function StoredAll(rows: map<string, Json>, queue: seq<Work>): map<string, Json>
    decreases |queue|
  {
    if queue == [] then rows else StoredAll(Stored(rows, queue[0]), queue[1..])
  }

  lemma {:induction false} StoredAppended(rows: map<string, Json>, queue: seq<Work>, work: Work)
    ensures StoredAll(rows, queue + [work]) == Stored(StoredAll(rows, queue), work)
    decreases |queue|
  {
    if queue == [] {
      assert [work][1..] == [];
    } else {
      assert (queue + [work])[1..] == queue[1..] + [work];
      StoredAppended(Stored(rows, queue[0]), queue[1..], work);
    }
  }

  function Drive(state: State): seq<Step>
    decreases 3 * |state.queue| + 2 * |state.tasks| + |state.ready|
  {
    if state.queue != [] then [Working(true)] + Drive(Worked(state, true))
    else if state.ready != [] then [Finishing] + Drive(Finished(state))
    else if state.tasks != [] then [Swapping] + Drive(Swapped(state))
    else []
  }

  lemma RunFirst(state: State, step: Step, steps: seq<Step>)
    requires (step.Working? || step.Swapping? || step.Finishing?) && Enabled(state, step)
    requires Settling(steps) && Runs(Take(state, step), steps)
    ensures Settling([step] + steps) && Runs(state, [step] + steps)
        && Run(state, [step] + steps) == Run(Take(state, step), steps)
  {
    hide Take, Enabled;
    assert ([step] + steps)[1..] == steps;
  }

  lemma {:induction false} DriveEnds(state: State)
    ensures Settling(Drive(state)) && Runs(state, Drive(state)) && Quiet(Run(state, Drive(state)))
    ensures Run(state, Drive(state)).entries == SettledAll(state.entries, AllTasks(state))
    ensures Run(state, Drive(state)).rows == StoredAll(state.rows, state.queue)
    decreases 3 * |state.queue| + 2 * |state.tasks| + |state.ready|
  {
    hide Settled, Stored, AllTasks, SettledAll, StoredAll, Settling, Runs, Run;
    AllTasksStep(state);
    if state.queue != [] {
      DriveEnds(Worked(state, true));
      RunFirst(state, Working(true), Drive(Worked(state, true)));
    } else if state.ready != [] {
      DriveEnds(Finished(state));
      RunFirst(state, Finishing, Drive(Finished(state)));
    } else if state.tasks != [] {
      DriveEnds(Swapped(state));
      RunFirst(state, Swapping, Drive(Swapped(state)));
    } else {
      NothingRuns(state);
    }
  }

  lemma NothingRuns(state: State)
    ensures Settling([]) && Runs(state, []) && Run(state, []) == state
  {
  }

  /** What every work and every completion leads to is the same after a turn that succeeds. */
  lemma AllTasksStep(state: State)
    ensures state.queue != [] ==>
              var next := Worked(state, true);
              AllTasks(next) == AllTasks(state) && next.entries == state.entries
                  && StoredAll(next.rows, next.queue) == StoredAll(state.rows, state.queue)
    ensures state.queue == [] && state.ready != [] ==>
              var next := Finished(state);
              SettledAll(next.entries, AllTasks(next)) == SettledAll(state.entries, AllTasks(state))
                  && next.rows == state.rows && next.queue == state.queue
    ensures state.queue == [] && state.ready == [] ==>
              var next := Swapped(state);
              AllTasks(next) == AllTasks(state) && next.entries == state.entries && next.rows == state.rows
                  && next.queue == state.queue
    ensures Quiet(state) ==>
              SettledAll(state.entries, AllTasks(state)) == state.entries
                && StoredAll(state.rows, state.queue) == state.rows
  {
    hide Settled, Stored;
    if state.queue != [] {
      assert AllTasks(Worked(state, true)) == AllTasks(state);
    } else if state.ready != [] {
      assert AllTasks(Finished(state)) == AllTasks(state)[1..] && AllTasks(state)[0] == state.ready[0];
    } else {
      assert AllTasks(Swapped(state)) == AllTasks(state);
    }
  }

  lemma {:induction false} WorksOfSuccesses(queue: seq<Work>)
    ensures Works(Successes(queue)) == queue
  {
    if queue != [] {
      assert Successes(queue)[1..] == Successes(queue[1..]);
      WorksOfSuccesses(queue[1..]);
    }
  }

  /** An entry that is empty stays so while no write of its owner fails. */
  lemma {:induction false} StaysEmpty(entries: map<string, Entry>, tasks: seq<Task>, owner: string)
    requires EntryOf(entries, owner).current == EMPTY
    requires forall k | 0 <= k < |tasks| && WritesTo(tasks[k].work, owner) :: tasks[k].success
    ensures EntryOf(SettledAll(entries, tasks), owner).current == EMPTY
    decreases |tasks|
  {
    if tasks != [] {
      StaysEmpty(Settled(entries, tasks[0]), tasks[1..], owner);
    }
  }

  lemma {:induction false} WritesAreWorks(tasks: seq<Task>, owner: string)
    requires forall k | 0 <= k < |Works(tasks)| :: !WritesTo(Works(tasks)[k], owner)
    ensures forall k | 0 <= k < |tasks| :: !WritesTo(tasks[k].work, owner)
  {
    if tasks != [] {
      var skip := if Harmless(tasks[0]) then 0 else 1;
      assert skip == 1 ==> Works(tasks)[0] == tasks[0].work;
      assert forall k | 0 <= k < |Works(tasks[1..])| :: Works(tasks[1..])[k] == Works(tasks)[k + skip];
      WritesAreWorks(tasks[1..], owner);
    }
  }

  /** An erase that succeeds empties the entry, and a write behind it that succeeds too does not fill it again. */
  lemma {:induction false} EmptyBehindErase(entries: map<string, Entry>, tasks: seq<Task>, write: Task,
      owner: string, at: nat)
    requires Ordered(Works(tasks), owner) && write.success
    requires at < |Works(tasks)| && Works(tasks)[at].Erase? && Touches(Works(tasks)[at], owner)
    ensures EntryOf(SettledAll(entries, tasks + [write]), owner).current == EMPTY
    decreases |tasks|
  {
    var first, rest := tasks[0], tasks[1..];
    assert (tasks + [write])[1..] == rest + [write];
    if Harmless(first) {
      assert [] + Works(rest) == Works(rest);
      EmptyBehindErase(Settled(entries, first), rest, write, owner, at);
    } else {
      OrderedBehind(first.work, Works(rest), owner);
      if first.work.Erase? && Touches(first.work, owner) {
        WritesAreWorks(rest, owner);
        StaysEmpty(Settled(entries, first), rest + [write], owner);
      } else {
        EmptyBehindErase(Settled(entries, first), rest, write, owner, at - 1);
      }
    }
  }

  /** Behind an erase that may still take it a document is stored and never read, if everything succeeds. */
  lemma WriteIsLost(state: State, owner: string, document: Json)
    requires Valid(state) && !NotErasing(state, owner) && document.Object? && document != EMPTY
    ensures !AlwaysAgrees(Written(state, owner, document), owner)
  {
    var written := Written(state, owner, document);
    var write := Write(owner, document, EntryOf(state.entries, owner).revision + 1);
    DrivenEmpty(state, owner, write, written.entries);
    StoredAppended(state.rows, state.queue, write);
    DriveEnds(written);
    var last := Run(written, Drive(written));
    assert Row(last.rows, owner) == document && Document(last, owner) == EMPTY by {
      hide Run, Runs, Drive, SettledAll, StoredAll, AllTasks, NotErasing;
      AllTasksWritten(state, written, write);
      assert Row(Stored(StoredAll(state.rows, state.queue), write), owner) == document;
    }
  }

  lemma AllTasksWritten(state: State, written: State, write: Work)
    requires written.queue == state.queue + [write] && written.ready == state.ready && written.tasks == state.tasks
    ensures AllTasks(written) == AllTasks(state) + [Task(write, true)]
  {
    assert Successes(written.queue) == Successes(state.queue) + [Task(write, true)];
    Associative(state.ready + state.tasks, Successes(state.queue), [Task(write, true)]);
  }

  lemma DrivenEmpty(state: State, owner: string, write: Work, entries: map<string, Entry>)
    requires Valid(state) && !NotErasing(state, owner)
    ensures EntryOf(SettledAll(entries, AllTasks(state) + [Task(write, true)]), owner).current == EMPTY
  {
    hide SettledAll;
    var at :| 0 <= at < |Pending(state)| && Pending(state)[at].Erase? && Touches(Pending(state)[at], owner);
    assert Consistent(state, owner);
    WorksConcat(state.ready + state.tasks, Successes(state.queue));
    WorksOfSuccesses(state.queue);
    assert Works(AllTasks(state)) == Pending(state);
    EmptyBehindErase(entries, AllTasks(state), Task(write, true), owner, at);
  }

  /**
   * An empty document is harmless by itself but not for what follows: when its write fails late, it takes the next
   * document along, because both carry the first revision of their entry.
   */
  lemma EmptyBehindEraseHarms(state: State, plugin: string, owner: string, document: Json)
    requires Quiet(state) && owner !in state.entries && Belongs(owner, plugin) && document.Object? && document != EMPTY
    ensures
      var begun := Finished(Swapped(Worked(Written(Erasing(state, plugin), owner, EMPTY), true)));
      var failed := Finished(Swapped(Worked(Written(begun, owner, document), false)));
      NotErasing(begun, owner) && Pending(failed) == [Write(owner, document, 1)] && Document(failed, owner) == EMPTY
  {
    var erasing := Written(Erasing(state, plugin), owner, EMPTY);
    assert erasing.queue == [Erase(plugin), Write(owner, EMPTY, 1)];
    var swapped := Swapped(Worked(erasing, true));
    assert swapped.ready == [Task(Erase(plugin), true)] && swapped.queue == [Write(owner, EMPTY, 1)];
    var begun := Finished(swapped);
    assert begun.ready == [] && begun.ready + begun.tasks == [] && Pending(begun) == [Write(owner, EMPTY, 1)]
        && owner !in begun.entries;
    var again := Written(begun, owner, document);
    assert again.queue == [Write(owner, EMPTY, 1), Write(owner, document, 1)];
    var late := Swapped(Worked(again, false));
    assert late.ready == [Task(Write(owner, EMPTY, 1), false)] && late.queue == [Write(owner, document, 1)];
    var failed := Finished(late);
    assert failed.ready == [] && failed.ready + failed.tasks == [] && Pending(failed) == [Write(owner, document, 1)];
  }

  // ----- The objects ---------------------------------------------------------------------------------------

  class MainThreadQueue {
    var tasks: seq<Task>
    var ready: seq<Task>

    constructor ()
      ensures tasks == [] && ready == []
    {
      tasks, ready := [], [];
    }

    method Post(task: Task)
      modifies this
      ensures tasks == old(tasks) + [task] && ready == old(ready)
    {
      tasks := tasks + [task];
    }

    /** The first part of drain: what is posted from here on waits for the next drain. */
    method Swap()
      requires ready == []
      modifies this
      ensures ready == old(tasks) && tasks == []
    {
      ready, tasks := tasks, [];
    }
  }

  class DatabaseExecutor {
    const mainThread: MainThreadQueue
    var rows: map<string, Json>
    var queue: seq<Work>

    constructor (rows: map<string, Json>, mainThread: MainThreadQueue)
      ensures this.mainThread == mainThread && this.rows == rows && queue == []
    {
      this.mainThread, this.rows, queue := mainThread, rows, [];
    }

    method Enqueue(work: Work)
      modifies this
      ensures queue == old(queue) + [work] && rows == old(rows)
    {
      queue := queue + [work];
    }

    /** One turn of the worker; the machine decides whether the database takes the work. */
    method Turn(success: bool)
      requires queue != []
      modifies this, mainThread
      ensures queue == old(queue)[1..] && rows == (if success then Stored(old(rows), old(queue)[0]) else old(rows))
      ensures mainThread.tasks == old(mainThread.tasks) + [Task(old(queue)[0], success)]
          && mainThread.ready == old(mainThread.ready)
    {
      var work := queue[0];
      queue := queue[1..];
      if success {
        match work
        case Write(owner, document, _) => rows := rows[owner := document];
        case Erase(plugin) => rows := map owner | owner in rows && !Deleted(owner, plugin) :: rows[owner];
      }
      mainThread.Post(Task(work, success));
    }
  }

  class PreferenceStore {
    const executor: DatabaseExecutor
    var entries: map<string, Entry>

    ghost function Abstract(): State
      reads this, executor, executor.mainThread
    {
      State(entries, executor.queue, executor.mainThread.tasks, executor.mainThread.ready, executor.rows)
    }

    constructor (executor: DatabaseExecutor)
      requires executor.queue == [] && executor.mainThread.tasks == [] && executor.mainThread.ready == []
      ensures this.executor == executor && Abstract() == Loaded(executor.rows) && Valid(Abstract())
    {
      this.executor := executor;
      entries := map owner | owner in executor.rows
          && executor.rows[owner].Object? :: Entry(executor.rows[owner], executor.rows[owner], 0);
      LoadedValid(executor.rows);
    }

    method Read(owner: string) returns (document: Json)
      ensures document == Document(Abstract(), owner)
    {
      if owner in entries {
        return entries[owner].current;
      }
      return EMPTY;
    }

    method Write(owner: string, document: Json) returns (accepted: bool)
      modifies this, executor
      ensures Abstract() == Written(old(Abstract()), owner, document)
      ensures old(Valid(Abstract()) && NotErasing(Abstract(), owner)) ==> Valid(Abstract())
      ensures accepted == document.Object? && (accepted ==> Document(Abstract(), owner) == document)
    {
      hide Valid, Consistent;
      if Valid(Abstract()) && NotErasing(Abstract(), owner) {
        WrittenKeeps(Abstract(), owner, document);
      }
      if !document.Object? {
        return false;
      }
      if owner !in entries {
        entries := entries[owner := Entry(EMPTY, EMPTY, 0)];
      }
      var revision := entries[owner].revision + 1;
      entries := entries[owner := entries[owner].(current := document, revision := revision)];
      executor.Enqueue(Work.Write(owner, document, revision));
      return true;
    }

    method Discard(plugin: string)
      modifies this
      ensures entries == WithoutEntries(old(entries), plugin)
    {
      entries := map owner | owner in entries && !Belongs(owner, plugin) :: entries[owner];
    }

    /** The next completion of a drain. */
    method Finish()
      requires executor.mainThread.ready != []
      modifies this, executor.mainThread
      ensures Abstract() == Finished(old(Abstract())) && (old(Valid(Abstract())) ==> Valid(Abstract()))
    {
      hide Valid, Consistent;
      if Valid(Abstract()) {
        FinishedKeeps(Abstract());
      }
      var task := executor.mainThread.ready[0];
      executor.mainThread.ready := executor.mainThread.ready[1..];
      match task.work
      case Write(owner, document, revision) =>
        if owner !in entries {
          entries := entries[owner := Entry(EMPTY, EMPTY, 0)];
        }
        var written := entries[owner];
        if task.success {
          entries := entries[owner := written.(committed := document)];
        } else if revision == written.revision {
          entries := entries[owner := written.(current := written.committed)];
        }
      case Erase(plugin) =>
        if task.success {
          Discard(plugin);
        }
    }

    /** A turn of the worker seen from the store: readers see no difference. */
    method WorkerTurn(success: bool)
      requires executor.queue != []
      modifies executor, executor.mainThread
      ensures Abstract() == Worked(old(Abstract()), success) && (old(Valid(Abstract())) ==> Valid(Abstract()))
    {
      hide Valid, Consistent;
      if Valid(Abstract()) {
        WorkedKeeps(Abstract(), success);
      }
      executor.Turn(success);
    }

    /** MainThreadQueue::drain with the completions of this store. */
    method Drain()
      requires executor.mainThread.ready == []
      modifies this, executor.mainThread
      ensures old(Valid(Abstract())) ==> Valid(Abstract())
      ensures entries == SettledAll(old(entries), old(executor.mainThread.tasks))
      ensures executor.mainThread.ready == [] && executor.mainThread.tasks == []
      ensures executor.queue == old(executor.queue) && executor.rows == old(executor.rows)
    {
      hide Valid, Consistent, Settled;
      if Valid(Abstract()) {
        SwappedKeeps(Abstract());
      }
      executor.mainThread.Swap();
      while executor.mainThread.ready != []
        invariant old(Valid(Abstract())) ==> Valid(Abstract())
        invariant executor.mainThread.tasks == [] && executor.queue == old(executor.queue)
            && executor.rows == old(executor.rows)
        invariant SettledAll(entries, executor.mainThread.ready) ==
            SettledAll(old(entries), old(executor.mainThread.tasks))
        decreases |executor.mainThread.ready|
      {
        Finish();
      }
    }
  }
}

/**
 * src/scripting/FileStaging.cpp over src/execution/WorkerPool.cpp: private folders that a pool of workers creates and
 * removes.
 */
module FileStaging {
  import opened Foundation

  // ----- The state ----------------------------------------------------------------------------------

  const LIMIT: nat := 32

  datatype Entry = Entry(path: string, started: bool, ready: bool, created: bool, closing: bool)

  /**
   * A task of the pool: create or release the folder of an entry, or work of another host. A release answers unless
   * the host is going.
   */
  datatype Job = Create(id: int) | Release(id: int, answers: bool) | Other

  /** The completion of a release that answers, and whether the removal failed. */
  datatype Post = Released(id: int, failed: bool)

  /**
   * `entries` are all entries ever opened, `held` those the host still knows. `workers` is what each thread of the
   * pool runs. `folders` are the folders on the disk with the entry that created each, and `logged` the entries whose
   * failed removal was logged.
   */
  datatype State = State(
    next: int, entries: map<int, Entry>, held: set<int>, alive: bool,
    queue: seq<Job>, workers: seq<Option<Job>>, posts: seq<Post>,
    folders: map<string, int>, logged: set<int>)

  function Start(threads: nat): State {
    State(0, map[], {}, true, [], seq(threads, _ => None), [], map[], {})
  }

  // ----- The host ---------------------------------------------------------------------------------------

  predicate CanOpen(state: State) {
    state.alive && |state.held| < LIMIT
  }

  function Opened(state: State, path: string): State {
    var id := state.next + 1;
    state.(next := id, entries := state.entries[id := Entry(path, false, false, false, false)],
        held := state.held + {id})
  }

  predicate CanReady(state: State, id: int) {
    state.alive && id in state.held && id in state.entries && !state.entries[id].started && !state.entries[id].closing
  }

  /** ready: the creation is posted. */
  function Readied(state: State, id: int): State
    requires CanReady(state, id)
  {
    state.(entries := state.entries[id := state.entries[id].(started := true)], queue := state.queue + [Create(id)])
  }

  predicate CanClose(state: State, id: int) {
    state.alive && id in state.held && id in state.entries && !state.entries[id].closing
  }

  /** close: the release is posted. */
  function Closing(state: State, id: int): State
    requires CanClose(state, id)
  {
    state.(entries := state.entries[id := state.entries[id].(closing := true)],
        queue := state.queue + [Release(id, true)])
  }

  /** The releases the destructor posts, for the first identities. */
  function Leaving(entries: map<int, Entry>, held: set<int>, count: nat): seq<Job> {
    if count == 0 then []
    else
      Leaving(entries, held, count - 1)
      + if count in held && count in entries && !entries[count].closing then [Release(count, false)] else []
  }

  /** The destructor. */
  function Destroyed(state: State): State
    requires state.alive && 0 <= state.next
  {
    state.(alive := false, queue := state.queue + Leaving(state.entries, state.held, state.next))
  }

  /** A completion on the interface thread. */
  function Completed(state: State): State
    requires state.posts != []
  {
    var post := state.posts[0];
    var rest := state.(posts := state.posts[1..]);
    if !state.alive || post.id !in state.entries then rest
    else if post.failed then rest.(entries := state.entries[post.id := state.entries[post.id].(closing := false)])
    else rest.(held := state.held - {post.id})
  }

  // ----- The workers ---------------------------------------------------------------------------------------

  predicate CanTake(state: State, worker: int) {
    0 <= worker < |state.workers| && state.workers[worker] == None && state.queue != []
  }

  /** A thread takes the first task. */
  function Taken(state: State, worker: int): State
    requires CanTake(state, worker)
  {
    state.(queue := state.queue[1..], workers := state.workers[worker := Some(state.queue[0])])
  }

  predicate Runs(state: State, worker: int) {
    0 <= worker < |state.workers| && state.workers[worker].Some?
  }

  /** A thread can go on with its task: a release waits until a creation that was started is ready. */
  predicate CanRun(state: State, worker: int) {
    && Runs(state, worker)
    && var job := state.workers[worker].value;
       match job
       case Other => true
       case Create(id) => id in state.entries
       case Release(id, _) => id in state.entries && (!state.entries[id].started || state.entries[id].ready)
  }

  /** The folder can be made only where there is none. */
  predicate Outcome(state: State, worker: int, success: bool)
    requires CanRun(state, worker)
  {
    var job := state.workers[worker].value;
    job.Create? && success ==> state.entries[job.id].path !in state.folders
  }

  function Ran(state: State, worker: int, success: bool): State
    requires CanRun(state, worker) && Outcome(state, worker, success)
  {
    var rest := state.(workers := state.workers[worker := None]);
    match state.workers[worker].value
    case Other => rest
    case Create(id) =>
      var entry := state.entries[id];
      rest.(entries := state.entries[id := entry.(created := success, ready := true)],
            folders := if success then state.folders[entry.path := id] else state.folders)
    case Release(id, answers) =>
      var entry := state.entries[id];
      var failed := entry.created && !success;
      rest.(folders := if entry.created && success then state.folders - {entry.path} else state.folders,
            logged := if failed then state.logged + {id} else state.logged,
            posts := if answers then state.posts + [Released(id, failed)] else state.posts)
  }

  // ----- The invariant -------------------------------------------------------------------------------------

  /** How often a task is queued or running. */
  function Count(state: State, job: Job): nat {
    multiset(state.queue)[job] + multiset(state.workers)[Some(job)]
  }

  function Releases(state: State, id: int): nat {
    Count(state, Release(id, true)) + Count(state, Release(id, false))
  }

  function Answers(state: State, id: int): nat {
    multiset(state.posts)[Released(id, true)] + multiset(state.posts)[Released(id, false)]
  }

  /** The folder of the entry is on the disk. */
  predicate Present(state: State, id: int) {
    id in state.entries && state.entries[id].path in state.folders && state.folders[state.entries[id].path] == id
  }

  /** The creation of the entry is queued or running. */
  predicate Creating(state: State, id: int) {
    id in state.entries && state.entries[id].started && !state.entries[id].ready
  }

  predicate Fine(state: State, id: int) {
    && (id in state.entries <==> 1 <= id <= state.next)
    && (id in state.held ==> id in state.entries)
    && Count(state, Create(id)) == (if Creating(state, id) then 1 else 0)
    && (id !in state.entries ==> Releases(state, id) + Answers(state, id) == 0)
    && (id in state.entries ==> FineEntry(state, id, state.entries[id]))
  }

  predicate FineEntry(state: State, id: int, entry: Entry)
    requires id in state.entries
  {
    && (entry.created ==> entry.ready) && (entry.ready ==> entry.started)
    && (Present(state, id) ==> entry.created)
    && (Releases(state, id) > 0 && entry.created ==> Present(state, id))
    && (multiset(state.posts)[Released(id, true)] > 0 ==> Present(state, id) && id in state.logged)
    && (multiset(state.posts)[Released(id, false)] > 0 ==> !Present(state, id))
    && (Answers(state, id) > 0 ==> !Creating(state, id))
    && (if state.alive then
          && Count(state, Release(id, false)) == 0
          && Releases(state, id) + Answers(state, id) == (if id in state.held && entry.closing then 1 else 0)
          && (id in state.held && !entry.closing && entry.created ==> Present(state, id))
          && (id !in state.held ==> !Present(state, id) && !Creating(state, id))
        else
          && Releases(state, id) + Answers(state, id) <= 1
          && (Creating(state, id) ==> Releases(state, id) == 1)
          && (Present(state, id) ==> Releases(state, id) == 1 || id in state.logged))
  }

  /** No release is taken before the creation of its entry. */
  predicate Ordered(state: State) {
    && (forall i, j | 0 <= i < j < |state.queue|
        && state.queue[i].Release? :: state.queue[j] != Create(state.queue[i].id))
    && (forall w | 0 <= w < |state.workers| && state.workers[w].Some?
        && state.workers[w].value.Release? :: Create(state.workers[w].value.id) !in state.queue)
  }

  /** A folder on the disk belongs to the entry that names it. */
  predicate Owned(state: State) {
    forall path | path in state.folders :: state.folders[path] in state.entries
        && state.entries[state.folders[path]].path == path
  }

  ghost predicate Valid(state: State) {
    && (forall id: int :: Fine(state, id))
    && Ordered(state) && Owned(state) && 0 <= state.next
  }

  // ----- What follows from it ------------------------------------------------------------------------------

  predicate Drained(state: State) {
    state.queue == [] && forall w | 0 <= w < |state.workers| :: state.workers[w] == None
  }

  /** A release that waits only waits for a creation that another thread is running, never for one still queued. */
  lemma WaitsOnlyForTaken(state: State, worker: int) returns (other: int)
    requires Valid(state) && Runs(state, worker) && state.workers[worker].value.Release? && !CanRun(state, worker)
    ensures CanRun(state, other) && state.workers[other] == Some(Create(state.workers[worker].value.id))
  {
    var id := state.workers[worker].value.id;
    assert Fine(state, id);
    assert multiset(state.workers)[state.workers[worker]] > 0;
    assert Count(state, Create(id)) == 1;
    assert Create(id) !in state.queue;
    assert Some(Create(id)) in multiset(state.workers);
    other := Holder(state.workers, Some(Create(id)));
  }

  lemma {:induction false} Holder(workers: seq<Option<Job>>, task: Option<Job>) returns (at: int)
    requires multiset(workers)[task] > 0
    ensures 0 <= at < |workers| && workers[at] == task
  {
    assert workers == [workers[0]] + workers[1..];
    if workers[0] == task {
      at := 0;
    } else {
      at := Holder(workers[1..], task);
      at := at + 1;
    }
  }

  /** While a task is queued or running some thread can go on, and going on brings the pool nearer to its end. */
  lemma NeverStuck(state: State) returns (worker: int)
    requires Valid(state) && |state.workers| > 0 && !Drained(state)
    ensures CanTake(state, worker) || CanRun(state, worker)
  {
    worker := FirstBusy(state.workers);
    if worker < |state.workers| {
      assert Fine(state, if state.workers[worker].value.Other? then 0 else state.workers[worker].value.id);
      assert multiset(state.workers)[state.workers[worker]] > 0;
      if !CanRun(state, worker) {
        worker := WaitsOnlyForTaken(state, worker);
      }
    } else {
      worker := 0;
    }
  }

  lemma FirstBusy(workers: seq<Option<Job>>) returns (worker: nat)
    ensures worker <= |workers| && (worker < |workers| ==> workers[worker].Some?)
    ensures worker == |workers| ==> forall w | 0 <= w < |workers| :: workers[w] == None
  {
    worker := 0;
    while worker < |workers| && workers[worker] == None
      invariant worker <= |workers| && forall w | 0 <= w < worker :: workers[w] == None
    {
      worker := worker + 1;
    }
  }

  /**
   * Once the host is gone and the pool drained, every folder left on the disk is one whose failed removal was logged.
   */
  lemma NothingLeaks(state: State, path: string)
    requires Valid(state) && !state.alive && Drained(state)
    ensures path in state.folders ==> state.folders[path] in state.logged
  {
    if path in state.folders {
      var id := state.folders[path];
      assert Fine(state, id);
      NoTask(state, Release(id, true));
      NoTask(state, Release(id, false));
    }
  }

  lemma NoTask(state: State, job: Job)
    requires Drained(state)
    ensures Count(state, job) == 0
  {
    if multiset(state.workers)[Some(job)] > 0 {
      var at := Holder(state.workers, Some(job));
    }
  }

  // ----- Every step keeps the invariant --------------------------------------------------------------------

  lemma StartValid(threads: nat)
    ensures Valid(Start(threads))
  {
    var state := Start(threads);
    forall id: int
      ensures Fine(state, id)
    {
      NoTask(state, Create(id));
      NoTask(state, Release(id, true));
      NoTask(state, Release(id, false));
    }
  }

  lemma OpenedKeeps(state: State, path: string)
    requires Valid(state) && CanOpen(state)
    ensures Valid(Opened(state, path))
  {
    var after := Opened(state, path);
    forall id: int
      ensures Fine(after, id)
    {
      assert Fine(state, id);
      assert Count(after, Create(id)) == Count(state, Create(id));
      assert Releases(after, id) == Releases(state, id);
    }
    forall owned | owned in after.folders
      ensures after.folders[owned] in after.entries && after.entries[after.folders[owned]].path == owned
    {
      assert Fine(state, state.folders[owned]);
      assert Fine(state, state.next + 1);
    }
  }

  /** A task more in the queue. */
  lemma Posted(state: State, after: State, job: Job)
    requires after.queue == state.queue + [job] && after.workers == state.workers
    ensures forall other :: Count(after, other) == Count(state, other) + if other == job then 1 else 0
  {
  }

  lemma OrderedPosted(state: State, after: State, job: Job)
    requires Ordered(state) && after.queue == state.queue + [job] && after.workers == state.workers
    requires job.Create? ==> Count(state, Release(job.id, true)) == 0 && Count(state, Release(job.id, false)) == 0
    ensures Ordered(after)
  {
    forall i, j | 0 <= i < j < |after.queue| && after.queue[i].Release?
      ensures after.queue[j] != Create(after.queue[i].id)
    {
      assert after.queue[i] in multiset(state.queue);
    }
    forall w | 0 <= w < |after.workers| && after.workers[w].Some? && after.workers[w].value.Release?
      ensures Create(after.workers[w].value.id) !in after.queue
    {
      assert after.workers[w] in multiset(state.workers);
    }
  }

  lemma ReadiedKeeps(state: State, id: int)
    requires Valid(state) && CanReady(state, id)
    ensures Valid(Readied(state, id))
  {
    var after := Readied(state, id);
    assert Fine(state, id);
    Posted(state, after, Create(id));
    OrderedPosted(state, after, Create(id));
    forall other: int
      ensures Fine(after, other)
    {
      assert Fine(state, other);
    }
  }

  lemma ClosingKeeps(state: State, id: int)
    requires Valid(state) && CanClose(state, id)
    ensures Valid(Closing(state, id))
  {
    var after := Closing(state, id);
    assert Fine(state, id);
    Posted(state, after, Release(id, true));
    OrderedPosted(state, after, Release(id, true));
    forall other: int
      ensures Fine(after, other)
    {
      assert Fine(state, other);
    }
  }

  lemma TakenCounts(state: State, worker: int, job: Job)
    requires CanTake(state, worker)
    ensures Count(Taken(state, worker), job) == Count(state, job)
  {
    assert state.queue == [state.queue[0]] + state.queue[1..];
  }

  lemma TakenKeeps(state: State, worker: int)
    requires Valid(state) && CanTake(state, worker)
    ensures Valid(Taken(state, worker))
  {
    var after := Taken(state, worker);
    forall id: int
      ensures Fine(after, id)
    {
      assert Fine(state, id);
      TakenCounts(state, worker, Create(id));
      TakenCounts(state, worker, Release(id, true));
      TakenCounts(state, worker, Release(id, false));
    }
    TakenOrdered(state, worker);
  }

  lemma TakenOrdered(state: State, worker: int)
    requires Ordered(state) && CanTake(state, worker)
    ensures Ordered(Taken(state, worker))
  {
    var after := Taken(state, worker);
    assert forall k | 0 <= k < |after.queue| :: after.queue[k] == state.queue[k + 1];
    forall w | 0 <= w < |after.workers| && after.workers[w].Some? && after.workers[w].value.Release?
      ensures Create(after.workers[w].value.id) !in after.queue
    {
      if w != worker {
        assert after.workers[w] == state.workers[w];
      }
    }
  }

  lemma RanCounts(state: State, worker: int, success: bool, job: Job)
    requires CanRun(state, worker) && Outcome(state, worker, success)
    ensures Count(Ran(state, worker, success), job) == Count(state, job) - if state.workers[worker].value ==
        job then 1 else 0
  {
  }

  lemma RanOrdered(state: State, worker: int, success: bool)
    requires Ordered(state) && CanRun(state, worker) && Outcome(state, worker, success)
    ensures Ordered(Ran(state, worker, success))
  {
    var after := Ran(state, worker, success);
    forall w | 0 <= w < |after.workers| && after.workers[w].Some? && after.workers[w].value.Release?
      ensures Create(after.workers[w].value.id) !in after.queue
    {
      assert after.workers[w] == state.workers[w];
    }
  }

  lemma RanOther(state: State, worker: int, success: bool, id: int)
    requires Fine(state, id) && CanRun(state, worker) && Outcome(state, worker, success)
        && state.workers[worker].value.Other?
    ensures Fine(Ran(state, worker, success), id)
  {
    RanCounts(state, worker, success, Create(id));
    RanCounts(state, worker, success, Release(id, true));
    RanCounts(state, worker, success, Release(id, false));
  }

  lemma RanCreate(state: State, worker: int, success: bool, id: int)
    requires Fine(state, id) && CanRun(state, worker) && Outcome(state, worker, success)
        && state.workers[worker].value.Create?
    requires Fine(state, state.workers[worker].value.id)
    ensures Fine(Ran(state, worker, success), id)
  {
    var job := state.workers[worker].value;
    RanCounts(state, worker, success, Create(id));
    RanCounts(state, worker, success, Release(id, true));
    RanCounts(state, worker, success, Release(id, false));
    assert multiset(state.workers)[state.workers[worker]] > 0;
  }

  lemma RanRelease(state: State, worker: int, success: bool, id: int)
    requires Fine(state, id) && CanRun(state, worker) && Outcome(state, worker, success)
        && state.workers[worker].value.Release?
    requires Fine(state, state.workers[worker].value.id)
    ensures Fine(Ran(state, worker, success), id)
  {
    var job := state.workers[worker].value;
    RanCounts(state, worker, success, Create(id));
    RanCounts(state, worker, success, Release(id, true));
    RanCounts(state, worker, success, Release(id, false));
    assert multiset(state.workers)[state.workers[worker]] > 0;
  }

  lemma RanOwned(state: State, worker: int, success: bool)
    requires Owned(state) && CanRun(state, worker) && Outcome(state, worker, success)
    ensures Owned(Ran(state, worker, success))
  {
  }

  lemma RanKeeps(state: State, worker: int, success: bool)
    requires Valid(state) && CanRun(state, worker) && Outcome(state, worker, success)
    ensures Valid(Ran(state, worker, success))
  {
    hide Fine, Ordered, Owned, Outcome, Ran;
    var after, job := Ran(state, worker, success), state.workers[worker].value;
    RanOrdered(state, worker, success);
    RanOwned(state, worker, success);
    assert !job.Other? ==> Fine(state, job.id);
    forall id: int
      ensures Fine(after, id)
    {
      assert Fine(state, id);
      match job
      case Other => RanOther(state, worker, success, id);
      case Create(_) => RanCreate(state, worker, success, id);
      case Release(_, _) => RanRelease(state, worker, success, id);
    }
    RanNext(state, worker, success);
  }

  lemma RanNext(state: State, worker: int, success: bool)
    requires CanRun(state, worker) && Outcome(state, worker, success)
    ensures Ran(state, worker, success).next == state.next
  {
  }

  lemma CompletedFine(state: State, id: int)
    requires state.posts != [] && Fine(state, id) && Fine(state, state.posts[0].id)
    ensures Fine(Completed(state), id)
  {
    var after, post := Completed(state), state.posts[0];
    assert state.posts == [post] + state.posts[1..];
    assert Count(after, Create(id)) == Count(state, Create(id));
    assert Releases(after, id) == Releases(state, id);
  }

  lemma CompletedKeeps(state: State)
    requires Valid(state) && state.posts != []
    ensures Valid(Completed(state))
  {
    assert Fine(state, state.posts[0].id);
    forall id: int
      ensures Fine(Completed(state), id)
    {
      assert Fine(state, id);
      CompletedFine(state, id);
    }
  }

  /** The destructor posts one release for each entry that is not closing already. */
  lemma {:induction false} LeavingCounts(entries: map<int, Entry>, held: set<int>, count: nat, job: Job)
    ensures multiset(Leaving(entries, held, count))[job] ==
              if job.Release? && !job.answers && 1 <= job.id <= count && job.id in held && job.id in entries
                  && !entries[job.id].closing then 1 else 0
  {
    if count > 0 {
      LeavingCounts(entries, held, count - 1, job);
    }
  }

  lemma DestroyedKeeps(state: State)
    requires Valid(state) && state.alive
    ensures Valid(Destroyed(state))
  {
    var after, leaving := Destroyed(state), Leaving(state.entries, state.held, state.next);
    forall id: int
      ensures Fine(after, id)
    {
      assert Fine(state, id);
      LeavingCounts(state.entries, state.held, state.next, Create(id));
      LeavingCounts(state.entries, state.held, state.next, Release(id, true));
      LeavingCounts(state.entries, state.held, state.next, Release(id, false));
    }
    DestroyedOrdered(state);
  }

  lemma DestroyedOrdered(state: State)
    requires Valid(state) && state.alive
    ensures Ordered(Destroyed(state))
  {
    var after, leaving := Destroyed(state), Leaving(state.entries, state.held, state.next);
    forall job: Job | job.Create?
      ensures job !in leaving
    {
      LeavingCounts(state.entries, state.held, state.next, job);
      assert job in leaving ==> job in multiset(leaving);
    }
    forall i, j | 0 <= i < j < |after.queue| && after.queue[i].Release?
      ensures after.queue[j] != Create(after.queue[i].id)
    {
      assert j >= |state.queue| ==> after.queue[j] in leaving;
    }
  }

  lemma NextIsNew(state: State)
    requires Valid(state)
    ensures state.next + 1 !in state.held && state.next + 1 !in state.entries
  {
    assert Fine(state, state.next + 1);
  }

  lemma LeavingAll(state: State)
    requires Valid(state)
    ensures forall job :: multiset(Leaving(state.entries, state.held, state.next))[job] ==
              if job.Release? && !job.answers && job.id in state.held && job.id in state.entries
                  && !state.entries[job.id].closing then 1 else 0
  {
    forall job: Job
      ensures multiset(Leaving(state.entries, state.held, state.next))[job] ==
                if job.Release? && !job.answers && job.id in state.held && job.id in state.entries
                    && !state.entries[job.id].closing then 1 else 0
    {
      LeavingCounts(state.entries, state.held, state.next, job);
      assert job.Release? ==> Fine(state, job.id);
    }
  }

  lemma DestroyedParts(state: State)
    requires state.alive && 0 <= state.next
    ensures Destroyed(state) ==
        state.(alive := false, queue := state.queue + Leaving(state.entries, state.held, state.next))
    ensures (state.queue + Leaving(state.entries, state.held, state.next))[|state.queue|..] ==
              Leaving(state.entries, state.held, state.next)
  {
  }

  // ----- Whole runs ----------------------------------------------------------------------------------------

  datatype Step =
    | Opening(path: string) | Starting(id: int) | Ending(id: int) | Leave | Complete | Foreign
    | Take(worker: int) | Go(worker: int, success: bool)

  predicate Enabled(state: State, step: Step) {
    match step
    case Opening(_) => CanOpen(state)
    case Starting(id) => CanReady(state, id)
    case Ending(id) => CanClose(state, id)
    case Leave => state.alive && 0 <= state.next
    case Complete => state.posts != []
    case Foreign => true
    case Take(worker) => CanTake(state, worker)
    case Go(worker, success) => CanRun(state, worker) && Outcome(state, worker, success)
  }

  /** Another host posts a task of its own. */
  function Shared(state: State): State {
    state.(queue := state.queue + [Other])
  }

  lemma SharedKeeps(state: State)
    requires Valid(state)
    ensures Valid(Shared(state))
  {
    var after := Shared(state);
    Posted(state, after, Other);
    OrderedPosted(state, after, Other);
    forall id: int
      ensures Fine(after, id)
    {
      assert Fine(state, id);
    }
  }

  function Next(state: State, step: Step): State
    requires Enabled(state, step)
  {
    match step
    case Opening(path) => Opened(state, path)
    case Starting(id) => Readied(state, id)
    case Ending(id) => Closing(state, id)
    case Leave => Destroyed(state)
    case Complete => Completed(state)
    case Foreign => Shared(state)
    case Take(worker) => Taken(state, worker)
    case Go(worker, success) => Ran(state, worker, success)
  }

  predicate Possible(state: State, steps: seq<Step>)
    decreases |steps|
  {
    steps != [] ==> Enabled(state, steps[0]) && Possible(Next(state, steps[0]), steps[1..])
  }

  function Run(state: State, steps: seq<Step>): State
    requires Possible(state, steps)
    decreases |steps|
  {
    if steps == [] then state else Run(Next(state, steps[0]), steps[1..])
  }

  lemma NextKeeps(state: State, step: Step)
    requires Valid(state) && Enabled(state, step)
    ensures Valid(Next(state, step)) && |Next(state, step).workers| == |state.workers|
  {
    hide Valid;
    match step
    case Opening(path) => OpenedKeeps(state, path);
    case Starting(id) => ReadiedKeeps(state, id);
    case Ending(id) => ClosingKeeps(state, id);
    case Leave => DestroyedKeeps(state);
    case Complete => CompletedKeeps(state);
    case Foreign => SharedKeeps(state);
    case Take(worker) => TakenKeeps(state, worker);
    case Go(worker, success) => RanKeeps(state, worker, success);
  }

  lemma {:induction false} RunKeeps(state: State, steps: seq<Step>)
    requires Valid(state) && Possible(state, steps)
    ensures Valid(Run(state, steps)) && |Run(state, steps).workers| == |state.workers|
    decreases |steps|
  {
    hide Valid, Next, Enabled;
    if steps != [] {
      NextKeeps(state, steps[0]);
      RunKeeps(Next(state, steps[0]), steps[1..]);
    }
  }

  /**
   * In every run over a pool of any size: a task is never stuck, and nothing leaks once the host is gone and the pool
   * drained.
   */
  lemma RunPromises(threads: nat, steps: seq<Step>, path: string) returns (worker: int)
    requires threads > 0 && Possible(Start(threads), steps)
    ensures !Drained(Run(Start(threads), steps)) ==>
        CanTake(Run(Start(threads), steps), worker) || CanRun(Run(Start(threads), steps), worker)
    ensures Drained(Run(Start(threads), steps)) && !Run(Start(threads), steps).alive
            && path in Run(Start(threads), steps).folders ==>
              Run(Start(threads), steps).folders[path] in Run(Start(threads), steps).logged
  {
    hide Valid, Possible, Run, Drained, CanTake, CanRun;
    worker := 0;
    StartValid(threads);
    RunKeeps(Start(threads), steps);
    var last := Run(Start(threads), steps);
    if !Drained(last) {
      worker := NeverStuck(last);
    } else if !last.alive {
      NothingLeaks(last, path);
    }
  }

  lemma RunStep(state: State, step: Step, steps: seq<Step>)
    requires Enabled(state, step) && Possible(Next(state, step), steps)
    ensures Possible(state, [step] + steps) && Run(state, [step] + steps) == Run(Next(state, step), steps)
  {
    assert ([step] + steps)[1..] == steps;
  }

  const MAKING: seq<Step> := [Starting(1), Take(0), Go(0, true)]
  const CLOSING: seq<Step> := [Ending(1), Take(0), Go(0, true), Complete]

  lemma FolderIsMade(path: string)
    ensures Possible(Start(1), [Opening(path)])
    ensures
      var entered := Run(Start(1), [Opening(path)]);
      Possible(entered, MAKING) && Run(entered, MAKING).folders == map[path := 1] && Run(entered, MAKING).held == {1}
  {
    var entered := Opened(Start(1), path);
    NoSteps(entered);
    RunStep(Start(1), Opening(path), []);
    assert [Opening(path)] + [] == [Opening(path)];
    var started := Readied(entered, 1);
    assert started.queue == [Create(1)];
    var taken := Taken(started, 0);
    assert taken.workers == [Some(Create(1))] && taken.entries[1].path == path;
    var made := Ran(taken, 0, true);
    hide Possible, Run, Opened, Readied, Taken, Ran;
    NoSteps(made);
    RunStep(taken, Go(0, true), []);
    assert [Go(0, true)] + [] == [Go(0, true)];
    RunStep(started, Take(0), [Go(0, true)]);
    assert [Take(0)] + [Go(0, true)] == [Take(0), Go(0, true)];
    RunStep(entered, Starting(1), [Take(0), Go(0, true)]);
    assert [Starting(1)] + [Take(0), Go(0, true)] == MAKING;
  }

  lemma FolderIsRemoved(state: State, path: string)
    requires state.alive && state.held == {1} && state.entries == map[1 := Entry(path, true, true, true, false)]
    requires state.queue == [] && state.workers == [None] && state.posts == [] && state.folders == map[path := 1]
    ensures Possible(state, CLOSING)
    ensures Run(state, CLOSING).held == {} && Run(state, CLOSING).folders == map[] && Run(state, CLOSING).posts == []
  {
    var ending := Closing(state, 1);
    assert ending.queue == [Release(1, true)];
    var releasing := Taken(ending, 0);
    assert releasing.workers == [Some(Release(1, true))];
    var released := Ran(releasing, 0, true);
    assert released.posts == [Released(1, false)] && released.folders == map[];
    var done := Completed(released);
    assert done.posts == [] && done.held == {};
    hide Possible, Run, Closing, Taken, Ran, Completed;
    NoSteps(done);
    RunStep(released, Complete, []);
    assert [Complete] + [] == [Complete];
    RunStep(releasing, Go(0, true), [Complete]);
    assert [Go(0, true)] + [Complete] == [Go(0, true), Complete];
    RunStep(ending, Take(0), [Go(0, true), Complete]);
    assert [Take(0)] + [Go(0, true), Complete] == [Take(0), Go(0, true), Complete];
    RunStep(state, Ending(1), [Take(0), Go(0, true), Complete]);
    assert [Ending(1)] + [Take(0), Go(0, true), Complete] == CLOSING;
  }

  lemma NoSteps(state: State)
    ensures Possible(state, []) && Run(state, []) == state
  {
  }

  lemma NextBounded(state: State, step: Step)
    requires Enabled(state, step) && |state.held| <= LIMIT
    ensures |Next(state, step).held| <= LIMIT
  {
  }

  /** In no run are more than 32 entries held. */
  lemma {:induction false} RunBounded(state: State, steps: seq<Step>)
    requires Possible(state, steps) && |state.held| <= LIMIT
    ensures |Run(state, steps).held| <= 32
    decreases |steps|
  {
    hide Next, Enabled;
    if steps != [] {
      NextBounded(state, steps[0]);
      RunBounded(Next(state, steps[0]), steps[1..]);
    }
  }

  /** What the pool has still to do; every turn of a thread makes it less. */
  function Work(state: State): nat {
    2 * |state.queue| + Busy(state.workers)
  }

  function Busy(workers: seq<Option<Job>>): nat {
    if workers == [] then 0 else (if workers[0].Some? then 1 else 0) + Busy(workers[1..])
  }

  lemma {:induction false} BusyChanged(workers: seq<Option<Job>>, worker: nat, task: Option<Job>)
    requires worker < |workers|
    ensures Busy(workers[worker := task]) + (if workers[worker].Some? then 1 else 0) ==
        Busy(workers) + if task.Some? then 1 else 0
  {
    if worker > 0 {
      assert workers[worker := task][1..] == workers[1..][worker - 1 := task];
      BusyChanged(workers[1..], worker - 1, task);
    } else {
      assert workers[0 := task][1..] == workers[1..];
    }
  }

  lemma TurnsEnd(state: State, worker: int, success: bool)
    ensures CanTake(state, worker) ==> Work(Taken(state, worker)) < Work(state)
    ensures CanRun(state, worker) && Outcome(state, worker, success) ==> Work(Ran(state, worker, success)) < Work(state)
  {
    if CanTake(state, worker) {
      BusyChanged(state.workers, worker, Some(state.queue[0]));
    } else if CanRun(state, worker) && Outcome(state, worker, success) {
      BusyChanged(state.workers, worker, None);
    }
  }

  // ----- The objects ---------------------------------------------------------------------------------------

  class WorkerPool {
    var tasks: seq<Job>
    var threads: seq<Option<Job>>

    constructor (count: nat)
      ensures tasks == [] && threads == seq(count, _ => None)
    {
      tasks, threads := [], seq(count, _ => None);
    }

    method Post(task: Job)
      modifies this`tasks
      ensures tasks == old(tasks) + [task]
    {
      tasks := tasks + [task];
    }

    /** A thread takes the first task. */
    method Take(thread: int)
      requires 0 <= thread < |threads| && threads[thread] == None && tasks != []
      modifies this
      ensures tasks == old(tasks)[1..] && threads == old(threads)[thread := Some(old(tasks)[0])]
    {
      threads := threads[thread := Some(tasks[0])];
      tasks := tasks[1..];
    }
  }

  class FileStaging {
    const pool: WorkerPool
    var next: int
    var entries: map<int, Entry>
    var held: set<int>
    var alive: bool
    var posts: seq<Post>
    var folders: map<string, int>
    var logged: set<int>

    ghost function Abstract(): State
      reads this, pool
    {
      State(next, entries, held, alive, pool.tasks, pool.threads, posts, folders, logged)
    }

    constructor (pool: WorkerPool)
      requires pool.tasks == [] && pool.threads == seq(|pool.threads|, _ => None)
      ensures this.pool == pool && Abstract() == Start(|pool.threads|) && Valid(Abstract())
    {
      this.pool := pool;
      next, entries, held, alive, posts, folders, logged := 0, map[], {}, true, [], map[], {};
      StartValid(|pool.threads|);
    }

    method Open(path: string) returns (id: Option<int>)
      requires Valid(Abstract()) && alive
      modifies this
      ensures id.Some? <==> |old(held)| < LIMIT
      ensures Abstract() == (if id.Some? then Opened(old(Abstract()), path) else old(Abstract())) && Valid(Abstract())
      ensures id.Some? ==> id.value == old(next) + 1
      ensures id.Some? ==>
                && id.value !in old(held) && held == old(held) + {id.value}
                && entries == old(entries)[id.value := Entry(path, false, false, false, false)]
      ensures pool.tasks == old(pool.tasks) && folders == old(folders) && posts == old(posts)
    {
      hide Valid;
      if |held| >= LIMIT {
        return None;
      }
      OpenedKeeps(Abstract(), path);
      NextIsNew(Abstract());
      next := next + 1;
      entries := entries[next := Entry(path, false, false, false, false)];
      held := held + {next};
      return Some(next);
    }

    method Ready(id: int) returns (accepted: bool)
      requires Valid(Abstract()) && alive
      modifies this, pool
      ensures accepted <==> CanReady(old(Abstract()), id)
      ensures Abstract() == (if accepted then Readied(old(Abstract()), id) else old(Abstract())) && Valid(Abstract())
      ensures accepted <==> id in held && id in entries && !old(entries)[id].started && !old(entries)[id].closing
      ensures accepted ==>
                && pool.tasks == old(pool.tasks) + [Job.Create(id)] && pool.threads == old(pool.threads)
                && entries == old(entries)[id := old(entries)[id].(started := true)]
    {
      hide Valid;
      if id !in held || id !in entries || entries[id].started || entries[id].closing {
        return false;
      }
      ReadiedKeeps(Abstract(), id);
      entries := entries[id := entries[id].(started := true)];
      pool.Post(Job.Create(id));
      return true;
    }

    method Close(id: int) returns (accepted: bool)
      requires Valid(Abstract()) && alive
      modifies this, pool
      ensures accepted <==> CanClose(old(Abstract()), id)
      ensures Abstract() == (if accepted then Closing(old(Abstract()), id) else old(Abstract())) && Valid(Abstract())
      ensures accepted <==> id in held && id in entries && !old(entries)[id].closing
      ensures accepted ==>
                && pool.tasks == old(pool.tasks) + [Job.Release(id, true)] && pool.threads == old(pool.threads)
                && entries == old(entries)[id := old(entries)[id].(closing := true)]
    {
      hide Valid;
      if id !in held || id !in entries || entries[id].closing {
        return false;
      }
      ClosingKeeps(Abstract(), id);
      entries := entries[id := entries[id].(closing := true)];
      pool.Post(Job.Release(id, true));
      return true;
    }

    /** The destructor. */
    method Destroy()
      requires Valid(Abstract()) && alive
      modifies this, pool
      ensures Abstract() == Destroyed(old(Abstract())) && Valid(Abstract())
      ensures !alive && entries == old(entries) && pool.threads == old(pool.threads) && old(pool.tasks) <= pool.tasks
      ensures forall job :: multiset(pool.tasks[|old(pool.tasks)|..])[job] ==
                if job.Release? && !job.answers && job.id in held && job.id in entries
                    && !entries[job.id].closing then 1 else 0
    {
      DestroyedKeeps(Abstract());
      LeavingAll(Abstract());
      DestroyedParts(Abstract());
      hide Valid, Destroyed;
      alive := false;
      PostReleases();
    }

    method PostReleases()
      requires 0 <= next
      modifies pool`tasks
      ensures pool.tasks == old(pool.tasks) + Leaving(entries, held, next)
    {
      for id := 1 to next + 1
        invariant pool.tasks == old(pool.tasks) + Leaving(entries, held, id - 1)
      {
        if id in held && id in entries && !entries[id].closing {
          pool.Post(Job.Release(id, false));
        }
      }
    }

    /** The creation, on the thread that took it. */
    method Create(worker: int, success: bool)
      requires Valid(Abstract()) && CanRun(Abstract(), worker) && Outcome(Abstract(), worker, success)
          && pool.threads[worker].value.Create?
      modifies this, pool
      ensures Abstract() == Ran(old(Abstract()), worker, success) && Valid(Abstract())
      ensures var id := old(pool.threads)[worker].value.id;
        && id in old(entries) && entries == old(entries)[id := old(entries)[id].(created := success, ready := true)]
        && folders == (if success then old(folders)[old(entries)[id].path := id] else old(folders))
        && pool.threads == old(pool.threads)[worker := None] && pool.tasks == old(pool.tasks) && posts == old(posts)
    {
      hide Valid;
      RanKeeps(Abstract(), worker, success);
      var id := pool.threads[worker].value.id;
      if success {
        folders := folders[entries[id].path := id];
      }
      entries := entries[id := entries[id].(created := success, ready := true)];
      pool.threads := pool.threads[worker := None];
    }

    /**
     * The release, on the thread that took it, once it waits no longer; `success` is what removing the folder would
     * answer.
     */
    method Release(worker: int, success: bool)
      requires Valid(Abstract()) && CanRun(Abstract(), worker) && pool.threads[worker].value.Release?
      modifies this, pool
      ensures Abstract() == Ran(old(Abstract()), worker, success) && Valid(Abstract())
      ensures var job := old(pool.threads)[worker].value;
        && job.id in old(entries) && entries == old(entries) && held == old(held)
        && var created := old(entries)[job.id].created;
           && folders == (if created && success then old(folders) - {old(entries)[job.id].path} else old(folders))
           && logged == old(logged) + (if created && !success then {job.id} else {})
           && posts == old(posts) + (if job.answers then [Released(job.id, created && !success)] else [])
           && pool.threads == old(pool.threads)[worker := None] && pool.tasks == old(pool.tasks)
    {
      hide Valid;
      RanKeeps(Abstract(), worker, success);
      var id, answers := pool.threads[worker].value.id, pool.threads[worker].value.answers;
      var error := false;
      if entries[id].created {
        if success {
          folders := folders - {entries[id].path};
        } else {
          error := true;
        }
      }
      if error {
        logged := logged + {id};
      }
      if answers {
        posts := posts + [Released(id, error)];
      }
      pool.threads := pool.threads[worker := None];
    }

    /** A completion on the interface thread. */
    method Complete()
      requires Valid(Abstract()) && posts != []
      modifies this
      ensures Abstract() == Completed(old(Abstract())) && Valid(Abstract())
      ensures posts == old(posts)[1..] && folders == old(folders) && pool.tasks == old(pool.tasks)
      ensures var post := old(posts)[0];
        && (alive && post.id in entries && !post.failed ==> held == old(held) - {post.id} && entries == old(entries))
        && (alive && post.id in entries && post.failed ==>
              held == old(held) && entries == old(entries)[post.id := old(entries)[post.id].(closing := false)])
        && (!alive ==> held == old(held) && entries == old(entries))
    {
      hide Valid;
      CompletedKeeps(Abstract());
      var post := posts[0];
      posts := posts[1..];
      if alive && post.id in entries {
        if post.failed {
          entries := entries[post.id := entries[post.id].(closing := false)];
        } else {
          held := held - {post.id};
        }
      }
    }
  }
}

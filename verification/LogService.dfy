/** src/logging/LogService.cpp: entries that wait for a consumer who hears of them once, over two locks. */
module LogService {
  import opened Foundation

  const CAPACITY: nat := 2000

  // ----- The state ----------------------------------------------------------------------------------

  /** How an entry left the queue: with the answer of a take, or dropped as the oldest of too many. */
  datatype Exit<E> = Answered(entry: E) | Dropped(entry: E)

  /** Where the thread stands that sets and clears the delivery, between its two locks. */
  datatype Control = Idle | Setting | Clearing

  /** What has happened: the entries written, how they left, and the consumers called in turn. */
  datatype History<E> = History(written: seq<E>, exits: seq<Exit<E>>, calls: seq<int>)

  /**
   * `pending`, `delivering` and `notified` are guarded by the first lock and `consumer` by the second. `owed` counts
   * the threads that have set `notified` and have not yet called, and `heard` is who was called since it was set.
   */
  datatype State<E> = State(
    pending: seq<E>, delivering: bool, notified: bool, consumer: Option<int>,
    owed: nat, heard: Option<int>, control: Control, history: History<E>)

  function Start<E>(): State<E> {
    State([], false, false, None, 0, None, Idle, History([], [], []))
  }

  // ----- The sections under the locks ------------------------------------------------------------------

  /** A thread finds that it has to call the consumer. */
  function Owing<E>(state: State<E>): State<E> {
    state.(notified := true, owed := state.owed + 1, heard := None)
  }

  /** The section of write: with nobody to deliver to, the oldest of too many entries makes room. */
  function Written<E>(state: State<E>, entry: E): State<E> {
    var full := !state.delivering && |state.pending| == CAPACITY;
    var kept := if full then state.pending[1..] else state.pending;
    var after := state.(pending := kept + [entry],
                        history := state.history.(written := state.history.written + [entry],
                                                  exits := if full then state.history.exits
                                                      + [Dropped(state.pending[0])] else state.history.exits));
    if !state.delivering || state.notified then after else Owing(after)
  }

  /** notify. */
  function Notified<E>(state: State<E>): State<E>
    requires state.owed > 0
  {
    match state.consumer
    case None => state.(owed := state.owed - 1)
    case Some(consumer) =>
      state.(owed := state.owed - 1, heard := Some(consumer),
          history := state.history.(calls := state.history.calls + [consumer]))
  }

  /** The first section of setDelivery. */
  function Replaced<E>(state: State<E>, consumer: int): State<E>
    requires state.control == Idle
  {
    state.(consumer := Some(consumer), control := Setting)
  }

  /** The second section of setDelivery. */
  function Delivering<E>(state: State<E>): State<E>
    requires state.control == Setting
  {
    var after := state.(delivering := true, control := Idle);
    if state.pending == [] || state.notified then after else Owing(after)
  }

  /** The first section of clearDelivery. */
  function Silenced<E>(state: State<E>): State<E>
    requires state.control == Idle
  {
    state.(delivering := false, notified := false, control := Clearing)
  }

  /** The second section of clearDelivery. */
  function Forgotten<E>(state: State<E>): State<E>
    requires state.control == Clearing
  {
    state.(consumer := None, control := Idle)
  }

  function Exits<E>(entries: seq<E>): (exits: seq<Exit<E>>)
    ensures |exits| == |entries|
  {
    seq(|entries|, k requires 0 <= k < |entries| => Answered(entries[k]))
  }

  /** take. */
  function Taken<E>(state: State<E>): State<E> {
    state.(pending := [], notified := false,
        history := state.history.(exits := state.history.exits + Exits(state.pending)))
  }

  // ----- The invariants ------------------------------------------------------------------------------------

  function Entries<E>(exits: seq<Exit<E>>): seq<E> {
    if exits == [] then [] else [exits[0].entry] + Entries(exits[1..])
  }

  /** What the takes answered, one after the other. */
  function Answers<E>(exits: seq<Exit<E>>): seq<E> {
    if exits == [] then []
    else (if exits[0].Answered? then [exits[0].entry] else []) + Answers(exits[1..])
  }

  /** No wake is lost: while a consumer is delivered to and entries wait, the call has been made or is owed. */
  predicate Awake<E>(state: State<E>) {
    && (state.delivering ==> state.consumer.Some?)
    && (state.control == Setting ==> state.consumer.Some?)
    && (state.control == Clearing ==> !state.delivering)
    && (state.notified ==> state.delivering)
    && (state.delivering && state.pending != [] ==> state.notified)
    && (state.notified && state.owed == 0 ==> state.heard.Some?)
  }

  /** No entry is lost: what left, in order, and what waits are what was written. */
  predicate Conserved<E(==)>(state: State<E>) {
    Entries(state.history.exits) + state.pending == state.history.written
  }

  /** The consumer that was called is the one that is set. */
  predicate Faithful<E>(state: State<E>) {
    state.notified && state.owed == 0 ==> state.heard == state.consumer
  }

  lemma {:induction false} EntriesConcat<E>(left: seq<Exit<E>>, right: seq<Exit<E>>)
    ensures Entries(left + right) == Entries(left) + Entries(right)
  {
    if left == [] {
      assert left + right == right;
    } else {
      assert (left + right)[1..] == left[1..] + right;
      EntriesConcat(left[1..], right);
    }
  }

  lemma {:induction false} AnswersConcat<E>(left: seq<Exit<E>>, right: seq<Exit<E>>)
    ensures Answers(left + right) == Answers(left) + Answers(right)
  {
    if left == [] {
      assert left + right == right;
    } else {
      assert (left + right)[1..] == left[1..] + right;
      AnswersConcat(left[1..], right);
      Associative(if left[0].Answered? then [left[0].entry] else [], Answers(left[1..]), Answers(right));
    }
  }

  lemma {:induction false} ExitsAreEntries<E>(entries: seq<E>)
    ensures Entries(Exits(entries)) == entries && Answers(Exits(entries)) == entries
  {
    if entries != [] {
      assert Exits(entries)[1..] == Exits(entries[1..]);
      ExitsAreEntries(entries[1..]);
      assert entries == [entries[0]] + entries[1..];
    }
  }

  lemma WrittenConserves<E>(state: State<E>, entry: E)
    requires Conserved(state)
    ensures Conserved(Written(state, entry))
  {
    var exits, pending := state.history.exits, state.pending;
    if !state.delivering && |pending| == CAPACITY {
      EntriesConcat(exits, [Dropped(pending[0])]);
      assert [Dropped(pending[0])][1..] == [];
      assert Entries([Dropped(pending[0])]) == [pending[0]];
      assert pending == [pending[0]] + pending[1..];
      Associative(Entries(exits), [pending[0]], pending[1..]);
      Associative(Entries(exits) + [pending[0]], pending[1..], [entry]);
    } else {
      Associative(Entries(exits), pending, [entry]);
    }
  }

  /** What a take answers is all that waits, and nothing waits behind it. */
  lemma TakenConserves<E>(state: State<E>)
    requires Conserved(state)
    ensures Conserved(Taken(state))
    ensures Answers(Taken(state).history.exits) == Answers(state.history.exits) + state.pending
  {
    EntriesConcat(state.history.exits, Exits(state.pending));
    AnswersConcat(state.history.exits, Exits(state.pending));
    ExitsAreEntries(state.pending);
    assert Entries(state.history.exits) + state.pending + [] == Entries(state.history.exits) + state.pending;
  }

  // ----- Whole runs ----------------------------------------------------------------------------------------

  datatype Step<E> = Write(entry: E) | Notify | SetFirst(consumer: int) | SetSecond | ClearFirst | ClearSecond | Take

  predicate Enabled<E>(state: State<E>, step: Step<E>) {
    match step
    case Write(_) => true
    case Notify => state.owed > 0
    case SetFirst(_) => state.control == Idle
    case SetSecond => state.control == Setting
    case ClearFirst => state.control == Idle
    case ClearSecond => state.control == Clearing
    case Take => true
  }

  function Next<E>(state: State<E>, step: Step<E>): State<E>
    requires Enabled(state, step)
  {
    match step
    case Write(entry) => Written(state, entry)
    case Notify => Notified(state)
    case SetFirst(consumer) => Replaced(state, consumer)
    case SetSecond => Delivering(state)
    case ClearFirst => Silenced(state)
    case ClearSecond => Forgotten(state)
    case Take => Taken(state)
  }

  predicate Runs<E>(state: State<E>, steps: seq<Step<E>>)
    decreases |steps|
  {
    steps != [] ==> Enabled(state, steps[0]) && Runs(Next(state, steps[0]), steps[1..])
  }

  function Run<E>(state: State<E>, steps: seq<Step<E>>): State<E>
    requires Runs(state, steps)
    decreases |steps|
  {
    if steps == [] then state else Run(Next(state, steps[0]), steps[1..])
  }

  lemma NextKeeps<E>(state: State<E>, step: Step<E>)
    requires Awake(state) && Conserved(state) && Enabled(state, step)
    ensures Awake(Next(state, step)) && Conserved(Next(state, step))
  {
    if step.Write? {
      WrittenConserves(state, step.entry);
    } else if step.Take? {
      TakenConserves(state);
    }
  }

  /** In every run, however the threads take turns between the locks, no wake and no entry is lost. */
  lemma {:induction false} RunKeeps<E>(state: State<E>, steps: seq<Step<E>>)
    requires Awake(state) && Conserved(state) && Runs(state, steps)
    ensures Awake(Run(state, steps)) && Conserved(Run(state, steps))
    decreases |steps|
  {
    hide Awake, Conserved, Next, Enabled;
    if steps != [] {
      NextKeeps(state, steps[0]);
      RunKeeps(Next(state, steps[0]), steps[1..]);
    }
  }

  // ----- When the consumer itself hears --------------------------------------------------------------------

  /** A consumer is set only when none is. */
  predicate Orderly<E>(state: State<E>, steps: seq<Step<E>>)
    requires Runs(state, steps)
    decreases |steps|
  {
    steps != [] ==>
      && (steps[0].SetFirst? ==> state.consumer == None)
      && Orderly(Next(state, steps[0]), steps[1..])
  }

  /** When consumers are cleared before others are set, the one that is set is the one that heard. */
  lemma {:induction false} OrderlyIsHeard<E>(state: State<E>, steps: seq<Step<E>>)
    requires Awake(state) && Conserved(state) && Faithful(state) && Runs(state, steps) && Orderly(state, steps)
    ensures Faithful(Run(state, steps))
    decreases |steps|
  {
    if steps != [] {
      NextKeeps(state, steps[0]);
      assert Faithful(Next(state, steps[0]));
      OrderlyIsHeard(Next(state, steps[0]), steps[1..]);
    }
  }

  /**
   * From the start on: while entries wait for a consumer it has been called since they do, or a thread is about to
   * call it.
   */
  lemma RunPromises<E>(steps: seq<Step<E>>)
    requires Runs(Start(), steps)
    ensures Conserved(Run(Start(), steps))
    ensures Run(Start(), steps).delivering && Run(Start(), steps).pending != [] ==>
              Run(Start(), steps).notified && (Run(Start(), steps).owed > 0 || Run(Start(), steps).heard.Some?)
    ensures Orderly(Start(), steps) && Run(Start(), steps).delivering && Run(Start(), steps).pending != [] ==>
              Run(Start(), steps).owed > 0 || Run(Start(), steps).heard == Run(Start(), steps).consumer
  {
    hide Runs, Run, Orderly, Conserved;
    StartKeeps<E>();
    RunKeeps(Start(), steps);
    if Orderly(Start(), steps) {
      OrderlyIsHeard(Start(), steps);
    }
  }

  lemma StartKeeps<E>()
    ensures Awake(Start<E>()) && Conserved(Start<E>()) && Faithful(Start<E>())
  {
  }

  /**
   * A consumer that replaces another while entries wait hears of them exactly if they were not announced yet or a
   * call is still owed.
   */
  lemma ReplacementHears<E>(state: State<E>, consumer: int)
    requires Awake(state) && state.control == Idle && state.pending != []
    ensures
      var after := Delivering(Replaced(state, consumer));
      after.consumer == Some(consumer) && (after.owed > 0 <==> !state.notified || state.owed > 0)
  {
  }

  function Repeat(consumer: int, count: nat): (calls: seq<int>)
    ensures |calls| == count && forall k | 0 <= k < count :: calls[k] == consumer
  {
    seq(count, _ => consumer)
  }

  /** A step that neither takes the entries nor changes who they are delivered to, except for ending a change. */
  predicate Leaves<E>(step: Step<E>) {
    !step.Take? && !step.ClearFirst? && !step.SetFirst?
  }

  /** Entries wait and a consumer is there, or just being set. */
  predicate Telling<E>(state: State<E>, consumer: int) {
    && Awake(state) && state.pending != []
    && state.consumer == Some(consumer)
    && (state.control == Setting || (state.control == Idle && state.notified))
  }

  /** The calls that are owed, with the one the end of a setting will owe. */
  function Due<E>(state: State<E>): nat {
    state.owed + if state.notified then 0 else 1
  }

  lemma TellingStep<E>(state: State<E>, step: Step<E>, consumer: int)
    requires Telling(state, consumer) && Enabled(state, step) && Leaves(step)
    ensures Telling(Next(state, step), consumer)
    ensures step.Notify? ==>
              Due(state) == Due(Next(state, step)) + 1
                && Next(state, step).history.calls == state.history.calls + [consumer]
    ensures !step.Notify? ==>
        Due(state) == Due(Next(state, step)) && Next(state, step).history.calls == state.history.calls
  {
  }

  lemma {:induction false} TellingRun<E>(state: State<E>, steps: seq<Step<E>>, consumer: int)
    requires Telling(state, consumer) && Runs(state, steps) && forall k | 0 <= k < |steps| :: Leaves(steps[k])
    ensures Telling(Run(state, steps), consumer) && Due(Run(state, steps)) <= Due(state)
    ensures Run(state, steps).history.calls ==
        state.history.calls + Repeat(consumer, Due(state) - Due(Run(state, steps)))
    decreases |steps|
  {
    hide Telling, Due, Next, Enabled, Leaves;
    if steps != [] {
      TellingStep(state, steps[0], consumer);
      TellingRun(Next(state, steps[0]), steps[1..], consumer);
    }
  }

  /**
   * In every run in which a consumer replaces another while entries wait, up to the next take, clear or replacement
   * and once nothing is owed any more, the consumer has been called as often as calls were owed when it came, and
   * once more if the entries had not been announced. Otherwise nobody tells it.
   */
  lemma ReplacementIsCalled<E>(state: State<E>, consumer: int, steps: seq<Step<E>>)
    requires Awake(state) && state.control == Idle && state.pending != []
    requires Runs(Replaced(state, consumer), steps) && forall k | 0 <= k < |steps| :: Leaves(steps[k])
    ensures
      var after, due := Run(Replaced(state, consumer), steps), state.owed + if state.notified then 0 else 1;
      && Due(after) <= due && after.history.calls == state.history.calls + Repeat(consumer, due - Due(after))
      && (after.control == Idle && after.owed == 0 ==>
          (after.history.calls == state.history.calls <==> state.notified && state.owed == 0))
  {
    hide *;
    var after, due := Run(Replaced(state, consumer), steps), state.owed + if state.notified then 0 else 1;
    ReplacedTells(state, consumer);
    TellingRun(Replaced(state, consumer), steps, consumer);
    Settled(after, consumer);
    NotCalledIff(state.history.calls, consumer, due - Due(after));
  }

  lemma ReplacedTells<E>(state: State<E>, consumer: int)
    requires Awake(state) && state.control == Idle && state.pending != []
    ensures Telling(Replaced(state, consumer), consumer)
    ensures Due(Replaced(state, consumer)) == state.owed + if state.notified then 0 else 1
    ensures Replaced(state, consumer).history == state.history
  {
  }

  lemma Settled<E>(state: State<E>, consumer: int)
    requires Telling(state, consumer)
    ensures state.control == Idle && state.owed == 0 ==> Due(state) == 0
  {
  }

  lemma NotCalledIff(calls: seq<int>, consumer: int, count: nat)
    ensures calls + Repeat(consumer, count) == calls <==> count == 0
  {
    assert |calls + Repeat(consumer, count)| == |calls| + count;
  }

  /** Once a delivery is cleared nobody is called until the next one is set. */
  lemma {:induction false} ClearedIsSilent<E>(state: State<E>, steps: seq<Step<E>>)
    requires state.consumer == None && state.control != Setting && Runs(state, steps)
    requires forall k | 0 <= k < |steps| :: !steps[k].SetFirst?
    ensures Run(state, steps).history.calls == state.history.calls
    decreases |steps|
  {
    if steps != [] {
      var next := Next(state, steps[0]);
      assert next.consumer == None && next.control != Setting && next.history.calls == state.history.calls;
      ClearedIsSilent(next, steps[1..]);
    }
  }

  // ----- The bound -----------------------------------------------------------------------------------------

  /** A write without a delivery keeps the bound exactly if it held, since only a queue of just that many makes room. */
  lemma BoundKept<E>(state: State<E>, entry: E)
    requires !state.delivering
    ensures |Written(state, entry).pending| <= CAPACITY <==> |state.pending| <= CAPACITY
  {
  }

  predicate Bounded<E>(state: State<E>) {
    state.delivering || |state.pending| <= CAPACITY
  }

  /** The bound holds at every moment of a run at which nothing is delivered. */
  predicate AlwaysBounded<E>(state: State<E>, steps: seq<Step<E>>)
    requires Runs(state, steps)
    decreases |steps|
  {
    Bounded(state) && (steps != [] ==> AlwaysBounded(Next(state, steps[0]), steps[1..]))
  }

  /** Whenever a delivery is cleared, no more wait than the bound allows. */
  predicate ClearedInTime<E>(state: State<E>, steps: seq<Step<E>>)
    requires Runs(state, steps)
    decreases |steps|
  {
    steps != [] ==>
      && (steps[0].ClearFirst? ==> |state.pending| <= CAPACITY)
      && ClearedInTime(Next(state, steps[0]), steps[1..])
  }

  lemma BoundedStep<E>(state: State<E>, step: Step<E>)
    requires Bounded(state) && Enabled(state, step)
    ensures Bounded(Next(state, step)) <==> !step.ClearFirst? || |state.pending| <= CAPACITY
  {
    if step.Write? && !state.delivering {
      BoundKept(state, step.entry);
    }
  }

  /**
   * The bound of the entries that wait for a delivery is kept all through a run if and only if no delivery was
   * cleared with more than that many waiting.
   */
  lemma {:induction false} BoundedIffClearedInTime<E>(state: State<E>, steps: seq<Step<E>>)
    requires Bounded(state) && Runs(state, steps)
    ensures AlwaysBounded(state, steps) <==> ClearedInTime(state, steps)
    decreases |steps|
  {
    hide Bounded, Enabled, Next;
    if steps != [] {
      BoundedStep(state, steps[0]);
      if Bounded(Next(state, steps[0])) {
        BoundedIffClearedInTime(Next(state, steps[0]), steps[1..]);
      }
    }
  }

  predicate Undelivered<E>(steps: seq<Step<E>>) {
    forall k | 0 <= k < |steps| :: !steps[k].SetSecond?
  }

  /** Until the first delivery at most 2000 entries wait, the newest ones. */
  lemma {:induction false} BoundBeforeDelivery<E>(state: State<E>, steps: seq<Step<E>>)
    requires !state.delivering && |state.pending| <= CAPACITY && Runs(state, steps) && Undelivered(steps)
    ensures |Run(state, steps).pending| <= CAPACITY && !Run(state, steps).delivering
    decreases |steps|
  {
    if steps != [] {
      BoundBeforeDelivery(Next(state, steps[0]), steps[1..]);
    }
  }

  /** The last ones of a list. */
  function Last<T>(items: seq<T>, maximum: nat): seq<T> {
    if |items| <= maximum then items else items[|items| - maximum..]
  }

  lemma LastNext<T>(items: seq<T>, more: seq<T>, maximum: nat)
    ensures Last(Last(items, maximum) + more, maximum) == Last(items + more, maximum)
  {
  }

  /** Nobody takes, and nobody is delivered to. */
  predicate Backlogging<E>(steps: seq<Step<E>>) {
    forall k | 0 <= k < |steps| :: !steps[k].SetSecond? && !steps[k].Take?
  }

  lemma BacklogStep<E>(state: State<E>, step: Step<E>)
    requires !state.delivering && |state.pending| <= CAPACITY && Enabled(state, step) && !step.SetSecond? && !step.Take?
    ensures !Next(state, step).delivering
    ensures Next(state, step).pending == Last(state.pending + (if step.Write? then [step.entry] else []), CAPACITY)
  {
  }

  /**
   * Without a delivery and a take the newest 2000 of what waited and what is written wait, and all of them while they
   * are fewer.
   */
  lemma {:induction false} BacklogIsNewest<E>(state: State<E>, steps: seq<Step<E>>)
    requires !state.delivering && |state.pending| <= CAPACITY && Runs(state, steps) && Backlogging(steps)
    ensures Run(state, steps).pending == Last(state.pending + WrittenIn(steps), CAPACITY)
    decreases |steps|
  {
    hide Last, Next, Enabled;
    if steps == [] {
      assert state.pending + [] == state.pending;
      FewAreLast(state.pending, CAPACITY);
    } else {
      var entry := if steps[0].Write? then [steps[0].entry] else [];
      BacklogStep(state, steps[0]);
      FewAreLast(state.pending + entry, CAPACITY);
      BacklogIsNewest(Next(state, steps[0]), steps[1..]);
      LastNext(state.pending + entry, WrittenIn(steps[1..]), CAPACITY);
      Associative(state.pending, entry, WrittenIn(steps[1..]));
    }
  }

  lemma FewAreLast<T>(items: seq<T>, maximum: nat)
    ensures |items| <= maximum ==> Last(items, maximum) == items
    ensures |Last(items, maximum)| <= maximum
  {
  }

  /** From the start of the product on, until somebody is delivered to, the last 2000 entries written wait. */
  lemma BacklogFromStart<E>(steps: seq<Step<E>>)
    requires Runs(Start(), steps) && Backlogging(steps)
    ensures Run(Start(), steps).pending == Last(WrittenIn(steps), CAPACITY)
  {
    hide Last, Runs, Run;
    BacklogIsNewest(Start(), steps);
    assert [] + WrittenIn(steps) == WrittenIn(steps);
  }

  /** What waits are the newest entries written. */
  lemma PendingIsNewest<E>(state: State<E>)
    requires Conserved(state)
    ensures |state.pending| <= |state.history.written|
        && state.pending == state.history.written[|state.history.written| - |state.pending|..]
  {
  }

  /** The entries a run writes. */
  function WrittenIn<E>(steps: seq<Step<E>>): seq<E> {
    if steps == [] then []
    else (if steps[0].Write? then [steps[0].entry] else []) + WrittenIn(steps[1..])
  }

  /** What the takes answered and what waits. */
  function Reachable<E>(state: State<E>): seq<E> {
    Answers(state.history.exits) + state.pending
  }

  lemma DeliveredStep<E>(state: State<E>, step: Step<E>)
    requires state.delivering && Enabled(state, step) && !step.ClearFirst?
    ensures Next(state, step).delivering
    ensures Reachable(Next(state, step)) == Reachable(state) + if step.Write? then [step.entry] else []
  {
    if step.Take? {
      AnswersConcat(state.history.exits, Exits(state.pending));
      ExitsAreEntries(state.pending);
    }
  }

  /**
   * From a delivery until it is cleared every entry written is answered by a take or waits, in the order it was
   * written.
   */
  lemma {:induction false} DeliveredKeepsAll<E>(state: State<E>, steps: seq<Step<E>>)
    requires state.delivering && Runs(state, steps)
    requires forall k | 0 <= k < |steps| :: !steps[k].ClearFirst?
    ensures Reachable(Run(state, steps)) == Reachable(state) + WrittenIn(steps)
    decreases |steps|
  {
    hide Reachable, Next, Enabled;
    if steps == [] {
      assert Reachable(state) + [] == Reachable(state);
    } else {
      DeliveredStep(state, steps[0]);
      DeliveredKeepsAll(Next(state, steps[0]), steps[1..]);
      Associative(Reachable(state), if steps[0].Write? then [steps[0].entry] else [], WrittenIn(steps[1..]));
    }
  }

  // ----- One delivery --------------------------------------------------------------------------------------

  lemma RunStep<E>(state: State<E>, step: Step<E>, steps: seq<Step<E>>)
    requires Enabled(state, step) && Runs(Next(state, step), steps)
    ensures Runs(state, [step] + steps) && Run(state, [step] + steps) == Run(Next(state, step), steps)
    ensures (step.SetFirst? ==> state.consumer == None) && Orderly(Next(state, step), steps) ==>
        Orderly(state, [step] + steps)
    ensures Bounded(state) && AlwaysBounded(Next(state, step), steps) ==> AlwaysBounded(state, [step] + steps)
  {
    assert ([step] + steps)[1..] == steps;
  }

  /**
   * An entry that waited is announced once to the consumer that comes, taken, and nothing is left when the delivery
   * is cleared.
   */
  lemma OneDelivery<E>(entry: E, consumer: int)
    ensures
      var steps := [Write(entry), SetFirst(consumer), SetSecond, Notify, Step.Take, ClearFirst, ClearSecond];
      && Runs(Start(), steps) && Orderly(Start(), steps) && AlwaysBounded(Start(), steps)
      && var last := Run(Start(), steps);
         && last.history.calls == [consumer] && last.history.exits == [Exit.Answered(entry)]
         && last.pending == [] && last.consumer == None && last.owed == 0
  {
    var written := Written(Start(), entry);
    assert written.pending == [entry];
    var replaced := Replaced(written, consumer);
    var delivering := Delivering(replaced);
    var notified := Notified(delivering);
    assert notified.history.calls == [consumer];
    var taken := Taken(notified);
    assert taken.history.exits == [Exit.Answered(entry)];
    var silenced := Silenced(taken);
    var forgotten := Forgotten(silenced);
    hide Runs, Run, Orderly, AlwaysBounded;
    NoSteps(forgotten);
    RunStep(silenced, ClearSecond, []);
    RunStep(taken, ClearFirst, [ClearSecond] + []);
    RunStep(notified, Step.Take, [ClearFirst] + ([ClearSecond] + []));
    RunStep(delivering, Notify, [Step.Take] + ([ClearFirst] + ([ClearSecond] + [])));
    RunStep(replaced, SetSecond, [Notify] + ([Step.Take] + ([ClearFirst] + ([ClearSecond] + []))));
    RunStep(written, SetFirst(consumer),
        [SetSecond] + ([Notify] + ([Step.Take] + ([ClearFirst] + ([ClearSecond] + [])))));
    RunStep(Start(), Write(entry),
        [SetFirst(consumer)] + ([SetSecond] + ([Notify] + ([Step.Take] + ([ClearFirst] + ([ClearSecond] + []))))));
    assert [Write(entry)] + ([SetFirst(consumer)]
        + ([SetSecond] + ([Notify] + ([Step.Take] + ([ClearFirst] + ([ClearSecond] + [])))))) ==
           [Write(entry), SetFirst(consumer), SetSecond, Notify, Step.Take, ClearFirst, ClearSecond];
  }

  lemma NoSteps<E>(state: State<E>)
    ensures Runs(state, []) && Run(state, []) == state && Orderly(state, [])
    ensures Bounded(state) ==> AlwaysBounded(state, [])
  {
  }

  /** Writes and the calls they owe neither take nor deliver, and leave a replacement as it is. */
  lemma WritesLeave<E>(entry: E)
    ensures Backlogging([Write(entry), Notify]) && Undelivered([Write(entry), Notify, Step.Take])
    ensures Leaves(Write(entry)) && Leaves(Step<E>.Notify) && Leaves(Step<E>.SetSecond) && Leaves(Step<E>.ClearSecond)
  {
  }

  // ----- The object ----------------------------------------------------------------------------------------

  class LogService<E(==)> {
    var pending: seq<E>
    var delivering: bool
    var notified: bool
    var consumer: Option<int>
    ghost var owed: nat
    ghost var heard: Option<int>
    ghost var control: Control
    ghost var history: History<E>

    ghost function Abstract(): State<E>
      reads this
    {
      State(pending, delivering, notified, consumer, owed, heard, control, history)
    }

    ghost predicate Valid()
      reads this
    {
      Awake(Abstract()) && Conserved(Abstract())
    }

    constructor ()
      ensures Abstract() == Start() && Valid()
    {
      pending, delivering, notified, consumer := [], false, false, None;
      owed, heard, control, history := 0, None, Idle, History([], [], []);
    }

    /** The section of write under the first lock; the answer is whether this thread has to notify. */
    method Append(entry: E) returns (owes: bool)
      requires Valid()
      modifies this
      ensures Valid() && Abstract() == Written(old(Abstract()), entry)
      ensures owes <==> owed == old(owed) + 1
      ensures owes <==> old(delivering && !notified)
      ensures pending == (if old(delivering) || |old(pending)| != CAPACITY then old(pending) else old(pending)[1..])
          + [entry]
    {
      WrittenConserves(Abstract(), entry);
      hide Conserved;
      ghost var exits := history.exits;
      if !delivering && |pending| == CAPACITY {
        exits := exits + [Dropped(pending[0])];
        pending := pending[1..];
      }
      pending := pending + [entry];
      history := history.(written := history.written + [entry], exits := exits);
      if !delivering || notified {
        return false;
      }
      notified := true;
      owed, heard := owed + 1, None;
      return true;
    }

    /** notify, by a thread that owes it; the answer is the consumer that was called. */
    method Notify() returns (called: Option<int>)
      requires Valid() && owed > 0
      modifies this
      ensures Valid() && Abstract() == Notified(old(Abstract()))
      ensures consumer == old(consumer) && owed == old(owed) - 1
      ensures history.calls == old(history.calls) + (if called.Some? then [called.value] else [])
      ensures called == consumer
    {
      called := consumer;
      owed := owed - 1;
      if consumer.Some? {
        heard := consumer;
        history := history.(calls := history.calls + [consumer.value]);
      }
    }

    /** write: an entry waits, and its consumer hears of it unless it was told already. */
    method Write(entry: E)
      requires Valid()
      modifies this
      ensures Valid() && owed == old(owed)
      ensures pending == old(Written(Abstract(), entry).pending)
      ensures old(delivering && !notified) ==> consumer.Some? && history.calls == old(history.calls) + [consumer.value]
      ensures !old(delivering && !notified) ==> history.calls == old(history.calls)
    {
      var owes := Append(entry);
      if owes {
        var called := Notify();
      }
    }

    /** The first section of setDelivery. */
    method Replace(next: int)
      requires Valid() && control == Idle
      modifies this
      ensures Valid() && Abstract() == Replaced(old(Abstract()), next)
      ensures consumer == Some(next) && pending == old(pending) && notified == old(notified)
    {
      consumer := Some(next);
      control := Setting;
    }

    /** The second section of setDelivery; the answer is whether this thread has to notify. */
    method Deliver() returns (owes: bool)
      requires Valid() && control == Setting
      modifies this
      ensures Valid() && Abstract() == Delivering(old(Abstract()))
      ensures delivering && control == Idle && pending == old(pending) && consumer == old(consumer)
      ensures owes <==> old(pending) != [] && !old(notified)
      ensures owes <==> owed == old(owed) + 1
    {
      delivering := true;
      control := Idle;
      if pending == [] || notified {
        return false;
      }
      notified := true;
      owed, heard := owed + 1, None;
      return true;
    }

    /** The first section of clearDelivery. */
    method Silence()
      requires Valid() && control == Idle
      modifies this
      ensures Valid() && Abstract() == Silenced(old(Abstract()))
      ensures !delivering && !notified && pending == old(pending)
    {
      delivering := false;
      notified := false;
      control := Clearing;
    }

    /** The second section of clearDelivery. */
    method Forget()
      requires Valid() && control == Clearing
      modifies this
      ensures Valid() && Abstract() == Forgotten(old(Abstract()))
      ensures consumer == None && control == Idle && pending == old(pending)
    {
      consumer := None;
      control := Idle;
    }

    method Take() returns (taken: seq<E>)
      requires Valid()
      modifies this
      ensures Valid() && Abstract() == Taken(old(Abstract()))
      ensures pending == [] && !notified
      ensures taken == old(pending) && Answers(history.exits) == old(Answers(history.exits)) + taken
    {
      TakenConserves(Abstract());
      hide Conserved, Answers, Exits;
      taken := pending;
      history := history.(exits := history.exits + Exits(pending));
      pending := [];
      notified := false;
    }
  }
}

/**
 * src/audio/MiniaudioOutput.cpp: sounds that a worker opens while the interface thread starts, stops and collects
 * them.
 */
module MiniaudioOutput {
  import opened Foundation

  // ----- The state ----------------------------------------------------------------------------------

  /**
   * What has happened so far: the sound objects made and closed, the ends reported and the stops that returned for
   * issued sounds.
   */
  datatype History = History(made: set<nat>, closed: multiset<nat>, reported: multiset<nat>, stopped: set<nat>)

  /**
   * A sound is known by its identity. `loops` are the identities started as loops, `taken` is the request the worker
   * holds while it opens the file, `opening` and `cancelled` are the fields the lock guards, and 0 is no sound.
   */
  datatype State = State(
    next: nat, loops: set<nat>, waiting: seq<nat>, taken: Option<nat>, opening: nat, cancelled: nat,
    ready: seq<nat>, failed: seq<nat>, sounds: set<nat>, stopping: bool, history: History)

  const START: State := State(0, {}, [], None, 0, 0, [], [], {}, false, History({}, multiset{}, multiset{}, {}))

  predicate Distinct(items: seq<nat>) {
    forall i, j | 0 <= i < j < |items| :: items[i] != items[j]
  }

  lemma DistinctJoined(left: seq<nat>, right: seq<nat>)
    requires Distinct(left) && Distinct(right) && forall id | id in left :: id !in right
    ensures Distinct(left + right)
  {
    var all := left + right;
    forall i, j | 0 <= i < j < |all|
      ensures all[i] != all[j]
    {
      assert i < |left| ==> all[i] in left;
      assert j >= |left| ==> all[j] in right;
    }
  }

  /** std::erase_if by identity. */
  function Without(items: seq<nat>, sound: nat): seq<nat> {
    if items == [] then []
    else if items[0] == sound then Without(items[1..], sound)
    else [items[0]] + Without(items[1..], sound)
  }

  lemma {:induction false} WithoutHolds(items: seq<nat>, sound: nat)
    ensures forall id :: id in Without(items, sound) <==> id in items && id != sound
    ensures Distinct(items) ==> Distinct(Without(items, sound))
  {
    if items != [] {
      WithoutHolds(items[1..], sound);
      assert items == [items[0]] + items[1..];
      if Distinct(items) {
        assert Distinct(items[1..]) && items[0] !in items[1..];
        DistinctJoined([items[0]], Without(items[1..], sound));
      }
    }
  }

  // ----- The steps -----------------------------------------------------------------------------------

  /** play. */
  function Played(state: State, loop: bool): State {
    var sound := state.next + 1;
    state.(next := sound, waiting := state.waiting + [sound], loops := if loop then state.loops + {sound}
        else state.loops)
  }

  /** The objects closed so far, with one more if it is held. */
  function Closing(closed: multiset<nat>, sound: nat, held: bool): multiset<nat> {
    if held then closed + multiset{sound} else closed
  }

  /** stop: wherever the sound is, it goes; one that is being ready is marked. */
  function Stopped(state: State, sound: nat): State {
    var once := Closing(state.history.closed, sound, sound in state.ready);
    state.(waiting := Without(state.waiting, sound),
           failed := Without(state.failed, sound),
           cancelled := if state.opening == sound then sound else state.cancelled,
           ready := Without(state.ready, sound),
           sounds := state.sounds - {sound},
           history := state.history.(closed := Closing(once, sound, sound in state.sounds),
                                     stopped := state.history.stopped + if 1 <= sound <= state.next then {sound}
                                         else {}))
  }

  /** The worker takes the first request that waits. */
  function Taking(state: State): State
    requires state.taken == None && state.waiting != [] && !state.stopping
  {
    state.(taken := Some(state.waiting[0]), waiting := state.waiting[1..], opening := state.waiting[0])
  }

  /** The worker comes back from opening, with a sound object or without one. */
  function Finishing(state: State, success: bool): State
    requires state.taken.Some?
  {
    var sound := state.taken.value;
    var made := if success then state.history.made + {sound} else state.history.made;
    var done := state.(taken := None, opening := 0);
    if state.cancelled == sound then
      done.(cancelled := 0,
            history := state.history.(made := made, closed := Closing(state.history.closed, sound, success)))
    else if success then
      done.(ready := state.ready + [sound], history := state.history.(made := made))
    else
      done.(failed := state.failed + [sound])
  }

  /** The sounds among the first identities that played to their end; a loop never does. */
  function Ending(sounds: set<nat>, loops: set<nat>, atEnd: set<nat>, count: nat): (ending: seq<nat>)
    ensures forall id :: id in ending <==> 1 <= id <= count && id in sounds && id !in loops && id in atEnd
    ensures Distinct(ending)
  {
    if count == 0 then []
    else
      var before := Ending(sounds, loops, atEnd, count - 1);
      if count in sounds && count !in loops && count in atEnd then before + [count] else before
  }

  /** What an update answers: the failures, then the sounds that ended. */
  function Reporting(state: State, atEnd: set<nat>): seq<nat> {
    state.failed + Ending(state.sounds + Members(state.ready), state.loops, atEnd, state.next)
  }

  function Members(items: seq<nat>): set<nat> {
    set id | id in items
  }

  /** The sounds that go on playing. */
  function Remaining(playing: set<nat>, ended: seq<nat>): set<nat> {
    playing - Members(ended)
  }

  /** The objects closed so far, with those of the sounds that ended. */
  function ClosingAll(closed: multiset<nat>, playing: set<nat>, ended: seq<nat>): multiset<nat> {
    closed + multiset(playing * Members(ended))
  }

  function ReportingAll(reported: multiset<nat>, ended: seq<nat>): multiset<nat> {
    reported + multiset(ended)
  }

  /** update. */
  function Updated(state: State, atEnd: set<nat>): State {
    var playing := state.sounds + Members(state.ready);
    var ended := Reporting(state, atEnd);
    state.(ready := [], failed := [], sounds := Remaining(playing, ended),
           history := state.history.(closed := ClosingAll(state.history.closed, playing, ended),
                                     reported := ReportingAll(state.history.reported, ended)))
  }

  /** The first half of the destructor: no further request is taken. */
  function Quitting(state: State): State {
    state.(stopping := true)
  }

  /** The second half of the destructor, once the worker has ended: what is still open is closed. */
  function Closed(state: State): State
    requires state.stopping && state.taken == None
  {
    state.(ready := [], sounds := {},
           history := state.history.(closed := state.history.closed + multiset(Members(state.ready))
               + multiset(state.sounds)))
  }

  // ----- The invariant -------------------------------------------------------------------------------------

  function Count(held: bool): nat {
    if held then 1 else 0
  }

  /** In how many places a sound is. */
  function Places(state: State, sound: nat): nat {
    Count(sound in state.waiting) + Count(state.taken == Some(sound)) + Count(sound in state.ready)
        + Count(sound in state.failed) + Count(sound in state.sounds)
  }

  predicate Live(state: State, sound: nat) {
    sound in state.ready || sound in state.sounds
  }

  /** The life of one sound. */
  predicate Fine(state: State, sound: nat) {
    var history := state.history;
    && Places(state, sound) <= 1
    && ((Places(state, sound) == 1 || history.reported[sound] > 0 || sound in history.made
        || sound in history.stopped) ==>
          1 <= sound <= state.next)
    && (Places(state, sound) == 1 ==> history.reported[sound] == 0)
    && history.reported[sound] <= 1
    && (sound in history.stopped ==> Places(state, sound) == 0 || state.cancelled == sound)
    && (1 <= sound <= state.next ==>
        Places(state, sound) == 1 || history.reported[sound] == 1 || sound in history.stopped)
    && (sound in history.made && !Live(state, sound) ==> history.closed[sound] == 1)
    && (sound !in history.made || Live(state, sound) ==> history.closed[sound] == 0)
    && (Live(state, sound) ==> sound in history.made)
    && (sound in history.made ==> !(sound in state.waiting || state.taken == Some(sound) || sound in state.failed))
    && (state.cancelled == sound && sound != 0 ==> sound in history.stopped)
  }

  ghost predicate Valid(state: State) {
    && (forall sound: nat :: Fine(state, sound))
    && Distinct(state.waiting) && Distinct(state.ready) && Distinct(state.failed)
    && state.opening == (if state.taken.Some? then state.taken.value else 0)
    && (state.cancelled == 0 || state.cancelled == state.opening)
    && (forall sound | sound in state.loops :: sound <= state.next)
  }

  lemma StartValid()
    ensures Valid(START)
  {
    forall sound: nat
      ensures Fine(START, sound)
    {
    }
  }

  lemma DistinctAppended(items: seq<nat>, sound: nat)
    requires Distinct(items) && sound !in items
    ensures Distinct(items + [sound])
  {
  }

  lemma PlayedKeeps(state: State, loop: bool)
    requires Valid(state)
    ensures Valid(Played(state, loop))
  {
    var after := Played(state, loop);
    assert Fine(state, state.next + 1);
    DistinctAppended(state.waiting, state.next + 1);
    forall sound: nat
      ensures Fine(after, sound)
    {
      assert Fine(state, sound);
      assert sound in after.waiting <==> sound in state.waiting || sound == state.next + 1;
    }
  }

  lemma StoppedKeeps(state: State, stopped: nat)
    requires Valid(state)
    ensures Valid(Stopped(state, stopped))
  {
    var after := Stopped(state, stopped);
    assert Fine(state, 0);
    WithoutHolds(state.waiting, stopped);
    WithoutHolds(state.failed, stopped);
    WithoutHolds(state.ready, stopped);
    forall sound: nat
      ensures Fine(after, sound)
    {
      assert Fine(state, sound);
    }
  }

  lemma TakingKeeps(state: State)
    requires Valid(state) && state.taken == None && state.waiting != [] && !state.stopping
    ensures Valid(Taking(state))
  {
    var after := Taking(state);
    assert state.waiting == [state.waiting[0]] + state.waiting[1..];
    assert Fine(state, state.waiting[0]);
    forall sound: nat
      ensures Fine(after, sound)
    {
      assert Fine(state, sound);
      assert sound in state.waiting <==> sound == state.waiting[0] || sound in state.waiting[1..];
      assert sound in state.waiting[1..] ==> sound != state.waiting[0];
    }
  }

  lemma FinishingKeeps(state: State, success: bool)
    requires Valid(state) && state.taken.Some?
    ensures Valid(Finishing(state, success))
  {
    var after, taken := Finishing(state, success), state.taken.value;
    assert Fine(state, taken);
    assert taken !in state.ready && taken !in state.failed;
    DistinctAppended(state.ready, taken);
    DistinctAppended(state.failed, taken);
    forall sound: nat
      ensures Fine(after, sound)
    {
      assert Fine(state, sound);
    }
  }

  /** An update reports each sound at most once, and none that was reported or stopped before. */
  lemma ReportedOnce(state: State, atEnd: set<nat>)
    requires Valid(state)
    ensures Distinct(Reporting(state, atEnd))
    ensures forall sound | sound in Reporting(state, atEnd) ::
              1 <= sound <= state.next && state.history.reported[sound] == 0 && sound !in state.history.stopped
    ensures forall sound | sound in Reporting(state, atEnd) && sound !in state.failed ::
              sound !in state.loops && sound in atEnd
  {
    var ended := Reporting(state, atEnd);
    forall sound | sound in ended
      ensures 1 <= sound <= state.next && state.history.reported[sound] == 0 && sound !in state.history.stopped
    {
      assert Fine(state, sound);
    }
    forall sound | sound in state.failed
      ensures sound !in state.sounds + Members(state.ready)
    {
      assert Fine(state, sound);
    }
    DistinctJoined(state.failed, Ending(state.sounds + Members(state.ready), state.loops, atEnd, state.next));
  }

  lemma ReportedApart(state: State, atEnd: set<nat>)
    requires Valid(state)
    ensures Distinct(Reporting(state, atEnd))
  {
    ReportedOnce(state, atEnd);
  }

  lemma {:induction false} DistinctMultiset(items: seq<nat>, sound: nat)
    requires Distinct(items)
    ensures multiset(items)[sound] == Count(sound in items)
  {
    if items != [] {
      assert items == [items[0]] + items[1..];
      DistinctMultiset(items[1..], sound);
    }
  }

  lemma UpdatedKeeps(state: State, atEnd: set<nat>)
    requires Valid(state)
    ensures Valid(Updated(state, atEnd))
  {
    var after, ended := Updated(state, atEnd), Reporting(state, atEnd);
    ReportedOnce(state, atEnd);
    forall sound: nat
      ensures Fine(after, sound)
    {
      assert Fine(state, sound);
      DistinctMultiset(ended, sound);
    }
  }

  lemma QuittingKeeps(state: State)
    requires Valid(state)
    ensures Valid(Quitting(state))
  {
    forall sound: nat
      ensures Fine(Quitting(state), sound)
    {
      assert Fine(state, sound);
    }
  }

  /** By the end every sound object that was made is closed, and closed once. */
  lemma EveryObjectClosedOnce(state: State, sound: nat)
    requires Valid(state) && state.stopping && state.taken == None
    ensures Closed(state).history.closed[sound] == Count(sound in Closed(state).history.made)
  {
    assert Fine(state, sound);
  }

  lemma StoppedOnlyThis(state: State, sound: nat)
    requires Valid(state)
    ensures sound !in Stopped(state, sound).waiting && sound !in Stopped(state, sound).ready
    ensures sound !in Stopped(state, sound).failed && sound !in Stopped(state, sound).sounds
    ensures state.taken == Some(sound) && 1 <= sound <= state.next ==> Stopped(state, sound).cancelled == sound
    ensures forall other | other != sound :: Places(Stopped(state, sound), other) == Places(state, other)
  {
    WithoutHolds(state.waiting, sound);
    WithoutHolds(state.failed, sound);
    WithoutHolds(state.ready, sound);
  }

  /** A stopped sound is in no place, unless the worker is still opening it, and then it is marked to be thrown away. */
  lemma StoppedIsGone(state: State, sound: nat)
    requires Valid(state) && 1 <= sound <= state.next
    ensures Places(Stopped(state, sound), sound) == 0
        || (state.taken == Some(sound) && Stopped(state, sound).cancelled == sound == Stopped(state, sound).opening)
  {
    assert Fine(state, sound);
    StoppedKeeps(state, sound);
    assert Fine(Stopped(state, sound), sound);
  }

  /** The sound plays or was opened to play, is no loop and has reached its end. */
  predicate Over(state: State, sound: nat, atEnd: set<nat>) {
    (sound in state.sounds || sound in state.ready) && sound !in state.loops && sound in atEnd
  }

  /** An update reports exactly the sounds that failed and those that are over, none of them twice. */
  lemma ReportedExactly(state: State, atEnd: set<nat>)
    requires Valid(state)
    ensures |state.failed| <= |Reporting(state, atEnd)|
    ensures forall k | 0 <= k < |state.failed| :: Reporting(state, atEnd)[k] == state.failed[k]
    ensures forall sound :: sound in Reporting(state, atEnd)[|state.failed|..] <==> Over(state, sound, atEnd)
    ensures Distinct(Reporting(state, atEnd))
  {
    ReportedOnce(state, atEnd);
    var ending := Ending(state.sounds + Members(state.ready), state.loops, atEnd, state.next);
    assert Reporting(state, atEnd)[|state.failed|..] == ending;
    forall sound
      ensures sound in ending <==> Over(state, sound, atEnd)
    {
      assert Fine(state, sound);
    }
  }

  /**
   * What is reported is in no place afterwards, its object closed once if there was one; what else played or was
   * opened plays.
   */
  lemma ReportedIsGone(state: State, atEnd: set<nat>, sound: nat)
    requires Valid(state)
    ensures
      var after := Updated(state, atEnd);
      && after.ready == [] && after.failed == []
      && (sound in after.sounds <==> (sound in state.sounds || sound in state.ready) && !Over(state, sound, atEnd))
      && (sound in state.failed || Over(state, sound, atEnd) ==>
            Places(after, sound) == 0 && after.history.closed[sound] == Count(sound in after.history.made))
      && (Over(state, sound, atEnd) ==> sound in after.history.made)
  {
    hide Updated, Reporting, Distinct;
    ReportedExactly(state, atEnd);
    UpdatedKeeps(state, atEnd);
    assert Fine(state, sound) && Fine(Updated(state, atEnd), sound);
    UpdatedParts(state, atEnd, sound);
    var ended := Reporting(state, atEnd);
    assert sound in ended <==> sound in state.failed || Over(state, sound, atEnd) by {
      ReportedMember(ended, state.failed, sound);
    }
  }

  lemma ReportedMember(ended: seq<nat>, failed: seq<nat>, sound: nat)
    requires |failed| <= |ended| && forall k | 0 <= k < |failed| :: ended[k] == failed[k]
    ensures sound in ended <==> sound in failed || sound in ended[|failed|..]
  {
    assert ended == ended[..|failed|] + ended[|failed|..];
    assert ended[..|failed|] == failed;
  }

  lemma UpdatedParts(state: State, atEnd: set<nat>, sound: nat)
    ensures
      var after := Updated(state, atEnd);
      && after.ready == [] && after.failed == [] && after.waiting == state.waiting && after.taken == state.taken
      && (sound in after.sounds <==>
          (sound in state.sounds || sound in state.ready) && sound !in Reporting(state, atEnd))
      && after.history.made == state.history.made
  {
  }

  // ----- Whole runs ----------------------------------------------------------------------------------------

  datatype Step = Play(loop: bool) | Stop(sound: nat) | Update(atEnd: set<nat>) | Take | Finish(success: bool) | Quit

  predicate Enabled(state: State, step: Step) {
    match step
    case Take => state.taken == None && state.waiting != [] && !state.stopping
    case Finish(_) => state.taken.Some?
    case _ => true
  }

  function Next(state: State, step: Step): State
    requires Enabled(state, step)
  {
    match step
    case Play(loop) => Played(state, loop)
    case Stop(sound) => Stopped(state, sound)
    case Update(atEnd) => Updated(state, atEnd)
    case Take => Taking(state)
    case Finish(success) => Finishing(state, success)
    case Quit => Quitting(state)
  }

  predicate Runs(state: State, steps: seq<Step>)
    decreases |steps|
  {
    steps != [] ==> Enabled(state, steps[0]) && Runs(Next(state, steps[0]), steps[1..])
  }

  function Run(state: State, steps: seq<Step>): State
    requires Runs(state, steps)
    decreases |steps|
  {
    if steps == [] then state else Run(Next(state, steps[0]), steps[1..])
  }

  lemma NextKeeps(state: State, step: Step)
    requires Valid(state) && Enabled(state, step)
    ensures Valid(Next(state, step))
  {
    hide Valid;
    match step
    case Play(loop) => PlayedKeeps(state, loop);
    case Stop(sound) => StoppedKeeps(state, sound);
    case Update(atEnd) => UpdatedKeeps(state, atEnd);
    case Take => TakingKeeps(state);
    case Finish(success) => FinishingKeeps(state, success);
    case Quit => QuittingKeeps(state);
  }

  lemma {:induction false} RunKeeps(state: State, steps: seq<Step>)
    requires Valid(state) && Runs(state, steps)
    ensures Valid(Run(state, steps))
    decreases |steps|
  {
    hide Valid;
    if steps != [] {
      NextKeeps(state, steps[0]);
      RunKeeps(Next(state, steps[0]), steps[1..]);
    }
  }

  // ----- The worker between the lock and the rest of a call ------------------------------------------------

  /** stop, the section under the lock. */
  function Withdrawn(state: State, sound: nat): State {
    state.(waiting := Without(state.waiting, sound),
           failed := Without(state.failed, sound),
           cancelled := if state.opening == sound then sound else state.cancelled,
           ready := Without(state.ready, sound),
           history := state.history.(closed := Closing(state.history.closed, sound, sound in state.ready)))
  }

  /** update, the section under the lock. */
  function Collected(state: State): State {
    state.(ready := [], failed := [])
  }

  /**
   * What the interface thread does without the lock, in one go: sounds that come among those playing, one that goes,
   * objects closed, ends answered and sounds stopped.
   */
  datatype Aside = Aside(come: set<nat>, gone: set<nat>, shut: multiset<nat>, told: seq<nat>, stopped: set<nat>)

  function Turned(state: State, aside: Aside): State {
    var history := state.history;
    state.(sounds := state.sounds + aside.come - aside.gone,
           history := history.(closed := history.closed + aside.shut,
               reported := ReportingAll(history.reported, aside.told), stopped := history.stopped + aside.stopped))
  }

  function TurnedAll(state: State, asides: seq<Aside>): State
    decreases |asides|
  {
    if asides == [] then state else TurnedAll(Turned(state, asides[0]), asides[1..])
  }

  function Releasing(playing: set<nat>, sound: nat): Aside {
    Aside({}, {sound}, if sound in playing then multiset{sound} else multiset{}, [], {})
  }

  function ReleasingAll(playing: set<nat>, ids: seq<nat>): seq<Aside>
    decreases |ids|
  {
    if ids == [] then [] else [Releasing(playing, ids[0])] + ReleasingAll(playing - {ids[0]}, ids[1..])
  }

  /** stop after the lock: the release, and the return. */
  function StopAsides(state: State, sound: nat): seq<Aside> {
    [Releasing(state.sounds, sound), Aside({}, {}, multiset{}, [], if 1 <= sound <= state.next then {sound} else {})]
  }

  /**
   * update after the lock: the opened sounds go among those playing, each sound that ended is released, and all of
   * them are answered.
   */
  function UpdateAsides(state: State, atEnd: set<nat>): seq<Aside> {
    var ended := Reporting(state, atEnd);
    [Aside(Members(state.ready), {}, multiset{}, [], {})] + ReleasingAll(state.sounds + Members(state.ready), ended)
        + [Aside({}, {}, multiset{}, ended, {})]
  }

  lemma {:induction false} TurnedApart(state: State, front: seq<Aside>, back: seq<Aside>)
    ensures TurnedAll(state, front + back) == TurnedAll(TurnedAll(state, front), back)
    decreases |front|
  {
    if front == [] {
      assert front + back == back;
    } else {
      assert (front + back)[1..] == front[1..] + back;
      TurnedApart(Turned(state, front[0]), front[1..], back);
    }
  }

  lemma ReleaseFirst(closed: multiset<nat>, playing: set<nat>, ids: seq<nat>)
    requires ids != []
    ensures Remaining(playing - {ids[0]}, ids[1..]) == Remaining(playing, ids)
    ensures ClosingAll(closed + Releasing(playing, ids[0]).shut, playing - {ids[0]}, ids[1..]) ==
        ClosingAll(closed, playing, ids)
  {
    var rest := (playing - {ids[0]}) * Members(ids[1..]);
    assert ids == [ids[0]] + ids[1..];
    assert playing * Members(ids) == rest + if ids[0] in playing then {ids[0]} else {};
    assert multiset(playing * Members(ids)) == Releasing(playing, ids[0]).shut + multiset(rest);
  }

  lemma NoMembers(ids: seq<nat>)
    requires ids == []
    ensures Members(ids) == {}
  {
  }

  lemma ReleaseTurned(state: State, sound: nat)
    ensures Turned(state, Releasing(state.sounds, sound)) ==
              state.(sounds := state.sounds - {sound},
                  history := state.history.(closed := state.history.closed + Releasing(state.sounds, sound).shut))
  {
    assert ReportingAll(state.history.reported, []) == state.history.reported;
  }

  lemma {:induction false} ReleasesTurned(state: State, ids: seq<nat>)
    ensures TurnedAll(state, ReleasingAll(state.sounds, ids)) ==
              state.(sounds := Remaining(state.sounds, ids),
                  history := state.history.(closed := ClosingAll(state.history.closed, state.sounds, ids)))
    decreases |ids|
  {
    hide Turned, Releasing, Members;
    if ids == [] {
      assert Members(ids) == {} && state.sounds * Members(ids) == {} by {
        NoMembers(ids);
      }
    } else {
      hide Remaining, ClosingAll;
      ReleaseTurned(state, ids[0]);
      ReleaseFirst(state.history.closed, state.sounds, ids);
      ReleasesTurned(Turned(state, Releasing(state.sounds, ids[0])), ids[1..]);
      assert ReleasingAll(state.sounds, ids)[1..] == ReleasingAll(state.sounds - {ids[0]}, ids[1..]);
    }
  }

  lemma StopInTwo(state: State, sound: nat)
    ensures TurnedAll(Withdrawn(state, sound), StopAsides(state, sound)) == Stopped(state, sound)
  {
    hide Without;
    var asides, held := StopAsides(state, sound), Turned(Withdrawn(state, sound), Releasing(state.sounds, sound));
    assert asides[1..] == [asides[1]] && asides[1..][1..] == [];
    assert ReportingAll(state.history.reported, []) == state.history.reported;
    assert TurnedAll(held, asides[1..]) == Turned(held, asides[1]);
  }

  lemma UpdateInTwo(state: State, atEnd: set<nat>)
    ensures TurnedAll(Collected(state), UpdateAsides(state, atEnd)) == Updated(state, atEnd)
  {
    hide Reporting, ClosingAll, Remaining, ReleasingAll, Members;
    var ended, asides := Reporting(state, atEnd), UpdateAsides(state, atEnd);
    var playing := state.sounds + Members(state.ready);
    var first, last := Aside(Members(state.ready), {}, multiset{}, [], {}), Aside({}, {}, multiset{}, ended, {});
    var joined := Turned(Collected(state), first);
    assert ReportingAll(state.history.reported, []) == state.history.reported;
    assert asides == [first] + (ReleasingAll(playing, ended) + [last]);
    assert asides[1..] == ReleasingAll(playing, ended) + [last] && asides[0] == first;
    TurnedApart(joined, ReleasingAll(playing, ended), [last]);
    ReleasesTurned(joined, ended);
    var released := TurnedAll(joined, ReleasingAll(playing, ended));
    assert TurnedAll(released, [last]) == Turned(released, last);
    assert joined == Collected(state).(sounds := playing) by {
      assert joined.sounds == playing && joined.history.closed == state.history.closed;
      assert joined.history.stopped == state.history.stopped;
    }
    assert Turned(released, last) ==
        released.(history := released.history.(reported := ReportingAll(released.history.reported, ended))) by {
      assert Turned(released, last).sounds == released.sounds;
      assert Turned(released, last).history.stopped == released.history.stopped;
    }
  }

  /** What happens while a call runs behind its lock: a step of the worker, or the next thing the call does. */
  datatype Move = Worker(step: Step) | Own(aside: Aside)

  predicate OfWorker(step: Step) {
    step.Take? || step.Finish?
  }

  function Moved(state: State, move: Move): State
    requires move.Worker? ==> Enabled(state, move.step)
  {
    match move
    case Worker(step) => Next(state, step)
    case Own(aside) => Turned(state, aside)
  }

  /** The moves can happen in this order. */
  predicate Interleaves(state: State, moves: seq<Move>)
    decreases |moves|
  {
    moves != [] ==>
      && (moves[0].Worker? ==> OfWorker(moves[0].step) && Enabled(state, moves[0].step))
      && Interleaves(Moved(state, moves[0]), moves[1..])
  }

  function Interleaved(state: State, moves: seq<Move>): State
    requires Interleaves(state, moves)
    decreases |moves|
  {
    if moves == [] then state else Interleaved(Moved(state, moves[0]), moves[1..])
  }

  function StepsOf(moves: seq<Move>): seq<Step>
    decreases |moves|
  {
    if moves == [] then []
    else (if moves[0].Worker? then [moves[0].step] else []) + StepsOf(moves[1..])
  }

  function AsidesOf(moves: seq<Move>): seq<Aside>
    decreases |moves|
  {
    if moves == [] then []
    else (if moves[0].Own? then [moves[0].aside] else []) + AsidesOf(moves[1..])
  }

  /** A step of the worker and one without the lock can be told in either order. */
  lemma Commute(state: State, step: Step, aside: Aside)
    requires OfWorker(step)
    ensures Enabled(Turned(state, aside), step) <==> Enabled(state, step)
    ensures Enabled(state, step) ==> Next(Turned(state, aside), step) == Turned(Next(state, step), aside)
  {
    if step.Finish? && Enabled(state, step) {
      var closed, one := state.history.closed, multiset{state.taken.value};
      assert closed + one + aside.shut == closed + aside.shut + one;
      assert state.sounds + aside.come - aside.gone == Turned(state, aside).sounds;
    }
  }

  lemma {:induction false} CommuteAll(state: State, step: Step, asides: seq<Aside>)
    requires OfWorker(step)
    ensures Enabled(TurnedAll(state, asides), step) <==> Enabled(state, step)
    ensures Enabled(state, step) ==> Next(TurnedAll(state, asides), step) == TurnedAll(Next(state, step), asides)
    decreases |asides|
  {
    hide Turned, Next, Enabled;
    if asides != [] {
      Commute(state, step, asides[0]);
      CommuteAll(Turned(state, asides[0]), step, asides[1..]);
    }
  }

  /** However the worker steps in between, the call might as well have done all of its own first. */
  lemma {:induction false} OwnFirst(state: State, moves: seq<Move>)
    requires Interleaves(state, moves)
    ensures Runs(TurnedAll(state, AsidesOf(moves)), StepsOf(moves))
    ensures Interleaved(state, moves) == Run(TurnedAll(state, AsidesOf(moves)), StepsOf(moves))
    decreases |moves|
  {
    hide Turned, Next, Enabled;
    if moves != [] {
      OwnFirst(Moved(state, moves[0]), moves[1..]);
      if moves[0].Worker? {
        CommuteAll(state, moves[0].step, AsidesOf(moves[1..]));
        assert StepsOf(moves)[1..] == StepsOf(moves[1..]) && StepsOf(moves)[0] == moves[0].step;
        assert AsidesOf(moves) == AsidesOf(moves[1..]);
      } else {
        assert AsidesOf(moves)[1..] == AsidesOf(moves[1..]) && AsidesOf(moves)[0] == moves[0].aside;
        assert StepsOf(moves) == StepsOf(moves[1..]);
      }
    }
  }

  /**
   * A stop with the worker stepping anywhere behind its lock is the stop as one step, and then those steps of the
   * worker.
   */
  lemma StopIsOneStep(state: State, sound: nat, moves: seq<Move>)
    requires Interleaves(Withdrawn(state, sound), moves) && AsidesOf(moves) == StopAsides(state, sound)
    ensures Runs(state, [Stop(sound)] + StepsOf(moves))
    ensures Interleaved(Withdrawn(state, sound), moves) == Run(state, [Stop(sound)] + StepsOf(moves))
  {
    hide StopAsides, Withdrawn, Stopped, Interleaves, Interleaved;
    OwnFirst(Withdrawn(state, sound), moves);
    StopInTwo(state, sound);
    assert ([Stop(sound)] + StepsOf(moves))[1..] == StepsOf(moves);
  }

  /**
   * An update with the worker stepping anywhere behind its lock is the update as one step, and then those steps of
   * the worker.
   */
  lemma UpdateIsOneStep(state: State, atEnd: set<nat>, moves: seq<Move>)
    requires Interleaves(Collected(state), moves) && AsidesOf(moves) == UpdateAsides(state, atEnd)
    ensures Runs(state, [Update(atEnd)] + StepsOf(moves))
    ensures Interleaved(Collected(state), moves) == Run(state, [Update(atEnd)] + StepsOf(moves))
  {
    hide UpdateAsides, Collected, Updated, Interleaves, Interleaved;
    OwnFirst(Collected(state), moves);
    UpdateInTwo(state, atEnd);
    assert ([Update(atEnd)] + StepsOf(moves))[1..] == StepsOf(moves);
  }

  /** The calls of its own can always go on, and the worker whenever it could without them. */
  lemma MovesGoOn(state: State, aside: Aside, step: Step, moves: seq<Move>)
    ensures Interleaves(state, [])
    ensures Interleaves(Turned(state, aside), moves) ==> Interleaves(state, [Own(aside)] + moves)
    ensures (step.Take? || step.Finish?) && Enabled(state, step) && Interleaves(Next(state, step), moves) ==>
              Interleaves(state, [Worker(step)] + moves)
  {
    assert ([Own(aside)] + moves)[1..] == moves && ([Worker(step)] + moves)[1..] == moves;
  }

  lemma RunStep(state: State, step: Step, steps: seq<Step>)
    requires Enabled(state, step) && Runs(Next(state, step), steps)
    ensures Runs(state, [step] + steps) && Run(state, [step] + steps) == Run(Next(state, step), steps)
  {
    assert ([step] + steps)[1..] == steps;
  }

  lemma NoSteps(state: State)
    ensures Runs(state, []) && Run(state, []) == state
  {
  }

  /** One sound is played, opened and at its end: it is reported and closed, once each, and plays no more. */
  lemma OneSound()
    ensures
      var steps := [Play(false), Take, Finish(true), Update({1})];
      && Runs(START, steps)
      && var last := Run(START, steps);
         && last.sounds == {} && last.ready == [] && last.history.made == {1}
         && last.history.reported[1] == 1 && last.history.closed[1] == 1
  {
    hide *;
    SoundWaits();
    var played := Next(START, Play(false));
    SoundOpens(played);
    var taken := Next(played, Take);
    var handed := Next(taken, Finish(true));
    SoundEnds(handed);
    NoSteps(Updated(handed, {1}));
    RunStep(handed, Update({1}), []);
    RunStep(taken, Finish(true), [Update({1})] + []);
    RunStep(played, Take, [Finish(true)] + ([Update({1})] + []));
    RunStep(START, Play(false), [Take] + ([Finish(true)] + ([Update({1})] + [])));
    assert [Play(false)] + ([Take] + ([Finish(true)] + ([Update({1})] + []))) ==
        [Play(false), Take, Finish(true), Update({1})];
  }

  lemma SoundWaits()
    ensures Enabled(START, Play(false)) && Next(START, Play(false)) == START.(next := 1, waiting := [1])
  {
  }

  lemma SoundOpens(state: State)
    requires state == START.(next := 1, waiting := [1])
    ensures Enabled(state, Take) && Next(state, Take) == START.(next := 1, taken := Some(1), opening := 1)
    ensures Enabled(Next(state, Take), Finish(true))
    ensures Next(Next(state, Take), Finish(true)) ==
        START.(next := 1, ready := [1], history := START.history.(made := {1}))
  {
  }

  lemma EndingOne()
    ensures Ending({1}, {}, {1}, 1) == [1]
  {
    assert Ending({1}, {}, {1}, 0) == [];
  }

  lemma SoundEnds(state: State)
    requires state == START.(next := 1, ready := [1], history := START.history.(made := {1}))
    ensures
      var after := Updated(state, {1});
      && Enabled(state, Update({1})) && Next(state, Update({1})) == after
      && after.sounds == {} && after.ready == [] && after.history.made == {1}
      && after.history.reported[1] == 1 && after.history.closed[1] == 1
  {
    hide Ending;
    EndingOne();
    var playing := state.sounds + Members(state.ready);
    assert playing == {1};
    assert Reporting(state, {1}) == [1];
    assert Members([1]) == {1} && playing * {1} == {1};
  }

  // ----- The object ----------------------------------------------------------------------------------------

  /** What an update answers of a sound. */
  datatype Ended = Ended(sound: nat, failed: bool)

  function Answered(ids: seq<nat>, failures: nat): (ended: seq<Ended>)
    ensures |ended| == |ids| && forall k | 0 <= k < |ids| :: ended[k] == Ended(ids[k], k < failures)
  {
    seq(|ids|, k requires 0 <= k < |ids| => Ended(ids[k], k < failures))
  }

  lemma AnsweredMembers(ids: seq<nat>, failed: seq<nat>, sound: nat)
    requires |failed| <= |ids| && forall k | 0 <= k < |failed| :: ids[k] == failed[k]
    ensures Ended(sound, true) in Answered(ids, |failed|) <==> sound in failed
    ensures Ended(sound, false) in Answered(ids, |failed|) <==> sound in ids[|failed|..]
  {
    var ended := Answered(ids, |failed|);
    if sound in failed {
      var k :| 0 <= k < |failed| && failed[k] == sound;
      assert ended[k] == Ended(sound, true);
    }
    if sound in ids[|failed|..] {
      var k :| 0 <= k < |ids[|failed|..]| && ids[|failed|..][k] == sound;
      assert ended[|failed| + k] == Ended(sound, false);
    }
    if Ended(sound, false) in ended {
      var k :| 0 <= k < |ended| && ended[k] == Ended(sound, false);
      assert ids[|failed|..][k - |failed|] == sound;
    }
  }

  lemma AnsweredExactly(before: State, atEnd: set<nat>, ended: seq<Ended>)
    requires Valid(before) && ended == Answered(Reporting(before, atEnd), |before.failed|)
    ensures forall sound :: Ended(sound, true) in ended <==> sound in before.failed
    ensures forall sound :: Ended(sound, false) in ended <==> Over(before, sound, atEnd)
    ensures forall i, j | 0 <= i < j < |ended| :: ended[i].sound != ended[j].sound
    ensures forall sound | Ended(sound, true) in ended || Ended(sound, false) in ended ::
              && Places(Updated(before, atEnd), sound) == 0
              && Updated(before, atEnd).history.closed[sound] == Count(sound in Updated(before, atEnd).history.made)
    ensures forall sound :: sound in Updated(before, atEnd).sounds <==>
              (sound in before.sounds || sound in before.ready) && Ended(sound, false) !in ended
  {
    ReportedExactly(before, atEnd);
    assert forall i, j | 0 <= i < j < |ended| :: ended[i].sound != ended[j].sound;
    hide Valid, Fine, Updated, Reporting, Over, Places, Distinct;
    forall sound
      ensures Ended(sound, true) in ended <==> sound in before.failed
      ensures Ended(sound, false) in ended <==> Over(before, sound, atEnd)
      ensures Ended(sound, true) in ended || Ended(sound, false) in ended ==>
                && Places(Updated(before, atEnd), sound) == 0
                && Updated(before, atEnd).history.closed[sound] == Count(sound in Updated(before, atEnd).history.made)
      ensures sound in Updated(before, atEnd).sounds <==>
                (sound in before.sounds || sound in before.ready) && Ended(sound, false) !in ended
    {
      AnsweredMembers(Reporting(before, atEnd), before.failed, sound);
      ReportedIsGone(before, atEnd, sound);
    }
  }

  class MiniaudioOutput {
    var next: nat
    var loops: set<nat>
    var waiting: seq<nat>
    var taken: Option<nat>
    var opening: nat
    var cancelled: nat
    var ready: seq<nat>
    var failed: seq<nat>
    var sounds: set<nat>
    var stopping: bool
    ghost var history: History

    ghost function Abstract(): State
      reads this
    {
      State(next, loops, waiting, taken, opening, cancelled, ready, failed, sounds, stopping, history)
    }

    constructor ()
      ensures Abstract() == START && Valid(Abstract())
    {
      next, loops, waiting, taken, opening, cancelled, ready, failed, sounds, stopping := 0, {}, [], None, 0, 0, [],
          [], {}, false;
      history := START.history;
      StartValid();
    }

    /** ma_sound_uninit. */
    method Close(sound: nat)
      modifies this`history
      ensures history == old(history).(closed := old(history.closed) + multiset{sound})
    {
      history := history.(closed := history.closed + multiset{sound});
    }

    method Release(sound: nat)
      modifies this`sounds, this`history
      ensures sounds == old(sounds) - {sound}
      ensures history == old(history).(closed := Closing(old(history.closed), sound, sound in old(sounds)))
    {
      if sound in sounds {
        Close(sound);
        sounds := sounds - {sound};
      }
    }

    method Play(loop: bool) returns (sound: nat)
      requires Valid(Abstract())
      modifies this
      ensures Abstract() == Played(old(Abstract()), loop) && Valid(Abstract())
      ensures sound == old(next) + 1 == next && Places(Abstract(), sound) == 1
      ensures waiting == old(waiting) + [sound] && (sound in loops <==> loop)
    {
      PlayedKeeps(Abstract(), loop);
      next := next + 1;
      sound := next;
      waiting := waiting + [sound];
      if loop {
        loops := loops + {sound};
      }
      assert Fine(Abstract(), sound);
    }

    /** The section of stop under the lock. */
    method Withdraw(sound: nat)
      modifies this`waiting, this`failed, this`cancelled, this`ready, this`history
      ensures Abstract() == Withdrawn(old(Abstract()), sound)
    {
      hide Without;
      waiting := Without(waiting, sound);
      failed := Without(failed, sound);
      if opening == sound {
        cancelled := sound;
      }
      if sound in ready {
        Close(sound);
      }
      ready := Without(ready, sound);
    }

    method Stop(sound: nat)
      requires Valid(Abstract())
      modifies this
      ensures Abstract() == Stopped(old(Abstract()), sound) && Valid(Abstract())
      ensures sound !in waiting && sound !in ready && sound !in failed && sound !in sounds
      ensures old(taken) == Some(sound) && 1 <= sound <= next ==> cancelled == sound
      ensures forall other | other != sound :: Places(Abstract(), other) == old(Places(Abstract(), other))
    {
      hide Valid, Fine, Without, Closing;
      StoppedKeeps(Abstract(), sound);
      StoppedOnlyThis(Abstract(), sound);
      Withdraw(sound);
      Release(sound);
      history := history.(stopped := history.stopped + if 1 <= sound <= next then {sound} else {});
    }

    /** The sounds that played to their end, in the order of the map. */
    method AtEnd(atEnd: set<nat>) returns (ids: seq<nat>)
      ensures ids == Ending(sounds, loops, atEnd, next)
    {
      ids := [];
      for id := 1 to next + 1
        invariant ids == Ending(sounds, loops, atEnd, id - 1)
      {
        if id in sounds && id !in loops && id in atEnd {
          ids := ids + [id];
        }
      }
    }

    method ReleaseAll(ids: seq<nat>)
      requires Distinct(ids)
      modifies this`sounds, this`history
      ensures sounds == Remaining(old(sounds), ids)
      ensures history == old(history).(closed := ClosingAll(old(history.closed), old(sounds), ids))
    {
      hide Distinct;
      assert ids[..0] == [];
      for k := 0 to |ids|
        invariant sounds == old(sounds) - Members(ids[..k])
        invariant history == old(history).(closed := old(history.closed) + multiset(old(sounds) * Members(ids[..k])))
      {
        Released(old(sounds), ids, k);
        Release(ids[k]);
      }
      assert ids[..|ids|] == ids;
    }

    /** The section of update under the lock. */
    method Collect() returns (prepared: seq<nat>, failures: seq<nat>)
      modifies this`ready, this`failed
      ensures prepared == old(ready) && failures == old(failed)
      ensures Abstract() == Collected(old(Abstract()))
    {
      prepared, failures := ready, failed;
      ready, failed := [], [];
    }

    /** The identities that end with an update, after they have been released. */
    method Advance(atEnd: set<nat>) returns (ids: seq<nat>)
      requires Valid(Abstract())
      modifies this
      ensures Abstract() == Updated(old(Abstract()), atEnd) && ids == Reporting(old(Abstract()), atEnd)
    {
      hide Valid, Fine, Ending, Distinct, Members, Remaining, ClosingAll, ReportingAll;
      ReportedApart(Abstract(), atEnd);
      var prepared, failures := Collect();
      sounds := sounds + Members(prepared);
      ids := AtEnd(atEnd);
      ids := failures + ids;
      ReleaseAll(ids);
      history := history.(reported := ReportingAll(history.reported, ids));
    }

    method Update(atEnd: set<nat>) returns (ended: seq<Ended>)
      requires Valid(Abstract())
      modifies this
      ensures Abstract() == Updated(old(Abstract()), atEnd) && Valid(Abstract())
      ensures |ended| == |Reporting(old(Abstract()), atEnd)|
      ensures forall k | 0 <= k < |ended| :: ended[k] == Ended(Reporting(old(Abstract()), atEnd)[k], k < |old(failed)|)
      ensures forall sound :: Ended(sound, true) in ended <==> sound in old(failed)
      ensures forall sound :: Ended(sound, false) in ended <==>
                (sound in old(sounds) || sound in old(ready)) && sound !in old(loops) && sound in atEnd
      ensures forall i, j | 0 <= i < j < |ended| :: ended[i].sound != ended[j].sound
      ensures forall sound | Ended(sound, true) in ended || Ended(sound, false) in ended ::
                Places(Abstract(), sound) == 0 && history.closed[sound] == Count(sound in history.made)
      ensures forall sound :: sound in sounds <==>
                (sound in old(sounds) || sound in old(ready)) && Ended(sound, false) !in ended
    {
      hide Valid, Fine, Updated, Reporting;
      UpdatedKeeps(Abstract(), atEnd);
      var failures := |failed|;
      ghost var before := Abstract();
      ReportedExactly(before, atEnd);
      var ids := Advance(atEnd);
      ended := Answered(ids, failures);
      AnsweredExactly(before, atEnd, ended);
    }

    /** The worker, first section under the lock. */
    method TakeRequest()
      requires Valid(Abstract()) && taken == None && waiting != [] && !stopping
      modifies this
      ensures Abstract() == Taking(old(Abstract())) && Valid(Abstract())
      ensures taken == Some(old(waiting)[0]) && opening == old(waiting)[0] && waiting == old(waiting)[1..]
      ensures ready == old(ready) && failed == old(failed) && sounds == old(sounds) && history == old(history)
    {
      TakingKeeps(Abstract());
      var sound := waiting[0];
      waiting := waiting[1..];
      taken, opening := Some(sound), sound;
    }

    /** The worker, second section under the lock, with what the machine made of the file. */
    method FinishRequest(success: bool)
      requires Valid(Abstract()) && taken.Some?
      modifies this
      ensures Abstract() == Finishing(old(Abstract()), success) && Valid(Abstract())
      ensures taken == None && opening == 0 && waiting == old(waiting) && sounds == old(sounds)
      ensures var sound, thrown := old(taken).value, old(cancelled == taken.value);
        && ready == old(ready) + (if success && !thrown then [sound] else [])
        && failed == old(failed) + (if !success && !thrown then [sound] else [])
        && history.made == old(history.made) + (if success then {sound} else {})
        && history.closed == old(history.closed) + (if success && thrown then multiset{sound} else multiset{})
    {
      FinishingKeeps(Abstract(), success);
      var sound := taken.value;
      taken, opening := None, 0;
      if success {
        history := history.(made := history.made + {sound});
      }
      if cancelled == sound {
        cancelled := 0;
        if success {
          Close(sound);
        }
      } else if success {
        ready := ready + [sound];
      } else {
        failed := failed + [sound];
      }
    }

    method Quit()
      requires Valid(Abstract())
      modifies this
      ensures Abstract() == Quitting(old(Abstract())) && Valid(Abstract())
      ensures stopping && waiting == old(waiting) && history == old(history)
    {
      QuittingKeeps(Abstract());
      stopping := true;
    }

    method CloseReady()
      requires Distinct(ready)
      modifies this`ready, this`history
      ensures ready == [] && history == old(history).(closed := old(history.closed) + multiset(Members(old(ready))))
    {
      hide Distinct;
      assert ready[..0] == [];
      for k := 0 to |ready|
        invariant ready == old(ready)
        invariant history == old(history).(closed := old(history.closed) + multiset(Members(ready[..k])))
      {
        ClosedNext(ready, k);
        Close(ready[k]);
      }
      assert ready[..|ready|] == ready;
      ready := [];
    }

    method CloseSounds()
      requires forall id | id in sounds :: 1 <= id <= next
      modifies this`sounds, this`history
      ensures sounds == {} && history == old(history).(closed := old(history.closed) + multiset(old(sounds)))
    {
      for id := 1 to next + 1
        invariant sounds == old(sounds)
        invariant history == old(history).(closed := old(history.closed) + multiset(Below(sounds, id)))
      {
        BelowNext(old(history.closed), sounds, id);
        if id in sounds {
          Close(id);
        }
      }
      assert Below(sounds, next + 1) == sounds;
      sounds := {};
    }

    /** The destructor after the worker has been joined. */
    method Destroy()
      requires Valid(Abstract()) && stopping && taken == None
      modifies this
      ensures Abstract() == Closed(old(Abstract()))
      ensures forall sound :: history.closed[sound] == Count(sound in history.made)
    {
      AllClosedOnce(Abstract());
      hide Valid, Fine, Distinct;
      CloseReady();
      CloseSounds();
    }
  }

  lemma AllClosedOnce(state: State)
    requires Valid(state) && state.stopping && state.taken == None
    ensures forall sound :: Closed(state).history.closed[sound] == Count(sound in Closed(state).history.made)
    ensures Distinct(state.ready) && forall id | id in state.sounds :: 1 <= id <= state.next
  {
    forall sound
      ensures Closed(state).history.closed[sound] == Count(sound in Closed(state).history.made)
    {
      EveryObjectClosedOnce(state, sound);
    }
    forall id | id in state.sounds
      ensures 1 <= id <= state.next
    {
      assert Fine(state, id);
    }
  }

  function Below(sounds: set<nat>, bound: nat): set<nat> {
    set id | id in sounds && 1 <= id < bound
  }

  lemma BelowNext(closed: multiset<nat>, sounds: set<nat>, id: nat)
    requires 1 <= id
    ensures closed + multiset(Below(sounds, id + 1)) == Closing(closed + multiset(Below(sounds, id)), id, id in sounds)
  {
    assert Below(sounds, id + 1) == Below(sounds, id) + if id in sounds then {id} else {};
  }

  lemma Released(playing: set<nat>, ids: seq<nat>, k: nat)
    requires Distinct(ids) && k < |ids|
    ensures playing - Members(ids[..k + 1]) == playing - Members(ids[..k]) - {ids[k]}
    ensures multiset(playing * Members(ids[..k + 1])) ==
              multiset(playing * Members(ids[..k])) + if ids[k] in playing - Members(ids[..k]) then multiset{ids[k]}
                  else multiset{}
  {
    assert ids[..k + 1] == ids[..k] + [ids[k]];
    assert ids[k] !in ids[..k];
    assert Members(ids[..k + 1]) == Members(ids[..k]) + {ids[k]};
    assert playing * Members(ids[..k + 1]) == playing * Members(ids[..k]) + if ids[k] in playing then {ids[k]} else {};
  }

  lemma ClosedNext(ids: seq<nat>, k: nat)
    requires Distinct(ids) && k < |ids|
    ensures multiset(Members(ids[..k + 1])) == multiset(Members(ids[..k])) + multiset{ids[k]}
  {
    assert ids[..k + 1] == ids[..k] + [ids[k]];
    assert ids[k] !in ids[..k];
    assert Members(ids[..k + 1]) == Members(ids[..k]) + {ids[k]};
  }
}

/**
 * How `DelayManager` tells its readers that a group has settled: cached snapshots whose identity readers
 * compare, overlapping batches that hold notifications back, and listeners called on the next frame.
 *
 * A snapshot reads live delays, so all that matters of it is its identity; identities are numbered.
 */
module DelaySettling {
  datatype SetSnapshot = SetSnapshot(id: nat, groups: map<string, nat>)

  /**
   * `running` counts the batches that have begun and not ended, per group; `calling` holds the groups a frame has
   * taken over and not reached yet; the other fields are the manager's.
   */
  datatype State = State(
    active: map<string, nat>,
    groups: map<string, nat>,
    sets: map<string, SetSnapshot>,
    pending: set<string>,
    flushScheduled: bool,
    calling: set<string>,
    listeners: map<string, set<nat>>,
    running: multiset<string>,
    next: nat)

  const INIT := State(map[], map[], map[], {}, false, {}, map[], multiset{}, 0)

  const SEPARATOR := ' '

  /** `key.split(' ')`. */
  function Split(key: string): (names: seq<string>)
    ensures names != []
  {
    if key == "" then [""]
    else
      var rest := Split(key[1..]);
      if key[0] == SEPARATOR then [""] + rest else [[key[0]] + rest[0]] + rest[1..]
  }

  /** `groups.join(' ')`. */
  function Join(names: seq<string>): string {
    if names == [] then "" else if |names| == 1 then names[0] else names[0] + [SEPARATOR] + Join(names[1..])
  }

  function Names(groupKey: string): seq<string> { if groupKey == "" then [] else Split(groupKey) }

  function Count(active: map<string, nat>, group: string): nat { if group in active then active[group] else 0 }

  function ListenersOf(s: State, group: string): set<nat> {
    if group in s.listeners then s.listeners[group] else {}
  }

  datatype Step =
    | Begin(group: string)    // a batch enters
    | End(group: string)      // a batch reaches its `finally`
    | Notify(group: string)   // a single test or an uptime snapshot
    | Read(group: string)
    | ReadSet(groupKey: string)
    | Subscribe(group: string, listener: nat)
    | Unsubscribe(group: string, listener: nat)
    | Flush                   // a frame begins
    | Call(group: string)     // the frame calls the group's listeners; what these do are steps after it

  predicate Enabled(s: State, step: Step) {
    match step
    case End(group) => group in s.running
    case Flush => s.flushScheduled && s.calling == {}
    case Call(group) => group in s.calling
    case _ => true
  }

  function Notified(s: State, group: string): State {
    if Count(s.active, group) > 0 then s
    else s.(groups := s.groups - {group}, sets := map[], pending := s.pending + {group}, flushScheduled := true)
  }

  function Ended(s: State, group: string): State {
    var batches: int := if group in s.active then s.active[group] else 1;
    var remaining := batches - 1;
    var t := s.(running := s.running - multiset{group});
    if remaining > 0 then t.(active := t.active[group := remaining])
    else Notified(t.(active := t.active - {group}), group)
  }

  function Looked(s: State, group: string): State {
    if group in s.groups then s else s.(groups := s.groups[group := s.next], next := s.next + 1)
  }

  function LookedAll(s: State, names: seq<string>): (t: State)
    ensures forall name :: name in names ==> name in t.groups
    ensures forall name :: name in s.groups ==> name in t.groups && t.groups[name] == s.groups[name]
    ensures t == s.(groups := t.groups, next := t.next) && s.next <= t.next
  {
    if names == [] then s else Looked(LookedAll(s, names[..|names| - 1]), names[|names| - 1])
  }

  function Picked(groups: map<string, nat>, names: seq<string>): map<string, nat>
    requires forall name :: name in names ==> name in groups
  {
    map name | name in names :: groups[name]
  }

  function LookedSet(s: State, groupKey: string): State {
    if groupKey in s.sets then s
    else
      var t := LookedAll(s, Names(groupKey));
      t.(sets := t.sets[groupKey := SetSnapshot(t.next, Picked(t.groups, Names(groupKey)))], next := t.next + 1)
  }

  function Left(s: State, group: string, listener: nat): State {
    if group !in s.listeners then s
    else
      var rest := s.listeners[group] - {listener};
      s.(listeners := if rest == {} then s.listeners - {group} else s.listeners[group := rest])
  }

  function Flushed(s: State): State { s.(pending := {}, flushScheduled := false, calling := s.pending) }

  function After(s: State, step: Step): State
    requires Enabled(s, step)
  {
    match step
    case Begin(group) =>
      s.(active := s.active[group := Count(s.active, group) + 1], running := s.running + multiset{group})
    case End(group) => Ended(s, group)
    case Notify(group) => Notified(s, group)
    case Read(group) => Looked(s, group)
    case ReadSet(groupKey) => LookedSet(s, groupKey)
    case Subscribe(group, listener) =>
      s.(listeners := s.listeners[group := ListenersOf(s, group) + {listener}])
    case Unsubscribe(group, listener) => Left(s, group, listener)
    case Flush => Flushed(s)
    case Call(group) => s.(calling := s.calling - {group})
  }

  lemma LookOneMore(s: State, names: seq<string>, i: nat)
    requires i < |names|
    ensures LookedAll(s, names[..i + 1]) == Looked(LookedAll(s, names[..i]), names[i])
    ensures var groups := LookedAll(s, names[..i + 1]).groups;
            Picked(groups, names[..i + 1]) ==
              Picked(LookedAll(s, names[..i]).groups, names[..i])[names[i] := groups[names[i]]]
  {
    assert names[..i + 1][..i] == names[..i];
    assert forall name :: name in names[..i + 1] <==> name in names[..i] || name == names[i];
  }

  class DelayManager {
    var activeBatches: map<string, nat>
    var groupSnapshots: map<string, nat>
    var groupSetSnapshots: map<string, SetSnapshot>
    var pendingGroupUpdates: set<string>
    var groupFlushScheduled: bool
    var calling: set<string>
    var groupListenerMap: map<string, set<nat>>
    var next: nat
    ghost var running: multiset<string>

    ghost function View(): State
      reads this
    {
      State(activeBatches, groupSnapshots, groupSetSnapshots, pendingGroupUpdates, groupFlushScheduled, calling,
            groupListenerMap, running, next)
    }

    constructor ()
      ensures View() == INIT
    {
      activeBatches, groupSnapshots, groupSetSnapshots, groupListenerMap := map[], map[], map[], map[];
      pendingGroupUpdates, groupFlushScheduled, calling, next, running := {}, false, {}, 0, multiset{};
    }

    method QueueGroupNotification(group: string)
      modifies this
      ensures View() == Notified(old(View()), group)
    {
      if group in activeBatches && activeBatches[group] > 0 { return; }
      groupSnapshots := groupSnapshots - {group};
      groupSetSnapshots := map[];
      pendingGroupUpdates := pendingGroupUpdates + {group};
      groupFlushScheduled := true;
    }

    method GroupDelays(group: string) returns (id: nat)
      modifies this
      ensures View() == Looked(old(View()), group)
      ensures group in groupSnapshots && id == groupSnapshots[group]
    {
      if group in groupSnapshots { return groupSnapshots[group]; }
      id := next;
      next := next + 1;
      groupSnapshots := groupSnapshots[group := id];
    }

    method GroupsDelays(groupKey: string) returns (snapshot: SetSnapshot)
      modifies this
      ensures View() == LookedSet(old(View()), groupKey)
      ensures groupKey in groupSetSnapshots && snapshot == groupSetSnapshots[groupKey]
    {
      if groupKey in groupSetSnapshots { return groupSetSnapshots[groupKey]; }
      var names := Names(groupKey);
      var snapshots: map<string, nat> := map[];
      var i := 0;
      while i < |names|
        invariant 0 <= i <= |names|
        invariant View() == LookedAll(old(View()), names[..i])
        invariant snapshots == Picked(groupSnapshots, names[..i])
      {
        LookOneMore(old(View()), names, i);
        var id := GroupDelays(names[i]);
        snapshots := snapshots[names[i] := id];
        i := i + 1;
      }
      assert names[..i] == names;
      snapshot := SetSnapshot(next, snapshots);
      next := next + 1;
      groupSetSnapshots := groupSetSnapshots[groupKey := snapshot];
    }

    /** `checkListDelay` on entry. */
    method BeginBatch(group: string)
      modifies this
      ensures View() == After(old(View()), Begin(group))
    {
      activeBatches := activeBatches[group := (if group in activeBatches then activeBatches[group] else 0) + 1];
      running := running + multiset{group};
    }

    /** `checkListDelay` in its `finally`. */
    method EndBatch(group: string)
      modifies this
      ensures View() == Ended(old(View()), group)
    {
      var batches: int := if group in activeBatches then activeBatches[group] else 1;
      var remaining := batches - 1;
      running := running - multiset{group};
      if remaining > 0 {
        activeBatches := activeBatches[group := remaining];
      } else {
        activeBatches := activeBatches - {group};
        QueueGroupNotification(group);
      }
    }

    method AddGroupListener(group: string, listener: nat)
      modifies this
      ensures View() == After(old(View()), Subscribe(group, listener))
    {
      var listeners := if group in groupListenerMap then groupListenerMap[group] else {};
      groupListenerMap := groupListenerMap[group := listeners + {listener}];
    }

    /** The function `addGroupListener` returns. */
    method RemoveGroupListener(group: string, listener: nat)
      modifies this
      ensures View() == After(old(View()), Unsubscribe(group, listener))
    {
      if group !in groupListenerMap { return; }
      var current := groupListenerMap[group] - {listener};
      groupListenerMap := groupListenerMap[group := current];
      if current == {} {
        groupListenerMap := groupListenerMap - {group};
      }
    }

    /** The frame callback takes over the groups that settled. */
    method BeginFlush()
      modifies this
      ensures View() == Flushed(old(View()))
    {
      groupFlushScheduled := false;
      calling := pendingGroupUpdates;
      pendingGroupUpdates := {};
    }

    /** One round of its loop: the listeners the group has by now, copied before any of them runs. */
    method CallGroup(group: string) returns (called: set<nat>)
      requires Enabled(View(), Call(group))
      modifies this
      ensures View() == After(old(View()), Call(group))
      ensures called == ListenersOf(old(View()), group)
    {
      calling := calling - {group};
      called := if group in groupListenerMap then groupListenerMap[group] else {};
    }

    /** The whole callback, when no listener changes the registrations. */
    method FlushGroups() returns (called: set<(string, nat)>)
      modifies this
      ensures View() == Flushed(old(View())).(calling := {})
      ensures called == Delivered(old(View()))
    {
      BeginFlush();
      ghost var groups := calling;
      called := {};
      while calling != {}
        invariant calling <= groups && View() == Flushed(old(View())).(calling := calling)
        invariant forall group, listener :: (group, listener) in called <==>
            group in groups - calling && listener in ListenersOf(old(View()), group)
        decreases |calling|
      {
        var group :| group in calling;
        var listeners := CallGroup(group);
        called := called + set listener | listener in listeners :: (group, listener);
      }
      forall call: (string, nat) ensures call in called <==> call in Delivered(old(View())) {
        var group, listener := call.0, call.1;
        assert call == (group, listener);
      }
    }
  }

  /** The listeners the next frame calls, with the group it calls them for. */
  ghost function Delivered(s: State): set<(string, nat)> {
    set group, listener | group in s.pending && listener in ListenersOf(s, group) :: (group, listener)
  }

  // Every run

  ghost predicate Tally(s: State) {
    && (forall group :: s.running[group] == Count(s.active, group))
    && (forall group :: group in s.active ==> s.active[group] > 0)
  }

  /** A cached set names exactly the groups of its key and holds their current snapshots. */
  ghost predicate Agrees(s: State, groupKey: string)
    requires groupKey in s.sets
  {
    var cached := s.sets[groupKey];
    && cached.id < s.next
    && (forall name :: name in cached.groups <==> name in Names(groupKey))
    && (forall name :: name in cached.groups ==> name in s.groups && s.groups[name] == cached.groups[name])
  }

  ghost predicate Numbered(s: State) { forall group :: group in s.groups ==> s.groups[group] < s.next }

  ghost predicate Told(s: State) {
    && (s.flushScheduled <==> s.pending != {})
    && (forall group :: group in s.listeners ==> s.listeners[group] != {})
  }

  ghost predicate Coherent(s: State) {
    Numbered(s) && forall groupKey :: groupKey in s.sets ==> Agrees(s, groupKey)
  }

  ghost predicate Inv(s: State) { Tally(s) && Coherent(s) && Told(s) }

  lemma EndKeepsTally(s: State, group: string)
    requires Tally(s) && group in s.running
    ensures Tally(Ended(s, group))
  {
    assert Count(s.active, group) == s.running[group] > 0;
  }

  lemma StepKeepsTally(s: State, step: Step)
    requires Tally(s) && Enabled(s, step)
    ensures Tally(After(s, step))
  {
    match step
    case End(group) => EndKeepsTally(s, group);
    case _ =>
  }

  lemma LookedKeepsCoherent(s: State, group: string)
    requires Coherent(s)
    ensures Coherent(Looked(s, group))
  {
    forall groupKey | groupKey in s.sets ensures Agrees(Looked(s, group), groupKey) {
      assert Agrees(s, groupKey);
    }
  }

  lemma {:induction false} LookedAllKeepsCoherent(s: State, names: seq<string>)
    requires Coherent(s)
    ensures Coherent(LookedAll(s, names))
    decreases |names|
  {
    if names != [] {
      LookedAllKeepsCoherent(s, names[..|names| - 1]);
      LookedKeepsCoherent(LookedAll(s, names[..|names| - 1]), names[|names| - 1]);
    }
  }

  lemma LookedSetKeepsCoherent(s: State, groupKey: string)
    requires Coherent(s)
    ensures Coherent(LookedSet(s, groupKey))
  {
    if groupKey !in s.sets {
      var names := Names(groupKey);
      LookedAllKeepsCoherent(s, names);
      var t := LookedAll(s, names);
      var u := LookedSet(s, groupKey);
      forall key | key in u.sets ensures Agrees(u, key) {
        if key != groupKey { assert Agrees(t, key); }
      }
    }
  }

  lemma StepKeepsCoherent(s: State, step: Step)
    requires Coherent(s) && Enabled(s, step)
    ensures Coherent(After(s, step))
  {
    match step
    case Read(group) => LookedKeepsCoherent(s, group);
    case ReadSet(groupKey) => LookedSetKeepsCoherent(s, groupKey);
    case _ =>
      var s' := After(s, step);
      forall key | key in s'.sets ensures Agrees(s', key) {
        assert Agrees(s, key);
      }
  }

  lemma StepKeepsTold(s: State, step: Step)
    requires Told(s) && Enabled(s, step)
    ensures Told(After(s, step))
  {
  }

  lemma StepKeepsInv(s: State, step: Step)
    requires Inv(s) && Enabled(s, step)
    ensures Inv(After(s, step))
  {
    StepKeepsTally(s, step);
    StepKeepsCoherent(s, step);
    StepKeepsTold(s, step);
  }

  ghost predicate Legal(s: State, steps: seq<Step>)
    decreases |steps|
  {
    steps == [] || (Enabled(s, steps[0]) && Legal(After(s, steps[0]), steps[1..]))
  }

  ghost function Final(s: State, steps: seq<Step>): State
    requires Legal(s, steps)
    decreases |steps|
  {
    if steps == [] then s else Final(After(s, steps[0]), steps[1..])
  }

  lemma {:induction false} RunKeepsInv(s: State, steps: seq<Step>)
    requires Inv(s) && Legal(s, steps)
    ensures Inv(Final(s, steps))
    decreases |steps|
  {
    if steps != [] {
      StepKeepsInv(s, steps[0]);
      RunKeepsInv(After(s, steps[0]), steps[1..]);
    }
  }

  /**
   * In every run a cached set holds, for exactly the groups of its key, the snapshots those groups have now;
   * the batch counters are right; and a frame is scheduled exactly while a group waits to be told of.
   */
  lemma EveryRun(steps: seq<Step>)
    requires Legal(INIT, steps)
    ensures var s := Final(INIT, steps);
            && (forall groupKey :: groupKey in s.sets ==> Agrees(s, groupKey))
            && (forall group :: s.running[group] == Count(s.active, group))
            && (s.flushScheduled <==> s.pending != {})
  {
    RunKeepsInv(INIT, steps);
  }

  // What a run of calls comes to

  /** Whether a listener that did, or did not, listen to a group at first is left subscribed by a run. */
  predicate SubscribedAfter(first: bool, steps: seq<Step>, group: string, listener: nat)
    decreases |steps|
  {
    if steps == [] then first
    else
      SubscribedAfter(
        if steps[0] == Subscribe(group, listener) then true
        else if steps[0] == Unsubscribe(group, listener) then false else first,
        steps[1..], group, listener)
  }

  /** A listener is registered for a group exactly when its last call for that group was to subscribe. */
  lemma {:induction false} ListensIffSubscribed(s: State, steps: seq<Step>, group: string, listener: nat)
    requires Legal(s, steps)
    ensures listener in ListenersOf(Final(s, steps), group) <==>
        SubscribedAfter(listener in ListenersOf(s, group), steps, group, listener)
    decreases |steps|
  {
    if steps != [] {
      StepAndListener(s, steps[0], group, listener);
      ListensIffSubscribed(After(s, steps[0]), steps[1..], group, listener);
    }
  }

  lemma StepAndListener(s: State, step: Step, group: string, listener: nat)
    requires Enabled(s, step)
    ensures listener in ListenersOf(After(s, step), group) <==>
        step == Subscribe(group, listener) ||
        (listener in ListenersOf(s, group) && step != Unsubscribe(group, listener))
  {
  }

  /** How often a step occurs in a run. */
  function Times(steps: seq<Step>, step: Step): nat {
    if steps == [] then 0 else (if steps[0] == step then 1 else 0) + Times(steps[1..], step)
  }

  /** The batches of a group that are running are those begun and not ended. */
  lemma {:induction false} RunningIsBegunNotEnded(s: State, steps: seq<Step>, group: string)
    requires Legal(s, steps)
    ensures Final(s, steps).running[group] + Times(steps, End(group)) ==
        s.running[group] + Times(steps, Begin(group))
    decreases |steps|
  {
    if steps != [] {
      StepAndRunning(s, steps[0], group);
      RunningIsBegunNotEnded(After(s, steps[0]), steps[1..], group);
    }
  }

  lemma StepAndRunning(s: State, step: Step, group: string)
    requires Enabled(s, step)
    ensures After(s, step).running[group] + (if step == End(group) then 1 else 0) ==
        s.running[group] + if step == Begin(group) then 1 else 0
  {
  }

  // When a group settles

  /** A single test outside any batch, or the end of the last batch. */
  ghost predicate Settles(s: State, step: Step, group: string) {
    (step == Notify(group) && s.running[group] == 0) || (step == End(group) && s.running[group] == 1)
  }

  ghost predicate SettlesIn(s: State, steps: seq<Step>, group: string)
    requires Legal(s, steps)
    decreases |steps|
  {
    steps != [] && (Settles(s, steps[0], group) || SettlesIn(After(s, steps[0]), steps[1..], group))
  }

  /** What a reader would get from `groupDelays` now. */
  ghost function Shown(s: State, group: string): nat { Looked(s, group).groups[group] }

  lemma {:induction false} LookedAllIsFresh(s: State, names: seq<string>, group: string)
    ensures group !in s.groups && group in LookedAll(s, names).groups ==> LookedAll(s, names).groups[group] >= s.next
    decreases |names|
  {
    if names != [] {
      LookedAllIsFresh(s, names[..|names| - 1], group);
    }
  }

  /** A snapshot stays until its group settles, and one that has gone never comes back. */
  ghost predicate KeepsIdentity(s: State, s': State, settles: bool, group: string) {
    && s.next <= s'.next
    && (settles ==> group !in s'.groups)
    && (group in s.groups && !settles ==> group in s'.groups && s'.groups[group] == s.groups[group])
    && (group !in s.groups && group in s'.groups ==> s'.groups[group] >= s.next)
  }

  lemma EndAndIdentity(s: State, ended: string, group: string)
    requires Tally(s) && ended in s.running
    ensures KeepsIdentity(s, Ended(s, ended), Settles(s, End(ended), group), group)
  {
    assert Count(s.active, ended) == s.running[ended];
  }

  lemma StepAndIdentity(s: State, step: Step, group: string)
    requires Tally(s) && Enabled(s, step)
    ensures KeepsIdentity(s, After(s, step), Settles(s, step, group), group)
  {
    match step
    case ReadSet(groupKey) => LookedAllIsFresh(s, Names(groupKey), group);
    case End(ended) => EndAndIdentity(s, ended, group);
    case _ =>
  }

  lemma {:induction false} OnceGoneIsNew(s: State, steps: seq<Step>, group: string, bound: nat)
    requires Inv(s) && Legal(s, steps) && bound <= s.next && bound <= Shown(s, group)
    ensures bound <= Shown(Final(s, steps), group)
    decreases |steps|
  {
    if steps != [] {
      StepAndIdentity(s, steps[0], group);
      StepKeepsInv(s, steps[0]);
      OnceGoneIsNew(After(s, steps[0]), steps[1..], group, bound);
    }
  }

  /**
   * A reader that compares snapshot identities sees a change exactly when the group settled in between:
   * never while a batch of it is still out, whatever other groups and batches do.
   */
  lemma {:induction false} IdentityChangesIffSettled(s: State, steps: seq<Step>, group: string)
    requires Inv(s) && Legal(s, steps) && group in s.groups
    ensures Shown(Final(s, steps), group) != s.groups[group] <==> SettlesIn(s, steps, group)
    decreases |steps|
  {
    if steps != [] {
      var s' := After(s, steps[0]);
      StepAndIdentity(s, steps[0], group);
      StepKeepsInv(s, steps[0]);
      if Settles(s, steps[0], group) {
        OnceGoneIsNew(s', steps[1..], group, s.groups[group] + 1);
      } else {
        IdentityChangesIffSettled(s', steps[1..], group);
      }
    }
  }

  ghost predicate AnySettles(s: State, step: Step) {
    match step
    case Notify(group) => s.running[group] == 0
    case End(group) => s.running[group] == 1
    case _ => false
  }

  lemma ReadSetAndSets(s: State, groupKey: string)
    ensures var s' := LookedSet(s, groupKey);
            && s.next <= s'.next
            && (forall key :: key in s.sets ==> key in s'.sets && s'.sets[key] == s.sets[key])
            && (forall key :: key in s'.sets && key !in s.sets ==> s'.sets[key].id >= s.next)
  {
  }

  lemma StepAndSets(s: State, step: Step)
    requires Inv(s) && Enabled(s, step)
    ensures var s' := After(s, step);
            && s.next <= s'.next
            && (AnySettles(s, step) ==> s'.sets == map[])
            && (!AnySettles(s, step) ==> forall key :: key in s.sets ==> key in s'.sets && s'.sets[key] == s.sets[key])
            && (forall key :: key in s'.sets && key !in s.sets ==> s'.sets[key].id >= s.next)
  {
    match step
    case ReadSet(groupKey) => ReadSetAndSets(s, groupKey);
    case _ =>
  }

  ghost predicate AnySettlesIn(s: State, steps: seq<Step>)
    requires Legal(s, steps)
    decreases |steps|
  {
    steps != [] && (AnySettles(s, steps[0]) || AnySettlesIn(After(s, steps[0]), steps[1..]))
  }

  lemma {:induction false} SomeGroupSettles(s: State, steps: seq<Step>) returns (group: string)
    requires Legal(s, steps) && AnySettlesIn(s, steps)
    ensures SettlesIn(s, steps, group)
    decreases |steps|
  {
    if AnySettles(s, steps[0]) {
      group := steps[0].group;
    } else {
      group := SomeGroupSettles(After(s, steps[0]), steps[1..]);
    }
  }

  lemma {:induction false} GroupSettlingCounts(s: State, steps: seq<Step>, group: string)
    requires Legal(s, steps) && SettlesIn(s, steps, group)
    ensures AnySettlesIn(s, steps)
    decreases |steps|
  {
    if !Settles(s, steps[0], group) {
      GroupSettlingCounts(After(s, steps[0]), steps[1..], group);
    }
  }

  ghost predicate SomeGroupSettlesIn(s: State, steps: seq<Step>)
    requires Legal(s, steps)
  {
    exists group :: SettlesDuring(s, steps, group)
  }

  ghost predicate SettlesDuring(s: State, steps: seq<Step>, group: string)
    requires Legal(s, steps)
  {
    SettlesIn(s, steps, group)
  }

  /** The cached set for a key is replaced exactly when some group settles. */
  lemma SetChangesIffAnySettled(s: State, steps: seq<Step>, groupKey: string)
    requires Inv(s) && Legal(s, steps) && groupKey in s.sets
    ensures LookedSet(Final(s, steps), groupKey).sets[groupKey] != s.sets[groupKey] <==> SomeGroupSettlesIn(s, steps)
  {
    SetChanges(s, steps, groupKey);
    if AnySettlesIn(s, steps) {
      var group := SomeGroupSettles(s, steps);
      assert SettlesDuring(s, steps, group);
    }
    forall group | SettlesDuring(s, steps, group) ensures AnySettlesIn(s, steps) {
      GroupSettlingCounts(s, steps, group);
    }
  }

  lemma {:induction false} SetChanges(s: State, steps: seq<Step>, groupKey: string)
    requires Inv(s) && Legal(s, steps) && groupKey in s.sets
    ensures LookedSet(Final(s, steps), groupKey).sets[groupKey] != s.sets[groupKey] <==> AnySettlesIn(s, steps)
    decreases |steps|
  {
    if steps != [] {
      StepKeepsInv(s, steps[0]);
      StepAndSets(s, steps[0]);
      assert Agrees(s, groupKey);
      if AnySettles(s, steps[0]) {
        SetsAreNew(After(s, steps[0]), steps[1..], groupKey, s.sets[groupKey].id + 1);
      } else {
        SetChanges(After(s, steps[0]), steps[1..], groupKey);
      }
    }
  }

  lemma {:induction false} SetsAreNew(s: State, steps: seq<Step>, groupKey: string, bound: nat)
    requires Inv(s) && Legal(s, steps) && bound <= s.next
    requires groupKey in s.sets ==> bound <= s.sets[groupKey].id
    ensures bound <= LookedSet(Final(s, steps), groupKey).sets[groupKey].id
    decreases |steps|
  {
    if steps != [] {
      StepKeepsInv(s, steps[0]);
      StepAndSets(s, steps[0]);
      SetsAreNew(After(s, steps[0]), steps[1..], groupKey, bound);
    }
  }

  lemma StepAndPending(s: State, step: Step, group: string)
    requires Tally(s) && Enabled(s, step) && step != Flush
    ensures group in After(s, step).pending <==> group in s.pending || Settles(s, step, group)
  {
  }

  /** Between frames, the groups waiting to be told of are those that waited before and those that settled since. */
  lemma {:induction false} PendingIffSettled(s: State, steps: seq<Step>, group: string)
    requires Inv(s) && Legal(s, steps) && Flush !in steps
    ensures group in Final(s, steps).pending <==> group in s.pending || SettlesIn(s, steps, group)
    decreases |steps|
  {
    if steps != [] {
      StepKeepsInv(s, steps[0]);
      StepAndPending(s, steps[0], group);
      PendingIffSettled(After(s, steps[0]), steps[1..], group);
    }
  }

  /** The frame after that run calls a listener for a group exactly when it listens then and the group settled. */
  lemma ListenersHearIffSettled(s: State, steps: seq<Step>, group: string, listener: nat)
    requires Inv(s) && Legal(s, steps) && Flush !in steps && s.pending == {}
    ensures var end := Final(s, steps);
            && ((group, listener) in Delivered(end) <==>
              SettlesIn(s, steps, group) && listener in ListenersOf(end, group))
            && (group in Flushed(end).calling <==> SettlesIn(s, steps, group))
            && (SettlesIn(s, steps, group) ==> end.flushScheduled)
  {
    PendingIffSettled(s, steps, group);
    RunKeepsInv(s, steps);
  }

  function Calls(steps: seq<Step>, group: string): nat {
    if steps == [] then 0 else (if steps[0] == Call(group) then 1 else 0) + Calls(steps[1..], group)
  }

  /** Whatever listeners do meanwhile, a frame calls for a group once if it took the group over, and else never. */
  lemma {:induction false} FrameCallsOnce(s: State, steps: seq<Step>, group: string)
    requires Legal(s, steps) && Flush !in steps
    ensures Calls(steps, group) + (if group in Final(s, steps).calling then 1 else 0) ==
        if group in s.calling then 1 else 0
    decreases |steps|
  {
    if steps != [] {
      StepAndCalling(s, steps[0]);
      FrameCallsOnce(After(s, steps[0]), steps[1..], group);
    }
  }

  lemma StepAndCalling(s: State, step: Step)
    requires Enabled(s, step) && step != Flush
    ensures After(s, step).calling == if step.Call? then s.calling - {step.group} else s.calling
  {
  }

  /** With overlapping batches the group settles with the end of the last one, and not before. */
  lemma LastBatchSettles(s: State, step: Step, group: string)
    requires Inv(s) && Enabled(s, step)
    ensures Settles(s, step, group) ==> After(s, step).running[group] == 0
    ensures s.running[group] > 0 && After(s, step).running[group] == 0 <==>
        step == End(group) && Settles(s, step, group)
    ensures s.running[group] > 0 && After(s, step).running[group] > 0 ==>
              (group in After(s, step).pending ==> group in s.pending)
  {
  }

  // The key of a set of groups

  lemma {:induction false} SplitAtSeparator(left: string, right: string)
    ensures Split(left + [SEPARATOR] + right) == Split(left) + Split(right)
  {
    var key := left + [SEPARATOR] + right;
    if left == "" {
      assert key[1..] == right;
    } else {
      assert key[1..] == left[1..] + [SEPARATOR] + right;
      SplitAtSeparator(left[1..], right);
    }
  }

  lemma {:induction false} PiecesHaveNoSeparator(key: string)
    ensures forall piece :: piece in Split(key) ==> SEPARATOR !in piece
  {
    if key != "" {
      PiecesHaveNoSeparator(key[1..]);
    }
  }

  lemma {:induction false} WholePiece(name: string)
    requires SEPARATOR !in name
    ensures Split(name) == [name]
  {
    if name != "" {
      WholePiece(name[1..]);
      assert name == [name[0]] + name[1..];
    }
  }

  lemma {:induction false} PiecesOfJoin(names: seq<string>, name: string)
    requires name in names && SEPARATOR !in name
    ensures name in Split(Join(names))
  {
    if |names| == 1 {
      WholePiece(name);
    } else {
      SplitAtSeparator(names[0], Join(names[1..]));
      if name == names[0] { WholePiece(name); } else { PiecesOfJoin(names[1..], name); }
    }
  }

  lemma {:induction false} SplitJoin(names: seq<string>)
    requires names != [] && forall name :: name in names ==> SEPARATOR !in name
    ensures Split(Join(names)) == names
  {
    WholePiece(names[0]);
    if |names| > 1 {
      SplitAtSeparator(names[0], Join(names[1..]));
      SplitJoin(names[1..]);
    }
  }

  /** The groups a view asks for come back from the key it makes of them exactly when no name has a space in it. */
  lemma KeyKeepsNamesIff(names: seq<string>)
    ensures Names(Join(names)) == names <==>
            names != [""] && forall name :: name in names ==> SEPARATOR !in name
  {
    var key := Join(names);
    if key != "" { PiecesHaveNoSeparator(key); }
    if names != [] && forall name :: name in names ==> SEPARATOR !in name {
      SplitJoin(names);
    }
  }

  /**
   * So a view finds the snapshot of a group it asked for exactly when that group's name has no space in it and
   * it did not ask for the empty name alone.
   */
  lemma GroupIsFoundIff(s: State, names: seq<string>, name: string)
    requires Inv(s) && name in names
    ensures name in LookedSet(s, Join(names)).sets[Join(names)].groups <==> SEPARATOR !in name && names != [""]
  {
    var key := Join(names);
    LookedSetKeepsCoherent(s, key);
    assert Agrees(LookedSet(s, key), key);
    if names != [""] {
      JoinIsNotEmpty(names);
      PiecesHaveNoSeparator(key);
      if SEPARATOR !in name { PiecesOfJoin(names, name); }
    }
  }

  /** For example: a view of the one group "a b" does not find it. */
  lemma SpacedGroupIsNotFound(s: State)
    requires Inv(s)
    ensures "a b" !in LookedSet(s, Join(["a b"])).sets[Join(["a b"])].groups
  {
    assert "a b"[1] == SEPARATOR;
    GroupIsFoundIff(s, ["a b"], "a b");
  }

  lemma JoinIsNotEmpty(names: seq<string>)
    requires names != [] && names != [""]
    ensures Join(names) != ""
  {
    if |names| > 1 {
      assert Join(names)[|names[0]|] == SEPARATOR;
    }
  }
}

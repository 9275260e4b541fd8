/**
 * One `Draft<T>` under any interleaving of any number of tasks.
 *
 * A task running `with_data_modify` moves through the phases of `acquire_data_modify_permit`, its two
 * critical sections and the drop of the permit; every other operation of the draft is one atomic step.
 * `Notify` follows its documented contract: `notify_one` wakes one parked task or else stores one token,
 * a task that polls `notified` with a token stored consumes it, and a woken task that is cancelled passes
 * its wake-up on.
 */
module DraftProtocol {
  import opened DraftSlots
  import opened Options

  /** Where a task is inside `with_data_modify`; a task that is not listed is outside. */
  datatype Phase<V> =
    | FastTry                                       // the try of the bounded retry loop
    | Yielded                                       // in yield_now
    | Trying                                        // `notified` made, about to compare-and-swap
    | Retrying                                      // likewise, after a token or a wake-up
    | Parking                                       // that failed, about to poll `notified`
    | Parked
    | Woken                                         // chosen by notify_one, not polled yet
    | Permitted                                     // holds the permit, nothing read yet
    | Editing(local: V, since: nat)                 // the closure runs on `local`; `since` = commits before
    | Leaving                                       // finished, about to store false
    | Notifying                                     // about to notify_one

  /** What became the committed value, in order: a `with_data_modify` result or an applied draft. */
  datatype Commit<V> = Modified(task: nat, input: V, output: V) | AppliedDraft(output: V)

  datatype State<V> = State(
    slots: Slots<V>,
    phases: map<nat, Phase<V>>,
    modifying: bool,
    token: bool,
    log: seq<Commit<V>>)

  datatype Step<V> =
    | Enter(t: nat)
    | TryFast(t: nat)
    | Resume(t: nat)
    | TrySlow(t: nat)
    | Poll(t: nat)
    | Wake(t: nat)
    | Snapshot(t: nat)
    | Finish(t: nat, result: Option<V>, spare: AllocId)
    | Release(t: nat)
    | NotifyOne(t: nat, chosen: Option<nat>)
    | Cancel(t: nat)
    | ReadData(r: nat)
    | ReadLatest(r: nat)
    | DropReader(r: nat)
    | EditDraft(v: V, spare: AllocId)
    | ApplyDraft
    | DiscardDraft

  ghost predicate In<V(!new)>(s: State<V>, t: nat, p: Phase<V>) { t in s.phases && s.phases[t] == p }

  predicate HasPermit<V>(p: Phase<V>) { p.Permitted? || p.Editing? || p.Leaving? }

  predicate Waits<V>(p: Phase<V>) { p.Parking? || p.Parked? }

  /** The task consumed a wake-up and has yet to retry, or is about to give one. */
  predicate Moves<V>(p: Phase<V>) { p.Retrying? || p.Woken? || p.Notifying? }

  /** Which tasks a cancellation can reach: those suspended at an await. */
  predicate Cancellable<V>(p: Phase<V>) { p.Yielded? || p.Parked? || p.Woken? || p.Editing? }

  ghost predicate Enabled<V(!new)>(s: State<V>, step: Step<V>) {
    match step
    case Enter(t) => t !in s.phases
    case TryFast(t) => In(s, t, FastTry)
    case Resume(t) => In(s, t, Yielded)
    case TrySlow(t) => In(s, t, Trying) || In(s, t, Retrying)
    case Poll(t) => In(s, t, Parking)
    case Wake(t) => In(s, t, Woken)
    case Snapshot(t) => In(s, t, Permitted)
    case Finish(t, _, spare) => t in s.phases && s.phases[t].Editing? && spare !in s.slots.heap
    case Release(t) => In(s, t, Leaving)
    case NotifyOne(t, chosen) => In(s, t, Notifying) &&
      (match chosen
       case Some(u) => In(s, u, Parked)
       case None => forall u :: u in s.phases ==> !s.phases[u].Parked?)
    case Cancel(t) => t in s.phases && Cancellable(s.phases[t])
    case ReadData(r) => Reader(r) !in s.slots.holds
    case ReadLatest(r) => Reader(r) !in s.slots.holds
    case DropReader(r) => Reader(r) in s.slots.holds
    case EditDraft(_, spare) => spare !in s.slots.heap
    case ApplyDraft => true
    case DiscardDraft => true
  }

  ghost function To<V>(s: State<V>, t: nat, p: Phase<V>): State<V> { s.(phases := s.phases[t := p]) }

  /** The compare-and-swap of `try_acquire_data_modify_permit`. */
  ghost function Tried<V>(s: State<V>, t: nat, failed: Phase<V>): State<V> {
    if s.modifying then To(s, t, failed) else To(s, t, Permitted).(modifying := true)
  }

  /** The last critical section, the drop of `original_arc` included. */
  ghost function Finished<V>(s: State<V>, t: nat, result: Option<V>, spare: AllocId): State<V>
    requires s.slots.Valid() && t in s.phases && s.phases[t].Editing? && Task(t) in s.slots.holds
  {
    if result.Some? && s.slots.holds[Committed] == s.slots.holds[Task(t)]
    then To(s, t, Leaving).(
           slots := s.slots.Replaced(result.value, spare).Without(Task(t)),
           log := s.log + [Modified(t, s.phases[t].local, result.value)])
    else To(s, t, Leaving).(slots := s.slots.Without(Task(t)))
  }

  ghost function Cancelled<V>(s: State<V>, t: nat): State<V>
    requires t in s.phases
  {
    if s.phases[t].Woken? then To(s, t, Notifying)
    else if s.phases[t].Editing? then To(s, t, Leaving).(slots := s.slots.Without(Task(t)))
    else s.(phases := s.phases - {t})
  }

  ghost function After<V(!new)>(s: State<V>, step: Step<V>): State<V>
    requires Inv(s) && Enabled(s, step)
  {
    match step
    case Enter(t) => To(s, t, FastTry)
    case TryFast(t) => Tried(s, t, Yielded)
    case Resume(t) => To(s, t, Trying)
    case TrySlow(t) => Tried(s, t, Parking)
    case Poll(t) => if s.token then To(s, t, Retrying).(token := false) else To(s, t, Parked)
    case Wake(t) => To(s, t, Retrying)
    case Snapshot(t) =>
      To(s, t, Editing(s.slots.ValueOf(Committed), |s.log|)).(slots := s.slots.Sharing(Committed, Task(t)))
    case Finish(t, result, spare) => Finished(s, t, result, spare)
    case Release(t) => To(s, t, Notifying).(modifying := false)
    case NotifyOne(t, chosen) =>
      var left := s.(phases := s.phases - {t});
      if chosen.Some? then To(left, chosen.value, Woken) else left.(token := true)
    case Cancel(t) => Cancelled(s, t)
    case ReadData(r) => s.(slots := s.slots.Sharing(Committed, Reader(r)))
    case ReadLatest(r) =>
      s.(slots := s.slots.Sharing(if Drafted in s.slots.holds then Drafted else Committed, Reader(r)))
    case DropReader(r) => s.(slots := s.slots.Without(Reader(r)))
    case EditDraft(v, spare) => s.(slots := s.slots.Edited(v, spare))
    case ApplyDraft =>
      if Drafted in s.slots.holds
      then s.(slots := s.slots.Applied(), log := s.log + [AppliedDraft(s.slots.Latest())])
      else s
    case DiscardDraft => s.(slots := s.slots.Discarded())
  }

  /** At most one task has the permit, and the flag says whether one does. */
  ghost predicate Exclusive<V(!new)>(s: State<V>) {
    && (s.modifying <==> exists t :: t in s.phases && HasPermit(s.phases[t]))
    && (forall t, u :: t in s.phases && u in s.phases && HasPermit(s.phases[t]) && HasPermit(s.phases[u]) ==> t == u)
  }

  ghost predicate SomeMoves<V(!new)>(s: State<V>) { exists t :: t in s.phases && Moves(s.phases[t]) }

  ghost predicate SomeWaits<V(!new)>(s: State<V>) { exists t :: t in s.phases && Waits(s.phases[t]) }

  ghost predicate SomeParked<V(!new)>(s: State<V>) { exists t :: t in s.phases && s.phases[t].Parked? }

  /**
   * No wake-up is lost: a free permit and a waiting task leave a stored token, a woken task yet to retry, or a
   * releaser about to notify.
   */
  ghost predicate NoLostWakeup<V(!new)>(s: State<V>) {
    && (!s.modifying && SomeWaits(s) ==> s.token || SomeMoves(s))
    && (s.token ==> !SomeParked(s))
  }

  /**
   * Each running closure holds the allocation it started from and works on that allocation's value; the
   * committed slot still points there exactly when nothing was committed since.
   */
  ghost predicate Originals<V(!new)>(s: State<V>) {
    && (forall t :: Task(t) in s.slots.holds <==> t in s.phases && s.phases[t].Editing?)
    && (forall t :: t in s.phases && s.phases[t].Editing? ==> OriginalOf(s, t))
  }

  ghost predicate OriginalOf<V(!new)>(s: State<V>, t: nat)
    requires t in s.phases && s.phases[t].Editing?
  {
    && Task(t) in s.slots.holds
    && s.slots.holds[Task(t)] in s.slots.heap
    && s.slots.ValueOf(Task(t)) == s.phases[t].local
    && s.phases[t].since <= |s.log|
    && (forall i :: s.phases[t].since <= i < |s.log| ==> s.log[i].AppliedDraft?)
    && (Committed in s.slots.holds)
    && (s.slots.holds[Committed] == s.slots.holds[Task(t)] <==> s.phases[t].since == |s.log|)
  }

  /** The value committed by the last entry of the log. */
  ghost function LastOf<V>(initial: V, log: seq<Commit<V>>): V {
    if log == [] then initial else log[|log| - 1].output
  }

  /** Each modification started from what the entry before it committed. */
  ghost predicate Chained<V(!new)>(initial: V, log: seq<Commit<V>>) {
    forall i :: 0 <= i < |log| && log[i].Modified? ==> log[i].input == LastOf(initial, log[..i])
  }

  ghost predicate Inv<V(!new)>(s: State<V>) {
    && s.slots.Valid()
    && Exclusive(s)
    && NoLostWakeup(s)
    && Originals(s)
  }

  ghost predicate History<V(!new)>(initial: V, s: State<V>)
    requires Inv(s)
  {
    && Chained(initial, s.log)
    && s.slots.ValueOf(Committed) == LastOf(initial, s.log)
  }

  // ----- Each part of the invariant is kept by every step -----

  lemma StepKeepsSlots<V(!new)>(s: State<V>, step: Step<V>)
    requires Inv(s) && Enabled(s, step)
    ensures After(s, step).slots.Valid()
  {
    match step
    case Snapshot(t) => SharingKeepsValid(s.slots, Committed, Task(t));
    case Finish(t, result, spare) =>
      WithoutKeepsValid(s.slots, Task(t));
      if result.Some? {
        ReplacedKeepsValid(s.slots, result.value, spare);
        WithoutKeepsValid(s.slots.Replaced(result.value, spare), Task(t));
      }
    case Cancel(t) => WithoutKeepsValid(s.slots, Task(t));
    case ReadData(r) => SharingKeepsValid(s.slots, Committed, Reader(r));
    case ReadLatest(r) =>
      SharingKeepsValid(s.slots, if Drafted in s.slots.holds then Drafted else Committed, Reader(r));
    case DropReader(r) => WithoutKeepsValid(s.slots, Reader(r));
    case EditDraft(v, spare) => EditedKeepsValid(s.slots, v, spare);
    case ApplyDraft => AppliedKeepsValid(s.slots);
    case DiscardDraft => DiscardedKeepsValid(s.slots);
    case _ =>
  }

  ghost predicate HoldsPermit<V(!new)>(s: State<V>, t: nat) { t in s.phases && HasPermit(s.phases[t]) }

  /** A step of one task keeps exclusion if it takes the permit only while the flag is down. */
  lemma OneTaskKeepsExclusive<V(!new)>(s: State<V>, s': State<V>, t: nat)
    requires Exclusive(s)
    requires forall u :: u != t ==> (u in s'.phases <==> u in s.phases)
    requires forall u :: u != t && u in s.phases ==> s'.phases[u] == s.phases[u]
    requires HoldsPermit(s', t) ==> s'.modifying && (HoldsPermit(s, t) || !s.modifying)
    requires !HoldsPermit(s', t) ==> s'.modifying == (s.modifying && !HoldsPermit(s, t))
    ensures Exclusive(s')
  {
    if s.modifying {
      var h :| h in s.phases && HasPermit(s.phases[h]);
      assert h != t ==> h in s'.phases && HasPermit(s'.phases[h]);
    }
    assert HoldsPermit(s', t) ==> t in s'.phases && HasPermit(s'.phases[t]);
  }

  lemma NotifyKeepsExclusive<V(!new)>(s: State<V>, t: nat, chosen: Option<nat>)
    requires Inv(s) && Enabled(s, NotifyOne(t, chosen))
    ensures Exclusive(After(s, NotifyOne(t, chosen)))
  {
    var left := s.(phases := s.phases - {t});
    OneTaskKeepsExclusive(s, left, t);
    if chosen.Some? {
      OneTaskKeepsExclusive(left, To(left, chosen.value, Woken), chosen.value);
    }
  }

  ghost predicate Acquires<V(!new)>(step: Step<V>) {
    step.Enter? || step.TryFast? || step.Resume? || step.TrySlow? || step.Poll? || step.Wake?
  }

  lemma AcquireKeepsExclusive<V(!new)>(s: State<V>, step: Step<V>)
    requires Inv(s) && Enabled(s, step) && Acquires(step)
    ensures Exclusive(After(s, step))
  {
    OneTaskKeepsExclusive(s, After(s, step), step.t);
  }

  lemma ModifyKeepsExclusive<V(!new)>(s: State<V>, step: Step<V>)
    requires Inv(s) && Enabled(s, step) && (step.Snapshot? || step.Finish? || step.Release?)
    ensures Exclusive(After(s, step))
  {
    OneTaskKeepsExclusive(s, After(s, step), step.t);
  }

  lemma CancelKeepsExclusive<V(!new)>(s: State<V>, t: nat)
    requires Inv(s) && Enabled(s, Cancel(t))
    ensures Exclusive(After(s, Cancel(t)))
  {
    OneTaskKeepsExclusive(s, After(s, Cancel(t)), t);
  }

  lemma StepKeepsExclusive<V(!new)>(s: State<V>, step: Step<V>)
    requires Inv(s) && Enabled(s, step)
    ensures Exclusive(After(s, step))
  {
    if Acquires(step) { AcquireKeepsExclusive(s, step); }
    else if step.Snapshot? || step.Finish? || step.Release? { ModifyKeepsExclusive(s, step); }
    else if step.NotifyOne? { NotifyKeepsExclusive(s, step.t, step.chosen); }
    else if step.Cancel? { CancelKeepsExclusive(s, step.t); }
    else {
      var s' := After(s, step);
      assert s'.phases == s.phases && s'.modifying == s.modifying;
    }
  }

  /** A step of one task keeps the wake-ups if it never trades a moving task for a waiting one. */
  lemma OneTaskMoved<V(!new)>(s: State<V>, s': State<V>, t: nat)
    requires NoLostWakeup(s) && (s'.token ==> s.token)
    requires forall u :: u != t ==> (u in s'.phases <==> u in s.phases)
    requires forall u :: u != t && u in s.phases ==> s'.phases[u] == s.phases[u]
    requires t in s'.phases && s'.phases[t].Parked? ==> !s'.token
    requires !s'.modifying && !(t in s'.phases && Moves(s'.phases[t])) ==>
      && !s.modifying
      && (t in s'.phases && Waits(s'.phases[t]) ==> t in s.phases && Waits(s.phases[t]))
      && (t in s.phases ==> !Moves(s.phases[t]))
      && s.token == s'.token
    ensures NoLostWakeup(s')
  {
    if !s'.modifying && SomeWaits(s') && !(t in s'.phases && Moves(s'.phases[t])) {
      var w :| w in s'.phases && Waits(s'.phases[w]);
      assert w in s.phases && Waits(s.phases[w]);
      if !s.token {
        var m :| m in s.phases && Moves(s.phases[m]);
        assert m in s'.phases && Moves(s'.phases[m]);
      }
    }
    if SomeParked(s') {
      var w :| w in s'.phases && s'.phases[w].Parked?;
      assert w != t ==> w in s.phases && s.phases[w].Parked?;
    }
  }

  lemma NotifyKeepsWakeups<V(!new)>(s: State<V>, t: nat, chosen: Option<nat>)
    requires Inv(s) && Enabled(s, NotifyOne(t, chosen))
    ensures NoLostWakeup(After(s, NotifyOne(t, chosen)))
  {
    var s' := After(s, NotifyOne(t, chosen));
    if chosen.Some? {
      assert chosen.value in s'.phases && Moves(s'.phases[chosen.value]);
      assert s.phases[chosen.value].Parked? && SomeParked(s);
    }
  }

  lemma AcquireKeepsWakeups<V(!new)>(s: State<V>, step: Step<V>)
    requires Inv(s) && Enabled(s, step) && Acquires(step)
    ensures NoLostWakeup(After(s, step))
  {
    OneTaskMoved(s, After(s, step), step.t);
  }

  lemma ModifyKeepsWakeups<V(!new)>(s: State<V>, step: Step<V>)
    requires Inv(s) && Enabled(s, step) && (step.Snapshot? || step.Finish? || step.Release?)
    ensures NoLostWakeup(After(s, step))
  {
    OneTaskMoved(s, After(s, step), step.t);
  }

  lemma CancelKeepsWakeups<V(!new)>(s: State<V>, t: nat)
    requires Inv(s) && Enabled(s, Cancel(t))
    ensures NoLostWakeup(After(s, Cancel(t)))
  {
    OneTaskMoved(s, After(s, Cancel(t)), t);
  }

  lemma StepKeepsWakeups<V(!new)>(s: State<V>, step: Step<V>)
    requires Inv(s) && Enabled(s, step)
    ensures NoLostWakeup(After(s, step))
  {
    if Acquires(step) { AcquireKeepsWakeups(s, step); }
    else if step.Snapshot? || step.Finish? || step.Release? { ModifyKeepsWakeups(s, step); }
    else if step.NotifyOne? { NotifyKeepsWakeups(s, step.t, step.chosen); }
    else if step.Cancel? { CancelKeepsWakeups(s, step.t); }
    else {
      var s' := After(s, step);
      assert s'.phases == s.phases && s'.modifying == s.modifying && s'.token == s.token;
    }
  }

  lemma OriginalsSurvive<V(!new)>(s: State<V>, s': State<V>)
    requires Inv(s) && s'.slots.Valid()
    requires s'.phases == s.phases && s'.log == s.log
    requires forall t :: Task(t) in s'.slots.holds <==> Task(t) in s.slots.holds
    requires forall h :: h in s.slots.holds && (h.Committed? || h.Task?) ==> Keeps(s.slots, s'.slots, h)
    ensures Originals(s')
  {
    forall t | t in s'.phases && s'.phases[t].Editing? ensures OriginalOf(s', t) {
      assert OriginalOf(s, t);
      assert Keeps(s.slots, s'.slots, Task(t)) && Keeps(s.slots, s'.slots, Committed);
    }
  }

  lemma SnapshotKeepsOriginals<V(!new)>(s: State<V>, t: nat)
    requires Inv(s) && Enabled(s, Snapshot(t))
    ensures Originals(After(s, Snapshot(t)))
  {
    var s' := After(s, Snapshot(t));
    SharingKeepsValid(s.slots, Committed, Task(t));
    forall u | u in s.phases ensures !s.phases[u].Editing? {
      assert HasPermit(s.phases[t]);
    }
    assert OriginalOf(s', t);
  }

  /** The permit makes `t` the only task with an original, so nobody else's can go stale by this commit. */
  lemma LeavingKeepsOriginals<V(!new)>(s: State<V>, s': State<V>, t: nat)
    requires Inv(s) && t in s.phases && s.phases[t].Editing?
    requires s'.phases == s.phases[t := Leaving]
    requires s'.slots.holds.Keys == s.slots.holds.Keys - {Task(t)}
    ensures Originals(s')
  {
    forall u | u in s'.phases ensures !s'.phases[u].Editing? {
      assert HasPermit(s.phases[t]);
    }
  }

  lemma ApplyKeepsOriginals<V(!new)>(s: State<V>)
    requires Inv(s)
    ensures Originals(After(s, ApplyDraft))
  {
    var s' := After(s, ApplyDraft);
    AppliedKeepsValid(s.slots);
    forall t | t in s'.phases && s'.phases[t].Editing? ensures OriginalOf(s', t) {
      assert OriginalOf(s, t);
      assert Keeps(s.slots, s'.slots, Task(t));
    }
  }

  /** A step of a task that edits neither before nor after leaves the originals alone. */
  lemma OriginalsIgnore<V(!new)>(s: State<V>, s': State<V>, t: nat)
    requires Originals(s) && s'.slots == s.slots && s'.log == s.log
    requires forall u :: u != t ==> (u in s'.phases <==> u in s.phases)
    requires forall u :: u != t && u in s.phases ==> s'.phases[u] == s.phases[u]
    requires t in s.phases ==> !s.phases[t].Editing?
    requires t in s'.phases ==> !s'.phases[t].Editing?
    ensures Originals(s')
  {
    forall u | u in s'.phases && s'.phases[u].Editing? ensures OriginalOf(s', u) {
      assert OriginalOf(s, u);
    }
  }

  lemma ReadKeepsOriginals<V(!new)>(s: State<V>, step: Step<V>)
    requires Inv(s) && Enabled(s, step) && (step.ReadData? || step.ReadLatest?)
    ensures Originals(After(s, step))
  {
    var from := if step.ReadLatest? && Drafted in s.slots.holds then Drafted else Committed;
    SharingKeepsValid(s.slots, from, Reader(step.r));
    OriginalsSurvive(s, s.(slots := s.slots.Sharing(from, Reader(step.r))));
  }

  lemma EditKeepsOriginals<V(!new)>(s: State<V>, v: V, spare: AllocId)
    requires Inv(s) && Enabled(s, EditDraft(v, spare))
    ensures Originals(After(s, EditDraft(v, spare)))
  {
    EditedKeepsValid(s.slots, v, spare);
    OriginalsSurvive(s, s.(slots := s.slots.Edited(v, spare)));
  }

  lemma WithoutKeepsOriginals<V(!new)>(s: State<V>, gone: Holder)
    requires Inv(s) && (gone.Drafted? || gone.Reader?)
    ensures Originals(s.(slots := s.slots.Without(gone)))
  {
    var left := s.slots.Without(gone);
    WithoutKeepsValid(s.slots, gone);
    forall h | h in s.slots.holds && (h.Committed? || h.Task?) ensures Keeps(s.slots, left, h) {
    }
    OriginalsSurvive(s, s.(slots := left));
  }

  lemma SlotStepKeepsOriginals<V(!new)>(s: State<V>, step: Step<V>)
    requires Inv(s) && Enabled(s, step)
    requires step.ReadData? || step.ReadLatest? || step.DropReader? || step.EditDraft? || step.DiscardDraft?
    ensures Originals(After(s, step))
  {
    if step.EditDraft? { EditKeepsOriginals(s, step.v, step.spare); }
    else if step.DropReader? { WithoutKeepsOriginals(s, Reader(step.r)); }
    else if step.DiscardDraft? { WithoutKeepsOriginals(s, Drafted); }
    else { ReadKeepsOriginals(s, step); }
  }

  lemma FinishKeepsOriginals<V(!new)>(s: State<V>, t: nat, result: Option<V>, spare: AllocId)
    requires Inv(s) && Enabled(s, Finish(t, result, spare))
    ensures Originals(After(s, Finish(t, result, spare)))
  {
    assert OriginalOf(s, t);
    if result.Some? { ReplacedKeepsValid(s.slots, result.value, spare); }
    LeavingKeepsOriginals(s, After(s, Finish(t, result, spare)), t);
  }

  lemma CancelKeepsOriginals<V(!new)>(s: State<V>, t: nat)
    requires Inv(s) && Enabled(s, Cancel(t))
    ensures Originals(After(s, Cancel(t)))
  {
    if s.phases[t].Editing? {
      LeavingKeepsOriginals(s, After(s, Cancel(t)), t);
    } else {
      OriginalsIgnore(s, After(s, Cancel(t)), t);
    }
  }

  lemma NotifyKeepsOriginals<V(!new)>(s: State<V>, t: nat, chosen: Option<nat>)
    requires Inv(s) && Enabled(s, NotifyOne(t, chosen))
    ensures Originals(After(s, NotifyOne(t, chosen)))
  {
    var left := s.(phases := s.phases - {t});
    OriginalsIgnore(s, left, t);
    if chosen.Some? {
      OriginalsIgnore(left, After(s, NotifyOne(t, chosen)), chosen.value);
    }
  }

  lemma StepKeepsOriginals<V(!new)>(s: State<V>, step: Step<V>)
    requires Inv(s) && Enabled(s, step)
    ensures Originals(After(s, step))
  {
    match step
    case Snapshot(t) => SnapshotKeepsOriginals(s, t);
    case Finish(t, result, spare) => FinishKeepsOriginals(s, t, result, spare);
    case Cancel(t) => CancelKeepsOriginals(s, t);
    case NotifyOne(t, chosen) => NotifyKeepsOriginals(s, t, chosen);
    case ApplyDraft => ApplyKeepsOriginals(s);
    case Enter(t) => OriginalsIgnore(s, After(s, step), t);
    case TryFast(t) => OriginalsIgnore(s, After(s, step), t);
    case Resume(t) => OriginalsIgnore(s, After(s, step), t);
    case TrySlow(t) => OriginalsIgnore(s, After(s, step), t);
    case Poll(t) => OriginalsIgnore(s, After(s, step), t);
    case Wake(t) => OriginalsIgnore(s, After(s, step), t);
    case Release(t) => OriginalsIgnore(s, After(s, step), t);
    case _ => SlotStepKeepsOriginals(s, step);
  }

  lemma StepKeepsInv<V(!new)>(s: State<V>, step: Step<V>)
    requires Inv(s) && Enabled(s, step)
    ensures Inv(After(s, step))
  {
    StepKeepsSlots(s, step);
    StepKeepsExclusive(s, step);
    StepKeepsWakeups(s, step);
    StepKeepsOriginals(s, step);
  }

  // ----- What a single step promises -----

  /** The committed slot keeps allocation and value, or gets another allocation and the log another entry. */
  ghost predicate CommittedAside<V(!new)>(s: State<V>, s': State<V>)
    requires Committed in s.slots.holds
  {
    && Committed in s'.slots.holds
    && (Keeps(s.slots, s'.slots, Committed) ||
        (s'.slots.holds[Committed] != s.slots.holds[Committed] && s'.log != s.log))
  }

  lemma FinishKeepsCommitted<V(!new)>(s: State<V>, t: nat, result: Option<V>, spare: AllocId)
    requires Inv(s) && Enabled(s, Finish(t, result, spare))
    ensures CommittedAside(s, After(s, Finish(t, result, spare)))
  {
    WithoutKeepsValid(s.slots, Task(t));
    assert Keeps(s.slots, s.slots.Without(Task(t)), Committed);
    if result.Some? {
      var m := s.slots.Replaced(result.value, spare);
      ReplacedKeepsValid(s.slots, result.value, spare);
      WithoutKeepsValid(m, Task(t));
      assert Keeps(m, m.Without(Task(t)), Committed);
    }
  }

  lemma ApplyKeepsCommitted<V(!new)>(s: State<V>)
    requires Inv(s)
    ensures CommittedAside(s, After(s, ApplyDraft))
  {
    AppliedKeepsValid(s.slots);
  }

  lemma TaskKeepsCommitted<V(!new)>(s: State<V>, step: Step<V>)
    requires Inv(s) && Enabled(s, step) && (step.Snapshot? || step.Cancel?)
    ensures Keeps(s.slots, After(s, step).slots, Committed)
  {
    if step.Snapshot? {
      SharingKeepsValid(s.slots, Committed, Task(step.t));
    } else {
      CancelDropsOriginal(s, step.t);
      WithoutKeepsValid(s.slots, Task(step.t));
      assert Keeps(s.slots, s.slots.Without(Task(step.t)), Committed);
    }
  }

  lemma SlotStepKeepsCommitted<V(!new)>(s: State<V>, step: Step<V>)
    requires Inv(s) && Enabled(s, step)
    requires step.ReadData? || step.ReadLatest? || step.DropReader? || step.EditDraft? || step.DiscardDraft?
    ensures Keeps(s.slots, After(s, step).slots, Committed)
  {
    match step
    case EditDraft(v, spare) => EditedKeepsValid(s.slots, v, spare);
    case DropReader(r) => WithoutKeepsValid(s.slots, Reader(r));
    case DiscardDraft => DiscardedKeepsValid(s.slots);
    case _ => ReadKeepsCommitted(s, step);
  }

  lemma ReadKeepsCommitted<V(!new)>(s: State<V>, step: Step<V>)
    requires Inv(s) && Enabled(s, step) && (step.ReadData? || step.ReadLatest?)
    ensures Keeps(s.slots, After(s, step).slots, Committed)
  {
    var from := if step.ReadLatest? && Drafted in s.slots.holds then Drafted else Committed;
    SharingKeepsValid(s.slots, from, Reader(step.r));
  }

  /** No step but the commits changes what the committed slot reads, and none overwrites it in place. */
  lemma CommittedIsNeverMutated<V(!new)>(s: State<V>, step: Step<V>)
    requires Inv(s) && Enabled(s, step)
    ensures After(s, step).slots.Valid()
    ensures After(s, step).slots.holds[Committed] == s.slots.holds[Committed] ==>
      After(s, step).slots.ValueOf(Committed) == s.slots.ValueOf(Committed)
    ensures After(s, step).log == s.log ==> Keeps(s.slots, After(s, step).slots, Committed)
  {
    StepKeepsSlots(s, step);
    if OnlyMoves(step) { OnlyMovesKeepsSlots(s, step); }
    else if step.Finish? { FinishKeepsCommitted(s, step.t, step.result, step.spare); }
    else if step.ApplyDraft? { ApplyKeepsCommitted(s); }
    else if step.Snapshot? || step.Cancel? { TaskKeepsCommitted(s, step); }
    else { SlotStepKeepsCommitted(s, step); }
  }

  lemma SnapshotSurvivesFinish<V(!new)>(s: State<V>, t: nat, result: Option<V>, spare: AllocId, r: nat)
    requires Inv(s) && Enabled(s, Finish(t, result, spare)) && Reader(r) in s.slots.holds
    ensures Keeps(s.slots, After(s, Finish(t, result, spare)).slots, Reader(r))
  {
    WithoutKeepsValid(s.slots, Task(t));
    assert Keeps(s.slots, s.slots.Without(Task(t)), Reader(r));
    if result.Some? {
      var m := s.slots.Replaced(result.value, spare);
      ReplacedKeepsValid(s.slots, result.value, spare);
      assert Keeps(s.slots, m, Reader(r));
      WithoutKeepsValid(m, Task(t));
      assert Keeps(m, m.Without(Task(t)), Reader(r));
    }
  }

  lemma SnapshotSurvivesSlotStep<V(!new)>(s: State<V>, step: Step<V>, r: nat)
    requires Inv(s) && Enabled(s, step) && Reader(r) in s.slots.holds && step != DropReader(r)
    requires step.ReadData? || step.ReadLatest? || step.DropReader? || step.EditDraft? || step.ApplyDraft? ||
        step.DiscardDraft?
    ensures Keeps(s.slots, After(s, step).slots, Reader(r))
  {
    match step
    case ReadData(q) => SharingKeepsValid(s.slots, Committed, Reader(q));
    case ReadLatest(q) =>
      SharingKeepsValid(s.slots, if Drafted in s.slots.holds then Drafted else Committed, Reader(q));
    case DropReader(q) => WithoutKeepsValid(s.slots, Reader(q));
    case EditDraft(v, spare) => EditedKeepsValid(s.slots, v, spare);
    case ApplyDraft => AppliedKeepsValid(s.slots);
    case DiscardDraft => DiscardedKeepsValid(s.slots);
  }

  /** The steps that only move a task on. */
  ghost predicate OnlyMoves<V(!new)>(step: Step<V>) { Acquires(step) || step.Release? || step.NotifyOne? }

  lemma OnlyMovesKeepsSlots<V(!new)>(s: State<V>, step: Step<V>)
    requires Inv(s) && Enabled(s, step) && OnlyMoves(step)
    ensures After(s, step).slots == s.slots && After(s, step).log == s.log
  {
  }

  lemma CancelDropsOriginal<V(!new)>(s: State<V>, t: nat)
    requires Inv(s) && Enabled(s, Cancel(t))
    ensures After(s, Cancel(t)).slots == if s.phases[t].Editing? then s.slots.Without(Task(t)) else s.slots
  {
  }

  lemma SnapshotSurvivesCancel<V(!new)>(s: State<V>, t: nat, r: nat)
    requires Inv(s) && Enabled(s, Cancel(t)) && Reader(r) in s.slots.holds
    ensures Keeps(s.slots, After(s, Cancel(t)).slots, Reader(r))
  {
    CancelDropsOriginal(s, t);
    if s.phases[t].Editing? {
      WithoutKeepsValid(s.slots, Task(t));
      assert Keeps(s.slots, s.slots.Without(Task(t)), Reader(r));
    }
  }

  lemma SnapshotSurvivesSnapshot<V(!new)>(s: State<V>, t: nat, r: nat)
    requires Inv(s) && Enabled(s, Snapshot(t)) && Reader(r) in s.slots.holds
    ensures Keeps(s.slots, After(s, Snapshot(t)).slots, Reader(r))
  {
    SharingKeepsValid(s.slots, Committed, Task(t));
  }

  /** A caller's snapshot reads the same value after any step but its own drop. */
  lemma SnapshotSurvivesStep<V(!new)>(s: State<V>, step: Step<V>, r: nat)
    requires Inv(s) && Enabled(s, step) && Reader(r) in s.slots.holds && step != DropReader(r)
    ensures Keeps(s.slots, After(s, step).slots, Reader(r))
  {
    if OnlyMoves(step) { OnlyMovesKeepsSlots(s, step); }
    else if step.Snapshot? { SnapshotSurvivesSnapshot(s, step.t, r); }
    else if step.Finish? { SnapshotSurvivesFinish(s, step.t, step.result, step.spare, r); }
    else if step.Cancel? { SnapshotSurvivesCancel(s, step.t, r); }
    else { SnapshotSurvivesSlotStep(s, step, r); }
  }

  /**
   * The outcome of `with_data_modify`: with a closure that succeeded it commits if and only if no draft
   * was applied since it read, it then replaces exactly the value it read, and otherwise nothing changes.
   */
  lemma FinishOutcome<V(!new)>(s: State<V>, t: nat, result: Option<V>, spare: AllocId)
    requires Inv(s) && Enabled(s, Finish(t, result, spare))
    ensures var s' := After(s, Finish(t, result, spare));
            var ok := result.Some? && forall i :: s.phases[t].since <= i < |s.log| ==> !s.log[i].AppliedDraft?;
            && s'.slots.Valid()
            && (ok ==> s.phases[t].local == s.slots.ValueOf(Committed)
                       && s'.slots.ValueOf(Committed) == result.value
                       && s'.log == s.log + [Modified(t, s.slots.ValueOf(Committed), result.value)])
            && (!ok ==> s'.log == s.log && s'.slots.Latest() == s.slots.Latest()
                        && Keeps(s.slots, s'.slots, Committed))
            && (Drafted in s'.slots.holds <==> Drafted in s.slots.holds)
            && (Drafted in s.slots.holds ==> Keeps(s.slots, s'.slots, Drafted))
  {
    assert OriginalOf(s, t);
    var since := s.phases[t].since;
    assert since < |s.log| ==> s.log[since].AppliedDraft?;
    StepKeepsSlots(s, Finish(t, result, spare));
    WithoutKeepsValid(s.slots, Task(t));
    assert Keeps(s.slots, s.slots.Without(Task(t)), Committed);
    assert Drafted in s.slots.holds ==> Keeps(s.slots, s.slots.Without(Task(t)), Drafted);
    if result.Some? {
      var m := s.slots.Replaced(result.value, spare);
      ReplacedKeepsValid(s.slots, result.value, spare);
      WithoutKeepsValid(m, Task(t));
      assert Keeps(m, m.Without(Task(t)), Committed);
      assert Drafted in s.slots.holds ==> Keeps(s.slots, m, Drafted) && Keeps(m, m.Without(Task(t)), Drafted);
    }
  }

  /**
   * How a task comes by the permit: a try takes it exactly when nobody has it; a poll parks exactly when no
   * token is stored, and uses a stored one up; notifying wakes one parked task, or stores a token if none is.
   */
  lemma PermitIsPassedOn<V(!new)>(s: State<V>, step: Step<V>)
    requires Inv(s) && Enabled(s, step)
    ensures var s' := After(s, step);
            && (step.TryFast? || step.TrySlow? ==> (HoldsPermit(s', step.t) <==> forall u :: !HoldsPermit(s, u)))
            && (step.Poll? ==> (In(s', step.t, Parked) <==> !s.token) && !s'.token)
            && (step.Release? ==> forall u :: !HoldsPermit(s', u))
            && (step.NotifyOne? && SomeParked(s) ==>
                  exists u :: In(s, u, Parked) && s'.phases == (s.phases - {step.t})[u := Woken])
            && (step.NotifyOne? && !SomeParked(s) ==> s'.token && s'.phases == s.phases - {step.t})
  {
    if s.modifying {
      var u :| u in s.phases && HasPermit(s.phases[u]);
      assert HoldsPermit(s, u);
    }
    if step.NotifyOne? && step.chosen.Some? {
      assert In(s, step.chosen.value, Parked);
    }
  }

  /**
   * What the other operations come to: readers get the committed or the latest value, an edit is the latest
   * value, an applied draft is committed, and an applied or discarded draft is gone.
   */
  lemma OperationShows<V(!new)>(s: State<V>, step: Step<V>)
    requires Inv(s) && Enabled(s, step)
    ensures var t := After(s, step).slots;
            var was := s.slots.heap[s.slots.holds[Committed]];
            var latest := if Drafted in s.slots.holds then s.slots.heap[s.slots.holds[Drafted]] else was;
            && t.Valid()
            && (step.ReadData? ==> Reader(step.r) in t.holds && t.ValueOf(Reader(step.r)) == was)
            && (step.ReadLatest? ==> Reader(step.r) in t.holds && t.ValueOf(Reader(step.r)) == latest)
            && (step.EditDraft? ==> Drafted in t.holds && t.ValueOf(Drafted) == step.v)
            && (step.ApplyDraft? ==> Drafted !in t.holds && t.ValueOf(Committed) == latest)
            && (step.DiscardDraft? ==> Drafted !in t.holds && t.ValueOf(Committed) == was)
            && (step.DropReader? ==> Reader(step.r) !in t.holds)
  {
    StepKeepsSlots(s, step);
    match step
    case ReadData(r) => SharingKeepsValid(s.slots, Committed, Reader(r));
    case ReadLatest(r) =>
      SharingKeepsValid(s.slots, if Drafted in s.slots.holds then Drafted else Committed, Reader(r));
    case DropReader(r) => WithoutKeepsValid(s.slots, Reader(r));
    case EditDraft(v, spare) => EditedKeepsValid(s.slots, v, spare);
    case ApplyDraft => AppliedKeepsValid(s.slots);
    case DiscardDraft =>
      DiscardedKeepsValid(s.slots);
      assert Keeps(s.slots, s.slots.Discarded(), Committed);
    case _ =>
  }

  lemma ChainExtends<V(!new)>(initial: V, log: seq<Commit<V>>, last: Commit<V>)
    requires Chained(initial, log) && (last.Modified? ==> last.input == LastOf(initial, log))
    ensures Chained(initial, log + [last])
  {
    forall i | 0 <= i < |log + [last]| && (log + [last])[i].Modified?
      ensures (log + [last])[i].input == LastOf(initial, (log + [last])[..i])
    {
      assert (log + [last])[..i] == log[..i];
      assert log[..|log|] == log;
    }
  }

  lemma FinishKeepsHistory<V(!new)>(initial: V, s: State<V>, t: nat, result: Option<V>, spare: AllocId)
    requires Inv(s) && History(initial, s) && Enabled(s, Finish(t, result, spare))
    ensures Inv(After(s, Finish(t, result, spare))) && History(initial, After(s, Finish(t, result, spare)))
  {
    StepKeepsInv(s, Finish(t, result, spare));
    FinishOutcome(s, t, result, spare);
    if After(s, Finish(t, result, spare)).log != s.log {
      ChainExtends(initial, s.log, Modified(t, s.slots.ValueOf(Committed), result.value));
    }
  }

  lemma ApplyKeepsHistory<V(!new)>(initial: V, s: State<V>)
    requires Inv(s) && History(initial, s)
    ensures Inv(After(s, ApplyDraft)) && History(initial, After(s, ApplyDraft))
  {
    StepKeepsInv(s, ApplyDraft);
    AppliedKeepsValid(s.slots);
    ChainExtends(initial, s.log, AppliedDraft(s.slots.Latest()));
  }

  lemma OthersKeepLog<V(!new)>(s: State<V>, step: Step<V>)
    requires Inv(s) && Enabled(s, step) && !step.Finish? && !step.ApplyDraft?
    ensures After(s, step).log == s.log
  {
  }

  lemma StepKeepsHistory<V(!new)>(initial: V, s: State<V>, step: Step<V>)
    requires Inv(s) && History(initial, s) && Enabled(s, step)
    ensures Inv(After(s, step)) && History(initial, After(s, step))
  {
    if step.Finish? { FinishKeepsHistory(initial, s, step.t, step.result, step.spare); }
    else if step.ApplyDraft? { ApplyKeepsHistory(initial, s); }
    else {
      StepKeepsInv(s, step);
      OthersKeepLog(s, step);
      CommittedIsNeverMutated(s, step);
    }
  }

  // ----- Whole runs -----

  ghost function Init<V>(initial: V, id: AllocId): State<V> {
    State(Slots(map[id := initial], map[Committed := id]), map[], false, false, [])
  }

  ghost predicate Legal<V(!new)>(s: State<V>, steps: seq<Step<V>>)
    requires Inv(s)
    decreases |steps|
  {
    steps == [] || (Enabled(s, steps[0]) && (StepKeepsInv(s, steps[0]); Legal(After(s, steps[0]), steps[1..])))
  }

  ghost function Final<V(!new)>(s: State<V>, steps: seq<Step<V>>): State<V>
    requires Inv(s) && Legal(s, steps)
    decreases |steps|
  {
    if steps == [] then s else
      StepKeepsInv(s, steps[0]);
      Final(After(s, steps[0]), steps[1..])
  }

  lemma InitIsInv<V(!new)>(initial: V, id: AllocId)
    ensures Inv(Init(initial, id)) && History(initial, Init(initial, id))
  {
    assert Init(initial, id).slots.holds[Committed] == id;
  }

  lemma {:induction false} RunKeepsHistory<V(!new)>(initial: V, s: State<V>, steps: seq<Step<V>>)
    requires Inv(s) && History(initial, s) && Legal(s, steps)
    ensures Inv(Final(s, steps)) && History(initial, Final(s, steps))
    decreases |steps|
  {
    if steps != [] {
      StepKeepsHistory(initial, s, steps[0]);
      RunKeepsHistory(initial, After(s, steps[0]), steps[1..]);
    }
  }

  /**
   * In every reachable state: one permit holder at most; a free permit with a waiting task leaves a stored
   * token, a woken task yet to retry, or a releaser about to notify; every successful modification in the log
   * started from the commit before it; and the committed slot shows the last commit.
   */
  lemma EveryRun<V(!new)>(initial: V, id: AllocId, steps: seq<Step<V>>)
    requires (InitIsInv(initial, id); Legal(Init(initial, id), steps))
    ensures (InitIsInv(initial, id);
             var s := Final(Init(initial, id), steps);
             && (forall t, u :: HoldsPermit(s, t) && HoldsPermit(s, u) ==> t == u)
             && (!s.modifying && SomeWaits(s) ==> s.token || SomeMoves(s))
             && Chained(initial, s.log)
             && s.slots.Valid()
             && s.slots.ValueOf(Committed) == LastOf(initial, s.log)
             && (Drafted in s.slots.holds ==> s.slots.holds[Drafted] != s.slots.holds[Committed]))
  {
    InitIsInv(initial, id);
    RunKeepsHistory(initial, Init(initial, id), steps);
  }

  /** No deadlock: when every task inside the call is parked, there is no task inside the call. */
  lemma NobodyParksForever<V(!new)>(s: State<V>)
    requires Inv(s)
    requires forall t :: t in s.phases ==> s.phases[t].Parked?
    ensures s.phases == map[]
  {
    if t :| t in s.phases {
      assert Waits(s.phases[t]) && SomeParked(s);
      assert false;
    }
  }

  /** A snapshot keeps its value through any run in which its holder does not drop it. */
  lemma {:induction false} SnapshotSurvivesRun<V(!new)>(s: State<V>, steps: seq<Step<V>>, r: nat)
    requires Inv(s) && Legal(s, steps) && Reader(r) in s.slots.holds && DropReader(r) !in steps
    ensures Keeps(s.slots, Final(s, steps).slots, Reader(r))
    decreases |steps|
  {
    if steps != [] {
      StepKeepsInv(s, steps[0]);
      SnapshotSurvivesStep(s, steps[0], r);
      SnapshotSurvivesRun(After(s, steps[0]), steps[1..], r);
    }
  }

  /** How many of its own steps a call has left when it finds the permit free. */
  ghost function Ahead<V>(p: Phase<V>): nat {
    match p
    case Parked => 7
    case Yielded => 6
    case Woken => 6
    case Parking => 6
    case FastTry => 5
    case Trying => 5
    case Retrying => 5
    case Permitted => 4
    case Editing(_, _) => 3
    case Leaving => 2
    case Notifying => 1
  }

  ghost function LeftToDo<V>(s: State<V>, t: nat): nat { if t in s.phases then Ahead(s.phases[t]) else 0 }

  /** No call stands still: each step of a task that finds the permit free, or a token, takes it one step on. */
  lemma CallsMoveOn<V(!new)>(s: State<V>, step: Step<V>)
    requires Inv(s) && Enabled(s, step)
    requires Acquires(step) || step.Snapshot? || step.Finish? || step.Release? || step.NotifyOne?
    requires (step.TryFast? || step.TrySlow? ==> !s.modifying) && (step.Poll? ==> s.token)
    ensures LeftToDo(After(s, step), step.t) == (if step.Enter? then 6 else LeftToDo(s, step.t)) - 1
  {
    if Acquires(step) {
      AcquireMovesOn(s, step);
    } else {
      assert if step.NotifyOne? then step.t !in After(s, step).phases else step.t in After(s, step).phases;
    }
  }

  lemma AcquireMovesOn<V(!new)>(s: State<V>, step: Step<V>)
    requires Inv(s) && Enabled(s, step) && Acquires(step)
    requires (step.TryFast? || step.TrySlow? ==> !s.modifying) && (step.Poll? ==> s.token)
    ensures LeftToDo(After(s, step), step.t) == (if step.Enter? then 6 else LeftToDo(s, step.t)) - 1
  {
  }

  // Concurrent increments

  /** The step ends a closure that succeeded. */
  ghost predicate Succeeds<V(!new)>(step: Step<V>) { step.Finish? && step.result.Some? }

  ghost function Successes<V(!new)>(steps: seq<Step<V>>): nat {
    if steps == [] then 0 else (if Succeeds(steps[0]) then 1 else 0) + Successes(steps[1..])
  }

  /** Every closure that succeeds in the run adds one to the value it was given, and no draft is applied. */
  ghost predicate Incrementing(s: State<int>, steps: seq<Step<int>>)
    requires Inv(s) && Legal(s, steps)
    decreases |steps|
  {
    steps == [] ||
    (&& !steps[0].ApplyDraft?
     && (Succeeds(steps[0]) ==> steps[0].result.value == s.phases[steps[0].t].local + 1)
     && (StepKeepsInv(s, steps[0]); Incrementing(After(s, steps[0]), steps[1..])))
  }

  ghost predicate NoneApplied<V(!new)>(s: State<V>) { forall i :: 0 <= i < |s.log| ==> !s.log[i].AppliedDraft? }

  lemma IncrementStep(s: State<int>, step: Step<int>)
    requires Inv(s) && Enabled(s, step) && NoneApplied(s) && !step.ApplyDraft?
    requires Succeeds(step) ==> step.result.value == s.phases[step.t].local + 1
    ensures Inv(After(s, step)) && NoneApplied(After(s, step))
    ensures After(s, step).slots.ValueOf(Committed) == s.slots.ValueOf(Committed) + if Succeeds(step) then 1 else 0
  {
    StepKeepsInv(s, step);
    if step.Finish? {
      FinishOutcome(s, step.t, step.result, step.spare);
    } else {
      OthersKeepLog(s, step);
      CommittedIsNeverMutated(s, step);
    }
  }

  lemma {:induction false} IncrementsFrom(s: State<int>, steps: seq<Step<int>>)
    requires Inv(s) && Legal(s, steps) && NoneApplied(s) && Incrementing(s, steps)
    ensures Inv(Final(s, steps))
    ensures Final(s, steps).slots.ValueOf(Committed) == s.slots.ValueOf(Committed) + Successes(steps)
    decreases |steps|
  {
    if steps != [] {
      IncrementStep(s, steps[0]);
      IncrementsFrom(After(s, steps[0]), steps[1..]);
    }
  }

  /**
   * Concurrent increments are all counted: after any run of them, with drafts edited and discarded but not
   * applied, the committed value is the initial one plus the number of closures that succeeded.
   */
  lemma IncrementsAreNotLost(initial: int, id: AllocId, steps: seq<Step<int>>)
    requires (InitIsInv(initial, id); Legal(Init(initial, id), steps) && Incrementing(Init(initial, id), steps))
    ensures (InitIsInv(initial, id);
             Inv(Final(Init(initial, id), steps))
             && Final(Init(initial, id), steps).slots.ValueOf(Committed) == initial + Successes(steps))
  {
    InitIsInv(initial, id);
    IncrementsFrom(Init(initial, id), steps);
  }
}

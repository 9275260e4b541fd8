/**
 * Restoring recorded selections in the background: each activation task joins its predecessor and checks
 * a generation counter before every select, so that an overtaken restore stops.
 *
 * The counter is unbounded here; in the source it is 64 bits wide.
 */
module SelectionActivation {
  import opened Options

  datatype Phase =
    | Joining        // awaiting the predecessor's handle
    | Running        // past the join, before the next generation check
    | Cleared        // that check has passed, the select is about to be issued
    | Finished

  /** Tasks are numbered in the order in which they are spawned. */
  datatype Task = Task(generation: nat, predecessor: Option<nat>, phase: Phase)

  /** `active` is the handle kept in ACTIVATE_SELECTED_TASK; `issued` lists the task of each select sent. */
  datatype State = State(generation: nat, active: Option<nat>, tasks: seq<Task>, issued: seq<nat>)

  datatype Step =
    | Activate                    // activate_selected_nodes_with, under the lock of the handle
    | Supersede                   // supersede_selected_activation
    | Join(t: nat)
    | Check(t: nat)
    | Issue(t: nat)
    | Skip(t: nat)                // the check guarded something other than a select
    | Exit(t: nat)                // the end of the task, early or not

  predicate At(s: State, t: nat, phase: Phase) { t < |s.tasks| && s.tasks[t].phase == phase }

  predicate Enabled(s: State, step: Step) {
    match step
    case Activate => true
    case Supersede => true
    case Join(t) => At(s, t, Joining) &&
      (s.tasks[t].predecessor.Some? ==> At(s, s.tasks[t].predecessor.value, Finished))
    case Check(t) => At(s, t, Running)
    case Issue(t) => At(s, t, Cleared)
    case Skip(t) => At(s, t, Cleared)
    case Exit(t) => At(s, t, Running) || At(s, t, Cleared)
  }

  function To(s: State, t: nat, phase: Phase): State
    requires t < |s.tasks|
  {
    s.(tasks := s.tasks[t := s.tasks[t].(phase := phase)])
  }

  function After(s: State, step: Step): State
    requires Enabled(s, step)
  {
    match step
    case Activate =>
      State(s.generation + 1, Some(|s.tasks|), s.tasks + [Task(s.generation + 1, s.active, Joining)], s.issued)
    case Supersede => s.(generation := s.generation + 1)
    case Join(t) => To(s, t, Running)
    case Check(t) => To(s, t, if s.tasks[t].generation == s.generation then Cleared else Finished)
    case Issue(t) => To(s, t, Running).(issued := s.issued + [t])
    case Skip(t) => To(s, t, Running)
    case Exit(t) => To(s, t, Finished)
  }

  predicate PastJoin(task: Task) { !task.phase.Joining? }

  ghost predicate Inv(s: State) {
    // Every task but the first waits for the one before it; the slot keeps the youngest.
    && (s.active == if |s.tasks| == 0 then None else Some(|s.tasks| - 1))
    && (forall i :: 0 <= i < |s.tasks| ==> s.tasks[i].predecessor == if i == 0 then None else Some(i - 1))
    // A task past its join has only finished tasks before it.
    && (forall i, j :: 0 <= i < j < |s.tasks| && PastJoin(s.tasks[j]) ==> s.tasks[i].phase.Finished?)
    // Younger tasks have newer generations.
    && (forall i, j :: 0 <= i < j < |s.tasks| ==> s.tasks[i].generation < s.tasks[j].generation)
    && (forall i :: 0 <= i < |s.tasks| ==> s.tasks[i].generation <= s.generation)
    // Selects were sent by tasks past their join, older tasks first.
    && (forall k :: 0 <= k < |s.issued| ==> s.issued[k] < |s.tasks| && PastJoin(s.tasks[s.issued[k]]))
    && (forall k, m :: 0 <= k < m < |s.issued| ==> s.issued[k] <= s.issued[m])
  }

  /** A step of one task keeps the invariant if it moves past the join, or past its end, only when it may. */
  lemma PhaseChangeKeepsInv(s: State, t: nat, phase: Phase)
    requires Inv(s) && t < |s.tasks| && !s.tasks[t].phase.Finished? && !phase.Joining?
    requires s.tasks[t].phase.Joining? && t > 0 ==> s.tasks[t - 1].phase.Finished?
    ensures Inv(To(s, t, phase))
  {
    var s' := To(s, t, phase);
    forall i | 0 <= i < t ensures s.tasks[i].phase.Finished? {
      assert PastJoin(s.tasks[if s.tasks[t].phase.Joining? then t - 1 else t]);
    }
    forall i, j | 0 <= i < j < |s'.tasks| && PastJoin(s'.tasks[j]) ensures s'.tasks[i].phase.Finished? {
      if j != t { assert PastJoin(s.tasks[j]) && s.tasks[i].phase.Finished?; }
    }
    forall i, j | 0 <= i < j < |s'.tasks| ensures s'.tasks[i].generation < s'.tasks[j].generation {
      assert s.tasks[i].generation < s.tasks[j].generation;
    }
  }

  lemma IssueKeepsInv(s: State, t: nat)
    requires Inv(s) && Enabled(s, Issue(t))
    ensures Inv(After(s, Issue(t)))
  {
    PhaseChangeKeepsInv(s, t, Running);
    forall k | 0 <= k < |s.issued| ensures s.issued[k] <= t {
      assert PastJoin(s.tasks[s.issued[k]]) && PastJoin(s.tasks[t]);
    }
  }

  lemma StepKeepsInv(s: State, step: Step)
    requires Inv(s) && Enabled(s, step)
    ensures Inv(After(s, step))
  {
    match step
    case Activate =>
    case Supersede =>
    case Join(t) => PhaseChangeKeepsInv(s, t, Running);
    case Check(t) => PhaseChangeKeepsInv(s, t, After(s, step).tasks[t].phase);
    case Issue(t) => IssueKeepsInv(s, t);
    case Skip(t) => PhaseChangeKeepsInv(s, t, Running);
    case Exit(t) => PhaseChangeKeepsInv(s, t, Finished);
  }

  ghost predicate Legal(s: State, steps: seq<Step>)
    decreases |steps|
  {
    steps == [] || (Enabled(s, steps[0]) && Legal(After(s, steps[0]), steps[1..]))
  }

  ghost function Final(s: State, steps: seq<Step>): State
    requires Legal(s, steps)
    decreases |steps|
  {
    if steps == [] then s else Final(After(s, steps[0]), steps[1..])
  }

  const INIT := State(0, None, [], [])

  lemma {:induction false} RunKeepsInv(s: State, steps: seq<Step>)
    requires Inv(s) && Legal(s, steps)
    ensures Inv(Final(s, steps))
    decreases |steps|
  {
    if steps != [] {
      StepKeepsInv(s, steps[0]);
      RunKeepsInv(After(s, steps[0]), steps[1..]);
    }
  }

  /**
   * In every run at most one task is between its join and its end, and no select of an older generation
   * follows a select of a newer one.
   */
  lemma EveryRun(steps: seq<Step>)
    requires Legal(INIT, steps)
    ensures var s := Final(INIT, steps);
            && (forall t, u :: 0 <= t < u < |s.tasks| ==>
                  !((s.tasks[t].phase.Running? || s.tasks[t].phase.Cleared?) &&
                    (s.tasks[u].phase.Running? || s.tasks[u].phase.Cleared?)))
            && (forall k :: 0 <= k < |s.issued| ==> s.issued[k] < |s.tasks|)
            && (forall k, m :: 0 <= k < m < |s.issued| ==>
                  s.tasks[s.issued[k]].generation <= s.tasks[s.issued[m]].generation)
  {
    RunKeepsInv(INIT, steps);
    var s := Final(INIT, steps);
    forall k, m | 0 <= k < m < |s.issued|
      ensures s.tasks[s.issued[k]].generation <= s.tasks[s.issued[m]].generation
    {
      assert s.issued[k] <= s.issued[m];
    }
  }

  function Issues(steps: seq<Step>, t: nat): nat {
    if steps == [] then 0 else (if steps[0] == Issue(t) then 1 else 0) + Issues(steps[1..], t)
  }

  /**
   * After the generation has moved on, a task sends at most the one select whose check had already
   * passed, whatever the others do; the counter never comes back to it.
   */
  lemma {:induction false} OvertakenTaskStops(s: State, steps: seq<Step>, t: nat)
    requires Inv(s) && Legal(s, steps) && t < |s.tasks| && s.tasks[t].generation != s.generation
    ensures Issues(steps, t) <= if s.tasks[t].phase.Cleared? then 1 else 0
    decreases |steps|
  {
    if steps != [] {
      var s' := After(s, steps[0]);
      StepKeepsInv(s, steps[0]);
      assert s'.tasks[t].generation == s.tasks[t].generation && s'.generation >= s.generation;
      OvertakenTaskStops(s', steps[1..], t);
    }
  }

  /** Starting a restore, or superseding one, overtakes every task there is. */
  lemma BumpOvertakes(s: State, bump: Step, steps: seq<Step>, t: nat)
    requires Inv(s) && (bump == Activate || bump == Supersede) && Legal(After(s, bump), steps) && t < |s.tasks|
    ensures After(s, bump).tasks[t].generation != After(s, bump).generation
    ensures Issues(steps, t) <= if s.tasks[t].phase.Cleared? then 1 else 0
  {
    StepKeepsInv(s, bump);
    OvertakenTaskStops(After(s, bump), steps, t);
  }

  /** A task that nothing overtakes ends only by its own exit. */
  lemma {:induction false} CurrentTaskGoesOn(s: State, steps: seq<Step>, t: nat)
    requires Legal(s, steps) && t < |s.tasks| && s.tasks[t].generation == s.generation
    requires Activate !in steps && Supersede !in steps && Exit(t) !in steps && !s.tasks[t].phase.Finished?
    ensures t < |Final(s, steps).tasks| && !Final(s, steps).tasks[t].phase.Finished?
    decreases |steps|
  {
    if steps != [] {
      assert steps[0] in steps;
      CurrentTaskGoesOn(After(s, steps[0]), steps[1..], t);
    }
  }

  lemma CountAppend(s: seq<nat>, x: nat, y: nat)
    ensures multiset(s + [x])[y] == multiset(s)[y] + if x == y then 1 else 0
  {
  }

  /** The selects sent are recorded, task by task. */
  lemma {:induction false} IssuedAreCounted(s: State, steps: seq<Step>, t: nat)
    requires Legal(s, steps)
    ensures multiset(Final(s, steps).issued)[t] == multiset(s.issued)[t] + Issues(steps, t)
    decreases |steps|
  {
    if steps != [] {
      if steps[0].Issue? {
        CountAppend(s.issued, steps[0].t, t);
      }
      IssuedAreCounted(After(s, steps[0]), steps[1..], t);
    }
  }

  lemma StepsOn(s: State, step: Step, rest: seq<Step>, steps: seq<Step>)
    requires Enabled(s, step) && Legal(After(s, step), rest) && steps == [step] + rest
    ensures Legal(s, steps) && Final(s, steps) == Final(After(s, step), rest)
  {
    assert steps[1..] == rest;
  }

  /** A restore started when all others have ended can join, pass its check, send a select and end. */
  lemma RestoreRuns(s: State)
    requires Inv(s) && forall i :: 0 <= i < |s.tasks| ==> s.tasks[i].phase.Finished?
    ensures var t := |s.tasks|;
            var steps := [Activate, Join(t), Check(t), Issue(t), Exit(t)];
            && Legal(s, steps)
            && Final(s, steps).issued == s.issued + [t]
            && |Final(s, steps).tasks| == t + 1
            && forall i :: 0 <= i <= t ==> Final(s, steps).tasks[i].phase.Finished?
  {
    var t := |s.tasks|;
    var started := After(s, Activate);
    var joined := After(started, Join(t));
    var cleared := After(joined, Check(t));
    var sent := After(cleared, Issue(t));
    StepsOn(sent, Exit(t), [], [Exit(t)]);
    StepsOn(cleared, Issue(t), [Exit(t)], [Issue(t), Exit(t)]);
    StepsOn(joined, Check(t), [Issue(t), Exit(t)], [Check(t), Issue(t), Exit(t)]);
    StepsOn(started, Join(t), [Check(t), Issue(t), Exit(t)], [Join(t), Check(t), Issue(t), Exit(t)]);
    StepsOn(s, Activate, [Join(t), Check(t), Issue(t), Exit(t)], [Activate, Join(t), Check(t), Issue(t), Exit(t)]);
  }

  // ----- The select loop of one pass -----

  /** `remaining_activations`. */
  function Remaining(activations: seq<(string, string)>, completed: map<string, string>): seq<(string, string)> {
    if activations == [] then []
    else
      var (group, node) := activations[0];
      (if group in completed && completed[group] == node then [] else [activations[0]]) +
        Remaining(activations[1..], completed)
  }

  /** What `completed` becomes when the first `n` selects of a pass were answered as `answers` says. */
  function Recorded(
    completed: map<string, string>, todo: seq<(string, string)>, answers: seq<bool>, n: nat): map<string, string>
    requires n <= |todo| == |answers|
  {
    if n == 0 then completed
    else
      var before := Recorded(completed, todo, answers, n - 1);
      if answers[n - 1] then before[todo[n - 1].0 := todo[n - 1].1] else before
  }

  function Successes(answers: seq<bool>, n: nat): nat
    requires n <= |answers|
  {
    if n == 0 then 0 else Successes(answers, n - 1) + if answers[n - 1] then 1 else 0
  }

  lemma {:induction false} SuccessesAreCounted(answers: seq<bool>, n: nat)
    requires n <= |answers|
    ensures Successes(answers, n) == |set i | 0 <= i < n && answers[i]|
  {
    if n > 0 {
      SuccessesAreCounted(answers, n - 1);
      var before := set i | 0 <= i < n - 1 && answers[i];
      assert (set i | 0 <= i < n && answers[i]) == before + if answers[n - 1] then {n - 1} else {};
    }
  }

  /** How many generation checks a pass makes before select `i`: two for each select, and one more if it succeeds. */
  function ChecksBefore(answers: seq<bool>, i: nat): nat
    requires i <= |answers|
  {
    2 * i + Successes(answers, i)
  }

  lemma {:induction false} ChecksGrow(answers: seq<bool>, i: nat, j: nat)
    requires i < j <= |answers|
    ensures ChecksBefore(answers, i) + 2 <= ChecksBefore(answers, j)
  {
    if i < j - 1 {
      ChecksGrow(answers, i, j - 1);
    }
  }

  /** A pass that stops at or in select `n` has not seen all its checks pass. */
  lemma Overtaken(answers: seq<bool>, n: nat, current: nat)
    requires n <= |answers|
    requires current < ChecksBefore(answers, n) || (current == ChecksBefore(answers, n) && n < |answers|)
    ensures current < ChecksBefore(answers, |answers|)
  {
    if n < |answers| { ChecksGrow(answers, n, |answers|); }
  }

  /** How many of the first `n` selects are recorded: not the last one if the check after its answer failed. */
  function Kept(answers: seq<bool>, n: nat, current: nat): nat
    requires n <= |answers|
  {
    if n > 0 && current < ChecksBefore(answers, n - 1) + 2 then n - 1 else n
  }

  /**
   * `apply_activations`: `answers[i]` is the core's answer to the `i`-th select and `current` counts the
   * generation checks that still pass. `sent` lists the selects issued and `recorded` is the new `completed`.
   * The pass finishes exactly when all its checks pass; else it sends the selects whose check passed, and
   * records all of them but possibly the last.
   */
  method ApplyActivations(
    activations: seq<(string, string)>, completed: map<string, string>, answers: seq<bool>, current: nat)
    returns (count: Option<nat>, recorded: map<string, string>, sent: seq<(string, string)>)
    requires |answers| == |Remaining(activations, completed)|
    ensures sent <= Remaining(activations, completed)
    ensures |sent| > 0 ==> 2 * (|sent| - 1) + Successes(answers, |sent| - 1) < current
    ensures |sent| < |answers| ==> current <= 2 * |sent| + Successes(answers, |sent|)
    ensures count ==
      if 2 * |answers| + Successes(answers, |answers|) <= current then Some(Successes(answers, |answers|)) else None
    ensures var kept :=
              if |sent| > 0 && current < 2 * |sent| + Successes(answers, |sent| - 1) then |sent| - 1 else |sent|;
            recorded == Recorded(completed, Remaining(activations, completed), answers, kept)
  {
    count, recorded, sent := SelectEach(Remaining(activations, completed), completed, answers, current);
  }

  /** Its loop over the activations that remain. */
  method SelectEach(
    todo: seq<(string, string)>, completed: map<string, string>, answers: seq<bool>, current: nat)
    returns (count: Option<nat>, recorded: map<string, string>, sent: seq<(string, string)>)
    requires |answers| == |todo|
    ensures sent <= todo
    ensures |sent| > 0 ==> ChecksBefore(answers, |sent| - 1) < current
    ensures |sent| < |answers| ==> current <= ChecksBefore(answers, |sent|)
    ensures count ==
      if ChecksBefore(answers, |answers|) <= current then Some(Successes(answers, |answers|)) else None
    ensures recorded == Recorded(completed, todo, answers, Kept(answers, |sent|, current))
  {
    var left, activatedCount := current, 0;
    recorded, sent := completed, [];
    for i := 0 to |todo|
      invariant sent == todo[..i] && recorded == Recorded(completed, todo, answers, i)
      invariant activatedCount == Successes(answers, i) && left == current - ChecksBefore(answers, i)
      invariant i > 0 ==> ChecksBefore(answers, i - 1) + 2 <= current
    {
      if left == 0 {
        Overtaken(answers, i, current);
        return None, recorded, sent;
      }
      left := left - 1;
      assert todo[..i + 1] == todo[..i] + [todo[i]];
      sent := sent + [todo[i]];
      if answers[i] {
        if left == 0 {
          Overtaken(answers, i + 1, current);
          return None, recorded, sent;
        }
        left := left - 1;
        recorded := recorded[todo[i].0 := todo[i].1];
        activatedCount := activatedCount + 1;
      }
      if left == 0 {
        Overtaken(answers, i + 1, current);
        return None, recorded, sent;
      }
      left := left - 1;
    }
    count := Some(activatedCount);
  }

  /** So the selects sent are exactly those before which the check passes. */
  lemma SentAreChecked(answers: seq<bool>, sent: nat, current: nat)
    requires sent <= |answers|
    requires sent > 0 ==> ChecksBefore(answers, sent - 1) < current
    requires sent < |answers| ==> current <= ChecksBefore(answers, sent)
    ensures forall i :: 0 <= i < |answers| ==> (i < sent <==> ChecksBefore(answers, i) < current)
  {
    forall i | 0 <= i < |answers| ensures i < sent <==> ChecksBefore(answers, i) < current {
      if i < sent - 1 { ChecksGrow(answers, i, sent - 1); }
      if i > sent { ChecksGrow(answers, sent, i); }
    }
  }

  predicate Done(activation: (string, string), completed: map<string, string>) {
    activation.0 in completed && completed[activation.0] == activation.1
  }

  ghost predicate DistinctGroups(activations: seq<(string, string)>) {
    forall i, j :: 0 <= i < j < |activations| ==> activations[i].0 != activations[j].0
  }

  lemma {:induction false} RecordedExactly(
    completed: map<string, string>, todo: seq<(string, string)>, answers: seq<bool>, n: nat, i: nat)
    requires n <= |todo| == |answers| && i < |todo| && DistinctGroups(todo) && !Done(todo[i], completed)
    ensures Done(todo[i], Recorded(completed, todo, answers, n)) <==> i < n && answers[i]
  {
    if n > 0 {
      RecordedExactly(completed, todo, answers, n - 1, i);
      if i != n - 1 {
        assert todo[i].0 != todo[n - 1].0;
      }
    }
  }

  lemma {:induction false} RecordedOthers(
    completed: map<string, string>, todo: seq<(string, string)>, answers: seq<bool>, n: nat, group: string)
    requires n <= |todo| == |answers| && forall i :: 0 <= i < |todo| ==> todo[i].0 != group
    ensures var recorded := Recorded(completed, todo, answers, n);
            && (group in recorded <==> group in completed)
            && (group in completed ==> recorded[group] == completed[group])
  {
    if n > 0 {
      RecordedOthers(completed, todo, answers, n - 1, group);
    }
  }

  lemma {:induction false} RemainingIsUndone(activations: seq<(string, string)>, completed: map<string, string>)
    ensures forall a :: a in Remaining(activations, completed) <==> a in activations && !Done(a, completed)
    ensures forall i :: 0 <= i < |Remaining(activations, completed)| ==>
        !Done(Remaining(activations, completed)[i], completed)
  {
    if activations != [] {
      RemainingIsUndone(activations[1..], completed);
      assert activations == [activations[0]] + activations[1..];
    }
  }

  /** With distinct groups, a finished pass leaves for the next one exactly the selects that failed. */
  lemma NextPassRetriesFailures(activations: seq<(string, string)>, completed: map<string, string>, answers: seq<bool>)
    requires |answers| == |Remaining(activations, completed)| && DistinctGroups(Remaining(activations, completed))
    ensures var todo := Remaining(activations, completed);
            var recorded := Recorded(completed, todo, answers, |todo|);
            forall i :: 0 <= i < |todo| ==> (todo[i] in Remaining(activations, recorded) <==> !answers[i])
  {
    var todo := Remaining(activations, completed);
    var recorded := Recorded(completed, todo, answers, |todo|);
    RemainingIsUndone(activations, completed);
    RemainingIsUndone(activations, recorded);
    forall i | 0 <= i < |todo| ensures todo[i] in Remaining(activations, recorded) <==> !answers[i] {
      assert todo[i] in todo;
      RecordedExactly(completed, todo, answers, |todo|, i);
    }
  }

  /** Nothing that was recorded before is selected again, if each group is planned once. */
  lemma DoneIsNotRetried(activations: seq<(string, string)>, completed: map<string, string>, answers: seq<bool>, k: nat)
    requires |answers| == |Remaining(activations, completed)| && DistinctGroups(activations)
    requires k < |activations| && Done(activations[k], completed)
    ensures var todo := Remaining(activations, completed);
            activations[k] !in Remaining(activations, Recorded(completed, todo, answers, |todo|))
  {
    var todo := Remaining(activations, completed);
    RemainingIsUndone(activations, completed);
    forall i | 0 <= i < |todo| ensures todo[i].0 != activations[k].0 {
      assert todo[i] in todo;
      var j :| 0 <= j < |activations| && activations[j] == todo[i];
      assert j != k;
    }
    RecordedOthers(completed, todo, answers, |todo|, activations[k].0);
    RemainingIsUndone(activations, Recorded(completed, todo, answers, |todo|));
  }
}

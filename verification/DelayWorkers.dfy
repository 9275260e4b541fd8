/** The worker pool of `checkListDelay`: workers share one index into the members of a batch. */
module DelayWorkers {
  /** About to take the next member, measuring member `k`, or returned. */
  datatype Phase = Ready | Measuring(k: nat) | Returned

  /** Members are `0 .. n`; `taken` and `measured` record them in the order in which that happened. */
  datatype Pool = Pool(n: nat, index: nat, workers: seq<Phase>, taken: seq<nat>, measured: seq<nat>)

  datatype Step =
    | Take(w: nat)     // `proxies[index++]`, returning when there is no such member
    | Measured(w: nat) // the measurement settled, well or badly; the worker calls itself again

  predicate Enabled(s: Pool, step: Step) {
    match step
    case Take(w) => w < |s.workers| && s.workers[w].Ready?
    case Measured(w) => w < |s.workers| && s.workers[w].Measuring?
  }

  function After(s: Pool, step: Step): Pool
    requires Enabled(s, step)
  {
    match step
    case Take(w) =>
      if s.index < s.n
      then s.(index := s.index + 1, workers := s.workers[w := Measuring(s.index)], taken := s.taken + [s.index])
      else s.(index := s.index + 1, workers := s.workers[w := Returned])
    case Measured(w) => s.(workers := s.workers[w := Ready], measured := s.measured + [s.workers[w].k])
  }

  /** `Math.min(concurrency, proxies.length, 10)` workers; the loop that starts them ignores a negative bound. */
  function Width(concurrency: int, n: nat): (width: nat)
    ensures width <= n && width <= 10 && (width <= concurrency || width == 0)
    ensures width == n || width == 10 || width == concurrency || (width == 0 && concurrency < 0)
  {
    var least := if concurrency < n then concurrency else n;
    if least < 0 then 0 else if least < 10 then least else 10
  }

  function Init(concurrency: int, n: nat): Pool {
    Pool(n, 0, seq(Width(concurrency, n), _ => Ready), [], [])
  }

  /** One call of `checkListDelay`. */
  class Batch {
    const n: nat
    var index: nat
    var workers: seq<Phase>
    ghost var taken: seq<nat>
    ghost var measured: seq<nat>

    ghost function View(): Pool
      reads this
    {
      Pool(n, index, workers, taken, measured)
    }

    constructor (concurrency: int, n: nat)
      ensures View() == Init(concurrency, n)
      ensures |workers| == if concurrency < 0 then 0 else Least(Least(concurrency, n), 10)
    {
      this.n, index, taken, measured := n, 0, [], [];
      workers := [];
      new;
      var width := if concurrency < n then concurrency else n;
      if 10 < width { width := 10; }
      var i := 0;
      while i < width
        invariant index == 0 && taken == [] && measured == []
        invariant |workers| == i <= if width < 0 then 0 else width
        invariant forall w :: 0 <= w < |workers| ==> workers[w] == Ready
      {
        workers := workers + [Ready];
        i := i + 1;
      }
      assert workers == Init(concurrency, n).workers;
    }

    method TakeNext(w: nat)
      requires Enabled(View(), Take(w))
      modifies this
      ensures View() == After(old(View()), Take(w))
    {
      var current := index;
      index := index + 1;
      if current < n {
        workers := workers[w := Measuring(current)];
        taken := taken + [current];
      } else {
        workers := workers[w := Returned];
      }
    }

    method Continue(w: nat)
      requires Enabled(View(), Measured(w))
      modifies this
      ensures View() == After(old(View()), Measured(w))
    {
      measured := measured + [workers[w].k];
      workers := workers[w := Ready];
    }
  }

  /** The members being measured, one per busy worker. */
  ghost function InFlight(workers: seq<Phase>): (members: multiset<nat>)
    ensures |members| <= |workers|
  {
    if workers == [] then multiset{}
    else InFlight(workers[..|workers| - 1]) + Held(workers[|workers| - 1])
  }

  ghost function Held(phase: Phase): (members: multiset<nat>)
    ensures |members| <= 1
  {
    if phase.Measuring? then multiset{phase.k} else multiset{}
  }

  ghost function UpTo(n: nat): (members: seq<nat>)
    ensures |members| == n && forall k :: 0 <= k < n ==> members[k] == k
  {
    if n == 0 then [] else UpTo(n - 1) + [n - 1]
  }

  function Least(a: nat, b: nat): nat { if a < b then a else b }

  ghost predicate Inv(s: Pool) {
    && s.taken == UpTo(Least(s.index, s.n))
    // Nothing taken is lost or measured twice.
    && multiset(s.measured) + InFlight(s.workers) == multiset(s.taken)
    && (forall w :: 0 <= w < |s.workers| && s.workers[w].Returned? ==> s.n <= s.index)
  }

  lemma {:induction false} InFlightChanged(workers: seq<Phase>, w: nat, phase: Phase)
    requires w < |workers|
    ensures InFlight(workers[w := phase]) + Held(workers[w]) == InFlight(workers) + Held(phase)
  {
    var front, last := workers[..|workers| - 1], workers[|workers| - 1];
    assert workers == front + [last];
    InFlightAppend(front, last);
    if w == |front| {
      assert workers[w := phase] == front + [phase];
      InFlightAppend(front, phase);
      Swap(InFlight(front), Held(phase), Held(last));
    } else {
      assert workers[w := phase] == front[w := phase] + [last];
      InFlightAppend(front[w := phase], last);
      InFlightChanged(front, w, phase);
      Exchange(InFlight(front[w := phase]), Held(workers[w]), InFlight(front), Held(phase), Held(last));
    }
  }

  lemma InFlightAppend(workers: seq<Phase>, last: Phase)
    ensures InFlight(workers + [last]) == InFlight(workers) + Held(last)
  {
    assert (workers + [last])[..|workers|] == workers;
  }

  lemma Swap(a: multiset<nat>, b: multiset<nat>, c: multiset<nat>)
    ensures (a + b) + c == (a + c) + b
  {
  }

  lemma Exchange(a: multiset<nat>, b: multiset<nat>, c: multiset<nat>, d: multiset<nat>, e: multiset<nat>)
    requires a + b == c + d
    ensures (a + e) + b == (c + e) + d
  {
    forall x: nat ensures ((a + e) + b)[x] == ((c + e) + d)[x] {
      assert (a + b)[x] == (c + d)[x];
    }
  }

  lemma TakeKeepsMembers(s: Pool, w: nat)
    requires Inv(s) && Enabled(s, Take(w)) && s.index < s.n
    ensures multiset(s.measured) + InFlight(s.workers[w := Measuring(s.index)]) == multiset(s.taken + [s.index])
  {
    InFlightChanged(s.workers, w, Measuring(s.index));
    var was, busy := InFlight(s.workers), InFlight(s.workers[w := Measuring(s.index)]);
    assert Held(s.workers[w]) == multiset{} && Held(Measuring(s.index)) == multiset{s.index};
    assert busy == was + multiset{s.index} by { assert busy + multiset{} == busy; }
    assert multiset(s.taken + [s.index]) == multiset(s.taken) + multiset{s.index};
  }

  lemma ReturnKeepsMembers(workers: seq<Phase>, w: nat)
    requires w < |workers| && workers[w].Ready?
    ensures InFlight(workers[w := Returned]) == InFlight(workers)
  {
    InFlightChanged(workers, w, Returned);
    assert InFlight(workers[w := Returned]) + multiset{} == InFlight(workers[w := Returned]);
  }

  lemma TakeMemberKeepsInv(s: Pool, w: nat)
    requires Inv(s) && Enabled(s, Take(w)) && s.index < s.n
    ensures Inv(After(s, Take(w)))
  {
    TakeKeepsMembers(s, w);
    assert s.taken + [s.index] == UpTo(s.index + 1);
  }

  lemma ReturnKeepsInv(s: Pool, w: nat)
    requires Inv(s) && Enabled(s, Take(w)) && s.index >= s.n
    ensures Inv(After(s, Take(w)))
  {
    ReturnKeepsMembers(s.workers, w);
    assert Least(s.index, s.n) == Least(s.index + 1, s.n);
  }

  lemma TakeKeepsInv(s: Pool, w: nat)
    requires Inv(s) && Enabled(s, Take(w))
    ensures Inv(After(s, Take(w)))
  {
    if s.index < s.n { TakeMemberKeepsInv(s, w); } else { ReturnKeepsInv(s, w); }
  }

  lemma MeasuredKeepsInv(s: Pool, w: nat)
    requires Inv(s) && Enabled(s, Measured(w))
    ensures Inv(After(s, Measured(w)))
  {
    InFlightChanged(s.workers, w, Ready);
    var k := s.workers[w].k;
    assert InFlight(s.workers[w := Ready]) + multiset{k} == InFlight(s.workers);
    assert multiset(s.measured + [k]) == multiset(s.measured) + multiset{k};
  }

  lemma StepKeepsInv(s: Pool, step: Step)
    requires Inv(s) && Enabled(s, step)
    ensures Inv(After(s, step))
  {
    match step
    case Take(w) => TakeKeepsInv(s, w);
    case Measured(w) => MeasuredKeepsInv(s, w);
  }

  lemma {:induction false} NobodyInFlight(workers: seq<Phase>)
    requires forall w :: 0 <= w < |workers| ==> !workers[w].Measuring?
    ensures InFlight(workers) == multiset{}
  {
    if workers != [] {
      NobodyInFlight(workers[..|workers| - 1]);
    }
  }

  /** How many steps are still to come. */
  ghost function Remaining(s: Pool): nat { 2 * (s.n - Least(s.index, s.n)) + Effort(s.workers) }

  ghost function Effort(workers: seq<Phase>): nat {
    if workers == [] then 0 else Effort(workers[..|workers| - 1]) + Own(workers[|workers| - 1])
  }

  ghost function Own(phase: Phase): nat {
    match phase
    case Ready => 1
    case Measuring(_) => 2
    case Returned => 0
  }

  lemma {:induction false} EffortChanged(workers: seq<Phase>, w: nat, phase: Phase)
    requires w < |workers|
    ensures Effort(workers[w := phase]) + Own(workers[w]) == Effort(workers) + Own(phase)
  {
    var last := |workers| - 1;
    if w == last {
      assert workers[w := phase][..last] == workers[..last];
    } else {
      assert workers[w := phase][..last] == workers[..last][w := phase];
      EffortChanged(workers[..last], w, phase);
    }
  }

  lemma EveryStepCounts(s: Pool, step: Step)
    requires Enabled(s, step)
    ensures Remaining(After(s, step)) == Remaining(s) - 1
  {
    match step
    case Take(w) => EffortChanged(s.workers, w, After(s, step).workers[w]);
    case Measured(w) => EffortChanged(s.workers, w, Ready);
  }

  lemma {:induction false} AllReady(workers: seq<Phase>)
    requires forall w :: 0 <= w < |workers| ==> workers[w].Ready?
    ensures Effort(workers) == |workers| && InFlight(workers) == multiset{}
  {
    if workers != [] {
      AllReady(workers[..|workers| - 1]);
    }
  }

  lemma {:induction false} NoEffort(workers: seq<Phase>)
    ensures Effort(workers) == 0 <==> forall w :: 0 <= w < |workers| ==> workers[w].Returned?
  {
    if workers != [] {
      var front := workers[..|workers| - 1];
      NoEffort(front);
      assert forall w :: 0 <= w < |front| ==> front[w] == workers[w];
    }
  }

  ghost predicate Legal(s: Pool, steps: seq<Step>)
    decreases |steps|
  {
    steps == [] || (Enabled(s, steps[0]) && Legal(After(s, steps[0]), steps[1..]))
  }

  ghost function Final(s: Pool, steps: seq<Step>): Pool
    requires Legal(s, steps)
    decreases |steps|
  {
    if steps == [] then s else Final(After(s, steps[0]), steps[1..])
  }

  lemma {:induction false} RunKeepsInv(s: Pool, steps: seq<Step>)
    requires Inv(s) && Legal(s, steps)
    ensures Inv(Final(s, steps)) && Final(s, steps).n == s.n
    ensures |Final(s, steps).workers| == |s.workers|
    ensures |steps| + Remaining(Final(s, steps)) == Remaining(s)
    decreases |steps|
  {
    if steps != [] {
      StepKeepsInv(s, steps[0]);
      EveryStepCounts(s, steps[0]);
      RunKeepsInv(After(s, steps[0]), steps[1..]);
    }
  }

  lemma InitIsInv(concurrency: int, n: nat)
    ensures Inv(Init(concurrency, n))
    ensures Remaining(Init(concurrency, n)) == 2 * n + Width(concurrency, n)
  {
    AllReady(Init(concurrency, n).workers);
  }

  /** `Promise.all` resolves once every worker has returned. */
  ghost predicate Settled(s: Pool) { forall w :: 0 <= w < |s.workers| ==> s.workers[w].Returned? }

  /**
   * However the workers interleave: members are taken in order, once each; a taken member is in flight or
   * measured, not both and not twice; at most min(concurrency, n, 10) are in flight.
   */
  lemma EveryRun(concurrency: int, n: nat, steps: seq<Step>)
    requires Legal(Init(concurrency, n), steps)
    ensures var s := Final(Init(concurrency, n), steps);
            && s.taken == UpTo(Least(s.index, n))
            && multiset(s.measured) + InFlight(s.workers) == multiset(UpTo(Least(s.index, n)))
            && |InFlight(s.workers)| <= n && |InFlight(s.workers)| <= 10
            && (concurrency >= 0 ==> |InFlight(s.workers)| <= concurrency)
  {
    InitIsInv(concurrency, n);
    RunKeepsInv(Init(concurrency, n), steps);
  }

  /** A settled batch has measured every member exactly once, unless it was given no worker at all. */
  lemma EveryMemberOnceIff(concurrency: int, n: nat, steps: seq<Step>)
    requires Legal(Init(concurrency, n), steps) && Settled(Final(Init(concurrency, n), steps))
    ensures multiset(Final(Init(concurrency, n), steps).measured) == multiset(UpTo(n))
            <==> n == 0 || concurrency >= 1
  {
    var s := Final(Init(concurrency, n), steps);
    InitIsInv(concurrency, n);
    RunKeepsInv(Init(concurrency, n), steps);
    NobodyInFlight(s.workers);
    if |s.workers| > 0 {
      assert s.workers[0].Returned?;
    } else {
      NoEffort(s.workers);
      assert s.workers == [] && Remaining(Init(concurrency, n)) == 2 * n;
      NothingHappens(Init(concurrency, n), steps);
      assert |multiset(UpTo(n))| == n;
    }
  }

  /** For example: with no concurrency a batch settles at once and leaves its members unmeasured. */
  lemma NoWorkerMeasuresNothing(n: nat)
    requires n > 0
    ensures Settled(Init(0, n)) && Init(0, n).measured == [] && multiset(Init(0, n).measured) != multiset(UpTo(n))
  {
    assert Legal(Init(0, n), []) && Final(Init(0, n), []) == Init(0, n);
    EveryMemberOnceIff(0, n, []);
  }

  lemma NothingHappens(s: Pool, steps: seq<Step>)
    requires s.workers == [] && Legal(s, steps)
    ensures steps == [] && Final(s, steps) == s
  {
    if steps != [] {
      assert false;
    }
  }

  lemma SettledIffStuck(s: Pool)
    ensures Settled(s) <==> forall step :: !Enabled(s, step)
  {
    forall w: nat | w < |s.workers| && !s.workers[w].Returned?
      ensures Enabled(s, Take(w)) || Enabled(s, Measured(w))
    {
      assert s.workers[w].Ready? || s.workers[w].Measuring?;
    }
  }

  /** No batch hangs or runs for ever: while a worker is out a step can be taken, and only 2n + width can be. */
  lemma BatchSettles(concurrency: int, n: nat, steps: seq<Step>)
    requires Legal(Init(concurrency, n), steps)
    ensures var s := Final(Init(concurrency, n), steps);
            && |steps| <= 2 * n + Width(concurrency, n)
            && (Settled(s) <==> forall step :: !Enabled(s, step))
            && (Settled(s) && (n == 0 || concurrency >= 1) ==> |steps| == 2 * n + Width(concurrency, n))
  {
    var s := Final(Init(concurrency, n), steps);
    StepsOfBatch(concurrency, n, steps);
    SettledIffStuck(s);
    if Settled(s) && (n == 0 || concurrency >= 1) {
      NothingRemains(s);
    }
  }

  lemma StepsOfBatch(concurrency: int, n: nat, steps: seq<Step>)
    requires Legal(Init(concurrency, n), steps)
    ensures var s := Final(Init(concurrency, n), steps);
            && Inv(s) && s.n == n && |s.workers| == Width(concurrency, n)
            && |steps| + Remaining(s) == 2 * n + Width(concurrency, n)
  {
    InitIsInv(concurrency, n);
    RunKeepsInv(Init(concurrency, n), steps);
  }

  lemma NothingRemains(s: Pool)
    requires Inv(s) && Settled(s) && (s.n == 0 || s.workers != [])
    ensures Remaining(s) == 0
  {
    NoEffort(s.workers);
    if s.workers != [] {
      assert s.workers[0].Returned?;
    }
  }
}

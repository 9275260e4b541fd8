/** `mutate`: commands with the same id run one at a time, in the order in which they were requested. */
module MutateQueue {
  import opened Options

  /** Waiting for the previous call to settle, invoking the command, or past `finally`. */
  datatype Phase = Waiting | Running | Finished

  datatype Call = Call(id: string, previous: Option<nat>, phase: Phase)

  /** Calls are numbered in request order; `started` lists them in the order their commands were invoked. */
  datatype State = State(calls: seq<Call>, inFlight: map<string, nat>, started: seq<nat>)

  datatype Step =
    | Request(id: string)
    | Resume(n: nat)              // the awaited promise of the previous call has resolved
    | Settle(n: nat, ok: bool)    // the command returned or threw; `finally` runs either way

  predicate InPhase(s: State, n: nat, phase: Phase) { n < |s.calls| && s.calls[n].phase == phase }

  predicate Enabled(s: State, step: Step) {
    match step
    case Request(_) => true
    case Resume(n) => InPhase(s, n, Waiting) && s.calls[n].previous.Some? &&
      InPhase(s, s.calls[n].previous.value, Finished)
    case Settle(n, _) => InPhase(s, n, Running)
  }

  function Moved(calls: seq<Call>, n: nat, phase: Phase): seq<Call>
    requires n < |calls|
  {
    calls[n := calls[n].(phase := phase)]
  }

  function After(s: State, step: Step): State
    requires Enabled(s, step)
  {
    match step
    case Request(id) =>
      var n := |s.calls|;
      var previous := if id in s.inFlight then Some(s.inFlight[id]) else None;
      State(s.calls + [Call(id, previous, if previous.Some? then Waiting else Running)],
            s.inFlight[id := n],
            if previous.Some? then s.started else s.started + [n])
    case Resume(n) => s.(calls := Moved(s.calls, n, Running), started := s.started + [n])
    case Settle(n, _) =>
      var id := s.calls[n].id;
      s.(calls := Moved(s.calls, n, Finished),
         inFlight := if id in s.inFlight && s.inFlight[id] == n then s.inFlight - {id} else s.inFlight)
  }

  /** The module-level `inFlight` map with the calls that hold it. */
  class MutationQueue {
    var calls: seq<Call>
    var inFlight: map<string, nat>
    var started: seq<nat>

    function View(): State
      reads this
    {
      State(calls, inFlight, started)
    }

    constructor ()
      ensures View() == INIT
    {
      calls, inFlight, started := [], map[], [];
    }

    /** `mutate` up to its first await: enter the queue, and invoke at once if nobody is ahead. */
    method Enter(id: string) returns (n: nat)
      modifies this
      ensures View() == After(old(View()), Request(id)) && n == |old(calls)|
      ensures |calls| == n + 1 && calls[..n] == old(calls) && calls[n].id == id && inFlight == old(inFlight)[id := n]
      ensures calls[n].phase == (if id in old(inFlight) then Waiting else Running)
    {
      var previous := if id in inFlight then Some(inFlight[id]) else None;
      n := |calls|;
      inFlight := inFlight[id := n];
      if previous.Some? {
        calls := calls + [Call(id, previous, Waiting)];
        return;
      }
      calls := calls + [Call(id, previous, Running)];
      started := started + [n];
    }

    /** The continuation of `await previous`. */
    method Proceed(n: nat)
      requires Enabled(View(), Resume(n))
      modifies this
      ensures View() == After(old(View()), Resume(n))
    {
      calls := calls[n := calls[n].(phase := Running)];
      started := started + [n];
    }

    /** `finally`: release the next call, then leave the map unless a later call has taken the entry. */
    method Leave(n: nat, ok: bool)
      requires Enabled(View(), Settle(n, ok))
      modifies this
      ensures View() == After(old(View()), Settle(n, ok))
    {
      var id := calls[n].id;
      calls := calls[n := calls[n].(phase := Finished)];
      if id in inFlight && inFlight[id] == n {
        inFlight := inFlight - {id};
      }
    }
  }

  const INIT := State([], map[], [])

  /** Call `p` is the last call before `n` with the id of `n`. */
  ghost predicate Follows(calls: seq<Call>, p: nat, n: nat)
    requires n < |calls|
  {
    p < n && calls[p].id == calls[n].id && forall k :: p < k < n ==> calls[k].id != calls[n].id
  }

  /** A call waits for the call before it on the same id, and only if it found one. */
  ghost predicate Linked(calls: seq<Call>, n: nat)
    requires n < |calls|
  {
    match calls[n].previous
    case Some(p) => Follows(calls, p, n)
    case None => !calls[n].phase.Waiting?
  }

  /** Every earlier call with the id of `n` has finished. */
  ghost predicate Clear(calls: seq<Call>, n: nat)
    requires n < |calls|
  {
    forall m :: 0 <= m < n && calls[m].id == calls[n].id ==> calls[m].phase.Finished?
  }

  ghost predicate Latest(calls: seq<Call>, id: string, n: nat) {
    && n < |calls|
    && calls[n].id == id
    && !calls[n].phase.Finished?
    && forall k :: n < k < |calls| ==> calls[k].id != id
  }

  ghost predicate Chained(calls: seq<Call>) {
    && (forall n :: 0 <= n < |calls| ==> Linked(calls, n))
    && (forall n :: 0 <= n < |calls| && !calls[n].phase.Waiting? ==> Clear(calls, n))
  }

  /** The map holds the latest call of an id while that call is unfinished, and nothing else. */
  ghost predicate Mapped(calls: seq<Call>, inFlight: map<string, nat>) {
    && (forall id :: id in inFlight ==> Latest(calls, id, inFlight[id]))
    && (forall n :: 0 <= n < |calls| && calls[n].id !in inFlight ==> calls[n].phase.Finished?)
  }

  /** Exactly the calls past their wait were invoked, in request order per id. */
  ghost predicate Ordered(calls: seq<Call>, started: seq<nat>) {
    && (forall k :: 0 <= k < |started| ==> PastWait(calls, started[k]))
    && (forall n: nat :: PastWait(calls, n) ==> n in started)
    && (forall k, m :: 0 <= k < m < |started| ==> InOrder(calls, started[k], started[m]))
  }

  ghost predicate PastWait(calls: seq<Call>, n: nat) { n < |calls| && !calls[n].phase.Waiting? }

  ghost predicate InOrder(calls: seq<Call>, m: nat, n: nat) {
    m < |calls| && n < |calls| && calls[m].id == calls[n].id ==> m < n
  }

  ghost predicate Inv(s: State) {
    Chained(s.calls) && Mapped(s.calls, s.inFlight) && Ordered(s.calls, s.started)
  }

  lemma AppendKeepsChain(calls: seq<Call>, call: Call)
    requires Chained(calls)
    requires Linked(calls + [call], |calls|)
    requires !call.phase.Waiting? ==> Clear(calls + [call], |calls|)
    ensures Chained(calls + [call])
  {
    forall n | 0 <= n < |calls| ensures Linked(calls + [call], n) {
      assert Linked(calls, n);
    }
    forall n | 0 <= n < |calls| && !calls[n].phase.Waiting? ensures Clear(calls + [call], n) {
      assert Clear(calls, n);
    }
  }

  /** A call moves on to a later phase. */
  lemma MoveKeepsChain(calls: seq<Call>, n: nat, phase: Phase)
    requires Chained(calls) && n < |calls| && Clear(calls, n)
    requires !phase.Waiting? && (calls[n].phase.Finished? ==> phase.Finished?)
    ensures Chained(Moved(calls, n, phase))
  {
    var moved := Moved(calls, n, phase);
    forall m | 0 <= m < |calls| ensures Linked(moved, m) {
      assert Linked(calls, m);
    }
    forall m | 0 <= m < |calls| && !moved[m].phase.Waiting? ensures Clear(moved, m) {
      assert Clear(calls, m);
    }
  }

  lemma RequestKeepsMap(s: State, id: string)
    requires Inv(s)
    ensures Mapped(After(s, Request(id)).calls, After(s, Request(id)).inFlight)
  {
    var s' := After(s, Request(id));
    forall other | other in s'.inFlight ensures Latest(s'.calls, other, s'.inFlight[other]) {
      if other != id { assert Latest(s.calls, other, s.inFlight[other]); }
    }
  }

  lemma ResumeKeepsMap(s: State, n: nat)
    requires Inv(s) && Enabled(s, Resume(n))
    ensures Mapped(After(s, Resume(n)).calls, s.inFlight)
  {
    var s' := After(s, Resume(n));
    forall id | id in s.inFlight ensures Latest(s'.calls, id, s.inFlight[id]) {
      assert Latest(s.calls, id, s.inFlight[id]);
    }
  }

  lemma SettleKeepsMap(s: State, n: nat, ok: bool)
    requires Inv(s) && Enabled(s, Settle(n, ok))
    ensures Mapped(After(s, Settle(n, ok)).calls, After(s, Settle(n, ok)).inFlight)
  {
    var s' := After(s, Settle(n, ok));
    forall id | id in s'.inFlight ensures Latest(s'.calls, id, s'.inFlight[id]) {
      assert Latest(s.calls, id, s.inFlight[id]);
    }
    forall m | 0 <= m < |s.calls| && s.calls[m].id !in s'.inFlight ensures s'.calls[m].phase.Finished? {
      var id := s.calls[m].id;
      if id in s.inFlight {
        assert Latest(s.calls, id, n) && Clear(s.calls, n);
      }
    }
  }

  lemma InvokeKeepsOrder(calls: seq<Call>, started: seq<nat>, calls': seq<Call>, n: nat)
    requires Ordered(calls, started) && n < |calls'| && |calls| <= |calls'|
    requires forall k :: 0 <= k < |calls| ==> calls'[k].id == calls[k].id
    requires forall k :: 0 <= k < |calls'| && k != n ==> k < |calls| && calls'[k] == calls[k]
    requires !calls'[n].phase.Waiting?
    requires forall k: nat :: PastWait(calls, k) && calls[k].id == calls'[n].id ==> k < n
    ensures Ordered(calls', started + [n])
  {
    var longer := started + [n];
    forall m: nat | PastWait(calls', m) ensures m in longer {
      if m == n { assert longer[|started|] == n; } else { assert PastWait(calls, m) && m in started; }
    }
    forall k, m | 0 <= k < m < |longer| ensures InOrder(calls', longer[k], longer[m]) {
      assert PastWait(calls, started[k]);
      if m < |started| {
        assert PastWait(calls, started[m]) && InOrder(calls, started[k], started[m]);
      }
    }
    forall k | 0 <= k < |longer| ensures PastWait(calls', longer[k]) {
      if k < |started| { assert PastWait(calls, started[k]); }
    }
  }

  lemma SamePastWaitKeepsOrder(calls: seq<Call>, started: seq<nat>, calls': seq<Call>)
    requires Ordered(calls, started) && |calls| <= |calls'|
    requires forall k :: 0 <= k < |calls| ==> calls'[k].id == calls[k].id
    requires forall k: nat :: PastWait(calls', k) <==> PastWait(calls, k)
    ensures Ordered(calls', started)
  {
    forall k, m | 0 <= k < m < |started| ensures InOrder(calls', started[k], started[m]) {
      assert PastWait(calls, started[k]) && PastWait(calls, started[m]) && InOrder(calls, started[k], started[m]);
    }
  }

  lemma RequestKeepsInv(s: State, id: string)
    requires Inv(s)
    ensures Inv(After(s, Request(id)))
  {
    var s' := After(s, Request(id));
    var n := |s.calls|;
    if id in s.inFlight {
      assert Latest(s.calls, id, s.inFlight[id]);
      assert Follows(s'.calls, s.inFlight[id], n);
      SamePastWaitKeepsOrder(s.calls, s.started, s'.calls);
    } else {
      InvokeKeepsOrder(s.calls, s.started, s'.calls, n);
    }
    AppendKeepsChain(s.calls, s'.calls[n]);
    RequestKeepsMap(s, id);
  }

  /** The call waited for was the last of its id, and it started only when those before it had finished. */
  lemma ClearedToResume(s: State, n: nat)
    requires Inv(s) && Enabled(s, Resume(n))
    ensures Clear(s.calls, n)
    ensures forall k: nat :: PastWait(s.calls, k) && s.calls[k].id == s.calls[n].id ==> k < n
  {
    var p := s.calls[n].previous.value;
    assert Linked(s.calls, n) && Follows(s.calls, p, n) && Clear(s.calls, p);
    forall k: nat | PastWait(s.calls, k) && s.calls[k].id == s.calls[n].id ensures k < n {
      assert Clear(s.calls, k);
    }
  }

  lemma ResumeKeepsInv(s: State, n: nat)
    requires Inv(s) && Enabled(s, Resume(n))
    ensures Inv(After(s, Resume(n)))
  {
    ClearedToResume(s, n);
    MoveKeepsChain(s.calls, n, Running);
    ResumeKeepsMap(s, n);
    InvokeKeepsOrder(s.calls, s.started, Moved(s.calls, n, Running), n);
  }

  lemma SettleKeepsInv(s: State, n: nat, ok: bool)
    requires Inv(s) && Enabled(s, Settle(n, ok))
    ensures Inv(After(s, Settle(n, ok)))
  {
    MoveKeepsChain(s.calls, n, Finished);
    SettleKeepsMap(s, n, ok);
    SamePastWaitKeepsOrder(s.calls, s.started, Moved(s.calls, n, Finished));
  }

  lemma StepKeepsInv(s: State, step: Step)
    requires Inv(s) && Enabled(s, step)
    ensures Inv(After(s, step))
  {
    match step
    case Request(id) => RequestKeepsInv(s, id);
    case Resume(n) => ResumeKeepsInv(s, n);
    case Settle(n, ok) => SettleKeepsInv(s, n, ok);
  }

  ghost predicate Legal(s: State, steps: seq<Step>)
    decreases |steps|
  {
    steps == [] || (Enabled(s, steps[0]) && Legal(After(s, steps[0]), steps[1..]))
  }

  ghost function Final(s: State, steps: seq<Step>): State
    requires Legal(s, steps)
    decreases |steps|
  {
    if steps == [] then s else Final(After(s, steps[0]), steps[1..])
  }

  lemma {:induction false} RunKeepsInv(s: State, steps: seq<Step>)
    requires Inv(s) && Legal(s, steps)
    ensures Inv(Final(s, steps))
    decreases |steps|
  {
    if steps != [] {
      StepKeepsInv(s, steps[0]);
      RunKeepsInv(After(s, steps[0]), steps[1..]);
    }
  }

  /**
   * In every run, whichever calls throw: per id at most one command runs; commands are invoked at most once
   * each and in request order; and the map has an entry for an id exactly while a call on it is unfinished.
   */
  lemma EveryRun(steps: seq<Step>)
    requires Legal(INIT, steps)
    ensures var s := Final(INIT, steps);
            && (forall m, n :: 0 <= m < n < |s.calls| && s.calls[m].id == s.calls[n].id ==>
                  !(s.calls[m].phase.Running? && s.calls[n].phase.Running?))
            && (forall k :: 0 <= k < |s.started| ==> s.started[k] < |s.calls|)
            && (forall k, m :: 0 <= k < m < |s.started| && s.calls[s.started[k]].id == s.calls[s.started[m]].id ==>
                  s.started[k] < s.started[m])
            && (forall id :: id in s.inFlight <==> Unfinished(s, id))
  {
    RunKeepsInv(INIT, steps);
    var s := Final(INIT, steps);
    forall k | 0 <= k < |s.started| ensures s.started[k] < |s.calls| {
      assert PastWait(s.calls, s.started[k]);
    }
    forall k, m | 0 <= k < m < |s.started| && s.calls[s.started[k]].id == s.calls[s.started[m]].id
      ensures s.started[k] < s.started[m]
    {
      assert InOrder(s.calls, s.started[k], s.started[m]);
    }
    forall m, n | 0 <= m < n < |s.calls| && s.calls[m].id == s.calls[n].id && s.calls[n].phase.Running?
      ensures !s.calls[m].phase.Running?
    {
      assert Clear(s.calls, n);
    }
    forall id | id in s.inFlight ensures Unfinished(s, id) {
      assert Latest(s.calls, id, s.inFlight[id]);
    }
  }

  ghost predicate Unfinished(s: State, id: string) {
    exists n :: 0 <= n < |s.calls| && s.calls[n].id == id && !s.calls[n].phase.Finished?
  }

  /** Nobody waits for ever: of an unfinished call and those before it on its id, one runs or can go on. */
  lemma {:induction false} SomeoneCanMove(s: State, n: nat) returns (m: nat)
    requires Inv(s) && n < |s.calls| && !s.calls[n].phase.Finished?
    ensures m <= n && s.calls[m].id == s.calls[n].id && (InPhase(s, m, Running) || Enabled(s, Resume(m)))
    decreases n
  {
    assert Linked(s.calls, n);
    if s.calls[n].phase.Waiting? && !s.calls[s.calls[n].previous.value].phase.Finished? {
      m := SomeoneCanMove(s, s.calls[n].previous.value);
    } else {
      m := n;
    }
  }

  // ----- Every request is served -----

  /** The ids a run requests, in order. */
  function Requested(steps: seq<Step>): seq<string> {
    if steps == [] then []
    else (if steps[0].Request? then [steps[0].id] else []) + Requested(steps[1..])
  }

  /** No request is dropped: a run adds one call for each, in order, with its id. */
  lemma {:induction false} RequestsBecomeCalls(s: State, steps: seq<Step>)
    requires Legal(s, steps)
    ensures var calls, ids := Final(s, steps).calls, Requested(steps);
            && |calls| == |s.calls| + |ids|
            && (forall k :: 0 <= k < |s.calls| ==> calls[k].id == s.calls[k].id)
            && (forall k :: 0 <= k < |ids| ==> calls[|s.calls| + k].id == ids[k])
    decreases |steps|
  {
    if steps != [] {
      var s' := After(s, steps[0]);
      RequestsBecomeCalls(s', steps[1..]);
      var calls, ids := Final(s', steps[1..]).calls, Requested(steps[1..]);
      if steps[0].Request? {
        assert s'.calls[|s.calls|].id == steps[0].id;
        forall k | 0 <= k < |Requested(steps)| ensures calls[|s.calls| + k].id == Requested(steps)[k] {
          if k > 0 { assert calls[|s'.calls| + (k - 1)].id == ids[k - 1]; }
        }
      }
    }
  }

  lemma {:induction false} OccursOnce(s: seq<nat>, x: nat)
    requires forall i, j :: 0 <= i < j < |s| ==> s[i] != s[j]
    ensures multiset(s)[x] == if x in s then 1 else 0
  {
    if s != [] {
      var front, last := s[..|s| - 1], s[|s| - 1];
      OccursOnce(front, x);
      assert s == front + [last];
    }
  }

  lemma StartedOnce(s: State, n: nat)
    requires Inv(s)
    ensures multiset(s.started)[n] == if PastWait(s.calls, n) then 1 else 0
  {
    forall k, m | 0 <= k < m < |s.started| ensures s.started[k] != s.started[m] {
      assert PastWait(s.calls, s.started[k]) && InOrder(s.calls, s.started[k], s.started[m]);
    }
    OccursOnce(s.started, n);
  }

  /** Only requests are possible exactly when every call has finished. */
  lemma StuckIffFinished(s: State)
    requires Inv(s)
    ensures (forall step :: Enabled(s, step) ==> step.Request?) <==>
        forall n :: 0 <= n < |s.calls| ==> s.calls[n].phase.Finished?
  {
    forall n | 0 <= n < |s.calls| && !s.calls[n].phase.Finished?
      ensures exists step :: Enabled(s, step) && !step.Request?
    {
      var m := SomeoneCanMove(s, n);
      assert Enabled(s, Settle(m, true)) || Enabled(s, Resume(m));
    }
  }

  /**
   * A run that can go no further without another request has invoked the command of each request exactly
   * once, and nothing else, whichever calls threw.
   */
  lemma EveryRequestRunsOnce(steps: seq<Step>)
    requires Legal(INIT, steps) && forall step :: Enabled(Final(INIT, steps), step) ==> step.Request?
    ensures var s, ids := Final(INIT, steps), Requested(steps);
            && |s.calls| == |ids|
            && (forall n :: 0 <= n < |ids| ==> s.calls[n].id == ids[n] && s.calls[n].phase.Finished?)
            && (forall n: nat :: multiset(s.started)[n] == if n < |ids| then 1 else 0)
            && s.inFlight == map[]
  {
    var s := Final(INIT, steps);
    RunKeepsInv(INIT, steps);
    RequestsBecomeCalls(INIT, steps);
    StuckIffFinished(s);
    forall n: nat ensures multiset(s.started)[n] == if n < |Requested(steps)| then 1 else 0 {
      StartedOnce(s, n);
    }
    EveryRun(steps);
    assert forall id :: !Unfinished(s, id);
  }

  /** How many steps a call has left. */
  ghost function Own(phase: Phase): nat {
    match phase
    case Waiting => 2
    case Running => 1
    case Finished => 0
  }

  ghost function Work(calls: seq<Call>): nat {
    if calls == [] then 0 else Work(calls[..|calls| - 1]) + Own(calls[|calls| - 1].phase)
  }

  lemma {:induction false} WorkMoved(calls: seq<Call>, n: nat, phase: Phase)
    requires n < |calls|
    ensures Work(Moved(calls, n, phase)) + Own(calls[n].phase) == Work(calls) + Own(phase)
  {
    var last, moved := |calls| - 1, Moved(calls, n, phase);
    if n == last {
      assert moved[..last] == calls[..last];
    } else {
      assert moved[..last] == Moved(calls[..last], n, phase);
      WorkMoved(calls[..last], n, phase);
    }
  }

  lemma WorkOfStep(s: State, step: Step)
    requires Enabled(s, step)
    ensures Work(After(s, step).calls) < Work(s.calls) + if step.Request? then 3 else 0
  {
    match step
    case Request(id) => assert After(s, step).calls[..|s.calls|] == s.calls;
    case Resume(n) => WorkMoved(s.calls, n, Running);
    case Settle(n, _) => WorkMoved(s.calls, n, Finished);
  }

  /** Nothing goes on for ever: a run takes at most three steps for each request. */
  lemma {:induction false} ThreeStepsEach(s: State, steps: seq<Step>)
    requires Legal(s, steps)
    ensures |steps| + Work(Final(s, steps).calls) <= Work(s.calls) + 3 * |Requested(steps)|
    decreases |steps|
  {
    if steps != [] {
      WorkOfStep(s, steps[0]);
      ThreeStepsEach(After(s, steps[0]), steps[1..]);
    }
  }
}

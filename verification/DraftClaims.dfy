/**
 * `DraftTransaction` under interference: any number of transactions over any layers, one atomic claim,
 * release, apply or discard at a time. Drafts are edited only by a transaction that holds the layer;
 * committed values may also change by `with_data_modify` at any moment.
 */
module DraftClaims {
  import DraftSlots
  import opened Options

  datatype Layer<V> = Layer(claimed: bool, committed: V, draft: Option<V>)

  /** How far a transaction has come in its list of layers. */
  datatype Phase =
    | Claiming(ids: seq<nat>, next: nat)                      // `begin`, layers before `next` claimed
    | Unclaiming(ids: seq<nat>, next: nat, failed: nat)       // `begin` failed at `failed`, releasing
    | Active(ids: seq<nat>)
    | Applying(ids: seq<nat>, next: nat)                      // `commit`
    | Dropping(ids: seq<nat>, next: nat, committed: bool, discarded: bool)  // `drop`

  datatype State<V> = State(layers: map<nat, Layer<V>>, phases: map<nat, Phase>)

  datatype Step<V> =
    | Begin(t: nat, ids: seq<nat>)
    | TryClaim(t: nat)
    | Started(t: nat)
    | ReleaseClaimed(t: nat)
    | Refused(t: nat)
    | Edit(t: nat, l: nat, v: V)
    | Commit(t: nat)
    | ApplyNext(t: nat)
    | Abandon(t: nat)
    | DiscardNext(t: nat)
    | ReleaseNext(t: nat)
    | Ended(t: nat)
    | Modify(l: nat, v: V)

  /** The layers whose claim this transaction answers for. */
  ghost function Owned(p: Phase): seq<nat>
    requires Sound(p)
  {
    match p
    case Claiming(ids, next) => ids[..next]
    case Unclaiming(ids, next, failed) => ids[next..failed]
    case Active(ids) => ids
    case Applying(ids, next) => ids
    case Dropping(ids, next, _, _) => ids[next..]
  }

  ghost predicate Sound(p: Phase) {
    match p
    case Claiming(ids, next) => next <= |ids|
    case Unclaiming(ids, next, failed) => next <= failed < |ids|
    case Active(ids) => true
    case Applying(ids, next) => next <= |ids|
    case Dropping(ids, next, _, discarded) => next <= |ids| && (discarded ==> next < |ids|)
  }

  ghost predicate Distinct(ids: seq<nat>) {
    forall i, j :: 0 <= i < j < |ids| ==> ids[i] != ids[j]
  }

  /** Whether the holder may still have something in the draft slot of `l`. */
  ghost predicate MayHoldDraft(p: Phase, l: nat)
    requires Sound(p)
  {
    match p
    case Claiming(_, _) => false
    case Unclaiming(_, _, _) => false
    case Active(ids) => l in ids
    case Applying(ids, next) => l in ids[next..]
    case Dropping(ids, next, committed, discarded) =>
      !committed && l in if discarded then ids[next + 1..] else ids[next..]
  }

  ghost predicate Inside<V(!new)>(s: State<V>, p: Phase) {
    forall i :: 0 <= i < |p.ids| ==> p.ids[i] in s.layers
  }

  ghost predicate Enabled<V(!new)>(s: State<V>, step: Step<V>) {
    match step
    case Begin(t, ids) => t !in s.phases && Inside(s, Active(ids))
    case TryClaim(t) => t in s.phases && s.phases[t].Claiming? && s.phases[t].next < |s.phases[t].ids|
    case Started(t) => t in s.phases && s.phases[t].Claiming? && s.phases[t].next == |s.phases[t].ids|
    case ReleaseClaimed(t) => t in s.phases && s.phases[t].Unclaiming? && s.phases[t].next < s.phases[t].failed
    case Refused(t) => t in s.phases && s.phases[t].Unclaiming? && s.phases[t].next == s.phases[t].failed
    case Edit(t, l, _) => t in s.phases && s.phases[t].Active? && l in s.phases[t].ids
    case Commit(t) => t in s.phases && s.phases[t].Active?
    case ApplyNext(t) => t in s.phases && s.phases[t].Applying?
    case Abandon(t) => t in s.phases && s.phases[t].Active?
    case DiscardNext(t) => t in s.phases && s.phases[t].Dropping? && s.phases[t].next < |s.phases[t].ids|
                           && !s.phases[t].committed && !s.phases[t].discarded
    case ReleaseNext(t) => t in s.phases && s.phases[t].Dropping? && s.phases[t].next < |s.phases[t].ids|
                           && (s.phases[t].committed || s.phases[t].discarded)
    case Ended(t) => t in s.phases && s.phases[t].Dropping? && s.phases[t].next == |s.phases[t].ids|
    case Modify(l, _) => l in s.layers
  }

  ghost function To<V>(s: State<V>, t: nat, p: Phase): State<V> { s.(phases := s.phases[t := p]) }

  ghost function Put<V>(s: State<V>, l: nat, layer: Layer<V>): State<V> { s.(layers := s.layers[l := layer]) }

  /** `apply` on one layer. */
  ghost function AppliedLayer<V>(layer: Layer<V>): Layer<V> {
    if layer.draft.Some? then layer.(committed := layer.draft.value, draft := None) else layer
  }

  ghost function After<V(!new)>(s: State<V>, step: Step<V>): State<V>
    requires Inv(s) && Enabled(s, step)
  {
    match step
    case Begin(t, ids) => To(s, t, Claiming(ids, 0))
    case TryClaim(t) =>
      var p := s.phases[t];
      var l := p.ids[p.next];
      if s.layers[l].claimed then To(s, t, Unclaiming(p.ids, 0, p.next))
      else Put(To(s, t, Claiming(p.ids, p.next + 1)), l, s.layers[l].(claimed := true))
    case Started(t) => To(s, t, Active(s.phases[t].ids))
    case ReleaseClaimed(t) =>
      var p := s.phases[t];
      var l := p.ids[p.next];
      Put(To(s, t, Unclaiming(p.ids, p.next + 1, p.failed)), l, s.layers[l].(claimed := false))
    case Refused(t) => s.(phases := s.phases - {t})
    case Edit(t, l, v) => Put(s, l, s.layers[l].(draft := Some(v)))
    case Commit(t) => To(s, t, Applying(s.phases[t].ids, 0))
    case ApplyNext(t) =>
      var p := s.phases[t];
      if p.next == |p.ids| then To(s, t, Dropping(p.ids, 0, true, false))
      else Put(To(s, t, Applying(p.ids, p.next + 1)), p.ids[p.next], AppliedLayer(s.layers[p.ids[p.next]]))
    case Abandon(t) => To(s, t, Dropping(s.phases[t].ids, 0, false, false))
    case DiscardNext(t) =>
      var p := s.phases[t];
      var l := p.ids[p.next];
      Put(To(s, t, p.(discarded := true)), l, s.layers[l].(draft := None))
    case ReleaseNext(t) =>
      var p := s.phases[t];
      var l := p.ids[p.next];
      Put(To(s, t, Dropping(p.ids, p.next + 1, p.committed, false)), l, s.layers[l].(claimed := false))
    case Ended(t) => s.(phases := s.phases - {t})
    case Modify(l, v) => Put(s, l, s.layers[l].(committed := v))
  }

  /** What a layer shows of the two slots of its `Draft`. */
  ghost function LayerOf<V>(slots: DraftSlots.Slots<V>, claimed: bool): Layer<V>
    requires slots.Valid()
  {
    Layer(claimed, slots.ValueOf(DraftSlots.Committed),
          if DraftSlots.Drafted in slots.holds then Some(slots.ValueOf(DraftSlots.Drafted)) else None)
  }

  // The steps on layers are what the operations on the reference counted slots show.

  lemma EditOfLayer<V(!new)>(slots: DraftSlots.Slots<V>, claimed: bool, v: V, spare: DraftSlots.AllocId)
    requires slots.Valid() && spare !in slots.heap
    ensures slots.Edited(v, spare).Valid()
    ensures LayerOf(slots.Edited(v, spare), claimed) == LayerOf(slots, claimed).(draft := Some(v))
  {
    DraftSlots.EditedKeepsValid(slots, v, spare);
    assert DraftSlots.Keeps(slots, slots.Edited(v, spare), DraftSlots.Committed);
  }

  lemma ApplyOfLayer<V(!new)>(slots: DraftSlots.Slots<V>, claimed: bool)
    requires slots.Valid()
    ensures slots.Applied().Valid()
    ensures LayerOf(slots.Applied(), claimed) == AppliedLayer(LayerOf(slots, claimed))
  {
    DraftSlots.AppliedKeepsValid(slots);
  }

  lemma DiscardOfLayer<V(!new)>(slots: DraftSlots.Slots<V>, claimed: bool)
    requires slots.Valid()
    ensures slots.Discarded().Valid()
    ensures LayerOf(slots.Discarded(), claimed) == LayerOf(slots, claimed).(draft := None)
  {
    DraftSlots.DiscardedKeepsValid(slots);
    assert DraftSlots.Keeps(slots, slots.Discarded(), DraftSlots.Committed);
  }

  lemma ReplaceOfLayer<V(!new)>(slots: DraftSlots.Slots<V>, claimed: bool, v: V, spare: DraftSlots.AllocId)
    requires slots.Valid() && spare !in slots.heap
    ensures slots.Replaced(v, spare).Valid()
    ensures LayerOf(slots.Replaced(v, spare), claimed) == LayerOf(slots, claimed).(committed := v)
  {
    DraftSlots.ReplacedKeepsValid(slots, v, spare);
    if DraftSlots.Drafted in slots.holds {
      assert DraftSlots.Keeps(slots, slots.Replaced(v, spare), DraftSlots.Drafted);
    }
  }

  /** `t` answers for the claim of `l`. */
  ghost predicate Owns<V>(s: State<V>, t: nat, l: nat) {
    t in s.phases && Sound(s.phases[t]) && l in Owned(s.phases[t])
  }

  ghost predicate Shaped<V(!new)>(s: State<V>) {
    forall t :: t in s.phases ==> Sound(s.phases[t]) && Inside(s, s.phases[t]) && Distinct(Owned(s.phases[t]))
  }

  /** `t` may still have something in the draft slot of `l`. */
  ghost predicate Stages<V>(s: State<V>, t: nat, l: nat) {
    t in s.phases && Sound(s.phases[t]) && MayHoldDraft(s.phases[t], l)
  }

  /** Each claimed layer has exactly one owner and an unclaimed one has none. */
  ghost predicate Exclusive<V(!new)>(s: State<V>) {
    && (forall l :: l in s.layers && s.layers[l].claimed ==> exists t :: Owns(s, t, l))
    && (forall t, l :: Owns(s, t, l) ==> l in s.layers && s.layers[l].claimed)
    && (forall t, u, l :: Owns(s, t, l) && Owns(s, u, l) ==> t == u)
  }

  /** A draft exists only while its owner is at work on it. */
  ghost predicate DraftsAreOwned<V(!new)>(s: State<V>) {
    forall l :: l in s.layers && s.layers[l].draft.Some? ==> exists t :: Stages(s, t, l)
  }

  ghost predicate Inv<V(!new)>(s: State<V>) {
    Shaped(s) && Exclusive(s) && DraftsAreOwned(s)
  }

  // ----- The invariant is kept by every step -----

  /** The other transactions and the other layers stay as they are. */
  ghost predicate OnlyAt<V(!new)>(s: State<V>, s': State<V>, t: nat, l: nat) {
    && (forall u :: u != t ==> (u in s'.phases <==> u in s.phases))
    && (forall u :: u != t && u in s.phases ==> s'.phases[u] == s.phases[u])
    && s'.layers.Keys == s.layers.Keys
    && (forall k :: k in s.layers && k != l ==> s'.layers[k] == s.layers[k])
  }

  /** What follows from knowing how ownership moved at the one transaction and layer of a step. */
  lemma OwnersKept<V(!new)>(s: State<V>, s': State<V>, t: nat, l: nat)
    requires Exclusive(s) && DraftsAreOwned(s) && OnlyAt(s, s', t, l)
    requires forall k :: k != l ==> (Owns(s', t, k) <==> Owns(s, t, k))
    requires forall k :: k != l && Stages(s, t, k) ==> Stages(s', t, k)
    requires l in s'.layers ==> (s'.layers[l].claimed <==> exists u :: Owns(s', u, l))
    requires Owns(s', t, l) ==> l in s.layers && (Owns(s, t, l) || !s.layers[l].claimed)
    requires l in s'.layers && s'.layers[l].draft.Some? ==> exists u :: Stages(s', u, l)
    ensures Exclusive(s') && DraftsAreOwned(s')
  {
    assert forall u, k :: u != t ==> (Owns(s', u, k) <==> Owns(s, u, k));
    forall k | k in s'.layers && k != l
      ensures s'.layers[k].claimed ==> exists u :: Owns(s', u, k)
      ensures s'.layers[k].draft.Some? ==> exists u :: Stages(s', u, k)
    {
      if s'.layers[k].claimed {
        var u :| Owns(s, u, k);
        assert Owns(s', u, k);
      }
      if s'.layers[k].draft.Some? {
        var u :| Stages(s, u, k);
        assert Stages(s', u, k);
      }
    }
    forall u, k | Owns(s', u, k) ensures k in s'.layers && s'.layers[k].claimed {
      if k != l { assert Owns(s, u, k); }
    }
  }

  lemma StagesOwned<V(!new)>(s: State<V>, t: nat, l: nat)
    requires Stages(s, t, l)
    ensures Owns(s, t, l)
  {
  }

  lemma ShapedKept<V(!new)>(s: State<V>, s': State<V>, t: nat, l: nat)
    requires Shaped(s) && OnlyAt(s, s', t, l)
    requires t in s'.phases ==> Sound(s'.phases[t]) && Inside(s, s'.phases[t]) && Distinct(Owned(s'.phases[t]))
    ensures Shaped(s')
  {
    forall u | u in s'.phases ensures Inside(s', s'.phases[u]) {
      assert Inside(s, s'.phases[u]);
    }
  }

  /** A claim that succeeds: the layer was nobody's, its draft slot empty, and is now the claimer's alone. */
  lemma ClaimKeepsInv<V(!new)>(s: State<V>, t: nat)
    requires Inv(s) && Enabled(s, TryClaim(t)) && !s.layers[s.phases[t].ids[s.phases[t].next]].claimed
    ensures Inv(After(s, TryClaim(t)))
  {
    var p := s.phases[t];
    var l := p.ids[p.next];
    var s' := After(s, TryClaim(t));
    assert Owned(s'.phases[t]) == Owned(p) + [l];
    assert l !in Owned(p) by { if l in Owned(p) { assert Owns(s, t, l); } }
    assert OnlyAt(s, s', t, l);
    ShapedKept(s, s', t, l);
    assert Owns(s', t, l);
    assert forall k :: k != l ==> (Owns(s', t, k) <==> Owns(s, t, k));
    assert s.layers[l].draft.None? by {
      if u :| Stages(s, u, l) { StagesOwned(s, u, l); }
    }
    OwnersKept(s, s', t, l);
  }

  lemma FailedClaimKeepsInv<V(!new)>(s: State<V>, t: nat)
    requires Inv(s) && Enabled(s, TryClaim(t)) && s.layers[s.phases[t].ids[s.phases[t].next]].claimed
    ensures Inv(After(s, TryClaim(t)))
  {
    SameOwned(s, After(s, TryClaim(t)), t);
  }

  /** A step that changes neither claims nor what its transaction owns. */
  lemma SameOwned<V(!new)>(s: State<V>, s': State<V>, t: nat)
    requires Inv(s) && s'.layers == s.layers && s'.phases.Keys == s.phases.Keys
    requires forall u :: u != t && u in s.phases ==> s'.phases[u] == s.phases[u]
    requires t in s.phases && s'.phases[t].ids == s.phases[t].ids && Sound(s'.phases[t]) &&
        Owned(s'.phases[t]) == Owned(s.phases[t])
    requires forall k :: Stages(s, t, k) ==> Stages(s', t, k)
    ensures Inv(s')
  {
    forall u, k ensures Owns(s', u, k) <==> Owns(s, u, k) {
    }
    forall k | k in s'.layers && s'.layers[k].claimed ensures exists u :: Owns(s', u, k) {
      var u :| Owns(s, u, k);
      assert Owns(s', u, k);
    }
    forall k | k in s'.layers && s'.layers[k].draft.Some? ensures exists u :: Stages(s', u, k) {
      var u :| Stages(s, u, k);
      assert Stages(s', u, k);
    }
  }

  /** The phase a release leads to. */
  ghost function Released(p: Phase): Phase
    requires (p.Unclaiming? && p.next < p.failed) || (p.Dropping? && p.next < |p.ids|)
  {
    if p.Unclaiming? then Unclaiming(p.ids, p.next + 1, p.failed) else Dropping(p.ids, p.next + 1, p.committed, false)
  }

  /** A release gives up the first owned layer, whose draft slot is empty by then. */
  lemma ReleaseShrinks(p: Phase)
    requires Sound(p) && Distinct(Owned(p))
    requires (p.Unclaiming? && p.next < p.failed) || (p.Dropping? && p.next < |p.ids| && (p.committed || p.discarded))
    ensures Sound(Released(p)) && Owned(p) == [p.ids[p.next]] + Owned(Released(p))
    ensures Distinct(Owned(Released(p))) && p.ids[p.next] !in Owned(Released(p))
    ensures !MayHoldDraft(p, p.ids[p.next])
    ensures forall k :: MayHoldDraft(p, k) ==> MayHoldDraft(Released(p), k)
  {
    var rest := Owned(Released(p));
    assert Owned(p) == [p.ids[p.next]] + rest;
    forall i, j | 0 <= i < j < |rest| ensures rest[i] != rest[j] {
      assert Owned(p)[i + 1] != Owned(p)[j + 1];
    }
    forall j | 0 <= j < |rest| ensures rest[j] != p.ids[p.next] {
      assert Owned(p)[0] != Owned(p)[j + 1];
    }
  }

  /** Releasing the first owned layer: its claim goes with its ownership. */
  lemma ReleaseKeepsInv<V(!new)>(s: State<V>, step: Step<V>)
    requires Inv(s) && Enabled(s, step) && (step.ReleaseClaimed? || step.ReleaseNext?)
    ensures Inv(After(s, step))
  {
    var t := step.t;
    var p := s.phases[t];
    var l := p.ids[p.next];
    var s' := After(s, step);
    ReleaseShrinks(p);
    assert s' == Put(To(s, t, Released(p)), l, s.layers[l].(claimed := false));
    ReleasedInv(s, s', t, l);
  }

  lemma ReleasedInv<V(!new)>(s: State<V>, s': State<V>, t: nat, l: nat)
    requires Inv(s) && t in s.phases && t in s'.phases && l in s.layers
    requires OnlyAt(s, s', t, l) && s'.layers[l] == s.layers[l].(claimed := false)
    requires Sound(s'.phases[t]) && s'.phases[t].ids == s.phases[t].ids
    requires Owned(s.phases[t]) == [l] + Owned(s'.phases[t])
    requires Distinct(Owned(s'.phases[t])) && l !in Owned(s'.phases[t])
    requires !Stages(s, t, l) && forall k :: Stages(s, t, k) ==> Stages(s', t, k)
    ensures Inv(s')
  {
    ShapedKept(s, s', t, l);
    assert Owns(s, t, l);
    assert s.layers[l].draft.None? by {
      if u :| Stages(s, u, l) { StagesOwned(s, u, l); }
    }
    assert forall u :: u != t ==> (Owns(s', u, l) <==> Owns(s, u, l));
    OwnersKept(s, s', t, l);
  }

  /** Staging, applying or discarding one owned layer leaves every claim alone. */
  lemma LayerStepKeepsInv<V(!new)>(s: State<V>, s': State<V>, t: nat, l: nat)
    requires Inv(s) && t in s.phases && t in s'.phases && OnlyAt(s, s', t, l)
    requires Sound(s'.phases[t]) && s'.phases[t].ids == s.phases[t].ids && Owned(s'.phases[t]) == Owned(s.phases[t])
    requires l in Owned(s.phases[t]) && l in s.layers && s'.layers[l].claimed == s.layers[l].claimed
    requires s'.layers[l].draft.Some? ==> MayHoldDraft(s'.phases[t], l)
    requires forall k :: k != l && MayHoldDraft(s.phases[t], k) ==> MayHoldDraft(s'.phases[t], k)
    ensures Inv(s')
  {
    assert Owns(s, t, l) && Owns(s', t, l);
    assert s'.layers[l].draft.Some? ==> Stages(s', t, l);
    ShapedKept(s, s', t, l);
    OwnersKept(s, s', t, l);
  }

  lemma EditKeepsInv<V(!new)>(s: State<V>, t: nat, l: nat, v: V)
    requires Inv(s) && Enabled(s, Edit(t, l, v))
    ensures Inv(After(s, Edit(t, l, v)))
  {
    LayerStepKeepsInv(s, After(s, Edit(t, l, v)), t, l);
  }

  lemma ApplyNextKeepsInv<V(!new)>(s: State<V>, t: nat)
    requires Inv(s) && Enabled(s, ApplyNext(t)) && s.phases[t].next < |s.phases[t].ids|
    ensures Inv(After(s, ApplyNext(t)))
  {
    LayerStepKeepsInv(s, After(s, ApplyNext(t)), t, s.phases[t].ids[s.phases[t].next]);
  }

  lemma DiscardNextKeepsInv<V(!new)>(s: State<V>, t: nat)
    requires Inv(s) && Enabled(s, DiscardNext(t))
    ensures Inv(After(s, DiscardNext(t)))
  {
    LayerStepKeepsInv(s, After(s, DiscardNext(t)), t, s.phases[t].ids[s.phases[t].next]);
  }

  lemma StepKeepsInv<V(!new)>(s: State<V>, step: Step<V>)
    requires Inv(s) && Enabled(s, step)
    ensures Inv(After(s, step))
  {
    match step
    case Begin(t, ids) => BeginKeepsInv(s, t, ids);
    case TryClaim(t) =>
      if s.layers[s.phases[t].ids[s.phases[t].next]].claimed { FailedClaimKeepsInv(s, t); }
      else { ClaimKeepsInv(s, t); }
    case ReleaseClaimed(t) => ReleaseKeepsInv(s, step);
    case ReleaseNext(t) => ReleaseKeepsInv(s, step);
    case Edit(t, l, v) => EditKeepsInv(s, t, l, v);
    case DiscardNext(t) => DiscardNextKeepsInv(s, t);
    case ApplyNext(t) =>
      if s.phases[t].next < |s.phases[t].ids| { ApplyNextKeepsInv(s, t); } else { SameOwned(s, After(s, step), t); }
    case Started(t) => SameOwned(s, After(s, step), t);
    case Commit(t) => SameOwned(s, After(s, step), t);
    case Abandon(t) => SameOwned(s, After(s, step), t);
    case Refused(t) => EndKeepsInv(s, step);
    case Ended(t) => EndKeepsInv(s, step);
    case Modify(l, v) => ModifyKeepsInv(s, l, v);
  }

  lemma BeginKeepsInv<V(!new)>(s: State<V>, t: nat, ids: seq<nat>)
    requires Inv(s) && Enabled(s, Begin(t, ids))
    ensures Inv(After(s, Begin(t, ids)))
  {
    NothingOwned(s, After(s, Begin(t, ids)), t);
  }

  lemma EndKeepsInv<V(!new)>(s: State<V>, step: Step<V>)
    requires Inv(s) && Enabled(s, step) && (step.Refused? || step.Ended?)
    ensures Inv(After(s, step))
  {
    NothingOwned(s, After(s, step), step.t);
  }

  /** A transaction that owns nothing may come or go. */
  lemma NothingOwned<V(!new)>(s: State<V>, s': State<V>, t: nat)
    requires Inv(s) && s'.layers == s.layers
    requires forall u :: u != t ==> (u in s'.phases <==> u in s.phases)
    requires forall u :: u != t && u in s.phases ==> s'.phases[u] == s.phases[u]
    requires t in s.phases ==> Owned(s.phases[t]) == []
    requires t in s'.phases ==> Sound(s'.phases[t]) && Inside(s, s'.phases[t]) && Owned(s'.phases[t]) == []
    ensures Inv(s')
  {
    assert forall u | u in s'.phases :: Inside(s', s'.phases[u]) by {
      forall u | u in s'.phases ensures Inside(s', s'.phases[u]) { assert Inside(s, s'.phases[u]); }
    }
    forall u, k ensures Owns(s', u, k) <==> Owns(s, u, k) {
    }
    forall k | k in s'.layers && s'.layers[k].claimed ensures exists u :: Owns(s', u, k) {
      var u :| Owns(s, u, k);
      assert Owns(s', u, k);
    }
    forall k | k in s'.layers && s'.layers[k].draft.Some? ensures exists u :: Stages(s', u, k) {
      var u :| Stages(s, u, k);
      StagesOwned(s, u, k);
      assert Stages(s', u, k);
    }
  }

  lemma ModifyKeepsInv<V(!new)>(s: State<V>, l: nat, v: V)
    requires Inv(s) && Enabled(s, Modify(l, v))
    ensures Inv(After(s, Modify(l, v)))
  {
    var s' := After(s, Modify(l, v));
    forall u | u in s'.phases ensures Inside(s', s'.phases[u]) {
      assert Inside(s, s'.phases[u]);
    }
    forall u, k ensures (Owns(s', u, k) <==> Owns(s, u, k)) && (Stages(s', u, k) <==> Stages(s, u, k)) {
    }
    forall k | k in s'.layers && s'.layers[k].claimed ensures exists u :: Owns(s', u, k) {
      var u :| Owns(s, u, k);
      assert Owns(s', u, k);
    }
    forall k | k in s'.layers && s'.layers[k].draft.Some? ensures exists u :: Stages(s', u, k) {
      var u :| Stages(s, u, k);
      assert Stages(s', u, k);
    }
  }

  // ----- Whole runs -----

  ghost predicate Legal<V(!new)>(s: State<V>, steps: seq<Step<V>>)
    requires Inv(s)
    decreases |steps|
  {
    steps == [] || (Enabled(s, steps[0]) && (StepKeepsInv(s, steps[0]); Legal(After(s, steps[0]), steps[1..])))
  }

  ghost function Final<V(!new)>(s: State<V>, steps: seq<Step<V>>): State<V>
    requires Inv(s) && Legal(s, steps)
    decreases |steps|
  {
    if steps == [] then s else
      StepKeepsInv(s, steps[0]);
      Final(After(s, steps[0]), steps[1..])
  }

  /** Layers as they are created: unclaimed, nothing staged, no transaction under way. */
  ghost predicate Initial<V(!new)>(s: State<V>) {
    s.phases == map[] && forall l :: l in s.layers ==> !s.layers[l].claimed && s.layers[l].draft.None?
  }

  lemma {:induction false} RunKeepsInv<V(!new)>(s: State<V>, steps: seq<Step<V>>)
    requires Inv(s) && Legal(s, steps)
    ensures Inv(Final(s, steps))
    decreases |steps|
  {
    if steps != [] {
      StepKeepsInv(s, steps[0]);
      RunKeepsInv(After(s, steps[0]), steps[1..]);
    }
  }

  /** A claimed layer has one owner and only one, and an unclaimed layer an empty draft slot. */
  ghost predicate OneOwner<V(!new)>(s: State<V>, l: nat)
    requires l in s.layers
  {
    && (s.layers[l].claimed <==> exists t :: Owns(s, t, l))
    && (forall t, u :: Owns(s, t, l) && Owns(s, u, l) ==> t == u)
    && (!s.layers[l].claimed ==> s.layers[l].draft.None?)
  }

  /** Past `begin` no layer is listed twice; a refused transaction, or one with nothing left to drop, owns nothing. */
  ghost predicate Clean<V(!new)>(s: State<V>, t: nat)
    requires t in s.phases
  {
    && (s.phases[t].Active? || s.phases[t].Applying? ==> Distinct(s.phases[t].ids))
    && (Enabled(s, Refused(t)) || Enabled(s, Ended(t)) ==> forall l :: !Owns(s, t, l))
  }

  lemma InvMeansOneOwner<V(!new)>(s: State<V>, l: nat)
    requires Inv(s) && l in s.layers
    ensures OneOwner(s, l)
  {
    if s.layers[l].draft.Some? {
      var t :| Stages(s, t, l);
      StagesOwned(s, t, l);
    }
  }

  lemma InvMeansClean<V(!new)>(s: State<V>, t: nat)
    requires Inv(s) && t in s.phases
    ensures Clean(s, t)
  {
    assert Sound(s.phases[t]) && Distinct(Owned(s.phases[t]));
  }

  /** In every reachable state each layer has the owner its flag says, and each transaction is clean. */
  lemma EveryRun<V(!new)>(s: State<V>, steps: seq<Step<V>>)
    requires Initial(s) && (InitialIsInv(s); Legal(s, steps))
    ensures (InitialIsInv(s);
             var end := Final(s, steps);
             && (forall l :: l in end.layers ==> OneOwner(end, l))
             && (forall t :: t in end.phases ==> Clean(end, t))
             && (end.phases == map[] ==> Initial(end)))
  {
    InitialIsInv(s);
    RunKeepsInv(s, steps);
    var end := Final(s, steps);
    forall l | l in end.layers ensures OneOwner(end, l) {
      InvMeansOneOwner(end, l);
    }
    forall t | t in end.phases ensures Clean(end, t) {
      InvMeansClean(end, t);
    }
    if end.phases == map[] {
      NobodyOwns(end);
    }
  }

  lemma NobodyOwns<V(!new)>(s: State<V>)
    requires Inv(s) && s.phases == map[]
    ensures Initial(s)
  {
  }

  lemma InitialIsInv<V(!new)>(s: State<V>)
    requires Initial(s)
    ensures Inv(s)
  {
  }

  /** Only the owner's commit, or a `with_data_modify`, changes the committed value of a layer. */
  lemma CommittedChangesAreOwned<V(!new)>(s: State<V>, step: Step<V>, l: nat)
    requires Inv(s) && Enabled(s, step) && l in s.layers
    ensures l in After(s, step).layers
    ensures After(s, step).layers[l].committed == s.layers[l].committed
            || (step.Modify? && step.l == l)
            || (step.ApplyNext? && Owns(s, step.t, l))
  {
    if step.ApplyNext? && s.phases[step.t].next < |s.phases[step.t].ids|
       && l == s.phases[step.t].ids[s.phases[step.t].next]
    {
      assert l in Owned(s.phases[step.t]);
    }
  }

  ghost predicate Uncommitted(p: Phase) { p.Active? || (p.Dropping? && !p.committed) }

  lemma OthersKeepPhase<V(!new)>(s: State<V>, step: Step<V>, t: nat)
    requires Inv(s) && Enabled(s, step) && t in s.phases && (step.Modify? || step.t != t)
    ensures t in After(s, step).phases && After(s, step).phases[t] == s.phases[t]
  {
  }

  /** An uncommitted transaction only gives layers up. */
  lemma UncommittedShrinks<V(!new)>(s: State<V>, step: Step<V>, t: nat, l: nat)
    requires Inv(s) && Enabled(s, step) && t in s.phases && Uncommitted(s.phases[t])
    requires step != Commit(t) && step != Ended(t)
    ensures t in After(s, step).phases && Uncommitted(After(s, step).phases[t])
    ensures Owns(After(s, step), t, l) ==> Owns(s, t, l)
  {
    if step.Modify? || step.t != t {
      OthersKeepPhase(s, step, t);
    } else if step.ReleaseNext? {
      ReleaseShrinks(s.phases[t]);
    }
  }

  lemma UncommittedStep<V(!new)>(s: State<V>, step: Step<V>, t: nat, l: nat)
    requires Inv(s) && Enabled(s, step) && t in s.phases && Uncommitted(s.phases[t])
    requires step != Commit(t) && step != Ended(t) && !(step.Modify? && step.l == l)
    ensures Inv(After(s, step)) && t in After(s, step).phases && Uncommitted(After(s, step).phases[t])
    ensures Owns(After(s, step), t, l) ==>
      Owns(s, t, l) && l in s.layers && l in After(s, step).layers
      && After(s, step).layers[l].committed == s.layers[l].committed
  {
    StepKeepsInv(s, step);
    UncommittedShrinks(s, step, t, l);
    if Owns(s, t, l) {
      CommittedChangesAreOwned(s, step, l);
    }
  }

  /**
   * Rollback over any interleaving: until a transaction that does not commit gives a layer up, nobody
   * else's commit reaches that layer, so it is given up with the committed value it was claimed with.
   */
  lemma {:induction false} RollbackKeepsCommitted<V(!new)>(s: State<V>, steps: seq<Step<V>>, t: nat, l: nat)
    requires Inv(s) && Legal(s, steps) && t in s.phases && Uncommitted(s.phases[t])
    requires Commit(t) !in steps && Ended(t) !in steps
    requires forall i :: 0 <= i < |steps| ==> !(steps[i].Modify? && steps[i].l == l)
    ensures Owns(Final(s, steps), t, l) ==>
      && Owns(s, t, l)
      && l in s.layers
      && l in Final(s, steps).layers
      && Final(s, steps).layers[l].committed == s.layers[l].committed
    decreases |steps|
  {
    if steps == [] {
      if Owns(s, t, l) {
        assert l in s.layers;
      }
    } else {
      assert steps[0] in steps;
      UncommittedStep(s, steps[0], t, l);
      RollbackKeepsCommitted(After(s, steps[0]), steps[1..], t, l);
    }
  }

  /** A claim succeeds exactly when the layer has no owner, and else makes its transaction give up. */
  lemma ClaimSucceedsIff<V(!new)>(s: State<V>, t: nat)
    requires Inv(s) && Enabled(s, TryClaim(t))
    ensures var l := s.phases[t].ids[s.phases[t].next];
            var s' := After(s, TryClaim(t));
            && l in s.layers
            && (s'.phases[t].Claiming? && Owns(s', t, l) <==> forall u :: !Owns(s, u, l))
            && (!s'.phases[t].Claiming? ==> s'.phases[t].Unclaiming? && s'.layers == s.layers)
  {
    var p := s.phases[t];
    assert p.ids[p.next] in s.layers;
    assert p.ids[..p.next + 1][p.next] == p.ids[p.next];
  }

  /** `step` acts, for its transaction, on layer `l`. */
  ghost predicate Reaches<V(!new)>(s: State<V>, step: Step<V>, l: nat) {
    !step.Modify? && step.t in s.phases && !s.phases[step.t].Active? &&
    s.phases[step.t].next < |s.phases[step.t].ids| && l == s.phases[step.t].ids[s.phases[step.t].next]
  }

  /** All that ever happens to what a layer holds. */
  lemma StepOnLayer<V(!new)>(s: State<V>, step: Step<V>, l: nat)
    requires Inv(s) && Enabled(s, step) && l in s.layers
    ensures l in After(s, step).layers
    ensures var was, now := s.layers[l], After(s, step).layers[l];
            && now.committed ==
                 (if step.Modify? && step.l == l then step.v
                  else if step.ApplyNext? && Reaches(s, step, l) && was.draft.Some? then was.draft.value
                  else was.committed)
            && now.draft ==
                 (if step.Edit? && step.l == l then Some(step.v)
                  else if (step.ApplyNext? || step.DiscardNext?) && Reaches(s, step, l) then None
                  else was.draft)
  {
  }

  /** How many steps a transaction can still take, edits apart. */
  ghost function Ahead(p: Phase): nat
    requires Sound(p)
  {
    match p
    case Claiming(ids, next) => |ids| - next + 2 * |ids| + 4
    case Unclaiming(ids, next, failed) => failed - next + 1
    case Active(ids) => 2 * |ids| + 3
    case Applying(ids, next) => |ids| - next + |ids| + 2
    case Dropping(ids, next, committed, discarded) =>
      if committed then |ids| - next + 1 else 2 * (|ids| - next) + if discarded then 0 else 1
  }

  ghost function LeftToDo<V(!new)>(s: State<V>, t: nat): nat
    requires Inv(s)
  {
    if t in s.phases then Ahead(s.phases[t]) else 0
  }

  /** The step is one of `t`, and not an edit. */
  ghost predicate Advances<V>(step: Step<V>, t: nat) { !step.Modify? && !step.Edit? && step.t == t }

  /**
   * No transaction waits for another: while it is under way it has a step to take, and of these it takes at
   * most three for each layer and four more.
   */
  lemma TransactionsEnd<V(!new)>(s: State<V>, step: Step<V>, t: nat)
    requires Inv(s)
    ensures t in s.phases ==> exists next: Step<V> :: Enabled(s, next) && Advances(next, t)
    ensures Enabled(s, step) && Advances(step, t) ==>
        (StepKeepsInv(s, step);
         LeftToDo(After(s, step), t) < if step.Begin? then 3 * |step.ids| + 5 else LeftToDo(s, t))
  {
    if t in s.phases {
      SomeStepIsLeft(s, t);
    }
    if Enabled(s, step) && Advances(step, t) {
      StepKeepsInv(s, step);
    }
  }

  lemma SomeStepIsLeft<V(!new)>(s: State<V>, t: nat)
    requires Inv(s) && t in s.phases
    ensures exists next: Step<V> :: Enabled(s, next) && Advances(next, t)
  {
    var p := s.phases[t];
    assert Sound(p);
    var next: Step<V> :=
      match p
      case Claiming(ids, n) => if n < |ids| then TryClaim(t) else Started(t)
      case Unclaiming(_, n, failed) => if n < failed then ReleaseClaimed(t) else Refused(t)
      case Active(_) => Commit(t)
      case Applying(_, _) => ApplyNext(t)
      case Dropping(ids, n, committed, discarded) =>
        if n == |ids| then Ended(t) else if committed || discarded then ReleaseNext(t) else DiscardNext(t);
    assert Enabled(s, next) && Advances(next, t);
  }

  // ----- What a commit brings about -----

  /** While `t` answers for a layer, nobody else changes its draft, nor its committed value but by a modification. */
  lemma OthersLeaveLayer<V(!new)>(s: State<V>, step: Step<V>, t: nat, l: nat)
    requires Inv(s) && Enabled(s, step) && Owns(s, t, l)
    requires if step.Modify? then step.l != l else step.t != t
    ensures l in s.layers && l in After(s, step).layers
    ensures After(s, step).layers[l] == s.layers[l]
  {
    if !step.Modify? && step.t in s.phases {
      assert Sound(s.phases[step.t]) && !Owns(s, step.t, l);
    }
  }

  /** On its way from an active transaction to the committed slot: `v` is staged, or already committed. */
  ghost predicate Carries<V(!new)>(s: State<V>, t: nat, l: nat, v: V) {
    && t in s.phases
    && l in s.layers
    && match s.phases[t]
       case Active(ids) => l in ids && s.layers[l].draft == Some(v)
       case Applying(ids, next) =>
         && next <= |ids|
         && l in ids
         && (l in ids[next..] ==> s.layers[l].draft == Some(v))
         && (l !in ids[next..] ==> s.layers[l].committed == v)
       case Dropping(ids, next, committed, _) =>
         committed && next <= |ids| && (l in ids[next..] ==> s.layers[l].committed == v)
       case _ => false
  }

  lemma CarriedOwned<V(!new)>(s: State<V>, t: nat, l: nat, v: V)
    requires Inv(s) && Carries(s, t, l, v)
    ensures Owns(s, t, l) || (s.phases[t].Dropping? && l !in s.phases[t].ids[s.phases[t].next..])
  {
  }

  lemma OthersCarry<V(!new)>(s: State<V>, step: Step<V>, t: nat, l: nat, v: V)
    requires Inv(s) && Enabled(s, step) && Carries(s, t, l, v)
    requires if step.Modify? then step.l != l else step.t != t
    ensures Carries(After(s, step), t, l, v)
  {
    OthersKeepPhase(s, step, t);
    CarriedOwned(s, t, l, v);
    if Owns(s, t, l) {
      OthersLeaveLayer(s, step, t, l);
    }
  }

  lemma TailAfter(ids: seq<nat>, next: nat, l: nat)
    requires next < |ids| && Distinct(ids)
    ensures l in ids[next..] <==> l == ids[next] || l in ids[next + 1..]
    ensures ids[next] !in ids[next + 1..]
  {
    assert ids[next..] == [ids[next]] + ids[next + 1..];
  }

  lemma ApplyCarries<V(!new)>(s: State<V>, t: nat, l: nat, v: V)
    requires Inv(s) && Enabled(s, ApplyNext(t)) && Carries(s, t, l, v)
    ensures Carries(After(s, ApplyNext(t)), t, l, v)
  {
    var p := s.phases[t];
    if p.next < |p.ids| {
      TailAfter(p.ids, p.next, l);
    } else {
      assert l !in p.ids[p.next..];
    }
  }

  lemma OwnStepCarries<V(!new)>(s: State<V>, step: Step<V>, t: nat, l: nat, v: V)
    requires Inv(s) && Enabled(s, step) && Carries(s, t, l, v)
    requires !step.Modify? && step.t == t && step != Abandon(t) && step != Ended(t) && !(step.Edit? && step.l == l)
    ensures Carries(After(s, step), t, l, v)
  {
    if step.ApplyNext? {
      ApplyCarries(s, t, l, v);
    } else if step.Commit? {
      assert s.phases[t].ids[0..] == s.phases[t].ids;
    } else if step.ReleaseNext? {
      var ids, next := s.phases[t].ids, s.phases[t].next;
      assert ids[next..] == [ids[next]] + ids[next + 1..];
    }
  }

  /** What a transaction does not do any more before its commit has arrived, and nobody does to the layer. */
  ghost predicate Undisturbed<V(!new)>(step: Step<V>, t: nat, l: nat) {
    && step != Abandon(t)
    && step != Ended(t)
    && !(step.Edit? && step.t == t && step.l == l)
    && !(step.Modify? && step.l == l)
  }

  lemma {:induction false} RunCarries<V(!new)>(s: State<V>, steps: seq<Step<V>>, t: nat, l: nat, v: V)
    requires Inv(s) && Legal(s, steps) && Carries(s, t, l, v)
    requires forall i :: 0 <= i < |steps| ==> Undisturbed(steps[i], t, l)
    ensures Inv(Final(s, steps)) && Carries(Final(s, steps), t, l, v)
    decreases |steps|
  {
    if steps != [] {
      StepKeepsInv(s, steps[0]);
      assert Undisturbed(steps[0], t, l);
      if !steps[0].Modify? && steps[0].t == t { OwnStepCarries(s, steps[0], t, l, v); }
      else { OthersCarry(s, steps[0], t, l, v); }
      RunCarries(After(s, steps[0]), steps[1..], t, l, v);
    }
  }

  /**
   * Whatever the other transactions do: when a transaction that commits comes to release a layer, the value it
   * edited last there is the committed one, and until then is what the layer has staged.
   */
  lemma CommitArrives<V(!new)>(s: State<V>, v: V, steps: seq<Step<V>>, t: nat, l: nat)
    requires Inv(s) && Enabled(s, Edit(t, l, v))
    requires (StepKeepsInv(s, Edit(t, l, v)); Legal(After(s, Edit(t, l, v)), steps))
    requires forall i :: 0 <= i < |steps| ==> Undisturbed(steps[i], t, l)
    ensures (StepKeepsInv(s, Edit(t, l, v));
             var end := Final(After(s, Edit(t, l, v)), steps);
             && t in end.phases && l in end.layers
             && (end.phases[t].Active? ==> end.layers[l].draft == Some(v))
             && (end.phases[t].Dropping? && Owns(end, t, l) ==> end.layers[l].committed == v))
  {
    StepKeepsInv(s, Edit(t, l, v));
    RunCarries(After(s, Edit(t, l, v)), steps, t, l, v);
  }
}

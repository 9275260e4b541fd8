/**
 * The two data slots of one `Draft<T>`.
 *
 * Every `Arc` is a holder of an allocation. An allocation lives exactly as long as it has a holder,
 * and the allocator may hand out the identifier of a freed allocation again, so `Arc::ptr_eq`
 * (equal identifiers) and `Arc::make_mut` (in place only without a second holder) keep their meaning.
 */
module DraftSlots {
  type AllocId = nat

  /** Who owns one `Arc`: a slot, the `draft_arc` local of `edit_draft`, a caller, or `original_arc` of a task. */
  datatype Holder = Committed | Drafted | Local | Reader(reader: nat) | Task(task: nat)

  datatype Slots<V> = Slots(heap: map<AllocId, V>, holds: map<Holder, AllocId>) {
    /** Every holder points at a live allocation and every live allocation has a holder. */
    ghost predicate Counted() {
      && (forall h :: h in holds ==> holds[h] in heap)
      && (forall id :: id in heap ==> exists h :: h in holds && holds[h] == id)
    }

    /** No other holder points where `h` points. */
    ghost predicate Unshared(h: Holder)
      requires h in holds
    {
      forall other :: other in holds && other != h ==> holds[other] != holds[h]
    }

    /** The shape between two critical sections: the draft shares with neither the committed slot nor a task. */
    ghost predicate Valid() {
      && Counted()
      && Committed in holds
      && Local !in holds
      && (Drafted in holds ==> forall h :: h in holds && (h.Committed? || h.Task?) ==> holds[h] != holds[Drafted])
    }

    ghost function ValueOf(h: Holder): V
      requires h in holds && holds[h] in heap
    {
      heap[holds[h]]
    }

    /** The value `latest_arc` shows. */
    ghost function Latest(): V
      requires Valid()
    {
      if Drafted in holds then ValueOf(Drafted) else ValueOf(Committed)
    }

    /** Frees what nobody holds. */
    ghost function Collected(): Slots<V> {
      this.(heap := map id | id in heap && (exists h :: h in holds && holds[h] == id) :: heap[id])
    }

    ghost function Sharing(from: Holder, to: Holder): Slots<V>
      requires from in holds
    {
      this.(holds := holds[to := holds[from]])
    }

    ghost function Without(h: Holder): Slots<V> {
      this.(holds := holds - {h}).Collected()
    }

    /** `edit_draft` whose closure leaves `v`, with `spare` the allocator's answer if it is asked. */
    ghost function Edited(v: V, spare: AllocId): Slots<V> {
      if Drafted in holds && Unshared(Drafted)
      then this.(heap := heap[holds[Drafted] := v])
      else Slots(heap[spare := v], holds[Drafted := spare])
    }

    /** `apply`. */
    ghost function Applied(): Slots<V> {
      if Drafted in holds
      then this.(holds := (holds - {Drafted})[Committed := holds[Drafted]]).Collected()
      else this
    }

    /** `discard`. */
    ghost function Discarded(): Slots<V> { Without(Drafted) }

    /** `guard.0 = Arc::new(..)`. */
    ghost function Replaced(v: V, spare: AllocId): Slots<V> {
      Slots(heap[spare := v], holds[Committed := spare]).Collected()
    }
  }

  /** `h` still holds the same allocation and still reads the same value. */
  ghost predicate Keeps<V(!new)>(s: Slots<V>, t: Slots<V>, h: Holder) {
    h in s.holds && h in t.holds && t.holds[h] == s.holds[h]
    && s.holds[h] in s.heap && s.holds[h] in t.heap && t.heap[s.holds[h]] == s.heap[s.holds[h]]
  }

  lemma CollectedIsCounted<V(!new)>(s: Slots<V>)
    requires forall h :: h in s.holds ==> s.holds[h] in s.heap
    ensures s.Collected().Counted() && s.Collected().holds == s.holds
    ensures forall h :: h in s.holds ==> Keeps(s, s.Collected(), h)
  {
    var t := s.Collected();
    forall h | h in s.holds ensures s.holds[h] in t.heap && t.heap[s.holds[h]] == s.heap[s.holds[h]] {
      assert exists k :: k in s.holds && s.holds[k] == s.holds[h];
    }
    forall id | id in t.heap ensures exists h :: h in t.holds && t.holds[h] == id {
    }
  }

  lemma SharingKeepsValid<V(!new)>(s: Slots<V>, from: Holder, to: Holder)
    requires s.Valid() && from in s.holds && to !in s.holds
    requires to.Reader? || (to.Task? && from.Committed?)
    ensures s.Sharing(from, to).Valid()
    ensures s.Sharing(from, to).ValueOf(to) == s.ValueOf(from)
    ensures forall h :: h in s.holds ==> Keeps(s, s.Sharing(from, to), h)
  {
    var t := s.Sharing(from, to);
    forall id | id in t.heap ensures exists h :: h in t.holds && t.holds[h] == id {
      var h :| h in s.holds && s.holds[h] == id;
      assert h in t.holds && t.holds[h] == id;
    }
  }

  lemma WithoutKeepsValid<V(!new)>(s: Slots<V>, gone: Holder)
    requires s.Valid() && gone != Committed
    ensures s.Without(gone).Valid() && s.Without(gone).holds == s.holds - {gone}
    ensures forall h :: h in s.holds && h != gone ==> Keeps(s, s.Without(gone), h)
  {
    var m := s.(holds := s.holds - {gone});
    CollectedIsCounted(m);
    var t := s.Without(gone);
    forall h | h in s.holds && h != gone ensures Keeps(s, t, h) {
      assert Keeps(m, t, h);
    }
  }

  /**
   * `edit_draft` mutates in place or allocates; either way only the draft slot reads differently.
   * `spare` need only be unused at this moment: it may be a recycled identifier.
   */
  lemma EditedKeepsValid<V(!new)>(s: Slots<V>, v: V, spare: AllocId)
    requires s.Valid() && spare !in s.heap
    ensures s.Edited(v, spare).Valid()
    ensures s.Edited(v, spare).Latest() == v
    ensures forall h :: h in s.holds && h != Drafted ==> Keeps(s, s.Edited(v, spare), h)
    ensures s.Edited(v, spare).holds.Keys == s.holds.Keys + {Drafted}
  {
    var t := s.Edited(v, spare);
    assert Drafted in t.holds;
    forall id | id in t.heap ensures exists h :: h in t.holds && t.holds[h] == id {
      if id == t.holds[Drafted] {
      } else {
        var h :| h in s.holds && s.holds[h] == id;
        if h == Drafted {
          var other :| other in s.holds && other != Drafted && s.holds[other] == s.holds[Drafted];
          assert other in t.holds && t.holds[other] == id;
        } else {
          assert h in t.holds && t.holds[h] == id;
        }
      }
    }
  }

  lemma AppliedKeepsValid<V(!new)>(s: Slots<V>)
    requires s.Valid()
    ensures s.Applied().Valid() && Drafted !in s.Applied().holds
    ensures s.Applied().ValueOf(Committed) == s.Latest()
    ensures forall h :: h in s.holds && (h.Reader? || h.Task?) ==> Keeps(s, s.Applied(), h)
    ensures s.Applied().holds.Keys == s.holds.Keys - {Drafted}
    ensures Drafted in s.holds ==> s.Applied().holds[Committed] == s.holds[Drafted]
  {
    if Drafted in s.holds {
      var m := s.(holds := (s.holds - {Drafted})[Committed := s.holds[Drafted]]);
      CollectedIsCounted(m);
      forall h | h in s.holds && (h.Reader? || h.Task?) ensures Keeps(s, s.Applied(), h) {
        assert Keeps(m, s.Applied(), h);
      }
      assert Keeps(m, s.Applied(), Committed);
    }
  }

  lemma DiscardedKeepsValid<V(!new)>(s: Slots<V>)
    requires s.Valid()
    ensures s.Discarded().Valid() && Drafted !in s.Discarded().holds
    ensures s.Discarded().Latest() == s.ValueOf(Committed)
    ensures forall h :: h in s.holds && h != Drafted ==> Keeps(s, s.Discarded(), h)
  {
    WithoutKeepsValid(s, Drafted);
    assert Keeps(s, s.Discarded(), Committed);
  }

  lemma ReplacedKeepsValid<V(!new)>(s: Slots<V>, v: V, spare: AllocId)
    requires s.Valid() && spare !in s.heap
    ensures s.Replaced(v, spare).Valid()
    ensures s.Replaced(v, spare).ValueOf(Committed) == v
    ensures s.Replaced(v, spare).holds == s.holds[Committed := spare]
    ensures forall h :: h in s.holds && h != Committed ==> Keeps(s, s.Replaced(v, spare), h)
  {
    var m := Slots(s.heap[spare := v], s.holds[Committed := spare]);
    CollectedIsCounted(m);
    var t := s.Replaced(v, spare);
    assert Keeps(m, t, Committed);
    forall h | h in s.holds && h != Committed ensures Keeps(s, t, h) {
      assert Keeps(m, t, h);
    }
  }
}

/**
 * `Draft<T>`: each method is one critical section of the `data` mutex, written over the reference
 * counted allocations and proved equal to the corresponding step on `Slots`.
 */
module DraftStore {
  import opened DraftSlots

  /** One reference to `id` was dropped: its allocation goes when `holds` has no other. */
  function Freed<V>(heap: map<AllocId, V>, holds: map<Holder, AllocId>, id: AllocId): map<AllocId, V> {
    if exists h :: h in holds && holds[h] == id then heap else heap - {id}
  }

  /** Reference counting: freeing `id` when its last holder is gone leaves exactly the collected heap. */
  lemma FreeingCollects<V(!new)>(was: Slots<V>, gone: Holder, now: Slots<V>)
    requires was.Counted() && gone in was.holds && now.heap == was.heap
    requires forall h :: h in was.holds && h != gone ==>
        was.holds[h] in now.holds.Values || was.holds[h] == was.holds[gone]
    requires forall h :: h in now.holds ==> now.holds[h] in was.heap
    ensures now.Collected().heap == Freed(was.heap, now.holds, was.holds[gone])
  {
    var id := was.holds[gone];
    forall i | i in was.heap && i != id ensures exists h :: h in now.holds && now.holds[h] == i {
      var h :| h in was.holds && was.holds[h] == i;
      assert was.holds[h] in now.holds.Values;
    }
  }

  /** `apply` moves the draft's `Arc` over the committed one and frees the latter if that was its last holder. */
  lemma ApplyFrees<V(!new)>(was: Slots<V>)
    requires was.Valid() && Drafted in was.holds
    ensures var holds := (was.holds - {Drafted})[Committed := was.holds[Drafted]];
            was.Applied() == Slots(Freed(was.heap, holds, was.holds[Committed]), holds)
  {
    var now := was.(holds := (was.holds - {Drafted})[Committed := was.holds[Drafted]]);
    forall k | k in was.holds && k != Committed ensures was.holds[k] in now.holds.Values {
      var j := if k == Drafted then Committed else k;
      assert j in now.holds && now.holds[j] == was.holds[k];
    }
    FreeingCollects(was, Committed, now);
  }

  /** What `edit_draft` holds after taking the draft, or cloning the committed `Arc` when there is none. */
  ghost function Taken<V>(was: Slots<V>): Slots<V>
    requires Committed in was.holds
  {
    was.(holds := if Drafted in was.holds then (was.holds - {Drafted})[Local := was.holds[Drafted]]
                  else was.holds[Local := was.holds[Committed]])
  }

  /** What `Arc::make_mut` leaves: a private copy unless the `Arc` already was the only one. */
  ghost function MadeMut<V(!new)>(s: Slots<V>, spare: AllocId): Slots<V>
    requires Local in s.holds && s.holds[Local] in s.heap
  {
    if s.Unshared(Local) then s else Slots(s.heap[spare := s.heap[s.holds[Local]]], s.holds[Local := spare])
  }

  /** Take, copy on write, overwrite, put back: together the one-step edit. */
  lemma EditComposes<V(!new)>(was: Slots<V>, v: V, spare: AllocId)
    requires was.Valid() && spare !in was.heap
    ensures Local in MadeMut(Taken(was), spare).holds
    ensures MadeMut(Taken(was), spare).holds[Local] in MadeMut(Taken(was), spare).heap
    ensures MadeMut(Taken(was), spare).heap[MadeMut(Taken(was), spare).holds[Local]] == was.Latest()
    ensures var m := MadeMut(Taken(was), spare);
            Slots(m.heap[m.holds[Local] := v], (m.holds - {Local})[Drafted := m.holds[Local]]) == was.Edited(v, spare)
  {
    var taken := Taken(was);
    var m := MadeMut(taken, spare);
    if Drafted in was.holds {
      if was.Unshared(Drafted) {
        assert taken.Unshared(Local);
        assert (m.holds - {Local})[Drafted := m.holds[Local]] == was.holds;
      } else {
        var other :| other in was.holds && other != Drafted && was.holds[other] == was.holds[Drafted];
        assert other in taken.holds && other != Local && taken.holds[other] == taken.holds[Local];
        assert (m.holds - {Local})[Drafted := spare] == was.holds[Drafted := spare];
      }
    } else {
      assert Committed in taken.holds && taken.holds[Committed] == taken.holds[Local];
      assert (m.holds - {Local})[Drafted := spare] == was.holds[Drafted := spare];
    }
  }

  class Draft<V(!new)> {
    var heap: map<AllocId, V>
    var holds: map<Holder, AllocId>
    var claimed: bool

    ghost function View(): Slots<V>
      reads this
    {
      Slots(heap, holds)
    }

    ghost predicate Valid()
      reads this
    {
      View().Valid()
    }

    constructor (data: V, spare: AllocId)
      ensures Valid() && !claimed
      ensures holds == map[Committed := spare] && View().ValueOf(Committed) == data
    {
      heap := map[spare := data];
      holds := map[Committed := spare];
      claimed := false;
      new;
      assert holds[Committed] == spare;
    }

    /** Drops one `Arc`, freeing its allocation with the last holder. */
    method DropArc(h: Holder)
      requires View().Counted() && h in holds
      modifies this`heap, this`holds
      ensures View() == old(View()).Without(h)
    {
      ghost var was := View();
      ghost var now := was.(holds := was.holds - {h});
      forall k | k in was.holds && k != h ensures was.holds[k] in now.holds.Values {
        assert k in now.holds && now.holds[k] == was.holds[k];
      }
      FreeingCollects(was, h, now);
      var id := holds[h];
      holds := holds - {h};
      heap := Freed(heap, holds, id);
    }

    /** `data_arc`: the caller holds the committed allocation from now on. */
    method DataArc(reader: nat) returns (value: V)
      requires Valid() && Reader(reader) !in holds
      modifies this`holds
      ensures View() == old(View()).Sharing(Committed, Reader(reader))
      ensures value == old(View()).ValueOf(Committed)
    {
      holds := holds[Reader(reader) := holds[Committed]];
      value := heap[holds[Reader(reader)]];
    }

    /** `latest_arc`: the draft's allocation when there is one. */
    method LatestArc(reader: nat) returns (value: V)
      requires Valid() && Reader(reader) !in holds
      modifies this`holds
      ensures View() == old(View()).Sharing(if Drafted in old(holds) then Drafted else Committed, Reader(reader))
      ensures value == old(View()).Latest()
    {
      var from := if Drafted in holds then Drafted else Committed;
      holds := holds[Reader(reader) := holds[from]];
      value := heap[holds[Reader(reader)]];
    }

    /** `guard.1.take().unwrap_or_else(|| Arc::clone(&guard.0))`, into the local `draft_arc`. */
    method TakeDraft()
      requires Committed in holds
      modifies this`holds
      ensures View() == Taken(old(View()))
    {
      if Drafted in holds {
        holds := (holds - {Drafted})[Local := holds[Drafted]];
      } else {
        holds := holds[Local := holds[Committed]];
      }
    }

    /** `Arc::make_mut` on the local `Arc`: a copy is made exactly when another holder exists. */
    method MakeMut(spare: AllocId)
      requires Local in holds && holds[Local] in heap && spare !in heap
      modifies this`heap, this`holds
      ensures View() == MadeMut(old(View()), spare)
      ensures var shared :=
                exists other :: other in old(holds) && other != Local && old(holds)[other] == old(holds)[Local];
              && holds == (if shared then old(holds)[Local := spare] else old(holds))
              && heap == if shared then old(heap)[spare := old(heap)[old(holds)[Local]]] else old(heap)
    {
      if exists other :: other in holds && other != Local && holds[other] == holds[Local] {
        heap := heap[spare := heap[holds[Local]]];
        holds := holds[Local := spare];
      }
    }

    /** The closure's changes through the private `Arc`, which then becomes the draft. */
    method PutBack(v: V)
      requires Local in holds
      modifies this`heap, this`holds
      ensures View() == Slots(old(heap)[old(holds)[Local] := v], (old(holds) - {Local})[Drafted := old(holds)[Local]])
    {
      heap := heap[holds[Local] := v];
      holds := (holds - {Local})[Drafted := holds[Local]];
    }

    /** `edit_draft`: take or clone, `make_mut`, run the closure, put back. */
    method EditDraft<R>(f: V -> (V, R), spare: AllocId) returns (result: R)
      requires Valid() && spare !in heap
      modifies this`heap, this`holds
      ensures Valid()
      ensures View() == old(View()).Edited(f(old(View()).Latest()).0, spare)
      ensures result == f(old(View()).Latest()).1
    {
      ghost var was := View();
      TakeDraft();
      EditComposes(was, f(was.Latest()).0, spare);
      MakeMut(spare);
      var (v, r) := f(heap[holds[Local]]);
      PutBack(v);
      EditedKeepsValid(was, v, spare);
      result := r;
    }

    /** `apply`. */
    method Apply()
      requires Valid()
      modifies this`heap, this`holds
      ensures Valid() && View() == old(View()).Applied()
    {
      ghost var was := View();
      AppliedKeepsValid(was);
      if Drafted in holds {
        ApplyFrees(was);
        var id := holds[Committed];
        holds := (holds - {Drafted})[Committed := holds[Drafted]];
        heap := Freed(heap, holds, id);
      }
    }

    /** `discard`. */
    method Discard()
      requires Valid()
      modifies this`heap, this`holds
      ensures Valid() && View() == old(View()).Discarded()
    {
      ghost var was := View();
      DiscardedKeepsValid(was);
      if Drafted in holds {
        DropArc(Drafted);
      } else {
        assert holds - {Drafted} == holds;
        assert was.Discarded().heap == was.heap;
      }
    }

    /** First half of `with_data_modify`: hold the committed `Arc` and copy its value. */
    method BeginModify(task: nat) returns (local: V)
      requires Valid() && Task(task) !in holds
      modifies this`holds
      ensures Valid()
      ensures View() == old(View()).Sharing(Committed, Task(task))
      ensures local == old(View()).ValueOf(Committed)
    {
      SharingKeepsValid(View(), Committed, Task(task));
      holds := holds[Task(task) := holds[Committed]];
      local := heap[holds[Task(task)]];
    }

    /** Second half: commit only over the very allocation the edit started from, then drop `original_arc`. */
    method FinishModify(task: nat, newLocal: V, spare: AllocId) returns (ok: bool)
      requires Valid() && Task(task) in holds && spare !in heap
      modifies this`heap, this`holds
      ensures Valid()
      ensures ok <==> old(holds[Committed] == holds[Task(task)])
      ensures ok ==> View() == old(View()).Replaced(newLocal, spare).Without(Task(task))
      ensures !ok ==> View() == old(View()).Without(Task(task))
    {
      ghost var was := View();
      WithoutKeepsValid(was, Task(task));
      ReplacedKeepsValid(was, newLocal, spare);
      if holds[Committed] != holds[Task(task)] {
        DropArc(Task(task));
        return false;
      }
      WithoutKeepsValid(was.Replaced(newLocal, spare), Task(task));
      heap := heap[spare := newLocal];
      holds := holds[Committed := spare];
      assert heap == was.Replaced(newLocal, spare).heap by {
        forall id | id in heap ensures exists h :: h in holds && holds[h] == id {
          if id == spare {
            assert holds[Committed] == spare;
          } else {
            var h :| h in was.holds && was.holds[h] == id;
            assert if h == Committed then holds[Task(task)] == id else holds[h] == id;
          }
        }
      }
      DropArc(Task(task));
      return true;
    }

    /** `try_claim`. */
    method TryClaim() returns (ok: bool)
      modifies this`claimed
      ensures claimed && (ok <==> !old(claimed))
    {
      ok := !claimed;
      claimed := true;
    }

    /** `release`. */
    method Release()
      modifies this`claimed
      ensures !claimed
    {
      claimed := false;
    }
  }
}

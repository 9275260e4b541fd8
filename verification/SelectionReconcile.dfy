/**
 * `reconcile_selected_nodes`: repairs the recorded node selections of a profile against one or two
 * snapshots of the core and plans which nodes to select.
 */
module SelectionReconcile {
  import opened Options

  datatype PrfSelected = PrfSelected(name: Option<string>, now: Option<string>)

  datatype ProxyType = Selector | URLTest | Fallback | LoadBalance | OtherType

  datatype Proxy = Proxy(all: Option<seq<string>>, now: Option<string>, proxyType: ProxyType)

  type Proxies = map<string, Proxy>

  datatype Plan = Plan(selected: seq<PrfSelected>, activations: seq<(string, string)>, repairedCount: nat)

  // ----- Readings of a snapshot -----

  predicate Selectable(group: Proxy) { group.proxyType != OtherType }

  predicate Loaded(group: Proxy) { group.all.Some? && group.all.value != [] }

  /** The group lists the node. */
  predicate Lists(group: Proxy, node: string) { Loaded(group) && node in group.all.value }

  /** The group's current node, when the group lists it. */
  function ListedNow(group: Proxy): Option<string> {
    if group.now.Some? && Lists(group, group.now.value) then group.now else None
  }

  predicate Complete(item: PrfSelected) { item.name.Some? && item.now.Some? }

  /** `selected_nodes_need_confirmation`. */
  predicate NeedConfirmation(selected: seq<PrfSelected>, proxies: Proxies) {
    exists i :: 0 <= i < |selected| && Doubtful(selected[i], proxies)
  }

  predicate Doubtful(item: PrfSelected, proxies: Proxies) {
    Complete(item) && !(item.name.value in proxies && Lists(proxies[item.name.value], item.now.value))
  }

  /** An earlier snapshot had the group loaded without the node. */
  predicate MissingBefore(previous: Option<Proxies>, group: string, node: string) {
    previous.Some? && group in previous.value && Loaded(previous.value[group]) && !Lists(previous.value[group], node)
  }

  predicate AbsentBefore(previous: Option<Proxies>, group: string) {
    previous.Some? && group !in previous.value
  }

  // ----- What becomes of the records -----

  datatype Verdict = Keep | Replace(node: string) | Drop

  function Judge(item: PrfSelected, previous: Option<Proxies>, proxies: Proxies): Verdict {
    if !Complete(item) then Drop
    else
      var name, node := item.name.value, item.now.value;
      if name !in proxies then if AbsentBefore(previous, name) then Drop else Keep
      else
        var group := proxies[name];
        if !Loaded(group) then Keep
        else if !Selectable(group) then
          if ListedNow(group).Some? then Adopt(node, ListedNow(group).value)
          else if Lists(group, node) then Keep else Drop
        else if Lists(group, node) || !MissingBefore(previous, name, node) then Keep
        else if ListedNow(group).Some? then Adopt(node, ListedNow(group).value)
        else Drop
  }

  function Adopt(node: string, current: string): Verdict {
    if current == node then Keep else Replace(current)
  }

  /** The record asks a loaded selectable group for a node it lists and is not on. */
  predicate Activates(item: PrfSelected, proxies: Proxies) {
    Complete(item) && item.name.value in proxies &&
    var group := proxies[item.name.value];
    Selectable(group) && Lists(group, item.now.value) && group.now != item.now
  }

  function Record(item: PrfSelected, verdict: Verdict): seq<PrfSelected> {
    match verdict
    case Keep => [item]
    case Replace(node) => [PrfSelected(item.name, Some(node))]
    case Drop => []
  }

  function Activation(item: PrfSelected, proxies: Proxies): seq<(string, string)> {
    if Activates(item, proxies) then [(item.name.value, item.now.value)] else []
  }

  /** The plan grown by one record. */
  function Grown(plan: Plan, item: PrfSelected, previous: Option<Proxies>, proxies: Proxies): Plan {
    var verdict := Judge(item, previous, proxies);
    Plan(plan.selected + Record(item, verdict),
         plan.activations + Activation(item, proxies),
         plan.repairedCount + if verdict.Keep? then 0 else 1)
  }

  function Judged(items: seq<PrfSelected>, previous: Option<Proxies>, proxies: Proxies): Plan {
    if items == [] then Plan([], [], 0)
    else Grown(Judged(items[..|items| - 1], previous, proxies), items[|items| - 1], previous, proxies)
  }

  predicate Mentions(items: seq<PrfSelected>, name: string) {
    exists i :: 0 <= i < |items| && items[i].name == Some(name)
  }

  /** The records that name a group nobody names later. */
  function LastPerGroup(items: seq<PrfSelected>): (r: seq<PrfSelected>)
    ensures |r| <= |items|
  {
    if items == [] then []
    else if items[0].name.Some? && !Mentions(items[1..], items[0].name.value) then [items[0]] + LastPerGroup(items[1..])
    else LastPerGroup(items[1..])
  }

  function Reconciled(selected: seq<PrfSelected>, previous: Option<Proxies>, proxies: Proxies): Plan {
    var unique := LastPerGroup(selected);
    var plan := Judged(unique, previous, proxies);
    plan.(repairedCount := plan.repairedCount + (|selected| - |unique|))
  }

  // ----- The loops of the source -----

  function Reversed<T>(s: seq<T>): (r: seq<T>)
    ensures |r| == |s|
    ensures forall i :: 0 <= i < |s| ==> r[i] == s[|s| - 1 - i]
  {
    if s == [] then [] else Reversed(s[1..]) + [s[0]]
  }

  /** The reverse scan with `seen_groups`. */
  method UniqueSelected(selected: seq<PrfSelected>) returns (unique: seq<PrfSelected>)
    ensures unique == LastPerGroup(selected)
  {
    var seenGroups: set<string> := {};
    var found := [];
    var i := |selected|;
    assert selected[i..] == [];
    while i > 0
      invariant 0 <= i <= |selected|
      invariant forall name :: name in seenGroups <==> Mentions(selected[i..], name)
      invariant Reversed(found) == LastPerGroup(selected[i..])
    {
      i := i - 1;
      var item := selected[i];
      assert selected[i..] == [item] + selected[i + 1..];
      assert forall name :: Mentions(selected[i..], name) <==>
        item.name == Some(name) || Mentions(selected[i + 1..], name) by {
        forall name | item.name == Some(name) ensures Mentions(selected[i..], name) {
          assert selected[i..][0].name == Some(name);
        }
        forall name | Mentions(selected[i + 1..], name) ensures Mentions(selected[i..], name) {
          var k :| 0 <= k < |selected[i + 1..]| && selected[i + 1..][k].name == Some(name);
          assert selected[i..][k + 1].name == Some(name);
        }
      }
      if item.name.Some? && item.name.value !in seenGroups {
        seenGroups := seenGroups + {item.name.value};
        ghost var was := found;
        found := found + [item];
        assert Reversed(found) == [item] + Reversed(was);
      }
    }
    assert selected[0..] == selected;
    unique := Reversed(found);
  }

  /** The body of the main loop: what one record adds to the plan. */
  method ReconcileRecord(item: PrfSelected, previous: Option<Proxies>, proxies: Proxies)
    returns (kept: seq<PrfSelected>, activations: seq<(string, string)>, repaired: nat)
    ensures kept == Record(item, Judge(item, previous, proxies))
    ensures activations == Activation(item, proxies)
    ensures repaired == if Judge(item, previous, proxies).Keep? then 0 else 1
  {
    if item.name.None? || item.now.None? {
      return [], [], 1;
    }
    var name, node := item.name.value, item.now.value;
    if name !in proxies {
      if previous.Some? && name !in previous.value {
        return [], [], 1;
      }
      return [item], [], 0;
    }
    var group := proxies[name];
    if group.all.None? || group.all.value == [] {
      return [item], [], 0;
    }
    var available := group.all.value;
    if !Selectable(group) {
      var preferred :=
        if group.now.Some? && group.now.value in available then group.now
        else if node in available then Some(node) else None;
      if preferred.Some? {
        return [PrfSelected(Some(name), preferred)], [], if preferred.value != node then 1 else 0;
      }
      return [], [], 1;
    }
    if node in available {
      return [item], if group.now != Some(node) then [(name, node)] else [], 0;
    }
    var missingWasConfirmed :=
      previous.Some? && name in previous.value && previous.value[name].all.Some? &&
      previous.value[name].all.value != [] && node !in previous.value[name].all.value;
    if !missingWasConfirmed {
      return [item], [], 0;
    }
    if group.now.Some? && group.now.value in available {
      return [PrfSelected(Some(name), group.now)], [], 1;
    }
    return [], [], 1;
  }

  /** `reconcile_selected_nodes`. */
  method ReconcileSelectedNodes(selected: seq<PrfSelected>, previous: Option<Proxies>, proxies: Proxies)
    returns (plan: Plan)
    ensures plan == Reconciled(selected, previous, proxies)
  {
    var unique := UniqueSelected(selected);
    plan := Plan([], [], |selected| - |unique|);
    for i := 0 to |unique|
      invariant var judged := Judged(unique[..i], previous, proxies);
                plan == judged.(repairedCount := judged.repairedCount + (|selected| - |unique|))
    {
      assert unique[..i + 1][..i] == unique[..i];
      var kept, activations, repaired := ReconcileRecord(unique[i], previous, proxies);
      plan := Plan(plan.selected + kept, plan.activations + activations, plan.repairedCount + repaired);
    }
    assert unique[..|unique|] == unique;
  }

  // ----- Idempotence -----

  /** Each group is named at most once, and every record names one. */
  ghost predicate OncePerGroup(items: seq<PrfSelected>) {
    && (forall i :: 0 <= i < |items| ==> items[i].name.Some?)
    && (forall i, j :: 0 <= i < j < |items| ==> items[i].name != items[j].name)
  }

  lemma {:induction false} LastPerGroupIsOnce(items: seq<PrfSelected>)
    ensures OncePerGroup(LastPerGroup(items))
    ensures forall i :: 0 <= i < |LastPerGroup(items)| ==> LastPerGroup(items)[i] in items
  {
    if items != [] {
      LastPerGroupIsOnce(items[1..]);
      var rest := LastPerGroup(items[1..]);
      forall i | 0 <= i < |rest| ensures rest[i] in items && Mentions(items[1..], rest[i].name.value) {
        var k :| 0 <= k < |items[1..]| && items[1..][k] == rest[i];
        assert items[k + 1] == rest[i];
      }
    }
  }

  lemma {:induction false} OncePerGroupStays(items: seq<PrfSelected>)
    requires OncePerGroup(items)
    ensures LastPerGroup(items) == items
  {
    if items != [] {
      var rest := items[1..];
      assert forall i :: 0 <= i < |rest| ==> rest[i] == items[i + 1];
      assert !Mentions(rest, items[0].name.value);
      OncePerGroupStays(rest);
      assert items == [items[0]] + rest;
    }
  }

  /** Every record of the result names a group of the input, and none twice. */
  lemma {:induction false} JudgedOnce(items: seq<PrfSelected>, previous: Option<Proxies>, proxies: Proxies)
    requires OncePerGroup(items)
    ensures OncePerGroup(Judged(items, previous, proxies).selected)
    ensures forall r :: r in Judged(items, previous, proxies).selected ==> r.name.Some? && Mentions(items, r.name.value)
  {
    if items != [] {
      var shorter, item := items[..|items| - 1], items[|items| - 1];
      JudgedOnce(shorter, previous, proxies);
      var before := Judged(shorter, previous, proxies).selected;
      forall r | r in before ensures r.name.Some? && Mentions(items, r.name.value) && r.name != item.name {
        var k :| 0 <= k < |shorter| && shorter[k].name == r.name;
        assert items[k].name == r.name;
      }
      forall r | r in Record(item, Judge(item, previous, proxies))
        ensures r.name == item.name && Mentions(items, r.name.value) {
        assert items[|items| - 1].name == r.name;
      }
      forall i | 0 <= i < |before| ensures before[i].name != item.name {
        assert before[i] in before;
      }
    }
  }

  lemma JudgedAppend(items: seq<PrfSelected>, item: PrfSelected, previous: Option<Proxies>, proxies: Proxies)
    ensures Judged(items + [item], previous, proxies) ==
        Grown(Judged(items, previous, proxies), item, previous, proxies)
  {
    assert (items + [item])[..|items|] == items;
  }

  /** If judging a plan's records again keeps them, so it does after one more record. */
  lemma GrownTwice(plan: Plan, item: PrfSelected, previous: Option<Proxies>, proxies: Proxies)
    requires Judged(plan.selected, previous, proxies) == plan.(repairedCount := 0)
    ensures var grown := Grown(plan, item, previous, proxies);
            Judged(grown.selected, previous, proxies) == grown.(repairedCount := 0)
  {
    var added := Record(item, Judge(item, previous, proxies));
    if added != [] {
      RecordIsSettled(item, previous, proxies);
      JudgedAppend(plan.selected, added[0], previous, proxies);
      assert added == [added[0]];
    } else {
      DroppedDoesNotActivate(item, previous, proxies);
      assert plan.selected + added == plan.selected;
    }
  }

  /** Judging the result again keeps each record where it stands. */
  lemma {:induction false} JudgedTwice(items: seq<PrfSelected>, previous: Option<Proxies>, proxies: Proxies)
    ensures Judged(Judged(items, previous, proxies).selected, previous, proxies)
      == Judged(items, previous, proxies).(repairedCount := 0)
  {
    if items != [] {
      JudgedTwice(items[..|items| - 1], previous, proxies);
      GrownTwice(Judged(items[..|items| - 1], previous, proxies), items[|items| - 1], previous, proxies);
    }
  }

  lemma DroppedDoesNotActivate(item: PrfSelected, previous: Option<Proxies>, proxies: Proxies)
    requires Record(item, Judge(item, previous, proxies)) == []
    ensures Activation(item, proxies) == []
  {
  }

  /** What a verdict leaves of a record is itself kept, with the same activation. */
  lemma RecordIsSettled(item: PrfSelected, previous: Option<Proxies>, proxies: Proxies)
    requires Record(item, Judge(item, previous, proxies)) != []
    ensures Judge(Record(item, Judge(item, previous, proxies))[0], previous, proxies) == Keep
    ensures Activation(Record(item, Judge(item, previous, proxies))[0], proxies) == Activation(item, proxies)
  {
  }

  /** Reconciling its own output changes nothing: the same records and activations, no repair. */
  lemma ReconcileIsIdempotent(selected: seq<PrfSelected>, previous: Option<Proxies>, proxies: Proxies)
    ensures var plan := Reconciled(selected, previous, proxies);
            Reconciled(plan.selected, previous, proxies) == Plan(plan.selected, plan.activations, 0)
  {
    LastPerGroupIsOnce(selected);
    JudgedOnce(LastPerGroup(selected), previous, proxies);
    JudgedTwice(LastPerGroup(selected), previous, proxies);
    OncePerGroupStays(Reconciled(selected, previous, proxies).selected);
  }

  // ----- Accounting -----

  /** The record that counts for a group: the last one that names it. */
  function LastRecord(items: seq<PrfSelected>, name: string): Option<PrfSelected> {
    if items == [] then None
    else if items[|items| - 1].name == Some(name) then Some(items[|items| - 1])
    else LastRecord(items[..|items| - 1], name)
  }

  /** How many of `records` are, unchanged, the record that counts for their group in `selected`. */
  function Verbatim(records: seq<PrfSelected>, selected: seq<PrfSelected>): nat {
    if records == [] then 0
    else
      var r := records[|records| - 1];
      Verbatim(records[..|records| - 1], selected)
        + if r.name.Some? && LastRecord(selected, r.name.value) == Some(r) then 1 else 0
  }

  lemma {:induction false} LastRecordOfTail(first: PrfSelected, rest: seq<PrfSelected>, name: string)
    ensures LastRecord([first] + rest, name) ==
      if Mentions(rest, name) then LastRecord(rest, name) else if first.name == Some(name) then Some(first) else None
  {
    var items := [first] + rest;
    if rest == [] {
      assert items[..0] == [];
    } else {
      var shorter := rest[..|rest| - 1];
      assert items[..|items| - 1] == [first] + shorter;
      LastRecordOfTail(first, shorter, name);
      if rest[|rest| - 1].name != Some(name) {
        assert Mentions(shorter, name) <==> Mentions(rest, name) by {
          forall i | 0 <= i < |rest| && rest[i].name == Some(name) ensures Mentions(shorter, name) {
            assert shorter[i].name == Some(name);
          }
          forall i | 0 <= i < |shorter| && shorter[i].name == Some(name) ensures Mentions(rest, name) {
            assert rest[i].name == Some(name);
          }
        }
      }
    }
  }

  /** The de-duplication keeps exactly the record that counts for each group. */
  lemma {:induction false} KeptIsLast(items: seq<PrfSelected>, i: nat)
    requires i < |LastPerGroup(items)|
    ensures LastPerGroup(items)[i].name.Some?
    ensures LastRecord(items, LastPerGroup(items)[i].name.value) == Some(LastPerGroup(items)[i])
  {
    var first, rest := items[0], items[1..];
    assert items == [first] + rest;
    var keepsFirst := first.name.Some? && !Mentions(rest, first.name.value);
    if keepsFirst && i == 0 {
      LastRecordOfTail(first, rest, first.name.value);
    } else {
      var k: nat := if keepsFirst then i - 1 else i;
      KeptIsLast(rest, k);
      LastPerGroupIsOnce(rest);
      var r := LastPerGroup(rest)[k];
      LastRecordOfTail(first, rest, r.name.value);
      var at :| 0 <= at < |rest| && rest[at] == r;
      assert Mentions(rest, r.name.value);
    }
  }

  lemma VerbatimAppend(records: seq<PrfSelected>, r: PrfSelected, selected: seq<PrfSelected>)
    ensures Verbatim(records + [r], selected) == Verbatim(records, selected)
      + if r.name.Some? && LastRecord(selected, r.name.value) == Some(r) then 1 else 0
  {
    assert (records + [r])[..|records|] == records;
  }

  /** One more record is one more repair or one more verbatim record. */
  lemma GrownCounts(
    plan: Plan, item: PrfSelected, selected: seq<PrfSelected>, previous: Option<Proxies>, proxies: Proxies)
    requires item.name.Some? && LastRecord(selected, item.name.value) == Some(item)
    ensures var grown := Grown(plan, item, previous, proxies);
            grown.repairedCount + Verbatim(grown.selected, selected)
              == plan.repairedCount + Verbatim(plan.selected, selected) + 1
  {
    var added := Record(item, Judge(item, previous, proxies));
    if added != [] {
      VerbatimAppend(plan.selected, added[0], selected);
      assert added == [added[0]];
    } else {
      assert plan.selected + added == plan.selected;
    }
  }

  lemma {:induction false} JudgedCounts(
    items: seq<PrfSelected>, selected: seq<PrfSelected>, previous: Option<Proxies>, proxies: Proxies)
    requires forall i :: 0 <= i < |items| ==>
        items[i].name.Some? && LastRecord(selected, items[i].name.value) == Some(items[i])
    ensures var plan := Judged(items, previous, proxies);
            plan.repairedCount + Verbatim(plan.selected, selected) == |items|
  {
    if items != [] {
      JudgedCounts(items[..|items| - 1], selected, previous, proxies);
      GrownCounts(Judged(items[..|items| - 1], previous, proxies), items[|items| - 1], selected, previous, proxies);
    }
  }

  /** Every input record is either counted as repaired or survives as it was. */
  lemma RepairsAreCounted(selected: seq<PrfSelected>, previous: Option<Proxies>, proxies: Proxies)
    ensures var plan := Reconciled(selected, previous, proxies);
            plan.repairedCount + Verbatim(plan.selected, selected) == |selected|
  {
    forall i | 0 <= i < |LastPerGroup(selected)|
      ensures LastPerGroup(selected)[i].name.Some?
      ensures LastRecord(selected, LastPerGroup(selected)[i].name.value) == Some(LastPerGroup(selected)[i])
    {
      KeptIsLast(selected, i);
    }
    JudgedCounts(LastPerGroup(selected), selected, previous, proxies);
  }

  lemma {:induction false} NothingLost(items: seq<PrfSelected>)
    requires |LastPerGroup(items)| == |items|
    ensures LastPerGroup(items) == items
  {
    if items != [] {
      NothingLost(items[1..]);
    }
  }

  lemma {:induction false} NothingRepaired(items: seq<PrfSelected>, previous: Option<Proxies>, proxies: Proxies)
    requires Judged(items, previous, proxies).repairedCount == 0
    ensures Judged(items, previous, proxies).selected == items
  {
    if items != [] {
      NothingRepaired(items[..|items| - 1], previous, proxies);
    }
  }

  lemma {:induction false} VerbatimAll(items: seq<PrfSelected>, n: nat)
    requires OncePerGroup(items) && n <= |items|
    ensures Verbatim(items[..n], items) == n
  {
    if n > 0 {
      VerbatimAll(items, n - 1);
      assert items[..n][..n - 1] == items[..n - 1];
      OncePerGroupStays(items);
      KeptIsLast(items, n - 1);
    }
  }

  /** No repair is reported exactly when the records come back as they were. */
  lemma NoRepairIffUnchanged(selected: seq<PrfSelected>, previous: Option<Proxies>, proxies: Proxies)
    ensures Reconciled(selected, previous, proxies).repairedCount == 0 <==>
            Reconciled(selected, previous, proxies).selected == selected
  {
    var plan := Reconciled(selected, previous, proxies);
    if plan.repairedCount == 0 {
      NothingLost(selected);
      NothingRepaired(selected, previous, proxies);
    }
    if plan.selected == selected {
      LastPerGroupIsOnce(selected);
      JudgedOnce(LastPerGroup(selected), previous, proxies);
      VerbatimAll(selected, |selected|);
      assert selected[..|selected|] == selected;
      RepairsAreCounted(selected, previous, proxies);
    }
  }

  // ----- The first snapshot -----

  lemma {:induction false} CertainRecordsIgnorePrevious(
    items: seq<PrfSelected>, p: Option<Proxies>, q: Option<Proxies>, proxies: Proxies)
    requires forall i :: 0 <= i < |items| ==> !Doubtful(items[i], proxies)
    ensures Judged(items, p, proxies) == Judged(items, q, proxies)
  {
    if items != [] {
      CertainRecordsIgnorePrevious(items[..|items| - 1], p, q, proxies);
      assert !Doubtful(items[|items| - 1], proxies);
    }
  }

  /** Without need for confirmation the plan does not depend on the earlier snapshot, so it is final. */
  lemma CertainPlanIsFinal(selected: seq<PrfSelected>, p: Option<Proxies>, q: Option<Proxies>, proxies: Proxies)
    requires !NeedConfirmation(selected, proxies)
    ensures Reconciled(selected, p, proxies) == Reconciled(selected, q, proxies)
  {
    LastPerGroupIsOnce(selected);
    CertainRecordsIgnorePrevious(LastPerGroup(selected), p, q, proxies);
  }

  /**
   * The last record of the group is complete, and the group missing, or loaded and selectable without the
   * node: the two cases in which an earlier snapshot is asked.
   */
  predicate InDoubt(selected: seq<PrfSelected>, proxies: Proxies, name: string) {
    var last := LastRecord(selected, name);
    && last.Some? && last.value.now.Some?
    && (name in proxies ==>
          && proxies[name].proxyType != OtherType
          && proxies[name].all.Some? && proxies[name].all.value != []
          && last.value.now.value !in proxies[name].all.value)
  }

  lemma DoubtShows(selected: seq<PrfSelected>, proxies: Proxies, name: string)
    requires InDoubt(selected, proxies, name)
    ensures Reconciled(selected, Some(proxies), proxies) != Reconciled(selected, None, proxies)
  {
    var last := LastRecord(selected, name);
    LastRecordMentioned(selected, name);
    PlannedRecord(selected, None, proxies, name);
    PlannedRecord(selected, Some(proxies), proxies, name);
    if name in proxies {
      LeftOfSelectable(last.value, None, proxies, name, last.value.now.value);
      LeftOfSelectable(last.value, Some(proxies), proxies, name, last.value.now.value);
    }
  }

  /**
   * The plan is the same for every earlier snapshot exactly when no last record is in doubt; without need for
   * confirmation none is.
   */
  lemma PlanIsFinalIff(selected: seq<PrfSelected>, proxies: Proxies)
    ensures (forall previous :: Reconciled(selected, previous, proxies) == Reconciled(selected, None, proxies)) <==>
        forall name :: !InDoubt(selected, proxies, name)
    ensures !NeedConfirmation(selected, proxies) ==> forall name :: !InDoubt(selected, proxies, name)
  {
    forall name | InDoubt(selected, proxies, name)
      ensures Reconciled(selected, Some(proxies), proxies) != Reconciled(selected, None, proxies)
      ensures NeedConfirmation(selected, proxies)
    {
      DoubtShows(selected, proxies, name);
      if !NeedConfirmation(selected, proxies) {
        CertainPlanIsFinal(selected, Some(proxies), None, proxies);
      }
    }
    if forall name :: !InDoubt(selected, proxies, name) {
      var items := LastPerGroup(selected);
      forall i | 0 <= i < |items| ensures PreviousIgnored(items[i], proxies) {
        KeptIsLast(selected, i);
        assert !InDoubt(selected, proxies, items[i].name.value);
      }
      forall previous ensures Reconciled(selected, previous, proxies) == Reconciled(selected, None, proxies) {
        IgnoredPrevious(items, previous, None, proxies);
      }
    }
  }

  ghost predicate PreviousIgnored(item: PrfSelected, proxies: Proxies) {
    forall previous :: Judge(item, previous, proxies) == Judge(item, None, proxies)
  }

  lemma {:induction false} IgnoredPrevious(
    items: seq<PrfSelected>, p: Option<Proxies>, q: Option<Proxies>, proxies: Proxies)
    requires forall i :: 0 <= i < |items| ==> PreviousIgnored(items[i], proxies)
    ensures Judged(items, p, proxies) == Judged(items, q, proxies)
  {
    if items != [] {
      IgnoredPrevious(items[..|items| - 1], p, q, proxies);
      assert PreviousIgnored(items[|items| - 1], proxies);
    }
  }

  /** Confirmation is asked for exactly when some complete record names no group that lists its node. */
  lemma ConfirmationIff(selected: seq<PrfSelected>, proxies: Proxies)
    ensures NeedConfirmation(selected, proxies) <==>
        exists i :: 0 <= i < |selected| && selected[i].name.Some? && selected[i].now.Some? &&
          !(selected[i].name.value in proxies && proxies[selected[i].name.value].all.Some? &&
            selected[i].now.value in proxies[selected[i].name.value].all.value)
  {
  }

  // ----- Activations -----

  /** The core after selecting each planned node in turn. */
  function Selected(proxies: Proxies, activations: seq<(string, string)>): Proxies {
    if activations == [] then proxies
    else
      var before := Selected(proxies, activations[..|activations| - 1]);
      var (name, node) := activations[|activations| - 1];
      if name in before then before[name := before[name].(now := Some(node))] else before
  }

  /** `unsettled_selections`: the groups that have not reached the recorded node. */
  function UnsettledSelections(selected: seq<PrfSelected>, proxies: Proxies): seq<string> {
    if selected == [] then []
    else
      UnsettledSelections(selected[..|selected| - 1], proxies)
        + if Unsettled(selected[|selected| - 1], proxies) then [selected[|selected| - 1].name.value] else []
  }

  predicate Unsettled(item: PrfSelected, proxies: Proxies) {
    Complete(item) && !(item.name.value in proxies && proxies[item.name.value].now == item.now)
  }

  lemma SelectedAppend(proxies: Proxies, activations: seq<(string, string)>, name: string, node: string)
    ensures var before := Selected(proxies, activations);
            Selected(proxies, activations + [(name, node)]) ==
              if name in before then before[name := before[name].(now := Some(node))] else before
  {
    assert (activations + [(name, node)])[..|activations|] == activations;
  }

  lemma SelectedOneMore(proxies: Proxies, activations: seq<(string, string)>, item: PrfSelected)
    requires item.name.Some?
    requires Activates(item, proxies) ==> item.name.value in Selected(proxies, activations)
    ensures var before := Selected(proxies, activations);
            Selected(proxies, activations + Activation(item, proxies)) ==
              if Activates(item, proxies)
              then before[item.name.value := before[item.name.value].(now := item.now)] else before
  {
    if Activates(item, proxies) {
      SelectedAppend(proxies, activations, item.name.value, item.now.value);
    } else {
      assert activations + Activation(item, proxies) == activations;
    }
  }

  /** In `after` exactly the groups whose record activates have moved, each to its own node. */
  ghost predicate MovedExactly(items: seq<PrfSelected>, proxies: Proxies, after: Proxies)
    requires OncePerGroup(items)
  {
    && after.Keys == proxies.Keys
    && (forall g :: g in proxies ==> after[g] == proxies[g].(now := after[g].now))
    && (forall i :: 0 <= i < |items| && items[i].name.value in proxies ==>
          after[items[i].name.value].now == NowWanted(items[i], proxies))
    && (forall g :: g in proxies && !Mentions(items, g) ==> after[g].now == proxies[g].now)
  }

  ghost function NowWanted(item: PrfSelected, proxies: Proxies): Option<string>
    requires item.name.Some? && item.name.value in proxies
  {
    if Activates(item, proxies) then item.now else proxies[item.name.value].now
  }

  lemma MovedByOneMore(items: seq<PrfSelected>, item: PrfSelected, proxies: Proxies, before: Proxies, after: Proxies)
    requires OncePerGroup(items + [item]) && OncePerGroup(items) && MovedExactly(items, proxies, before)
    requires item.name.Some?
    requires after == if Activates(item, proxies)
        then before[item.name.value := before[item.name.value].(now := item.now)] else before
    ensures MovedExactly(items + [item], proxies, after)
  {
    var all := items + [item];
    assert all[|items|] == item;
    forall i | 0 <= i < |items| ensures items[i].name != item.name && all[i] == items[i] {
      assert all[i].name != all[|items|].name;
    }
    assert !Mentions(items, item.name.value);
    forall g | g in proxies && !Mentions(all, g) ensures !Mentions(items, g) && item.name != Some(g) {
      assert forall i :: 0 <= i < |items| ==> all[i].name != Some(g);
    }
    forall i | 0 <= i < |all| && all[i].name.value in proxies
      ensures after[all[i].name.value].now == NowWanted(all[i], proxies)
    {
      if i < |items| { assert items[i].name != item.name; }
    }
  }

  /** Selecting the planned nodes moves exactly the groups whose record activates. */
  lemma {:induction false} SelectingMoves(items: seq<PrfSelected>, previous: Option<Proxies>, proxies: Proxies)
    requires OncePerGroup(items)
    ensures MovedExactly(items, proxies, Selected(proxies, Judged(items, previous, proxies).activations))
  {
    if items != [] {
      var shorter, item := items[..|items| - 1], items[|items| - 1];
      assert items == shorter + [item];
      SelectingMoves(shorter, previous, proxies);
      var acts := Judged(shorter, previous, proxies).activations;
      SelectedOneMore(proxies, acts, item);
      MovedByOneMore(shorter, item, proxies, Selected(proxies, acts),
        Selected(proxies, acts + Activation(item, proxies)));
    }
  }

  /** Every planned activation answers a record, and no group is selected twice. */
  lemma {:induction false} ActivationsAnswerRecords(
    items: seq<PrfSelected>, previous: Option<Proxies>, proxies: Proxies)
    requires OncePerGroup(items)
    ensures var plan := Judged(items, previous, proxies);
            && (forall a :: a in plan.activations ==>
                  && Activates(PrfSelected(Some(a.0), Some(a.1)), proxies)
                  && PrfSelected(Some(a.0), Some(a.1)) in plan.selected
                  && PrfSelected(Some(a.0), Some(a.1)) in items)
            && (forall i, j :: 0 <= i < j < |plan.activations| ==> plan.activations[i].0 != plan.activations[j].0)
  {
    if items != [] {
      var shorter, item := items[..|items| - 1], items[|items| - 1];
      ActivationsAnswerRecords(shorter, previous, proxies);
      var acts := Judged(shorter, previous, proxies).activations;
      forall i | 0 <= i < |acts| ensures Some(acts[i].0) != item.name {
        assert acts[i] in acts;
        var k :| 0 <= k < |shorter| && shorter[k] == PrfSelected(Some(acts[i].0), Some(acts[i].1));
        assert items[k].name != item.name;
      }
    }
  }

  /** Planned activations name distinct selectable groups, not yet on the node, and nodes those groups list. */
  lemma ActivationsAreSound(selected: seq<PrfSelected>, previous: Option<Proxies>, proxies: Proxies)
    ensures var plan := Reconciled(selected, previous, proxies);
            && (forall i, j :: 0 <= i < j < |plan.activations| ==> plan.activations[i].0 != plan.activations[j].0)
            && (forall a :: a in plan.activations ==>
                  && a.0 in proxies && Selectable(proxies[a.0]) && Lists(proxies[a.0], a.1) &&
                    proxies[a.0].now != Some(a.1)
                  && PrfSelected(Some(a.0), Some(a.1)) in plan.selected)
  {
    LastPerGroupIsOnce(selected);
    ActivationsAnswerRecords(LastPerGroup(selected), previous, proxies);
  }

  /** Why a group may be left unsettled. */
  predicate Excused(item: PrfSelected, proxies: Proxies)
    requires Complete(item)
  {
    || item.name.value !in proxies
    || !Loaded(proxies[item.name.value])
    || !Lists(proxies[item.name.value], item.now.value)
    || (!Selectable(proxies[item.name.value]) && ListedNow(proxies[item.name.value]).None?)
  }

  /** A record of the plan stems from a record of its group, by that record's verdict. */
  lemma {:induction false} RecordsHaveOrigins(
    items: seq<PrfSelected>, previous: Option<Proxies>, proxies: Proxies, r: PrfSelected)
    returns (i: nat)
    requires r in Judged(items, previous, proxies).selected
    ensures i < |items| && Record(items[i], Judge(items[i], previous, proxies)) == [r]
  {
    var item := items[|items| - 1];
    if r in Record(item, Judge(item, previous, proxies)) {
      i := |items| - 1;
    } else {
      i := RecordsHaveOrigins(items[..|items| - 1], previous, proxies, r);
    }
  }

  lemma RecordAfterSelecting(items: seq<PrfSelected>, previous: Option<Proxies>, proxies: Proxies, r: PrfSelected)
    requires OncePerGroup(items) && r in Judged(items, previous, proxies).selected
    ensures var after := Selected(proxies, Judged(items, previous, proxies).activations);
            && Complete(r)
            && !Activates(r, after)
            && (Unsettled(r, after) ==> Excused(r, after))
  {
    SelectingMoves(items, previous, proxies);
    var i := RecordsHaveOrigins(items, previous, proxies, r);
  }

  lemma {:induction false} QuietRecordsPlanNothing(items: seq<PrfSelected>, previous: Option<Proxies>, proxies: Proxies)
    requires forall i :: 0 <= i < |items| ==> !Activates(items[i], proxies)
    ensures Judged(items, previous, proxies).activations == []
  {
    if items != [] {
      QuietRecordsPlanNothing(items[..|items| - 1], previous, proxies);
      assert !Activates(items[|items| - 1], proxies);
    }
  }

  lemma {:induction false} UnsettledHasRecord(selected: seq<PrfSelected>, proxies: Proxies, g: string) returns (i: nat)
    requires g in UnsettledSelections(selected, proxies)
    ensures i < |selected| && Unsettled(selected[i], proxies) && selected[i].name == Some(g)
  {
    var last := selected[|selected| - 1];
    if Unsettled(last, proxies) && last.name.value == g {
      i := |selected| - 1;
    } else {
      i := UnsettledHasRecord(selected[..|selected| - 1], proxies, g);
    }
  }

  lemma {:induction false} RecordIsUnsettled(selected: seq<PrfSelected>, proxies: Proxies, i: nat)
    requires i < |selected| && Unsettled(selected[i], proxies)
    ensures selected[i].name.value in UnsettledSelections(selected, proxies)
  {
    if i < |selected| - 1 {
      RecordIsUnsettled(selected[..|selected| - 1], proxies, i);
    }
  }

  /** The unsettled groups are those that some complete record wants on a node they are not on. */
  lemma UnsettledIff(selected: seq<PrfSelected>, proxies: Proxies, g: string)
    ensures g in UnsettledSelections(selected, proxies) <==>
        exists i :: 0 <= i < |selected| && selected[i].name == Some(g) && selected[i].now.Some? &&
          (g !in proxies || proxies[g].now != selected[i].now)
  {
    if g in UnsettledSelections(selected, proxies) {
      var i := UnsettledHasRecord(selected, proxies, g);
    }
    forall i | 0 <= i < |selected| && selected[i].name == Some(g) && Unsettled(selected[i], proxies)
      ensures g in UnsettledSelections(selected, proxies)
    {
      RecordIsUnsettled(selected, proxies, i);
    }
  }

  /**
   * Once the planned nodes are selected, a second plan over any earlier snapshot selects nothing, and a
   * group of the plan that is still unsettled is missing, empty, without the node, or not selectable with
   * a current node it does not list.
   */
  lemma SelectingSettles(
    selected: seq<PrfSelected>, previous: Option<Proxies>, proxies: Proxies, again: Option<Proxies>)
    ensures var plan := Reconciled(selected, previous, proxies);
            var after := Selected(proxies, plan.activations);
            && Reconciled(plan.selected, again, after).activations == []
            && forall g :: g in UnsettledSelections(plan.selected, after) ==>
                 exists i :: 0 <= i < |plan.selected| && Complete(plan.selected[i])
                   && plan.selected[i].name == Some(g) && Excused(plan.selected[i], after)
  {
    var items := LastPerGroup(selected);
    var plan := Reconciled(selected, previous, proxies);
    var after := Selected(proxies, plan.activations);
    LastPerGroupIsOnce(selected);
    JudgedOnce(items, previous, proxies);
    OncePerGroupStays(plan.selected);
    forall i | 0 <= i < |plan.selected|
      ensures Complete(plan.selected[i]) && !Activates(plan.selected[i], after)
      ensures Unsettled(plan.selected[i], after) ==> Excused(plan.selected[i], after)
    {
      RecordAfterSelecting(items, previous, proxies, plan.selected[i]);
    }
    QuietRecordsPlanNothing(plan.selected, again, after);
    forall g | g in UnsettledSelections(plan.selected, after)
      ensures exists i :: 0 <= i < |plan.selected| && Complete(plan.selected[i])
                && plan.selected[i].name == Some(g) && Excused(plan.selected[i], after)
    {
      var i := UnsettledHasRecord(plan.selected, after, g);
    }
  }

  // ----- What the plan holds for each group -----

  lemma {:induction false} LastRecordMentioned(items: seq<PrfSelected>, name: string)
    ensures LastRecord(items, name).Some? <==> Mentions(items, name)
    ensures LastRecord(items, name).Some? ==> LastRecord(items, name).value.name == Some(name)
  {
    if items != [] {
      var shorter := items[..|items| - 1];
      LastRecordMentioned(shorter, name);
      forall i | 0 <= i < |shorter| && shorter[i].name == Some(name) ensures Mentions(items, name) {
        assert items[i].name == Some(name);
      }
      forall i | 0 <= i < |items| && items[i].name == Some(name)
        ensures items[|items| - 1].name == Some(name) || Mentions(shorter, name)
      {
        if i < |shorter| { assert shorter[i].name == Some(name); }
      }
    }
  }

  lemma LastRecordAppend(items: seq<PrfSelected>, item: PrfSelected, name: string)
    ensures LastRecord(items + [item], name) == if item.name == Some(name) then Some(item) else LastRecord(items, name)
  {
    assert (items + [item])[..|items|] == items;
  }

  /** The de-duplication loses no group. */
  lemma {:induction false} LastPerGroupKeepsRecord(items: seq<PrfSelected>, name: string)
    ensures LastRecord(LastPerGroup(items), name) == LastRecord(items, name)
  {
    if items != [] {
      var first, rest := items[0], items[1..];
      assert items == [first] + rest;
      LastPerGroupKeepsRecord(rest, name);
      LastRecordOfTail(first, rest, name);
      LastRecordMentioned(rest, name);
      if first.name.Some? && !Mentions(rest, first.name.value) {
        LastRecordOfTail(first, LastPerGroup(rest), name);
        LastRecordMentioned(LastPerGroup(rest), name);
      }
    }
  }

  /** The one record a verdict leaves, if any. */
  function LeftOf(item: Option<PrfSelected>, previous: Option<Proxies>, proxies: Proxies): Option<PrfSelected> {
    if item.None? then None
    else
      match Judge(item.value, previous, proxies)
      case Keep => item
      case Replace(node) => Some(PrfSelected(item.value.name, Some(node)))
      case Drop => None
  }

  lemma {:induction false} JudgedRecord(
    items: seq<PrfSelected>, previous: Option<Proxies>, proxies: Proxies, name: string)
    requires OncePerGroup(items)
    ensures LastRecord(Judged(items, previous, proxies).selected, name) ==
        LeftOf(LastRecord(items, name), previous, proxies)
  {
    if items != [] {
      var shorter, item := items[..|items| - 1], items[|items| - 1];
      JudgedRecord(shorter, previous, proxies, name);
      LastRecordMentioned(shorter, name);
      LeftOneMore(Judged(shorter, previous, proxies).selected, item, previous, proxies, name);
    }
  }

  lemma LeftOneMore(
    before: seq<PrfSelected>, item: PrfSelected, previous: Option<Proxies>, proxies: Proxies, name: string)
    ensures var after := before + Record(item, Judge(item, previous, proxies));
            LastRecord(after, name) ==
              if item.name == Some(name) && LeftOf(Some(item), previous, proxies).Some?
              then LeftOf(Some(item), previous, proxies) else LastRecord(before, name)
  {
    var added := Record(item, Judge(item, previous, proxies));
    if added == [] {
      assert before + added == before;
    } else {
      assert added == [added[0]] && Some(added[0]) == LeftOf(Some(item), previous, proxies);
      LastRecordAppend(before, added[0], name);
    }
  }

  lemma PlannedRecord(selected: seq<PrfSelected>, previous: Option<Proxies>, proxies: Proxies, name: string)
    ensures LastRecord(Reconciled(selected, previous, proxies).selected, name) ==
        LeftOf(LastRecord(selected, name), previous, proxies)
  {
    LastPerGroupIsOnce(selected);
    JudgedRecord(LastPerGroup(selected), previous, proxies, name);
    LastPerGroupKeepsRecord(selected, name);
  }

  /** The plan has one record for a group at most, and none for a group without a complete last record. */
  lemma PlanNamesOnce(selected: seq<PrfSelected>, previous: Option<Proxies>, proxies: Proxies)
    ensures var plan := Reconciled(selected, previous, proxies).selected;
            && (forall i :: 0 <= i < |plan| ==> plan[i].name.Some? && plan[i].now.Some?)
            && (forall i, j :: 0 <= i < j < |plan| ==> plan[i].name != plan[j].name)
            && (forall i :: 0 <= i < |plan| && plan[i].name.Some? ==>
                  var last := LastRecord(selected, plan[i].name.value);
                  last.Some? && last.value.now.Some?)
  {
    var plan := Reconciled(selected, previous, proxies).selected;
    LastPerGroupIsOnce(selected);
    JudgedOnce(LastPerGroup(selected), previous, proxies);
    forall i | 0 <= i < |plan|
      ensures plan[i].now.Some?
      ensures plan[i].name.Some? ==> var last := LastRecord(selected, plan[i].name.value);
                                     last.Some? && last.value.now.Some?
    {
      var k := RecordsHaveOrigins(LastPerGroup(selected), previous, proxies, plan[i]);
      KeptIsLast(selected, k);
    }
  }

  /**
   * Without an earlier snapshot, the complete last record of a group that is missing, empty or selectable
   * stays as it is.
   */
  lemma FirstPlanKeeps(selected: seq<PrfSelected>, proxies: Proxies, name: string, node: string)
    requires LastRecord(selected, name) == Some(PrfSelected(Some(name), Some(node)))
    requires name in proxies ==>
        proxies[name].all == None || proxies[name].all == Some([]) || proxies[name].proxyType != OtherType
    ensures LastRecord(Reconciled(selected, None, proxies).selected, name) == LastRecord(selected, name)
  {
    PlannedRecord(selected, None, proxies, name);
  }

  lemma LeftOfSelectable(item: PrfSelected, previous: Option<Proxies>, proxies: Proxies, name: string, node: string)
    requires item == PrfSelected(Some(name), Some(node))
    requires name in proxies && proxies[name].proxyType != OtherType
    requires proxies[name].all.Some? && proxies[name].all.value != []
    ensures var left := LeftOf(Some(item), previous, proxies);
            var nodes, current := proxies[name].all.value, proxies[name].now;
            var gone := node !in nodes && MissingBefore(previous, name, node);
            && (!gone ==> left == Some(item))
            && (gone ==> left == if current.Some? && current.value in nodes
                                 then Some(PrfSelected(Some(name), current)) else None)
  {
  }

  /**
   * With one, the record of a loaded selectable group goes or changes if and only if both snapshots have the
   * group loaded without the node. It then names the group's current node if that is listed, and else goes.
   */
  lemma ConfirmedMissingIff(selected: seq<PrfSelected>, earlier: Proxies, proxies: Proxies, name: string, node: string)
    requires LastRecord(selected, name) == Some(PrfSelected(Some(name), Some(node)))
    requires name in proxies && proxies[name].proxyType != OtherType
    requires proxies[name].all.Some? && proxies[name].all.value != []
    ensures var after := LastRecord(Reconciled(selected, Some(earlier), proxies).selected, name);
            var nodes, current := proxies[name].all.value, proxies[name].now;
            && (after != LastRecord(selected, name) <==>
                  && node !in nodes
                  && name in earlier && earlier[name].all.Some? && earlier[name].all.value != []
                  && node !in earlier[name].all.value)
            && (after != LastRecord(selected, name) ==>
                  after == if current.Some? && current.value in nodes then Some(PrfSelected(Some(name), current))
                           else None)
  {
    PlannedRecord(selected, Some(earlier), proxies, name);
    LeftOfSelectable(PrfSelected(Some(name), Some(node)), Some(earlier), proxies, name, node);
  }

  /** The record of a missing group goes if and only if an earlier snapshot lacks the group too. */
  lemma MissingGroupIff(
    selected: seq<PrfSelected>, previous: Option<Proxies>, proxies: Proxies, name: string, node: string)
    requires LastRecord(selected, name) == Some(PrfSelected(Some(name), Some(node))) && name !in proxies
    ensures LastRecord(Reconciled(selected, previous, proxies).selected, name) ==
        if previous.Some? && name !in previous.value then None else LastRecord(selected, name)
  {
    PlannedRecord(selected, previous, proxies, name);
  }

  /** The record of a group that lists no node yet stays, whatever an earlier snapshot had. */
  lemma EmptyGroupKeeps(
    selected: seq<PrfSelected>, previous: Option<Proxies>, proxies: Proxies, name: string, node: string)
    requires LastRecord(selected, name) == Some(PrfSelected(Some(name), Some(node)))
    requires name in proxies && (proxies[name].all == None || proxies[name].all == Some([]))
    ensures LastRecord(Reconciled(selected, previous, proxies).selected, name) == LastRecord(selected, name)
  {
    PlannedRecord(selected, previous, proxies, name);
  }

  lemma LeftOfOther(item: PrfSelected, previous: Option<Proxies>, proxies: Proxies, name: string, node: string)
    requires item == PrfSelected(Some(name), Some(node))
    requires name in proxies && proxies[name].proxyType == OtherType
    requires proxies[name].all.Some? && proxies[name].all.value != []
    ensures var nodes, current := proxies[name].all.value, proxies[name].now;
            LeftOf(Some(item), previous, proxies) ==
              if current.Some? && current.value in nodes then Some(PrfSelected(Some(name), current))
              else if node in nodes then Some(item) else None
  {
  }

  /** The record of a loaded group that cannot be selected follows its current node, if that is listed. */
  lemma OtherGroupFollows(
    selected: seq<PrfSelected>, previous: Option<Proxies>, proxies: Proxies, name: string, node: string)
    requires LastRecord(selected, name) == Some(PrfSelected(Some(name), Some(node)))
    requires name in proxies && proxies[name].proxyType == OtherType
    requires proxies[name].all.Some? && proxies[name].all.value != []
    ensures var nodes, current := proxies[name].all.value, proxies[name].now;
            LastRecord(Reconciled(selected, previous, proxies).selected, name) ==
              if current.Some? && current.value in nodes then Some(PrfSelected(Some(name), current))
              else if node in nodes then LastRecord(selected, name) else None
  {
    PlannedRecord(selected, previous, proxies, name);
    LeftOfOther(PrfSelected(Some(name), Some(node)), previous, proxies, name, node);
  }

  lemma {:induction false} JudgedActivates(
    items: seq<PrfSelected>, previous: Option<Proxies>, proxies: Proxies, name: string, node: string)
    requires OncePerGroup(items)
    ensures (name, node) in Judged(items, previous, proxies).activations <==>
        LastRecord(items, name) == Some(PrfSelected(Some(name), Some(node))) &&
        Activates(PrfSelected(Some(name), Some(node)), proxies)
  {
    if items != [] {
      var shorter, item := items[..|items| - 1], items[|items| - 1];
      JudgedActivates(shorter, previous, proxies, name, node);
      LastRecordMentioned(shorter, name);
    }
  }

  /** A select is planned exactly when the last record asks a selectable group for a node it lists and is not on. */
  lemma ActivatesIff(
    selected: seq<PrfSelected>, previous: Option<Proxies>, proxies: Proxies, name: string, node: string)
    ensures (name, node) in Reconciled(selected, previous, proxies).activations <==>
        && LastRecord(selected, name) == Some(PrfSelected(Some(name), Some(node)))
        && name in proxies
        && proxies[name].proxyType != OtherType
        && proxies[name].all.Some? && node in proxies[name].all.value
        && proxies[name].now != Some(node)
  {
    LastPerGroupIsOnce(selected);
    JudgedActivates(LastPerGroup(selected), previous, proxies, name, node);
    LastPerGroupKeepsRecord(selected, name);
  }

  // The order of the plan

  /** `p` is where `name` is recorded last. */
  ghost predicate LastAt(items: seq<PrfSelected>, name: string, p: nat) {
    p < |items| && items[p].name == Some(name) && forall k :: p < k < |items| ==> items[k].name != Some(name)
  }

  lemma {:induction false} LastPerGroupOrder(items: seq<PrfSelected>, i: nat, j: nat, p: nat, q: nat)
    requires i < j < |LastPerGroup(items)|
    requires LastPerGroup(items)[i].name.Some? && LastAt(items, LastPerGroup(items)[i].name.value, p)
    requires LastPerGroup(items)[j].name.Some? && LastAt(items, LastPerGroup(items)[j].name.value, q)
    ensures p < q
  {
    var first, rest := items[0], items[1..];
    LastPerGroupIsOnce(items);
    LastPerGroupIsOnce(rest);
    var kept := if first.name.Some? && !Mentions(rest, first.name.value) then 1 else 0;
    var b := LastPerGroup(items)[j];
    LastIsInRest(items, b, q);
    if i < kept {
      forall k | 0 < k < |items| ensures items[k].name != first.name {
        assert rest[k - 1] == items[k];
      }
    } else {
      LastIsInRest(items, LastPerGroup(items)[i], p);
      LastPerGroupOrder(rest, i - kept, j - kept, p - 1, q - 1);
    }
  }

  lemma LastIsInRest(items: seq<PrfSelected>, r: PrfSelected, q: nat)
    requires items != [] && r in LastPerGroup(items[1..]) && r.name.Some? && LastAt(items, r.name.value, q)
    ensures q > 0 && LastAt(items[1..], r.name.value, q - 1)
  {
    var rest := items[1..];
    LastPerGroupIsOnce(rest);
    var i :| 0 <= i < |LastPerGroup(rest)| && LastPerGroup(rest)[i] == r;
    assert r in rest;
    var k :| 0 <= k < |rest| && rest[k] == r;
    assert items[k + 1] == r;
  }

  lemma RecordOrigin(
    items: seq<PrfSelected>, previous: Option<Proxies>, proxies: Proxies, i: nat) returns (k: nat)
    requires i < |Judged(items, previous, proxies).selected|
    ensures k < |items| && items[k].name == Judged(items, previous, proxies).selected[i].name
  {
    var r := Judged(items, previous, proxies).selected[i];
    k := RecordsHaveOrigins(items, previous, proxies, r);
    assert Record(items[k], Judge(items[k], previous, proxies))[0] == r;
  }

  lemma {:induction false} RecordsInOrder(
    items: seq<PrfSelected>, previous: Option<Proxies>, proxies: Proxies, i: nat, j: nat) returns (k: nat, l: nat)
    requires i < j < |Judged(items, previous, proxies).selected|
    ensures k < l < |items|
    ensures Judged(items, previous, proxies).selected[i].name == items[k].name
    ensures Judged(items, previous, proxies).selected[j].name == items[l].name
  {
    var shorter, item := items[..|items| - 1], items[|items| - 1];
    var before, added := Judged(shorter, previous, proxies).selected, Record(item, Judge(item, previous, proxies));
    assert Judged(items, previous, proxies).selected == before + added;
    assert |added| <= 1 && (added != [] ==> added[0].name == item.name);
    if j < |before| {
      k, l := RecordsInOrder(shorter, previous, proxies, i, j);
    } else {
      k := RecordOrigin(shorter, previous, proxies, i);
      l := |items| - 1;
    }
  }

  lemma {:induction false} ActivationOrigin(
    items: seq<PrfSelected>, previous: Option<Proxies>, proxies: Proxies, i: nat) returns (k: nat)
    requires i < |Judged(items, previous, proxies).activations|
    ensures k < |items| && items[k].name == Some(Judged(items, previous, proxies).activations[i].0)
  {
    var shorter := items[..|items| - 1];
    if i < |Judged(shorter, previous, proxies).activations| {
      k := ActivationOrigin(shorter, previous, proxies, i);
    } else {
      k := |items| - 1;
    }
  }

  lemma {:induction false} ActivationsInOrder(
    items: seq<PrfSelected>, previous: Option<Proxies>, proxies: Proxies, i: nat, j: nat) returns (k: nat, l: nat)
    requires i < j < |Judged(items, previous, proxies).activations|
    ensures k < l < |items|
    ensures items[k].name == Some(Judged(items, previous, proxies).activations[i].0)
    ensures items[l].name == Some(Judged(items, previous, proxies).activations[j].0)
  {
    var shorter := items[..|items| - 1];
    if j < |Judged(shorter, previous, proxies).activations| {
      k, l := ActivationsInOrder(shorter, previous, proxies, i, j);
    } else {
      k := ActivationOrigin(shorter, previous, proxies, i);
      l := |items| - 1;
    }
  }

  /** `a` is recorded last before `b` is. */
  ghost predicate Precedes(selected: seq<PrfSelected>, a: string, b: string) {
    forall p: nat, q: nat :: LastAt(selected, a, p) && LastAt(selected, b, q) ==> p < q
  }

  /** Records and selects are planned in the order in which their groups are recorded last. */
  lemma PlanKeepsOrder(selected: seq<PrfSelected>, previous: Option<Proxies>, proxies: Proxies, i: nat, j: nat)
    requires i < j
    ensures var plan := Reconciled(selected, previous, proxies);
            && (j < |plan.selected| ==>
                  && plan.selected[i].name.Some? && plan.selected[j].name.Some?
                  && Precedes(selected, plan.selected[i].name.value, plan.selected[j].name.value))
            && (j < |plan.activations| ==> Precedes(selected, plan.activations[i].0, plan.activations[j].0))
  {
    var plan := Reconciled(selected, previous, proxies);
    if j < |plan.selected| {
      var k, l := RecordsInOrder(LastPerGroup(selected), previous, proxies, i, j);
      KeptInOrder(selected, k, l);
    }
    if j < |plan.activations| {
      var k, l := ActivationsInOrder(LastPerGroup(selected), previous, proxies, i, j);
      KeptInOrder(selected, k, l);
    }
  }

  lemma KeptInOrder(selected: seq<PrfSelected>, k: nat, l: nat)
    requires k < l < |LastPerGroup(selected)|
    ensures LastPerGroup(selected)[k].name.Some? && LastPerGroup(selected)[l].name.Some?
    ensures Precedes(selected, LastPerGroup(selected)[k].name.value, LastPerGroup(selected)[l].name.value)
  {
    LastPerGroupIsOnce(selected);
    var a, b := LastPerGroup(selected)[k].name.value, LastPerGroup(selected)[l].name.value;
    forall p: nat, q: nat | LastAt(selected, a, p) && LastAt(selected, b, q) ensures p < q {
      LastPerGroupOrder(selected, k, l, p, q);
    }
  }
}

/** `IProfiles`: the list of profiles, the current one, and the operations that edit them. */
module ProfileList {
  import opened Options
  import opened SelectionReconcile

  datatype PrfOption = PrfOption(
    merge: Option<string>,
    script: Option<string>,
    rules: Option<string>,
    proxies: Option<string>,
    groups: Option<string>)

  datatype PrfItem = PrfItem(
    uid: Option<string>,
    itype: Option<string>,
    file: Option<string>,
    option: Option<PrfOption>,
    selected: Option<seq<PrfSelected>>)

  datatype Profiles = Profiles(current: Option<string>, items: Option<seq<PrfItem>>)

  function ItemsOf(p: Profiles): seq<PrfItem> { if p.items.Some? then p.items.value else [] }

  /** The kinds of item that can be the current profile. */
  predicate IsProfile(item: PrfItem) { item.itype == Some("remote") || item.itype == Some("local") }

  /** What the deletion of an item also asks for; an unset reference stays in the list as `None`. */
  function References(item: PrfItem): seq<Option<string>> {
    match item.option
    case None => []
    case Some(op) => [op.merge, op.script, op.rules, op.proxies, op.groups]
  }

  // ----- Specifications -----

  /** Position of the first item with this uid, `None` included; the length when there is none. */
  function IndexOf(items: seq<PrfItem>, uid: Option<string>): (i: nat)
    ensures i <= |items|
    ensures i < |items| ==> items[i].uid == uid
    ensures forall k :: 0 <= k < i ==> items[k].uid != uid
  {
    if items == [] || items[0].uid == uid then 0 else 1 + IndexOf(items[1..], uid)
  }

  function RemoveAt(items: seq<PrfItem>, i: nat): seq<PrfItem> {
    if i < |items| then items[..i] + items[i + 1..] else items
  }

  function Without(items: seq<PrfItem>, uid: Option<string>): seq<PrfItem> { RemoveAt(items, IndexOf(items, uid)) }

  function WithoutAll(items: seq<PrfItem>, uids: seq<Option<string>>): seq<PrfItem> {
    if uids == [] then items else Without(WithoutAll(items, uids[..|uids| - 1]), uids[|uids| - 1])
  }

  /** The files of the items that removing `uids` in turn takes out. */
  function TakenFiles(items: seq<PrfItem>, uids: seq<Option<string>>): seq<string> {
    if uids == [] then []
    else
      var before := WithoutAll(items, uids[..|uids| - 1]);
      var i := IndexOf(before, uids[|uids| - 1]);
      TakenFiles(items, uids[..|uids| - 1])
        + FileOf(before, i)
  }

  /** The file of the item at `i`, if there is one. */
  function FileOf(items: seq<PrfItem>, i: nat): seq<string> {
    if i < |items| then FileIn(items[i]) else []
  }

  function FileIn(item: PrfItem): seq<string> { if item.file.Some? then [item.file.value] else [] }

  function FirstProfile(items: seq<PrfItem>): Option<string> {
    if items == [] then None else if IsProfile(items[0]) then items[0].uid else FirstProfile(items[1..])
  }

  /** `uid` is that of the first remote or local item, or unset when there is none. */
  ghost predicate IsFirstProfile(items: seq<PrfItem>, uid: Option<string>) {
    || (uid.None? && forall k :: 0 <= k < |items| ==> items[k].itype !in {Some("remote"), Some("local")})
    || (exists i :: 0 <= i < |items| && FirstProfileAt(items, i) && uid == items[i].uid)
  }

  ghost predicate FirstProfileAt(items: seq<PrfItem>, i: nat) {
    && i < |items|
    && items[i].itype in {Some("remote"), Some("local")}
    && forall k :: 0 <= k < i ==> items[k].itype !in {Some("remote"), Some("local")}
  }

  lemma {:induction false} FirstProfileIsFirst(items: seq<PrfItem>)
    ensures IsFirstProfile(items, FirstProfile(items))
  {
    if items != [] {
      if IsProfile(items[0]) {
        assert FirstProfileAt(items, 0);
      } else {
        var rest := items[1..];
        FirstProfileIsFirst(rest);
        if i :| 0 <= i < |rest| && FirstProfileAt(rest, i) && FirstProfile(items) == rest[i].uid {
          assert FirstProfileAt(items, i + 1);
        } else {
          forall k | 0 <= k < |items| ensures items[k].itype !in {Some("remote"), Some("local")} {
            assert k > 0 ==> items[k] == rest[k - 1];
          }
        }
      }
    }
  }

  function Targets(items: seq<PrfItem>, uid: string): seq<Option<string>>
    requires IndexOf(items, Some(uid)) < |items|
  {
    [Some(uid)] + References(items[IndexOf(items, Some(uid))])
  }

  predicate DeletesCurrent(p: Profiles, uid: string) { p.current.None? || p.current.value == uid }

  function Deleted(p: Profiles, uid: string): Profiles {
    var items := ItemsOf(p);
    if IndexOf(items, Some(uid)) == |items| then p
    else
      var left := WithoutAll(items, Targets(items, uid));
      Profiles(if DeletesCurrent(p, uid) then FirstProfile(left) else p.current, Some(left))
  }

  function Appended(p: Profiles, item: PrfItem): Profiles {
    Profiles(if p.current.None? && IsProfile(item) then item.uid else p.current, Some(ItemsOf(p) + [item]))
  }

  function Patched(p: Profiles, current: Option<string>): Profiles {
    var listed := current.Some? && IndexOf(ItemsOf(p), current) < |ItemsOf(p)|;
    Profiles(if listed then current else p.current, Some(ItemsOf(p)))
  }

  /** Position of the last item with this uid; the length when there is none. */
  function LastIndexOf(items: seq<PrfItem>, uid: Option<string>): (i: nat)
    ensures i <= |items|
    ensures i < |items| ==> items[i].uid == uid && forall k :: i < k < |items| ==> items[k].uid != uid
    ensures i == |items| ==> forall k :: 0 <= k < |items| ==> items[k].uid != uid
  {
    if items == [] then 0
    else if items[|items| - 1].uid == uid then |items| - 1
    else
      var i := LastIndexOf(items[..|items| - 1], uid);
      if i == |items| - 1 then |items| else i
  }

  function Moved(items: seq<PrfItem>, from: nat, to: nat): seq<PrfItem>
    requires from < |items| && to < |items|
  {
    RemoveAt(items, from)[..to] + [items[from]] + RemoveAt(items, from)[to..]
  }

  function Reordered(p: Profiles, activeId: string, overId: string): Profiles {
    var items := ItemsOf(p);
    var from, to := LastIndexOf(items, Some(activeId)), LastIndexOf(items, Some(overId));
    if from == |items| || to == |items| then p
    else
      p.(items := Some(Moved(items, from, to)))
  }

  /** The choices recorded for an item. */
  function ChoicesOf(item: PrfItem): seq<PrfSelected> { if item.selected.Some? then item.selected.value else [] }

  /** Position of the current item; the length when there is none. */
  function CurrentIndex(p: Profiles): nat {
    if p.current.None? then |ItemsOf(p)| else IndexOf(ItemsOf(p), p.current)
  }

  function FirstChoice(choices: seq<PrfSelected>, group: string): (i: nat)
    ensures i <= |choices|
    ensures i < |choices| ==> choices[i].name == Some(group)
    ensures forall k :: 0 <= k < i ==> choices[k].name != Some(group)
  {
    if choices == [] || choices[0].name == Some(group) then 0 else 1 + FirstChoice(choices[1..], group)
  }

  /** The choices after `group` was set to `node`. */
  function Chosen(choices: seq<PrfSelected>, group: string, node: string): seq<PrfSelected> {
    var i := FirstChoice(choices, group);
    if i < |choices| then choices[i := choices[i].(now := Some(node))]
    else choices + [PrfSelected(Some(group), Some(node))]
  }

  function WithChoices(p: Profiles, i: nat, choices: Option<seq<PrfSelected>>): Profiles
    requires i < |ItemsOf(p)|
  {
    p.(items := Some(ItemsOf(p)[i := ItemsOf(p)[i].(selected := choices)]))
  }

  /** `record_selected_node`: sets the choice of the current profile; `None` when there is nothing to write. */
  function RecordedNode(p: Profiles, group: string, node: string): Option<Profiles> {
    var i := CurrentIndex(p);
    if i == |ItemsOf(p)| then None
    else
      var choices := ChoicesOf(ItemsOf(p)[i]);
      var at := FirstChoice(choices, group);
      if at < |choices| && choices[at].now == Some(node) then None
      else Some(WithChoices(p, i, Some(Chosen(choices, group, node))))
  }

  /** `remove_selected_node`. */
  function Forgotten(choices: seq<PrfSelected>, group: string): (r: seq<PrfSelected>)
    ensures |r| <= |choices|
  {
    if choices == [] then []
    else (if choices[0].name == Some(group) then [] else [choices[0]]) + Forgotten(choices[1..], group)
  }

  /** `forget_selected_node`: drops the choices of a group; `None` when there is nothing to write. */
  function ForgottenNode(p: Profiles, group: string): Option<Profiles> {
    var i := CurrentIndex(p);
    if i == |ItemsOf(p)| then None
    else
      var choices := ChoicesOf(ItemsOf(p)[i]);
      var rest := Forgotten(choices, group);
      if |rest| == |choices| then None else Some(WithChoices(p, i, if rest == [] then None else Some(rest)))
  }

  datatype Persisted = Written(profiles: Profiles) | Untouched | NoSuchItem

  /** The edit of `persist_reconciled_selected`, with `overtaken` telling the generation check inside it. */
  function PersistedPlan(p: Profiles, profileUid: string, original: seq<PrfSelected>, selected: seq<PrfSelected>,
      overtaken: bool): Persisted {
    if overtaken || p.current != Some(profileUid) then Untouched
    else if CurrentIndex(p) == |ItemsOf(p)| then NoSuchItem
    else if ChoicesOf(ItemsOf(p)[CurrentIndex(p)]) != original then Untouched
    else Written(WithChoices(p, CurrentIndex(p), if selected == [] then None else Some(selected)))
  }

  // ----- The class -----

  class IProfiles {
    var current: Option<string>
    var items: Option<seq<PrfItem>>

    function View(): Profiles
      reads this
    {
      Profiles(current, items)
    }

    constructor (p: Profiles)
      ensures View() == p
    {
      current := p.current;
      items := p.items;
    }

    /** `get_item`. */
    method GetItem(uid: string) returns (r: Option<PrfItem>)
      ensures var list := ItemsOf(View());
              r == if IndexOf(list, Some(uid)) < |list| then Some(list[IndexOf(list, Some(uid))]) else None
    {
      if items.Some? {
        for i := 0 to |items.value|
          invariant forall k :: 0 <= k < i ==> items.value[k].uid != Some(uid)
        {
          if items.value[i].uid == Some(uid) {
            return Some(items.value[i]);
          }
        }
      }
      return None;
    }

    /** `patch_config`: a `current` that names no item is ignored. */
    method PatchConfig(patchCurrent: Option<string>)
      modifies this
      ensures View() == Patched(old(View()), patchCurrent)
      ensures items == Some(ItemsOf(old(View())))
      ensures current ==
        if patchCurrent.Some? && exists e :: e in ItemsOf(old(View())) && e.uid == patchCurrent then patchCurrent
        else old(current)
    {
      if items.None? {
        items := Some([]);
      }
      if patchCurrent.Some? {
        if exists e :: e in items.value && e.uid == patchCurrent {
          current := patchCurrent;
        }
      }
    }

    /** `append_item`; `writes` tells whether writing the file data, if there is any, succeeds. */
    method AppendItem(item: PrfItem, hasFileData: bool, writes: bool) returns (ok: bool)
      modifies this
      ensures ok <==> item.uid.Some? && (hasFileData ==> item.file.Some? && writes)
      ensures View() == if ok then Appended(old(View()), item) else old(View())
      ensures ok ==> items == Some(ItemsOf(old(View())) + [item])
      ensures ok ==>
        current == if old(current).None? && item.itype in {Some("remote"), Some("local")} then item.uid
                   else old(current)
    {
      if item.uid.None? {
        return false;
      }
      if hasFileData {
        if item.file.None? || !writes {
          return false;
        }
      }
      if current.None? && (item.itype == Some("remote") || item.itype == Some("local")) {
        current := item.uid;
      }
      if items.None? {
        items := Some([]);
      }
      items := Some(items.value + [item]);
      return true;
    }

    /** `reorder`, without the write to disk that follows it. */
    method Reorder(activeId: string, overId: string)
      modifies this`items
      ensures View() == Reordered(old(View()), activeId, overId)
    {
      if items.None? {
        return;
      }
      var oldIndex, newIndex := LastIndexOf(items.value, Some(activeId)), LastIndexOf(items.value, Some(overId));
      if oldIndex == |items.value| || newIndex == |items.value| {
        return;
      }
      var item := items.value[oldIndex];
      items := Some(items.value[..oldIndex] + items.value[oldIndex + 1..]);
      items := Some(items.value[..newIndex] + [item] + items.value[newIndex..]);
    }

    /** `take_item_file_by_uid`. */
    static method TakeItemFileByUid(list: seq<PrfItem>, target: Option<string>)
      returns (rest: seq<PrfItem>, file: Option<string>)
      ensures rest == Without(list, target)
      ensures file == if IndexOf(list, target) < |list| then list[IndexOf(list, target)].file else None
    {
      for i := 0 to |list|
        invariant forall k :: 0 <= k < i ==> list[k].uid != target
      {
        if list[i].uid == target {
          return list[..i] + list[i + 1..], list[i].file;
        }
      }
      return list, None;
    }

    /** The removals of a deletion, one after the other. */
    static method TakeItems(list: seq<PrfItem>, targets: seq<Option<string>>)
      returns (rest: seq<PrfItem>, files: seq<string>)
      ensures rest == WithoutAll(list, targets) && files == TakenFiles(list, targets)
    {
      rest, files := list, [];
      for i := 0 to |targets|
        invariant rest == WithoutAll(list, targets[..i]) && files == TakenFiles(list, targets[..i])
      {
        assert targets[..i + 1][..i] == targets[..i];
        var file;
        rest, file := TakeItemFileByUid(rest, targets[i]);
        if file.Some? {
          files := files + [file.value];
        }
      }
      assert targets[..|targets|] == targets;
    }

    /** The replacement for a deleted current profile. */
    static method PickCurrent(list: seq<PrfItem>) returns (picked: Option<string>)
      ensures picked == FirstProfile(list)
    {
      picked := None;
      var i := 0;
      assert list[0..] == list;
      while i < |list|
        invariant 0 <= i <= |list|
        invariant picked == None && FirstProfile(list) == FirstProfile(list[i..])
      {
        if list[i].itype == Some("remote") || list[i].itype == Some("local") {
          return list[i].uid;
        }
        i := i + 1;
      }
    }

    /** The edit of `record_selected_node`, with its search for the group's entry. */
    method RecordSelectedNode(group: string, node: string) returns (changed: bool)
      modifies this`items
      ensures var r := RecordedNode(old(View()), group, node);
              (changed <==> r.Some?) && View() == if changed then r.value else old(View())
    {
      if current.None? || items.None? || IndexOf(items.value, current) == |items.value| {
        return false;
      }
      var index := IndexOf(items.value, current);
      var selected := ChoicesOf(items.value[index]);
      var i := 0;
      while i < |selected| && selected[i].name != Some(group)
        invariant 0 <= i <= |selected|
        invariant forall k :: 0 <= k < i ==> selected[k].name != Some(group)
      {
        i := i + 1;
      }
      assert i == FirstChoice(selected, group);
      if i < |selected| {
        if selected[i].now == Some(node) {
          return false;
        }
        selected := selected[i := selected[i].(now := Some(node))];
      } else {
        selected := selected + [PrfSelected(Some(group), Some(node))];
      }
      items := Some(items.value[index := items.value[index].(selected := Some(selected))]);
      return true;
    }

    /** `remove_selected_node`, with the loop of `retain`. */
    static method RemoveSelectedNode(selected: seq<PrfSelected>, group: string) returns (kept: seq<PrfSelected>)
      ensures kept == Forgotten(selected, group)
    {
      kept := [];
      var i := 0;
      assert selected[0..] == selected;
      while i < |selected|
        invariant 0 <= i <= |selected| && Forgotten(selected, group) == kept + Forgotten(selected[i..], group)
      {
        assert selected[i..][1..] == selected[i + 1..];
        if selected[i].name != Some(group) {
          kept := kept + [selected[i]];
        }
        i := i + 1;
      }
    }

    /** The edit of `forget_selected_node`. */
    method ForgetSelectedNode(group: string) returns (changed: bool)
      modifies this`items
      ensures var r := ForgottenNode(old(View()), group);
              (changed <==> r.Some?) && View() == if changed then r.value else old(View())
    {
      if current.None? || items.None? || IndexOf(items.value, current) == |items.value| {
        return false;
      }
      var index := IndexOf(items.value, current);
      var selected := ChoicesOf(items.value[index]);
      var kept := RemoveSelectedNode(selected, group);
      if |kept| == |selected| {
        return false;
      }
      items := Some(items.value[index := items.value[index].(selected := if kept == [] then None else Some(kept))]);
      return true;
    }

    /** The edit of `persist_reconciled_selected`; `None` when the profile has no item. */
    method PersistReconciledSelected(
      profileUid: string, original: seq<PrfSelected>, selected: seq<PrfSelected>, overtaken: bool)
      returns (changed: Option<bool>)
      modifies this`items
      ensures var r := PersistedPlan(old(View()), profileUid, original, selected, overtaken);
              && changed == (if r.NoSuchItem? then None else Some(r.Written?))
              && View() == if r.Written? then r.profiles else old(View())
    {
      if overtaken || current != Some(profileUid) {
        return Some(false);
      }
      if items.None? || IndexOf(items.value, current) == |items.value| {
        return None;
      }
      var index := IndexOf(items.value, current);
      if ChoicesOf(items.value[index]) != original {
        return Some(false);
      }
      var written := if selected == [] then None else Some(selected);
      items := Some(items.value[index := items.value[index].(selected := written)]);
      return Some(true);
    }

    /** `plan_delete_item`: on success, whether the current profile went and the files to remove. */
    method PlanDeleteItem(uid: string) returns (r: Option<(bool, seq<string>)>)
      modifies this
      ensures View() == Deleted(old(View()), uid)
      ensures var list := ItemsOf(old(View()));
              r == if IndexOf(list, Some(uid)) == |list| then None
                   else Some((DeletesCurrent(old(View()), uid), TakenFiles(list, Targets(list, uid))))
      ensures r.Some? <==> exists item :: item in ItemsOf(old(View())) && item.uid == Some(uid)
      ensures r.Some? ==> (r.value.0 <==> old(current) == None || old(current) == Some(uid))
      ensures r.Some? && r.value.0 ==> items.Some? && IsFirstProfile(items.value, current)
      ensures r.Some? && !r.value.0 ==> current == old(current)
    {
      var deletingCurrent := current.None? || current.value == uid;
      var found := GetItem(uid);
      if found.None? {
        return None;
      }
      var deleteUids := References(found.value);
      var list := if items.Some? then items.value else [];
      var rest, files := TakeItems(list, [Some(uid)] + deleteUids);
      if deletingCurrent {
        current := PickCurrent(rest);
        FirstProfileIsFirst(rest);
      }
      items := Some(rest);
      return Some((deletingCurrent, files));
    }
  }

  // ----- Deletion -----

  ghost predicate Unique(items: seq<PrfItem>) {
    forall i, j :: 0 <= i < j < |items| && items[i].uid.Some? ==> items[i].uid != items[j].uid
  }

  ghost predicate NonNull(items: seq<PrfItem>) {
    forall i :: 0 <= i < |items| ==> items[i].uid.Some?
  }

  /** The items whose uid is none of `uids`, in order. */
  function Filtered(items: seq<PrfItem>, uids: seq<Option<string>>): seq<PrfItem> {
    if items == [] then []
    else
      var last := items[|items| - 1];
      Filtered(items[..|items| - 1], uids) + if last.uid.Some? && last.uid in uids then [] else [last]
  }

  lemma {:induction false} FilteredApart(a: seq<PrfItem>, b: seq<PrfItem>, uids: seq<Option<string>>)
    ensures Filtered(a + b, uids) == Filtered(a, uids) + Filtered(b, uids)
  {
    if b == [] {
      assert a + b == a;
    } else {
      FilteredApart(a, b[..|b| - 1], uids);
      assert (a + b)[..|a + b| - 1] == a + b[..|b| - 1];
    }
  }

  lemma {:induction false} FilteredKeepsAll(items: seq<PrfItem>, uids: seq<Option<string>>)
    requires forall i :: 0 <= i < |items| ==> items[i].uid.None? || items[i].uid !in uids
    ensures Filtered(items, uids) == items
  {
    if items != [] {
      FilteredKeepsAll(items[..|items| - 1], uids);
    }
  }

  lemma {:induction false} FilteredMembers(items: seq<PrfItem>, uids: seq<Option<string>>)
    ensures forall item :: item in Filtered(items, uids) <==> item in items && (item.uid.None? || item.uid !in uids)
    ensures Unique(items) ==> Unique(Filtered(items, uids))
  {
    if items != [] {
      var shorter, last := items[..|items| - 1], items[|items| - 1];
      FilteredMembers(shorter, uids);
      assert items == shorter + [last];
      if Unique(items) {
        forall i | 0 <= i < |Filtered(shorter, uids)| && Filtered(shorter, uids)[i].uid.Some?
          ensures Filtered(shorter, uids)[i].uid != last.uid
        {
          assert Filtered(shorter, uids)[i] in shorter;
        }
      }
    }
  }

  lemma {:induction false} FilteredTwice(items: seq<PrfItem>, uids: seq<Option<string>>, more: Option<string>)
    ensures Filtered(Filtered(items, uids), [more]) == Filtered(items, uids + [more])
  {
    if items != [] {
      var shorter, last := items[..|items| - 1], items[|items| - 1];
      FilteredTwice(shorter, uids, more);
      var tail := if last.uid.Some? && last.uid in uids then [] else [last];
      FilteredApart(Filtered(shorter, uids), tail, [more]);
    }
  }

  lemma FilteredOneMore(items: seq<PrfItem>, last: PrfItem, uids: seq<Option<string>>)
    ensures Filtered(items + [last], uids) ==
        Filtered(items, uids) + if last.uid.Some? && last.uid in uids then [] else [last]
  {
    assert (items + [last])[..|items|] == items;
  }

  lemma {:induction false} FilteredDropsOne(items: seq<PrfItem>, i: nat)
    requires i < |items| && items[i].uid.Some?
    requires forall k :: 0 <= k < |items| && k != i ==> items[k].uid != items[i].uid
    ensures Filtered(items, [items[i].uid]) == RemoveAt(items, i)
  {
    var shorter, last, uids := items[..|items| - 1], items[|items| - 1], [items[i].uid];
    FilteredOneMore(shorter, last, uids);
    assert items == shorter + [last];
    assert forall k :: 0 <= k < |shorter| ==> shorter[k] == items[k];
    assert forall uid :: uid in uids <==> uid == items[i].uid;
    if i == |items| - 1 {
      FilteredKeepsAll(shorter, uids);
      assert RemoveAt(items, i) == shorter;
    } else {
      FilteredDropsOne(shorter, i);
      assert last.uid != items[i].uid;
      assert RemoveAt(items, i) == RemoveAt(shorter, i) + [last];
    }
  }

  /** Removing the first item with a uid that is unique, or absent, is filtering that uid out. */
  lemma WithoutIsFilter(items: seq<PrfItem>, uid: Option<string>)
    requires Unique(items) && (uid.None? ==> NonNull(items))
    ensures Without(items, uid) == Filtered(items, [uid])
  {
    var i := IndexOf(items, uid);
    if i == |items| {
      FilteredKeepsAll(items, [uid]);
    } else {
      FilteredDropsOne(items, i);
    }
  }

  lemma FilteredNonNull(items: seq<PrfItem>, uids: seq<Option<string>>)
    requires NonNull(items)
    ensures NonNull(Filtered(items, uids))
  {
    FilteredMembers(items, uids);
    forall i | 0 <= i < |Filtered(items, uids)| ensures Filtered(items, uids)[i].uid.Some? {
      assert Filtered(items, uids)[i] in items;
    }
  }

  lemma {:induction false} WithoutAllIsFilter(items: seq<PrfItem>, uids: seq<Option<string>>)
    requires Unique(items) && (None in uids ==> NonNull(items))
    ensures WithoutAll(items, uids) == Filtered(items, uids)
  {
    if uids == [] {
      FilteredKeepsAll(items, uids);
    } else {
      var fewer, last := uids[..|uids| - 1], uids[|uids| - 1];
      assert uids == fewer + [last];
      WithoutAllIsFilter(items, fewer);
      FilteredMembers(items, fewer);
      if last.None? {
        FilteredNonNull(items, fewer);
      }
      WithoutIsFilter(Filtered(items, fewer), last);
      FilteredTwice(items, fewer, last);
    }
  }

  function Nameless(items: seq<PrfItem>): nat {
    if items == [] then 0 else Nameless(items[..|items| - 1]) + if items[|items| - 1].uid.None? then 1 else 0
  }

  lemma {:induction false} NamelessApart(a: seq<PrfItem>, b: seq<PrfItem>)
    ensures Nameless(a + b) == Nameless(a) + Nameless(b)
  {
    if b == [] {
      assert a + b == a;
    } else {
      NamelessApart(a, b[..|b| - 1]);
      assert (a + b)[..|a + b| - 1] == a + b[..|b| - 1];
    }
  }

  lemma NamelessAfterWithout(items: seq<PrfItem>, uid: Option<string>)
    ensures Nameless(Without(items, uid)) == Nameless(items) - if uid.None? && Nameless(items) > 0 then 1 else 0
  {
    var i := IndexOf(items, uid);
    if i < |items| {
      assert items == items[..i] + ([items[i]] + items[i + 1..]);
      NamelessApart(items[..i], [items[i]] + items[i + 1..]);
      NamelessApart([items[i]], items[i + 1..]);
      NamelessApart(items[..i], items[i + 1..]);
    } else if uid.None? {
      NoneNameless(items);
    }
  }

  lemma {:induction false} NoneNameless(items: seq<PrfItem>)
    ensures Nameless(items) == 0 <==> NonNull(items)
  {
    if items != [] {
      NoneNameless(items[..|items| - 1]);
    }
  }

  lemma {:induction false} NamelessAfterAll(items: seq<PrfItem>, uids: seq<Option<string>>)
    ensures Nameless(WithoutAll(items, uids)) <= Nameless(items)
    ensures None in uids && Nameless(items) > 0 ==> Nameless(WithoutAll(items, uids)) < Nameless(items)
  {
    if uids != [] {
      NamelessAfterAll(items, uids[..|uids| - 1]);
      NamelessAfterWithout(WithoutAll(items, uids[..|uids| - 1]), uids[|uids| - 1]);
    }
  }

  lemma {:induction false} NamelessAfterFilter(items: seq<PrfItem>, uids: seq<Option<string>>)
    ensures Nameless(Filtered(items, uids)) == Nameless(items)
  {
    if items != [] {
      NamelessAfterFilter(items[..|items| - 1], uids);
      var last := items[|items| - 1];
      NamelessApart(Filtered(items[..|items| - 1], uids), if last.uid.Some? && last.uid in uids then [] else [last]);
    }
  }

  /**
   * With distinct uids, deleting takes out exactly the item and the items its references name, and keeps
   * the rest in order, if and only if no reference is unset or no listed item lacks a uid: an unset
   * reference takes out the first item without a uid.
   */
  lemma DeletionIsExactIff(p: Profiles, uid: string)
    requires Unique(ItemsOf(p)) && IndexOf(ItemsOf(p), Some(uid)) < |ItemsOf(p)|
    ensures var targets := Targets(ItemsOf(p), uid);
            Deleted(p, uid).items == Some(Filtered(ItemsOf(p), targets)) <==> None !in targets || NonNull(ItemsOf(p))
  {
    var items := ItemsOf(p);
    var targets := Targets(items, uid);
    if None !in targets || NonNull(items) {
      WithoutAllIsFilter(items, targets);
    } else {
      NoneNameless(items);
      NamelessAfterAll(items, targets);
      NamelessAfterFilter(items, targets);
    }
  }

  /**
   * What that exact deletion takes out: the item and those whose uid its five references name. Everything else
   * stays.
   */
  lemma DeletionTakesOut(p: Profiles, uid: string, i: nat, item: PrfItem)
    requires p.items.Some? && Unique(p.items.value) && i < |p.items.value| && p.items.value[i].uid == Some(uid)
    requires NonNull(p.items.value) || p.items.value[i].option.None? ||
        var op := p.items.value[i].option.value;
        op.merge.Some? && op.script.Some? && op.rules.Some? && op.proxies.Some? && op.groups.Some?
    ensures item in ItemsOf(Deleted(p, uid)) <==>
        && item in p.items.value
        && item.uid != Some(uid)
        && (item.uid.Some? && p.items.value[i].option.Some? ==>
              var op := p.items.value[i].option.value;
              item.uid !in {op.merge, op.script, op.rules, op.proxies, op.groups})
  {
    var items := p.items.value;
    assert IndexOf(items, Some(uid)) == i;
    TargetsNamed(items, uid, item.uid);
    TargetsNamed(items, uid, None);
    DeletedByFilter(p, uid, item);
  }

  lemma DeletedByFilter(p: Profiles, uid: string, item: PrfItem)
    requires p.items.Some? && Unique(p.items.value) && IndexOf(p.items.value, Some(uid)) < |p.items.value|
    requires None !in Targets(p.items.value, uid) || NonNull(p.items.value)
    ensures item in ItemsOf(Deleted(p, uid)) <==>
        item in p.items.value && (item.uid.None? || item.uid !in Targets(p.items.value, uid))
  {
    WithoutAllIsFilter(p.items.value, Targets(p.items.value, uid));
    FilteredMembers(p.items.value, Targets(p.items.value, uid));
  }

  lemma {:induction false} TargetsNamed(items: seq<PrfItem>, uid: string, other: Option<string>)
    requires IndexOf(items, Some(uid)) < |items|
    ensures var option := items[IndexOf(items, Some(uid))].option;
            other in Targets(items, uid) <==>
              other == Some(uid) ||
              (option.Some? &&
               other in {option.value.merge, option.value.script, option.value.rules, option.value.proxies,
                         option.value.groups})
  {
    var option := items[IndexOf(items, Some(uid))].option;
    if option.Some? {
      var rest := References(items[IndexOf(items, Some(uid))]);
      assert rest[0] == option.value.merge && rest[1] == option.value.script && rest[2] == option.value.rules;
      assert rest[3] == option.value.proxies && rest[4] == option.value.groups;
    }
  }

  /** For example: with one item that references nothing and one without a uid, both go. */
  lemma UnsetReferenceTakesAnother(item: PrfItem, other: PrfItem, uid: string)
    requires item.uid == Some(uid) && item.option == Some(PrfOption(None, None, None, None, None)) && other.uid == None
    ensures other !in ItemsOf(Deleted(Profiles(Some(uid), Some([item, other])), uid))
    ensures other in Filtered([item, other], Targets([item, other], uid))
  {
    var items := [item, other];
    var targets := Targets(items, uid);
    assert targets[1] == None;
    NamelessOfTwo(item, other);
    NamelessAfterAll(items, targets);
    NoneNameless(WithoutAll(items, targets));
    FilteredMembers(items, targets);
    assert other in items;
  }

  lemma NamelessOfTwo(item: PrfItem, other: PrfItem)
    requires item.uid.Some? && other.uid.None?
    ensures Nameless([item, other]) == 1
  {
    assert [item, other][..1] == [item] && [item][..0] == [];
    assert Nameless([item]) == 0;
  }

  /** The files of a list of items. */
  function Files(items: seq<PrfItem>): seq<string> {
    if items == [] then [] else Files(items[..|items| - 1]) + FileIn(items[|items| - 1])
  }

  function FilesOf(items: seq<PrfItem>): multiset<string> { multiset(Files(items)) }

  lemma {:induction false} FilesApart(a: seq<PrfItem>, b: seq<PrfItem>)
    ensures Files(a + b) == Files(a) + Files(b)
  {
    if b == [] {
      assert a + b == a;
    } else {
      var front, last := b[..|b| - 1], b[|b| - 1];
      FilesApart(a, front);
      FilesApartOneMore(a, front, last);
      assert b == front + [last];
    }
  }

  lemma FilesApartOneMore(a: seq<PrfItem>, b: seq<PrfItem>, last: PrfItem)
    requires Files(a + b) == Files(a) + Files(b)
    ensures Files(a + (b + [last])) == Files(a) + Files(b + [last])
  {
    assert a + (b + [last]) == (a + b) + [last];
    FilesOneMore(a + b, last);
    FilesOneMore(b, last);
    ConcatAssociates(Files(a), Files(b), FileIn(last));
  }

  lemma FilesOneMore(items: seq<PrfItem>, last: PrfItem)
    ensures Files(items + [last]) == Files(items) + FileIn(last)
  {
    assert (items + [last])[..|items|] == items;
  }

  lemma ConcatAssociates(a: seq<string>, b: seq<string>, c: seq<string>)
    ensures (a + b) + c == a + (b + c)
  {
  }

  lemma FilesAfterRemoval(items: seq<PrfItem>, i: nat)
    ensures FilesOf(items) == FilesOf(RemoveAt(items, i)) + multiset(FileOf(items, i))
  {
    if i < |items| {
      var head, one, tail := items[..i], [items[i]], items[i + 1..];
      assert items == head + (one + tail);
      FilesApart(head, one + tail);
      FilesApart(one, tail);
      FilesApart(head, tail);
      assert Files(one) == FileOf(items, i);
      MultisetOfThree(Files(head), Files(one), Files(tail));
    }
  }

  lemma MultisetOfThree(a: seq<string>, b: seq<string>, c: seq<string>)
    ensures multiset(a + (b + c)) == multiset(a + c) + multiset(b)
  {
  }

  /** For every list and all targets: the planned files are exactly those of the items taken out. */
  lemma {:induction false} PlannedFilesAreTheRemoved(items: seq<PrfItem>, uids: seq<Option<string>>)
    ensures FilesOf(items) == FilesOf(WithoutAll(items, uids)) + multiset(TakenFiles(items, uids))
  {
    if uids != [] {
      PlannedFilesAreTheRemoved(items, uids[..|uids| - 1]);
      var before := WithoutAll(items, uids[..|uids| - 1]);
      FilesAfterRemoval(before, IndexOf(before, uids[|uids| - 1]));
    }
  }

  // ----- The current profile over whole runs -----

  ghost predicate Listed(items: seq<PrfItem>, uid: Option<string>) {
    exists i :: 0 <= i < |items| && items[i].uid == uid && IsProfile(items[i])
  }

  /** `current` is unset or names a listed remote or local item. */
  ghost predicate CurrentListed(p: Profiles) { p.current.Some? ==> Listed(ItemsOf(p), p.current) }

  ghost predicate NoProfile(items: seq<PrfItem>) { forall i :: 0 <= i < |items| ==> !IsProfile(items[i]) }

  /** `current` is unset only when there is no remote or local item. */
  ghost predicate CurrentSet(p: Profiles) { p.current.None? ==> NoProfile(ItemsOf(p)) }

  /** No item references a remote or local item. */
  ghost predicate ReferencesOthers(items: seq<PrfItem>) {
    forall i, j :: 0 <= i < |items| && 0 <= j < |items| && IsProfile(items[j]) && items[j].uid.Some? ==>
      items[j].uid !in References(items[i])
  }

  ghost predicate Inv(p: Profiles) {
    && NonNull(ItemsOf(p))
    && Unique(ItemsOf(p))
    && ReferencesOthers(ItemsOf(p))
    && CurrentListed(p)
    && CurrentSet(p)
  }

  lemma {:induction false} FirstProfileIsListed(items: seq<PrfItem>)
    requires NonNull(items)
    ensures FirstProfile(items).Some? ==> Listed(items, FirstProfile(items))
    ensures FirstProfile(items).None? ==> forall i :: 0 <= i < |items| ==> !IsProfile(items[i])
  {
    if items != [] {
      if IsProfile(items[0]) {
        assert Listed(items, items[0].uid);
      } else {
        FirstProfileIsListed(items[1..]);
        if FirstProfile(items[1..]).Some? {
          var k :| 0 <= k < |items[1..]| && items[1..][k].uid == FirstProfile(items) && IsProfile(items[1..][k]);
          assert items[k + 1].uid == FirstProfile(items) && IsProfile(items[k + 1]);
        } else {
          forall i | 0 <= i < |items| ensures !IsProfile(items[i]) {
            if i > 0 { assert items[i] == items[1..][i - 1]; }
          }
        }
      }
    }
  }

  /**
   * Deleting keeps `current` listed exactly when it was replaced, or is not among the references of the
   * deleted item.
   */
  lemma CurrentAfterDelete(p: Profiles, uid: string)
    requires NonNull(ItemsOf(p)) && Unique(ItemsOf(p)) && CurrentListed(p)
    requires IndexOf(ItemsOf(p), Some(uid)) < |ItemsOf(p)|
    ensures CurrentListed(Deleted(p, uid)) <==>
      DeletesCurrent(p, uid) || p.current !in References(ItemsOf(p)[IndexOf(ItemsOf(p), Some(uid))])
    ensures DeletesCurrent(p, uid) && Deleted(p, uid).current.None? ==>
      forall i :: 0 <= i < |ItemsOf(Deleted(p, uid))| ==> !IsProfile(ItemsOf(Deleted(p, uid))[i])
  {
    var items := ItemsOf(p);
    var targets := Targets(items, uid);
    WithoutAllIsFilter(items, targets);
    FilteredNonNull(items, targets);
    var left := Filtered(items, targets);
    assert ItemsOf(Deleted(p, uid)) == left;
    if DeletesCurrent(p, uid) {
      FirstProfileIsListed(left);
    } else {
      CurrentInFilter(items, targets, p.current);
    }
  }

  /**
   * A deletion is for the current profile exactly when none is set or its uid is the deleted one. Then
   * `current` moves to the first remote or local item left, if there is one; else it stays.
   */
  lemma DeletionPicksCurrent(p: Profiles, uid: string)
    requires p.items.Some? && exists item :: item in p.items.value && item.uid == Some(uid)
    ensures var after := Deleted(p, uid);
            && after.items.Some?
            && (p.current == None || p.current == Some(uid) ==> IsFirstProfile(after.items.value, after.current))
            && (p.current != None && p.current != Some(uid) ==> after.current == p.current)
  {
    var item :| item in p.items.value && item.uid == Some(uid);
    FirstProfileIsFirst(WithoutAll(p.items.value, Targets(p.items.value, uid)));
  }

  lemma CurrentInFilter(items: seq<PrfItem>, targets: seq<Option<string>>, uid: Option<string>)
    requires uid.Some? && Listed(items, uid)
    ensures Listed(Filtered(items, targets), uid) <==> uid !in targets
  {
    FilteredMembers(items, targets);
    var left := Filtered(items, targets);
    if uid !in targets {
      var i :| 0 <= i < |items| && items[i].uid == uid && IsProfile(items[i]);
      assert items[i] in left;
    }
    if Listed(left, uid) {
      var i :| 0 <= i < |left| && left[i].uid == uid && IsProfile(left[i]);
      assert left[i] in left;
    }
  }

  datatype Op =
    | Append(item: PrfItem)
    | Patch(current: Option<string>)
    | Move(activeId: string, overId: string)
    | Delete(uid: string)

  /**
   * What the callers grant: a new item has a uid of its own, references point away from remote and local
   * items, and `current` is directed only at those.
   */
  ghost predicate Granted(p: Profiles, op: Op) {
    match op
    case Append(item) =>
      && item.uid.Some?
      && (forall i :: 0 <= i < |ItemsOf(p)| ==> ItemsOf(p)[i].uid != item.uid)
      && ReferencesOthers(ItemsOf(p) + [item])
    case Patch(current) => current.Some? ==>
      forall i :: 0 <= i < |ItemsOf(p)| && ItemsOf(p)[i].uid == current ==> IsProfile(ItemsOf(p)[i])
    case Move(_, _) => true
    case Delete(_) => true
  }

  function After(p: Profiles, op: Op): Profiles {
    match op
    case Append(item) => Appended(p, item)
    case Patch(current) => Patched(p, current)
    case Move(activeId, overId) => Reordered(p, activeId, overId)
    case Delete(uid) => Deleted(p, uid)
  }

  lemma AppendKeepsInv(p: Profiles, item: PrfItem)
    requires Inv(p) && Granted(p, Append(item))
    ensures Inv(Appended(p, item))
  {
    var items := ItemsOf(p);
    var all := ItemsOf(Appended(p, item));
    assert all == items + [item];
    if p.current.Some? {
      var i :| 0 <= i < |items| && items[i].uid == p.current && IsProfile(items[i]);
      assert all[i].uid == p.current && IsProfile(all[i]);
    } else if IsProfile(item) {
      assert all[|items|].uid == item.uid && IsProfile(all[|items|]);
    }
  }

  lemma InsertionMovesOne(items: seq<PrfItem>, from: nat, to: nat)
    requires from < |items| && to < |items|
    ensures |Moved(items, from, to)| == |items| && Moved(items, from, to)[to] == items[from]
    ensures RemoveAt(Moved(items, from, to), to) == RemoveAt(items, from)
  {
    var rest, moved := RemoveAt(items, from), Moved(items, from, to);
    assert moved[..to] == rest[..to] && moved[to + 1..] == rest[to..];
    assert rest == rest[..to] + rest[to..];
  }

  lemma InsertionPermutes(items: seq<PrfItem>, from: nat, to: nat)
    requires from < |items| && to < |items|
    ensures multiset(Moved(items, from, to)) == multiset(items)
  {
    var rest, moved := RemoveAt(items, from), Moved(items, from, to);
    assert rest == rest[..to] + rest[to..];
    assert items == items[..from] + [items[from]] + items[from + 1..];
    assert multiset(items) == multiset(rest) + multiset{items[from]};
    assert multiset(moved) == multiset(rest[..to] + rest[to..]) + multiset{items[from]};
  }

  /** Reordering moves one item and leaves the order of the others alone. */
  lemma ReorderMovesOne(p: Profiles, activeId: string, overId: string)
    ensures var items := ItemsOf(p);
            var from, to := LastIndexOf(items, Some(activeId)), LastIndexOf(items, Some(overId));
            var moved := ItemsOf(Reordered(p, activeId, overId));
            && multiset(moved) == multiset(items)
            && Reordered(p, activeId, overId).current == p.current
            && (from < |items| && to < |items| ==>
                  |moved| == |items| && moved[to] == items[from] && RemoveAt(moved, to) == RemoveAt(items, from))
            && (from == |items| || to == |items| ==> Reordered(p, activeId, overId) == p)
  {
    var items := ItemsOf(p);
    var from, to := LastIndexOf(items, Some(activeId)), LastIndexOf(items, Some(overId));
    if from < |items| && to < |items| {
      InsertionMovesOne(items, from, to);
      InsertionPermutes(items, from, to);
    }
  }

  /** Each item of the one list, at its place in the other. */
  ghost predicate SameItems(items: seq<PrfItem>, moved: seq<PrfItem>, from: nat, to: nat) {
    && from < |items|
    && to < |items| == |moved|
    && (forall k :: 0 <= k < |moved| ==> moved[k] == items[Origin(from, to, k)])
  }

  lemma MovedIsSameItems(items: seq<PrfItem>, moved: seq<PrfItem>, from: nat, to: nat)
    requires from < |items| && to < |items| == |moved|
    requires moved[to] == items[from] && RemoveAt(moved, to) == RemoveAt(items, from)
    ensures SameItems(items, moved, from, to) && SameItems(moved, items, to, from)
  {
    var rest := RemoveAt(items, from);
    forall k | 0 <= k < |moved| ensures moved[k] == items[Origin(from, to, k)] {
      if k < to { assert rest[k] == moved[k]; }
      if k > to { assert rest[k - 1] == moved[k]; }
    }
    forall k | 0 <= k < |moved| ensures items[k] == moved[Origin(to, from, k)] {
      if k < from { assert rest[k] == items[k]; }
      if k > from { assert rest[k - 1] == items[k]; }
    }
  }

  lemma SameItemsUnique(items: seq<PrfItem>, moved: seq<PrfItem>, from: nat, to: nat)
    requires SameItems(items, moved, from, to) && Unique(items)
    ensures Unique(moved)
  {
    forall i, j | 0 <= i < j < |moved| && moved[i].uid.Some? ensures moved[i].uid != moved[j].uid {
      var a, b := Origin(from, to, i), Origin(from, to, j);
      assert a != b && moved[i] == items[a] && moved[j] == items[b];
    }
  }

  lemma SameItemsReferenceOthers(items: seq<PrfItem>, moved: seq<PrfItem>, from: nat, to: nat)
    requires SameItems(items, moved, from, to) && ReferencesOthers(items)
    ensures ReferencesOthers(moved)
  {
    forall i, j | 0 <= i < |moved| && 0 <= j < |moved| && IsProfile(moved[j]) && moved[j].uid.Some?
      ensures moved[j].uid !in References(moved[i])
    {
      assert moved[i] == items[Origin(from, to, i)] && moved[j] == items[Origin(from, to, j)];
    }
  }

  lemma SameItemsListed(items: seq<PrfItem>, moved: seq<PrfItem>, from: nat, to: nat, uid: Option<string>)
    requires SameItems(moved, items, to, from) && Listed(items, uid)
    ensures Listed(moved, uid)
  {
    var i :| 0 <= i < |items| && items[i].uid == uid && IsProfile(items[i]);
    assert moved[Origin(to, from, i)] == items[i];
  }

  /** Where the item now at `k` was before the item at `from` moved to `to`. */
  function Origin(from: nat, to: nat, k: nat): nat {
    if k == to then from
    else
      var inRest := if k < to then k else k - 1;
      if inRest < from then inRest else inRest + 1
  }

  lemma SameItemsKeepInv(items: seq<PrfItem>, moved: seq<PrfItem>, from: nat, to: nat, current: Option<string>)
    requires SameItems(items, moved, from, to) && SameItems(moved, items, to, from)
    requires NonNull(items) && Unique(items) && ReferencesOthers(items)
    ensures NonNull(moved) && Unique(moved) && ReferencesOthers(moved)
    ensures Listed(items, current) ==> Listed(moved, current)
    ensures NoProfile(items) ==> NoProfile(moved)
  {
    SameItemsUnique(items, moved, from, to);
    SameItemsReferenceOthers(items, moved, from, to);
    if Listed(items, current) {
      SameItemsListed(items, moved, from, to, current);
    }
  }

  lemma MoveKeepsInv(p: Profiles, activeId: string, overId: string)
    requires Inv(p)
    ensures Inv(Reordered(p, activeId, overId))
  {
    var items := ItemsOf(p);
    var from, to := LastIndexOf(items, Some(activeId)), LastIndexOf(items, Some(overId));
    if from < |items| && to < |items| {
      var moved := Moved(items, from, to);
      InsertionMovesOne(items, from, to);
      MovedIsSameItems(items, moved, from, to);
      SameItemsKeepInv(items, moved, from, to, p.current);
      assert Reordered(p, activeId, overId) == p.(items := Some(moved));
    }
  }

  lemma DeleteKeepsInv(p: Profiles, uid: string)
    requires Inv(p)
    ensures Inv(Deleted(p, uid))
  {
    var items := ItemsOf(p);
    var i := IndexOf(items, Some(uid));
    if i < |items| {
      var targets := Targets(items, uid);
      WithoutAllIsFilter(items, targets);
      FilteredMembers(items, targets);
      FilteredNonNull(items, targets);
      var left := Filtered(items, targets);
      forall a, b | 0 <= a < |left| && 0 <= b < |left| && IsProfile(left[b]) && left[b].uid.Some?
        ensures left[b].uid !in References(left[a])
      {
        assert left[a] in items && left[b] in items;
      }
      if !DeletesCurrent(p, uid) {
        var c :| 0 <= c < |items| && items[c].uid == p.current && IsProfile(items[c]);
        assert items[c].uid !in References(items[i]);
      }
      CurrentAfterDelete(p, uid);
    }
  }

  lemma PatchKeepsInv(p: Profiles, current: Option<string>)
    requires Inv(p) && Granted(p, Patch(current))
    ensures Inv(Patched(p, current))
  {
    var items := ItemsOf(p);
    var i := IndexOf(items, current);
    if current.Some? && i < |items| {
      assert Listed(items, current);
    }
  }

  ghost predicate GrantedAll(p: Profiles, ops: seq<Op>)
    decreases |ops|
  {
    ops == [] || (Granted(p, ops[0]) && GrantedAll(After(p, ops[0]), ops[1..]))
  }

  function Final(p: Profiles, ops: seq<Op>): Profiles
    decreases |ops|
  {
    if ops == [] then p else Final(After(p, ops[0]), ops[1..])
  }

  /**
   * Over any run of appends, patches, reorders and deletions the current profile stays a listed remote or
   * local item, or unset while there is none, and uids stay unique and set.
   */
  lemma {:induction false} EveryRun(p: Profiles, ops: seq<Op>)
    requires Inv(p) && GrantedAll(p, ops)
    ensures Inv(Final(p, ops))
    decreases |ops|
  {
    if ops != [] {
      match ops[0] {
        case Append(item) => AppendKeepsInv(p, item);
        case Patch(current) => PatchKeepsInv(p, current);
        case Move(activeId, overId) => MoveKeepsInv(p, activeId, overId);
        case Delete(uid) => DeleteKeepsInv(p, uid);
      }
      EveryRun(After(p, ops[0]), ops[1..]);
    }
  }

  /** The items are the same but for the choices of the one at `i`. */
  ghost predicate OnlyChoicesAt(items: seq<PrfItem>, after: seq<PrfItem>, i: nat) {
    && i < |items| == |after|
    && (forall k :: 0 <= k < |items| && k != i ==> after[k] == items[k])
    && after[i] == items[i].(selected := after[i].selected)
  }

  /**
   * A reconciled plan is written exactly when the restore is not overtaken, the profile is current and its
   * records are those planned from. The plan's records then are the profile's, an empty list being none.
   */
  lemma PersistWritesIff(
    p: Profiles, uid: string, i: nat, original: seq<PrfSelected>, selected: seq<PrfSelected>, overtaken: bool)
    requires p.items.Some? && i < |p.items.value| && p.items.value[i].uid == Some(uid)
    requires forall k :: 0 <= k < i ==> p.items.value[k].uid != Some(uid)
    ensures var r := PersistedPlan(p, uid, original, selected, overtaken);
            var records := if p.items.value[i].selected.Some? then p.items.value[i].selected.value else [];
            && (r.Written? <==> !overtaken && p.current == Some(uid) && records == original)
            && (r.Written? ==>
                  && r.profiles.current == p.current && r.profiles.items.Some?
                  && OnlyChoicesAt(p.items.value, r.profiles.items.value, i)
                  && r.profiles.items.value[i].selected == if selected == [] then None else Some(selected))
            && !r.NoSuchItem?
  {
    var at := IndexOf(p.items.value, Some(uid));
    assert at == i;
  }

  lemma SameUids(a: seq<PrfItem>, b: seq<PrfItem>, uid: Option<string>)
    requires |a| == |b| && forall i :: 0 <= i < |a| ==> a[i].uid == b[i].uid
    ensures IndexOf(a, uid) == IndexOf(b, uid)
  {
    var i, j := IndexOf(a, uid), IndexOf(b, uid);
    assert i < |a| ==> b[i].uid == uid;
    assert j < |b| ==> a[j].uid == uid;
  }
}

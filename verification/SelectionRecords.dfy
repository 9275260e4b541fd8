/**
 * Recorded choices against restores. A recorder commits its edit of the records and only then bumps the
 * generation; a restore plans from the records, and its write checks the generation and the records again.
 *
 * The edits and the write are serialized by `with_data_modify`; a bump may come at any moment.
 */
module SelectionRecords {
  import opened Options
  import opened SelectionReconcile
  import opened ProfileList

  /** `record_selected_node` and `forget_selected_node`. */
  datatype Edit = Choose(group: string, node: string) | Forget(group: string)

  function Edited(choices: seq<PrfSelected>, e: Edit): seq<PrfSelected> {
    match e
    case Choose(group, node) => Chosen(choices, group, node)
    case Forget(group) => Forgotten(choices, group)
  }

  function EditedAll(choices: seq<PrfSelected>, run: seq<Edit>): seq<PrfSelected>
    decreases |run|
  {
    if run == [] then choices else EditedAll(Edited(choices, run[0]), run[1..])
  }

  /** The profiles an edit writes; `None` when there is nothing to write. */
  function EditedProfiles(p: Profiles, e: Edit): Option<Profiles> {
    match e
    case Choose(group, node) => RecordedNode(p, group, node)
    case Forget(group) => ForgottenNode(p, group)
  }

  predicate HasRecords(p: Profiles) { CurrentIndex(p) < |ItemsOf(p)| }

  /** The choices of the current profile. */
  function RecordsOf(p: Profiles): seq<PrfSelected>
    requires HasRecords(p)
  {
    ChoicesOf(ItemsOf(p)[CurrentIndex(p)])
  }

  // ----- One edit -----

  lemma ChosenSame(choices: seq<PrfSelected>, group: string, node: string)
    ensures Chosen(choices, group, node) == choices <==>
        FirstChoice(choices, group) < |choices| && choices[FirstChoice(choices, group)].now == Some(node)
  {
  }

  lemma {:induction false} ForgottenSame(choices: seq<PrfSelected>, group: string)
    ensures |Forgotten(choices, group)| == |choices| <==> Forgotten(choices, group) == choices
  {
    if choices != [] {
      ForgottenSame(choices[1..], group);
      assert choices == [choices[0]] + choices[1..];
    }
  }

  /** An edit writes exactly when it changes the records, and leaves everything else as it was. */
  lemma EditOne(p: Profiles, e: Edit)
    requires HasRecords(p)
    ensures EditedProfiles(p, e).Some? <==> Edited(RecordsOf(p), e) != RecordsOf(p)
    ensures var q := if EditedProfiles(p, e).Some? then EditedProfiles(p, e).value else p;
            && q.current == p.current
            && HasRecords(q)
            && RecordsOf(q) == Edited(RecordsOf(p), e)
            && OnlyChoicesAt(ItemsOf(p), ItemsOf(q), CurrentIndex(p))
            && (q != p ==> ItemsOf(q)[CurrentIndex(p)].selected != Some([]))
  {
    match e {
      case Choose(group, node) => ChosenSame(RecordsOf(p), group, node);
      case Forget(group) => ForgottenSame(RecordsOf(p), group);
    }
    if EditedProfiles(p, e).Some? {
      SameUids(ItemsOf(p), ItemsOf(EditedProfiles(p, e).value), p.current);
    }
  }

  // ----- When a run of edits comes back to where it started -----

  /** The records with a name, in order. */
  function Of(choices: seq<PrfSelected>, name: Option<string>): seq<PrfSelected> {
    if choices == [] then []
    else (if choices[0].name == name then [choices[0]] else []) + Of(choices[1..], name)
  }

  /** The choice recorded for a group: the first record with its name. */
  function NowOf(choices: seq<PrfSelected>, group: string): Option<string> {
    var records := Of(choices, Some(group));
    if records == [] then None else records[0].now
  }

  function Names(choices: seq<PrfSelected>): (names: seq<Option<string>>)
    ensures |names| == |choices|
  {
    if choices == [] then [] else [choices[0].name] + Names(choices[1..])
  }

  function Count(names: seq<Option<string>>, name: Option<string>): nat {
    if names == [] then 0 else (if names[0] == name then 1 else 0) + Count(names[1..], name)
  }

  function WithoutName(names: seq<Option<string>>, name: Option<string>): seq<Option<string>> {
    if names == [] then [] else (if names[0] == name then [] else [names[0]]) + WithoutName(names[1..], name)
  }

  /** The names an edit leaves: a choice adds its group at the end unless it is recorded, forgetting drops it. */
  function EditedNames(names: seq<Option<string>>, e: Edit): seq<Option<string>> {
    match e
    case Choose(group, _) => if Some(group) in names then names else names + [Some(group)]
    case Forget(group) => WithoutName(names, Some(group))
  }

  function NamesAfter(names: seq<Option<string>>, run: seq<Edit>): seq<Option<string>>
    decreases |run|
  {
    if run == [] then names else NamesAfter(EditedNames(names, run[0]), run[1..])
  }

  /** How a run leaves a group: on a node, forgotten, or not edited at all. */
  function LastEdit(run: seq<Edit>, group: string): Option<Option<string>> {
    if run == [] then None
    else
      var later := LastEdit(run[1..], group);
      if later.Some? then later
      else if run[0].group == group then Some(if run[0].Choose? then Some(run[0].node) else None)
      else None
  }

  /** Every group the run edited ends on the node, or without the record, that it had before. */
  ghost predicate Returns(choices: seq<PrfSelected>, run: seq<Edit>) {
    forall group :: LastEdit(run, group).Some? ==> LastEdit(run, group).value == NowOf(choices, group)
  }

  /** What an edit makes of the records of one group. */
  function EditedOf(records: seq<PrfSelected>, e: Edit, group: string): seq<PrfSelected> {
    if e.group != group then records
    else if e.Forget? then []
    else if records == [] then [PrfSelected(Some(group), Some(e.node))]
    else records[0 := records[0].(now := Some(e.node))]
  }

  /** A choice goes past a record of another group. */
  lemma ChosenStep(choices: seq<PrfSelected>, group: string, node: string)
    requires choices != []
    ensures Chosen(choices, group, node) ==
        if choices[0].name == Some(group) then [choices[0].(now := Some(node))] + choices[1..]
        else [choices[0]] + Chosen(choices[1..], group, node)
  {
  }

  lemma OfCons(first: PrfSelected, rest: seq<PrfSelected>, name: Option<string>)
    ensures Of([first] + rest, name) == (if first.name == name then [first] else []) + Of(rest, name)
  {
    assert ([first] + rest)[1..] == rest;
  }

  lemma OfChosenLater(first: PrfSelected, rest: seq<PrfSelected>, e: Edit, name: Option<string>)
    requires e.Choose? && first.name != Some(e.group)
    requires Of(Edited(rest, e), name) ==
        if name.Some? then EditedOf(Of(rest, name), e, name.value) else Of(rest, name)
    ensures Of([first] + Edited(rest, e), name) ==
        if name.Some? then EditedOf(Of([first] + rest, name), e, name.value) else Of([first] + rest, name)
  {
    OfCons(first, rest, name);
    OfCons(first, Edited(rest, e), name);
  }

  lemma {:induction false} OfChosen(choices: seq<PrfSelected>, e: Edit, name: Option<string>)
    requires e.Choose?
    ensures Of(Edited(choices, e), name) ==
        if name.Some? then EditedOf(Of(choices, name), e, name.value) else Of(choices, name)
  {
    if choices == [] {
      assert Edited(choices, e) == [PrfSelected(Some(e.group), Some(e.node))] + [];
      OfCons(PrfSelected(Some(e.group), Some(e.node)), [], name);
    } else {
      var first, rest := choices[0], choices[1..];
      ChosenStep(choices, e.group, e.node);
      assert choices == [first] + rest;
      if first.name == Some(e.group) {
        OfCons(first, rest, name);
        OfCons(first.(now := Some(e.node)), rest, name);
      } else {
        OfChosen(rest, e, name);
        OfChosenLater(first, rest, e, name);
      }
    }
  }

  lemma {:induction false} OfForgotten(choices: seq<PrfSelected>, group: string, name: Option<string>)
    ensures Of(Forgotten(choices, group), name) == if name == Some(group) then [] else Of(choices, name)
  {
    if choices != [] {
      OfForgotten(choices[1..], group, name);
      if choices[0].name != Some(group) {
        OfCons(choices[0], Forgotten(choices[1..], group), name);
      } else {
        assert Forgotten(choices, group) == Forgotten(choices[1..], group);
      }
    }
  }

  lemma OfEdited(choices: seq<PrfSelected>, e: Edit, name: Option<string>)
    ensures Of(Edited(choices, e), name) ==
        if name.Some? then EditedOf(Of(choices, name), e, name.value) else Of(choices, name)
  {
    match e
    case Choose(_, _) => OfChosen(choices, e, name);
    case Forget(group) => OfForgotten(choices, group, name);
  }

  lemma {:induction false} OfNothing(choices: seq<PrfSelected>, run: seq<Edit>)
    ensures Of(EditedAll(choices, run), None) == Of(choices, None)
    decreases |run|
  {
    if run != [] {
      OfEdited(choices, run[0], None);
      OfNothing(Edited(choices, run[0]), run[1..]);
    }
  }

  /** The records `after` of a group follow from those `before` and from its last edit. */
  ghost predicate Follows(before: seq<PrfSelected>, last: Option<Option<string>>, after: seq<PrfSelected>) {
    && (last.None? ==> after == before)
    && (last == Some(None) ==> after == [])
    && (last.Some? && last.value.Some? ==> after != [] && after[0].now == last.value)
    && (|after| <= 1 || (|after| == |before| && after[1..] == before[1..]))
  }

  lemma FollowsOneMore(before: seq<PrfSelected>, e: Edit, group: string, run: seq<Edit>, after: seq<PrfSelected>)
    requires run != [] && e == run[0]
    requires Follows(EditedOf(before, e, group), LastEdit(run[1..], group), after)
    ensures Follows(before, LastEdit(run, group), after)
  {
  }

  lemma {:induction false} RunFollows(choices: seq<PrfSelected>, run: seq<Edit>, group: string)
    ensures Follows(Of(choices, Some(group)), LastEdit(run, group), Of(EditedAll(choices, run), Some(group)))
    decreases |run|
  {
    if run != [] {
      OfEdited(choices, run[0], Some(group));
      RunFollows(Edited(choices, run[0]), run[1..], group);
      FollowsOneMore(Of(choices, Some(group)), run[0], group, run, Of(EditedAll(choices, run), Some(group)));
    }
  }

  lemma NamesCons(first: PrfSelected, rest: seq<PrfSelected>)
    ensures Names([first] + rest) == [first.name] + Names(rest)
  {
    assert ([first] + rest)[1..] == rest;
  }

  lemma {:induction false} NamesChosen(choices: seq<PrfSelected>, e: Edit)
    requires e.Choose?
    ensures Names(Edited(choices, e)) == EditedNames(Names(choices), e)
  {
    if choices == [] {
      assert Edited(choices, e) == [PrfSelected(Some(e.group), Some(e.node))] + [];
      NamesCons(PrfSelected(Some(e.group), Some(e.node)), []);
    } else {
      ChosenStep(choices, e.group, e.node);
      if choices[0].name == Some(e.group) {
        NamesCons(choices[0].(now := Some(e.node)), choices[1..]);
      } else {
        NamesChosen(choices[1..], e);
        NamesCons(choices[0], Edited(choices[1..], e));
      }
    }
  }

  lemma {:induction false} NamesForgotten(choices: seq<PrfSelected>, group: string)
    ensures Names(Forgotten(choices, group)) == WithoutName(Names(choices), Some(group))
  {
    if choices != [] {
      NamesForgotten(choices[1..], group);
      assert Names(choices)[1..] == Names(choices[1..]);
      if choices[0].name != Some(group) {
        NamesCons(choices[0], Forgotten(choices[1..], group));
      } else {
        assert Forgotten(choices, group) == Forgotten(choices[1..], group);
      }
    }
  }

  lemma {:induction false} NamesEdited(choices: seq<PrfSelected>, run: seq<Edit>)
    ensures Names(EditedAll(choices, run)) == NamesAfter(Names(choices), run)
    decreases |run|
  {
    if run != [] {
      match run[0] {
        case Choose(_, _) => NamesChosen(choices, run[0]);
        case Forget(group) => NamesForgotten(choices, group);
      }
      NamesEdited(Edited(choices, run[0]), run[1..]);
    }
  }

  lemma {:induction false} CountIsLength(choices: seq<PrfSelected>, name: Option<string>)
    ensures |Of(choices, name)| == Count(Names(choices), name)
    ensures forall i :: 0 <= i < |Of(choices, name)| ==> Of(choices, name)[i].name == name
  {
    if choices != [] {
      CountIsLength(choices[1..], name);
      assert Names(choices)[1..] == Names(choices[1..]);
    }
  }

  /** Lists with the same names in order and the same records for each name are equal. */
  lemma {:induction false} SameRecords(a: seq<PrfSelected>, b: seq<PrfSelected>)
    requires Names(a) == Names(b) && forall name :: Of(a, name) == Of(b, name)
    ensures a == b
  {
    if a != [] {
      assert a == [a[0]] + a[1..] && b == [b[0]] + b[1..];
      assert Names(a)[0] == Names(b)[0] && Names(a)[1..] == Names(b)[1..];
      assert Of(a, a[0].name)[0] == a[0] && Of(b, a[0].name)[0] == b[0];
      forall name ensures Of(a[1..], name) == Of(b[1..], name) {
        assert Of(a, name) == Of(b, name);
        if name == a[0].name {
          assert Of(a[1..], name) == Of(a, name)[1..] && Of(b[1..], name) == Of(b, name)[1..];
        } else {
          assert Of(a[1..], name) == Of(a, name) && Of(b[1..], name) == Of(b, name);
        }
      }
      SameRecords(a[1..], b[1..]);
    }
  }

  lemma SameOfGroup(before: seq<PrfSelected>, last: Option<Option<string>>, after: seq<PrfSelected>, group: string)
    requires Follows(before, last, after) && |after| == |before|
    requires forall i :: 0 <= i < |before| ==> before[i].name == Some(group) && after[i].name == Some(group)
    requires last.Some? ==> last.value == if before == [] then None else before[0].now
    ensures after == before
  {
    if before != [] {
      assert after[0] == before[0];
      assert after == [after[0]] + after[1..] && before == [before[0]] + before[1..];
    }
  }

  /**
   * A run of recordings and forgettings leaves the records as they were if and only if it brings back the
   * order of their groups and every group it edited ends as it was recorded.
   */
  lemma UnchangedIffReturns(choices: seq<PrfSelected>, run: seq<Edit>)
    ensures EditedAll(choices, run) == choices <==>
        NamesAfter(Names(choices), run) == Names(choices) && Returns(choices, run)
  {
    var after := EditedAll(choices, run);
    NamesEdited(choices, run);
    forall group ensures Follows(Of(choices, Some(group)), LastEdit(run, group), Of(after, Some(group))) {
      RunFollows(choices, run, group);
    }
    if Names(after) == Names(choices) && Returns(choices, run) {
      forall name ensures Of(after, name) == Of(choices, name) {
        CountIsLength(after, name);
        CountIsLength(choices, name);
        match name
        case None => OfNothing(choices, run);
        case Some(group) => SameOfGroup(Of(choices, name), LastEdit(run, group), Of(after, name), group);
      }
      SameRecords(after, choices);
    }
  }

  lemma {:induction false} CountPositive(names: seq<Option<string>>, name: Option<string>)
    ensures Count(names, name) > 0 <==> name in names
  {
    if names != [] {
      CountPositive(names[1..], name);
      assert names == [names[0]] + names[1..];
    }
  }

  lemma {:induction false} ChoicesKeepNames(names: seq<Option<string>>, run: seq<Edit>)
    requires forall i :: 0 <= i < |run| ==> run[i].Choose? && Some(run[i].group) in names
    ensures NamesAfter(names, run) == names
    decreases |run|
  {
    if run != [] {
      ChoicesKeepNames(names, run[1..]);
    }
  }

  lemma {:induction false} EditedHasLast(run: seq<Edit>, i: nat)
    requires i < |run| && forall k :: 0 <= k < |run| ==> run[k].Choose?
    ensures LastEdit(run, run[i].group).Some? && LastEdit(run, run[i].group).value.Some?
    decreases |run|
  {
    if LastEdit(run[1..], run[i].group).Some? {
      LastOfChoices(run[1..], run[i].group);
    } else if i > 0 {
      EditedHasLast(run[1..], i - 1);
    }
  }

  lemma {:induction false} LastOfChoices(run: seq<Edit>, group: string)
    requires LastEdit(run, group).Some? && forall k :: 0 <= k < |run| ==> run[k].Choose?
    ensures LastEdit(run, group).value.Some?
    decreases |run|
  {
    if LastEdit(run[1..], group).Some? {
      LastOfChoices(run[1..], group);
    }
  }

  /** For a run that forgets nothing the order takes care of itself. */
  lemma ChoicesUnchangedIff(choices: seq<PrfSelected>, run: seq<Edit>)
    requires forall i :: 0 <= i < |run| ==> run[i].Choose?
    ensures EditedAll(choices, run) == choices <==> Returns(choices, run)
  {
    UnchangedIffReturns(choices, run);
    if Returns(choices, run) {
      forall i | 0 <= i < |run| ensures Some(run[i].group) in Names(choices) {
        EditedHasLast(run, i);
        CountIsLength(choices, Some(run[i].group));
        CountPositive(Names(choices), Some(run[i].group));
      }
      ChoicesKeepNames(Names(choices), run);
    }
  }

  // ----- Recorders, the generation and the restore -----

  /** `unbumped` counts the recorders that have committed a change and not bumped the generation yet. */
  datatype State = State(profiles: Profiles, generation: nat, unbumped: nat)

  datatype Step =
    | Commit(edit: Edit)   // the edit of a recorder
    | Bump                 // the bump that follows a committed change
    | Supersede            // any other bump: a new activation, a profile switch, a reload of the core

  predicate Enabled(s: State, step: Step) { step.Bump? ==> s.unbumped > 0 }

  function After(s: State, step: Step): State
    requires Enabled(s, step)
  {
    match step
    case Commit(e) =>
      var written := EditedProfiles(s.profiles, e);
      if written.Some? then s.(profiles := written.value, unbumped := s.unbumped + 1) else s
    case Bump => s.(generation := s.generation + 1, unbumped := s.unbumped - 1)
    case Supersede => s.(generation := s.generation + 1)
  }

  predicate Legal(s: State, steps: seq<Step>)
    decreases |steps|
  {
    steps == [] || (Enabled(s, steps[0]) && Legal(After(s, steps[0]), steps[1..]))
  }

  function Final(s: State, steps: seq<Step>): State
    requires Legal(s, steps)
    decreases |steps|
  {
    if steps == [] then s else Final(After(s, steps[0]), steps[1..])
  }

  function EditsOf(steps: seq<Step>): seq<Edit> {
    if steps == [] then [] else (if steps[0].Commit? then [steps[0].edit] else []) + EditsOf(steps[1..])
  }

  predicate NoBump(steps: seq<Step>) { forall i :: 0 <= i < |steps| ==> steps[i].Commit? }

  /** What a restore of `generation` that planned from the records of `planned` does to the profiles of `s`. */
  function Restored(planned: Profiles, generation: nat, selected: seq<PrfSelected>, s: State): Persisted
    requires HasRecords(planned)
  {
    PersistedPlan(s.profiles, planned.current.value, RecordsOf(planned), selected, generation != s.generation)
  }

  lemma EditsOfOneMore(choices: seq<PrfSelected>, steps: seq<Step>)
    requires steps != []
    ensures EditedAll(choices, EditsOf(steps)) ==
        EditedAll(if steps[0].Commit? then Edited(choices, steps[0].edit) else choices, EditsOf(steps[1..]))
  {
    if steps[0].Commit? {
      assert EditsOf(steps)[1..] == EditsOf(steps[1..]);
    } else {
      assert EditsOf(steps) == EditsOf(steps[1..]);
    }
  }

  lemma {:induction false} RunEdits(s: State, steps: seq<Step>)
    requires HasRecords(s.profiles) && Legal(s, steps)
    ensures var q := Final(s, steps);
            && q.profiles.current == s.profiles.current
            && HasRecords(q.profiles)
            && RecordsOf(q.profiles) == EditedAll(RecordsOf(s.profiles), EditsOf(steps))
    decreases |steps|
  {
    if steps != [] {
      if steps[0].Commit? {
        EditOne(s.profiles, steps[0].edit);
      }
      EditsOfOneMore(RecordsOf(s.profiles), steps);
      RunEdits(After(s, steps[0]), steps[1..]);
    }
  }

  lemma {:induction false} GenerationTells(s: State, steps: seq<Step>)
    requires Legal(s, steps)
    ensures Final(s, steps).generation >= s.generation
    ensures Final(s, steps).generation == s.generation <==> NoBump(steps)
    decreases |steps|
  {
    if steps != [] {
      GenerationTells(After(s, steps[0]), steps[1..]);
      if NoBump(steps) {
        assert forall i :: 0 <= i < |steps[1..]| ==> steps[1..][i] == steps[i + 1];
      } else if steps[0].Commit? {
        assert !NoBump(steps[1..]) by {
          var i :| 0 <= i < |steps| && !steps[i].Commit?;
          assert steps[1..][i - 1] == steps[i];
        }
      }
    }
  }

  /**
   * A restore planned in `s` writes after a run of recorders if and only if its generation was current, no
   * bump of any kind has come since, and the edits committed meanwhile bring the records back.
   */
  lemma RestoreWritesIff(s: State, generation: nat, selected: seq<PrfSelected>, steps: seq<Step>)
    requires HasRecords(s.profiles) && Legal(s, steps) && generation <= s.generation
    ensures var records := RecordsOf(s.profiles);
            Restored(s.profiles, generation, selected, Final(s, steps)).Written? <==>
              && generation == s.generation
              && NoBump(steps)
              && NamesAfter(Names(records), EditsOf(steps)) == Names(records)
              && Returns(records, EditsOf(steps))
  {
    RunEdits(s, steps);
    GenerationTells(s, steps);
    UnchangedIffReturns(RecordsOf(s.profiles), EditsOf(steps));
  }

  /** One recorder at a time: none commits before the one that changed something has bumped. */
  predicate Serial(s: State, steps: seq<Step>)
    requires Legal(s, steps)
    decreases |steps|
  {
    steps == [] || ((steps[0].Commit? ==> s.unbumped == 0) && Serial(After(s, steps[0]), steps[1..]))
  }

  /** After a change the next recorder waits for the bump. */
  lemma WaitingChangesNothing(s: State, steps: seq<Step>)
    requires Legal(s, steps) && Serial(s, steps) && NoBump(steps) && s.unbumped > 0
    ensures steps == []
  {
  }

  lemma {:induction false} SerialChangesOnce(s: State, steps: seq<Step>)
    requires HasRecords(s.profiles) && Legal(s, steps) && Serial(s, steps) && NoBump(steps)
    ensures RecordsOf(s.profiles) == EditedAll(RecordsOf(s.profiles), EditsOf(steps)) ==>
              Final(s, steps).profiles == s.profiles
    decreases |steps|
  {
    if steps != [] {
      var after, rest := After(s, steps[0]), steps[1..];
      assert steps[0].Commit? && NoBump(rest) by {
        assert forall i :: 0 <= i < |rest| ==> rest[i] == steps[i + 1];
      }
      EditOne(s.profiles, steps[0].edit);
      EditsOfOneMore(RecordsOf(s.profiles), steps);
      if after == s {
        SerialChangesOnce(s, rest);
      } else {
        WaitingChangesNothing(after, rest);
      }
    }
  }

  /**
   * With one recorder at a time no newer choice is ever overwritten: a restore writes if and only if its
   * generation is still current and the profiles are exactly those it planned from.
   */
  lemma SerialRestoreIsSafe(s: State, generation: nat, selected: seq<PrfSelected>, steps: seq<Step>)
    requires HasRecords(s.profiles) && Legal(s, steps) && Serial(s, steps) && generation <= s.generation
    ensures Restored(s.profiles, generation, selected, Final(s, steps)).Written? <==>
              generation == Final(s, steps).generation && Final(s, steps).profiles == s.profiles
  {
    RunEdits(s, steps);
    GenerationTells(s, steps);
    if NoBump(steps) {
      SerialChangesOnce(s, steps);
    }
  }

  /** However many recorders there are, the one change written since a restore planned is not overwritten. */
  lemma OneChangeIsKept(
    p: Profiles, e: Edit, profileUid: string, selected: seq<PrfSelected>, overtaken: bool)
    requires HasRecords(p) && EditedProfiles(p, e).Some?
    ensures var newer := EditedProfiles(p, e).value;
            && PersistedPlan(newer, profileUid, RecordsOf(p), selected, overtaken) == Untouched
            && HasRecords(newer)
            && NowOf(RecordsOf(newer), e.group) == if e.Choose? then Some(e.node) else None
  {
    EditOne(p, e);
    OfEdited(RecordsOf(p), e, Some(e.group));
  }

  /** The changes two recorders commit before either bumps, the second undoing the first. */
  lemma TwoChangesAreHidden(s: State, group: string, node: string, first: Edit)
    requires HasRecords(s.profiles) && RecordsOf(s.profiles) == [PrfSelected(Some(group), Some(node))]
    requires first.group == group && (first.Choose? ==> first.node != node)
    ensures var steps := [Commit(first), Commit(Choose(group, node))];
            && Legal(s, steps)
            && Final(s, steps).unbumped == s.unbumped + 2
            && var restored := Restored(s.profiles, s.generation, [], Final(s, steps));
               restored.Written? && HasRecords(restored.profiles) && RecordsOf(restored.profiles) == []
  {
    var records := RecordsOf(s.profiles);
    var second := Choose(group, node);
    var one := After(s, Commit(first));
    EditOne(s.profiles, first);
    assert records[1..] == [];
    assert Edited(records, first) == if first.Choose? then [PrfSelected(Some(group), Some(first.node))] else [];
    var two := After(one, Commit(second));
    EditOne(one.profiles, second);
    assert Edited(Edited(records, first), second) == records;
    var steps := [Commit(first), Commit(second)];
    assert steps[1..] == [Commit(second)] && steps[1..][1..] == [];
    assert Final(one, steps[1..]) == two;
    var restored := Restored(s.profiles, s.generation, [], two);
    SameUids(ItemsOf(two.profiles), ItemsOf(restored.profiles), two.profiles.current);
  }
}

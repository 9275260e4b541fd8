/**
 * A member of a proxy group may occur several times. A view remembers one occurrence by kind, name, source
 * and the number of equal members before it, and finds it again in a later list of members.
 */
module MemberBinding {
  import opened Options

  datatype Source = Core(proxyName: string) | Provider(providerName: string, proxyName: string)

  datatype Member =
    | Group(name: string)
    | Node(name: string, source: Source, recordId: string)
    | Unresolved(name: string)

  datatype Binding =
    | GroupBinding(name: string, occurrence: int)
    | NodeBinding(name: string, source: Source, occurrence: int)

  predicate SameSource(left: Source, right: Source) {
    && left.Core? == right.Core?
    && left.proxyName == right.proxyName
    && (left.Core? || (right.Provider? && left.providerName == right.providerName))
  }

  predicate Matches(member: Member, binding: Binding) {
    && (match member
        case Group(_) => binding.GroupBinding?
        case Node(_, _, _) => binding.NodeBinding?
        case Unresolved(_) => false)
    && member.name == binding.name
    && (member.Node? ==> binding.NodeBinding? && SameSource(member.source, binding.source))
  }

  function FirstBinding(member: Member): Binding
    requires !member.Unresolved?
  {
    if member.Node? then NodeBinding(member.name, member.source, 0) else GroupBinding(member.name, 0)
  }

  /** How many members match, whatever occurrence the binding asks for. */
  function CountMatches(members: seq<Member>, binding: Binding): nat {
    if members == [] then 0
    else CountMatches(members[..|members| - 1], binding) + if Matches(members[|members| - 1], binding) then 1 else 0
  }

  function Bound(members: seq<Member>, i: int): Option<Binding> {
    if !(0 <= i < |members|) || members[i].Unresolved? then None
    else
      var binding := FirstBinding(members[i]);
      Some(binding.(occurrence := CountMatches(members[..i], binding)))
  }

  /** Member `i` is the occurrence the binding asks for. */
  predicate IsOccurrence(members: seq<Member>, binding: Binding, i: nat) {
    i < |members| && Matches(members[i], binding) && CountMatches(members[..i], binding) == binding.occurrence
  }

  method ToMemberOccurrenceBinding(members: seq<Member>, memberIndex: int) returns (r: Option<Binding>)
    ensures r == Bound(members, memberIndex)
  {
    if !(0 <= memberIndex < |members|) || members[memberIndex].Unresolved? { return None; }
    var binding := FirstBinding(members[memberIndex]);
    var index := 0;
    while index < memberIndex
      invariant 0 <= index <= memberIndex
      invariant binding == FirstBinding(members[memberIndex]).(occurrence := binding.occurrence)
      invariant binding.occurrence == CountMatches(members[..index], FirstBinding(members[memberIndex]))
    {
      assert members[..index + 1][..index] == members[..index];
      if Matches(members[index], binding) {
        binding := binding.(occurrence := binding.occurrence + 1);
      }
      index := index + 1;
    }
    return Some(binding);
  }

  method RebindMemberOccurrence(members: seq<Member>, binding: Binding) returns (r: Option<(nat, Member)>)
    ensures r.Some? ==> IsOccurrence(members, binding, r.value.0) && r.value.1 == members[r.value.0]
    ensures r.None? ==> forall i :: 0 <= i < |members| ==> !IsOccurrence(members, binding, i)
  {
    var occurrence := 0;
    var memberIndex := 0;
    while memberIndex < |members|
      invariant 0 <= memberIndex <= |members|
      invariant occurrence == CountMatches(members[..memberIndex], binding)
      invariant forall i :: 0 <= i < memberIndex ==> !IsOccurrence(members, binding, i)
    {
      var member := members[memberIndex];
      assert members[..memberIndex + 1][..memberIndex] == members[..memberIndex];
      if !member.Unresolved? && Matches(member, binding) {
        if occurrence == binding.occurrence { return Some((memberIndex, member)); }
        occurrence := occurrence + 1;
      }
      memberIndex := memberIndex + 1;
    }
    return None;
  }

  lemma SameSourceIsEquality(left: Source, right: Source)
    ensures SameSource(left, right) <==> left == right
  {
  }

  /** Bindings that differ only in the occurrence match the same members. */
  lemma {:induction false} OccurrenceIsIgnored(members: seq<Member>, binding: Binding, occurrence: int)
    ensures CountMatches(members, binding.(occurrence := occurrence)) == CountMatches(members, binding)
  {
    if members != [] {
      OccurrenceIsIgnored(members[..|members| - 1], binding, occurrence);
    }
  }

  /**
   * Binding and rebinding are inverse on every list: the binding of member `i` finds member `i`, and the
   * binding of a member found is the one it was found by.
   */
  lemma RebindInvertsBind(members: seq<Member>, binding: Binding, i: nat)
    ensures IsOccurrence(members, binding, i) <==> Bound(members, i) == Some(binding)
  {
    if i < |members| && !members[i].Unresolved? {
      var first := FirstBinding(members[i]);
      OccurrenceIsIgnored(members[..i], first, binding.occurrence);
      if Matches(members[i], binding) {
        SameSourceForNodes(members[i], binding);
      }
    }
  }

  lemma SameSourceForNodes(member: Member, binding: Binding)
    requires Matches(member, binding)
    ensures FirstBinding(member).(occurrence := binding.occurrence) == binding
  {
    if member.Node? {
      SameSourceIsEquality(member.source, binding.source);
    }
  }

  lemma {:induction false} CountGrows(members: seq<Member>, binding: Binding, i: nat, j: nat)
    requires i <= j <= |members|
    ensures CountMatches(members[..i], binding) <= CountMatches(members[..j], binding)
    ensures i < j && Matches(members[i], binding) ==>
              CountMatches(members[..i], binding) < CountMatches(members[..j], binding)
  {
    if i < j {
      assert members[..j][..j - 1] == members[..j - 1];
      CountGrows(members, binding, i, j - 1);
    }
  }

  /** At most one member is the occurrence asked for. */
  lemma OccurrenceIsUnique(members: seq<Member>, binding: Binding, i: nat, j: nat)
    requires IsOccurrence(members, binding, i) && IsOccurrence(members, binding, j)
    ensures i == j
  {
    if i < j { CountGrows(members, binding, i, j); }
    if j < i { CountGrows(members, binding, j, i); }
  }

  ghost predicate Found(members: seq<Member>, binding: Binding) { exists i: nat :: IsOccurrence(members, binding, i) }

  /** Rebinding gives nothing exactly when there are too few matches. */
  lemma {:induction false} FoundIff(members: seq<Member>, binding: Binding)
    ensures Found(members, binding) <==> 0 <= binding.occurrence < CountMatches(members, binding)
  {
    if i: nat :| IsOccurrence(members, binding, i) {
      assert members[..|members|] == members;
      CountGrows(members, binding, i, |members|);
    }
    if 0 <= binding.occurrence < CountMatches(members, binding) {
      var last := |members| - 1;
      if binding.occurrence < CountMatches(members[..last], binding) {
        FoundIff(members[..last], binding);
        var i: nat :| IsOccurrence(members[..last], binding, i);
        assert members[..last][..i] == members[..i];
        assert IsOccurrence(members, binding, i);
      } else {
        assert IsOccurrence(members, binding, last);
      }
    }
  }

  /** The members that match, in order. */
  function Matching(members: seq<Member>, binding: Binding): (r: seq<Member>)
    ensures |r| == CountMatches(members, binding)
  {
    if members == [] then []
    else
      Matching(members[..|members| - 1], binding) +
      if Matches(members[|members| - 1], binding) then [members[|members| - 1]] else []
  }

  lemma {:induction false} MatchingAt(members: seq<Member>, binding: Binding, i: nat)
    requires i < |members| && Matches(members[i], binding)
    ensures CountMatches(members[..i], binding) < |Matching(members, binding)|
    ensures Matching(members, binding)[CountMatches(members[..i], binding)] == members[i]
  {
    var last := |members| - 1;
    if i < last {
      assert members[..last][..i] == members[..i];
      MatchingAt(members[..last], binding, i);
    }
  }

  /** However a list of members changes, rebinding gives the same member while the matching ones stay in order. */
  lemma RebindDependsOnMatches(members: seq<Member>, changed: seq<Member>, binding: Binding, i: nat)
    requires IsOccurrence(members, binding, i) && Matching(members, binding) == Matching(changed, binding)
    ensures exists j: nat :: IsOccurrence(changed, binding, j) && changed[j] == members[i]
  {
    MatchingAt(members, binding, i);
    assert Found(members, binding);
    FoundIff(members, binding);
    FoundIff(changed, binding);
    var j: nat :| IsOccurrence(changed, binding, j);
    MatchingAt(changed, binding, j);
    assert changed[j] == members[i];
  }

  function Inserted(members: seq<Member>, p: nat, member: Member): seq<Member>
    requires p <= |members|
  {
    members[..p] + [member] + members[p..]
  }

  lemma {:induction false} CountConcat(a: seq<Member>, b: seq<Member>, binding: Binding)
    ensures CountMatches(a + b, binding) == CountMatches(a, binding) + CountMatches(b, binding)
  {
    if b == [] {
      assert a + b == a;
    } else {
      assert (a + b)[..|a + b| - 1] == a + b[..|b| - 1];
      CountConcat(a, b[..|b| - 1], binding);
    }
  }

  lemma CountInserted(members: seq<Member>, p: nat, member: Member, binding: Binding)
    requires p <= |members|
    ensures CountMatches(Inserted(members, p, member), binding)
            == CountMatches(members, binding) + if Matches(member, binding) then 1 else 0
  {
    assert members[..p] + members[p..] == members;
    CountConcat(members[..p], members[p..], binding);
    CountConcat(members[..p] + [member], members[p..], binding);
    CountConcat(members[..p], [member], binding);
  }

  /**
   * Inserting a member keeps the occurrence on the member it was on exactly when the new member does not
   * match or comes after it. Read from right to left, the same holds of removing a member.
   */
  lemma InsertKeepsOccurrenceIff(members: seq<Member>, p: nat, member: Member, binding: Binding, i: nat)
    requires p <= |members| && IsOccurrence(members, binding, i)
    ensures IsOccurrence(Inserted(members, p, member), binding, if i < p then i else i + 1)
            <==> !Matches(member, binding) || i < p
  {
    var longer := Inserted(members, p, member);
    if i < p {
      assert longer[..i] == members[..i];
    } else {
      assert longer[..i + 1] == Inserted(members[..i], p, member);
      CountInserted(members[..i], p, member, binding);
    }
  }

  /** Removing a member that does not match keeps the occurrence on the member it was on. */
  lemma RemoveKeepsOccurrence(members: seq<Member>, p: nat, binding: Binding, i: nat)
    requires p < |members| && !Matches(members[p], binding) && IsOccurrence(members, binding, i)
    ensures i != p
    ensures IsOccurrence(members[..p] + members[p + 1..], binding, if i < p then i else i - 1)
  {
    var shorter := members[..p] + members[p + 1..];
    assert members == Inserted(shorter, p, members[p]);
    if i < p {
      assert shorter[..i] == members[..i];
    } else {
      assert members[..i] == Inserted(shorter[..i - 1], p, members[p]);
      CountInserted(shorter[..i - 1], p, members[p], binding);
    }
  }

  /** Binding a member and rebinding at once gives the member back, and nothing for what cannot be bound. */
  method FollowMember(members: seq<Member>, memberIndex: nat) returns (r: Option<(nat, Member)>)
    ensures r == if memberIndex < |members| && !members[memberIndex].Unresolved?
                 then Some((memberIndex, members[memberIndex])) else None
  {
    var binding := ToMemberOccurrenceBinding(members, memberIndex);
    if binding.None? { return None; }
    RebindInvertsBind(members, binding.value, memberIndex);
    r := RebindMemberOccurrence(members, binding.value);
    if r.Some? {
      OccurrenceIsUnique(members, binding.value, r.value.0, memberIndex);
    }
  }
}

/** The simple form the trie stands for: a list of subscriptions, scanned with the recursive matcher. */
module LinearScan {
  import opened Topics
  import opened SubscriptionTrie

  datatype Operation =
    | Inserted(sub: Subscription)
    | Removed(id: nat)
    | Switched(target: nat, active: bool)

  // ---- The list ----

  function Without(list: seq<Subscription>, id: nat): seq<Subscription> {
    if list == [] then []
    else (if list[0].id == id then [] else [list[0]]) + Without(list[1..], id)
  }

  function WithActive(list: seq<Subscription>, id: nat, active: bool): seq<Subscription> {
    if list == [] then []
    else [if list[0].id == id then list[0].(active := active) else list[0]] + WithActive(list[1..], id, active)
  }

  function Scan(list: seq<Subscription>, event: seq<string>): seq<Subscription> {
    if list == [] then []
    else (if Matches(list[0].topic, event) then [list[0]] else []) + Scan(list[1..], event)
  }

  function Applied(list: seq<Subscription>, operation: Operation): seq<Subscription> {
    match operation
    case Inserted(sub) => list + [sub]
    case Removed(id) => Without(list, id)
    case Switched(id, active) => WithActive(list, id, active)
  }

  function ListAfter(operations: seq<Operation>): seq<Subscription> {
    if operations == [] then []
    else Applied(ListAfter(operations[..|operations| - 1]), operations[|operations| - 1])
  }

  ghost predicate IdIn(list: seq<Subscription>, id: nat) {
    exists i :: 0 <= i < |list| && list[i].id == id
  }

  ghost predicate UniqueIds(list: seq<Subscription>) {
    forall i, j :: 0 <= i < j < |list| ==> list[i].id != list[j].id
  }

  // ---- Runs of the trie, as its methods' contracts describe them ----

  ghost predicate Step(before: multiset<Subscription>, operation: Operation, after: multiset<Subscription>) {
    match operation
    case Inserted(sub) => after == before + multiset{sub}
    case Removed(id) => OneRemoved(before, id, after) || (NoneHasId(before, id) && after == before)
    case Switched(id, active) =>
      OneSwitched(before, id, active, after) || (NoneHasId(before, id) && after == before)
  }

  ghost predicate Run(states: seq<multiset<Subscription>>, operations: seq<Operation>) {
    && |states| == |operations| + 1
    && states[0] == multiset{}
    && forall i :: 0 <= i < |operations| ==> Step(states[i], operations[i], states[i + 1])
  }

  /** No id is inserted while a subscription with it is live. */
  ghost predicate FreshInserts(operations: seq<Operation>) {
    forall i :: 0 <= i < |operations| && operations[i].Inserted? ==>
                  !IdIn(ListAfter(operations[..i]), operations[i].sub.id)
  }

  // ---- Refinement ----

  lemma WithoutAbsent(list: seq<Subscription>, id: nat)
    ensures !IdIn(list, id) ==> Without(list, id) == list
  {
    if list != [] && !IdIn(list, id) {
      assert list[0].id != id;
      forall i | 0 <= i < |list[1..]| ensures list[1..][i].id != id {
        assert list[1..][i] == list[i + 1];
      }
      WithoutAbsent(list[1..], id);
    }
  }

  lemma {:induction false} WithoutOne(list: seq<Subscription>, id: nat, i: nat)
    requires UniqueIds(list) && i < |list| && list[i].id == id
    ensures Without(list, id) == list[..i] + list[i + 1..]
  {
    if i == 0 {
      WithoutAbsent(list[1..], id);
    } else {
      WithoutOne(list[1..], id, i - 1);
      assert list[1..][..i - 1] == list[1..i] && list[1..][i..] == list[i + 1..];
    }
  }

  lemma {:induction false} WithActiveAbsent(list: seq<Subscription>, id: nat, active: bool)
    requires !IdIn(list, id)
    ensures WithActive(list, id, active) == list
  {
    if list != [] {
      assert list[0].id != id;
      forall i | 0 <= i < |list[1..]| ensures list[1..][i].id != id {
        assert list[1..][i] == list[i + 1];
      }
      WithActiveAbsent(list[1..], id, active);
    }
  }

  lemma {:induction false} WithActiveOne(list: seq<Subscription>, id: nat, active: bool, i: nat)
    requires UniqueIds(list) && i < |list| && list[i].id == id
    ensures WithActive(list, id, active) == list[i := list[i].(active := active)]
  {
    if i == 0 {
      WithActiveAbsent(list[1..], id, active);
    } else {
      WithActiveOne(list[1..], id, active, i - 1);
    }
  }

  lemma MemberHasIndex(list: seq<Subscription>, s: Subscription) returns (i: nat)
    requires s in multiset(list)
    ensures i < |list| && list[i] == s
  {
    assert s in list;
    i :| i < |list| && list[i] == s;
  }

  lemma WithoutTakesOne(list: seq<Subscription>, id: nat, i: nat)
    requires UniqueIds(list) && i < |list| && list[i].id == id
    ensures multiset(Without(list, id)) == multiset(list) - multiset{list[i]}
    ensures UniqueIds(Without(list, id))
  {
    WithoutOne(list, id, i);
    TakenOut(multiset(list), list, i);
    assert multiset(list) - multiset(list) == multiset{};
    UniqueWithoutOne(list, i, Without(list, id));
  }

  lemma UniqueWithoutOne(list: seq<Subscription>, i: nat, rest: seq<Subscription>)
    requires UniqueIds(list) && i < |list| && rest == list[..i] + list[i + 1..]
    ensures UniqueIds(rest)
  {}

  lemma WithActiveReplacesOne(list: seq<Subscription>, id: nat, active: bool, i: nat)
    requires UniqueIds(list) && i < |list| && list[i].id == id
    ensures multiset(WithActive(list, id, active))
            == multiset(list) - multiset{list[i]} + multiset{list[i].(active := active)}
    ensures UniqueIds(WithActive(list, id, active))
  {
    WithActiveOne(list, id, active, i);
    ExchangedIn(list, i, list[i].(active := active));
  }

  lemma ExchangedIn<T>(list: seq<T>, i: nat, x: T)
    requires i < |list|
    ensures multiset(list[i := x]) == multiset(list) - multiset{list[i]} + multiset{x}
  {
    assert list == list[..i] + [list[i]] + list[i + 1..];
    assert list[i := x] == list[..i] + [x] + list[i + 1..];
  }

  lemma NoIdInList(list: seq<Subscription>, id: nat)
    requires NoneHasId(multiset(list), id)
    ensures !IdIn(list, id)
  {}

  lemma RemovalIsWithout(list: seq<Subscription>, id: nat, after: multiset<Subscription>)
    requires UniqueIds(list) && Step(multiset(list), Removed(id), after)
    ensures after == multiset(Without(list, id)) && UniqueIds(Without(list, id))
  {
    if OneRemoved(multiset(list), id, after) {
      var s :| s in multiset(list) && s.id == id && after == multiset(list) - multiset{s};
      var i := MemberHasIndex(list, s);
      WithoutTakesOne(list, id, i);
    } else {
      NoIdInList(list, id);
      WithoutAbsent(list, id);
    }
  }

  lemma SwitchIsWithActive(list: seq<Subscription>, id: nat, active: bool, after: multiset<Subscription>)
    requires UniqueIds(list) && Step(multiset(list), Switched(id, active), after)
    ensures after == multiset(WithActive(list, id, active)) && UniqueIds(WithActive(list, id, active))
  {
    if OneSwitched(multiset(list), id, active, after) {
      var s :| && s in multiset(list) && s.id == id
               && after == multiset(list) - multiset{s} + multiset{s.(active := active)};
      var i := MemberHasIndex(list, s);
      WithActiveReplacesOne(list, id, active, i);
    } else {
      NoIdInList(list, id);
      WithActiveAbsent(list, id, active);
    }
  }

  lemma StepIsListStep(before: multiset<Subscription>, list: seq<Subscription>,
                       operation: Operation, after: multiset<Subscription>)
    requires before == multiset(list) && UniqueIds(list) && Step(before, operation, after)
    requires operation.Inserted? ==> !IdIn(list, operation.sub.id)
    ensures after == multiset(Applied(list, operation)) && UniqueIds(Applied(list, operation))
  {
    match operation {
      case Inserted(sub) =>
      case Removed(id) => RemovalIsWithout(list, id, after);
      case Switched(id, active) => SwitchIsWithActive(list, id, active, after);
    }
  }

  /** Over every run with fresh ids the trie's content is the list's, so no operation has a choice. */
  lemma {:induction false} TrieRefinesList(states: seq<multiset<Subscription>>, operations: seq<Operation>)
    requires Run(states, operations) && FreshInserts(operations)
    ensures states[|operations|] == multiset(ListAfter(operations))
    ensures UniqueIds(ListAfter(operations))
    decreases |operations|
  {
    if operations != [] {
      var n := |operations| - 1;
      var earlier := operations[..n];
      assert forall i :: 0 <= i < n ==> earlier[..i] == operations[..i];
      TrieRefinesList(states[..n + 1], earlier);
      StepIsListStep(states[n], ListAfter(earlier), operations[n], states[n + 1]);
    }
  }

  lemma {:induction false} ScanCounts(list: seq<Subscription>, event: seq<string>, s: Subscription)
    ensures multiset(Scan(list, event))[s] == if Matches(s.topic, event) then multiset(list)[s] else 0
  {
    if list != [] {
      ScanCounts(list[1..], event, s);
      assert list == [list[0]] + list[1..];
    }
  }

  /** A lookup in the trie returns what a linear scan of the list with the matcher returns. */
  lemma LookupIsScan(states: seq<multiset<Subscription>>, operations: seq<Operation>,
                     event: seq<string>, results: seq<Subscription>)
    requires Run(states, operations) && FreshInserts(operations)
    requires forall i :: 0 <= i < |operations| && operations[i].Inserted? ==> MultiOnlyLast(operations[i].sub.topic)
    requires forall s :: multiset(results)[s] == if Reaches(s.topic, event) then states[|operations|][s] else 0
    ensures multiset(results) == multiset(Scan(ListAfter(operations), event))
  {
    TrieRefinesList(states, operations);
    var list := ListAfter(operations);
    forall s ensures multiset(results)[s] == multiset(Scan(list, event))[s] {
      ScanCounts(list, event, s);
      if s in multiset(list) {
        ListedWasInserted(operations, s);
        ReachesIsMatches(s.topic, event);
      }
    }
  }

  ghost predicate TopicInserted(operations: seq<Operation>, topic: seq<Segment>) {
    exists i :: 0 <= i < |operations| && operations[i].Inserted? && operations[i].sub.topic == topic
  }

  lemma {:induction false} ListedWasInserted(operations: seq<Operation>, s: Subscription)
    requires s in ListAfter(operations)
    ensures TopicInserted(operations, s.topic)
    decreases |operations|
  {
    var n := |operations| - 1;
    var list := ListAfter(operations[..n]);
    var before := s;
    match operations[n] {
      case Inserted(sub) =>
        if s !in list { assert s == sub; return; }
      case Removed(id) => WithoutKeeps(list, id, s);
      case Switched(id, active) => before := WithActiveKeeps(list, id, active, s);
    }
    ListedWasInserted(operations[..n], before);
  }

  lemma WithoutKeeps(list: seq<Subscription>, id: nat, s: Subscription)
    ensures s in Without(list, id) ==> s in list
  {
    if list != [] { WithoutKeeps(list[1..], id, s); }
  }

  lemma {:induction false} WithActiveKeeps(list: seq<Subscription>, id: nat, active: bool, s: Subscription)
    returns (before: Subscription)
    requires s in WithActive(list, id, active)
    ensures before in list && before.topic == s.topic
  {
    if s == WithActive(list, id, active)[0] {
      return list[0];
    }
    before := WithActiveKeeps(list[1..], id, active, s);
  }
}

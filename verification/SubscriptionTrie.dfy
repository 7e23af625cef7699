/** The wildcard subscription trie (crates/nova-event/src/trie.rs). */
module SubscriptionTrie {
  import opened Topics

  /** A subscription as the trie and the bus see it: `sender` names its channel, `filter` its content filter. */
  datatype Subscription = Subscription(
    id: nat,
    subscriber: string,
    topic: seq<Segment>,
    filter: nat,
    active: bool,
    sender: nat)

  /** The paths a lookup that still has `rest` to consume collects below a node. */
  predicate Reaches(below: seq<Segment>, rest: seq<string>)
    decreases |below|
  {
    || (below == [] && rest == [])
    || below == [MultiWildcard]
    || (&& below != [] && rest != []
        && SegmentFits(below[0], rest[0])
        && Reaches(below[1..], rest[1..]))
  }

  /** The lookup and the linear scan with the recursive matcher select the same topics. */
  lemma {:induction false} ReachesIsMatches(pattern: seq<Segment>, event: seq<string>)
    requires MultiOnlyLast(pattern)
    ensures Reaches(pattern, event) <==> Matches(pattern, event)
    decreases |pattern|
  {
    if pattern != [] && pattern[0].MultiWildcard? {
      assert pattern == [MultiWildcard];
    } else if pattern != [] && event != [] {
      ReachesIsMatches(pattern[1..], event[1..]);
    }
  }

  /** With `*` elsewhere than last the two part company: the matcher accepts, the trie never collects. */
  lemma {:induction false} MultiInsideIsUnreachable(pattern: seq<Segment>, event: seq<string>, i: nat)
    requires i + 1 < |pattern| && pattern[i].MultiWildcard?
    ensures !Reaches(pattern, event)
    decreases |pattern|
  {
    if i > 0 && event != [] {
      MultiInsideIsUnreachable(pattern[1..], event[1..], i - 1);
    }
  }

  function Child(path: seq<Segment>, segment: Segment): (r: seq<Segment>)
    ensures path < r && |r| == |path| + 1 && r[|path|] == segment
  {
    path + [segment]
  }

  lemma ChildInjective(p: seq<Segment>, x: Segment, q: seq<Segment>, y: Segment)
    requires Child(p, x) == Child(q, y)
    ensures p == q && x == y
  {}

  /** A topic below a node either ends there or takes exactly one of the node's ways down. */
  lemma BelowByFirstSegment(path: seq<Segment>, topic: seq<Segment>)
    ensures path <= topic <==> topic == path || exists x :: Child(path, x) <= topic
    ensures path < topic ==> && Child(path, topic[|path|]) <= topic
                             && topic[|path|..][1..] == topic[|path| + 1..]
    ensures forall x :: Child(path, x) <= topic ==> path < topic && x == topic[|path|]
    ensures path <= topic && topic[|path|..] == [MultiWildcard] <==> topic == Child(path, MultiWildcard)
  {}

  class TrieNode {
    var literalChildren: map<string, TrieNode>
    var singleWildcard: TrieNode?
    var multiWildcard: TrieNode?
    var subscriptions: seq<Subscription>
    /** The segments that lead here from the root. */
    ghost const path: seq<Segment>

    constructor (ghost path: seq<Segment>)
      ensures this.path == path
      ensures literalChildren == map[] && singleWildcard == null && multiWildcard == null
      ensures subscriptions == []
    {
      this.path := path;
      literalChildren, singleWildcard, multiWildcard, subscriptions := map[], null, null, [];
    }

    ghost predicate HoldsOwnTopic()
      reads `subscriptions
    {
      forall s :: s in subscriptions ==> s.topic == path
    }

    function ChildAt(segment: Segment): TrieNode?
      reads `literalChildren, `singleWildcard, `multiWildcard
    {
      match segment
      case Literal(text) => if text in literalChildren then literalChildren[text] else null
      case SingleWildcard => singleWildcard
      case MultiWildcard => multiWildcard
    }

    method Attach(segment: Segment, child: TrieNode)
      modifies this`literalChildren, this`singleWildcard, this`multiWildcard
      ensures forall x :: ChildAt(x) == if x == segment then child else old(ChildAt(x))
    {
      match segment {
        case Literal(text) => literalChildren := literalChildren[text := child];
        case SingleWildcard => singleWildcard := child;
        case MultiWildcard => multiWildcard := child;
      }
    }
  }

  /** The trie: nodes linked by segment, each holding the subscriptions whose pattern ends there. */
  class Trie {
    const root: TrieNode
    /** Every node of the trie, by the path that leads to it. */
    ghost var nodes: map<seq<Segment>, TrieNode>
    ghost var repr: set<TrieNode>
    /** The live subscriptions. */
    ghost var live: multiset<Subscription>

    /** The links between the nodes are exactly the map from paths to nodes. */
    ghost predicate WellLinked()
      reads `nodes, `repr, repr`literalChildren, repr`singleWildcard, repr`multiWildcard
    {
      && [] in nodes && nodes[[]] == root
      && (forall p :: p in nodes ==> nodes[p] in repr && nodes[p].path == p)
      && (forall p, x :: Child(p, x) in nodes ==> p in nodes)
      && (forall p, x :: p in nodes ==>
            nodes[p].ChildAt(x) == if Child(p, x) in nodes then nodes[Child(p, x)] else null)
    }

    /** How often a subscription is stored at the node its topic leads to. */
    ghost function Stored(s: Subscription): nat
      reads `nodes, `repr, repr`subscriptions
      requires forall p :: p in nodes ==> nodes[p] in repr
    {
      if s.topic in nodes then multiset(nodes[s.topic].subscriptions)[s] else 0
    }

    /** Each live subscription is stored at the node its topic leads to, and nothing else is stored. */
    ghost predicate Stores()
      reads this, repr
      requires forall p :: p in nodes ==> nodes[p] in repr
    {
      && (forall p :: p in nodes ==> nodes[p].HoldsOwnTopic())
      && (forall s: Subscription :: live[s] == Stored(s))
    }

    ghost predicate Valid()
      reads this, repr
    {
      WellLinked() && Stores()
    }

    constructor ()
      ensures Valid() && live == multiset{} && fresh(repr)
    {
      var node := new TrieNode([]);
      root := node;
      nodes := map[[] := node];
      repr := {node};
      live := multiset{};
    }

    /** `insert`, called as the bus calls it: the pattern is the subscription's own topic. */
    method Insert(sub: Subscription)
      requires Valid()
      modifies this`nodes, this`repr, this`live, repr
      ensures Valid()
      ensures fresh(repr - old(repr))
      ensures live == old(live) + multiset{sub}
    {
      var node := Walk(sub.topic);
      Store(sub.topic, node, sub);
    }

    /** The loop of `insert`: follows the segments down, adding the nodes that are not there yet. */
    method Walk(topic: seq<Segment>) returns (current: TrieNode)
      requires Valid()
      modifies this`nodes, this`repr, repr
      ensures Valid() && fresh(repr - old(repr))
      ensures topic in nodes && nodes[topic] == current
    {
      current := root;
      ghost var path := [];
      for i := 0 to |topic|
        invariant Valid() && fresh(repr - old(repr))
        invariant path == topic[..i] && path in nodes && current == nodes[path]
      {
        current := GetOrInsert(path, current, topic[i]);
        path := Child(path, topic[i]);
      }
      assert path == topic;
    }

    /** `subscriptions.write().push(sub)` at the node the topic leads to. */
    method Store(ghost path: seq<Segment>, node: TrieNode, sub: Subscription)
      requires Valid() && path in nodes && nodes[path] == node && sub.topic == path
      modifies this`live, node`subscriptions
      ensures Valid() && live == old(live) + multiset{sub}
    {
      SubscriptionsAreLive(path);
      SetSubscriptions(path, node, node.subscriptions + [sub]);
    }

    /** Any in-place change of one node's subscription vector. */
    method SetSubscriptions(ghost path: seq<Segment>, node: TrieNode, subs: seq<Subscription>)
      requires Valid() && path in nodes && nodes[path] == node
      requires forall s :: s in subs ==> s.topic == path
      modifies this`live, node`subscriptions
      ensures Valid()
      ensures live == old(live) - multiset(old(node.subscriptions)) + multiset(subs)
    {
      SubscriptionsAreLive(path);
      ghost var before := node.subscriptions;
      assert node.HoldsOwnTopic();
      SwapAtTopic(live, path, before, subs);
      Overwrite(path, node, subs);
      live := live - multiset(before) + multiset(subs);
    }

    method Overwrite(ghost path: seq<Segment>, node: TrieNode, subs: seq<Subscription>)
      requires WellLinked() && path in nodes && nodes[path] == node
      modifies node`subscriptions
      ensures WellLinked() && node.subscriptions == subs
      ensures forall p :: p in nodes && p != path ==> nodes[p].subscriptions == old(nodes[p].subscriptions)
    {
      forall p | p in nodes && p != path ensures nodes[p] != node {
        assert nodes[p].path == p;
      }
      node.subscriptions := subs;
    }

    lemma SubscriptionsAreLive(path: seq<Segment>)
      requires Valid() && path in nodes
      ensures multiset(nodes[path].subscriptions) <= live
      ensures forall s: Subscription :: s.topic == path ==> live[s] == multiset(nodes[path].subscriptions)[s]
    {}

    /** `entry(..).or_insert_with` and `get_or_insert_with`: the child for one segment, made if absent. */
    method GetOrInsert(ghost path: seq<Segment>, node: TrieNode, segment: Segment) returns (child: TrieNode)
      requires Valid() && path in nodes && nodes[path] == node
      modifies this`nodes, this`repr, node
      ensures Valid() && live == old(live)
      ensures Child(path, segment) in nodes && nodes[Child(path, segment)] == child
      ensures nodes == old(nodes)[Child(path, segment) := child]
      ensures fresh(repr - old(repr))
    {
      var existing := node.ChildAt(segment);
      if existing != null {
        return existing;
      }
      child := AddChild(path, node, segment);
    }

    method AddChild(ghost path: seq<Segment>, node: TrieNode, segment: Segment) returns (child: TrieNode)
      requires WellLinked() && path in nodes && nodes[path] == node && node.ChildAt(segment) == null
      modifies this`nodes, this`repr, node`literalChildren, node`singleWildcard, node`multiWildcard
      ensures WellLinked()
      ensures fresh(child) && child.path == Child(path, segment) && child.subscriptions == []
      ensures Child(path, segment) !in old(nodes) && nodes == old(nodes)[Child(path, segment) := child]
      ensures repr == old(repr) + {child}
    {
      child := new TrieNode(Child(path, segment));
      node.Attach(segment, child);
      nodes := nodes[Child(path, segment) := child];
      repr := repr + {child};
      forall p, x | Child(p, x) == Child(path, segment) ensures p == path && x == segment {
        ChildInjective(p, x, path, segment);
      }
    }

    // ---- Removal ----

    ghost function Below(path: seq<Segment>): set<seq<Segment>>
      reads this
    {
      set q | q in nodes && path <= q
    }

    /** From a node towards a longer live topic there is always a child to follow. */
    lemma NextStep(path: seq<Segment>, s: Subscription)
      requires Valid() && path in nodes && s in live && path < s.topic
      ensures var x := s.topic[|path|];
              && Child(path, x) <= s.topic && Child(path, x) in nodes
              && nodes[path].ChildAt(x) == nodes[Child(path, x)]
    {
      assert live[s] == Stored(s);
      PrefixIsNode(s.topic, |path| + 1);
      assert s.topic[..|path| + 1] == Child(path, s.topic[|path|]);
    }

    lemma {:induction false} PrefixIsNode(path: seq<Segment>, n: nat)
      requires WellLinked() && path in nodes && n <= |path|
      ensures path[..n] in nodes
      decreases |path|
    {
      if n < |path| {
        var p := path[..|path| - 1];
        assert path == Child(p, path[|path| - 1]);
        PrefixIsNode(p, n);
        assert p[..n] == path[..n];
      } else {
        assert path[..n] == path;
      }
    }

    /** `remove`: takes away one subscription with the id, or reports that there is none. */
    method Remove(id: nat) returns (found: bool)
      requires Valid()
      modifies this`live, repr`subscriptions
      ensures Valid()
      ensures if found then OneRemoved(old(live), id, live) else live == old(live) && NoneHasId(live, id)
    {
      found := RemoveRecursive([], root, id);
    }

    method RemoveRecursive(ghost path: seq<Segment>, node: TrieNode, id: nat) returns (found: bool)
      requires Valid() && path in nodes && nodes[path] == node
      modifies this`live, repr`subscriptions
      ensures Valid()
      ensures if found then OneRemoved(old(live), id, live)
              else live == old(live) && NoneBelow(live, path, id)
      decreases Below(path), 3
    {
      found := RemoveHere(path, node, id);
      if found { return; }
      found := RemoveBelow(path, node, id);
    }

    method RemoveBelow(ghost path: seq<Segment>, node: TrieNode, id: nat) returns (found: bool)
      requires Valid() && path in nodes && nodes[path] == node
      modifies this`live, repr`subscriptions
      ensures Valid()
      ensures if found then OneRemoved(old(live), id, live)
              else live == old(live) && NoneStrictlyBelow(live, path, id)
      decreases Below(path), 2
    {
      found := RemoveInLiterals(path, node, id);
      if found { return; }
      found := RemoveInWildcards(path, node, id);
      if found { return; }
      NothingMissed(path, id);
    }

    method RemoveInWildcards(ghost path: seq<Segment>, node: TrieNode, id: nat) returns (found: bool)
      requires Valid() && path in nodes && nodes[path] == node
      modifies this`live, repr`subscriptions
      ensures Valid()
      ensures if found then OneRemoved(old(live), id, live) else live == old(live) && NoneBelowWildcards(path, node, id)
      decreases Below(path), 1
    {
      found := RemoveChild(path, node, SingleWildcard, id);
      if found { return; }
      found := RemoveChild(path, node, MultiWildcard, id);
    }

    method RemoveInLiterals(ghost path: seq<Segment>, node: TrieNode, id: nat) returns (found: bool)
      requires Valid() && path in nodes && nodes[path] == node
      modifies this`live, repr`subscriptions
      ensures Valid()
      ensures if found then OneRemoved(old(live), id, live) else live == old(live) && NoneBelowLiterals(path, node, id)
      decreases Below(path), 1
    {
      var texts := node.literalChildren.Keys;
      ghost var done := {};
      while texts != {}
        invariant Valid() && live == old(live) && texts + done == node.literalChildren.Keys
        invariant forall t :: t in done ==> NoneBelow(live, Child(path, Literal(t)), id)
      {
        var text :| text in texts;
        found := RemoveChild(path, node, Literal(text), id);
        if found { return; }
        texts, done := texts - {text}, done + {text};
      }
      found := false;
    }

    method RemoveChild(ghost path: seq<Segment>, node: TrieNode, x: Segment, id: nat) returns (found: bool)
      requires Valid() && path in nodes && nodes[path] == node
      modifies this`live, repr`subscriptions
      ensures Valid()
      ensures if found then OneRemoved(old(live), id, live)
              else live == old(live) && (node.ChildAt(x) != null ==> NoneBelow(live, Child(path, x), id))
      decreases Below(path), 0
    {
      var child := node.ChildAt(x);
      if child == null { return false; }
      ChildIsSmaller(path, x);
      found := RemoveRecursive(Child(path, x), child, id);
    }

    method RemoveHere(ghost path: seq<Segment>, node: TrieNode, id: nat) returns (found: bool)
      requires Valid() && path in nodes && nodes[path] == node
      modifies this`live, node`subscriptions
      ensures Valid()
      ensures if found then OneRemoved(old(live), id, live) else live == old(live) && NoneAt(live, path, id)
    {
      var subs := node.subscriptions;
      var pos := Position(subs, id);
      SubscriptionsAreLive(path);
      if pos == |subs| { return false; }
      TakenOut(live, subs, pos);
      SetSubscriptions(path, node, subs[..pos] + subs[pos + 1..]);
      return true;
    }

    lemma ChildIsSmaller(path: seq<Segment>, x: Segment)
      requires WellLinked() && path in nodes && nodes[path].ChildAt(x) != null
      ensures Child(path, x) in nodes && nodes[path].ChildAt(x) == nodes[Child(path, x)]
      ensures Below(Child(path, x)) < Below(path)
    {
      assert path in Below(path) && path !in Below(Child(path, x));
    }

    ghost predicate NoneBelowLiterals(path: seq<Segment>, node: TrieNode, id: nat)
      reads this`live, node
    {
      forall t :: t in node.literalChildren ==> NoneBelow(live, Child(path, Literal(t)), id)
    }

    ghost predicate NoneBelowWildcards(path: seq<Segment>, node: TrieNode, id: nat)
      reads this`live, node
    {
      && (node.singleWildcard != null ==> NoneBelow(live, Child(path, SingleWildcard), id))
      && (node.multiWildcard != null ==> NoneBelow(live, Child(path, MultiWildcard), id))
    }

    lemma NothingMissed(path: seq<Segment>, id: nat)
      requires Valid() && path in nodes
      requires NoneBelowLiterals(path, nodes[path], id) && NoneBelowWildcards(path, nodes[path], id)
      ensures NoneStrictlyBelow(live, path, id)
    {
      forall s | s in live && path < s.topic ensures s.id != id {
        NextStep(path, s);
      }
    }

    // ---- Pausing and resuming ----

    /** `set_active`: switches one subscription with the id, or reports that there is none. */
    method SetActive(id: nat, active: bool) returns (found: bool)
      requires Valid()
      modifies this`live, repr`subscriptions
      ensures Valid()
      ensures if found then OneSwitched(old(live), id, active, live)
              else live == old(live) && NoneHasId(live, id)
    {
      found := SetActiveRecursive([], root, id, active);
    }

    method SetActiveRecursive(ghost path: seq<Segment>, node: TrieNode, id: nat, active: bool) returns (found: bool)
      requires Valid() && path in nodes && nodes[path] == node
      modifies this`live, repr`subscriptions
      ensures Valid()
      ensures if found then OneSwitched(old(live), id, active, live)
              else live == old(live) && NoneBelow(live, path, id)
      decreases Below(path), 3
    {
      found := SetActiveHere(path, node, id, active);
      if found { return; }
      found := SetActiveBelow(path, node, id, active);
    }

    method SetActiveBelow(ghost path: seq<Segment>, node: TrieNode, id: nat, active: bool) returns (found: bool)
      requires Valid() && path in nodes && nodes[path] == node
      modifies this`live, repr`subscriptions
      ensures Valid()
      ensures if found then OneSwitched(old(live), id, active, live)
              else live == old(live) && NoneStrictlyBelow(live, path, id)
      decreases Below(path), 2
    {
      found := SetActiveInLiterals(path, node, id, active);
      if found { return; }
      found := SetActiveInWildcards(path, node, id, active);
      if found { return; }
      NothingMissed(path, id);
    }

    method SetActiveInWildcards(ghost path: seq<Segment>, node: TrieNode, id: nat, active: bool) returns (found: bool)
      requires Valid() && path in nodes && nodes[path] == node
      modifies this`live, repr`subscriptions
      ensures Valid()
      ensures if found then OneSwitched(old(live), id, active, live)
              else live == old(live) && NoneBelowWildcards(path, node, id)
      decreases Below(path), 1
    {
      found := SetActiveChild(path, node, SingleWildcard, id, active);
      if found { return; }
      found := SetActiveChild(path, node, MultiWildcard, id, active);
    }

    method SetActiveInLiterals(ghost path: seq<Segment>, node: TrieNode, id: nat, active: bool) returns (found: bool)
      requires Valid() && path in nodes && nodes[path] == node
      modifies this`live, repr`subscriptions
      ensures Valid()
      ensures if found then OneSwitched(old(live), id, active, live)
              else live == old(live) && NoneBelowLiterals(path, node, id)
      decreases Below(path), 1
    {
      var texts := node.literalChildren.Keys;
      ghost var done := {};
      while texts != {}
        invariant Valid() && live == old(live) && texts + done == node.literalChildren.Keys
        invariant forall t :: t in done ==> NoneBelow(live, Child(path, Literal(t)), id)
      {
        var text :| text in texts;
        found := SetActiveChild(path, node, Literal(text), id, active);
        if found { return; }
        texts, done := texts - {text}, done + {text};
      }
      found := false;
    }

    method SetActiveChild(ghost path: seq<Segment>, node: TrieNode, x: Segment, id: nat, active: bool)
      returns (found: bool)
      requires Valid() && path in nodes && nodes[path] == node
      modifies this`live, repr`subscriptions
      ensures Valid()
      ensures if found then OneSwitched(old(live), id, active, live)
              else live == old(live) && (node.ChildAt(x) != null ==> NoneBelow(live, Child(path, x), id))
      decreases Below(path), 0
    {
      var child := node.ChildAt(x);
      if child == null { return false; }
      ChildIsSmaller(path, x);
      found := SetActiveRecursive(Child(path, x), child, id, active);
    }

    method SetActiveHere(ghost path: seq<Segment>, node: TrieNode, id: nat, active: bool) returns (found: bool)
      requires Valid() && path in nodes && nodes[path] == node
      modifies this`live, node`subscriptions
      ensures Valid()
      ensures if found then OneSwitched(old(live), id, active, live) else live == old(live) && NoneAt(live, path, id)
    {
      var subs := node.subscriptions;
      var pos := Position(subs, id);
      SubscriptionsAreLive(path);
      if pos == |subs| { return false; }
      Replaced(live, subs, pos, subs[pos].(active := active));
      SetSubscriptions(path, node, subs[pos := subs[pos].(active := active)]);
      return true;
    }

    // ---- Lookup ----

    /** How often a lookup at `path` with `rest` to consume has to return `s`. */
    ghost function Collected(path: seq<Segment>, rest: seq<string>, s: Subscription): nat
      reads this
    {
      if path <= s.topic && Reaches(s.topic[|path|..], rest) then live[s] else 0
    }

    /** `lookup`: every live subscription whose topic matches, as often as it is live, and nothing else. */
    method Lookup(event: seq<string>) returns (results: seq<Subscription>)
      requires Valid()
      ensures forall s :: multiset(results)[s] == if Reaches(s.topic, event) then live[s] else 0
    {
      results := LookupRecursive([], root, event, []);
      forall s ensures multiset(results)[s] == if Reaches(s.topic, event) then live[s] else 0 {
        assert multiset(results)[s] == Collected([], event, s);
        assert s.topic[0..] == s.topic;
      }
    }

    method LookupRecursive(ghost path: seq<Segment>, node: TrieNode, rest: seq<string>,
                           results: seq<Subscription>) returns (out: seq<Subscription>)
      requires Valid() && path in nodes && nodes[path] == node
      ensures forall s :: multiset(out)[s] == multiset(results)[s] + Collected(path, rest, s)
      decreases |rest|
    {
      out := results;
      if rest == [] {
        out := out + node.subscriptions;
      }
      if node.multiWildcard != null {
        out := out + node.multiWildcard.subscriptions;
      }
      ghost var soFar := out;
      OwnAndMulti(path, node, rest, results, soFar);
      if rest == [] {
        NothingDeeper(path, rest);
        return;
      }
      var first, remaining := rest[0], rest[1..];
      if first in node.literalChildren {
        ChildIsSmaller(path, Literal(first));
        out := LookupRecursive(Child(path, Literal(first)), node.literalChildren[first], remaining, out);
      } else {
        NoSuchChild(path, Literal(first), remaining);
      }
      if node.singleWildcard != null {
        ChildIsSmaller(path, SingleWildcard);
        out := LookupRecursive(Child(path, SingleWildcard), node.singleWildcard, remaining, out);
      } else {
        NoSuchChild(path, SingleWildcard, remaining);
      }
      CollectedByPart(path, rest);
    }

    /** The part of `Collected` that stems from the node itself and from its multi-level child. */
    ghost function CollectedHere(path: seq<Segment>, rest: seq<string>, s: Subscription): nat
      reads this
    {
      if (s.topic == path && rest == []) || s.topic == Child(path, MultiWildcard) then live[s] else 0
    }

    lemma OwnAndMulti(path: seq<Segment>, node: TrieNode, rest: seq<string>,
                      results: seq<Subscription>, out: seq<Subscription>)
      requires Valid() && path in nodes && nodes[path] == node
      requires out == results + (if rest == [] then node.subscriptions else [])
                      + (if node.multiWildcard != null then node.multiWildcard.subscriptions else [])
      ensures forall s :: multiset(out)[s] == multiset(results)[s] + CollectedHere(path, rest, s)
    {}

    lemma NoSuchChild(path: seq<Segment>, x: Segment, rest: seq<string>)
      requires Valid() && path in nodes && nodes[path].ChildAt(x) == null
      ensures forall s :: Collected(Child(path, x), rest, s) == 0
    {
      forall s ensures Collected(Child(path, x), rest, s) == 0 {
        if s in live && Child(path, x) <= s.topic { NextStep(path, s); }
      }
    }

    lemma NothingDeeper(path: seq<Segment>, rest: seq<string>)
      requires rest == []
      ensures forall s :: Collected(path, rest, s) == CollectedHere(path, rest, s)
    {}

    ghost function CollectedParts(path: seq<Segment>, rest: seq<string>, s: Subscription): nat
      reads this
      requires rest != []
    {
      CollectedHere(path, rest, s)
      + Collected(Child(path, Literal(rest[0])), rest[1..], s)
      + Collected(Child(path, SingleWildcard), rest[1..], s)
    }

    lemma CollectedByPart(path: seq<Segment>, rest: seq<string>)
      requires rest != []
      ensures forall s :: Collected(path, rest, s) == CollectedParts(path, rest, s)
    {}

    // ---- Listing ----

    /** How often a listing of the subtree at `path` has to return `s`. */
    ghost function InSubtree(path: seq<Segment>, s: Subscription): nat
      reads this
    {
      if path <= s.topic then live[s] else 0
    }

    /** `all_subscriptions`: the live subscriptions, each as often as it is live. */
    method AllSubscriptions() returns (subs: seq<Subscription>)
      requires Valid()
      ensures multiset(subs) == live
    {
      subs := Collect([], root, []);
      forall s ensures multiset(subs)[s] == live[s] {
        assert multiset(subs)[s] == InSubtree([], s);
      }
    }

    method Collect(ghost path: seq<Segment>, node: TrieNode, subs: seq<Subscription>) returns (out: seq<Subscription>)
      requires Valid() && path in nodes && nodes[path] == node
      ensures forall s :: multiset(out)[s] == multiset(subs)[s] + InSubtree(path, s)
      decreases Below(path), 1
    {
      out := subs + node.subscriptions;
      var texts := node.literalChildren.Keys;
      ghost var done := {};
      NothingVisited(path);
      while texts != {}
        invariant texts !! done && texts + done == node.literalChildren.Keys
        invariant forall s :: multiset(out)[s] == multiset(subs)[s] + Visited(path, done, s)
      {
        var text :| text in texts;
        out := CollectChild(path, node, Literal(text), out);
        VisitedOneMore(path, done, text);
        texts, done := texts - {text}, done + {text};
      }
      out := CollectChild(path, node, SingleWildcard, out);
      out := CollectChild(path, node, MultiWildcard, out);
      forall s ensures InSubtree(path, s) == Visited(path, node.literalChildren.Keys, s)
                       + InSubtree(Child(path, SingleWildcard), s) + InSubtree(Child(path, MultiWildcard), s)
      {
        SubtreeByPart(path, node, s);
      }
    }

    /** The part of a subtree that lies at its root or below the literal children in `texts`. */
    ghost function Visited(path: seq<Segment>, texts: set<string>, s: Subscription): nat
      reads this
    {
      if || s.topic == path
         || (path < s.topic && s.topic[|path|].Literal? && s.topic[|path|].text in texts)
      then live[s] else 0
    }

    lemma NothingVisited(path: seq<Segment>)
      requires Valid() && path in nodes
      ensures forall s :: Visited(path, {}, s) == multiset(nodes[path].subscriptions)[s]
    {}

    lemma VisitedOneMore(path: seq<Segment>, done: set<string>, text: string)
      requires text !in done
      ensures forall s :: Visited(path, done + {text}, s)
                          == Visited(path, done, s) + InSubtree(Child(path, Literal(text)), s)
    {}

    lemma SubtreeByPart(path: seq<Segment>, node: TrieNode, s: Subscription)
      requires Valid() && path in nodes && nodes[path] == node
      ensures InSubtree(path, s) == Visited(path, node.literalChildren.Keys, s)
              + InSubtree(Child(path, SingleWildcard), s) + InSubtree(Child(path, MultiWildcard), s)
    {
      BelowByFirstSegment(path, s.topic);
      if s in live && path < s.topic { NextStep(path, s); }
    }

    method CollectChild(ghost path: seq<Segment>, node: TrieNode, x: Segment, subs: seq<Subscription>)
      returns (out: seq<Subscription>)
      requires Valid() && path in nodes && nodes[path] == node
      ensures forall s :: multiset(out)[s] == multiset(subs)[s] + InSubtree(Child(path, x), s)
      decreases Below(path), 0
    {
      var child := node.ChildAt(x);
      if child == null {
        forall s ensures InSubtree(Child(path, x), s) == 0 {
          if s in live && Child(path, x) <= s.topic { NextStep(path, s); }
        }
        return subs;
      }
      ChildIsSmaller(path, x);
      out := Collect(Child(path, x), child, subs);
    }

  }

  // ---- What the operations do to the live subscriptions ----

  ghost predicate NoneHasId(live: multiset<Subscription>, id: nat) {
    forall s :: s in live ==> s.id != id
  }

  ghost predicate NoneAt(live: multiset<Subscription>, path: seq<Segment>, id: nat) {
    forall s :: s in live && s.topic == path ==> s.id != id
  }

  ghost predicate NoneStrictlyBelow(live: multiset<Subscription>, path: seq<Segment>, id: nat) {
    forall s :: s in live && path < s.topic ==> s.id != id
  }

  ghost predicate NoneBelow(live: multiset<Subscription>, path: seq<Segment>, id: nat) {
    forall s :: s in live && path <= s.topic ==> s.id != id
  }

  ghost predicate OneRemoved(before: multiset<Subscription>, id: nat, after: multiset<Subscription>) {
    exists s :: s in before && s.id == id && after == before - multiset{s}
  }

  ghost predicate OneSwitched(before: multiset<Subscription>, id: nat, active: bool, after: multiset<Subscription>) {
    exists s :: s in before && s.id == id && after == before - multiset{s} + multiset{s.(active := active)}
  }

  /** Exchanging all that is live at one topic changes the counts there and nowhere else. */
  lemma SwapAtTopic(live: multiset<Subscription>, path: seq<Segment>, before: seq<Subscription>,
                    after: seq<Subscription>)
    requires forall s :: s in before ==> s.topic == path
    requires forall s :: s in after ==> s.topic == path
    requires multiset(before) <= live && forall s: Subscription :: s.topic == path ==> live[s] == multiset(before)[s]
    ensures forall s: Subscription ::
              (live - multiset(before) + multiset(after))[s] == if s.topic == path then multiset(after)[s] else live[s]
  {
    forall s: Subscription | s.topic != path ensures s !in multiset(before) && s !in multiset(after) {}
  }

  lemma TakenOut<T>(all: multiset<T>, xs: seq<T>, i: nat)
    requires i < |xs| && multiset(xs) <= all
    ensures xs[i] in all
    ensures all - multiset(xs) + multiset(xs[..i] + xs[i + 1..]) == all - multiset{xs[i]}
  {
    assert xs == xs[..i] + [xs[i]] + xs[i + 1..];
    assert xs[i] in multiset(xs);
  }

  lemma Replaced<T>(all: multiset<T>, xs: seq<T>, i: nat, x: T)
    requires i < |xs| && multiset(xs) <= all
    ensures xs[i] in all
    ensures all - multiset(xs) + multiset(xs[i := x]) == all - multiset{xs[i]} + multiset{x}
  {}

  /** `iter().position(|s| s.id == id)`, with the length standing for "not found". */
  method Position(subs: seq<Subscription>, id: nat) returns (pos: nat)
    ensures pos <= |subs|
    ensures forall i :: 0 <= i < pos ==> subs[i].id != id
    ensures pos < |subs| ==> subs[pos].id == id
  {
    pos := 0;
    while pos < |subs| && subs[pos].id != id
      invariant pos <= |subs|
      invariant forall i :: 0 <= i < pos ==> subs[i].id != id
    {
      pos := pos + 1;
    }
  }
}

/** The middleware chain of the pipeline (crates/nova-executor/src/middleware.rs). */
module MiddlewareChain {
  import Sequences

  /** What a stage does to context and request; the state also holds the result. */
  type StageFn<!S> = S -> S

  /** A middleware is handed the rest of the chain, to call as often as it likes. */
  type Handler<!S> = (S, S -> S) -> S

  datatype Registration<!S> = Registration(name: string, stage: nat, order: nat, handler: Handler<S>, enabled: bool)

  // ---- Selection and order ----

  function Selected<S>(all: seq<Registration<S>>, stage: nat): seq<Registration<S>> {
    if all == [] then []
    else (if all[0].stage == stage && all[0].enabled then [all[0]] else []) + Selected(all[1..], stage)
  }

  function OfOrder<S>(list: seq<Registration<S>>, order: nat): seq<Registration<S>> {
    if list == [] then [] else (if list[0].order == order then [list[0]] else []) + OfOrder(list[1..], order)
  }

  ghost predicate Ascending<S>(list: seq<Registration<S>>) {
    forall i, j :: 0 <= i < j < |list| ==> list[i].order <= list[j].order
  }

  /** What is selected sits at these places of the list, in order, and they are all that qualify. */
  ghost predicate SelectedAt<S>(all: seq<Registration<S>>, stage: nat, selected: seq<Registration<S>>, places: seq<nat>)
  {
    && |places| == |selected|
    && (forall k :: 0 <= k < |places| ==> places[k] < |all| && selected[k] == all[places[k]])
    && (forall k, l :: 0 <= k < l < |places| ==> places[k] < places[l])
    && forall i :: 0 <= i < |all| ==> (i in places <==> all[i].stage == stage && all[i].enabled)
  }

  lemma SelectedOneMore<S>(all: seq<Registration<S>>, x: Registration<S>, stage: nat, selected: seq<Registration<S>>,
                           places: seq<nat>)
    requires SelectedAt(all, stage, selected, places)
    ensures if x.stage == stage && x.enabled
            then SelectedAt(all + [x], stage, selected + [x], places + [|all|])
            else SelectedAt(all + [x], stage, selected, places)
  {
    assert |all| !in places;
  }

  lemma {:induction false} SelectedConcat<S>(a: seq<Registration<S>>, b: seq<Registration<S>>, stage: nat)
    ensures Selected(a + b, stage) == Selected(a, stage) + Selected(b, stage)
    decreases |a|
  {
    if a == [] {
      assert a + b == b;
    } else {
      var all := a + b;
      assert all[0] == a[0] && all[1..] == a[1..] + b;
      SelectedConcat(a[1..], b, stage);
      var first := if a[0].stage == stage && a[0].enabled then [a[0]] else [];
      Sequences.Associates(first, Selected(a[1..], stage), Selected(b, stage));
    }
  }

  /** Of the registrations exactly the enabled ones of the stage are selected, in the order they have. */
  lemma {:induction false} SelectedExactly<S>(all: seq<Registration<S>>, stage: nat) returns (places: seq<nat>)
    ensures SelectedAt(all, stage, Selected(all, stage), places)
    decreases |all|
  {
    places := [];
    if all != [] {
      var n := |all| - 1;
      places := SelectedExactly(all[..n], stage);
      SelectedOneMore(all[..n], all[n], stage, Selected(all[..n], stage), places);
      SelectedConcat(all[..n], [all[n]], stage);
      assert all == all[..n] + [all[n]];
      if all[n].stage == stage && all[n].enabled { places := places + [n]; }
    }
  }

  lemma SelectedStep<S>(all: seq<Registration<S>>, stage: nat, n: nat, done: seq<Registration<S>>)
    requires n < |all|
    ensures done + Selected(all[n..], stage) ==
            (if all[n].stage == stage && all[n].enabled then done + [all[n]] else done) + Selected(all[n + 1..], stage)
  {
    assert all[n..][0] == all[n] && all[n..][1..] == all[n + 1..];
  }

  /** A stable sort: ascending, and each order value keeps its entries in the sequence they had. */
  ghost predicate StablySorts<S>(sorted: seq<Registration<S>>, list: seq<Registration<S>>) {
    Ascending(sorted) && forall order: nat :: OfOrder(sorted, order) == OfOrder(list, order)
  }

  lemma {:induction false} OfOrderConcat<S>(a: seq<Registration<S>>, b: seq<Registration<S>>, order: nat)
    ensures OfOrder(a + b, order) == OfOrder(a, order) + OfOrder(b, order)
    decreases |a|
  {
    if a == [] {
      assert a + b == b;
    } else {
      var all := a + b;
      assert all[0] == a[0] && all[1..] == a[1..] + b;
      OfOrderConcat(a[1..], b, order);
      var first := if a[0].order == order then [a[0]] else [];
      Sequences.Associates(first, OfOrder(a[1..], order), OfOrder(b, order));
    }
  }

  lemma OfOrderOfThree<S>(a: seq<Registration<S>>, b: seq<Registration<S>>, c: seq<Registration<S>>, order: nat)
    ensures OfOrder(a + b + c, order) == OfOrder(a, order) + OfOrder(b, order) + OfOrder(c, order)
  {
    OfOrderConcat(a + b, c, order);
    OfOrderConcat(a, b, order);
  }

  lemma {:induction false} NoneOfOrder<S>(list: seq<Registration<S>>, order: nat)
    requires forall i :: 0 <= i < |list| ==> list[i].order != order
    ensures OfOrder(list, order) == []
  {
    if list != [] {
      NoneOfOrder(list[1..], order);
    }
  }

  lemma {:induction false} HasOrder<S>(list: seq<Registration<S>>, order: nat)
    requires OfOrder(list, order) != []
    ensures exists i :: 0 <= i < |list| && list[i].order == order
  {
    if list[0].order != order {
      assert [] + OfOrder(list[1..], order) == OfOrder(list[1..], order);
      HasOrder(list[1..], order);
      var i :| 0 <= i < |list[1..]| && list[1..][i].order == order;
      assert list[i + 1].order == order;
    }
  }

  lemma FirstOfLeast<S>(list: seq<Registration<S>>)
    requires list != [] && Ascending(list)
    ensures OfOrder(list, list[0].order) == [list[0]] + OfOrder(list[1..], list[0].order)
    ensures forall order: nat :: order < list[0].order ==> OfOrder(list, order) == []
  {
    forall order: nat | order < list[0].order ensures OfOrder(list, order) == [] {
      NoneOfOrder(list, order);
    }
  }

  /** There is only one way to sort stably. */
  lemma {:induction false} StableSortIsUnique<S>(a: seq<Registration<S>>, b: seq<Registration<S>>)
    requires Ascending(a) && Ascending(b) && forall order: nat :: OfOrder(a, order) == OfOrder(b, order)
    ensures a == b
    decreases |a|
  {
    if a == [] {
      assert b != [] ==> OfOrder(b, b[0].order) == OfOrder(a, b[0].order);
    } else {
      assert OfOrder(b, a[0].order) == OfOrder(a, a[0].order) != [];
      HasOrder(b, a[0].order);
      FirstOfLeast(a);
      FirstOfLeast(b);
      assert a[0].order == b[0].order by {
        var low, high := b[0].order, a[0].order;
        assert low < high ==> OfOrder(a, low) == OfOrder(b, low);
      }
      var least := a[0].order;
      assert OfOrder(a, least) == OfOrder(b, least);
      assert a[0] == OfOrder(a, least)[0] == OfOrder(b, least)[0] == b[0];
      forall order: nat ensures OfOrder(a[1..], order) == OfOrder(b[1..], order) {
        TailOfOrder(a, b, order);
      }
      StableSortIsUnique(a[1..], b[1..]);
    }
  }

  lemma TailOfOrder<S>(a: seq<Registration<S>>, b: seq<Registration<S>>, order: nat)
    requires a != [] && b != [] && a[0] == b[0] && OfOrder(a, order) == OfOrder(b, order)
    ensures OfOrder(a[1..], order) == OfOrder(b[1..], order)
  {
    var first := if a[0].order == order then [a[0]] else [];
    assert OfOrder(a, order) == first + OfOrder(a[1..], order);
    assert OfOrder(b, order) == first + OfOrder(b[1..], order);
    assert OfOrder(a[1..], order) == OfOrder(a, order)[|first|..];
    assert OfOrder(b[1..], order) == OfOrder(b, order)[|first|..];
  }

  // ---- Composition ----

  function Wrapped<S>(handler: Handler<S>, next: StageFn<S>): StageFn<S> {
    state => handler(state, next)
  }

  /** The chain as a right fold: each middleware is handed all that comes behind it. */
  function Chain<S>(list: seq<Registration<S>>, stageFn: StageFn<S>): StageFn<S> {
    if list == [] then stageFn else Wrapped(list[0].handler, Chain(list[1..], stageFn))
  }

  lemma {:induction false} ChainConcat<S>(a: seq<Registration<S>>, b: seq<Registration<S>>, stageFn: StageFn<S>)
    ensures Chain(a + b, stageFn) == Chain(a, Chain(b, stageFn))
    decreases |a|
  {
    if a == [] {
      assert a + b == b;
    } else {
      var all := a + b;
      assert all[0] == a[0] && all[1..] == a[1..] + b;
      ChainConcat(a[1..], b, stageFn);
    }
  }

  /** The handler asks nothing of the rest of the chain but what it answers. */
  ghost predicate AsksAnswersOnly<S(!new)>(handler: Handler<S>) {
    forall state, f: S -> S, g: S -> S :: (forall x :: f(x) == g(x)) ==> handler(state, f) == handler(state, g)
  }

  lemma {:induction false} ChainOfEqualEnds<S(!new)>(list: seq<Registration<S>>, f: StageFn<S>, g: StageFn<S>, state: S)
    requires forall i :: 0 <= i < |list| ==> AsksAnswersOnly(list[i].handler)
    requires forall x :: f(x) == g(x)
    ensures Chain(list, f)(state) == Chain(list, g)(state)
    decreases |list|
  {
    if list != [] {
      var rest := list[1..];
      forall x ensures Chain(rest, f)(x) == Chain(rest, g)(x) {
        ChainOfEqualEnds(rest, f, g, x);
      }
      assert AsksAnswersOnly(list[0].handler);
      assert list[0].handler(state, Chain(rest, f)) == list[0].handler(state, Chain(rest, g));
    }
  }

  /** Behind a middleware that answers by itself nothing matters: neither what follows it, nor the stage. */
  lemma NothingBehindShortCircuit<S(!new)>(before: seq<Registration<S>>, cut: Registration<S>, answer: S -> S,
                                           behind: seq<Registration<S>>, others: seq<Registration<S>>,
                                           f: StageFn<S>, g: StageFn<S>, state: S)
    requires forall i :: 0 <= i < |before| ==> AsksAnswersOnly(before[i].handler)
    requires forall x, next: S -> S :: cut.handler(x, next) == answer(x)
    ensures Chain(before + ([cut] + behind), f)(state) == Chain(before + ([cut] + others), g)(state)
  {
    ChainConcat(before, [cut] + behind, f);
    ChainConcat(before, [cut] + others, g);
    assert ([cut] + behind)[1..] == behind && ([cut] + others)[1..] == others;
    ChainOfEqualEnds(before, Chain([cut] + behind, f), Chain([cut] + others, g), state);
  }

  /** A middleware that does one thing to the state and passes it on. */
  ghost predicate PassesOn<S(!new)>(handler: Handler<S>, effect: S -> S) {
    forall state, next: S -> S :: handler(state, next) == next(effect(state))
  }

  function Effects<S>(effects: seq<S -> S>, state: S): S {
    if effects == [] then state else Effects(effects[1..], effects[0](state))
  }

  /** Middleware that pass on act in the order of the chain, and the stage comes last. */
  lemma {:induction false} ActInOrder<S(!new)>(list: seq<Registration<S>>, effects: seq<S -> S>, stageFn: StageFn<S>,
                                               state: S)
    requires |effects| == |list| && forall i :: 0 <= i < |list| ==> PassesOn(list[i].handler, effects[i])
    ensures Chain(list, stageFn)(state) == stageFn(Effects(effects, state))
    decreases |list|
  {
    if list != [] {
      assert PassesOn(list[0].handler, effects[0]);
      ActInOrder(list[1..], effects[1..], stageFn, effects[0](state));
    }
  }

  // ---- The code ----

  class MiddlewareChain<!S> {
    var middleware: seq<Registration<S>>

    /** No two registrations share a name. */
    ghost predicate Valid()
      reads this
    {
      forall i, j :: 0 <= i < j < |middleware| ==> middleware[i].name != middleware[j].name
    }

    constructor ()
      ensures Valid() && middleware == []
    {
      middleware := [];
    }

    method Position(name: string) returns (pos: nat)
      ensures pos <= |middleware|
      ensures forall i :: 0 <= i < pos ==> middleware[i].name != name
      ensures pos < |middleware| ==> middleware[pos].name == name
    {
      pos := 0;
      while pos < |middleware| && middleware[pos].name != name
        invariant pos <= |middleware|
        invariant forall i :: 0 <= i < pos ==> middleware[i].name != name
      {
        pos := pos + 1;
      }
    }

    ghost predicate Registered(name: string)
      reads this
    {
      exists i :: 0 <= i < |middleware| && middleware[i].name == name
    }

    method Register(registration: Registration<S>) returns (ok: bool)
      requires Valid()
      modifies this
      ensures Valid()
      ensures ok <==> !old(Registered(registration.name))
      ensures middleware == if ok then old(middleware) + [registration] else old(middleware)
    {
      var pos := Position(registration.name);
      if pos < |middleware| {
        return false;
      }
      middleware := middleware + [registration];
      return true;
    }

    method Unregister(name: string) returns (ok: bool)
      requires Valid()
      modifies this
      ensures Valid() && !Registered(name)
      ensures ok <==> old(Registered(name))
      ensures !ok ==> middleware == old(middleware)
      ensures ok ==> exists i :: 0 <= i < |old(middleware)| && old(middleware)[i].name == name
                                 && middleware == old(middleware)[..i] + old(middleware)[i + 1..]
    {
      var pos := Position(name);
      if pos == |middleware| {
        return false;
      }
      middleware := middleware[..pos] + middleware[pos + 1..];
      return true;
    }

    /** `enable` and `disable`. */
    method SetEnabled(name: string, enabled: bool) returns (ok: bool)
      requires Valid()
      modifies this
      ensures Valid()
      ensures ok <==> old(Registered(name))
      ensures |middleware| == |old(middleware)|
      ensures forall i :: 0 <= i < |middleware| ==>
                middleware[i] == if old(middleware)[i].name == name then old(middleware)[i].(enabled := enabled)
                                 else old(middleware)[i]
    {
      var pos := Position(name);
      if pos == |middleware| {
        return false;
      }
      middleware := middleware[pos := middleware[pos].(enabled := enabled)];
      return true;
    }

    /** The enabled middleware of a stage, stably sorted by order. */
    method ForStage(stage: nat) returns (chain: seq<Registration<S>>)
      ensures StablySorts(chain, Selected(middleware, stage))
    {
      chain := [];
      ghost var done := [];
      for n := 0 to |middleware|
        invariant Selected(middleware, stage) == done + Selected(middleware[n..], stage)
        invariant StablySorts(chain, done)
      {
        SelectedStep(middleware, stage, n, done);
        if middleware[n].stage == stage && middleware[n].enabled {
          chain := InsertByOrder(chain, middleware[n], done);
          done := done + [middleware[n]];
        }
      }
      assert middleware[|middleware|..] == [] && done + [] == done;
    }

    method RunChain(stage: nat, stageFn: StageFn<S>, state: S) returns (r: S)
      ensures exists chain :: StablySorts(chain, Selected(middleware, stage)) && r == Chain(chain, stageFn)(state)
    {
      var list := ForStage(stage);
      if list == [] {
        assert StablySorts(list, Selected(middleware, stage)) && stageFn(state) == Chain(list, stageFn)(state);
        return stageFn(state);
      }
      var composed := stageFn;
      var n := |list|;
      while n > 0
        invariant 0 <= n <= |list|
        invariant composed == Chain(list[n..], stageFn)
      {
        n := n - 1;
        assert list[n..][0] == list[n] && list[n..][1..] == list[n + 1..];
        composed := Wrapped(list[n].handler, composed);
      }
      assert list[0..] == list;
      r := composed(state);
    }
  }

  /** One insertion of the stable sort: behind all entries of the same order or a smaller one. */
  method InsertByOrder<S>(sorted: seq<Registration<S>>, x: Registration<S>, ghost list: seq<Registration<S>>)
    returns (r: seq<Registration<S>>)
    requires StablySorts(sorted, list)
    ensures StablySorts(r, list + [x])
  {
    var pos := 0;
    while pos < |sorted| && sorted[pos].order <= x.order
      invariant pos <= |sorted|
      invariant forall i :: 0 <= i < pos ==> sorted[i].order <= x.order
    {
      pos := pos + 1;
    }
    r := sorted[..pos] + [x] + sorted[pos..];
    InsertedAt(sorted, x, pos);
    forall order: nat ensures OfOrder(r, order) == OfOrder(list + [x], order) {
      assert OfOrder(sorted, order) == OfOrder(list, order);
      OfOrderConcat(list, [x], order);
      InsertedOfOrder(sorted, x, pos, order);
    }
  }

  lemma InsertedAt<S>(sorted: seq<Registration<S>>, x: Registration<S>, pos: nat)
    requires Ascending(sorted) && pos <= |sorted|
    requires forall i :: 0 <= i < pos ==> sorted[i].order <= x.order
    requires pos < |sorted| ==> sorted[pos].order > x.order
    ensures Ascending(sorted[..pos] + [x] + sorted[pos..])
  {
    var r := sorted[..pos] + [x] + sorted[pos..];
    forall i, j | 0 <= i < j < |r| ensures r[i].order <= r[j].order {
      assert i < pos ==> r[i] == sorted[i];
      assert i > pos ==> r[i] == sorted[i - 1];
      assert j < pos ==> r[j] == sorted[j];
      assert j > pos ==> r[j] == sorted[j - 1];
    }
  }

  lemma InsertedOfOrder<S>(sorted: seq<Registration<S>>, x: Registration<S>, pos: nat, order: nat)
    requires Ascending(sorted) && pos <= |sorted| && (pos < |sorted| ==> sorted[pos].order > x.order)
    ensures OfOrder(sorted[..pos] + [x] + sorted[pos..], order) == OfOrder(sorted, order) + OfOrder([x], order)
  {
    var front, back := sorted[..pos], sorted[pos..];
    assert front + back == sorted;
    OfOrderOfThree(front, [x], back, order);
    OfOrderConcat(front, back, order);
    if order == x.order { NoneOfOrder(back, order); } else { NoneOfOrder([x], order); }
    NothingToSwap(OfOrder(front, order), OfOrder([x], order), OfOrder(back, order));
  }

  lemma NothingToSwap<T>(a: seq<T>, x: seq<T>, b: seq<T>)
    requires x == [] || b == []
    ensures (a + x) + b == (a + b) + x
  {}
}

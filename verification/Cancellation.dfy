/**
Cancellation tokens (crates/nova-executor/src/cancellation.rs): any number of threads call `cancel` and `on_cancel` on
one token and `cancel` on its children, interleaved at every access to a flag, the mutex or a callback. `drain` is not
called. The flags are read and written in one order all threads agree on.
*/
module Cancellation {
  import opened Outcomes

  /**
  What a thread was started for. Each `on_cancel` brings a callback of its own; for the one `child_token` brings, the
  callback stands for the child as well, and `CancelChild` cancels that child directly.
  */
  datatype Task = Cancel | OnCancel(callback: nat) | CancelChild(child: nat)

  datatype Pc =
    | Start
    // cancel: the flag is set; the vector was drained and the rest of it is still to be run
    | FlagSet
    | Running(rest: seq<nat>)
    // on_cancel: the flag was clear; the lock is taken; the flag was still clear; the flag was set
    | Locking
    | Locked
    | Pushing
    | MustRun
    | Finished

  /** Where a callback is, for the statements only. */
  datatype Place = WithCaller | Registered | Drained(canceller: nat) | Ran

  /** `flags` are the children whose flag is set. */
  datatype State = State(
    cancelled: bool,
    flags: set<nat>,
    callbacks: seq<nat>,
    lockedBy: Option<nat>,
    pcs: map<nat, Pc>,
    runs: map<nat, nat>,
    places: map<nat, Place>)

  type Tasks = map<nat, Task>

  ghost predicate DistinctCallbacks(tasks: Tasks) {
    forall t, u :: t in tasks && u in tasks && tasks[t].OnCancel? && tasks[u] == tasks[t] ==> t == u
  }

  ghost predicate IsCallback(tasks: Tasks, c: nat) {
    exists t :: t in tasks && tasks[t] == OnCancel(c)
  }

  ghost predicate Initial(tasks: Tasks, s: State) {
    && !s.cancelled && s.flags == {} && s.callbacks == [] && s.lockedBy == None
    && s.pcs.Keys == tasks.Keys && (forall t :: t in tasks ==> s.pcs[t] == Start)
    && (forall c :: c in s.runs <==> IsCallback(tasks, c))
    && s.places.Keys == s.runs.Keys
    && (forall c :: c in s.runs ==> s.runs[c] == 0 && s.places[c] == WithCaller)
  }

  // ---- Steps ----

  function At(s: State, t: nat, pc: Pc): State {
    s.(pcs := s.pcs[t := pc])
  }

  function Invoked(s: State, c: nat): State
    requires c in s.runs
  {
    s.(runs := s.runs[c := s.runs[c] + 1], flags := s.flags + {c}, places := s.places[c := Ran])
  }

  function Moved(places: map<nat, Place>, which: seq<nat>, place: Place): map<nat, Place> {
    map c | c in places :: if c in which then place else places[c]
  }

  /** The lock is free. */
  predicate CanLock(s: State) {
    s.lockedBy == None
  }

  /** One atomic step of thread `t`, which must not wait for the lock. */
  ghost predicate Next(tasks: Tasks, s: State, t: nat, u: State) {
    && t in tasks && t in s.pcs
    && match tasks[t]
       case Cancel => NextCancel(s, t, u)
       case OnCancel(c) => NextOnCancel(s, t, c, u)
       case CancelChild(c) => s.pcs[t].Start? && u == At(s.(flags := s.flags + {c}), t, Finished)
  }

  ghost predicate NextCancel(s: State, t: nat, u: State)
    requires t in s.pcs
  {
    match s.pcs[t]
    case Start => u == At(s.(cancelled := true), t, FlagSet)
    case FlagSet =>
      // lock, drain into a private vector, unlock
      && CanLock(s)
      && u == At(s.(callbacks := [], places := Moved(s.places, s.callbacks, Drained(t))), t, Running(s.callbacks))
    case Running(rest) =>
      if rest == [] then u == At(s, t, Finished)
      else rest[0] in s.runs && u == At(Invoked(s, rest[0]), t, Running(rest[1..]))
    case _ => false
  }

  ghost predicate NextOnCancel(s: State, t: nat, c: nat, u: State)
    requires t in s.pcs
  {
    match s.pcs[t]
    case Start => u == At(s, t, if s.cancelled then MustRun else Locking)
    case Locking => CanLock(s) && u == At(s.(lockedBy := Some(t)), t, Locked)
    case Locked =>
      // the flag is checked again under the lock, and if set the lock is dropped
      if s.cancelled then u == At(s.(lockedBy := None), t, MustRun) else u == At(s, t, Pushing)
    case Pushing =>
      u == At(s.(callbacks := s.callbacks + [c], lockedBy := None, places := s.places[c := Registered]), t, Finished)
    case MustRun => c in s.runs && u == At(Invoked(s, c), t, Finished)
    case _ => false
  }

  // ---- The invariant ----

  ghost predicate Distinct(cs: seq<nat>) {
    forall i, j :: 0 <= i < j < |cs| ==> cs[i] != cs[j]
  }

  predicate HasDrained(pc: Pc) {
    pc.Running? || pc.Finished?
  }

  /** The threads and the mutex. */
  ghost predicate ThreadsInv(tasks: Tasks, s: State) {
    && s.pcs.Keys == tasks.Keys
    && (s.lockedBy.Some? ==> s.lockedBy.value in tasks)
    && (forall t :: t in tasks ==> ThreadInv(tasks[t], s.pcs[t], s.cancelled, s.lockedBy == Some(t)))
  }

  predicate ThreadInv(task: Task, pc: Pc, cancelled: bool, holdsLock: bool) {
    match task
    case Cancel => (pc.Start? || (cancelled && (pc.FlagSet? || HasDrained(pc)))) && !holdsLock
    case OnCancel(_) => !pc.FlagSet? && !pc.Running? && (holdsLock <==> pc.Locked? || pc.Pushing?)
    case CancelChild(_) => (pc.Start? || pc.Finished?) && !holdsLock
  }

  /** Once the vector has been drained it stays empty, because nobody is about to push. */
  ghost predicate DrainedForGood(tasks: Tasks, s: State)
    requires s.pcs.Keys == tasks.Keys
  {
    forall t :: t in tasks && tasks[t].Cancel? && HasDrained(s.pcs[t]) ==>
      s.callbacks == [] && forall u :: u in tasks ==> !s.pcs[u].Pushing?
  }

  /** A callback has run once if its place is `Ran`, and not at all otherwise; what ran has set its child's flag. */
  ghost predicate RunsInv(tasks: Tasks, s: State) {
    && s.places.Keys == s.runs.Keys
    && (forall t :: t in tasks && tasks[t].OnCancel? ==> tasks[t].callback in s.places)
    && (forall c :: c in s.runs ==> s.runs[c] == (if s.places[c] == Ran then 1 else 0)
                                    && (s.places[c] == Ran ==> c in s.flags))
  }

  /** A callback is with its caller until `on_cancel` returns. */
  ghost predicate CallersInv(tasks: Tasks, s: State)
    requires s.pcs.Keys == tasks.Keys
  {
    forall t :: t in tasks && tasks[t].OnCancel? ==>
      var c := tasks[t].callback;
      c in s.places && (s.places[c] == WithCaller <==> !s.pcs[t].Finished?)
  }

  ghost predicate VectorInv(s: State) {
    && Distinct(s.callbacks)
    && (forall c :: c in s.callbacks <==> c in s.places && s.places[c] == Registered)
  }

  /** What was drained is still in the hands of the canceller that drained it. */
  ghost predicate OwnedInv(tasks: Tasks, s: State)
    requires s.pcs.Keys == tasks.Keys
  {
    forall c :: c in s.places && s.places[c].Drained? ==>
      var t := s.places[c].canceller;
      t in tasks && tasks[t].Cancel? && s.pcs[t].Running? && c in s.pcs[t].rest
  }

  /** What a canceller has in its hands is its alone. */
  ghost predicate DrainedInv(tasks: Tasks, s: State)
    requires s.pcs.Keys == tasks.Keys
  {
    forall t :: t in tasks && s.pcs[t].Running? ==> HoldsAlone(s.places, s.pcs[t].rest, t)
  }

  ghost predicate HoldsAlone(places: map<nat, Place>, rest: seq<nat>, t: nat) {
    Distinct(rest) && forall c :: c in rest ==> c in places && places[c] == Drained(t)
  }

  ghost predicate PlacesInv(tasks: Tasks, s: State)
    requires s.pcs.Keys == tasks.Keys
  {
    RunsInv(tasks, s) && CallersInv(tasks, s) && VectorInv(s) && OwnedInv(tasks, s) && DrainedInv(tasks, s)
  }

  ghost predicate Inv(tasks: Tasks, s: State) {
    ThreadsInv(tasks, s) && DrainedForGood(tasks, s) && PlacesInv(tasks, s)
  }

  lemma InitialInv(tasks: Tasks, s: State)
    requires DistinctCallbacks(tasks) && Initial(tasks, s)
    ensures Inv(tasks, s)
  {}

  lemma NextThreadsCancel(tasks: Tasks, s: State, t: nat, u: State)
    requires ThreadsInv(tasks, s) && t in tasks && tasks[t].Cancel? && NextCancel(s, t, u)
    ensures ThreadsInv(tasks, u)
  {}

  lemma NextThreadsOnCancel(tasks: Tasks, s: State, t: nat, c: nat, u: State)
    requires ThreadsInv(tasks, s) && t in tasks && tasks[t] == OnCancel(c) && NextOnCancel(s, t, c, u)
    ensures ThreadsInv(tasks, u)
  {}

  lemma NextThreadsCancelChild(tasks: Tasks, s: State, t: nat, u: State)
    requires ThreadsInv(tasks, s) && t in tasks && tasks[t].CancelChild? && Next(tasks, s, t, u)
    ensures ThreadsInv(tasks, u)
  {}

  lemma NextThreads(tasks: Tasks, s: State, t: nat, u: State)
    requires ThreadsInv(tasks, s) && Next(tasks, s, t, u)
    ensures ThreadsInv(tasks, u)
  {
    match tasks[t] {
      case Cancel => NextThreadsCancel(tasks, s, t, u);
      case OnCancel(c) => NextThreadsOnCancel(tasks, s, t, c, u);
      case CancelChild(_) => NextThreadsCancelChild(tasks, s, t, u);
    }
  }

  lemma NextDrainedCancel(tasks: Tasks, s: State, t: nat, u: State)
    requires ThreadsInv(tasks, s) && DrainedForGood(tasks, s)
    requires t in tasks && tasks[t].Cancel? && NextCancel(s, t, u)
    ensures u.pcs.Keys == tasks.Keys && DrainedForGood(tasks, u)
  {}

  lemma NextDrainedOnCancel(tasks: Tasks, s: State, t: nat, c: nat, u: State)
    requires ThreadsInv(tasks, s) && DrainedForGood(tasks, s)
    requires t in tasks && tasks[t] == OnCancel(c) && NextOnCancel(s, t, c, u)
    ensures u.pcs.Keys == tasks.Keys && DrainedForGood(tasks, u)
  {
    forall x | x in tasks && tasks[x].Cancel? && HasDrained(u.pcs[x])
      ensures u.callbacks == [] && forall y :: y in tasks ==> !u.pcs[y].Pushing?
    {
      assert HasDrained(s.pcs[x]);
      assert ThreadInv(tasks[x], s.pcs[x], s.cancelled, s.lockedBy == Some(x));
    }
  }

  lemma NextDrainedCancelChild(tasks: Tasks, s: State, t: nat, u: State)
    requires ThreadsInv(tasks, s) && DrainedForGood(tasks, s)
    requires t in tasks && tasks[t].CancelChild? && Next(tasks, s, t, u)
    ensures u.pcs.Keys == tasks.Keys && DrainedForGood(tasks, u)
  {}

  lemma NextDrained(tasks: Tasks, s: State, t: nat, u: State)
    requires ThreadsInv(tasks, s) && DrainedForGood(tasks, s) && Next(tasks, s, t, u)
    ensures u.pcs.Keys == tasks.Keys && DrainedForGood(tasks, u)
  {
    match tasks[t] {
      case Cancel => NextDrainedCancel(tasks, s, t, u);
      case OnCancel(c) => NextDrainedOnCancel(tasks, s, t, c, u);
      case CancelChild(_) => NextDrainedCancelChild(tasks, s, t, u);
    }
  }

  // ---- Where the callbacks go ----

  /** A step that moves no callback. */
  ghost predicate IsQuiet(task: Task, s: State, t: nat, u: State, pc: Pc) {
    && t in s.pcs && u.places == s.places && u.runs == s.runs && s.flags <= u.flags
    && u.callbacks == s.callbacks && u.pcs == s.pcs[t := pc]
    && !pc.Running? && (s.pcs[t].Running? ==> s.pcs[t].rest == [])
    && (task.OnCancel? ==> !pc.Finished? && !s.pcs[t].Finished?)
  }

  lemma QuietStep(tasks: Tasks, s: State, t: nat, u: State, pc: Pc)
    requires s.pcs.Keys == tasks.Keys && PlacesInv(tasks, s) && t in tasks && IsQuiet(tasks[t], s, t, u, pc)
    ensures u.pcs.Keys == tasks.Keys && PlacesInv(tasks, u)
  {}

  /** The canceller takes over all that is registered. */
  ghost predicate Drains(s: State, t: nat, u: State) {
    && t in s.pcs && !s.pcs[t].Running? && !s.pcs[t].Finished?
    && u.pcs == s.pcs[t := Running(s.callbacks)] && u.callbacks == []
    && u.places == Moved(s.places, s.callbacks, Drained(t)) && u.runs == s.runs && u.flags == s.flags
  }

  lemma DrainKeepsRuns(tasks: Tasks, s: State, t: nat, u: State)
    requires s.pcs.Keys == tasks.Keys && RunsInv(tasks, s) && CallersInv(tasks, s) && VectorInv(s)
    requires t in tasks && tasks[t].Cancel? && Drains(s, t, u)
    ensures u.pcs.Keys == tasks.Keys && RunsInv(tasks, u) && CallersInv(tasks, u) && VectorInv(u)
  {}

  lemma DrainHolds(tasks: Tasks, s: State, t: nat, u: State)
    requires s.pcs.Keys == tasks.Keys && VectorInv(s) && OwnedInv(tasks, s) && DrainedInv(tasks, s)
    requires t in tasks && tasks[t].Cancel? && Drains(s, t, u)
    ensures u.pcs.Keys == tasks.Keys && OwnedInv(tasks, u) && DrainedInv(tasks, u)
  {
    forall x | x in tasks && u.pcs[x].Running? ensures HoldsAlone(u.places, u.pcs[x].rest, x) {
      if x != t {
        assert HoldsAlone(s.places, s.pcs[x].rest, x);
      }
    }
  }

  lemma DrainStep(tasks: Tasks, s: State, t: nat, u: State)
    requires s.pcs.Keys == tasks.Keys && PlacesInv(tasks, s)
    requires t in tasks && tasks[t].Cancel? && s.pcs[t].FlagSet? && NextCancel(s, t, u)
    ensures u.pcs.Keys == tasks.Keys && PlacesInv(tasks, u)
  {
    assert Drains(s, t, u);
    DrainKeepsRuns(tasks, s, t, u);
    DrainHolds(tasks, s, t, u);
  }

  /** One callback changes its place, and nobody else has it in hand. */
  lemma OthersHold(places: map<nat, Place>, rest: seq<nat>, x: nat, c: nat, place: Place)
    requires HoldsAlone(places, rest, x) && c in places && places[c] != Drained(x)
    ensures HoldsAlone(places[c := place], rest, x)
  {}

  lemma RestHolds(places: map<nat, Place>, rest: seq<nat>, t: nat)
    requires rest != [] && HoldsAlone(places, rest, t)
    ensures rest[0] in places && rest[0] !in rest[1..] && HoldsAlone(places[rest[0] := Ran], rest[1..], t)
    ensures forall c :: c in rest <==> c == rest[0] || c in rest[1..]
  {
    assert rest == [rest[0]] + rest[1..];
  }

  lemma InvokeHolds(tasks: Tasks, s: State, t: nat, u: State)
    requires s.pcs.Keys == tasks.Keys && OwnedInv(tasks, s) && DrainedInv(tasks, s)
    requires t in tasks && tasks[t].Cancel? && s.pcs[t].Running? && s.pcs[t].rest != [] && NextCancel(s, t, u)
    ensures u.pcs.Keys == tasks.Keys && OwnedInv(tasks, u) && DrainedInv(tasks, u)
  {
    var rest := s.pcs[t].rest;
    RestHolds(s.places, rest, t);
    forall x | x in tasks && u.pcs[x].Running? ensures HoldsAlone(u.places, u.pcs[x].rest, x) {
      if x != t {
        OthersHold(s.places, s.pcs[x].rest, x, rest[0], Ran);
      }
    }
  }

  lemma InvokeStep(tasks: Tasks, s: State, t: nat, u: State)
    requires ThreadsInv(tasks, s) && PlacesInv(tasks, s)
    requires t in tasks && tasks[t].Cancel? && s.pcs[t].Running? && s.pcs[t].rest != [] && NextCancel(s, t, u)
    ensures PlacesInv(tasks, u)
  {
    InvokeHolds(tasks, s, t, u);
    RestHolds(s.places, s.pcs[t].rest, t);
  }

  /** The callback leaves its caller: it is registered, or run at once. */
  ghost predicate Leaves(s: State, t: nat, c: nat, u: State, place: Place) {
    && c in s.runs && t in s.pcs && !s.pcs[t].Finished? && (place == Registered || place == Ran)
    && u.pcs == s.pcs[t := Finished] && u.places == s.places[c := place]
    && u.callbacks == (if place == Registered then s.callbacks + [c] else s.callbacks)
    && u.runs == (if place == Ran then s.runs[c := s.runs[c] + 1] else s.runs)
    && u.flags == (if place == Ran then s.flags + {c} else s.flags)
  }

  lemma OnCancelLeaves(s: State, t: nat, c: nat, u: State)
    requires t in s.pcs && (s.pcs[t].Pushing? || s.pcs[t].MustRun?) && c in s.runs && NextOnCancel(s, t, c, u)
    ensures Leaves(s, t, c, u, if s.pcs[t].Pushing? then Registered else Ran)
  {}

  lemma LeavesHolds(tasks: Tasks, s: State, t: nat, c: nat, u: State, place: Place)
    requires s.pcs.Keys == tasks.Keys && OwnedInv(tasks, s) && DrainedInv(tasks, s)
    requires t in tasks && tasks[t] == OnCancel(c) && Leaves(s, t, c, u, place)
    requires c in s.places && s.places[c] == WithCaller
    ensures u.pcs.Keys == tasks.Keys && OwnedInv(tasks, u) && DrainedInv(tasks, u)
  {
    forall x | x in tasks && u.pcs[x].Running? ensures HoldsAlone(u.places, u.pcs[x].rest, x) {
      OthersHold(s.places, s.pcs[x].rest, x, c, place);
    }
  }

  lemma LeavesCallers(tasks: Tasks, s: State, t: nat, c: nat, u: State, place: Place)
    requires DistinctCallbacks(tasks) && s.pcs.Keys == tasks.Keys && RunsInv(tasks, s) && CallersInv(tasks, s)
    requires t in tasks && tasks[t] == OnCancel(c) && Leaves(s, t, c, u, place)
    ensures u.pcs.Keys == tasks.Keys && RunsInv(tasks, u) && CallersInv(tasks, u)
  {}

  lemma LeavesVector(s: State, t: nat, c: nat, u: State, place: Place)
    requires VectorInv(s) && Leaves(s, t, c, u, place) && c in s.places && s.places[c] == WithCaller
    ensures VectorInv(u)
  {
    assert forall d :: d in s.callbacks + [c] <==> d in s.callbacks || d == c;
  }

  lemma IsWithCaller(tasks: Tasks, s: State, t: nat, c: nat)
    requires s.pcs.Keys == tasks.Keys && CallersInv(tasks, s)
    requires t in tasks && tasks[t] == OnCancel(c) && !s.pcs[t].Finished?
    ensures c in s.places && s.places[c] == WithCaller
  {}

  lemma CallerStep(tasks: Tasks, s: State, t: nat, c: nat, u: State, place: Place)
    requires DistinctCallbacks(tasks) && s.pcs.Keys == tasks.Keys && PlacesInv(tasks, s)
    requires t in tasks && tasks[t] == OnCancel(c) && Leaves(s, t, c, u, place)
    ensures u.pcs.Keys == tasks.Keys && PlacesInv(tasks, u)
  {
    IsWithCaller(tasks, s, t, c);
    LeavesVector(s, t, c, u, place);
    LeavesHolds(tasks, s, t, c, u, place);
    LeavesCallers(tasks, s, t, c, u, place);
  }

  lemma NextPlacesCancel(tasks: Tasks, s: State, t: nat, u: State)
    requires ThreadsInv(tasks, s) && PlacesInv(tasks, s)
    requires t in tasks && tasks[t].Cancel? && NextCancel(s, t, u)
    ensures u.pcs.Keys == tasks.Keys && PlacesInv(tasks, u)
  {
    if s.pcs[t].FlagSet? {
      DrainStep(tasks, s, t, u);
    } else if s.pcs[t].Running? && s.pcs[t].rest != [] {
      InvokeStep(tasks, s, t, u);
    } else {
      QuietStep(tasks, s, t, u, u.pcs[t]);
    }
  }

  lemma NextPlacesOnCancel(tasks: Tasks, s: State, t: nat, c: nat, u: State)
    requires DistinctCallbacks(tasks) && ThreadsInv(tasks, s) && PlacesInv(tasks, s)
    requires t in tasks && tasks[t] == OnCancel(c) && NextOnCancel(s, t, c, u)
    ensures u.pcs.Keys == tasks.Keys && PlacesInv(tasks, u)
  {
    if s.pcs[t].Pushing? || s.pcs[t].MustRun? {
      OnCancelLeaves(s, t, c, u);
      CallerStep(tasks, s, t, c, u, if s.pcs[t].Pushing? then Registered else Ran);
    } else {
      OnCancelIsQuiet(s, t, c, u);
      QuietStep(tasks, s, t, u, u.pcs[t]);
    }
  }

  lemma OnCancelIsQuiet(s: State, t: nat, c: nat, u: State)
    requires t in s.pcs && !s.pcs[t].Pushing? && !s.pcs[t].MustRun? && NextOnCancel(s, t, c, u)
    ensures t in u.pcs && IsQuiet(OnCancel(c), s, t, u, u.pcs[t])
  {}

  lemma NextPlaces(tasks: Tasks, s: State, t: nat, u: State)
    requires DistinctCallbacks(tasks) && ThreadsInv(tasks, s) && PlacesInv(tasks, s) && Next(tasks, s, t, u)
    ensures u.pcs.Keys == tasks.Keys && PlacesInv(tasks, u)
  {
    match tasks[t] {
      case Cancel => NextPlacesCancel(tasks, s, t, u);
      case OnCancel(c) => NextPlacesOnCancel(tasks, s, t, c, u);
      case CancelChild(_) => QuietStep(tasks, s, t, u, Finished);
    }
  }

  lemma NextInv(tasks: Tasks, s: State, t: nat, u: State)
    requires DistinctCallbacks(tasks) && Inv(tasks, s) && Next(tasks, s, t, u)
    ensures Inv(tasks, u)
  {
    NextThreads(tasks, s, t, u);
    NextDrained(tasks, s, t, u);
    NextPlaces(tasks, s, t, u);
  }

  // ---- Over every interleaving ----

  /** `schedule[i]` is the thread that takes step `i`. */
  ghost predicate Run(tasks: Tasks, trace: seq<State>, schedule: seq<nat>) {
    && DistinctCallbacks(tasks)
    && |trace| == |schedule| + 1 && Initial(tasks, trace[0])
    && forall i :: 0 <= i < |schedule| ==> Next(tasks, trace[i], schedule[i], trace[i + 1])
  }

  lemma {:induction false} RunInv(tasks: Tasks, trace: seq<State>, schedule: seq<nat>, i: nat)
    requires Run(tasks, trace, schedule) && i < |trace|
    ensures Inv(tasks, trace[i])
  {
    if i == 0 {
      InitialInv(tasks, trace[0]);
    } else {
      RunInv(tasks, trace, schedule, i - 1);
      NextInv(tasks, trace[i - 1], schedule[i - 1], trace[i]);
    }
  }

  /** At most once: no interleaving runs a callback twice. */
  lemma NeverTwice(tasks: Tasks, trace: seq<State>, schedule: seq<nat>, i: nat, c: nat)
    requires Run(tasks, trace, schedule) && i < |trace| && c in trace[i].runs
    ensures trace[i].runs[c] <= 1
  {
    RunInv(tasks, trace, schedule, i);
  }

  /**
  Exactly once: when all threads have finished, and one of them cancelled, every callback has run, and with it
  the flag of every direct child is set.
  */
  lemma OnceAllFinished(tasks: Tasks, trace: seq<State>, schedule: seq<nat>, canceller: nat, t: nat)
    requires Run(tasks, trace, schedule)
    requires canceller in tasks && tasks[canceller] == Cancel && t in tasks && tasks[t].OnCancel?
    requires var last := trace[|schedule|]; forall u :: u in tasks ==> u in last.pcs && last.pcs[u] == Finished
    ensures var last := trace[|schedule|];
            var c := tasks[t].callback;
            last.cancelled && c in last.runs && last.runs[c] == 1 && c in last.flags
  {
    RunInv(tasks, trace, schedule, |schedule|);
  }

  lemma OthersStep(tasks: Tasks, s: State, t: nat, u: State, other: nat)
    requires Next(tasks, s, t, u) && other != t && other in s.pcs
    ensures other in u.pcs && u.pcs[other] == s.pcs[other]
  {}

  lemma {:induction false} StaysWithoutSteps(tasks: Tasks, trace: seq<State>, schedule: seq<nat>, i: nat, j: nat,
                                             t: nat)
    requires Run(tasks, trace, schedule) && i <= j < |trace| && t in trace[i].pcs
    requires forall k :: i <= k < j ==> schedule[k] != t
    ensures t in trace[j].pcs && trace[j].pcs[t] == trace[i].pcs[t]
    decreases j
  {
    if i < j {
      StaysWithoutSteps(tasks, trace, schedule, i, j - 1, t);
      OthersStep(tasks, trace[j - 1], schedule[j - 1], trace[j], t);
    }
  }

  /**
  A callback registered on a token that is cancelled already runs with its caller's next step, whoever holds the lock:
  it never waits and is never put into the vector.
  */
  lemma LateCallbackRunsAtOnce(tasks: Tasks, trace: seq<State>, schedule: seq<nat>, i: nat, j: nat, t: nat, c: nat)
    requires Run(tasks, trace, schedule) && i < j < |schedule| && t in tasks && tasks[t] == OnCancel(c)
    requires t in trace[i].pcs && trace[i].cancelled && trace[i].pcs[t] == Start
    requires schedule[i] == t == schedule[j] && forall k :: i < k < j ==> schedule[k] != t
    ensures t in trace[j + 1].pcs && trace[j + 1].pcs[t] == Finished
    ensures c in trace[j + 1].runs && trace[j + 1].runs[c] == 1
  {
    assert Next(tasks, trace[i], schedule[i], trace[i + 1]);
    StaysWithoutSteps(tasks, trace, schedule, i + 1, j, t);
    assert Next(tasks, trace[j], schedule[j], trace[j + 1]);
    RunInv(tasks, trace, schedule, j + 1);
  }

  /** A child that was cancelled directly has its flag set from then on. */
  lemma {:induction false} CancelledChildIsFlagged(tasks: Tasks, trace: seq<State>, schedule: seq<nat>, i: nat, t: nat)
    requires Run(tasks, trace, schedule) && i < |trace|
    requires t in tasks && tasks[t].CancelChild? && t in trace[i].pcs && trace[i].pcs[t] == Finished
    ensures tasks[t].child in trace[i].flags
  {
    if i > 0 {
      RunInv(tasks, trace, schedule, i - 1);
      if trace[i - 1].pcs[t] == Finished {
        CancelledChildIsFlagged(tasks, trace, schedule, i - 1, t);
      }
      NextFlags(tasks, trace[i - 1], schedule[i - 1], trace[i], t);
    }
  }

  lemma NextFlags(tasks: Tasks, s: State, t: nat, u: State, child: nat)
    requires Next(tasks, s, t, u)
    ensures s.flags <= u.flags
    ensures (&& child in tasks && tasks[child].CancelChild? && child in s.pcs && s.pcs[child] != Finished
             && child in u.pcs && u.pcs[child] == Finished)
            ==> tasks[child].child in u.flags
  {}

  /** The token's flag is clear, no callback has run or is about to, and every child's flag was set by cancelling it. */
  ghost predicate Untouched(tasks: Tasks, s: State) {
    && !s.cancelled && (forall t :: t in s.pcs ==> !s.pcs[t].MustRun?)
    && (forall c :: c in s.runs ==> s.runs[c] == 0)
    && forall c :: c in s.flags ==> ChildCancelled(tasks, c)
  }

  ghost predicate ChildCancelled(tasks: Tasks, c: nat) {
    exists t :: t in tasks && tasks[t] == CancelChild(c)
  }

  lemma NextUntouched(tasks: Tasks, s: State, t: nat, u: State)
    requires Untouched(tasks, s) && Next(tasks, s, t, u) && !tasks[t].Cancel?
    ensures Untouched(tasks, u)
  {
    if tasks[t].CancelChild? { assert ChildCancelled(tasks, tasks[t].child); }
  }

  /** Cancelling children alone cancels nothing else: no callback runs, and the token's own flag stays clear. */
  lemma {:induction false} NoneWithoutCancel(tasks: Tasks, trace: seq<State>, schedule: seq<nat>, i: nat)
    requires Run(tasks, trace, schedule) && i < |trace|
    requires forall t :: t in tasks ==> !tasks[t].Cancel?
    ensures Untouched(tasks, trace[i])
  {
    if i > 0 {
      NoneWithoutCancel(tasks, trace, schedule, i - 1);
      NextUntouched(tasks, trace[i - 1], schedule[i - 1], trace[i]);
    }
  }

  /** No deadlock: as long as a thread has not finished, some thread can take a step. */
  lemma SomeoneCanStep(tasks: Tasks, s: State, waiting: nat) returns (t: nat, u: State)
    requires Inv(tasks, s) && waiting in tasks && s.pcs[waiting] != Finished
    ensures Next(tasks, s, t, u)
  {
    t := waiting;
    if s.lockedBy.Some? {
      t := s.lockedBy.value;
    }
    match tasks[t] {
      case Cancel =>
        match s.pcs[t] {
          case Start => u := At(s.(cancelled := true), t, FlagSet);
          case FlagSet =>
            u := At(s.(callbacks := [], places := Moved(s.places, s.callbacks, Drained(t))), t, Running(s.callbacks));
          case Running(rest) =>
            u := if rest == [] then At(s, t, Finished) else At(Invoked(s, rest[0]), t, Running(rest[1..]));
        }
      case OnCancel(c) =>
        match s.pcs[t] {
          case Start => u := At(s, t, if s.cancelled then MustRun else Locking);
          case Locking => u := At(s.(lockedBy := Some(t)), t, Locked);
          case Locked => u := if s.cancelled then At(s.(lockedBy := None), t, MustRun) else At(s, t, Pushing);
          case Pushing =>
            var pushed := s.(callbacks := s.callbacks + [c], lockedBy := None, places := s.places[c := Registered]);
            u := At(pushed, t, Finished);
          case MustRun => u := At(Invoked(s, c), t, Finished);
        }
      case CancelChild(c) => u := At(s.(flags := s.flags + {c}), t, Finished);
    }
  }

  // ---- How long a schedule can be ----

  /** The steps a thread has left at most; a callback to be registered counts for the step that will run it. */
  function Left(pc: Pc): nat {
    match pc
    case Start => 5
    case FlagSet => 2
    case Running(rest) => 1 + |rest|
    case Locking => 4
    case Locked => 3
    case Pushing => 2
    case MustRun => 1
    case Finished => 0
  }

  ghost function LeftInAll(pcs: map<nat, Pc>): nat {
    if pcs == map[] then 0
    else
      var t :| t in pcs;
      Left(pcs[t]) + LeftInAll(pcs - {t})
  }

  lemma {:induction false} LeftWithout(pcs: map<nat, Pc>, t: nat)
    requires t in pcs
    ensures LeftInAll(pcs) == Left(pcs[t]) + LeftInAll(pcs - {t})
  {
    var first :| first in pcs && LeftInAll(pcs) == Left(pcs[first]) + LeftInAll(pcs - {first});
    if first != t {
      LeftWithout(pcs - {first}, t);
      LeftWithout(pcs - {t}, first);
      assert pcs - {first} - {t} == pcs - {t} - {first};
    }
  }

  lemma LeftAfter(pcs: map<nat, Pc>, t: nat, pc: Pc)
    requires t in pcs
    ensures LeftInAll(pcs[t := pc]) + Left(pcs[t]) == LeftInAll(pcs) + Left(pc)
  {
    LeftWithout(pcs, t);
    LeftWithout(pcs[t := pc], t);
    assert pcs[t := pc] - {t} == pcs - {t};
  }

  lemma {:induction false} LeftAtStart(pcs: map<nat, Pc>)
    requires forall t :: t in pcs ==> pcs[t] == Start
    ensures LeftInAll(pcs) == 5 * |pcs|
    decreases |pcs|
  {
    if pcs != map[] {
      var t :| t in pcs;
      LeftWithout(pcs, t);
      assert (pcs - {t}).Keys == pcs.Keys - {t};
      LeftAtStart(pcs - {t});
    }
  }

  ghost function Work(s: State): nat {
    LeftInAll(s.pcs) + |s.callbacks|
  }

  ghost predicate Works(s: State, t: nat, u: State) {
    && t in s.pcs && t in u.pcs && u.pcs == s.pcs[t := u.pcs[t]]
    && Left(u.pcs[t]) + |u.callbacks| < Left(s.pcs[t]) + |s.callbacks|
  }

  lemma CancelWorks(s: State, t: nat, u: State)
    requires t in s.pcs && NextCancel(s, t, u)
    ensures Works(s, t, u)
  {}

  lemma OnCancelWorks(s: State, t: nat, c: nat, u: State)
    requires t in s.pcs && NextOnCancel(s, t, c, u)
    ensures Works(s, t, u)
  {}

  lemma EveryStepWorks(tasks: Tasks, s: State, t: nat, u: State)
    requires Next(tasks, s, t, u)
    ensures Work(u) < Work(s)
  {
    match tasks[t] {
      case Cancel => CancelWorks(s, t, u);
      case OnCancel(c) => OnCancelWorks(s, t, c, u);
      case CancelChild(_) =>
    }
    LeftAfter(s.pcs, t, u.pcs[t]);
  }

  lemma {:induction false} WorkLeft(tasks: Tasks, trace: seq<State>, schedule: seq<nat>, i: nat)
    requires Run(tasks, trace, schedule) && i < |trace|
    ensures i + Work(trace[i]) <= 5 * |tasks|
  {
    if i == 0 {
      LeftAtStart(trace[0].pcs);
      assert |trace[0].pcs| == |trace[0].pcs.Keys| == |tasks.Keys|;
    } else {
      WorkLeft(tasks, trace, schedule, i - 1);
      EveryStepWorks(tasks, trace[i - 1], schedule[i - 1], trace[i]);
    }
  }

  /** No schedule goes on forever, and one that cannot be continued has brought every thread to its end. */
  lemma SchedulesEnd(tasks: Tasks, trace: seq<State>, schedule: seq<nat>)
    requires Run(tasks, trace, schedule)
    ensures |schedule| <= 5 * |tasks|
    ensures || (exists t, u :: Next(tasks, trace[|schedule|], t, u))
            || forall t :: t in tasks ==> t in trace[|schedule|].pcs && trace[|schedule|].pcs[t] == Finished
  {
    var last := trace[|schedule|];
    WorkLeft(tasks, trace, schedule, |schedule|);
    RunInv(tasks, trace, schedule, |schedule|);
    if waiting :| waiting in tasks && last.pcs[waiting] != Finished {
      var t, u := SomeoneCanStep(tasks, last, waiting);
    }
  }
}

/**
Admission, concurrency permits and draining of the pipeline executor (crates/nova-executor/src/pipeline.rs,
`execute` and `drain`), as the interleaved steps of any number of calls. Every call runs to completion.
*/
module PipelineGate {
  import Sets

  /** One `execute`, from its first gate to the release of its permit. */
  datatype Exec =
    | Arriving      // before the `is_running` check
    | AtSecondGate  // before the `is_draining` check
    | PastGates     // other early returns and the wait for a permit
    | HasPermit     // before the active counter is raised
    | Active
    | Leaving       // counter lowered, permit still held
    | Done
    | Refused

  /** One `drain`. */
  datatype Drain =
    | Called
    | Polling   // `is_draining` is set; the counter is read again and again
    | SawZero   // the counter was zero; `is_running` is about to be cleared
    | TimedOut  // `is_draining` is about to be cleared
    | ReturnedOk
    | ReturnedErr

  datatype State = State(
    running: bool,
    draining: bool,
    permits: nat,
    active: nat,
    execs: map<nat, Exec>,
    drains: map<nat, Drain>)

  ghost predicate Initial(s: State, maxConcurrent: nat) {
    && s.running && !s.draining && s.permits == maxConcurrent && s.active == 0
    && (forall e :: e in s.execs ==> s.execs[e] == Arriving)
    && (forall d :: d in s.drains ==> s.drains[d] == Called)
  }

  function To(s: State, e: nat, pc: Exec): State {
    s.(execs := s.execs[e := pc])
  }

  ghost predicate ExecStep(s: State, e: nat, t: State) {
    && e in s.execs
    && match s.execs[e]
       case Arriving => t == To(s, e, if s.running then AtSecondGate else Refused)
       case AtSecondGate => t == To(s, e, if s.draining then Refused else PastGates)
       case PastGates =>
         // a cached response or a full queue ends the call here; otherwise it waits for a permit
         || t == To(s, e, Refused)
         || (s.permits > 0 && t == To(s.(permits := s.permits - 1), e, HasPermit))
       case HasPermit => t == To(s.(active := s.active + 1), e, Active)
       case Active => s.active > 0 && t == To(s.(active := s.active - 1), e, Leaving)
       case Leaving => t == To(s.(permits := s.permits + 1), e, Done)
       case _ => false
  }

  function DrainTo(s: State, d: nat, pc: Drain): State {
    s.(drains := s.drains[d := pc])
  }

  ghost predicate DrainStep(s: State, d: nat, t: State) {
    && d in s.drains
    && match s.drains[d]
       case Called => t == DrainTo(s.(draining := true), d, Polling)
       case Polling =>
         if s.active == 0 then t == DrainTo(s, d, SawZero)
         else t == s || t == DrainTo(s, d, TimedOut)
       case SawZero => t == DrainTo(s.(running := false), d, ReturnedOk)
       case TimedOut => t == DrainTo(s.(draining := false), d, ReturnedErr)
       case _ => false
  }

  datatype Step = OfExec(e: nat) | OfDrain(d: nat)

  ghost predicate Next(s: State, step: Step, t: State) {
    match step
    case OfExec(e) => ExecStep(s, e, t)
    case OfDrain(d) => DrainStep(s, d, t)
  }

  ghost predicate Path(trace: seq<State>, steps: seq<Step>) {
    |trace| == |steps| + 1 && forall i :: 0 <= i < |steps| ==> Next(trace[i], steps[i], trace[i + 1])
  }

  ghost predicate Run(trace: seq<State>, steps: seq<Step>, maxConcurrent: nat) {
    Path(trace, steps) && Initial(trace[0], maxConcurrent)
  }

  // ---- The invariant ----

  ghost function ActiveOnes(s: State): set<nat> {
    set e | e in s.execs && s.execs[e] == Active
  }

  ghost function Holders(s: State): set<nat> {
    set e | e in s.execs && Holding(s.execs[e])
  }

  /** The counter counts the active calls, every permit is free or held, and an Ok drain has stopped the pipeline. */
  ghost predicate Inv(s: State, maxConcurrent: nat) {
    && s.active == |ActiveOnes(s)|
    && s.permits + |Holders(s)| == maxConcurrent
    && (forall d :: d in s.drains && s.drains[d] == ReturnedOk ==> !s.running)
  }

  lemma InitialInv(s: State, maxConcurrent: nat)
    requires Initial(s, maxConcurrent)
    ensures Inv(s, maxConcurrent)
  {}

  predicate Holding(pc: Exec) {
    pc == HasPermit || pc == Active || pc == Leaving
  }

  function One(b: bool): nat {
    if b then 1 else 0
  }

  /** How the two sets change when call `e` moves on. */
  lemma Moves(s: State, e: nat, pc: Exec, t: State)
    requires e in s.execs && t.execs == s.execs[e := pc]
    ensures |ActiveOnes(t)| + One(s.execs[e] == Active) == |ActiveOnes(s)| + One(pc == Active)
    ensures |Holders(t)| + One(Holding(s.execs[e])) == |Holders(s)| + One(Holding(pc))
  {
    OneFlips(ActiveOnes(s), ActiveOnes(t), e, pc == Active);
    OneFlips(Holders(s), Holders(t), e, Holding(pc));
  }

  lemma OneFlips(a: set<nat>, b: set<nat>, e: nat, isIn: bool)
    requires forall x :: x != e ==> (x in a <==> x in b)
    requires e in b <==> isIn
    ensures |b| + One(e in a) == |a| + One(isIn)
  {
    assert b == if isIn then a + {e} else a - {e};
  }

  /** What one step of a call does to the counter and the permits. */
  ghost predicate Balanced(s: State, e: nat, t: State, pc: Exec)
    requires e in s.execs
  {
    && t.execs == s.execs[e := pc] && t.drains == s.drains && t.running == s.running
    && t.active + One(s.execs[e] == Active) == s.active + One(pc == Active)
    && t.permits + One(Holding(pc)) == s.permits + One(Holding(s.execs[e]))
  }

  lemma GateStepBalances(s: State, e: nat, t: State)
    requires ExecStep(s, e, t) && (s.execs[e] == Arriving || s.execs[e] == AtSecondGate || s.execs[e] == PastGates)
    ensures e in t.execs && Balanced(s, e, t, t.execs[e])
  {}

  lemma PermitStepBalances(s: State, e: nat, t: State)
    requires ExecStep(s, e, t) && Holding(s.execs[e])
    ensures e in t.execs && Balanced(s, e, t, t.execs[e])
  {}

  lemma BalancedKeepsInv(s: State, e: nat, t: State, pc: Exec, maxConcurrent: nat)
    requires Inv(s, maxConcurrent) && e in s.execs && Balanced(s, e, t, pc)
    ensures Inv(t, maxConcurrent)
  {
    Moves(s, e, pc, t);
  }

  lemma ExecKeepsInv(s: State, e: nat, t: State, maxConcurrent: nat)
    requires Inv(s, maxConcurrent) && ExecStep(s, e, t)
    ensures Inv(t, maxConcurrent)
  {
    if Holding(s.execs[e]) { PermitStepBalances(s, e, t); } else { GateStepBalances(s, e, t); }
    BalancedKeepsInv(s, e, t, t.execs[e], maxConcurrent);
  }

  lemma NextKeepsInv(s: State, step: Step, t: State, maxConcurrent: nat)
    requires Inv(s, maxConcurrent) && Next(s, step, t)
    ensures Inv(t, maxConcurrent)
  {
    match step {
      case OfExec(e) => ExecKeepsInv(s, e, t, maxConcurrent);
      case OfDrain(d) => assert ActiveOnes(t) == ActiveOnes(s) && Holders(t) == Holders(s);
    }
  }

  lemma {:induction false} RunKeepsInv(trace: seq<State>, steps: seq<Step>, maxConcurrent: nat, i: nat)
    requires Run(trace, steps, maxConcurrent) && i < |trace|
    ensures Inv(trace[i], maxConcurrent)
  {
    if i == 0 {
      InitialInv(trace[0], maxConcurrent);
    } else {
      RunKeepsInv(trace, steps, maxConcurrent, i - 1);
      NextKeepsInv(trace[i - 1], steps[i - 1], trace[i], maxConcurrent);
    }
  }

  /** In every interleaving the counter is the number of active calls, and never more than the permits. */
  lemma ActiveIsBounded(trace: seq<State>, steps: seq<Step>, maxConcurrent: nat, i: nat)
    requires Run(trace, steps, maxConcurrent) && i < |trace|
    ensures trace[i].active == |ActiveOnes(trace[i])| <= maxConcurrent
  {
    RunKeepsInv(trace, steps, maxConcurrent, i);
    Sets.SubsetSize(ActiveOnes(trace[i]), Holders(trace[i]));
  }

  /** When all calls are through, the counter is zero again and every permit is back. */
  lemma AllReturned(trace: seq<State>, steps: seq<Step>, maxConcurrent: nat)
    requires Run(trace, steps, maxConcurrent)
    requires var last := trace[|steps|];
             forall e :: e in last.execs ==> last.execs[e] == Done || last.execs[e] == Refused
    ensures trace[|steps|].active == 0 && trace[|steps|].permits == maxConcurrent
  {
    RunKeepsInv(trace, steps, maxConcurrent, |steps|);
    assert ActiveOnes(trace[|steps|]) == {} && Holders(trace[|steps|]) == {};
  }

  // ---- Draining ----

  /** Calls beyond the first gate that may still become active. */
  ghost function MayEnter(s: State): set<nat> {
    set e | e in s.execs && (s.execs[e] == AtSecondGate || s.execs[e] == PastGates || s.execs[e] == HasPermit)
  }

  /** A stopped pipeline stays stopped; only calls that were past the first gate by then can still be active. */
  lemma {:induction false} StoppedForGood(trace: seq<State>, steps: seq<Step>, maxConcurrent: nat, i: nat, j: nat)
    requires Run(trace, steps, maxConcurrent) && i <= j < |trace| && !trace[i].running
    ensures !trace[j].running && MayEnter(trace[j]) <= MayEnter(trace[i])
    ensures ActiveOnes(trace[j]) <= ActiveOnes(trace[i]) + MayEnter(trace[i])
    decreases j
  {
    if i < j {
      StoppedForGood(trace, steps, maxConcurrent, i, j - 1);
      assert Next(trace[j - 1], steps[j - 1], trace[j]);
    }
  }

  /** Once a drain has returned Ok, every call that arrives later is refused at its first step. */
  lemma RefusedAfterDrain(trace: seq<State>, steps: seq<Step>, maxConcurrent: nat, d: nat, i: nat, j: nat, e: nat)
    requires Run(trace, steps, maxConcurrent) && i <= j < |steps|
    requires d in trace[i].drains && trace[i].drains[d] == ReturnedOk
    requires e in trace[j].execs && trace[j].execs[e] == Arriving && steps[j] == OfExec(e)
    ensures trace[j + 1].execs[e] == Refused
  {
    RunKeepsInv(trace, steps, maxConcurrent, i);
    StoppedForGood(trace, steps, maxConcurrent, i, j);
  }

  predicate HasSeenZero(pc: Drain) {
    pc == SawZero || pc == ReturnedOk
  }

  predicate HasSeenCalls(pc: Drain) {
    pc == TimedOut || pc == ReturnedErr
  }

  lemma DrainMoves(s: State, step: Step, t: State, d: nat)
    requires Next(s, step, t) && d in t.drains
    ensures DrainChange(s, t, d)
  {}

  ghost predicate DrainChange(s: State, t: State, d: nat) {
    && d in s.drains && d in t.drains
    && (HasSeenZero(t.drains[d]) ==> HasSeenZero(s.drains[d]) || (s.drains[d] == Polling && s.active == 0))
    && (HasSeenCalls(t.drains[d]) ==> HasSeenCalls(s.drains[d]) || (s.drains[d] == Polling && s.active > 0))
  }

  lemma {:induction false} PolledBefore(trace: seq<State>, j: nat, d: nat) returns (i: nat)
    requires j < |trace| && d in trace[0].drains && trace[0].drains[d] == Called
    requires forall k :: 0 <= k < j ==> DrainChange(trace[k], trace[k + 1], d)
    requires d in trace[j].drains && (HasSeenZero(trace[j].drains[d]) || HasSeenCalls(trace[j].drains[d]))
    ensures i < j && d in trace[i].drains && trace[i].drains[d] == Polling
    ensures trace[i].active == 0 <==> HasSeenZero(trace[j].drains[d])
  {
    i := j - 1;
    assert DrainChange(trace[i], trace[i + 1], d);
    if trace[i].drains[d] != Polling {
      i := PolledBefore(trace, i, d);
    }
  }

  lemma {:induction false} DrainListed(trace: seq<State>, steps: seq<Step>, j: nat, d: nat)
    requires Path(trace, steps) && j < |trace| && d in trace[j].drains
    ensures d in trace[0].drains && forall k :: 0 <= k < j ==> DrainChange(trace[k], trace[k + 1], d)
  {
    if j > 0 {
      DrainMoves(trace[j - 1], steps[j - 1], trace[j - 1 + 1], d);
      DrainListed(trace, steps, j - 1, d);
    }
  }

  /** A drain that returned Ok has seen the counter at zero, and one that failed has seen calls active. */
  lemma DrainHasSeen(trace: seq<State>, steps: seq<Step>, maxConcurrent: nat, j: nat, d: nat) returns (i: nat)
    requires Run(trace, steps, maxConcurrent) && j < |trace| && d in trace[j].drains
    requires trace[j].drains[d] == ReturnedOk || trace[j].drains[d] == ReturnedErr
    ensures i < j && d in trace[i].drains && trace[i].drains[d] == Polling
    ensures if trace[j].drains[d] == ReturnedOk then ActiveOnes(trace[i]) == {} else ActiveOnes(trace[i]) != {}
  {
    DrainListed(trace, steps, j, d);
    i := PolledBefore(trace, j, d);
    RunKeepsInv(trace, steps, maxConcurrent, i);
  }

  /** The step ends a drain that timed out. */
  ghost predicate Reopens(s: State, step: Step) {
    step.OfDrain? && step.d in s.drains && s.drains[step.d] == TimedOut
  }

  /** From its first step on a drain turns away whatever comes to the second gate, until some drain times out. */
  lemma {:induction false} RefusedWhileDraining(trace: seq<State>, steps: seq<Step>, i: nat, j: nat, d: nat)
    requires Path(trace, steps) && i < j < |trace|
    requires d in trace[i].drains && trace[i].drains[d] == Called && steps[i] == OfDrain(d)
    requires forall k :: i < k < j ==> !Reopens(trace[k], steps[k])
    ensures trace[j].draining
    ensures (&& j < |steps| && steps[j].OfExec? && steps[j].e in trace[j].execs
             && trace[j].execs[steps[j].e] == AtSecondGate)
            ==> trace[j + 1].execs[steps[j].e] == Refused
    decreases j
  {
    if i + 1 < j { RefusedWhileDraining(trace, steps, i, j - 1, d); }
    assert Next(trace[j - 1], steps[j - 1], trace[j - 1 + 1]);
    if j < |steps| { assert Next(trace[j], steps[j], trace[j + 1]); }
  }

  // ---- Ok does not mean idle ----

  /** Some continuation has an active call. */
  ghost predicate ActiveLater(s: State) {
    exists trace, steps :: LeadsToActive(s, trace, steps)
  }

  ghost predicate LeadsToActive(s: State, trace: seq<State>, steps: seq<Step>) {
    Path(trace, steps) && trace[0] == s && trace[|steps|].active > 0
  }

  /** A call past both gates and not yet through, or one at the second gate that finds it open or may yet do so. */
  ghost predicate MayStillRun(s: State) {
    || (exists e :: e in s.execs && PastBothGates(s.execs[e]))
    || ((exists e :: e in s.execs && s.execs[e] == AtSecondGate) && SecondGateMayOpen(s))
  }

  predicate PastBothGates(pc: Exec) {
    pc == PastGates || pc == HasPermit || pc == Active
  }

  /** A drain that has timed out is about to open the second gate again. */
  ghost predicate SecondGateMayOpen(s: State) {
    !s.draining || exists d :: d in s.drains && s.drains[d] == TimedOut
  }

  lemma Prepend(s: State, step: Step, t: State, trace: seq<State>, steps: seq<Step>)
    requires Next(s, step, t) && LeadsToActive(t, trace, steps)
    ensures LeadsToActive(s, [s] + trace, [step] + steps)
  {
    var longer, more := [s] + trace, [step] + steps;
    forall i | 0 <= i < |more| ensures Next(longer[i], more[i], longer[i + 1]) {
      if i > 0 { assert Next(trace[i - 1], steps[i - 1], trace[i]); }
    }
  }

  lemma FromPermit(s: State, e: nat, maxConcurrent: nat)
    requires Inv(s, maxConcurrent) && e in s.execs && (s.execs[e] == HasPermit || s.execs[e] == Active)
    ensures ActiveLater(s)
  {
    if s.execs[e] == Active {
      assert e in ActiveOnes(s);
      assert LeadsToActive(s, [s], []);
    } else {
      var t := To(s.(active := s.active + 1), e, Active);
      assert LeadsToActive(t, [t], []);
      Prepend(s, OfExec(e), t, [t], []);
    }
  }

  lemma OneStepEarlier(s: State, step: Step, t: State)
    requires Next(s, step, t) && ActiveLater(t)
    ensures ActiveLater(s)
  {
    var trace, steps :| LeadsToActive(t, trace, steps);
    Prepend(s, step, t, trace, steps);
  }

  lemma FromPastGates(s: State, e: nat, maxConcurrent: nat)
    requires Inv(s, maxConcurrent) && maxConcurrent >= 1 && e in s.execs && s.execs[e] == PastGates
    ensures ActiveLater(s)
    decreases s.permits == 0
  {
    if s.permits > 0 {
      var t := To(s.(permits := s.permits - 1), e, HasPermit);
      ExecKeepsInv(s, e, t, maxConcurrent);
      FromPermit(t, e, maxConcurrent);
      OneStepEarlier(s, OfExec(e), t);
    } else {
      // all permits are held: a holder is active or about to be, or gives its permit back
      assert Holders(s) != {};
      var h :| h in Holders(s);
      if s.execs[h] != Leaving {
        FromPermit(s, h, maxConcurrent);
      } else {
        var t := To(s.(permits := s.permits + 1), h, Done);
        ExecKeepsInv(s, h, t, maxConcurrent);
        FromPastGates(t, e, maxConcurrent);
        OneStepEarlier(s, OfExec(h), t);
      }
    }
  }

  lemma FromSecondGate(s: State, e: nat, maxConcurrent: nat)
    requires Inv(s, maxConcurrent) && maxConcurrent >= 1 && e in s.execs && s.execs[e] == AtSecondGate
    requires SecondGateMayOpen(s)
    ensures ActiveLater(s)
    decreases s.draining
  {
    if !s.draining {
      var t := To(s, e, PastGates);
      ExecKeepsInv(s, e, t, maxConcurrent);
      FromPastGates(t, e, maxConcurrent);
      OneStepEarlier(s, OfExec(e), t);
    } else {
      var d :| d in s.drains && s.drains[d] == TimedOut;
      var t := DrainTo(s.(draining := false), d, ReturnedErr);
      NextKeepsInv(s, OfDrain(d), t, maxConcurrent);
      FromSecondGate(t, e, maxConcurrent);
      OneStepEarlier(s, OfDrain(d), t);
    }
  }

  /** Stopped, and with nothing that may still run, the pipeline stays so. */
  lemma QuietStays(s: State, step: Step, t: State, maxConcurrent: nat)
    requires Inv(s, maxConcurrent) && !s.running && !MayStillRun(s) && Next(s, step, t)
    ensures !t.running && !MayStillRun(t)
  {
    assert ActiveOnes(s) == {};
    match step {
      case OfExec(e) => assert forall x :: x in t.execs && x != e ==> x in s.execs && t.execs[x] == s.execs[x];
      case OfDrain(d) => assert t.execs == s.execs;
    }
  }

  lemma {:induction false} QuietAlong(trace: seq<State>, steps: seq<Step>, maxConcurrent: nat, i: nat)
    requires Path(trace, steps) && i < |trace| && Inv(trace[0], maxConcurrent)
    requires !trace[0].running && (maxConcurrent == 0 || !MayStillRun(trace[0]))
    ensures Inv(trace[i], maxConcurrent) && !trace[i].running
    ensures maxConcurrent == 0 || !MayStillRun(trace[i])
    ensures trace[i].active == 0
  {
    if i > 0 {
      QuietAlong(trace, steps, maxConcurrent, i - 1);
      NextKeepsInv(trace[i - 1], steps[i - 1], trace[i], maxConcurrent);
      if maxConcurrent > 0 {
        QuietStays(trace[i - 1], steps[i - 1], trace[i], maxConcurrent);
      }
    }
    Sets.SubsetSize(ActiveOnes(trace[i]), Holders(trace[i]));
    if maxConcurrent > 0 { assert ActiveOnes(trace[i]) == {}; }
  }

  /**
  Once a drain has returned Ok, a call can become active, or is, if and only if there are permits at all and some call
  was past both gates by then, or at the second gate with the gate open or about to be opened by a drain that timed out.
  */
  lemma ActiveAfterDrainIff(trace: seq<State>, steps: seq<Step>, maxConcurrent: nat, d: nat, i: nat)
    requires Run(trace, steps, maxConcurrent) && i < |trace|
    requires d in trace[i].drains && trace[i].drains[d] == ReturnedOk
    ensures ActiveLater(trace[i]) <==> maxConcurrent >= 1 && MayStillRun(trace[i])
  {
    var s := trace[i];
    RunKeepsInv(trace, steps, maxConcurrent, i);
    if maxConcurrent >= 1 && MayStillRun(s) {
      if e :| e in s.execs && PastBothGates(s.execs[e]) {
        if s.execs[e] == PastGates { FromPastGates(s, e, maxConcurrent); } else { FromPermit(s, e, maxConcurrent); }
      } else {
        var e :| e in s.execs && s.execs[e] == AtSecondGate;
        FromSecondGate(s, e, maxConcurrent);
      }
    } else if ActiveLater(s) {
      var later, more :| LeadsToActive(s, later, more);
      QuietAlong(later, more, maxConcurrent, |more|);
    }
  }

  /** Such a run: a call that was past the gates when the drain began becomes active after the drain returned Ok. */
  lemma ActiveAfterDrain(maxConcurrent: nat) returns (trace: seq<State>, steps: seq<Step>)
    requires maxConcurrent >= 1
    ensures Run(trace, steps, maxConcurrent)
    ensures var last := trace[|steps|]; 7 in last.drains && last.drains[7] == ReturnedOk && last.active == 1
  {
    var s0 := State(true, false, maxConcurrent, 0, map[3 := Arriving], map[7 := Called]);
    var s1 := To(s0, 3, AtSecondGate);
    var s2 := To(s1, 3, PastGates);
    var s3 := DrainTo(s2.(draining := true), 7, Polling);
    var s4 := DrainTo(s3, 7, SawZero);
    var s5 := DrainTo(s4.(running := false), 7, ReturnedOk);
    var s6 := To(s5.(permits := s5.permits - 1), 3, HasPermit);
    var s7 := To(s6.(active := s6.active + 1), 3, Active);
    assert Next(s0, OfExec(3), s1) && Next(s1, OfExec(3), s2) && Next(s2, OfDrain(7), s3);
    assert Next(s3, OfDrain(7), s4) && Next(s4, OfDrain(7), s5) && Next(s5, OfExec(3), s6) && Next(s6, OfExec(3), s7);
    trace := [s0, s1, s2, s3, s4, s5, s6, s7];
    steps := [OfExec(3), OfExec(3), OfDrain(7), OfDrain(7), OfDrain(7), OfExec(3), OfExec(3)];
  }
}

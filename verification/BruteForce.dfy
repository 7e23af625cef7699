/** The brute-force detector (crates/nova-auth/src/brute_force.rs) against one that keeps the full failure log. */
module BruteForce {
  import Sequences
  import opened Outcomes

  datatype Config = Config(maxAttempts: nat, window: nat, lockout: nat)

  /** What is kept of one identifier: failure times, oldest first, and the end of its lock. */
  datatype Track = Track(failures: seq<int>, lock: Option<int>)

  const NONE: Track := Track([], None)

  predicate Stale(t: int, now: int, window: nat) {
    now - t > window
  }

  // ---- One identifier: the detector, which drops failures once they leave the window ----

  /** Takes failures off the front as long as they are stale. */
  function Pruned(failures: seq<int>, now: int, window: nat): seq<int> {
    if failures != [] && Stale(failures[0], now, window) then Pruned(failures[1..], now, window) else failures
  }

  function Failed(track: Track, now: int, config: Config): Track {
    var failures := Pruned(track.failures + [now], now, config.window);
    Track(failures, if |failures| >= config.maxAttempts then Some(now + config.lockout) else track.lock)
  }

  predicate IsLocked(track: Track, now: int) {
    track.lock.Some? && now < track.lock.value
  }

  predicate LockOver(track: Track, now: int) {
    track.lock.Some? && now >= track.lock.value
  }

  /** Looking whether an identifier is locked forgets it when its lock is over. */
  function Checked(track: Track, now: int): Track {
    if LockOver(track, now) then NONE else track
  }

  /** The periodic cleanup drops stale failures and locks that are over, but no other failures. */
  function Cleaned(track: Track, now: int, config: Config): Track {
    Track(Pruned(track.failures, now, config.window), if LockOver(track, now) then None else track.lock)
  }

  // ---- The same with the full log: nothing is ever dropped for its age ----

  /** The failures that lie within the window, as a filter of the whole log. */
  function Within(log: seq<int>, now: int, window: nat): seq<int> {
    if log == [] then []
    else (if Stale(log[0], now, window) then [] else [log[0]]) + Within(log[1..], now, window)
  }

  function FailedInFull(track: Track, now: int, config: Config): Track {
    var log := track.failures + [now];
    var locks := |Within(log, now, config.window)| >= config.maxAttempts;
    Track(log, if locks then Some(now + config.lockout) else track.lock)
  }

  function CleanedInFull(track: Track, now: int): Track {
    track.(lock := if LockOver(track, now) then None else track.lock)
  }

  // ---- Runs ----

  datatype Action = Failure(at: int) | Success | Check(at: int) | Cleanup(at: int)

  function After(track: Track, action: Action, config: Config, full: bool): Track {
    match action
    case Failure(at) => if full then FailedInFull(track, at, config) else Failed(track, at, config)
    case Success => NONE
    case Check(at) => Checked(track, at)
    case Cleanup(at) => if full then CleanedInFull(track, at) else Cleaned(track, at, config)
  }

  function Run(start: Track, actions: seq<Action>, config: Config, full: bool): Track {
    if actions == [] then start
    else After(Run(start, actions[..|actions| - 1], config, full), actions[|actions| - 1], config, full)
  }

  /** The clock readings of the actions never fall, the first is at least `from` and the last at most `now`. */
  predicate InOrder(actions: seq<Action>, from: int, now: int) {
    if actions == [] then from <= now
    else
      var last := actions[|actions| - 1];
      if last.Success? then InOrder(actions[..|actions| - 1], from, now)
      else last.at <= now && InOrder(actions[..|actions| - 1], from, last.at)
  }

  // ---- Dropping changes nothing ----

  ghost predicate Ascending(times: seq<int>, now: int) {
    && (forall i, j :: 0 <= i < j < |times| ==> times[i] <= times[j])
    && forall i :: 0 <= i < |times| ==> times[i] <= now
  }

  /** On ascending times dropping from the front is filtering. */
  lemma {:induction false} PrunedIsWithin(times: seq<int>, now: int, window: nat)
    requires Ascending(times, now)
    ensures Pruned(times, now, window) == Within(times, now, window)
    decreases |times|
  {
    if times != [] {
      if Stale(times[0], now, window) {
        PrunedIsWithin(times[1..], now, window);
      } else {
        AllWithin(times, now, window);
      }
    }
  }

  lemma {:induction false} AllWithin(times: seq<int>, now: int, window: nat)
    requires forall i :: 0 <= i < |times| ==> !Stale(times[i], now, window)
    ensures Within(times, now, window) == times
  {
    if times != [] {
      AllWithin(times[1..], now, window);
    }
  }

  lemma {:induction false} WithinConcat(a: seq<int>, b: seq<int>, now: int, window: nat)
    ensures Within(a + b, now, window) == Within(a, now, window) + Within(b, now, window)
    decreases |a|
  {
    if a == [] {
      assert a + b == b;
    } else {
      assert (a + b)[0] == a[0] && (a + b)[1..] == a[1..] + b;
      WithinConcat(a[1..], b, now, window);
      var first := if Stale(a[0], now, window) then [] else [a[0]];
      Sequences.Associates(first, Within(a[1..], now, window), Within(b, now, window));
    }
  }

  /** What was within the window at some time is all that matters later. */
  lemma {:induction false} WithinTwice(log: seq<int>, before: int, now: int, window: nat)
    requires before <= now
    ensures Within(Within(log, before, window), now, window) == Within(log, now, window)
    decreases |log|
  {
    if log != [] {
      var rest := Within(log[1..], before, window);
      WithinTwice(log[1..], before, now, window);
      if Stale(log[0], before, window) {
        assert [] + rest == rest;
      } else {
        assert ([log[0]] + rest)[1..] == rest;
      }
    }
  }

  lemma {:induction false} WithinAscends(log: seq<int>, before: int, now: int, window: nat)
    requires Ascending(log, now)
    ensures Ascending(Within(log, before, window), now)
    ensures forall t :: t in Within(log, before, window) ==> t in log
    decreases |log|
  {
    if log != [] {
      WithinAscends(log[1..], before, now, window);
      var rest, all := Within(log[1..], before, window), Within(log, before, window);
      forall t | t in rest ensures log[0] <= t {
        assert t in log[1..];
      }
      if !Stale(log[0], before, window) {
        assert all == [log[0]] + rest;
        forall i, j | 0 <= i < j < |all| ensures all[i] <= all[j] {
          assert all[j] == rest[j - 1] && rest[j - 1] in rest;
        }
      }
    }
  }

  /** The detector holds exactly the failures of the full log that lay within the window when it last dropped some. */
  ghost predicate Agrees(track: Track, full: Track, before: int, now: int, window: nat) {
    && track.lock == full.lock && before <= now && Ascending(full.failures, now)
    && track.failures == Within(full.failures, before, window)
  }

  lemma FailureAgrees(track: Track, full: Track, before: int, now: int, at: int, config: Config)
    requires Agrees(track, full, before, now, config.window) && now <= at
    ensures Agrees(Failed(track, at, config), FailedInFull(full, at, config), at, at, config.window)
  {
    var window := config.window;
    WithinAscends(full.failures, before, now, window);
    PrunedIsWithin(track.failures + [at], at, window);
    WithinConcat(track.failures, [at], at, window);
    WithinConcat(full.failures, [at], at, window);
    WithinTwice(full.failures, before, at, window);
  }

  lemma CleanupAgrees(track: Track, full: Track, before: int, now: int, at: int, config: Config)
    requires Agrees(track, full, before, now, config.window) && now <= at
    ensures Agrees(Cleaned(track, at, config), CleanedInFull(full, at), at, at, config.window)
  {
    WithinAscends(full.failures, before, now, config.window);
    PrunedIsWithin(track.failures, at, config.window);
    WithinTwice(full.failures, before, at, config.window);
  }

  /** Over every run the detector's failures are a filter of the full log, and its lock is that of the full log. */
  lemma {:induction false} DequeIsFilterOfLog(actions: seq<Action>, config: Config, from: int, now: int)
    returns (before: int)
    requires InOrder(actions, from, now)
    ensures Agrees(Run(NONE, actions, config, false), Run(NONE, actions, config, true), before, now, config.window)
    decreases |actions|
  {
    before := now;
    if actions != [] {
      var earlier, last := actions[..|actions| - 1], actions[|actions| - 1];
      var track, full := Run(NONE, earlier, config, false), Run(NONE, earlier, config, true);
      match last {
        case Failure(at) =>
          var b := DequeIsFilterOfLog(earlier, config, from, at);
          FailureAgrees(track, full, b, at, at, config);
          before := at;
        case Success =>
        case Check(at) =>
          before := DequeIsFilterOfLog(earlier, config, from, at);
        case Cleanup(at) =>
          var b := DequeIsFilterOfLog(earlier, config, from, at);
          CleanupAgrees(track, full, b, at, at, config);
          before := at;
      }
    }
  }

  /** Dropping failures changes no answer, and a failure is counted with exactly those within the window before it. */
  lemma DroppingIsInvisible(actions: seq<Action>, config: Config, from: int, now: int)
    requires InOrder(actions, from, now)
    ensures IsLocked(Run(NONE, actions, config, false), now) == IsLocked(Run(NONE, actions, config, true), now)
    ensures Run(NONE, actions + [Failure(now)], config, false).failures
            == Within(Run(NONE, actions, config, true).failures + [now], now, config.window)
  {
    var before := DequeIsFilterOfLog(actions, config, from, now);
    assert (actions + [Failure(now)])[..|actions|] == actions;
    FailureAgrees(Run(NONE, actions, config, false), Run(NONE, actions, config, true), before, now, now, config);
  }

  // ---- When an identifier gets locked ----

  function CountSince(log: seq<int>, from: int): nat {
    if log == [] then 0 else (if log[0] >= from then 1 else 0) + CountSince(log[1..], from)
  }

  lemma {:induction false} WithinIsSince(log: seq<int>, now: int, window: nat)
    ensures |Within(log, now, window)| == CountSince(log, now - window)
  {
    if log != [] {
      WithinIsSince(log[1..], now, window);
    }
  }

  /** Over every run a failure locks exactly if, with it, enough of the whole log lies within the window before it. */
  lemma LocksIff(actions: seq<Action>, config: Config, from: int, now: int)
    requires InOrder(actions, from, now)
    ensures var before, after := Run(NONE, actions, config, false), Run(NONE, actions + [Failure(now)], config, false);
            var recent := CountSince(Run(NONE, actions, config, true).failures + [now], now - config.window);
            && |after.failures| == recent
            && after.lock == if recent >= config.maxAttempts then Some(now + config.lockout) else before.lock
  {
    DroppingIsInvisible(actions, config, from, now);
    WithinIsSince(Run(NONE, actions, config, true).failures + [now], now, config.window);
    assert (actions + [Failure(now)])[..|actions|] == actions;
  }

  // ---- What the cleanup changes ----

  /** The same lock, and the same failures but for stale ones. */
  ghost predicate SameWithin(a: Track, b: Track, now: int, window: nat) {
    && a.lock == b.lock && Ascending(a.failures, now) && Ascending(b.failures, now)
    && Within(a.failures, now, window) == Within(b.failures, now, window)
  }

  /** The locks agree, but for one that is over. */
  predicate SameLocks(a: Track, b: Track, now: int) {
    a.lock == b.lock || (LockOver(a, now) && b.lock == None)
  }

  /** No later action tells the two apart: for one of three reasons. */
  ghost predicate Alike(a: Track, b: Track, now: int, config: Config) {
    || SameWithin(a, b, now, config.window)
    || (config.maxAttempts <= 1 && SameLocks(a, b, now))
    || (config.lockout == 0 && !IsLocked(a, now) && !IsLocked(b, now))
  }

  lemma FailuresWithin(track: Track, now: int, at: int, config: Config)
    requires Ascending(track.failures, now) && now <= at
    ensures Failed(track, at, config).failures
            == Within(Within(track.failures, now, config.window), at, config.window) + [at]
    ensures Cleaned(track, at, config).failures
            == Within(Within(track.failures, now, config.window), at, config.window)
  {
    PrunedIsWithin(track.failures + [at], at, config.window);
    PrunedIsWithin(track.failures, at, config.window);
    WithinConcat(track.failures, [at], at, config.window);
    WithinTwice(track.failures, now, at, config.window);
  }

  lemma SameStays(a: Track, b: Track, now: int, at: int, window: nat)
    requires SameWithin(a, b, now, window) && now <= at
    ensures SameWithin(a, b, at, window)
  {
    WithinTwice(a.failures, now, at, window);
    WithinTwice(b.failures, now, at, window);
  }

  lemma EqualIsSame(a: Track, b: Track, failures: seq<int>, now: int, at: int, window: nat)
    requires a.lock == b.lock && a.failures == b.failures && Ascending(failures, now) && now <= at
    requires a.failures == Within(failures, at, window) || a.failures == Within(failures, at, window) + [at]
    ensures SameWithin(a, b, at, window)
  {
    WithinAscends(failures, at, now, window);
  }

  lemma ActionKeepsSame(a: Track, b: Track, now: int, action: Action, at: int, config: Config)
    requires SameWithin(a, b, now, config.window) && now <= at && (!action.Success? ==> action.at == at)
    ensures SameWithin(After(a, action, config, false), After(b, action, config, false), at, config.window)
  {
    match action {
      case Success =>
      case Check(_) => SameStays(a, b, now, at, config.window);
      case _ =>
        FailuresWithin(a, now, at, config);
        FailuresWithin(b, now, at, config);
        WithinTwice(a.failures, now, at, config.window);
        EqualIsSame(After(a, action, config, false), After(b, action, config, false), a.failures, now, at,
                    config.window);
    }
  }

  /** A failure just recorded is not stale, so it counts. */
  lemma {:induction false} LastIsKept(failures: seq<int>, at: int, window: nat)
    ensures var kept := Pruned(failures + [at], at, window);
            kept != [] && kept[|kept| - 1] == at
    decreases |failures|
  {
    var all := failures + [at];
    if failures != [] && Stale(all[0], at, window) {
      assert all[1..] == failures[1..] + [at];
      LastIsKept(failures[1..], at, window);
    }
  }

  lemma ActionKeepsLocks(a: Track, b: Track, now: int, action: Action, at: int, config: Config)
    requires config.maxAttempts <= 1 && SameLocks(a, b, now) && now <= at && (!action.Success? ==> action.at == at)
    ensures SameLocks(After(a, action, config, false), After(b, action, config, false), at)
  {
    LastIsKept(a.failures, at, config.window);
    LastIsKept(b.failures, at, config.window);
  }

  lemma ActionKeepsAlike(a: Track, b: Track, now: int, action: Action, at: int, config: Config)
    requires Alike(a, b, now, config) && now <= at && (!action.Success? ==> action.at == at)
    ensures Alike(After(a, action, config, false), After(b, action, config, false), at, config)
  {
    if SameWithin(a, b, now, config.window) {
      ActionKeepsSame(a, b, now, action, at, config);
    } else if config.maxAttempts <= 1 && SameLocks(a, b, now) {
      ActionKeepsLocks(a, b, now, action, at, config);
    }
  }

  lemma {:induction false} AlikeAlong(a: Track, b: Track, actions: seq<Action>, from: int, now: int, config: Config)
    requires Alike(a, b, from, config) && InOrder(actions, from, now)
    ensures Alike(Run(a, actions, config, false), Run(b, actions, config, false), now, config)
    decreases |actions|
  {
    if actions == [] {
      StaysAlike(a, b, from, now, config);
    } else {
      var earlier, last := actions[..|actions| - 1], actions[|actions| - 1];
      var at := if last.Success? then now else last.at;
      AlikeAlong(a, b, earlier, from, at, config);
      var c, d := Run(a, earlier, config, false), Run(b, earlier, config, false);
      ActionKeepsAlike(c, d, at, last, at, config);
      StaysAlike(After(c, last, config, false), After(d, last, config, false), at, now, config);
    }
  }

  lemma StaysAlike(a: Track, b: Track, now: int, at: int, config: Config)
    requires Alike(a, b, now, config) && now <= at
    ensures Alike(a, b, at, config)
  {
    if SameWithin(a, b, now, config.window) {
      SameStays(a, b, now, at, config.window);
    }
  }

  /** Unless it drops a lock, the cleanup leaves a track that is alike. */
  lemma CleanedIsAlike(track: Track, at: int, config: Config)
    requires Ascending(track.failures, at)
    requires !(LockOver(track, at) && config.maxAttempts >= 2 && config.lockout >= 1)
    ensures Alike(track, Cleaned(track, at, config), at, config)
  {
    if !LockOver(track, at) {
      PrunedIsWithin(track.failures, at, config.window);
      WithinTwice(track.failures, at, at, config.window);
      WithinAscends(track.failures, at, at, config.window);
    }
  }

  function Failures(at: int, k: nat): seq<Action> {
    seq(k, _ => Failure(at))
  }

  /** Failures at one moment: what is not stale is counted together with them. */
  lemma {:induction false} FailuresAtOnce(track: Track, at: int, k: nat, config: Config)
    requires forall i :: 0 <= i < |track.failures| ==> !Stale(track.failures[i], at, config.window)
    ensures var r := Run(track, Failures(at, k), config, false);
            && |r.failures| == |track.failures| + k
            && (forall i :: 0 <= i < |r.failures| ==> !Stale(r.failures[i], at, config.window))
            && (|track.failures| + k < config.maxAttempts ==> r.lock == track.lock)
            && (k > 0 && |track.failures| + k >= config.maxAttempts ==> r.lock == Some(at + config.lockout))
  {
    if k > 0 {
      assert Failures(at, k)[..k - 1] == Failures(at, k - 1);
      FailuresAtOnce(track, at, k - 1, config);
    }
  }

  lemma {:induction false} RunConcat(start: Track, a: seq<Action>, b: seq<Action>, config: Config)
    ensures Run(start, a + b, config, false) == Run(Run(start, a, config, false), b, config, false)
    decreases |b|
  {
    if b == [] {
      assert a + b == a;
    } else {
      assert (a + b)[..|a + b| - 1] == a + b[..|b| - 1];
      RunConcat(start, a, b[..|b| - 1], config);
    }
  }

  lemma {:induction false} AllAtOnceInOrder(actions: seq<Action>, at: int)
    requires forall i :: 0 <= i < |actions| ==> !actions[i].Success? && actions[i].at == at
    ensures InOrder(actions, at, at)
  {
    if actions != [] {
      AllAtOnceInOrder(actions[..|actions| - 1], at);
    }
  }

  /** A look at the lock forgets one track's failures and not the other's; then enough failures lock the other only. */
  lemma LookTellsApart(a: Track, b: Track, at: int, config: Config) returns (actions: seq<Action>)
    requires LockOver(a, at) && b.lock == None && b.failures != [] && config.maxAttempts >= 2 && config.lockout >= 1
    requires forall i :: 0 <= i < |b.failures| ==> !Stale(b.failures[i], at, config.window)
    ensures forall i :: 0 <= i < |actions| ==> !actions[i].Success? && actions[i].at == at
    ensures !IsLocked(Run(a, actions, config, false), at) && IsLocked(Run(b, actions, config, false), at)
  {
    var k := if |b.failures| < config.maxAttempts then config.maxAttempts - |b.failures| else 1;
    actions := [Check(at)] + Failures(at, k);
    RunConcat(a, [Check(at)], Failures(at, k), config);
    RunConcat(b, [Check(at)], Failures(at, k), config);
    assert [Check(at)][..0] == [];
    assert Run(a, [Check(at)], config, false) == NONE && Run(b, [Check(at)], config, false) == b;
    FailuresAtOnce(NONE, at, k, config);
    FailuresAtOnce(b, at, k, config);
  }

  /** Where the cleanup drops a lock, later actions can show it. */
  lemma DroppedLockShows(track: Track, at: int, config: Config) returns (actions: seq<Action>)
    requires Ascending(track.failures, at)
    requires LockOver(track, at) && config.maxAttempts >= 2 && config.lockout >= 1
    ensures forall i :: 0 <= i < |actions| ==> !actions[i].Success? && actions[i].at == at
    ensures !IsLocked(Run(track, actions, config, false), at)
            && IsLocked(Run(Cleaned(track, at, config), actions, config, false), at)
  {
    var cleaned := Cleaned(track, at, config);
    PrunedIsWithin(track.failures, at, config.window);
    NoneStaleWithin(track.failures, at, config.window);
    if cleaned.failures != [] {
      actions := LookTellsApart(track, cleaned, at, config);
    } else {
      FailuresWithin(track, at, at, config);
      WithinTwice(track.failures, at, at, config.window);
      var a, b := Failed(track, at, config), Failed(cleaned, at, config);
      assert a.failures == [at] && b.failures == [at];
      var rest := LookTellsApart(a, b, at, config);
      actions := [Failure(at)] + rest;
      RunConcat(track, [Failure(at)], rest, config);
      RunConcat(cleaned, [Failure(at)], rest, config);
      assert [Failure(at)][..0] == [];
    }
  }

  lemma {:induction false} NoneStaleWithin(log: seq<int>, now: int, window: nat)
    ensures forall i :: 0 <= i < |Within(log, now, window)| ==> !Stale(Within(log, now, window)[i], now, window)
  {
    if log != [] {
      NoneStaleWithin(log[1..], now, window);
    }
  }

  /** With the cleanup at `from` the identifier is locked at `now` and without it it is not, or the other way round. */
  ghost predicate CleanupShows(track: Track, from: int, actions: seq<Action>, now: int, config: Config) {
    && InOrder(actions, from, now)
    && IsLocked(Run(track, actions, config, false), now)
       != IsLocked(Run(Cleaned(track, from, config), actions, config, false), now)
  }

  /**
  The cleanup drops a lock that is over but keeps the failures, where looking drops both. It can change a later answer
  if and only if there is such a lock, a single failure does not lock, and locks last at all.
  */
  lemma CleanupShowsIff(track: Track, at: int, config: Config)
    requires Ascending(track.failures, at)
    ensures (exists actions, now :: CleanupShows(track, at, actions, now, config))
            <==> LockOver(track, at) && config.maxAttempts >= 2 && config.lockout >= 1
  {
    if LockOver(track, at) && config.maxAttempts >= 2 && config.lockout >= 1 {
      var actions := DroppedLockShows(track, at, config);
      AllAtOnceInOrder(actions, at);
      assert CleanupShows(track, at, actions, at, config);
    } else {
      CleanedIsAlike(track, at, config);
      forall actions, now | InOrder(actions, at, now) ensures !CleanupShows(track, at, actions, now, config) {
        AlikeAlong(track, Cleaned(track, at, config), actions, at, now, config);
      }
    }
  }

  // ---- The code ----

  class BruteForceDetector {
    const config: Config
    var attempts: map<string, seq<int>>
    var locked: map<string, int>

    constructor (config: Config)
      ensures this.config == config && forall id :: TrackOf(id) == NONE
    {
      this.config := config;
      attempts, locked := map[], map[];
    }

    function TrackOf(id: string): Track
      reads this
    {
      Track(if id in attempts then attempts[id] else [], if id in locked then Some(locked[id]) else None)
    }

    method RecordFailure(id: string, now: int)
      modifies this
      ensures forall x :: TrackOf(x) == if x == id then Failed(old(TrackOf(x)), now, config) else old(TrackOf(x))
      ensures id in attempts && attempts[id] != [] && attempts[id][|attempts[id]| - 1] == now
      ensures locked == if |attempts[id]| >= config.maxAttempts then old(locked)[id := now + config.lockout]
                        else old(locked)
    {
      var failures := (if id in attempts then attempts[id] else []) + [now];
      LastIsKept(failures[..|failures| - 1], now, config.window);
      failures := DropStale(failures, now, config.window);
      attempts := attempts[id := failures];
      if |failures| >= config.maxAttempts {
        locked := locked[id := now + config.lockout];
      }
    }

    method RecordSuccess(id: string)
      modifies this
      ensures forall x :: TrackOf(x) == if x == id then NONE else old(TrackOf(x))
      ensures attempts == old(attempts) - {id} && locked == old(locked) - {id}
    {
      attempts := attempts - {id};
      locked := locked - {id};
    }

    method CheckLocked(id: string, now: int) returns (r: bool)
      modifies this
      ensures r == IsLocked(old(TrackOf(id)), now)
      ensures forall x :: TrackOf(x) == if x == id then Checked(old(TrackOf(x)), now) else old(TrackOf(x))
      ensures r <==> id in old(locked) && now < old(locked)[id]
      ensures if id in old(locked) && !r then attempts == old(attempts) - {id} && locked == old(locked) - {id}
              else attempts == old(attempts) && locked == old(locked)
    {
      if id in locked {
        if now < locked[id] {
          return true;
        }
        locked := locked - {id};
        attempts := attempts - {id};
      }
      return false;
    }

    method Clean(now: int)
      modifies this
      ensures forall x :: TrackOf(x) == Cleaned(old(TrackOf(x)), now, config)
      ensures locked == map x | x in old(locked) && now < old(locked)[x] :: old(locked)[x]
    {
      var kept: map<string, seq<int>> := map[];
      var rest := attempts.Keys;
      while rest != {}
        invariant unchanged(this) && rest <= attempts.Keys && kept.Keys <= attempts.Keys - rest
        invariant forall x :: x in attempts && x !in rest ==>
                    (if x in kept then kept[x] else []) == Pruned(attempts[x], now, config.window)
      {
        var id :| id in rest;
        var failures := DropStale(attempts[id], now, config.window);
        if failures != [] {
          kept := kept[id := failures];
        }
        rest := rest - {id};
      }
      attempts := kept;
      locked := map x | x in locked && now < locked[x] :: locked[x];
    }
  }

  /** The loop that pops stale failures off the front. */
  method DropStale(failures: seq<int>, now: int, window: nat) returns (r: seq<int>)
    ensures r == Pruned(failures, now, window)
  {
    r := failures;
    while r != [] && Stale(r[0], now, window)
      invariant Pruned(r, now, window) == Pruned(failures, now, window)
    {
      r := r[1..];
    }
  }
}

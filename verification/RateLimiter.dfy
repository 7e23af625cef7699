/** The fixed-window rate limiter and its pruning (crates/nova-api/src/middleware.rs). Times are milliseconds. */
module RateLimiter {
  import opened Outcomes

  type Client = string

  datatype Window = Window(start: nat, count: nat)

  datatype Request = Request(client: Client, now: nat)

  datatype Decision = Decision(permit: bool, remaining: nat, resetIn: nat)

  const PRUNE_ABOVE: nat := 10_000

  function SaturatingSub(a: nat, b: nat): nat {
    if a < b then 0 else a - b
  }

  // ---- One client, without pruning: the simple form ----

  /** The client's window after a request at `now`. */
  function Counted(w: Option<Window>, now: nat, windowMs: nat): Window {
    match w
    case None => Window(now, 1)
    case Some(v) => if SaturatingSub(now, v.start) >= windowMs then Window(now, 1) else Window(v.start, v.count + 1)
  }

  function Decide(w: Window, now: nat, limit: nat, windowMs: nat): Decision {
    Decision(w.count <= limit, SaturatingSub(limit, w.count), SaturatingSub(w.start + windowMs, now))
  }

  // ---- The limiter ----

  function Lookup(windows: map<Client, Window>, client: Client): Option<Window> {
    if client in windows then Some(windows[client]) else None
  }

  function Pruned(windows: map<Client, Window>, now: nat, windowMs: nat): map<Client, Window> {
    map c | c in windows && SaturatingSub(now, windows[c].start) < windowMs :: windows[c]
  }

  function Kept(windows: map<Client, Window>, now: nat, windowMs: nat): map<Client, Window> {
    if |windows| > PRUNE_ABOVE then Pruned(windows, now, windowMs) else windows
  }

  /** One request; a limiter that never prunes takes `prune` to be false. */
  function After(windows: map<Client, Window>, r: Request, windowMs: nat, prune: bool): map<Client, Window> {
    var kept := if prune then Kept(windows, r.now, windowMs) else windows;
    kept[r.client := Counted(Lookup(kept, r.client), r.now, windowMs)]
  }

  function DecisionFor(windows: map<Client, Window>, r: Request, limit: nat, windowMs: nat, prune: bool): Decision {
    Decide(After(windows, r, windowMs, prune)[r.client], r.now, limit, windowMs)
  }

  function Decisions(windows: map<Client, Window>, rs: seq<Request>, limit: nat, windowMs: nat, prune: bool)
    : seq<Decision>
    decreases |rs|
  {
    if rs == [] then []
    else [DecisionFor(windows, rs[0], limit, windowMs, prune)]
         + Decisions(After(windows, rs[0], windowMs, prune), rs[1..], limit, windowMs, prune)
  }

  predicate NonDecreasing(rs: seq<Request>, from: nat)
    decreases |rs|
  {
    rs == [] || (from <= rs[0].now && NonDecreasing(rs[1..], rs[0].now))
  }

  // ---- Pruning changes no decision ----

  /** The pruned map agrees with the full one but for windows that are over. */
  ghost predicate Agrees(pruned: map<Client, Window>, full: map<Client, Window>, now: nat, windowMs: nat) {
    forall c :: if c in pruned then c in full && full[c] == pruned[c]
                else c in full ==> SaturatingSub(now, full[c].start) >= windowMs
  }

  lemma AgreesAfter(pruned: map<Client, Window>, full: map<Client, Window>, r: Request, now: nat, limit: nat,
                    windowMs: nat)
    requires Agrees(pruned, full, now, windowMs) && now <= r.now
    ensures Agrees(After(pruned, r, windowMs, true), After(full, r, windowMs, false), r.now, windowMs)
    ensures DecisionFor(pruned, r, limit, windowMs, true) == DecisionFor(full, r, limit, windowMs, false)
  {
    assert Agrees(Kept(pruned, r.now, windowMs), full, r.now, windowMs);
  }

  /** For a clock that never goes back, the pruning limiter decides every request as one that never prunes. */
  lemma {:induction false} PruningIsInvisible(pruned: map<Client, Window>, full: map<Client, Window>, rs: seq<Request>,
                                              now: nat, limit: nat, windowMs: nat)
    requires Agrees(pruned, full, now, windowMs) && NonDecreasing(rs, now)
    ensures Decisions(pruned, rs, limit, windowMs, true) == Decisions(full, rs, limit, windowMs, false)
    decreases |rs|
  {
    if rs != [] {
      AgreesAfter(pruned, full, rs[0], now, limit, windowMs);
      PruningIsInvisible(After(pruned, rs[0], windowMs, true), After(full, rs[0], windowMs, false),
                         rs[1..], rs[0].now, limit, windowMs);
    }
  }

  // ---- How much gets through ----

  /** The requests of one client that are let through in the half-open interval of window length from `a`. */
  function AdmittedIn(w: Option<Window>, client: Client, rs: seq<Request>, limit: nat, windowMs: nat, a: nat): nat
    decreases |rs|
  {
    if rs == [] then 0
    else if rs[0].client != client then AdmittedIn(w, client, rs[1..], limit, windowMs, a)
    else
      var v := Counted(w, rs[0].now, windowMs);
      (if a <= rs[0].now < a + windowMs && v.count <= limit then 1 else 0)
      + AdmittedIn(Some(v), client, rs[1..], limit, windowMs, a)
  }

  /** The same number, read off the decisions of the limiter. */
  function PermitsIn(windows: map<Client, Window>, client: Client, rs: seq<Request>, limit: nat, windowMs: nat,
                     prune: bool, a: nat): nat
    decreases |rs|
  {
    if rs == [] then 0
    else
      (if rs[0].client == client && a <= rs[0].now < a + windowMs
          && DecisionFor(windows, rs[0], limit, windowMs, prune).permit then 1 else 0)
      + PermitsIn(After(windows, rs[0], windowMs, prune), client, rs[1..], limit, windowMs, prune, a)
  }

  lemma {:induction false} PermitsAreAdmitted(pruned: map<Client, Window>, full: map<Client, Window>, client: Client,
                                              rs: seq<Request>, now: nat, limit: nat, windowMs: nat, a: nat)
    requires Agrees(pruned, full, now, windowMs) && NonDecreasing(rs, now)
    ensures PermitsIn(pruned, client, rs, limit, windowMs, true, a)
            == AdmittedIn(Lookup(full, client), client, rs, limit, windowMs, a)
    decreases |rs|
  {
    if rs != [] {
      AgreesAfter(pruned, full, rs[0], now, limit, windowMs);
      PermitsAreAdmitted(After(pruned, rs[0], windowMs, true), After(full, rs[0], windowMs, false),
                         client, rs[1..], rs[0].now, limit, windowMs, a);
    }
  }

  /** What can still be let through in the interval, once time has reached it. */
  function Budget(w: Option<Window>, limit: nat, a: nat): nat {
    match w
    case None => limit
    case Some(v) => if v.start >= a then SaturatingSub(limit, v.count) else SaturatingSub(limit, v.count) + limit
  }

  lemma {:induction false} NothingAfterwards(w: Option<Window>, client: Client, rs: seq<Request>, limit: nat,
                                             windowMs: nat, a: nat, from: nat)
    requires NonDecreasing(rs, from) && from >= a + windowMs
    ensures AdmittedIn(w, client, rs, limit, windowMs, a) == 0
    decreases |rs|
  {
    if rs != [] {
      var v := if rs[0].client == client then Some(Counted(w, rs[0].now, windowMs)) else w;
      NothingAfterwards(v, client, rs[1..], limit, windowMs, a, rs[0].now);
    }
  }

  lemma {:induction false} WithinBudget(w: Option<Window>, client: Client, rs: seq<Request>, limit: nat, windowMs: nat,
                                        a: nat, from: nat)
    requires NonDecreasing(rs, from) && from >= a && (w.Some? ==> w.value.start <= from)
    ensures AdmittedIn(w, client, rs, limit, windowMs, a) <= Budget(w, limit, a)
    decreases |rs|
  {
    if rs != [] {
      if rs[0].client != client {
        WithinBudget(w, client, rs[1..], limit, windowMs, a, rs[0].now);
      } else {
        var v := Counted(w, rs[0].now, windowMs);
        if rs[0].now >= a + windowMs {
          NothingAfterwards(Some(v), client, rs[1..], limit, windowMs, a, rs[0].now);
        } else {
          WithinBudget(Some(v), client, rs[1..], limit, windowMs, a, rs[0].now);
        }
      }
    }
  }

  /** A window exists only once a request has opened it. */
  ghost predicate Opened(w: Option<Window>) {
    w.Some? ==> w.value.count >= 1
  }

  lemma {:induction false} AtMostTwiceLessOne(w: Option<Window>, client: Client, rs: seq<Request>, limit: nat,
                                              windowMs: nat, a: nat, from: nat)
    requires NonDecreasing(rs, from) && Opened(w) && (w.Some? ==> w.value.start <= from)
    ensures AdmittedIn(w, client, rs, limit, windowMs, a) <= if limit == 0 then 0 else 2 * limit - 1
    decreases |rs|
  {
    if rs != [] {
      if rs[0].now >= a {
        WithinBudget(w, client, rs, limit, windowMs, a, if from >= a then from else a);
      } else {
        var v := if rs[0].client == client then Some(Counted(w, rs[0].now, windowMs)) else w;
        AtMostTwiceLessOne(v, client, rs[1..], limit, windowMs, a, rs[0].now);
      }
    }
  }

  /**
  From an empty limiter, any interval no longer than the window lets through fewer than twice the limit:
  one request is always spent on opening the first of the two windows before the interval.
  */
  lemma FewerThanTwiceTheLimit(client: Client, rs: seq<Request>, limit: nat, windowMs: nat, a: nat)
    requires NonDecreasing(rs, 0)
    ensures PermitsIn(map[], client, rs, limit, windowMs, true, a) <= if limit == 0 then 0 else 2 * limit - 1
  {
    PermitsAreAdmitted(map[], map[], client, rs, 0, limit, windowMs, a);
    AtMostTwiceLessOne(None, client, rs, limit, windowMs, a, 0);
  }

  // ---- The bound is met ----

  function Burst(client: Client, now: nat, n: nat): seq<Request> {
    if n == 0 then [] else [Request(client, now)] + Burst(client, now, n - 1)
  }

  /** A burst that stays within one window lets through what is left of the limit. */
  lemma {:induction false} BurstAdmits(v: Window, client: Client, now: nat, n: nat, rest: seq<Request>,
                                       limit: nat, windowMs: nat, a: nat)
    requires v.start <= now < v.start + windowMs && a <= now < a + windowMs && v.count + n <= limit
    ensures AdmittedIn(Some(v), client, Burst(client, now, n) + rest, limit, windowMs, a)
            == n + AdmittedIn(Some(Window(v.start, v.count + n)), client, rest, limit, windowMs, a)
    decreases n
  {
    if n == 0 {
      assert Burst(client, now, n) + rest == rest;
    } else {
      var all := Burst(client, now, n) + rest;
      assert all[0] == Request(client, now) && all[1..] == Burst(client, now, n - 1) + rest;
      BurstAdmits(Window(v.start, v.count + 1), client, now, n - 1, rest, limit, windowMs, a);
    }
  }

  /** The worst run: one request opens a window, the rest of the limit comes at its end, the whole limit right after. */
  function WorstRun(client: Client, limit: nat, windowMs: nat): seq<Request>
    requires limit >= 1 && windowMs >= 2
  {
    [Request(client, 0)]
    + (Burst(client, windowMs - 1, limit - 1) + ([Request(client, windowMs)] + Burst(client, windowMs, limit - 1)))
  }

  lemma {:induction false} BurstNonDecreasing(client: Client, now: nat, n: nat, rest: seq<Request>, from: nat)
    requires from <= now && NonDecreasing(rest, now)
    ensures NonDecreasing(Burst(client, now, n) + rest, from)
    decreases n
  {
    if n == 0 {
      assert Burst(client, now, n) + rest == rest;
    } else {
      var all := Burst(client, now, n) + rest;
      assert all[0] == Request(client, now) && all[1..] == Burst(client, now, n - 1) + rest;
      BurstNonDecreasing(client, now, n - 1, rest, now);
    }
  }

  lemma WorstRunIsOrdered(client: Client, limit: nat, windowMs: nat)
    requires limit >= 1 && windowMs >= 2
    ensures NonDecreasing(WorstRun(client, limit, windowMs), 0)
  {
    var last := Burst(client, windowMs, limit - 1);
    var second := [Request(client, windowMs)] + last;
    BurstNonDecreasing(client, windowMs, limit - 1, [], windowMs);
    assert last + [] == last && second[1..] == last;
    assert NonDecreasing(second, windowMs - 1);
    BurstNonDecreasing(client, windowMs - 1, limit - 1, second, 0);
    assert WorstRun(client, limit, windowMs)[1..] == Burst(client, windowMs - 1, limit - 1) + second;
  }

  /** Of the worst run the pruning limiter lets through as much as the bound allows. */
  lemma BoundIsMet(client: Client, limit: nat, windowMs: nat)
    requires limit >= 1 && windowMs >= 2
    ensures NonDecreasing(WorstRun(client, limit, windowMs), 0)
    ensures PermitsIn(map[], client, WorstRun(client, limit, windowMs), limit, windowMs, true, 1) == 2 * limit - 1
  {
    WorstRunIsOrdered(client, limit, windowMs);
    PermitsAreAdmitted(map[], map[], client, WorstRun(client, limit, windowMs), 0, limit, windowMs, 1);
    var last := Burst(client, windowMs, limit - 1);
    var second := [Request(client, windowMs)] + last;
    var first := Burst(client, windowMs - 1, limit - 1) + second;
    assert WorstRun(client, limit, windowMs)[1..] == first;
    BurstAdmits(Window(0, 1), client, windowMs - 1, limit - 1, second, limit, windowMs, 1);
    assert second[1..] == last && last + [] == last;
    BurstAdmits(Window(windowMs, 1), client, windowMs, limit - 1, [], limit, windowMs, 1);
  }

  // ---- The code ----

  /** The window covers `now`, or was opened later than that by another thread's clock. */
  ghost predicate StillOpen(w: Window, now: nat, windowMs: nat) {
    now < w.start + windowMs && windowMs > 0
  }

  class RateLimitState {
    const limit: nat
    const windowMs: nat
    var windows: map<Client, Window>

    constructor (limit: nat, windowMs: nat)
      ensures windows == map[] && this.limit == limit && this.windowMs == windowMs
    {
      this.limit, this.windowMs := limit, windowMs;
      windows := map[];
    }

    /** The part of `rate_limit_layer` under the lock. */
    method Admit(r: Request) returns (d: Decision)
      modifies this
      ensures windows == After(old(windows), r, windowMs, true)
      ensures d == DecisionFor(old(windows), r, limit, windowMs, true)
      ensures r.client in windows
      ensures var w := windows[r.client];
              && w == (if r.client in old(windows) && StillOpen(old(windows)[r.client], r.now, windowMs)
                       then Window(old(windows)[r.client].start, old(windows)[r.client].count + 1)
                       else Window(r.now, 1))
              && d.permit == (w.count <= limit)
              && d.remaining == (if w.count <= limit then limit - w.count else 0)
              && d.resetIn == if r.now < w.start + windowMs then w.start + windowMs - r.now else 0
      ensures forall c :: c != r.client ==>
                (c in windows <==> c in old(windows)
                                   && (|old(windows)| > 10_000 ==> StillOpen(old(windows)[c], r.now, windowMs)))
                && (c in windows ==> windows[c] == old(windows)[c])
    {
      if |windows| > PRUNE_ABOVE {
        windows := map c | c in windows && SaturatingSub(r.now, windows[c].start) < windowMs :: windows[c];
      }
      var w := if r.client in windows then windows[r.client] else Window(r.now, 0);
      if SaturatingSub(r.now, w.start) >= windowMs {
        w := Window(r.now, 0);
      }
      w := w.(count := w.count + 1);
      windows := windows[r.client := w];
      d := Decision(w.count <= limit, SaturatingSub(limit, w.count), SaturatingSub(w.start + windowMs, r.now));
    }
  }
}

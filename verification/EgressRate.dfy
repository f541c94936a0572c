/**
 The block counter and the rate alert of egress_inspector.rs: first as a system of threads,
 in which one action is one access of shared state, then as one inspector used in sequence.
 Times are nanoseconds on the monotonic clock.
 */
module EgressRate {
  import opened EgressHost

  const SECOND: nat := 1_000_000_000
  const RATE_ALERT_THRESHOLD: nat := 5
  const RATE_WINDOW_SECS: nat := 60

  datatype RateWindow = RateWindow(start: nat, base: nat)

  /** `Instant::elapsed` in whole seconds; a reading before `since` counts as zero. */
  function ElapsedSecs(since: nat, now: nat): nat { if now < since then 0 else (now - since) / SECOND }

  predicate Expired(since: nat, now: nat) { ElapsedSecs(since, now) >= RATE_WINDOW_SECS }

  function SaturatingSub(a: nat, b: nat): nat { if a < b then 0 else a - b }

  predicate Alerts(w: RateWindow, total: nat, now: nat) {
    !Expired(w.start, now) && SaturatingSub(total, w.base) > RATE_ALERT_THRESHOLD
  }

  // ---- threads ----

  /** Who has the window's mutex: nobody, a check that has read the counter, a thread about to restart the window. */
  datatype Holder = Free | Checking(total: nat) | Restarting(base: nat)

  /**
   `times` is the history of all increments of the counter; `pending` the values returned by
   increments whose threads have yet to take the mutex.
   */
  datatype State = State(
    count: nat, times: seq<nat>, pending: set<nat>, window: RateWindow, holder: Holder, clock: nat)

  datatype Action =
    | Increment(at: nat)           // record_block: fetch_add
    | Rotate(mine: nat, now: nat)  // record_block: lock and look at the window's age
    | Load                         // check_rate_alert: lock and read the counter
    | Decide(now: nat)             // check_rate_alert: look at the window's age, answer
    | Restart(now: nat)            // either: a new window, unlock

  datatype Outcome = Disabled | Next(s: State)

  function Init(start: nat): State { State(0, [], {}, RateWindow(start, 0), Free, start) }

  function Step(s: State, a: Action): Outcome {
    match a
    case Increment(at) =>
      if s.clock <= at then
        Next(s.(count := s.count + 1, times := s.times + [at], pending := s.pending + {s.count + 1}, clock := at))
      else Disabled
    case Rotate(mine, now) =>
      if s.clock <= now && mine in s.pending && s.holder == Free then
        Next(s.(pending := s.pending - {mine}, clock := now,
                holder := if Expired(s.window.start, now) then Restarting(mine) else Free))
      else Disabled
    case Load => if s.holder == Free then Next(s.(holder := Checking(s.count))) else Disabled
    case Decide(now) =>
      if s.clock <= now && s.holder.Checking? then
        Next(s.(clock := now, holder := if Expired(s.window.start, now) then Restarting(s.holder.total) else Free))
      else Disabled
    case Restart(now) =>
      if s.clock <= now && s.holder.Restarting? then
        Next(s.(clock := now, window := RateWindow(now, s.holder.base), holder := Free))
      else Disabled
  }

  function Run(s: State, actions: seq<Action>): Outcome
    decreases actions
  {
    if actions == [] then Next(s)
    else match Step(s, actions[0]) case Disabled => Disabled case Next(t) => Run(t, actions[1..])
  }

  /** The answer `Decide(now)` gives in state `s`. */
  predicate AlertAt(s: State, now: nat) { s.holder.Checking? && Alerts(s.window, s.holder.total, now) }

  /** How many increments lie less than the window's length before `now`. */
  function Recent(times: seq<nat>, now: nat): nat {
    if times == [] then 0
    else Recent(times[..|times| - 1], now) + if now < times[|times| - 1] + RATE_WINDOW_SECS * SECOND then 1 else 0
  }

  predicate Inv(s: State) {
    && s.count == |s.times| && s.window.base <= s.count && s.window.start <= s.clock
    && (forall c :: c in s.pending ==> 1 <= c <= s.count)
    && (forall k :: 0 <= k < |s.times| ==> s.times[k] <= s.clock)
    && match s.holder {
         case Free => true
         case Checking(total) => s.window.base <= total <= s.count
         case Restarting(base) => base <= s.count
       }
  }

  /** Every increment after the window's base value happened within the window. */
  predicate Aligned(s: State) { forall k :: s.window.base <= k < |s.times| ==> s.times[k] >= s.window.start }

  /** A window that opens now takes the counter's present value as its base. */
  predicate Fresh(s: State, a: Action) { a.Restart? && s.holder.Restarting? ==> s.holder.base == s.count }

  ghost predicate FreshRun(s: State, actions: seq<Action>)
    decreases actions
  {
    actions != [] ==>
      Fresh(s, actions[0]) && match Step(s, actions[0]) { case Disabled => true case Next(t) => FreshRun(t, actions[1..]) }
  }

  lemma StepKeeps(s: State, a: Action)
    requires Inv(s)
    ensures Step(s, a).Next? ==> Inv(Step(s, a).s)
    ensures Step(s, a).Next? && Aligned(s) && Fresh(s, a) ==> Aligned(Step(s, a).s)
  {
  }

  /** In every interleaving the window's base never exceeds the counter, so the difference never saturates. */
  lemma {:induction false} RunKeeps(s: State, actions: seq<Action>)
    requires Inv(s)
    ensures var r := Run(s, actions); r.Next? ==> Inv(r.s) && (r.s.holder.Checking? ==> r.s.window.base <= r.s.holder.total)
    ensures var r := Run(s, actions); r.Next? && Aligned(s) && FreshRun(s, actions) ==> Aligned(r.s)
    decreases actions
  {
    if actions != [] {
      StepKeeps(s, actions[0]);
      match Step(s, actions[0])
      case Disabled =>
      case Next(t) => RunKeeps(t, actions[1..]);
    }
  }

  /** Times from position `from` on that are all recent count in full. */
  lemma {:induction false} RecentFrom(times: seq<nat>, from: nat, now: nat)
    requires from <= |times| && forall k :: from <= k < |times| ==> now < times[k] + RATE_WINDOW_SECS * SECOND
    ensures Recent(times, now) >= |times| - from
  {
    if from < |times| { RecentFrom(times[..|times| - 1], from, now); }
  }

  lemma NotExpiredIff(since: nat, now: nat)
    requires since <= now
    ensures !Expired(since, now) <==> now < since + RATE_WINDOW_SECS * SECOND
  {
  }

  /** In an aligned state an alert means at least six blocks in the last 60 seconds. */
  lemma AlignedAlertIsSound(s: State, total: nat, now: nat)
    requires Inv(s) && Aligned(s) && s.clock <= now && total <= s.count && Alerts(s.window, total, now)
    ensures Recent(s.times, now) > RATE_ALERT_THRESHOLD
  {
    hide Expired;
    NotExpiredIff(s.window.start, now);
    RecentFrom(s.times, s.window.base, now);
  }

  /** So it does in every interleaving whose windows open with a fresh base. */
  lemma FreshAlertIsSound(start: nat, actions: seq<Action>, now: nat)
    requires Run(Init(start), actions).Next? && FreshRun(Init(start), actions)
    requires var s := Run(Init(start), actions).s; s.clock <= now && AlertAt(s, now)
    ensures Recent(Run(Init(start), actions).s.times, now) > RATE_ALERT_THRESHOLD
  {
    RunKeeps(Init(start), actions);
    hide Run, FreshRun, Alerts;
    var s := Run(Init(start), actions).s;
    AlignedAlertIsSound(s, s.holder.total, now);
  }

  lemma {:induction false} RunConcat(s: State, a: seq<Action>, b: seq<Action>)
    ensures Run(s, a + b) == match Run(s, a) { case Disabled => Disabled case Next(t) => Run(t, b) }
    ensures Run(s, a).Next? && FreshRun(s, a) && FreshRun(Run(s, a).s, b) ==> FreshRun(s, a + b)
    decreases a
  {
    if a == [] {
      assert a + b == b;
    } else {
      assert (a + b)[0] == a[0] && (a + b)[1..] == a[1..] + b;
      match Step(s, a[0])
      case Disabled =>
      case Next(t) => RunConcat(t, a[1..], b);
    }
  }

  lemma RunOne(s: State, a: Action)
    ensures Run(s, [a]) == Step(s, a)
    ensures FreshRun(s, [a]) <==> Fresh(s, a)
  {
    assert [a][1..] == [];
    match Step(s, a) case Disabled => case Next(t) => assert Run(t, []) == Next(t);
  }

  function Blocks(n: nat, at: nat): seq<Action> { seq(n, i => Increment(at)) }

  function Numbers(n: nat): (r: set<nat>)
    ensures forall c: nat :: c in r <==> 1 <= c <= n
  {
    if n == 0 then {} else Numbers(n - 1) + {n}
  }

  lemma {:induction false} BlocksRun(n: nat)
    ensures var r := Run(Init(0), Blocks(n, 0));
            r == Next(State(n, seq(n, i => 0), Numbers(n), RateWindow(0, 0), Free, 0))
  {
    if n > 0 {
      BlocksRun(n - 1);
      assert Blocks(n, 0) == Blocks(n - 1, 0) + [Increment(0)];
      RunConcat(Init(0), Blocks(n - 1, 0), [Increment(0)]);
      RunOne(Run(Init(0), Blocks(n - 1, 0)).s, Increment(0));
      assert seq(n, i => 0) == seq(n - 1, i => 0) + [0];
    }
  }

  /**
   Without a fresh base it fails: the thread of block 1 stalls between its increment and the
   mutex while six more are counted, and later opens a window with base 1. An alert is raised
   although every block is at least 60 seconds old.
   */
  lemma StaleBaseRaisesAlert()
    ensures exists actions, now :: FalseAlert(Run(Init(0), actions), now)
  {
    var m := RATE_WINDOW_SECS * SECOND;
    var t := seq(7, i => 0);
    BlocksRun(7);
    var a0 := Blocks(7, 0);
    var s0 := Run(Init(0), a0).s;
    var s1 := s0.(pending := s0.pending - {1}, clock := m, holder := Restarting(1));
    NotExpiredIff(0, m);
    assert Step(s0, Rotate(1, m)) == Next(s1);
    var s2 := s1.(window := RateWindow(m, 1), holder := Free);
    assert Step(s1, Restart(m)) == Next(s2);
    var s3 := s2.(holder := Checking(7));
    assert Step(s2, Load) == Next(s3);
    NotExpiredIff(m, m);
    assert Alerts(s3.window, 7, m);
    hide Run, Step, Alerts;
    RunOne(s0, Rotate(1, m));
    RunOne(s1, Restart(m));
    RunOne(s2, Load);
    RunConcat(Init(0), a0, [Rotate(1, m)]);
    var a1 := a0 + [Rotate(1, m)];
    RunConcat(Init(0), a1, [Restart(m)]);
    var a2 := a1 + [Restart(m)];
    RunConcat(Init(0), a2, [Load]);
    var a3 := a2 + [Load];
    assert FalseAlert(Run(Init(0), a3), m);
  }

  ghost predicate FalseAlert(r: Outcome, now: nat) {
    r.Next? && r.s.clock <= now && AlertAt(r.s, now)
    && forall k :: 0 <= k < |r.s.times| ==> r.s.times[k] + RATE_WINDOW_SECS * SECOND <= now
  }

  // ---- exactly when a window can raise a false alert ----

  /** How many increments happened before `t`. */
  function Earlier(times: seq<nat>, t: nat): (n: nat)
    ensures n <= |times|
  {
    if times == [] then 0
    else Earlier(times[..|times| - 1], t) + if times[|times| - 1] < t then 1 else 0
  }

  ghost predicate KeepsWindow(actions: seq<Action>) { forall a :: a in actions ==> !a.Restart? }

  /** Some interleaving from `s` on, still within the window, gets an alert without six blocks in the last 60 seconds. */
  ghost predicate FalseAlertAhead(s: State) {
    exists actions, now :: KeepsWindow(actions) && Unfounded(Run(s, actions), now)
  }

  ghost predicate Unfounded(r: Outcome, now: nat) {
    r.Next? && r.s.clock <= now && AlertAt(r.s, now) && Recent(r.s.times, now) <= RATE_ALERT_THRESHOLD
  }

  /** Increments since `start` are recent as long as a window opened then lasts, and at its last moment no others are. */
  lemma {:induction false} RecentAndEarlier(times: seq<nat>, start: nat, now: nat)
    requires now < start + RATE_WINDOW_SECS * SECOND
    ensures Recent(times, now) >= |times| - Earlier(times, start)
    ensures now + 1 == start + RATE_WINDOW_SECS * SECOND ==> Recent(times, now) == |times| - Earlier(times, start)
  {
    if times != [] { RecentAndEarlier(times[..|times| - 1], start, now); }
  }

  lemma {:induction false} EarlierConcat(a: seq<nat>, b: seq<nat>, t: nat)
    requires forall k :: 0 <= k < |b| ==> b[k] >= t
    ensures Earlier(a + b, t) == Earlier(a, t)
  {
    if b == [] {
      assert a + b == a;
    } else {
      var n := |b| - 1;
      assert (a + b)[..|a| + n] == a + b[..n] && (a + b)[|a| + n] == b[n];
      EarlierConcat(a, b[..n], t);
    }
  }

  /** Without a restart the window stays, and what is counted comes after its start. */
  lemma {:induction false} RunInWindow(s: State, actions: seq<Action>)
    requires Inv(s) && KeepsWindow(actions) && Run(s, actions).Next?
    ensures var t := Run(s, actions).s;
            && Inv(t) && t.window == s.window && s.clock <= t.clock && s.count <= t.count
            && Earlier(t.times, s.window.start) == Earlier(s.times, s.window.start)
    decreases actions
  {
    if actions != [] {
      var t := Step(s, actions[0]).s;
      assert actions[0] in actions;
      StepKeeps(s, actions[0]);
      StepInWindow(s, actions[0]);
      hide Inv, Step;
      RunInWindow(t, actions[1..]);
    }
  }

  lemma StepInWindow(s: State, a: Action)
    requires Inv(s) && !a.Restart? && Step(s, a).Next?
    ensures var t := Step(s, a).s;
            && t.window == s.window && s.clock <= t.clock && s.count <= t.count
            && Earlier(t.times, s.window.start) == Earlier(s.times, s.window.start)
  {
    if a.Increment? { EarlierConcat(s.times, [a.at], s.window.start); }
  }

  lemma {:induction false} BlocksFrom(s: State, n: nat)
    ensures var r := Run(s, Blocks(n, s.clock));
            && r.Next? && r.s.count == s.count + n && r.s.window == s.window && r.s.holder == s.holder
            && r.s.clock == s.clock && KeepsWindow(Blocks(n, s.clock))
  {
    if n > 0 {
      BlocksFrom(s, n - 1);
      assert Blocks(n, s.clock) == Blocks(n - 1, s.clock) + [Increment(s.clock)];
      RunConcat(s, Blocks(n - 1, s.clock), [Increment(s.clock)]);
      RunOne(Run(s, Blocks(n - 1, s.clock)).s, Increment(s.clock));
    }
  }

  /**
   A window can still raise a false alert if and only if its base is smaller than the number of
   blocks before its start, no more than five blocks came since, it has not expired and is not
   about to be replaced.
   */
  lemma FalseAlertIff(s: State)
    requires Inv(s)
    ensures FalseAlertAhead(s) <==>
            && !s.holder.Restarting?
            && Earlier(s.times, s.window.start) > s.window.base
            && s.count - Earlier(s.times, s.window.start) <= RATE_ALERT_THRESHOLD
            && s.clock < s.window.start + RATE_WINDOW_SECS * SECOND
  {
    if actions, now :| KeepsWindow(actions) && Unfounded(Run(s, actions), now) {
      RunInWindow(s, actions);
      UnfoundedMeans(Run(s, actions).s, now);
      if s.holder.Restarting? { StaysHeld(s, actions); }
    }
    if !s.holder.Restarting? && Earlier(s.times, s.window.start) > s.window.base
       && s.count - Earlier(s.times, s.window.start) <= RATE_ALERT_THRESHOLD
       && s.clock < s.window.start + RATE_WINDOW_SECS * SECOND
    {
      if s.holder.Checking? {
        var a := Decide(s.clock);
        StepKeeps(s, a);
        NotExpiredIff(s.window.start, s.clock);
        var t := Step(s, a).s;
        var actions, now := CryWolf(t);
        RunConcat(s, [a], actions);
        RunOne(s, a);
        assert Run(s, [a] + actions) == Run(t, actions) && KeepsWindow([a] + actions);
      } else {
        var actions, now := CryWolf(s);
      }
    }
  }

  /** A thread about to restart the window keeps the mutex until it does. */
  lemma {:induction false} StaysHeld(s: State, actions: seq<Action>)
    requires s.holder.Restarting? && KeepsWindow(actions) && Run(s, actions).Next?
    ensures Run(s, actions).s.holder.Restarting?
    decreases actions
  {
    if actions != [] {
      assert actions[0] in actions;
      StaysHeld(Step(s, actions[0]).s, actions[1..]);
    }
  }

  /** So a window opened after all increments so far can raise a false alert exactly if its base is stale. */
  lemma StaleRestartIff(s: State, now: nat)
    requires Inv(s) && s.holder.Restarting? && s.clock < now
    ensures Step(s, Restart(now)).Next?
    ensures FalseAlertAhead(Step(s, Restart(now)).s) <==> !Fresh(s, Restart(now))
  {
    StepKeeps(s, Restart(now));
    AllEarlier(s.times, now);
    hide Inv, FalseAlertAhead;
    FalseAlertIff(Step(s, Restart(now)).s);
  }

  lemma {:induction false} AllEarlier(times: seq<nat>, t: nat)
    requires forall k :: 0 <= k < |times| ==> times[k] < t
    ensures Earlier(times, t) == |times|
  {
    if times != [] { AllEarlier(times[..|times| - 1], t); }
  }

  lemma UnfoundedMeans(t: State, now: nat)
    requires Inv(t) && Unfounded(Next(t), now)
    ensures now < t.window.start + RATE_WINDOW_SECS * SECOND
    ensures t.window.base + RATE_ALERT_THRESHOLD < t.count <= Earlier(t.times, t.window.start) + RATE_ALERT_THRESHOLD
  {
    NotExpiredIff(t.window.start, now);
    hide Expired;
    RecentAndEarlier(t.times, t.window.start, now);
  }

  lemma CryWolf(s: State) returns (actions: seq<Action>, now: nat)
    requires Inv(s) && s.holder == Free
    requires Earlier(s.times, s.window.start) > s.window.base
    requires s.count - Earlier(s.times, s.window.start) <= RATE_ALERT_THRESHOLD
    requires s.clock < s.window.start + RATE_WINDOW_SECS * SECOND
    ensures KeepsWindow(actions) && Unfounded(Run(s, actions), now)
  {
    var wanted := s.window.base + RATE_ALERT_THRESHOLD + 1;
    var blocks := Blocks(if s.count < wanted then wanted - s.count else 0, s.clock);
    actions, now := blocks + [Load], s.window.start + RATE_WINDOW_SECS * SECOND - 1;
    BlocksFrom(s, |blocks|);
    RunInWindow(s, blocks);
    var t := Run(s, blocks).s;
    RunConcat(s, blocks, [Load]);
    RunOne(t, Load);
    NotExpiredIff(s.window.start, now);
    RecentAndEarlier(t.times, s.window.start, now);
    hide Run, Expired;
    assert Run(s, actions) == Next(t.(holder := Checking(t.count)));
  }

  // ---- one inspector in sequence ----

  /** A rejected request or a call of `check_rate_alert`, with the clock readings it takes. */
  datatype Op = Reject(at: nat, now: nat, restart: nat) | Check(now: nat, restart: nat)

  datatype Meter = Meter(count: nat, window: RateWindow)

  function Rotated(w: RateWindow, total: nat, now: nat, restart: nat): RateWindow {
    if Expired(w.start, now) then RateWindow(restart, total) else w
  }

  function Apply(m: Meter, op: Op): Meter {
    match op
    case Reject(_, now, restart) => Meter(m.count + 1, Rotated(m.window, m.count + 1, now, restart))
    case Check(now, restart) => m.(window := Rotated(m.window, m.count, now, restart))
  }

  function After(start: nat, ops: seq<Op>): Meter {
    if ops == [] then Meter(0, RateWindow(start, 0)) else Apply(After(start, ops[..|ops| - 1]), ops[|ops| - 1])
  }

  function Begin(op: Op): nat { if op.Reject? then op.at else op.now }

  function LastTime(start: nat, ops: seq<Op>): nat { if ops == [] then start else ops[|ops| - 1].restart }

  predicate WellTimed(start: nat, ops: seq<Op>) {
    ops != [] ==>
      var n := |ops| - 1;
      WellTimed(start, ops[..n]) && LastTime(start, ops[..n]) <= Begin(ops[n]) <= ops[n].now <= ops[n].restart
  }

  /** When the rejected requests were counted. */
  function RejectTimes(ops: seq<Op>): seq<nat> {
    if ops == [] then []
    else
      var n := |ops| - 1;
      RejectTimes(ops[..n]) + if ops[n].Reject? then [ops[n].at] else []
  }

  /** The atomic actions of one operation. */
  function ActionsOf(m: Meter, op: Op): seq<Action> {
    (if op.Reject? then [Increment(op.at)] + [Rotate(m.count + 1, op.now)] else [Load] + [Decide(op.now)])
    + if Expired(m.window.start, op.now) then [Restart(op.restart)] else []
  }

  function AllActions(start: nat, ops: seq<Op>): seq<Action> {
    if ops == [] then []
    else AllActions(start, ops[..|ops| - 1]) + ActionsOf(After(start, ops[..|ops| - 1]), ops[|ops| - 1])
  }

  function Quiet(m: Meter, times: seq<nat>, clock: nat): State { State(m.count, times, {}, m.window, Free, clock) }

  lemma OpIsRun(m: Meter, times: seq<nat>, clock: nat, op: Op)
    requires clock <= Begin(op) <= op.now <= op.restart
    ensures var s := Quiet(m, times, clock);
            var r := Run(s, ActionsOf(m, op));
            && r.Next? && r.s.clock <= op.restart && FreshRun(s, ActionsOf(m, op))
            && r.s == Quiet(Apply(m, op), times + if op.Reject? then [op.at] else [], r.s.clock)
  {
    var s := Quiet(m, times, clock);
    var first := if op.Reject? then Increment(op.at) else Load;
    var second := if op.Reject? then Rotate(m.count + 1, op.now) else Decide(op.now);
    var s1 := Step(s, first).s;
    var s2 := Step(s1, second).s;
    assert s1.pending - {m.count + 1} == {};
    assert !Expired(m.window.start, op.now) ==> s2 == Quiet(Apply(m, op), s1.times, op.now);
    assert Expired(m.window.start, op.now) ==>
      Fresh(s2, Restart(op.restart))
      && Step(s2, Restart(op.restart)) == Next(Quiet(Apply(m, op), s1.times, op.restart));
    RunOne(s, first);
    RunOne(s1, second);
    RunOne(s2, Restart(op.restart));
    RunConcat(s, [first], [second]);
    RunConcat(s, [first] + [second], [Restart(op.restart)]);
    hide Run, FreshRun, Expired, Apply;
    assert [first] + [second] + [] == [first] + [second];
    assert s1.times == times + if op.Reject? then [op.at] else [];
  }

  /** Using one inspector in sequence is one of the interleavings, and its windows open with a fresh base. */
  lemma {:induction false} SequenceIsRun(start: nat, ops: seq<Op>)
    requires WellTimed(start, ops)
    ensures var r := Run(Init(start), AllActions(start, ops));
            && r.Next? && FreshRun(Init(start), AllActions(start, ops)) && r.s.clock <= LastTime(start, ops)
            && r.s == Quiet(After(start, ops), RejectTimes(ops), r.s.clock)
  {
    if ops != [] {
      var n := |ops| - 1;
      SequenceIsRun(start, ops[..n]);
      var s := Run(Init(start), AllActions(start, ops[..n])).s;
      var m := After(start, ops[..n]);
      OpIsRun(m, s.times, s.clock, ops[n]);
      RunConcat(Init(start), AllActions(start, ops[..n]), ActionsOf(m, ops[n]));
      hide Run, FreshRun, ActionsOf, Apply;
    }
  }

  /** In sequence the counter is the number of rejected requests and an alert means six of them in the last 60 seconds. */
  lemma SequentialAlertIsSound(start: nat, ops: seq<Op>, now: nat)
    requires WellTimed(start, ops) && LastTime(start, ops) <= now
    ensures After(start, ops).count == |RejectTimes(ops)|
    ensures var m := After(start, ops);
            Alerts(m.window, m.count, now) ==> Recent(RejectTimes(ops), now) > RATE_ALERT_THRESHOLD
  {
    SequenceIsRun(start, ops);
    RunKeeps(Init(start), AllActions(start, ops));
    hide Run, FreshRun, Alerts, After, RejectTimes;
    var m := After(start, ops);
    if Alerts(m.window, m.count, now) {
      AlignedAlertIsSound(Run(Init(start), AllActions(start, ops)).s, m.count, now);
    }
  }

  // ---- exactly when the alert is raised ----

  function StartOf(start: nat, ops: seq<Op>, k: int): nat
    requires -1 <= k < |ops|
  {
    if k == -1 then start else ops[k].restart
  }

  /** Operation `k` is the first one after `j` that comes 60 seconds or more after the window opened by `j`. */
  predicate OpensNext(start: nat, ops: seq<Op>, j: int, k: int) {
    && -1 <= j < k < |ops| && Expired(StartOf(start, ops, j), ops[k].now)
    && forall m :: j < m < k ==> !Expired(StartOf(start, ops, j), ops[m].now)
  }

  /** The operations that open a window, from the creation (-1) to the last one: windows tumble, they do not slide. */
  predicate Openings(start: nat, ops: seq<Op>, chain: seq<int>) {
    && chain != [] && chain[0] == -1
    && (forall i :: 0 < i < |chain| ==> OpensNext(start, ops, chain[i - 1], chain[i]))
    && var last := chain[|chain| - 1];
       -1 <= last < |ops| && forall m :: last < m < |ops| ==> !Expired(StartOf(start, ops, last), ops[m].now)
  }

  function Rejects(ops: seq<Op>): nat { |RejectTimes(ops)| }

  /** The operations decide where the windows open. */
  lemma {:induction false} OpeningsExist(start: nat, ops: seq<Op>) returns (chain: seq<int>)
    ensures Openings(start, ops, chain)
  {
    if ops == [] {
      chain := [-1];
    } else {
      var n := |ops| - 1;
      var front := OpeningsExist(start, ops[..n]);
      var last := front[|front| - 1];
      chain := if Expired(StartOf(start, ops, last), ops[n].now) then front + [n] else front;
      OpeningsExtend(start, ops, front);
    }
  }

  /** What is a chain of openings for all operations but the last, and for all, are one step apart. */
  lemma OpeningsExtend(start: nat, ops: seq<Op>, front: seq<int>)
    requires ops != [] && Openings(start, ops[..|ops| - 1], front)
    ensures var n := |ops| - 1;
            var last := front[|front| - 1];
            Openings(start, ops, if Expired(StartOf(start, ops, last), ops[n].now) then front + [n] else front)
  {
    var n := |ops| - 1;
    forall i | 0 < i < |front|
      ensures OpensNext(start, ops, front[i - 1], front[i])
    {
      assert OpensNext(start, ops[..n], front[i - 1], front[i]);
      assert forall m :: 0 <= m < n ==> ops[..n][m] == ops[m];
    }
    var last := front[|front| - 1];
    forall m | last < m < n
      ensures !Expired(StartOf(start, ops, last), ops[m].now)
    {
      assert ops[..n][m] == ops[m];
    }
  }

  lemma OpeningsShrink(start: nat, ops: seq<Op>, chain: seq<int>)
    requires ops != [] && Openings(start, ops, chain)
    ensures var n := |ops| - 1;
            var last := chain[|chain| - 1];
            if last == n then |chain| > 1 && Openings(start, ops[..n], chain[..|chain| - 1])
                                && Expired(StartOf(start, ops, chain[|chain| - 2]), ops[n].now)
            else last < n && Openings(start, ops[..n], chain) && !Expired(StartOf(start, ops, last), ops[n].now)
  {
    var n := |ops| - 1;
    var last := chain[|chain| - 1];
    ChainBelow(start, ops, chain);
    if last == n { LastLink(start, ops, chain); }
    var c := if last == n then chain[..|chain| - 1] else chain;
    hide Expired;
    forall i | 0 < i < |c| ensures OpensNext(start, ops[..n], c[i - 1], c[i]) {
      LinkInFront(start, ops, chain[i - 1], chain[i]);
    }
    var l := c[|c| - 1];
    forall m | l < m < n ensures !Expired(StartOf(start, ops[..n], l), ops[..n][m].now) {
      assert ops[..n][m] == ops[m] && (l >= 0 ==> ops[..n][l] == ops[l]);
    }
  }

  /** Where the last operation opens a window, the one before was open until then. */
  lemma LastLink(start: nat, ops: seq<Op>, chain: seq<int>)
    requires ops != [] && Openings(start, ops, chain) && chain[|chain| - 1] == |ops| - 1
    ensures |chain| > 1 && OpensNext(start, ops, chain[|chain| - 2], |ops| - 1)
  {
    hide Expired;
    assert |chain| > 1 ==> OpensNext(start, ops, chain[|chain| - 2], chain[|chain| - 1]);
  }

  lemma LinkInFront(start: nat, ops: seq<Op>, j: int, k: int)
    requires ops != [] && OpensNext(start, ops, j, k) && k < |ops| - 1
    ensures OpensNext(start, ops[..|ops| - 1], j, k)
  {
    hide Expired;
    var front := ops[..|ops| - 1];
    assert forall m :: 0 <= m < |front| ==> front[m] == ops[m];
  }

  /** A chain ascends. */
  lemma {:induction false} ChainBelow(start: nat, ops: seq<Op>, chain: seq<int>)
    requires forall i :: 0 < i < |chain| ==> OpensNext(start, ops, chain[i - 1], chain[i])
    ensures forall i, j :: 0 <= i < j < |chain| ==> chain[i] < chain[j]
  {
    if chain != [] {
      var n := |chain| - 1;
      ChainBelow(start, ops, chain[..n]);
      assert n > 0 ==> OpensNext(start, ops, chain[n - 1], chain[n]);
    }
  }

  lemma {:induction false} OpeningsFixWindow(start: nat, ops: seq<Op>, chain: seq<int>)
    requires Openings(start, ops, chain)
    ensures var last := chain[|chain| - 1];
            After(start, ops) == Meter(Rejects(ops), RateWindow(StartOf(start, ops, last), Rejects(ops[..last + 1])))
  {
    if ops != [] {
      var n := |ops| - 1;
      var last := chain[|chain| - 1];
      OpeningsShrink(start, ops, chain);
      if last == n {
        OpeningsFixWindow(start, ops[..n], chain[..|chain| - 1]);
        assert ops[..n + 1] == ops;
      } else {
        OpeningsFixWindow(start, ops[..n], chain);
        assert ops[..n][..last + 1] == ops[..last + 1];
      }
    }
  }

  /**
   The alert is raised if and only if the present window is less than 60 seconds old and more
   than five requests were rejected after the operation that opened it.
   */
  lemma AlertIff(start: nat, ops: seq<Op>, chain: seq<int>, now: nat)
    requires Openings(start, ops, chain)
    ensures var m := After(start, ops);
            var last := chain[|chain| - 1];
            Alerts(m.window, m.count, now)
            <==> !Expired(StartOf(start, ops, last), now) && Rejects(ops[last + 1..]) > RATE_ALERT_THRESHOLD
  {
    var last := chain[|chain| - 1];
    OpeningsFixWindow(start, ops, chain);
    RejectsConcat(ops[..last + 1], ops[last + 1..]);
    assert ops[..last + 1] + ops[last + 1..] == ops;
    hide Openings, After, Rejects, Expired;
  }

  lemma {:induction false} RejectsConcat(a: seq<Op>, b: seq<Op>)
    ensures Rejects(a + b) == Rejects(a) + Rejects(b)
  {
    if b == [] {
      assert a + b == a;
    } else {
      var n := |b| - 1;
      assert (a + b)[..|a| + n] == a + b[..n] && (a + b)[|a| + n] == b[n];
      RejectsConcat(a, b[..n]);
    }
  }

  /**
   "More than five blocks in the last 60 seconds" alone does not raise it: any number of
   requests rejected half a minute ago go unreported when the window is found expired.
   */
  lemma AnyNumberOfBlocksMissed(n: nat)
    ensures exists ops, now ::
      WellTimed(0, ops) && LastTime(0, ops) <= now && Recent(RejectTimes(ops), now) == n
      && var m := After(0, ops); !Alerts(m.window, m.count, now)
  {
    var ops := seq(n, i => Reject(30 * SECOND, 30 * SECOND, 30 * SECOND));
    var now := RATE_WINDOW_SECS * SECOND;
    HalfMinuteAgo(n);
    var m := After(0, ops);
    assert !Alerts(m.window, m.count, now);
  }

  lemma {:induction false} HalfMinuteAgo(n: nat)
    ensures var ops := seq(n, i => Reject(30 * SECOND, 30 * SECOND, 30 * SECOND));
            WellTimed(0, ops) && LastTime(0, ops) <= 30 * SECOND && After(0, ops) == Meter(n, RateWindow(0, 0))
            && Recent(RejectTimes(ops), RATE_WINDOW_SECS * SECOND) == n
  {
    if n > 0 {
      HalfMinuteAgo(n - 1);
      var ops := seq(n, i => Reject(30 * SECOND, 30 * SECOND, 30 * SECOND));
      assert ops[..n - 1] == seq(n - 1, i => Reject(30 * SECOND, 30 * SECOND, 30 * SECOND));
      var times := RejectTimes(ops);
      assert times[..|times| - 1] == RejectTimes(ops[..n - 1]);
    }
  }

  /** What one more operation does to an inspector's past. */
  lemma OneMore(start: nat, ops: seq<Op>, op: Op)
    ensures After(start, ops + [op]) == Apply(After(start, ops), op)
    ensures WellTimed(start, ops + [op])
            <==> WellTimed(start, ops) && LastTime(start, ops) <= Begin(op) <= op.now <= op.restart
  {
    assert (ops + [op])[..|ops|] == ops;
    hide Apply;
  }

  /** The inspector itself. `history` is what has been done with it so far. */
  class EgressInspector {
    const allowlist: seq<string>
    var blockCount: nat
    var windowStart: nat
    var windowBase: nat
    ghost const created: nat
    ghost var history: seq<Op>

    ghost predicate Valid()
      reads this
    {
      && WellTimed(created, history)
      && After(created, history) == Meter(blockCount, RateWindow(windowStart, windowBase))
    }

    constructor (allowlist: seq<string>, now: nat)
      ensures Valid() && history == [] && created == now && this.allowlist == allowlist
    {
      this.allowlist := allowlist;
      blockCount, windowStart, windowBase := 0, now, 0;
      created, history := now, [];
    }

    /** `inspect`: lets a destination through exactly if its host is readable and listed; anything else is counted. */
    method Inspect(destination: string, lower: string -> string, at: nat, now: nat, restart: nat) returns (ok: bool)
      requires Valid() && LastTime(created, history) <= at <= now <= restart
      modifies this
      ensures Valid()
      ensures ok <==> Permitted(allowlist, lower, destination)
      ensures history == old(history) + if ok then [] else [Reject(at, now, restart)]
    {
      var host := ExtractHost(destination);
      if host.None? {
        RecordBlock(at, now, restart);
        return false;
      }
      ok := MatchesAllowlist(allowlist, lower, host.value);
      if !ok { RecordBlock(at, now, restart); }
    }

    /** `check_rate_alert`. */
    method CheckRateAlert(now: nat, restart: nat) returns (alert: bool)
      requires Valid() && LastTime(created, history) <= now <= restart
      modifies this
      ensures Valid() && history == old(history) + [Check(now, restart)]
      ensures alert <==> var m := After(created, old(history)); Alerts(m.window, m.count, now)
      ensures alert ==> Recent(RejectTimes(old(history)), now) > RATE_ALERT_THRESHOLD
    {
      hide After, WellTimed, RejectTimes, Recent, LastTime;
      SequentialAlertIsSound(created, history, now);
      OneMore(created, history, Check(now, restart));
      history := history + [Check(now, restart)];
      var currentTotal := blockCount;
      if ElapsedSecs(windowStart, now) >= RATE_WINDOW_SECS {
        windowBase := currentTotal;
        windowStart := restart;
        return false;
      }
      var delta := SaturatingSub(currentTotal, windowBase);
      alert := delta > RATE_ALERT_THRESHOLD;
    }

    method RecordBlock(at: nat, now: nat, restart: nat)
      requires Valid() && LastTime(created, history) <= at <= now <= restart
      modifies this
      ensures Valid() && history == old(history) + [Reject(at, now, restart)]
      ensures blockCount == old(blockCount) + 1
    {
      hide After, WellTimed, LastTime;
      OneMore(created, history, Reject(at, now, restart));
      history := history + [Reject(at, now, restart)];
      blockCount := blockCount + 1;
      var newCount := blockCount;
      if ElapsedSecs(windowStart, now) >= RATE_WINDOW_SECS {
        windowBase := newCount;
        windowStart := restart;
      }
    }
  }
}

/**
 The diffusion daemon as a system of threads: any number of request threads, the idle
 watcher, the main thread that shuts the daemon down, and readers of the loaded flag. One
 action is one atomic access of shared state, so a run is any interleaving of them.
 */
module DaemonProtocol {
  import opened Arithmetic

  datatype Owner = Free | ByRequest(id: nat) | ByWatcher

  /** Where a request thread is in `/generate`, `generate` and `ensure_loaded`. */
  datatype ReqPc =
    | Outside
    | Waiting
    | Entered                 // holds the mutex
    | StartRead(t: int)       // has read the clock
    | Started                 // has stored the activity time
    | Loading                 // found no context
    | ModelUp                 // model loaded, no context yet
    | CtxUp                   // context created, flag not yet published
    | Generating
    | Ended
    | EndRead(t: int)
    | Finished

  /** Where the idle watcher is. */
  datatype WatchPc =
    | Sleeping
    | Polled(t: int)          // has read the clock, without the mutex
    | Measured(idle: int)     // has read the activity time
    | Wanting                 // flag seen and idle long enough: wants the mutex
    | Locked
    | FlagSeen
    | ClockAgain(t: int)
    | Unloading(t: int)       // re-check passed
    | FlagDown(t: int)
    | CtxFreed(t: int)
    | Leaving
    | Exited

  /** The main thread: serving, stopping the watcher, unloading, done. */
  datatype MainPc = Listening | Stopping | Joined | MainFlagDown | MainCtxFreed | Down

  /** `marks` is the history of all clock readings a request took at its start or its end. */
  datatype State = State(
    mutex: Owner, model: bool, ctx: bool, flag: bool, lastActivity: int, now: int,
    reqs: seq<ReqPc>, watch: WatchPc, main: MainPc, marks: seq<int>)

  /** `ok` and `ok2` decide how a model or context creation goes; time passes by `Tick`. */
  datatype Action = Tick(ms: nat) | Req(id: nat, ok: bool) | Watch | Main

  datatype Outcome = Disabled | Next(s: State)

  function Init(requests: nat, now: int): State {
    State(Free, false, false, false, now, now, seq(requests, i => Outside), Sleeping, Listening, [])
  }

  function Step(timeoutSecs: int, s: State, a: Action): Outcome {
    match a
    case Tick(ms) => Next(s.(now := s.now + ms))
    case Req(id, ok) => if id < |s.reqs| then ReqStep(s, id, ok) else Disabled
    case Watch => WatchStep(timeoutSecs, s)
    case Main => MainStep(s)
  }

  function ReqStep(s: State, id: nat, ok: bool): Outcome
    requires id < |s.reqs|
  {
    match s.reqs[id]
    case Outside => if s.main == Listening then Next(Go(s, id, Waiting)) else Disabled
    case Waiting => if s.mutex == Free then Next(Go(s.(mutex := ByRequest(id)), id, Entered)) else Disabled
    case Entered => Next(Go(s.(marks := s.marks + [s.now]), id, StartRead(s.now)))
    case StartRead(t) => Next(Go(s.(lastActivity := t), id, Started))
    case Started => Next(Go(s, id, if s.ctx then Generating else Loading))
    case Loading => Next(if ok then Go(s.(model := true), id, ModelUp) else Go(s, id, Ended))
    case ModelUp =>
      Next(if ok then Go(s.(ctx := true), id, CtxUp) else Go(s.(model := false), id, Ended))
    case CtxUp => Next(Go(s.(flag := true), id, Generating))
    case Generating => Next(Go(s, id, Ended))
    case Ended => Next(Go(s.(marks := s.marks + [s.now]), id, EndRead(s.now)))
    case EndRead(t) => Next(Go(s.(lastActivity := t), id, Finished))
    case Finished => Next(Go(s.(mutex := Free), id, Outside))
  }

  function Go(s: State, id: nat, pc: ReqPc): State
    requires id < |s.reqs|
  {
    s.(reqs := s.reqs[id := pc])
  }

  function IdleSecs(now: int, last: int): int { TruncDiv(now - last, 1000) }

  function WatchStep(timeoutSecs: int, s: State): Outcome {
    match s.watch
    case Sleeping => Next(s.(watch := if s.main == Listening then Polled(s.now) else Exited))
    case Polled(t) => Next(s.(watch := Measured(IdleSecs(t, s.lastActivity))))
    case Measured(idle) => Next(s.(watch := if s.flag && idle >= timeoutSecs then Wanting else Sleeping))
    case Wanting => if s.mutex == Free then Next(s.(mutex := ByWatcher, watch := Locked)) else Disabled
    case Locked => Next(s.(watch := if s.flag then FlagSeen else Leaving))
    case FlagSeen => Next(s.(watch := ClockAgain(s.now)))
    case ClockAgain(t) =>
      Next(s.(watch := if IdleSecs(t, s.lastActivity) >= timeoutSecs then Unloading(t) else Leaving))
    case Unloading(t) => Next(s.(flag := false, watch := FlagDown(t)))
    case FlagDown(t) => Next(s.(ctx := false, watch := CtxFreed(t)))
    case CtxFreed(_) => Next(s.(model := false, watch := Leaving))
    case Leaving => Next(s.(mutex := Free, watch := Sleeping))
    case Exited => Disabled
  }

  /** The server stops once its request threads are done; the watcher is joined before the last unload. */
  function MainStep(s: State): Outcome {
    match s.main
    case Listening =>
      if forall i :: 0 <= i < |s.reqs| ==> s.reqs[i] == Outside then Next(s.(main := Stopping)) else Disabled
    case Stopping => if s.watch == Exited then Next(s.(main := Joined)) else Disabled
    case Joined => Next(s.(flag := false, main := MainFlagDown))
    case MainFlagDown => Next(s.(ctx := false, main := MainCtxFreed))
    case MainCtxFreed => Next(s.(model := false, main := Down))
    case Down => Disabled
  }

  /** The state after a run, if every action of it was enabled. */
  function Run(timeoutSecs: int, s: State, actions: seq<Action>): Outcome
    decreases actions
  {
    if actions == [] then Next(s)
    else
      match Step(timeoutSecs, s, actions[0])
      case Disabled => Disabled
      case Next(t) => Run(timeoutSecs, t, actions[1..])
  }

  // ---- the invariant ----

  predicate InCritical(pc: ReqPc) { !pc.Outside? && !pc.Waiting? }

  predicate WatchCritical(pc: WatchPc) {
    pc.Locked? || pc.FlagSeen? || pc.ClockAgain? || UnloadingNow(pc) || pc.Leaving?
  }

  predicate UnloadingNow(pc: WatchPc) { pc.Unloading? || pc.FlagDown? || pc.CtxFreed? }

  predicate MainUnloading(pc: MainPc) { !pc.Listening? && !pc.Stopping? }

  /** Who holds the mutex is who is inside. */
  ghost predicate OwnerInv(s: State) {
    && (forall i :: 0 <= i < |s.reqs| ==> (InCritical(s.reqs[i]) <==> s.mutex == ByRequest(i)))
    && (WatchCritical(s.watch) <==> s.mutex == ByWatcher)
    && (s.mutex.ByRequest? ==> s.mutex.id < |s.reqs|)
    && (!s.main.Listening? ==> forall i :: 0 <= i < |s.reqs| ==> s.reqs[i] == Outside)
    && (MainUnloading(s.main) ==> s.watch == Exited)
    && (s.watch == Exited ==> !s.main.Listening?)
  }

  predicate Agree(s: State) { s.flag == s.ctx == s.model }

  /** What flag, context and model are while the holder of the mutex is at `pc`. */
  predicate ReqResources(s: State, pc: ReqPc) {
    match pc
    case Loading => !s.flag && !s.ctx && !s.model
    case ModelUp => !s.flag && !s.ctx && s.model
    case CtxUp => !s.flag && s.ctx && s.model
    case Generating => s.flag && s.ctx && s.model
    case _ => Agree(s)
  }

  predicate WatchResources(s: State, pc: WatchPc) {
    match pc
    case FlagSeen => s.flag && s.ctx && s.model
    case ClockAgain(_) => s.flag && s.ctx && s.model
    case Unloading(_) => s.flag && s.ctx && s.model
    case FlagDown(_) => !s.flag && s.ctx && s.model
    case CtxFreed(_) => !s.flag && !s.ctx && s.model
    case _ => Agree(s)
  }

  ghost predicate ResourceInv(s: State) {
    match s.main
    case MainFlagDown => !s.flag && s.ctx == s.model
    case MainCtxFreed => !s.flag && !s.ctx
    case _ =>
      match s.mutex
      case Free => Agree(s)
      case ByRequest(i) => i < |s.reqs| && ReqResources(s, s.reqs[i])
      case ByWatcher => WatchResources(s, s.watch)
  }

  /** A clock reading that the holder of the mutex has taken and not stored yet. */
  predicate Pending(s: State) {
    s.mutex.ByRequest? && s.mutex.id < |s.reqs| && (s.reqs[s.mutex.id].StartRead? || s.reqs[s.mutex.id].EndRead?)
  }

  ghost predicate TimeInv(timeoutSecs: int, s: State) {
    && s.lastActivity <= s.now
    && (forall m :: m in s.marks ==> m <= s.now)
    && (if Pending(s) then
          forall m :: m in s.marks ==> m <= s.reqs[s.mutex.id].t <= s.now
        else
          forall m :: m in s.marks ==> m <= s.lastActivity)
    && (Pending(s) ==> s.reqs[s.mutex.id].t <= s.now)
    && (s.watch.ClockAgain? ==> s.lastActivity <= s.watch.t <= s.now)
    && (UnloadingNow(s.watch) ==>
          s.lastActivity <= s.watch.t <= s.now && IdleSecs(s.watch.t, s.lastActivity) >= timeoutSecs)
  }

  ghost predicate Inv(timeoutSecs: int, s: State) { OwnerInv(s) && ResourceInv(s) && TimeInv(timeoutSecs, s) }

  lemma InitInv(timeoutSecs: int, requests: nat, now: int)
    ensures Inv(timeoutSecs, Init(requests, now))
  {
  }

  /** `t` is `s` after thread `id` has moved, and perhaps the resources with it. */
  predicate Moved(s: State, t: State, id: nat) {
    && id < |s.reqs| && |t.reqs| == |s.reqs| && t.reqs == s.reqs[id := t.reqs[id]]
    && t.watch == s.watch && t.main == s.main
  }

  lemma ReqMoves(s: State, id: nat, ok: bool)
    requires id < |s.reqs| && ReqStep(s, id, ok).Next?
    ensures Moved(s, ReqStep(s, id, ok).s, id)
  {
    var t := ReqStep(s, id, ok).s;
    assert t.reqs == s.reqs[id := t.reqs[id]];
  }

  /** Who enters and who leaves. */
  lemma ReqMutex(s: State, id: nat, ok: bool)
    requires id < |s.reqs| && ReqStep(s, id, ok).Next?
    ensures var t := ReqStep(s, id, ok).s;
            && (s.reqs[id].Outside? ==> s.main == Listening)
            && (if !InCritical(s.reqs[id]) && InCritical(t.reqs[id]) then s.mutex == Free && t.mutex == ByRequest(id)
                else if InCritical(s.reqs[id]) && !InCritical(t.reqs[id]) then t.mutex == Free
                else t.mutex == s.mutex)
  {
  }

  /** A request step moves one thread; it takes the mutex on entering and gives it back on leaving. */
  lemma ReqShape(s: State, id: nat, ok: bool)
    requires id < |s.reqs| && ReqStep(s, id, ok).Next?
    ensures var t := ReqStep(s, id, ok).s;
            && |t.reqs| == |s.reqs| && (forall i :: 0 <= i < |s.reqs| && i != id ==> t.reqs[i] == s.reqs[i])
            && t.watch == s.watch && t.main == s.main
            && (s.reqs[id].Outside? ==> s.main == Listening)
            && (if !InCritical(s.reqs[id]) && InCritical(t.reqs[id]) then s.mutex == Free && t.mutex == ByRequest(id)
                else if InCritical(s.reqs[id]) && !InCritical(t.reqs[id]) then t.mutex == Free
                else t.mutex == s.mutex)
  {
    hide ReqStep, InCritical;
    ReqMoves(s, id, ok);
    ReqMutex(s, id, ok);
  }

  lemma ReqKeepsOwner(s: State, id: nat, ok: bool)
    requires OwnerInv(s) && id < |s.reqs| && ReqStep(s, id, ok).Next?
    ensures OwnerInv(ReqStep(s, id, ok).s)
  {
    hide ReqStep, InCritical;
    ReqShape(s, id, ok);
    var t := ReqStep(s, id, ok).s;
    forall i | 0 <= i < |t.reqs| ensures InCritical(t.reqs[i]) <==> t.mutex == ByRequest(i) {
      if i != id { assert t.reqs[i] == s.reqs[i]; assert InCritical(s.reqs[i]) <==> s.mutex == ByRequest(i); }
    }
  }

  lemma ReqKeepsResources(s: State, id: nat, ok: bool)
    requires OwnerInv(s) && ResourceInv(s) && id < |s.reqs| && ReqStep(s, id, ok).Next?
    ensures ResourceInv(ReqStep(s, id, ok).s)
  {
    match s.reqs[id]
    case Outside =>
    case Waiting =>
    case _ => assert s.mutex == ByRequest(id);
  }

  lemma ReqKeepsTime(timeoutSecs: int, s: State, id: nat, ok: bool)
    requires OwnerInv(s) && TimeInv(timeoutSecs, s) && id < |s.reqs| && ReqStep(s, id, ok).Next?
    ensures TimeInv(timeoutSecs, ReqStep(s, id, ok).s)
  {
    hide IdleSecs;
    match s.reqs[id]
    case Outside =>
    case Waiting =>
    case _ => assert s.mutex == ByRequest(id);
  }

  /** A watcher step leaves the requests and the clock alone; how it moves on. */
  lemma WatchShape(timeoutSecs: int, s: State)
    requires WatchStep(timeoutSecs, s).Next?
    ensures var t := WatchStep(timeoutSecs, s).s;
            && t == s.(watch := t.watch, mutex := t.mutex, flag := t.flag, ctx := t.ctx, model := t.model)
            && (t.watch.ClockAgain? ==> t.watch.t == s.now)
            && (UnloadingNow(t.watch) ==>
                  && (UnloadingNow(s.watch) || (s.watch.ClockAgain? && IdleSecs(s.watch.t, s.lastActivity) >= timeoutSecs))
                  && t.watch.t == s.watch.t)
            && (s.watch == Exited <==> t.watch == Exited && s.watch == Exited)
            && (t.mutex == s.mutex || (s.watch.Wanting? && s.mutex == Free && t.mutex == ByWatcher)
                || (s.watch.Leaving? && t.mutex == Free))
            && (s.watch.Wanting? || s.watch.Leaving? <==> (WatchCritical(s.watch) <==> !WatchCritical(t.watch)))
            && (s.watch.Wanting? ==> t.mutex == ByWatcher) && (s.watch.Leaving? ==> t.mutex == Free)
            && (t.watch == Exited ==> s.main != Listening)
  {
    hide IdleSecs;
  }

  lemma WatchKeepsTime(timeoutSecs: int, s: State)
    requires OwnerInv(s) && TimeInv(timeoutSecs, s) && WatchStep(timeoutSecs, s).Next?
    ensures TimeInv(timeoutSecs, WatchStep(timeoutSecs, s).s)
  {
    WatchShape(timeoutSecs, s);
    hide IdleSecs, WatchStep;
    var t := WatchStep(timeoutSecs, s).s;
    assert Pending(t) <==> Pending(s);
  }

  lemma WatchKeepsOwner(timeoutSecs: int, s: State)
    requires OwnerInv(s) && ResourceInv(s) && WatchStep(timeoutSecs, s).Next?
    ensures OwnerInv(WatchStep(timeoutSecs, s).s)
  {
    WatchShape(timeoutSecs, s);
    hide IdleSecs, WatchStep, UnloadingNow, WatchCritical, InCritical;
  }

  lemma WatchKeepsResources(timeoutSecs: int, s: State)
    requires OwnerInv(s) && ResourceInv(s) && WatchStep(timeoutSecs, s).Next?
    ensures ResourceInv(WatchStep(timeoutSecs, s).s)
  {
    hide IdleSecs;
  }

  lemma TickKeeps(timeoutSecs: int, s: State, ms: nat)
    requires Inv(timeoutSecs, s)
    ensures Inv(timeoutSecs, s.(now := s.now + ms))
  {
    hide IdleSecs, InCritical;
  }

  lemma MainKeepsOwner(s: State)
    requires OwnerInv(s) && MainStep(s).Next?
    ensures OwnerInv(MainStep(s).s)
  {
    hide InCritical, WatchCritical;
    assert forall i :: 0 <= i < |s.reqs| && s.reqs[i] == Outside ==> !InCritical(s.reqs[i]) by { OutsideIsOut(); }
  }

  lemma OutsideIsOut()
    ensures !InCritical(Outside)
  {
  }

  lemma MainKeepsResources(s: State)
    requires OwnerInv(s) && ResourceInv(s) && MainStep(s).Next?
    ensures ResourceInv(MainStep(s).s)
  {
    if MainUnloading(s.main) { NobodyInside(s); }
    hide InCritical, WatchCritical;
  }

  /** Once the main thread unloads, the mutex is free. */
  lemma NobodyInside(s: State)
    requires OwnerInv(s) && MainUnloading(s.main)
    ensures s.mutex == Free
  {
    OutsideIsOut();
  }

  lemma MainKeepsTime(timeoutSecs: int, s: State)
    requires TimeInv(timeoutSecs, s) && MainStep(s).Next?
    ensures TimeInv(timeoutSecs, MainStep(s).s)
  {
    hide IdleSecs;
    var t := MainStep(s).s;
    assert t == s.(main := t.main, flag := t.flag, ctx := t.ctx, model := t.model);
    hide MainStep;
    assert Pending(t) <==> Pending(s);
  }

  lemma {:induction false} RunKeeps(timeoutSecs: int, s: State, actions: seq<Action>)
    requires Inv(timeoutSecs, s) && Run(timeoutSecs, s, actions).Next?
    ensures Inv(timeoutSecs, Run(timeoutSecs, s, actions).s)
    decreases actions
  {
    hide OwnerInv, ResourceInv, TimeInv, ReqStep, WatchStep, MainStep;
    if actions != [] {
      match actions[0] {
        case Tick(ms) => TickKeeps(timeoutSecs, s, ms);
        case Req(id, ok) =>
          ReqKeepsOwner(s, id, ok);
          ReqKeepsResources(s, id, ok);
          ReqKeepsTime(timeoutSecs, s, id, ok);
        case Watch =>
          WatchKeepsOwner(timeoutSecs, s);
          WatchKeepsResources(timeoutSecs, s);
          WatchKeepsTime(timeoutSecs, s);
        case Main =>
          MainKeepsOwner(s);
          MainKeepsResources(s);
          MainKeepsTime(timeoutSecs, s);
      }
      RunKeeps(timeoutSecs, Step(timeoutSecs, s, actions[0]).s, actions[1..]);
    }
  }

  // ---- main results ----

  /** What holds in every state of every run. */
  ghost predicate Safe(timeoutSecs: int, s: State) {
    // a reader that sees the flag set can count on a live context and model
    && (s.flag ==> s.ctx && s.model)
    // the three agree whenever nobody is loading or unloading
    && (s.mutex == Free && (s.main == Listening || s.main == Stopping || s.main == Joined) ==> Agree(s))
    // at most one thread is inside
    && (forall i, j :: 0 <= i < |s.reqs| && 0 <= j < |s.reqs| && InCritical(s.reqs[i]) && InCritical(s.reqs[j]) ==> i == j)
    && (forall i :: 0 <= i < |s.reqs| && InCritical(s.reqs[i]) ==> !WatchCritical(s.watch) && !MainUnloading(s.main))
    // a generation runs on a live model, and no unload overlaps it
    && (forall i :: 0 <= i < |s.reqs| && s.reqs[i].Generating? ==>
          s.flag && s.ctx && s.model && !UnloadingNow(s.watch) && !MainUnloading(s.main))
    // the watcher unloads only when every request start and end is long enough ago
    && (UnloadingNow(s.watch) ==>
          && s.watch.t <= s.now && (forall m :: m in s.marks ==> IdleSecs(s.watch.t, m) >= timeoutSecs)
          && (timeoutSecs >= 1 ==> forall m :: m in s.marks ==> m + 1000 * timeoutSecs <= s.watch.t))
  }

  /** The whole seconds compared are the timeout in milliseconds. */
  lemma IdleInMs(now: int, last: int, timeoutSecs: int)
    requires timeoutSecs >= 1
    ensures IdleSecs(now, last) >= timeoutSecs <==> last + 1000 * timeoutSecs <= now
  {
  }

  lemma IdleMonotone(now: int, a: int, b: int)
    requires a <= b <= now
    ensures IdleSecs(now, a) >= IdleSecs(now, b)
  {
  }

  /** Every interleaving, of any number of requests with the watcher and the main thread, is safe. */
  lemma AlwaysSafe(timeoutSecs: int, requests: nat, now: int, actions: seq<Action>)
    requires Run(timeoutSecs, Init(requests, now), actions).Next?
    ensures Safe(timeoutSecs, Run(timeoutSecs, Init(requests, now), actions).s)
  {
    InitInv(timeoutSecs, requests, now);
    RunKeeps(timeoutSecs, Init(requests, now), actions);
    InvIsSafe(timeoutSecs, Run(timeoutSecs, Init(requests, now), actions).s);
  }

  lemma InvIsSafe(timeoutSecs: int, s: State)
    requires Inv(timeoutSecs, s)
    ensures Safe(timeoutSecs, s)
  {
    if UnloadingNow(s.watch) {
      forall m | m in s.marks ensures IdleSecs(s.watch.t, m) >= timeoutSecs {
        IdleMonotone(s.watch.t, m, s.lastActivity);
      }
      if timeoutSecs >= 1 {
        forall m | m in s.marks ensures m + 1000 * timeoutSecs <= s.watch.t { IdleInMs(s.watch.t, m, timeoutSecs); }
      }
    }
  }

  /**
   A live context goes away only by an unload: the watcher's, with every request outside its
   critical section and idle for the timeout, or the main thread's, with every request over.
   */
  lemma ContextDiesByUnload(timeoutSecs: int, s: State, a: Action)
    requires Inv(timeoutSecs, s) && Step(timeoutSecs, s, a).Next?
    requires s.ctx && !Step(timeoutSecs, s, a).s.ctx
    ensures !s.flag && forall i :: 0 <= i < |s.reqs| ==> !InCritical(s.reqs[i])
    ensures || (a == Watch && s.watch.FlagDown? && forall m :: m in s.marks ==> IdleSecs(s.now, m) >= timeoutSecs)
            || (a == Main && s.main.MainFlagDown? && s.watch == Exited)
  {
    InvIsSafe(timeoutSecs, s);
    if a == Watch {
      forall m | m in s.marks ensures IdleSecs(s.now, m) >= timeoutSecs {
        assert IdleSecs(s.watch.t, m) >= timeoutSecs;
        LaterIsIdler(s.watch.t, s.now, m);
      }
    }
  }

  lemma LaterIsIdler(t: int, now: int, m: int)
    requires t <= now
    ensures IdleSecs(t, m) <= IdleSecs(now, m)
  {
  }

  // ---- progress ----

  /** The next action of whoever holds the mutex. */
  function HolderAction(s: State, ok: bool): Action
    requires s.mutex != Free
  {
    match s.mutex case ByRequest(id) => Req(id, ok) case ByWatcher => Watch
  }

  function ReqLeft(pc: ReqPc): nat {
    match pc
    case Outside => 0
    case Waiting => 0
    case Entered => 10
    case StartRead(_) => 9
    case Started => 8
    case Loading => 7
    case ModelUp => 6
    case CtxUp => 5
    case Generating => 4
    case Ended => 3
    case EndRead(_) => 2
    case Finished => 1
  }

  function WatchLeft(pc: WatchPc): nat {
    match pc
    case Locked => 7
    case FlagSeen => 6
    case ClockAgain(_) => 5
    case Unloading(_) => 4
    case FlagDown(_) => 3
    case CtxFreed(_) => 2
    case Leaving => 1
    case _ => 0
  }

  /** A bound on the steps the holder of the mutex takes until it gives it back. */
  function StepsLeft(s: State): nat {
    match s.mutex
    case Free => 0
    case ByRequest(id) => if id < |s.reqs| then ReqLeft(s.reqs[id]) else 0
    case ByWatcher => WatchLeft(s.watch)
  }

  lemma ReqRank(s: State, id: nat, ok: bool)
    requires id < |s.reqs| && InCritical(s.reqs[id])
    ensures var r := ReqStep(s, id, ok);
            r.Next? && id < |r.s.reqs| && ReqLeft(r.s.reqs[id]) < ReqLeft(s.reqs[id]) <= 10
  {
  }

  lemma WatchRank(timeoutSecs: int, s: State)
    requires WatchCritical(s.watch)
    ensures var r := WatchStep(timeoutSecs, s);
            r.Next? && WatchLeft(r.s.watch) < WatchLeft(s.watch) <= 10
  {
    hide IdleSecs;
  }

  /** Whoever holds the mutex can go on, however the model calls turn out, and each of its steps brings the release nearer. */
  lemma HolderGoesOn(timeoutSecs: int, s: State, ok: bool)
    requires Inv(timeoutSecs, s) && s.mutex != Free
    ensures var r := Step(timeoutSecs, s, HolderAction(s, ok));
            r.Next? && StepsLeft(r.s) < StepsLeft(s) <= 10
  {
    hide ResourceInv, TimeInv, ReqStep, WatchStep, ReqLeft, WatchLeft, InCritical, WatchCritical;
    match s.mutex
    case ByRequest(id) =>
      ReqRank(s, id, ok);
      ReqShape(s, id, ok);
    case ByWatcher =>
      WatchRank(timeoutSecs, s);
      WatchShape(timeoutSecs, s);
  }

  /** Nobody else can take the mutex from it or set it back. */
  lemma OthersKeepHolder(timeoutSecs: int, s: State, a: Action)
    requires Inv(timeoutSecs, s) && s.mutex != Free && Step(timeoutSecs, s, a).Next?
    requires a != HolderAction(s, true) && a != HolderAction(s, false)
    ensures var t := Step(timeoutSecs, s, a).s; t.mutex == s.mutex && StepsLeft(t) == StepsLeft(s)
  {
    hide ResourceInv, TimeInv;
    match a
    case Tick(_) =>
    case Req(id, ok) =>
      ReqShape(s, id, ok);
      assert InCritical(s.reqs[id]) <==> s.mutex == ByRequest(id);
      hide ReqStep;
    case Watch =>
      WatchShape(timeoutSecs, s);
      hide WatchStep;
    case Main =>
  }

  /** Until the daemon is down, every reachable state has an enabled action other than the passing of time. */
  lemma NeverStuck(timeoutSecs: int, requests: nat, now: int, actions: seq<Action>)
    requires Run(timeoutSecs, Init(requests, now), actions).Next?
    requires Run(timeoutSecs, Init(requests, now), actions).s.main != Down
    ensures exists a: Action :: !a.Tick? && Step(timeoutSecs, Run(timeoutSecs, Init(requests, now), actions).s, a).Next?
  {
    InitInv(timeoutSecs, requests, now);
    RunKeeps(timeoutSecs, Init(requests, now), actions);
    hide Run, ResourceInv, TimeInv, IdleSecs;
    var s := Run(timeoutSecs, Init(requests, now), actions).s;
    if s.mutex != Free {
      HolderGoesOn(timeoutSecs, s, true);
    } else if s.watch != Exited {
      assert Step(timeoutSecs, s, Watch).Next?;
    } else {
      assert Step(timeoutSecs, s, Main).Next?;
    }
  }

  // ---- what each thread gets done ----

  function Times(a: Action, n: nat): seq<Action> { seq(n, i => a) }

  lemma RunNext(timeoutSecs: int, s: State, a: Action, n: nat)
    requires n > 0 && Step(timeoutSecs, s, a).Next?
    ensures Run(timeoutSecs, s, Times(a, n)) == Run(timeoutSecs, Step(timeoutSecs, s, a).s, Times(a, n - 1))
  {
    assert Times(a, n)[1..] == Times(a, n - 1) && Times(a, n)[0] == a;
  }

  lemma RunDone(timeoutSecs: int, s: State, a: Action)
    ensures Run(timeoutSecs, s, Times(a, 0)) == Next(s)
  {
  }

  lemma IdleModelIsLocked(timeoutSecs: int, s: State)
    requires s.main == Listening && s.watch == Sleeping && s.mutex == Free && s.flag
    requires IdleSecs(s.now, s.lastActivity) >= timeoutSecs
    ensures Run(timeoutSecs, s, Times(Watch, 11))
            == Run(timeoutSecs, s.(mutex := ByWatcher, watch := Unloading(s.now)), Times(Watch, 4))
  {
    hide Run, IdleSecs, Times;
    var t := s.now;
    var locked := s.(mutex := ByWatcher);
    RunNext(timeoutSecs, s, Watch, 11);
    RunNext(timeoutSecs, s.(watch := Polled(t)), Watch, 10);
    RunNext(timeoutSecs, s.(watch := Measured(IdleSecs(t, s.lastActivity))), Watch, 9);
    RunNext(timeoutSecs, s.(watch := Wanting), Watch, 8);
    RunNext(timeoutSecs, locked.(watch := Locked), Watch, 7);
    RunNext(timeoutSecs, locked.(watch := FlagSeen), Watch, 6);
    RunNext(timeoutSecs, locked.(watch := ClockAgain(t)), Watch, 5);
  }

  /**
   An idle model is unloaded: with the mutex free, the flag set and the timeout reached, the
   watcher's next eleven steps are enabled and leave nothing loaded and the mutex free.
   */
  lemma IdleModelIsUnloaded(timeoutSecs: int, s: State)
    requires Inv(timeoutSecs, s) && s.main == Listening && s.watch == Sleeping && s.mutex == Free && s.flag
    requires IdleSecs(s.now, s.lastActivity) >= timeoutSecs
    ensures Run(timeoutSecs, s, Times(Watch, 11)) == Next(s.(flag := false, ctx := false, model := false))
  {
    hide Run, Inv, IdleSecs, Times;
    var t := s.now;
    var locked := s.(mutex := ByWatcher);
    var off := locked.(flag := false);
    IdleModelIsLocked(timeoutSecs, s);
    RunNext(timeoutSecs, locked.(watch := Unloading(t)), Watch, 4);
    RunNext(timeoutSecs, off.(watch := FlagDown(t)), Watch, 3);
    RunNext(timeoutSecs, off.(ctx := false, watch := CtxFreed(t)), Watch, 2);
    RunNext(timeoutSecs, off.(ctx := false, model := false, watch := Leaving), Watch, 1);
    RunDone(timeoutSecs, s.(flag := false, ctx := false, model := false), Watch);
  }

  /** A model in use, and one that is not loaded, are left alone: a round of the watcher changes nothing. */
  lemma BusyModelIsKept(timeoutSecs: int, s: State)
    requires s.main == Listening && s.watch == Sleeping
    requires !s.flag || IdleSecs(s.now, s.lastActivity) < timeoutSecs
    ensures Run(timeoutSecs, s, Times(Watch, 3)) == Next(s)
  {
    hide Run, IdleSecs, Times;
    RunNext(timeoutSecs, s, Watch, 3);
    RunNext(timeoutSecs, s.(watch := Polled(s.now)), Watch, 2);
    RunNext(timeoutSecs, s.(watch := Measured(IdleSecs(s.now, s.lastActivity))), Watch, 1);
    RunDone(timeoutSecs, s, Watch);
  }

  /** So is one that a request has used while the watcher waited for the mutex: the second look finds out. */
  lemma SecondLookKeeps(timeoutSecs: int, s: State)
    requires s.watch == Wanting && s.mutex == Free && s.flag && IdleSecs(s.now, s.lastActivity) < timeoutSecs
    ensures Run(timeoutSecs, s, Times(Watch, 5)) == Next(s.(watch := Sleeping))
  {
    hide Run, IdleSecs, Times;
    var locked := s.(mutex := ByWatcher);
    RunNext(timeoutSecs, s, Watch, 5);
    RunNext(timeoutSecs, locked.(watch := Locked), Watch, 4);
    RunNext(timeoutSecs, locked.(watch := FlagSeen), Watch, 3);
    RunNext(timeoutSecs, locked.(watch := ClockAgain(s.now)), Watch, 2);
    RunNext(timeoutSecs, locked.(watch := Leaving), Watch, 1);
    RunDone(timeoutSecs, s.(watch := Sleeping), Watch);
  }

  /** A state with request `id` moved to `pc` and the mutex held by it. */
  function Inside(s: State, id: nat, pc: ReqPc): State
    requires id < |s.reqs|
  {
    s.(mutex := ByRequest(id), reqs := s.reqs[id := pc])
  }

  /** The state in which a waiting request has stored its start and finds the context there or not. */
  function AtStart(s: State, id: nat, pc: ReqPc): State
    requires id < |s.reqs|
  {
    Inside(s, id, pc).(lastActivity := s.now, marks := s.marks + [s.now])
  }

  lemma RequestStarts(timeoutSecs: int, s: State, id: nat, ok: bool, n: nat)
    requires id < |s.reqs| && s.reqs[id] == Waiting && s.mutex == Free && n >= 4
    ensures Run(timeoutSecs, s, Times(Req(id, ok), n))
            == Run(timeoutSecs, AtStart(s, id, if s.ctx then Generating else Loading), Times(Req(id, ok), n - 4))
  {
    hide Run, Times;
    var a := Req(id, ok);
    RunNext(timeoutSecs, s, a, n);
    Overwrite(s.reqs, id, Entered, StartRead(s.now));
    RunNext(timeoutSecs, Inside(s, id, Entered), a, n - 1);
    Overwrite(s.reqs, id, StartRead(s.now), Started);
    RunNext(timeoutSecs, Inside(s, id, StartRead(s.now)).(marks := s.marks + [s.now]), a, n - 2);
    Overwrite(s.reqs, id, Started, if s.ctx then Generating else Loading);
    RunNext(timeoutSecs, AtStart(s, id, Started), a, n - 3);
  }

  lemma Overwrite(reqs: seq<ReqPc>, id: nat, pc: ReqPc, next: ReqPc)
    requires id < |reqs|
    ensures reqs[id := pc][id := next] == reqs[id := next]
    ensures reqs[id := pc][id] == pc
  {
  }

  /** A waiting request gets its generation on a live context, loading the model if there is none. */
  lemma RequestGenerates(timeoutSecs: int, s: State, id: nat)
    requires Inv(timeoutSecs, s) && id < |s.reqs| && s.reqs[id] == Waiting && s.mutex == Free
    ensures Run(timeoutSecs, s, Times(Req(id, true), if s.ctx then 4 else 7))
            == Next(AtStart(s, id, Generating).(flag := true, ctx := true, model := true))
  {
    var a := Req(id, true);
    var g := AtStart(s, id, Generating);
    InvIsSafe(timeoutSecs, s);
    assert s.main == Listening;
    assert s.flag == s.ctx == s.model;
    hide Run, Times, Inv, Safe;
    RequestStarts(timeoutSecs, s, id, true, if s.ctx then 4 else 7);
    if s.ctx {
      RunDone(timeoutSecs, g, a);
    } else {
      Overwrite(s.reqs, id, Loading, ModelUp);
      RunNext(timeoutSecs, AtStart(s, id, Loading), a, 3);
      Overwrite(s.reqs, id, ModelUp, CtxUp);
      RunNext(timeoutSecs, AtStart(s, id, ModelUp).(model := true), a, 2);
      Overwrite(s.reqs, id, CtxUp, Generating);
      RunNext(timeoutSecs, AtStart(s, id, CtxUp).(model := true, ctx := true), a, 1);
      RunDone(timeoutSecs, g.(flag := true, ctx := true, model := true), a);
    }
  }

  /** After its generation, or a failed load, it stores the time and gives the mutex back, and changes nothing else. */
  lemma RequestEnds(timeoutSecs: int, s: State, id: nat, ok: bool)
    requires id < |s.reqs| && s.mutex == ByRequest(id) && (s.reqs[id] == Generating || s.reqs[id] == Ended)
    ensures Run(timeoutSecs, s, Times(Req(id, ok), if s.reqs[id] == Generating then 4 else 3))
            == Next(s.(mutex := Free, reqs := s.reqs[id := Outside], lastActivity := s.now, marks := s.marks + [s.now]))
  {
    hide Run, Times;
    var a := Req(id, ok);
    if s.reqs[id] == Generating { RunNext(timeoutSecs, s, a, 4); }
    var e := s.(reqs := s.reqs[id := Ended]);
    assert s.reqs[id] == Ended ==> e.reqs == s.reqs;
    RunNext(timeoutSecs, e, a, 3);
    Overwrite(s.reqs, id, Ended, EndRead(s.now));
    var r := s.(marks := s.marks + [s.now], reqs := s.reqs[id := EndRead(s.now)]);
    RunNext(timeoutSecs, r, a, 2);
    Overwrite(s.reqs, id, EndRead(s.now), Finished);
    RunNext(timeoutSecs, r.(lastActivity := s.now, reqs := s.reqs[id := Finished]), a, 1);
    Overwrite(s.reqs, id, Finished, Outside);
    RunDone(timeoutSecs, r.(lastActivity := s.now, reqs := s.reqs[id := Outside], mutex := Free), a);
  }

  /** A failed load of the model, or of the context after it, leaves nothing loaded. */
  lemma FailedLoadLeavesNothing(timeoutSecs: int, s: State, id: nat)
    requires Inv(timeoutSecs, s) && id < |s.reqs| && (s.reqs[id] == Loading || s.reqs[id] == ModelUp)
    ensures Step(timeoutSecs, s, Req(id, false))
            == Next(s.(flag := false, ctx := false, model := false, reqs := s.reqs[id := Ended]))
  {
    assert InCritical(s.reqs[id]);
    hide TimeInv;
  }

  /** Once every request is over, the main thread and the watcher bring the daemon down with nothing loaded. */
  lemma ShutsDown(timeoutSecs: int, s: State)
    requires Inv(timeoutSecs, s) && s.main == Listening && s.watch == Sleeping
    requires forall i :: 0 <= i < |s.reqs| ==> s.reqs[i] == Outside
    ensures Run(timeoutSecs, s, [Main] + ([Watch] + Times(Main, 4)))
            == Next(s.(main := Down, watch := Exited, flag := false, ctx := false, model := false))
  {
    hide Run, Times, Inv;
    var q := s.(main := Stopping);
    var j := q.(watch := Exited);
    RunCons(timeoutSecs, s, Main, [Watch] + Times(Main, 4));
    RunCons(timeoutSecs, q, Watch, Times(Main, 4));
    RunNext(timeoutSecs, j, Main, 4);
    RunNext(timeoutSecs, j.(main := Joined), Main, 3);
    RunNext(timeoutSecs, j.(main := MainFlagDown, flag := false), Main, 2);
    RunNext(timeoutSecs, j.(main := MainCtxFreed, flag := false, ctx := false), Main, 1);
    RunDone(timeoutSecs, j.(main := Down, flag := false, ctx := false, model := false), Main);
  }

  lemma RunCons(timeoutSecs: int, s: State, a: Action, rest: seq<Action>)
    requires Step(timeoutSecs, s, a).Next?
    ensures Run(timeoutSecs, s, [a] + rest) == Run(timeoutSecs, Step(timeoutSecs, s, a).s, rest)
  {
    assert ([a] + rest)[1..] == rest;
  }
}

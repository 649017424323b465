/**
 The supervisor of one child process: `ProcessMonitor` (start, stop, restart, exit
 handler, restart timer) as `ProcessRunner` drives it.  Between two awaits the code runs
 without interruption, so one event is the code from one await to the next; a run is any
 sequence of events, and an event that is not enabled changes nothing.  The child is
 part of the environment and may exit, or report an error, at any time.
 */
module ProcessSupervisor {
  import opened Options

  datatype ProcessState = Stopped | Starting | Running | Stopping | Crashed

  datatype Settings = Settings(restartOnCrash: bool, maxRestarts: int, restartDelay: nat)

  /** Where a restart() call waits. */
  datatype Stage =
    | LogStopping    // inside stop(): writing "Process stopping..."
    | AwaitExit      // inside stop(): waiting for the child or the kill timeout
    | LogStopped     // inside stop(): writing "Process stopped"
    | StopReturned   // stop() is back, the attempt is not counted yet
    | LogRestarting  // counted, writing "Process restarting"
    | Delaying       // waiting for the restart delay

  /** The childProcess field: the child of the last spawn, if that spawn worked, and its `killed`
      flag, which a kill() sets when it could signal the child. */
  datatype Handle = NoChild | Child(child: Option<nat>, killed: bool)

  datatype Monitor = Monitor(
    state: ProcessState,
    childProcess: Handle,
    restartCount: nat,
    restartTimer: Option<nat>,   // the field, which may name a timer that already fired
    armed: set<nat>,             // timers that will still fire
    timers: nat,                 // timers created so far
    restarts: map<nat, Stage>,   // restart() calls in flight, by the timer that made the call
    alive: set<nat>,             // children alive, by spawn number
    spawned: nat)

  const NewMonitor: Monitor := Monitor(Stopped, NoChild, 0, None, {}, 0, map[], {}, 0)

  // ---- The operations of ProcessMonitor ----

  predicate MayRestart(m: Monitor, o: Settings) {
    o.restartOnCrash && m.restartCount < o.maxRestarts
  }

  function ArmTimer(m: Monitor): Monitor {
    m.(armed := m.armed + {m.timers}, restartTimer := Some(m.timers), timers := m.timers + 1)
  }

  function ClearTimer(m: Monitor): Monitor {
    m.(armed := if m.restartTimer.Some? then m.armed - {m.restartTimer.value} else m.armed,
       restartTimer := None)
  }

  /** stop() signals a child whose `killed` flag is not set. */
  predicate Signals(m: Monitor) {
    m.childProcess.Child? && !m.childProcess.killed
  }

  /** childProcess.kill(): it can work only on a child that has not exited. */
  function Kill(m: Monitor, works: bool): Monitor {
    if Signals(m) && works && m.childProcess.child.Some? && m.childProcess.child.value in m.alive then
      m.(childProcess := m.childProcess.(killed := true))
    else m
  }

  function StartOp(m: Monitor, spawnOk: bool): Monitor {
    if m.state == Running then m
    else if spawnOk then
      m.(state := Running, childProcess := Child(Some(m.spawned), false),
         alive := m.alive + {m.spawned}, spawned := m.spawned + 1)
    else m.(state := Stopped, childProcess := Child(None, false))
  }

  function ExitOp(m: Monitor, o: Settings, child: nat, code: Option<int>): Monitor {
    var n := m.(alive := m.alive - {child}, state := Stopped);
    if m.state == Running && code != Some(0) then
      var c := n.(state := Crashed);
      if MayRestart(m, o) then ArmTimer(c) else c
    else n
  }

  function ErrorOp(m: Monitor): Monitor {
    m.(state := Crashed)
  }

  function FatalOp(m: Monitor, o: Settings): Monitor {
    if MayRestart(m, o) then ArmTimer(m) else m
  }

  /** The timer callback: restart() up to its first await, which is inside stop(). */
  function FireOp(m: Monitor, t: nat): Monitor {
    var n := m.(armed := m.armed - {t});
    if m.state == Stopped then n.(restarts := n.restarts[t := StopReturned])
    else n.(state := Stopping, restarts := n.restarts[t := LogStopping])
  }

  /** One restart() call goes on to its next await.  The wait for the child ends with its exit or with
      the kill timeout, which kills once more; `kills` says whether a kill() works. */
  function ResumeOp(m: Monitor, o: Settings, t: nat, kills: bool, spawnOk: bool): Monitor
    requires t in m.restarts
  {
    match m.restarts[t]
    case LogStopping =>
      var n := ClearTimer(m);
      if Signals(m) then Kill(n, kills).(restarts := m.restarts[t := AwaitExit])
      else n.(state := Stopped, restarts := m.restarts[t := LogStopped])
    case AwaitExit => Kill(m, kills).(state := Stopped, restarts := m.restarts[t := LogStopped])
    case LogStopped => m.(restarts := m.restarts[t := StopReturned])
    case StopReturned => m.(restartCount := m.restartCount + 1, restarts := m.restarts[t := LogRestarting])
    case LogRestarting =>
      if o.restartDelay > 0 then m.(restarts := m.restarts[t := Delaying])
      else StartOp(m.(restarts := m.restarts - {t}), spawnOk)
    case Delaying => StartOp(m.(restarts := m.restarts - {t}), spawnOk)
  }

  // ---- ProcessRunner and the runs ----

  datatype Runner =
    | Fresh
    | Launching            // monitor.start() is in its last await
    | NotStarted           // monitor.start() failed
    | Active               // isRunning
    | StopLogging(force: bool)
    | StopWaiting
    | StopLogged
    | StopDone             // monitor.stop() is back
    | Closed               // cleaned up

  datatype Machine = Machine(m: Monitor, runner: Runner)

  datatype Event =
    | RunnerStart(spawnOk: bool)
    | RunnerStarted
    | Exit(child: nat, code: Option<int>)
    | ChildError
    | FatalDetected
    | Fire(timer: nat)
    | Resume(timer: nat, kills: bool, spawnOk: bool)
    | RunnerStop(force: bool)
    | RunnerStopNext(kills: bool)

  const Init: Machine := Machine(NewMonitor, Fresh)

  function StopNext(x: Machine, kills: bool): Machine {
    match x.runner
    case StopLogging(force) =>
      var n := Kill(ClearTimer(x.m), kills);
      if Signals(x.m) && !force then Machine(n, StopWaiting)
      else Machine(n.(state := Stopped), StopLogged)
    case StopWaiting => Machine(Kill(x.m, kills).(state := Stopped), StopLogged)
    case StopLogged => x.(runner := StopDone)
    case StopDone => Machine(x.m.(armed := ClearTimer(x.m).armed), Closed)
    case _ => x
  }

  function Step(x: Machine, o: Settings, e: Event): Machine {
    match e
    case RunnerStart(ok) =>
      if x.runner.Fresh? then Machine(StartOp(x.m, ok), if ok then Launching else NotStarted) else x
    case RunnerStarted => if x.runner.Launching? then x.(runner := Active) else x
    case Exit(c, code) => if c in x.m.alive then x.(m := ExitOp(x.m, o, c, code)) else x
    case ChildError => if x.m.spawned > 0 then x.(m := ErrorOp(x.m)) else x
    case FatalDetected => if x.m.spawned > 0 && !x.runner.Closed? then x.(m := FatalOp(x.m, o)) else x
    case Fire(t) => if t in x.m.armed then x.(m := FireOp(x.m, t)) else x
    case Resume(t, kills, ok) => if t in x.m.restarts then x.(m := ResumeOp(x.m, o, t, kills, ok)) else x
    case RunnerStop(force) =>
      if !x.runner.Active? then x
      else if x.m.state == Stopped then x.(runner := StopDone)
      else Machine(x.m.(state := Stopping), StopLogging(force))
    case RunnerStopNext(kills) => StopNext(x, kills)
  }

  function Run(x: Machine, o: Settings, es: seq<Event>): Machine {
    if es == [] then x else Step(Run(x, o, es[..|es| - 1]), o, es[|es| - 1])
  }

  predicate FatalFree(es: seq<Event>) {
    forall i :: 0 <= i < |es| ==> !es[i].FatalDetected?
  }

  lemma {:induction false} RunAppend(x: Machine, o: Settings, a: seq<Event>, b: seq<Event>)
    ensures Run(x, o, a + b) == Run(Run(x, o, a), o, b)
  {
    if b == [] {
      assert a + b == a;
    } else {
      RunAppend(x, o, a, b[..|b| - 1]);
      assert (a + b)[..|a + b| - 1] == a + b[..|b| - 1];
    }
  }

  lemma RunOne(x: Machine, o: Settings, e: Event)
    ensures Run(x, o, [e]) == Step(x, o, e)
  {
    assert [e][..0] == [];
  }

  // ---- The invariant of fatal-free runs: one token goes round ----

  /** The right to have a child is in exactly one place: nowhere, in a living child, in the
      armed timer that the field names, or in a restart() call. */
  datatype Token = Nowhere | InChild(child: nat) | InTimer(timer: nat) | InRestart(timer: nat, stage: Stage)

  ghost predicate Carries(m: Monitor, k: Token) {
    match k
    case Nowhere => m.alive == {} && m.armed == {} && m.restarts == map[]
    case InChild(c) => m.alive == {c} && m.armed == {} && m.restarts == map[]
    case InTimer(t) => m.alive == {} && m.armed == {t} && m.restartTimer == Some(t) && m.restarts == map[]
    case InRestart(t, stage) => m.alive == {} && m.armed == {} && m.restarts == map[t := stage]
  }

  predicate Counted(stage: Stage) {
    stage.LogRestarting? || stage.Delaying?
  }

  /** A restart that is armed or in flight and not yet in restartCount. */
  predicate Uncounted(k: Token) {
    k.InTimer? || (k.InRestart? && !Counted(k.stage))
  }

  function Budget(o: Settings): nat {
    if o.restartOnCrash && o.maxRestarts > 0 then o.maxRestarts else 0
  }

  function Bit(b: bool): nat { if b then 1 else 0 }

  ghost predicate TokenInv(x: Machine, o: Settings, k: Token) {
    var m := x.m;
    && Carries(m, k)
    && m.restartCount + Bit(Uncounted(k)) <= Budget(o)
    && m.spawned + Bit(k.InRestart? && Counted(k.stage)) <= 1 + m.restartCount
    && (m.state == Running ==> k.InChild?)
    && (x.runner.Fresh? ==> m.spawned == 0 && k.Nowhere?)
  }

  /** Where the token goes. */
  ghost function MoveToken(x: Machine, o: Settings, e: Event, k: Token): Token {
    var y := Step(x, o, e);
    if y.m.alive != {} then InChild(if k.InChild? then k.child else x.m.spawned)
    else if y.m.armed != {} then (if k.InTimer? then k else InTimer(x.m.timers))
    else if y.m.restarts != map[] then
      var t := if k.InTimer? || k.InRestart? then k.timer else 0;
      InRestart(t, if t in y.m.restarts then y.m.restarts[t] else Delaying)
    else Nowhere
  }

  lemma TokenResume(x: Machine, o: Settings, e: Event, k: Token)
    requires TokenInv(x, o, k) && e.Resume?
    ensures TokenInv(Step(x, o, e), o, MoveToken(x, o, e, k))
  {
    if e.timer in x.m.restarts {
      assert x.m.restarts - {e.timer} == map[];
    }
  }

  lemma TokenStop(x: Machine, o: Settings, e: Event, k: Token)
    requires TokenInv(x, o, k) && (e.RunnerStop? || e.RunnerStopNext?)
    ensures TokenInv(Step(x, o, e), o, MoveToken(x, o, e, k))
  {}

  lemma TokenOther(x: Machine, o: Settings, e: Event, k: Token)
    requires TokenInv(x, o, k) && !e.FatalDetected? && !e.Resume? && !e.RunnerStop? && !e.RunnerStopNext?
    ensures TokenInv(Step(x, o, e), o, MoveToken(x, o, e, k))
  {}

  lemma TokenStep(x: Machine, o: Settings, e: Event, k: Token)
    requires TokenInv(x, o, k) && !e.FatalDetected?
    ensures TokenInv(Step(x, o, e), o, MoveToken(x, o, e, k))
  {
    if e.Resume? {
      TokenResume(x, o, e, k);
    } else if e.RunnerStop? || e.RunnerStopNext? {
      TokenStop(x, o, e, k);
    } else {
      TokenOther(x, o, e, k);
    }
  }

  ghost function TokenOf(o: Settings, es: seq<Event>): Token {
    if es == [] then Nowhere
    else MoveToken(Run(Init, o, es[..|es| - 1]), o, es[|es| - 1], TokenOf(o, es[..|es| - 1]))
  }

  lemma {:induction false} TokenRun(o: Settings, es: seq<Event>)
    requires FatalFree(es)
    ensures TokenInv(Run(Init, o, es), o, TokenOf(o, es))
  {
    if es != [] {
      TokenRun(o, es[..|es| - 1]);
      TokenStep(Run(Init, o, es[..|es| - 1]), o, es[|es| - 1], TokenOf(o, es[..|es| - 1]));
    }
  }

  function Pending(m: Monitor): set<nat> {
    set t | t in m.restarts && !Counted(m.restarts[t])
  }

  lemma TokenCounts(m: Monitor, k: Token)
    requires Carries(m, k)
    ensures |m.armed| + |Pending(m)| == Bit(Uncounted(k)) && |m.alive| + |m.armed| + |m.restarts| <= 1
  {
    if k.InRestart? && Uncounted(k) {
      assert Pending(m) == {k.timer};
    } else {
      assert Pending(m) == {};
    }
  }

  /** In every run without a fatal-severity detection, the restarts made, armed and in flight
      stay within the budget, so do the children spawned, and two children are never alive. */
  lemma RestartBudget(o: Settings, es: seq<Event>)
    requires FatalFree(es)
    ensures var m := Run(Init, o, es).m;
            && m.restartCount + |m.armed| + |Pending(m)| <= Budget(o)
            && m.spawned <= Budget(o) + 1
            && |m.alive| + |m.armed| + |m.restarts| <= 1
  {
    TokenRun(o, es);
    TokenCounts(Run(Init, o, es).m, TokenOf(o, es));
  }

  // ---- Every restart is owed to a crash ----

  /** The event is an exit of a running child with a code other than 0 while the budget lasts. */
  predicate IsCrash(x: Machine, o: Settings, e: Event) {
    e.Exit? && e.child in x.m.alive && x.m.state == Running && e.code != Some(0) && MayRestart(x.m, o)
  }

  function Crashes(o: Settings, es: seq<Event>): nat {
    if es == [] then 0
    else Crashes(o, es[..|es| - 1]) + Bit(IsCrash(Run(Init, o, es[..|es| - 1]), o, es[|es| - 1]))
  }

  lemma OwedResume(x: Machine, o: Settings, e: Event, k: Token)
    requires TokenInv(x, o, k) && e.Resume?
    requires x.m.restartCount + Bit(Uncounted(k)) <= x.m.timers
    ensures var y := Step(x, o, e);
            y.m.timers == x.m.timers && y.m.restartCount + Bit(Uncounted(MoveToken(x, o, e, k))) <= y.m.timers
  {
    if e.timer in x.m.restarts {
      assert x.m.restarts - {e.timer} == map[];
    }
  }

  lemma OwedOther(x: Machine, o: Settings, e: Event, k: Token)
    requires TokenInv(x, o, k) && !e.FatalDetected? && !e.Resume?
    requires x.m.restartCount + Bit(Uncounted(k)) <= x.m.timers
    ensures var y := Step(x, o, e);
            && y.m.timers == x.m.timers + Bit(IsCrash(x, o, e))
            && y.m.restartCount + Bit(Uncounted(MoveToken(x, o, e, k))) <= y.m.timers
  {}

  lemma OwedStep(x: Machine, o: Settings, e: Event, k: Token)
    requires TokenInv(x, o, k) && !e.FatalDetected?
    requires x.m.restartCount + Bit(Uncounted(k)) <= x.m.timers
    ensures var y := Step(x, o, e);
            && y.m.timers == x.m.timers + Bit(IsCrash(x, o, e))
            && y.m.restartCount + Bit(Uncounted(MoveToken(x, o, e, k))) <= y.m.timers
  {
    if e.Resume? {
      OwedResume(x, o, e, k);
    } else {
      OwedOther(x, o, e, k);
    }
  }

  lemma {:induction false} OwedRun(o: Settings, es: seq<Event>)
    requires FatalFree(es)
    ensures var m := Run(Init, o, es).m;
            m.timers == Crashes(o, es) && m.restartCount + Bit(Uncounted(TokenOf(o, es))) <= m.timers
  {
    if es != [] {
      OwedRun(o, es[..|es| - 1]);
      TokenRun(o, es[..|es| - 1]);
      OwedStep(Run(Init, o, es[..|es| - 1]), o, es[|es| - 1], TokenOf(o, es[..|es| - 1]));
    }
  }

  /** Without a fatal detection, every restart made, armed or in flight answers a crash of its own:
      an exit with code 0, or one during a stop, never leads to a restart. */
  lemma RestartsAnswerCrashes(o: Settings, es: seq<Event>)
    requires FatalFree(es)
    ensures var m := Run(Init, o, es).m;
            && m.restartCount + |m.armed| + |Pending(m)| <= Crashes(o, es)
            && m.spawned <= Crashes(o, es) + 1
  {
    OwedRun(o, es);
    TokenRun(o, es);
    TokenCounts(Run(Init, o, es).m, TokenOf(o, es));
  }

  // ---- Every run of crashes ends ----

  function Fuel(x: Machine, o: Settings, k: Token): int {
    var left := 8 * (Budget(o) - x.m.restartCount);
    match k
    case Nowhere => if x.runner.Fresh? then left + 2 else 0
    case InChild(_) => left + 1
    case InTimer(_) => left
    case InRestart(_, stage) => left + (match stage
      case LogStopping => -1 case AwaitExit => -2 case LogStopped => -3
      case StopReturned => -4 case LogRestarting => 3 case Delaying => 2)
  }

  /** The event moved a child, a timer or a restart() call, or counted a restart. */
  predicate Acts(m: Monitor, n: Monitor) {
    m.alive != n.alive || m.armed != n.armed || m.restarts != n.restarts || m.restartCount != n.restartCount
  }

  lemma FuelResume(x: Machine, o: Settings, e: Event, k: Token)
    requires TokenInv(x, o, k) && e.Resume?
    ensures var y, k' := Step(x, o, e), MoveToken(x, o, e, k);
            0 <= Fuel(y, o, k') && Fuel(y, o, k') + Bit(Acts(x.m, y.m)) <= Fuel(x, o, k)
  {
    if e.timer in x.m.restarts {
      assert x.m.restarts - {e.timer} == map[];
    }
  }

  lemma FuelOther(x: Machine, o: Settings, e: Event, k: Token)
    requires TokenInv(x, o, k) && !e.FatalDetected? && !e.Resume?
    ensures var y, k' := Step(x, o, e), MoveToken(x, o, e, k);
            0 <= Fuel(y, o, k') && Fuel(y, o, k') + Bit(Acts(x.m, y.m)) <= Fuel(x, o, k)
  {}

  lemma FuelStep(x: Machine, o: Settings, e: Event, k: Token)
    requires TokenInv(x, o, k) && !e.FatalDetected?
    ensures var y, k' := Step(x, o, e), MoveToken(x, o, e, k);
            0 <= Fuel(y, o, k') && Fuel(y, o, k') + Bit(Acts(x.m, y.m)) <= Fuel(x, o, k)
  {
    if e.Resume? {
      FuelResume(x, o, e, k);
    } else {
      FuelOther(x, o, e, k);
    }
  }

  function Actions(o: Settings, es: seq<Event>): nat {
    if es == [] then 0
    else Actions(o, es[..|es| - 1]) + Bit(Acts(Run(Init, o, es[..|es| - 1]).m, Run(Init, o, es).m))
  }

  /** However often the child crashes, a run comes to rest: at most 8 actions per allowed restart, and two more. */
  lemma {:induction false} CrashesEnd(o: Settings, es: seq<Event>)
    requires FatalFree(es)
    ensures Actions(o, es) + Fuel(Run(Init, o, es), o, TokenOf(o, es)) <= 8 * Budget(o) + 2
    ensures Actions(o, es) <= 8 * Budget(o) + 2
  {
    if es != [] {
      CrashesEnd(o, es[..|es| - 1]);
      TokenRun(o, es[..|es| - 1]);
      FuelStep(Run(Init, o, es[..|es| - 1]), o, es[|es| - 1], TokenOf(o, es[..|es| - 1]));
    }
  }

  // ---- After the stop ----

  /** What can still bring a child back once ProcessRunner.stop has cleaned up. */
  predicate CanRespawn(m: Monitor, o: Settings) {
    m.restarts != map[] || (m.state == Running && m.alive != {} && MayRestart(m, o))
  }

  lemma ClosedStep(x: Machine, o: Settings, e: Event, k: Token)
    requires TokenInv(x, o, k) && !e.FatalDetected? && x.runner.Closed?
    requires x.m.armed == {} && !CanRespawn(x.m, o)
    ensures var y := Step(x, o, e);
            y.runner.Closed? && y.m.armed == {} && !CanRespawn(y.m, o) && y.m.spawned == x.m.spawned
  {}

  lemma {:induction false} ClosedRun(x: Machine, o: Settings, es: seq<Event>, k: Token)
    requires TokenInv(x, o, k) && FatalFree(es) && x.runner.Closed?
    requires x.m.armed == {} && !CanRespawn(x.m, o)
    ensures var y := Run(x, o, es);
            y.runner.Closed? && y.m.armed == {} && !CanRespawn(y.m, o) && y.m.spawned == x.m.spawned
    ensures exists k' :: TokenInv(Run(x, o, es), o, k')
  {
    if es != [] {
      ClosedRun(x, o, es[..|es| - 1], k);
      var u := Run(x, o, es[..|es| - 1]);
      var k' :| TokenInv(u, o, k');
      ClosedStep(u, o, es[|es| - 1], k');
      TokenStep(u, o, es[|es| - 1], k');
    }
  }

  function StageRank(stage: Stage): nat {
    match stage
    case LogStopping => 6 case AwaitExit => 5 case LogStopped => 4
    case StopReturned => 3 case LogRestarting => 2 case Delaying => 1
  }

  /** A restart() call in flight can run to its end and spawn. */
  lemma {:induction false} RestartSpawns(x: Machine, o: Settings, t: nat) returns (es: seq<Event>)
    requires t in x.m.restarts
    requires x.m.state != Running || x.m.restarts[t].LogStopping? || x.m.restarts[t].AwaitExit?
    ensures FatalFree(es)
    ensures var y := Run(x, o, es);
            && y.m.spawned == x.m.spawned + 1 && y.m.state == Running && y.runner == x.runner
            && y.m.restartCount == x.m.restartCount + Bit(!Counted(x.m.restarts[t]))
            && y.m.restarts == x.m.restarts - {t} && y.m.alive == x.m.alive + {x.m.spawned}
            && (x.m.armed == {} ==> y.m.armed == {})
    decreases StageRank(x.m.restarts[t])
  {
    var e := Resume(t, true, true);
    var y := Step(x, o, e);
    RunOne(x, o, e);
    if t in y.m.restarts {
      var rest := RestartSpawns(y, o, t);
      RunAppend(x, o, [e], rest);
      es := [e] + rest;
      assert y.m.restarts - {t} == x.m.restarts - {t};
    } else {
      es := [e];
    }
  }

  /** A running child with budget left can crash, and its timer starts a restart. */
  lemma CrashSpawns(x: Machine, o: Settings, c: nat) returns (es: seq<Event>)
    requires x.m.alive == {c} && x.m.state == Running && MayRestart(x.m, o)
    requires x.m.armed == {} && x.m.restarts == map[]
    ensures FatalFree(es)
    ensures var y := Run(x, o, es);
            && y.m.spawned == x.m.spawned + 1 && y.m.state == Running && y.runner == x.runner
            && y.m.restartCount == x.m.restartCount + 1
            && y.m.alive == {x.m.spawned} && y.m.armed == {} && y.m.restarts == map[]
  {
    var a, b := Exit(c, Some(1)), Fire(x.m.timers);
    RunOne(x, o, a);
    var y := Step(x, o, a);
    RunOne(y, o, b);
    RunAppend(x, o, [a], [b]);
    var z := Step(y, o, b);
    var rest := RestartSpawns(z, o, x.m.timers);
    RunAppend(x, o, [a] + [b], rest);
    es := [a] + [b] + rest;
  }

  /** `ProcessRunner.stop` is final exactly when, at its clean-up, no restart() call was in flight
      and no child was running with budget left: the exact condition for a child after the stop. */
  lemma StopIsFinalIff(o: Settings, es: seq<Event>)
    requires FatalFree(es)
    requires var x := Run(Init, o, es); x.runner.StopDone?
    ensures var x := Run(Init, o, es + [RunnerStopNext(false)]);
            (exists more: seq<Event> :: FatalFree(more) && Run(x, o, more).m.spawned > x.m.spawned)
            <==> CanRespawn(x.m, o)
  {
    var e := RunnerStopNext(false);
    assert (es + [e])[..|es + [e]| - 1] == es;
    TokenRun(o, es);
    TokenRun(o, es + [e]);
    var x, k := Run(Init, o, es + [e]), TokenOf(o, es + [e]);
    assert x.runner.Closed? && x.m.armed == {};
    if CanRespawn(x.m, o) {
      if k.InRestart? {
        var more := RestartSpawns(x, o, k.timer);
        assert Run(x, o, more).m.spawned > x.m.spawned;
      } else {
        var more := CrashSpawns(x, o, k.child);
        assert Run(x, o, more).m.spawned > x.m.spawned;
      }
    } else if more: seq<Event> :| FatalFree(more) && Run(x, o, more).m.spawned > x.m.spawned {
      ClosedRun(x, o, more, k);
    }
  }

  /** A stop that arrives while a restart is between its stop() and its start() is not final:
      for every setting that allows a restart, such a run exists. */
  lemma StopMayNotBeFinal(o: Settings)
    requires Budget(o) > 0
    ensures exists es: seq<Event> ::
              FatalFree(es) && Run(Init, o, es).runner.StopDone? && CanRespawn(Run(Init, o, es).m, o)
  {
    var before := WaitingRun(o);
    var x := Run(Init, o, before);
    var e, stop := Resume(0, true, true), RunnerStop(false);
    var y := Step(x, o, e);
    assert 0 in y.m.restarts && y.m.state == Stopped;
    Snoc(o, before, e);
    Snoc(o, before + [e], stop);
    var es := before + [e] + [stop];
    assert FatalFree(es) && Run(Init, o, es) == Step(y, o, stop);
  }

  /** After a crash, the restart waits for the child that is already gone. */
  lemma WaitingRun(o: Settings) returns (es: seq<Event>)
    requires Budget(o) > 0
    ensures FatalFree(es)
    ensures var x := Run(Init, o, es); x.runner.Active? && x.m.state == Stopping && x.m.restarts == map[0 := AwaitExit]
  {
    var before := CrashedRun(o);
    var e4, e5 := Fire(0), Resume(0, true, true);
    var x4 := Step(Run(Init, o, before), o, e4);
    assert x4.m.restarts == map[0 := LogStopping];
    Snoc(o, before, e4);
    Snoc(o, before + [e4], e5);
    es := before + [e4] + [e5];
    assert Run(Init, o, es) == Step(x4, o, e5);
  }

  /** A started runner whose child has just crashed. */
  lemma CrashedRun(o: Settings) returns (es: seq<Event>)
    requires Budget(o) > 0
    ensures FatalFree(es)
    ensures var x := Run(Init, o, es);
            && x.runner.Active? && x.m.state == Crashed && x.m.armed == {0} && x.m.restarts == map[]
            && Signals(x.m)
  {
    var e1, e2, e3 := RunnerStart(true), RunnerStarted, Exit(0, Some(1));
    var x2 := Step(Step(Init, o, e1), o, e2);
    Snoc(o, [], e1);
    Snoc(o, [] + [e1], e2);
    Snoc(o, [] + [e1] + [e2], e3);
    es := [] + [e1] + [e2] + [e3];
    assert Run(Init, o, es) == Step(x2, o, e3);
  }

  lemma Snoc(o: Settings, es: seq<Event>, e: Event)
    ensures Run(Init, o, es + [e]) == Step(Run(Init, o, es), o, e)
  {
    assert (es + [e])[..|es + [e]| - 1] == es;
  }

  // ---- The reported state ----

  /** What an exit leaves: 'crashed' exactly when a running child exits with another code than 0, else
      'stopped'; a timer exactly when it crashed within the budget; nothing else changes. */
  lemma ExitLeaves(x: Machine, o: Settings, c: nat, code: Option<int>)
    requires c in x.m.alive
    ensures var y := Step(x, o, Exit(c, code)); var crash := x.m.state == Running && code != Some(0);
            && y.m.state == (if crash then Crashed else Stopped)
            && y.m.alive == x.m.alive - {c} && y.runner == x.runner
            && y.m.armed == x.m.armed +
                 (if crash && o.restartOnCrash && x.m.restartCount < o.maxRestarts then {x.m.timers} else {})
            && y.m.restartCount == x.m.restartCount && y.m.restarts == x.m.restarts
            && y.m.spawned == x.m.spawned && y.m.childProcess == x.m.childProcess
  {}

  /** The state after every other event. */
  lemma StateAfter(x: Machine, o: Settings, e: Event)
    requires !e.Exit?
    ensures var now, was := Step(x, o, e).m.state, x.m.state;
            now == match e
                 case RunnerStart(ok) =>
                   if !x.runner.Fresh? || was == Running then was else if ok then Running else Stopped
                 case ChildError => if x.m.spawned > 0 then Crashed else was
                 case Fire(t) => if t !in x.m.armed || was == Stopped then was else Stopping
                 case Resume(t, _, ok) =>
                   if t !in x.m.restarts then was
                   else (match x.m.restarts[t]
                         case LogStopping =>
                           if x.m.childProcess.Child? && !x.m.childProcess.killed then was else Stopped
                         case AwaitExit => Stopped
                         case LogRestarting =>
                           if o.restartDelay > 0 || was == Running then was else if ok then Running else Stopped
                         case Delaying => if was == Running then was else if ok then Running else Stopped
                         case _ => was)
                 case RunnerStop(_) => if x.runner.Active? && was != Stopped then Stopping else was
                 case RunnerStopNext(_) =>
                   (match x.runner
                    case StopLogging(force) =>
                      if x.m.childProcess.Child? && !x.m.childProcess.killed && !force then was else Stopped
                    case StopWaiting => Stopped
                    case _ => was)
                 case _ => was
  {}

  /** A clean exit of the running child is the end: whatever follows, no child is spawned and nothing is
      reported as running again. */
  lemma CleanExitIsFinal(o: Settings, es: seq<Event>, c: nat, more: seq<Event>)
    requires FatalFree(es) && FatalFree(more)
    requires var x := Run(Init, o, es); c in x.m.alive && x.m.state == Running
    ensures var y := Step(Run(Init, o, es), o, Exit(c, Some(0)));
            && y.m.state == Stopped
            && Run(y, o, more).m.spawned == y.m.spawned && Run(y, o, more).m.state != Running
  {
    var x := Run(Init, o, es);
    TokenRun(o, es);
    TokenStep(x, o, Exit(c, Some(0)), TokenOf(o, es));
    NothingLeft(Step(x, o, Exit(c, Some(0))), o, more);
  }

  /** With no child, no timer and no restart, nothing comes back. */
  lemma {:induction false} NothingLeft(x: Machine, o: Settings, es: seq<Event>)
    requires FatalFree(es) && x.m.alive == {} && x.m.armed == {} && x.m.restarts == map[]
    requires x.m.state != Running && !x.runner.Fresh?
    ensures var y := Run(x, o, es);
            && y.m.alive == {} && y.m.armed == {} && y.m.restarts == map[]
            && y.m.spawned == x.m.spawned && y.m.state != Running && !y.runner.Fresh?
  {
    if es != [] {
      NothingLeft(x, o, es[..|es| - 1]);
    }
  }

  /** While a monitor without fatal detections reports 'running', exactly one child is alive. */
  lemma RunningHasOneChild(o: Settings, es: seq<Event>)
    requires FatalFree(es) && Run(Init, o, es).m.state == Running
    ensures |Run(Init, o, es).m.alive| == 1
  {
    TokenRun(o, es);
  }

  // ---- The child that stop() signals ----

  predicate Kills(e: Event) {
    (e.Resume? || e.RunnerStopNext?) && e.kills
  }

  predicate Signalled(es: seq<Event>) {
    es != [] && (Signalled(es[..|es| - 1]) || Kills(es[|es| - 1]))
  }

  predicate HandleInv(m: Monitor, signalled: bool) {
    match m.childProcess
    case NoChild => m.spawned == 0
    case Child(child, killed) =>
      (child.Some? ==> child.value + 1 == m.spawned) && (killed ==> child.Some? && signalled)
  }

  lemma HandleResume(m: Monitor, o: Settings, t: nat, kills: bool, ok: bool, signalled: bool)
    requires t in m.restarts && HandleInv(m, signalled)
    ensures HandleInv(ResumeOp(m, o, t, kills, ok), signalled || kills)
  {}

  lemma HandleStep(x: Machine, o: Settings, e: Event, signalled: bool)
    requires HandleInv(x.m, signalled)
    ensures HandleInv(Step(x, o, e).m, signalled || Kills(e))
  {
    match e
    case Resume(t, kills, ok) =>
      if t in x.m.restarts {
        HandleResume(x.m, o, t, kills, ok, signalled);
      }
    case _ =>
  }

  /** The field names the newest child, or none after a failed spawn, and its `killed` flag is set only
      after a kill() that worked. */
  lemma {:induction false} HandleIsNewest(o: Settings, es: seq<Event>)
    ensures HandleInv(Run(Init, o, es).m, Signalled(es))
  {
    if es != [] {
      HandleIsNewest(o, es[..|es| - 1]);
      HandleStep(Run(Init, o, es[..|es| - 1]), o, es[|es| - 1], Signalled(es[..|es| - 1]));
    }
  }

  /** stop() inside a restart signals the newest child if its flag is not set, and waits exactly then; a
      timer that the field names is disarmed. */
  lemma StopStretch(x: Machine, o: Settings, t: nat, kills: bool, ok: bool)
    requires t in x.m.restarts && x.m.restarts[t].LogStopping?
    ensures var y := Step(x, o, Resume(t, kills, ok)); var h := x.m.childProcess;
            && t in y.m.restarts
            && y.m.restarts[t] == (if h.Child? && !h.killed then AwaitExit else LogStopped)
            && (h.Child? && !h.killed && h.child.Some? && h.child.value in x.m.alive && kills ==>
                  y.m.childProcess == Child(h.child, true))
            && y.m.armed == (if x.m.restartTimer.Some? then x.m.armed - {x.m.restartTimer.value} else x.m.armed)
            && y.m.restartTimer.None? && y.m.restartCount == x.m.restartCount && y.m.spawned == x.m.spawned
  {}

  /** The runner's own start: only once, launching if the spawn worked, given up if it failed; it is active once
      start() has returned. */
  lemma RunnerBegins(x: Machine, o: Settings, ok: bool)
    requires x.m.state != Running
    ensures Step(x, o, RunnerStart(ok)).runner ==
              if !x.runner.Fresh? then x.runner else if ok then Launching else NotStarted
    ensures Step(x, o, RunnerStarted).runner == if x.runner.Launching? then Active else x.runner
    ensures !x.runner.Fresh? ==> Step(x, o, RunnerStart(ok)) == x
  {}

  /** A timer that fires is spent and starts one restart call, which has nothing to stop if the state is
      'stopped'. */
  lemma TimerFires(x: Machine, o: Settings, t: nat)
    requires t in x.m.armed
    ensures var y := Step(x, o, Fire(t));
            && y.m.armed == x.m.armed - {t} && y.m.restartTimer == x.m.restartTimer
            && y.m.restarts == x.m.restarts[t := if x.m.state == Stopped then StopReturned else LogStopping]
            && y.m.alive == x.m.alive && y.m.spawned == x.m.spawned && y.m.restartCount == x.m.restartCount
  {}

  /** The kill timeout, and a stop of the runner, signal a child that was not signalled yet. */
  lemma LaterSignals(x: Machine, o: Settings, e: Event, c: nat)
    requires x.m.childProcess == Child(Some(c), false) && c in x.m.alive && Kills(e)
    requires || (e.Resume? && e.timer in x.m.restarts && x.m.restarts[e.timer].AwaitExit?)
             || (e.RunnerStopNext? && (x.runner.StopLogging? || x.runner.StopWaiting?))
    ensures Step(x, o, e).m.childProcess == Child(Some(c), true)
  {}

  /** What a start leaves, in a restart or at the beginning: a new living child that was not signalled, or
      the handle of a spawn that failed. */
  lemma StartLeaves(x: Machine, o: Settings, e: Event, ok: bool)
    requires x.m.state != Running
    requires || (e == RunnerStart(ok) && x.runner.Fresh?)
             || (e.Resume? && e.spawnOk == ok && e.timer in x.m.restarts && x.m.restarts[e.timer].Delaying?)
    ensures var y := Step(x, o, e);
            && y.m.childProcess == Child(if ok then Some(x.m.spawned) else None, false)
            && y.m.alive == x.m.alive + (if ok then {x.m.spawned} else {}) && y.m.spawned == x.m.spawned + Bit(ok)
  {}

  /** The rest of a restart, in its order: stopped, counted, delayed if there is a delay, started. */
  lemma RestartStretches(x: Machine, o: Settings, t: nat, kills: bool, ok: bool)
    requires t in x.m.restarts && !x.m.restarts[t].LogStopping?
    ensures var y := Step(x, o, Resume(t, kills, ok));
            && (match x.m.restarts[t]
                case AwaitExit => t in y.m.restarts && y.m.restarts[t] == LogStopped
                case LogStopped => t in y.m.restarts && y.m.restarts[t] == StopReturned
                case StopReturned => t in y.m.restarts && y.m.restarts[t] == LogRestarting
                case LogRestarting =>
                  if o.restartDelay > 0 then t in y.m.restarts && y.m.restarts[t] == Delaying else t !in y.m.restarts
                case Delaying => t !in y.m.restarts)
            && y.m.restartCount == x.m.restartCount + Bit(x.m.restarts[t].StopReturned?)
            && y.m.spawned == x.m.spawned + Bit(t !in y.m.restarts && ok && x.m.state != Running)
  {}

  /** Stopping the runner: at once when nothing runs, otherwise through stop(), which waits only for a child
      that was not signalled before and not by force. */
  lemma RunnerStops(x: Machine, o: Settings, e: Event)
    requires e.RunnerStop? || e.RunnerStopNext?
    ensures var y := Step(x, o, e);
            y.runner == match x.runner
                        case Active =>
                          if !e.RunnerStop? then Active
                          else if x.m.state == Stopped then StopDone else StopLogging(e.force)
                        case StopLogging(force) =>
                          if e.RunnerStop? then x.runner
                          else if x.m.childProcess.Child? && !x.m.childProcess.killed && !force then StopWaiting
                          else StopLogged
                        case StopWaiting => if e.RunnerStop? then StopWaiting else StopLogged
                        case StopLogged => if e.RunnerStop? then StopLogged else StopDone
                        case StopDone => if e.RunnerStop? then StopDone else Closed
                        case _ => x.runner
    ensures x.runner.StopLogging? && e.RunnerStopNext? ==>
              Step(x, o, e).m.restartTimer.None? &&
              Step(x, o, e).m.armed ==
                if x.m.restartTimer.Some? then x.m.armed - {x.m.restartTimer.value} else x.m.armed
    ensures x.runner.StopDone? && e.RunnerStopNext? ==>
              Step(x, o, e).m.armed ==
                if x.m.restartTimer.Some? then x.m.armed - {x.m.restartTimer.value} else x.m.armed
  {}

  // ---- Fatal-severity detections break the budget ----

  /** Crash by crash, any count up to the budget is reached with one child running. */
  lemma {:induction false} ReachCount(o: Settings, n: nat) returns (es: seq<Event>)
    requires n <= Budget(o)
    ensures FatalFree(es)
    ensures var m := Run(Init, o, es).m;
            && m.restartCount == n && m.state == Running && |m.alive| == 1 && m.armed == {} && m.restarts == map[]
            && m.spawned == n + 1 && m.alive == {n} && Run(Init, o, es).runner == Launching
  {
    if n == 0 {
      es := [RunnerStart(true)];
      RunOne(Init, o, es[0]);
    } else {
      var before := ReachCount(o, n - 1);
      var more := CrashSpawns(Run(Init, o, before), o, n - 1);
      RunAppend(Init, o, before, more);
      es := before + more;
    }
  }

  /** Two fatal detections arm two timers, the second overwriting the field; both fire. */
  lemma FatalPair(x: Machine, o: Settings, es: seq<Event>) returns (longer: seq<Event>)
    requires Run(Init, o, es) == x && x.runner.Launching? && x.m.spawned > 0
    requires x.m.state == Running && x.m.armed == {} && x.m.restarts == map[] && MayRestart(x.m, o)
    ensures var t, y := x.m.timers, Run(Init, o, longer);
            && y.m.restarts == map[t := LogStopping, t + 1 := LogStopping] && y.m.armed == {}
            && y.m.alive == x.m.alive && y.m.spawned == x.m.spawned && y.m.restartCount == x.m.restartCount
  {
    var t := x.m.timers;
    var x1 := Step(x, o, FatalDetected);
    var x2 := Step(x1, o, FatalDetected);
    var x3 := Step(x2, o, Fire(t));
    Snoc(o, es, FatalDetected);
    Snoc(o, es + [FatalDetected], FatalDetected);
    Snoc(o, es + [FatalDetected] + [FatalDetected], Fire(t));
    Snoc(o, es + [FatalDetected] + [FatalDetected] + [Fire(t)], Fire(t + 1));
    longer := es + [FatalDetected] + [FatalDetected] + [Fire(t)] + [Fire(t + 1)];
  }

  /** Two restart() calls in flight each count and each spawn. */
  lemma BothSpawn(x: Machine, o: Settings, t: nat) returns (es: seq<Event>)
    requires x.m.restarts == map[t := LogStopping, t + 1 := LogStopping]
    ensures var m := Run(x, o, es).m;
            && m.restartCount == x.m.restartCount + 2 && m.spawned == x.m.spawned + 2
            && m.alive == x.m.alive + {x.m.spawned, x.m.spawned + 1}
  {
    var r1 := RestartSpawns(x, o, t);
    var r2 := RestartSpawns(Run(x, o, r1), o, t + 1);
    RunAppend(x, o, r1, r2);
    es := r1 + r2;
  }

  lemma FatalTwice(o: Settings) returns (es: seq<Event>)
    requires Budget(o) > 0
    ensures var m := Run(Init, o, es).m;
            m.restartCount == Budget(o) + 1 && m.spawned == Budget(o) + 2 && |m.alive| > 1
  {
    var n := Budget(o) - 1;
    var before := ReachCount(o, n);
    var x := Run(Init, o, before);
    var pair := FatalPair(x, o, before);
    var both := BothSpawn(Run(Init, o, pair), o, x.m.timers);
    RunAppend(Init, o, pair, both);
    es := pair + both;
    SubsetSize({n, n + 1}, Run(Init, o, es).m.alive);
  }

  lemma {:induction false} SubsetSize(a: set<nat>, b: set<nat>)
    requires a <= b
    ensures |a| <= |b|
  {
    if a != {} {
      var x :| x in a;
      SubsetSize(a - {x}, b - {x});
    }
  }

  lemma {:induction false} NoBudgetNoRestart(o: Settings, es: seq<Event>)
    requires Budget(o) == 0
    ensures var m := Run(Init, o, es).m; m.armed == {} && m.restarts == map[] && m.restartCount == 0
  {
    if es != [] {
      NoBudgetNoRestart(o, es[..|es| - 1]);
    }
  }

  /** Over runs that may contain fatal detections, the limit on restarts is kept exactly by the
      settings that allow no restart at all. */
  lemma BudgetOverAllRunsIff(o: Settings)
    ensures (forall es: seq<Event> :: Run(Init, o, es).m.restartCount <= Budget(o)) <==> Budget(o) == 0
  {
    if Budget(o) == 0 {
      forall es: seq<Event> ensures Run(Init, o, es).m.restartCount <= Budget(o) {
        NoBudgetNoRestart(o, es);
      }
    } else {
      var es := FatalTwice(o);
      assert Run(Init, o, es).m.restartCount > Budget(o);
    }
  }

  // ---- The class ----

  /** The handlers as the source writes them, over fields that they update in place. */
  class ProcessMonitor {
    const options: Settings
    var state: ProcessState
    var childProcess: Handle
    var restartCount: nat
    var restartTimer: Option<nat>
    var armed: set<nat>
    var timers: nat
    var restarts: map<nat, Stage>
    var alive: set<nat>
    var spawned: nat

    ghost function View(): Monitor
      reads this
    {
      Monitor(state, childProcess, restartCount, restartTimer, armed, timers, restarts, alive, spawned)
    }

    constructor (options: Settings)
      ensures this.options == options && View() == NewMonitor
    {
      this.options := options;
      state, childProcess, restartCount, restartTimer := Stopped, NoChild, 0, None;
      armed, timers, restarts, alive, spawned := {}, 0, map[], {}, 0;
    }

    method SetTimeout()
      modifies this
      ensures View() == ArmTimer(old(View()))
    {
      armed := armed + {timers};
      restartTimer := Some(timers);
      timers := timers + 1;
    }

    method ClearRestartTimer()
      modifies this
      ensures View() == ClearTimer(old(View()))
    {
      if restartTimer.Some? {
        armed := armed - {restartTimer.value};
        restartTimer := None;
      }
    }

    /** childProcess.kill() behind the `killed` test. */
    method KillChild(works: bool)
      modifies this
      ensures View() == Kill(old(View()), works)
    {
      match childProcess
      case Child(Some(child), false) =>
        if works && child in alive {
          childProcess := Child(Some(child), true);
        }
      case _ =>
    }

    method Start(spawnOk: bool) returns (success: bool)
      modifies this
      ensures View() == StartOp(old(View()), spawnOk)
      ensures success <==> spawnOk && old(state) != Running
    {
      if state == Running {
        return false;
      }
      state := Starting;
      childProcess := Child(if spawnOk then Some(spawned) else None, false);
      if !spawnOk {
        state := Stopped;
        return false;
      }
      alive := alive + {spawned};
      spawned := spawned + 1;
      state := Running;
      return true;
    }

    method OnExit(child: nat, code: Option<int>)
      modifies this
      ensures View() == ExitOp(old(View()), options, child, code)
    {
      alive := alive - {child};
      var wasUnexpected := state == Running;
      state := Stopped;
      if wasUnexpected && code != Some(0) {
        state := Crashed;
        if options.restartOnCrash && restartCount < options.maxRestarts {
          SetTimeout();
        }
      }
    }

    method OnError()
      modifies this
      ensures View() == ErrorOp(old(View()))
    {
      state := Crashed;
    }

    method HandleFatalError()
      modifies this
      ensures View() == FatalOp(old(View()), options)
    {
      if options.restartOnCrash && restartCount < options.maxRestarts {
        SetTimeout();
      }
    }

    method OnRestartTimer(t: nat)
      modifies this
      ensures View() == FireOp(old(View()), t)
    {
      armed := armed - {t};
      if state == Stopped {
        restarts := restarts[t := StopReturned];
      } else {
        state := Stopping;
        restarts := restarts[t := LogStopping];
      }
    }

    method ResumeRestart(t: nat, kills: bool, spawnOk: bool)
      requires t in restarts
      modifies this
      ensures View() == ResumeOp(old(View()), options, t, kills, spawnOk)
    {
      match restarts[t]
      case LogStopping =>
        ClearRestartTimer();
        if childProcess.Child? && !childProcess.killed {
          KillChild(kills);
          restarts := restarts[t := AwaitExit];
        } else {
          state := Stopped;
          restarts := restarts[t := LogStopped];
        }
      case AwaitExit =>
        KillChild(kills);
        state := Stopped;
        restarts := restarts[t := LogStopped];
      case LogStopped =>
        restarts := restarts[t := StopReturned];
      case StopReturned =>
        restartCount := restartCount + 1;
        restarts := restarts[t := LogRestarting];
      case LogRestarting =>
        if options.restartDelay > 0 {
          restarts := restarts[t := Delaying];
        } else {
          restarts := restarts - {t};
          var _ := Start(spawnOk);
        }
      case Delaying =>
        restarts := restarts - {t};
        var _ := Start(spawnOk);
    }

    method Cleanup()
      modifies this
      ensures View() == old(View()).(armed := ClearTimer(old(View())).armed)
    {
      if restartTimer.Some? {
        armed := armed - {restartTimer.value};
      }
    }
  }
}

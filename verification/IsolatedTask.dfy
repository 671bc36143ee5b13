// The wrapper that stops the factory, runs one task, and brings the factory
// back, whatever signals and child events arrive in whatever order.
module IsolatedTask {
  import opened Bytes

  datatype Signal = Interrupt | Terminate | OtherSignal

  datatype Command = StopFactory | RunTask | RemoveTask | StartFactory

  datatype Kill = Kill(child: nat, signal: Signal)

  /** `issued` lists the docker commands; child k is the process of the k-th. */
  datatype State = State(issued: seq<Command>, settled: set<nat>, active: Option<nat>,
                         interruptedBy: Option<Signal>, restoring: bool, finished: bool,
                         early: bool, kills: seq<Kill>, stopExit: int, taskExit: int, startExit: int)

  /** A child may report an error, an exit, or both. */
  datatype Event =
    | SignalArrives(signal: Signal)
    | ChildError(child: nat)
    | ChildExit(child: nat, code: Option<int>, killedBy: Signal)

  function SignalExitCode(s: Signal): int {
    match s
    case Interrupt => 130
    case Terminate => 143
    case OtherSignal => 1
  }

  function Issue(s: State, c: Command): State {
    s.(issued := s.issued + [c], active := Some(|s.issued|))
  }

  function Init(): State {
    Issue(State([], {}, None, None, false, false, false, [], 1, 1, 1), StopFactory)
  }

  /** The `finally` block up to its first await; `early` remembers which way it went. */
  function Restore(s: State): State {
    var s' := s.(restoring := true, early := s.interruptedBy.Some?);
    Issue(s', if s.interruptedBy.Some? then RemoveTask else StartFactory)
  }

  /** What runs when the awaited child settles with a code. */
  function Resume(s: State, c: Command, code: int): State {
    match c
    case StopFactory =>
      var s' := s.(stopExit := code);
      if code == 0 && s.interruptedBy.None? then Issue(s', RunTask) else Restore(s')
    case RunTask => Restore(s.(taskExit := code))
    case RemoveTask => Issue(s, StartFactory)
    case StartFactory => s.(startExit := code, restoring := false, finished := true)
  }

  /** The `finish` closure of a child: only its first report counts. */
  function Settle(s: State, child: nat, code: int): State {
    if child >= |s.issued| || child in s.settled then s
    else
      var s' := s.(settled := s.settled + {child}, active := if s.active == Some(child) then None else s.active);
      Resume(s', s.issued[child], code)
  }

  function Shutdown(s: State, signal: Signal): State {
    if s.finished || s.interruptedBy.Some? then s
    else
      var s' := s.(interruptedBy := Some(signal));
      if !s.restoring && s.active.Some? then s'.(kills := s.kills + [Kill(s.active.value, signal)]) else s'
  }

  function Next(s: State, e: Event): State {
    match e
    case SignalArrives(signal) => if signal.OtherSignal? then s else Shutdown(s, signal)
    case ChildError(child) => Settle(s, child, 1)
    case ChildExit(child, code, killedBy) => Settle(s, child, if code.Some? then code.value else SignalExitCode(killedBy))
  }

  function Replay(s: State, es: seq<Event>): State
    decreases |es|
  {
    if es == [] then s else Replay(Next(s, es[0]), es[1..])
  }

  function ExitCode(s: State): int {
    if s.interruptedBy.Some? then SignalExitCode(s.interruptedBy.value)
    else if s.stopExit != 0 then s.stopExit
    else if s.taskExit != 0 then s.taskExit
    else s.startExit
  }

  // --- every reachable state ------------------------------------------------------------

  /** The only command sequences there are, told by how far the wrapper is. */
  predicate Script(issued: seq<Command>, restoring: bool, early: bool) {
    if !restoring then
      issued == [StopFactory] || issued == [StopFactory, RunTask]
    else if !early then
      issued == [StopFactory, StartFactory] || issued == [StopFactory, RunTask, StartFactory]
    else
      || issued == [StopFactory, RemoveTask] || issued == [StopFactory, RemoveTask, StartFactory]
      || issued == [StopFactory, RunTask, RemoveTask] || issued == [StopFactory, RunTask, RemoveTask, StartFactory]
  }

  predicate Interruptible(c: Command) {
    c.StopFactory? || c.RunTask?
  }

  ghost predicate Sound(s: State) {
    && Script(s.issued, s.restoring || s.finished, s.early)
    && (s.finished ==> s.active.None? && s.issued[|s.issued| - 1].StartFactory?)
    && (!s.finished ==> s.active == Some(|s.issued| - 1))
    && (forall k :: k in s.settled <==> 0 <= k < |s.issued| && (s.finished || k < |s.issued| - 1))
    && (RunTask in s.issued ==> s.stopExit == 0)
    && (forall k :: 0 <= k < |s.kills| ==>
          s.kills[k].child < |s.issued| && Interruptible(s.issued[s.kills[k].child]))
    && (|s.kills| <= if s.interruptedBy.Some? then 1 else 0)
    && (s.early ==> s.interruptedBy.Some?)
    && (s.interruptedBy.Some? ==> !s.interruptedBy.value.OtherSignal?)
    && ((s.restoring || s.finished) && RunTask !in s.issued ==> s.stopExit != 0 || s.interruptedBy.Some?)
  }

  lemma ShutdownSound(s: State, signal: Signal)
    requires Sound(s) && !signal.OtherSignal?
    ensures Sound(Shutdown(s, signal))
  {}

  /** A report of the child that is being awaited, command by command. */
  lemma StopOrTaskDone(s: State, code: int)
    requires Sound(s) && !s.finished && Interruptible(s.issued[|s.issued| - 1])
    ensures Sound(Settle(s, |s.issued| - 1, code))
  {}

  lemma RestorationGoesOn(s: State, code: int)
    requires Sound(s) && !s.finished && !Interruptible(s.issued[|s.issued| - 1])
    ensures Sound(Settle(s, |s.issued| - 1, code))
  {}

  lemma SettleSound(s: State, child: nat, code: int)
    requires Sound(s)
    ensures Sound(Settle(s, child, code))
  {
    if child < |s.issued| && child !in s.settled {
      if Interruptible(s.issued[|s.issued| - 1]) {
        StopOrTaskDone(s, code);
      } else {
        RestorationGoesOn(s, code);
      }
    }
  }

  lemma StepSound(s: State, e: Event)
    requires Sound(s)
    ensures Sound(Next(s, e))
  {
    match e
    case SignalArrives(signal) =>
      if !signal.OtherSignal? {
        ShutdownSound(s, signal);
      }
    case ChildError(child) => SettleSound(s, child, 1);
    case ChildExit(child, code, killedBy) => SettleSound(s, child, if code.Some? then code.value else SignalExitCode(killedBy));
  }

  lemma {:induction false} AlwaysSound(s: State, es: seq<Event>)
    requires Sound(s)
    ensures Sound(Replay(s, es))
    decreases |es|
  {
    if es != [] {
      StepSound(s, es[0]);
      AlwaysSound(Next(s, es[0]), es[1..]);
    }
  }

  lemma InitSound()
    ensures Sound(Init())
  {
    assert Init().issued == [StopFactory];
  }

  /**
   * Main result: whatever arrives and in whatever order, `up` is issued at most
   * once and nothing after it, it has been issued when the wrapper ends, the
   * task runs only after a clean stop, and only the stop or the task is killed.
   */
  lemma FactoryComesBack(es: seq<Event>)
    ensures var s := Replay(Init(), es);
            && (forall k :: 0 <= k < |s.issued| && s.issued[k].StartFactory? ==> k == |s.issued| - 1)
            && (s.finished ==> StartFactory in s.issued)
            && (RunTask in s.issued ==> s.stopExit == 0)
            && (RemoveTask in s.issued ==> s.early && s.interruptedBy.Some?)
            && (s.early && s.finished ==> RemoveTask in s.issued)
            && (forall k :: 0 <= k < |s.kills| ==>
                  s.kills[k].child < |s.issued| && Interruptible(s.issued[s.kills[k].child]))
            && |s.kills| <= 1
  {
    InitSound();
    AlwaysSound(Init(), es);
    var s := Replay(Init(), es);
    LastIsStart(s.issued, s.restoring || s.finished, s.early);
    if s.finished {
      assert s.issued[|s.issued| - 1] in s.issued;
    }
  }

  lemma LastIsStart(issued: seq<Command>, restoring: bool, early: bool)
    requires Script(issued, restoring, early)
    ensures forall k :: 0 <= k < |issued| && issued[k].StartFactory? ==> k == |issued| - 1
    ensures RemoveTask in issued ==> early && restoring
    ensures early && restoring && issued[|issued| - 1].StartFactory? ==> RemoveTask in issued
  {
    if early && restoring {
      assert issued[1].RemoveTask? || issued[2].RemoveTask?;
    }
  }

  /** The task starts only if no signal had arrived when the stop completed. */
  lemma TaskStartsClean(s: State, e: Event)
    requires Sound(s) && RunTask !in s.issued && RunTask in Next(s, e).issued
    ensures s.interruptedBy.None? && Next(s, e).stopExit == 0 && s.issued == [StopFactory]
  {}

  lemma RestorationBegins(s: State, e: Event)
    requires Sound(s) && !s.restoring && !s.finished && Next(s, e).restoring
    ensures Next(s, e).early == s.interruptedBy.Some?
  {}

  lemma StepKeepsEarly(s: State, e: Event)
    requires Sound(s) && (s.restoring || s.finished)
    ensures var next := Next(s, e); next.early == s.early && (next.restoring || next.finished)
  {}

  lemma {:induction false} EarlyStays(s: State, es: seq<Event>)
    requires Sound(s) && (s.restoring || s.finished)
    ensures var later := Replay(s, es); later.early == s.early && (later.restoring || later.finished)
    decreases |es|
  {
    if es != [] {
      StepSound(s, es[0]);
      StepKeepsEarly(s, es[0]);
      EarlyStays(Next(s, es[0]), es[1..]);
    }
  }

  lemma RemovedIffEarly(issued: seq<Command>, early: bool)
    requires Script(issued, true, early)
    ensures RemoveTask in issued <==> early
  {
    if early {
      assert issued[1].RemoveTask? || issued[2].RemoveTask?;
    }
  }

  /** Restoration starts with the removal exactly when a signal came before it. */
  lemma RemoveIffInterruptedBefore(s: State, e: Event, es: seq<Event>)
    requires Sound(s) && !s.restoring && !s.finished && Next(s, e).restoring
    ensures var later := Replay(Next(s, e), es);
            RemoveTask in later.issued <==> s.interruptedBy.Some?
  {
    var next := Next(s, e);
    RestorationBegins(s, e);
    StepSound(s, e);
    AlwaysSound(next, es);
    EarlyStays(next, es);
    var later := Replay(next, es);
    RemovedIffEarly(later.issued, later.early);
  }

  /** Success is reported exactly for an uninterrupted run whose three commands all succeeded. */
  lemma ExitZeroIff(es: seq<Event>)
    ensures var s := Replay(Init(), es);
            s.finished ==>
              (ExitCode(s) == 0 <==>
               s.interruptedBy.None? && RunTask in s.issued && s.stopExit == 0 && s.taskExit == 0 && s.startExit == 0)
  {
    InitSound();
    AlwaysSound(Init(), es);
  }

  // --- it ends ------------------------------------------------------------------------------

  /** How many children can still be awaited. */
  function Remaining(s: State): nat {
    if s.finished || s.issued == [] then 0
    else
      match s.issued[|s.issued| - 1]
      case StopFactory => 4
      case RunTask => 3
      case RemoveTask => 2
      case StartFactory => 1
  }

  /** A report of the child the wrapper awaits. */
  predicate Completes(s: State, e: Event) {
    match e
    case SignalArrives(_) => false
    case ChildError(child) => s.active == Some(child)
    case ChildExit(child, _, _) => s.active == Some(child)
  }

  function Completions(s: State, es: seq<Event>): nat
    decreases |es|
  {
    if es == [] then 0 else (if Completes(s, es[0]) then 1 else 0) + Completions(Next(s, es[0]), es[1..])
  }

  /** Only the awaited child's report does anything, and it uses one up. */
  lemma SettleRemaining(s: State, child: nat, code: int)
    requires Sound(s)
    ensures Remaining(Settle(s, child, code)) + (if s.active == Some(child) then 1 else 0) <= Remaining(s)
  {
    if child < |s.issued| && child !in s.settled {
      AwaitedIsLast(s, child);
    }
  }

  lemma AwaitedIsLast(s: State, child: nat)
    requires Sound(s) && child < |s.issued| && child !in s.settled
    ensures s.issued != [] && child == |s.issued| - 1 && !s.finished && s.active == Some(child)
  {}

  lemma StepRemaining(s: State, e: Event)
    requires Sound(s)
    ensures Remaining(Next(s, e)) + (if Completes(s, e) then 1 else 0) <= Remaining(s)
  {
    match e
    case SignalArrives(signal) =>
    case ChildError(child) => SettleRemaining(s, child, 1);
    case ChildExit(child, code, killedBy) =>
      SettleRemaining(s, child, if code.Some? then code.value else SignalExitCode(killedBy));
  }

  /** Each docker promise settles once and there are at most four; until the end one is always awaited. */
  lemma {:induction false} FourCompletionsEndIt(s: State, es: seq<Event>)
    requires Sound(s)
    ensures Remaining(Replay(s, es)) + Completions(s, es) <= Remaining(s)
    ensures Replay(s, es).finished <==> Replay(s, es).active.None?
    decreases |es|
  {
    if es != [] {
      StepRemaining(s, es[0]);
      StepSound(s, es[0]);
      FourCompletionsEndIt(Next(s, es[0]), es[1..]);
    }
  }

  lemma StepSettlesOne(s: State, e: Event)
    requires Sound(s)
    ensures Next(s, e).settled == s.settled + (if Completes(s, e) then {|s.issued| - 1} else {})
    ensures Completes(s, e) ==> s.issued != [] && |s.issued| - 1 !in s.settled
  {
    match e
    case SignalArrives(_) =>
    case ChildError(child) =>
      if child < |s.issued| && child !in s.settled {
        AwaitedIsLast(s, child);
      }
    case ChildExit(child, _, _) =>
      if child < |s.issued| && child !in s.settled {
        AwaitedIsLast(s, child);
      }
  }

  lemma {:induction false} CompletionsSettle(s: State, es: seq<Event>)
    requires Sound(s)
    ensures |Replay(s, es).settled| == |s.settled| + Completions(s, es)
    decreases |es|
  {
    if es != [] {
      StepSettlesOne(s, es[0]);
      StepSound(s, es[0]);
      CompletionsSettle(Next(s, es[0]), es[1..]);
    }
  }

  lemma {:induction false} FirstChildren(settled: set<nat>, n: nat)
    requires forall k :: k in settled <==> 0 <= k < n
    ensures |settled| == n
    decreases n
  {
    if n > 0 {
      FirstChildren(settled - {n - 1}, n - 1);
    } else {
      assert settled == {};
    }
  }

  /** There are at most four commands; the wrapper has ended exactly when each of them has completed, once. */
  lemma EndsWithItsCommands(es: seq<Event>)
    ensures var s, n := Replay(Init(), es), Completions(Init(), es);
            && |s.issued| <= 4 && n <= |s.issued| <= n + 1
            && (s.finished <==> n == |s.issued|)
  {
    InitSound();
    AlwaysSound(Init(), es);
    CompletionsSettle(Init(), es);
    var s := Replay(Init(), es);
    FirstChildren(s.settled, if s.finished then |s.issued| else |s.issued| - 1);
  }

  // --- what each report and each signal does ------------------------------------------------

  /** The code a report of a child stands for. */
  lemma ReportedCode(s: State, child: nat, code: int, killedBy: Signal)
    ensures Next(s, ChildError(child)) == Next(s, ChildExit(child, Some(1), killedBy))
    ensures Next(s, ChildExit(child, Some(code), killedBy)) == Next(s, ChildExit(child, Some(code), OtherSignal))
    ensures Next(s, ChildExit(child, None, Interrupt)) == Next(s, ChildExit(child, Some(130), OtherSignal))
    ensures Next(s, ChildExit(child, None, Terminate)) == Next(s, ChildExit(child, Some(143), OtherSignal))
    ensures Next(s, ChildExit(child, None, OtherSignal)) == Next(s, ChildExit(child, Some(1), OtherSignal))
  {}

  /**
   * The first signal is remembered and forwarded to the child that is being
   * awaited; during restoration it is only remembered; after it, and after the
   * end, signals do nothing.
   */
  lemma FirstSignalIsForwarded(s: State, signal: Signal)
    requires signal.Interrupt? || signal.Terminate?
    ensures var s' := Next(s, SignalArrives(signal));
            && s' == s.(interruptedBy := s'.interruptedBy, kills := s'.kills)
            && (if s.finished || s.interruptedBy.Some? then s' == s
                else s'.interruptedBy == Some(signal)
                     && s'.kills == if !s.restoring && s.active.Some? then s.kills + [Kill(s.active.value, signal)]
                                    else s.kills)
  {}

  function Answer(child: nat, code: int): Event {
    ChildExit(child, Some(code), OtherSignal)
  }

  /** Nothing interferes: stop, task, up; the first failure is the exit code, and no answer yet is a failure. */
  lemma QuietRun(task: int, start: int)
    ensures var stopped := Next(Init(), Answer(0, 0));
            var worked := Next(stopped, Answer(1, task));
            var done := Next(worked, Answer(2, start));
            && Init().issued == [StopFactory] && stopped.issued == [StopFactory, RunTask]
            && worked.issued == done.issued == [StopFactory, RunTask, StartFactory]
            && ExitCode(Init()) == ExitCode(stopped) == 1 && (task == 0 ==> ExitCode(worked) == 1)
            && worked.restoring && !done.restoring && done.finished && done.kills == []
            && ExitCode(done) == if task != 0 then task else start
  {}

  /** A stop that fails: no task, but `up` all the same, and the stop's exit code. */
  lemma FailedStop(stop: int, start: int)
    requires stop != 0
    ensures var done := Next(Next(Init(), Answer(0, stop)), Answer(1, start));
            && done.issued == [StopFactory, StartFactory] && done.finished && ExitCode(done) == stop
  {}

  /** A signal during the task: the task is killed with it and removed before `up`. */
  lemma InterruptedTask(signal: Signal, task: int, remove: int, start: int)
    requires signal.Interrupt? || signal.Terminate?
    ensures var s := Next(Next(Init(), Answer(0, 0)), SignalArrives(signal));
            var done := Next(Next(Next(s, Answer(1, task)), Answer(2, remove)), Answer(3, start));
            && done.kills == [Kill(1, signal)] && done.finished
            && done.issued == [StopFactory, RunTask, RemoveTask, StartFactory]
            && ExitCode(done) == if signal.Interrupt? then 130 else 143
  {}

  // --- the module's variables ------------------------------------------------------------------

  class Wrapper {
    var issued: seq<Command>
    var settled: set<nat>
    var activeChild: Option<nat>
    var interruptedBy: Option<Signal>
    var restoringFactory: bool
    var finished: bool
    var early: bool
    var kills: seq<Kill>
    var stopExit: int
    var taskExit: int
    var startExit: int

    constructor ()
      ensures View() == Init()
    {
      issued, settled, activeChild, interruptedBy := [], {}, None, None;
      restoringFactory, finished, early, kills := false, false, false, [];
      stopExit, taskExit, startExit := 1, 1, 1;
      new;
      RunDocker(StopFactory);
    }

    function View(): State
      reads this
    {
      State(issued, settled, activeChild, interruptedBy, restoringFactory, finished, early, kills,
            stopExit, taskExit, startExit)
    }

    method RunDocker(c: Command)
      modifies this
      ensures View() == Issue(old(View()), c)
    {
      activeChild := Some(|issued|);
      issued := issued + [c];
    }

    /** The first signal counts; it reaches the awaited child unless the factory is being restored. */
    method HandleShutdown(signal: Signal)
      modifies this
      ensures View() == Shutdown(old(View()), signal)
      ensures kills == if old(finished) || old(interruptedBy).Some? || old(restoringFactory) || old(activeChild).None?
                       then old(kills) else old(kills) + [Kill(old(activeChild).value, signal)]
      ensures interruptedBy == if old(finished) || old(interruptedBy).Some? then old(interruptedBy) else Some(signal)
      ensures issued == old(issued)
      ensures Sound(old(View())) && !signal.OtherSignal? ==> Sound(View()) && |kills| <= 1
      ensures Sound(old(View())) && kills != old(kills) ==> Interruptible(issued[|issued| - 1])
    {
      if !signal.OtherSignal? && Sound(View()) {
        ShutdownSound(View(), signal);
      }
      if finished || interruptedBy.Some? {
        return;
      }
      interruptedBy := Some(signal);
      if !restoringFactory && activeChild.Some? {
        kills := kills + [Kill(activeChild.value, signal)];
      }
    }

    method EnterFinally()
      modifies this
      ensures View() == Restore(old(View()))
    {
      restoringFactory := true;
      early := interruptedBy.Some?;
      if interruptedBy.Some? {
        RunDocker(RemoveTask);
      } else {
        RunDocker(StartFactory);
      }
    }

    /** What goes on when the awaited promise of a command settles. */
    method GoOn(c: Command, code: int)
      modifies this
      ensures View() == Resume(old(View()), c, code)
    {
      match c {
        case StopFactory =>
          stopExit := code;
          if stopExit == 0 && interruptedBy.None? {
            RunDocker(RunTask);
          } else {
            EnterFinally();
          }
        case RunTask =>
          taskExit := code;
          EnterFinally();
        case RemoveTask =>
          RunDocker(StartFactory);
        case StartFactory =>
          startExit := code;
          restoringFactory := false;
          finished := true;
      }
    }

    /** A child's `error` or `exit` handler: only its first report does anything. */
    method Finish(child: nat, code: int)
      modifies this
      ensures View() == Settle(old(View()), child, code)
      ensures child >= |old(issued)| || child in old(settled) ==> View() == old(View())
      ensures Sound(old(View())) ==> Sound(View())
      ensures Sound(old(View())) && old(activeChild) == Some(child) ==> Remaining(View()) < Remaining(old(View()))
    {
      if Sound(View()) {
        SettleSound(View(), child, code);
        SettleRemaining(View(), child, code);
      }
      if child >= |issued| || child in settled {
        return;
      }
      settled := settled + {child};
      if activeChild == Some(child) {
        activeChild := None;
      }
      GoOn(issued[child], code);
    }
  }
}

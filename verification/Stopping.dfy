/** A stop command can return before the server has exited: the descriptor goes
    first, the lock later, so a server started right away may be turned away. */
module Stopping {
  import opened Wrappers
  import opened Lifecycle

  /** The stop command has returned, and its server still holds the lock. */
  predicate ReturnedEarly(w: World, s: nat) {
    s in w.stoppers && w.stoppers[s].Gone? && w.lock == Some(w.stoppers[s].server)
  }

  ghost predicate CanReturnEarly(renames: bool, w: World, s: nat) {
    exists steps :: IsRun(renames, w, steps) && ReturnedEarly(End(renames, w, steps), s)
  }

  /** A server that drains on its own: no crash, no failed task. */
  predicate IsGraceful(step: Step) {
    !step.Crash? && (step.TaskEnds? ==> !step.failed)
  }

  predicate Polls(w: World, s: nat, p: nat) {
    && s in w.stoppers && w.stoppers[s].Polling? && w.stoppers[s].server == p && p in w.processes
  }

  function TaskLeft(task: Task): nat {
    if task.Up? then task.inFlight + 1 else 0
  }

  function StageLeft(stage: Stage): nat {
    match stage
    case Serving => 4
    case Draining => 3
    case IngressFinished => 2
    case ControlFinished => 1
    case _ => 0
  }

  /** How many steps a server takes until it has removed its descriptor. */
  function DrainLeft(process: Process): nat {
    StageLeft(process.stage) + TaskLeft(process.ingress) + TaskLeft(process.control)
  }

  /** What a cancelled server that still has its descriptor does next. */
  function NextStep(process: Process, p: nat): Step {
    match process.stage
    case Draining =>
      if !process.ingress.Up? then FinishIngress(p)
      else if process.ingress.inFlight > 0 then RequestEnds(p, true) else TaskEnds(p, true, false)
    case IngressFinished =>
      if !process.control.Up? then FinishControl(p)
      else if process.control.inFlight > 0 then RequestEnds(p, false) else TaskEnds(p, false, false)
    case ControlFinished => RemoveDescriptor(p)
    case _ => Select(p)
  }

  lemma DrainsOn(renames: bool, w: World, p: nat)
    requires p in w.processes && ProcessInv(w, p, w.processes[p]) && w.processes[p].cancelled
    requires OnDisk(w.processes[p].stage) && !w.processes[p].stage.Published?
    ensures var step := NextStep(w.processes[p], p);
            && Enabled(renames, w, step) && IsGraceful(step)
            && var w' := Apply(renames, w, step);
               && p in w'.processes && w'.processes[p].cancelled && w'.stoppers == w.stoppers
               && DrainLeft(w'.processes[p]) < DrainLeft(w.processes[p])
               && HasTasks(w'.processes[p].stage)
  {
  }

  /** A live server that a stop command polls can drain in peace, and the command
      returns before the server gives up the lock. */
  lemma {:induction false} PollReturnsEarly(renames: bool, w: World, s: nat, p: nat) returns (steps: seq<Step>)
    requires Inv(w) && Polls(w, s, p) && HasTasks(w.processes[p].stage)
    ensures IsRun(renames, w, steps) && ReturnedEarly(End(renames, w, steps), s)
    ensures var last := End(renames, w, steps); Is(last, p, Unpublished) && last.stoppers[s] == Gone(p)
    ensures forall step :: step in steps ==> IsGraceful(step)
    decreases DrainLeft(w.processes[p])
  {
    if w.processes[p].stage.Unpublished? {
      var last := Apply(renames, w, Poll(s));
      assert IsRun(renames, last, [Poll(s)][1..]);
      return [Poll(s)];
    }
    DrainsOn(renames, w, p);
    var step := NextStep(w.processes[p], p);
    StepKeepsInv(renames, w, step);
    steps := PollReturnsEarly(renames, Apply(renames, w, step), s, p);
    assert ([step] + steps)[1..] == steps;
    steps := [step] + steps;
  }

  /** The server that stop command `s` has asked is gone. */
  predicate AskedDead(w: World, s: nat, p: nat) {
    && s in w.stoppers && w.stoppers[s].server == p
    && p in w.processes && !Alive(w.processes[p].stage)
  }

  lemma StepKeepsDead(renames: bool, w: World, step: Step, s: nat, p: nat)
    requires AskedDead(w, s, p) && Enabled(renames, w, step)
    ensures AskedDead(Apply(renames, w, step), s, p)
  {
  }

  lemma {:induction false} RunKeepsDead(renames: bool, w: World, steps: seq<Step>, s: nat, p: nat)
    requires AskedDead(w, s, p) && IsRun(renames, w, steps)
    ensures AskedDead(End(renames, w, steps), s, p)
    decreases |steps|
  {
    if steps != [] {
      StepKeepsDead(renames, w, steps[0], s, p);
      RunKeepsDead(renames, Apply(renames, w, steps[0]), steps[1..], s, p);
    }
  }

  lemma NeverEarlyOnceDead(renames: bool, w: World, steps: seq<Step>, s: nat, p: nat)
    requires Inv(w) && AskedDead(w, s, p) && IsRun(renames, w, steps)
    ensures !ReturnedEarly(End(renames, w, steps), s)
  {
    RunKeepsDead(renames, w, steps, s, p);
    RunKeepsInv(renames, w, steps);
    var last := End(renames, w, steps);
    assert ProcessInv(last, p, last.processes[p]);
  }

  /** While a stop command polls, it can still return before its server has exited
      if and only if that server is alive, however long it has been draining and
      whatever else goes on. */
  lemma StopCanReturnEarly(renames: bool, past: seq<Step>, s: nat)
    requires IsRun(renames, START, past)
    requires var w := End(renames, START, past); s in w.stoppers && w.stoppers[s].Polling?
    ensures var w := End(renames, START, past);
            && w.stoppers[s].server in w.processes
            && (CanReturnEarly(renames, w, s) <==> Alive(w.processes[w.stoppers[s].server].stage))
  {
    RunKeepsInv(renames, START, past);
    var w := End(renames, START, past);
    var p := w.stoppers[s].server;
    assert ProcessInv(w, p, w.processes[p]);
    if Alive(w.processes[p].stage) {
      var steps := PollReturnsEarly(renames, w, s, p);
    } else {
      forall steps | IsRun(renames, w, steps)
        ensures !ReturnedEarly(End(renames, w, steps), s)
      {
        NeverEarlyOnceDead(renames, w, steps, s, p);
      }
    }
  }

  /** A world with one server and one stop command. */
  function One(server: Process, descriptor: Option<nat>, stoppers: map<nat, Stopper>): World {
    World(0, map[0 := server], Some(0), descriptor, stoppers)
  }

  lemma Extend(w: World, step: Step, next: World, steps: seq<Step>)
    requires Enabled(true, w, step) && Apply(true, w, step) == next && IsRun(true, next, steps)
    ensures IsRun(true, w, [step] + steps) && End(true, w, [step] + steps) == End(true, next, steps)
  {
    assert ([step] + steps)[1..] == steps;
  }

  function Idle(stage: Stage): Process {
    Process(stage, Unborn, Unborn, false)
  }

  const BUSY := Process(Serving, Up(0), Up(0), false)
  const ASKING := One(Process(Serving, Up(0), Up(0), true), Some(0), map[0 := Polling(0, STOP_WAIT_TIMEOUT)])

  /** A stop command finds the descriptor and has its request accepted. */
  lemma Ask(steps: seq<Step>)
    requires IsRun(true, ASKING, steps)
    ensures var w := One(Idle(Published), Some(0), map[]);
            var all := [SpawnTasks(0)] + ([ReadDescriptor(0)] + ([AcceptShutdown(0)] + steps));
            IsRun(true, w, all) && End(true, w, all) == End(true, ASKING, steps)
  {
    var w1 := One(Idle(Published), Some(0), map[]);
    var w2 := One(BUSY, Some(0), map[]);
    var w3 := One(BUSY, Some(0), map[0 := Sent(0)]);
    Accept(w3);
    Extend(w3, AcceptShutdown(0), ASKING, steps);
    Extend(w2, ReadDescriptor(0), w3, [AcceptShutdown(0)] + steps);
    assert Apply(true, w1, SpawnTasks(0)).processes == w2.processes;
    Extend(w1, SpawnTasks(0), w2, [ReadDescriptor(0)] + ([AcceptShutdown(0)] + steps));
  }

  lemma Accept(w: World)
    requires w == One(BUSY, Some(0), map[0 := Sent(0)])
    ensures Enabled(true, w, AcceptShutdown(0)) && Apply(true, w, AcceptShutdown(0)) == ASKING
  {
    assert Apply(true, w, AcceptShutdown(0)).processes == ASKING.processes;
    assert Apply(true, w, AcceptShutdown(0)).stoppers == ASKING.stoppers;
  }

  /** The first server starts up. */
  lemma StartUp(steps: seq<Step>)
    requires IsRun(true, One(Idle(Published), Some(0), map[]), steps)
    ensures var all := [Launch(0)] + ([TryLock(0)] + ([Bind(0, true)] + ([Rename(0)] + steps)));
            IsRun(true, START, all) && End(true, START, all) == End(true, One(Idle(Published), Some(0), map[]), steps)
  {
    var w1 := World(0, map[0 := Idle(Starting)], None, None, map[]);
    var w2 := One(Idle(Locked), None, map[]);
    var w3 := One(Idle(Listening), None, map[]);
    var w4 := One(Idle(Published), Some(0), map[]);
    assert Apply(true, w3, Rename(0)).processes == w4.processes;
    Extend(w3, Rename(0), w4, steps);
    assert Apply(true, w2, Bind(0, true)).processes == w3.processes;
    Extend(w2, Bind(0, true), w3, [Rename(0)] + steps);
    assert Apply(true, w1, TryLock(0)).processes == w2.processes;
    Extend(w1, TryLock(0), w2, [Bind(0, true)] + ([Rename(0)] + steps));
    Extend(START, Launch(0), w1, [TryLock(0)] + ([Bind(0, true)] + ([Rename(0)] + steps)));
  }

  /** A run after which the stop command has returned, and a new server finds the
      lock taken by the one that was stopped. */
  lemma StopReturnsBeforeExit() returns (steps: seq<Step>)
    ensures IsRun(true, START, steps)
    ensures var w := End(true, START, steps);
            && 0 in w.stoppers && w.stoppers[0] == Gone(0)
            && w.lock == Some(0) && Is(w, 0, Unpublished)
  {
    var draining := PollReturnsEarly(true, ASKING, 0, 0);
    Ask(draining);
    var asking := [SpawnTasks(0)] + ([ReadDescriptor(0)] + ([AcceptShutdown(0)] + draining));
    StartUp(asking);
    steps := [Launch(0)] + ([TryLock(0)] + ([Bind(0, true)] + ([Rename(0)] + asking)));
  }
}

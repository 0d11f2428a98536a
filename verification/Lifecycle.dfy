/** Server processes that compete for one instance lock and one descriptor file,
    and commands that stop them. Any process may crash between any two of its
    steps; the operating system then frees its lock and leaves its files. */
module Lifecycle {
  import opened Wrappers
  import opened Protocol

  const STOP_WAIT_TIMEOUT: nat := 15 * SECOND

  /** A listener's task. It ends on its own only after cancellation and without a
      request in flight; otherwise it has failed. `abandoned` counts the requests
      that were in flight when it ended. */
  datatype Task = Unborn | Up(inFlight: nat) | Over(failed: bool, abandoned: nat)

  /** How far a server has got. */
  datatype Stage =
    | Starting
    | Locked
    | Listening
    | Replacing
    | Published
    | Serving
    | Draining
    | IngressFinished
    | ControlFinished
    | Unpublished
    | Exited(published: bool)
    | Crashed(published: bool)

  datatype Process = Process(stage: Stage, ingress: Task, control: Task, cancelled: bool)

  /** A stop command: it has read the descriptor of a server, has had its request
      accepted and polls the file, or is done. */
  datatype Stopper = Sent(server: nat) | Polling(server: nat, deadline: nat) | Gone(server: nat) | GaveUp(server: nat)

  datatype World = World(
    clock: nat,
    processes: map<nat, Process>,
    lock: Option<nat>,
    descriptor: Option<nat>,
    stoppers: map<nat, Stopper>)

  datatype Step =
    | Tick(elapsed: nat)
    | Launch(p: nat)
    | TryLock(p: nat)
    | Bind(p: nat, succeeds: bool)
    | RemoveOld(p: nat)
    | Rename(p: nat)
    | PublishFails(p: nat)
    | SpawnTasks(p: nat)
    | RequestArrives(p: nat, onIngress: bool)
    | RequestEnds(p: nat, onIngress: bool)
    | TaskEnds(p: nat, onIngress: bool, failed: bool)
    | Select(p: nat)
    | FinishIngress(p: nat)
    | FinishControl(p: nat)
    | RemoveDescriptor(p: nat)
    | Unlock(p: nat)
    | Crash(p: nat)
    | ReadDescriptor(s: nat)
    | AcceptShutdown(s: nat)
    | Poll(s: nat)

  const START := World(0, map[], None, None, map[])

  predicate Is(w: World, p: nat, stage: Stage) {
    p in w.processes && w.processes[p].stage == stage
  }

  predicate HoldsLock(stage: Stage) {
    !stage.Starting? && !stage.Exited? && !stage.Crashed?
  }

  /** Between its rename and its removal of the descriptor. */
  predicate OnDisk(stage: Stage) {
    stage.Published? || stage.Serving? || stage.Draining? || stage.IngressFinished? || stage.ControlFinished?
  }

  predicate HasPublished(stage: Stage) {
    OnDisk(stage) || stage.Unpublished? || (stage.Exited? && stage.published) || (stage.Crashed? && stage.published)
  }

  function TaskOf(w: World, p: nat, onIngress: bool): Task
    requires p in w.processes
  {
    if onIngress then w.processes[p].ingress else w.processes[p].control
  }

  predicate Alive(stage: Stage) {
    !stage.Exited? && !stage.Crashed?
  }

  /** `renames` says whether a rename replaces an existing file in one step, as
      on Unix; elsewhere the old descriptor is removed first. */
  predicate Enabled(renames: bool, w: World, step: Step) {
    match step
    case Tick(_) => true
    case Launch(p) => p !in w.processes
    case TryLock(p) => Is(w, p, Starting)
    case Bind(p, _) => Is(w, p, Locked)
    case RemoveOld(p) => !renames && Is(w, p, Listening)
    case Rename(p) => if renames then Is(w, p, Listening) else Is(w, p, Replacing)
    case PublishFails(p) => Is(w, p, Listening) || Is(w, p, Replacing)
    case SpawnTasks(p) => Is(w, p, Published)
    case RequestArrives(p, onIngress) =>
      && p in w.processes && Alive(w.processes[p].stage)
      && TaskOf(w, p, onIngress).Up? && !w.processes[p].cancelled
    case RequestEnds(p, onIngress) =>
      && p in w.processes && Alive(w.processes[p].stage)
      && TaskOf(w, p, onIngress).Up? && 0 < TaskOf(w, p, onIngress).inFlight
    case TaskEnds(p, onIngress, failed) =>
      && p in w.processes && Alive(w.processes[p].stage) && TaskOf(w, p, onIngress).Up?
      && (failed || (w.processes[p].cancelled && TaskOf(w, p, onIngress).inFlight == 0))
    case Select(p) => Is(w, p, Serving)
    case FinishIngress(p) => Is(w, p, Draining) && w.processes[p].ingress.Over?
    case FinishControl(p) => Is(w, p, IngressFinished) && w.processes[p].control.Over?
    case RemoveDescriptor(p) => Is(w, p, ControlFinished)
    case Unlock(p) => Is(w, p, Unpublished)
    case Crash(p) => p in w.processes && Alive(w.processes[p].stage)
    case ReadDescriptor(s) => s !in w.stoppers && w.descriptor.Some?
    case AcceptShutdown(s) =>
      && s in w.stoppers && w.stoppers[s].Sent?
      && w.stoppers[s].server in w.processes && Alive(w.processes[w.stoppers[s].server].stage)
      && w.processes[w.stoppers[s].server].control.Up?
    case Poll(s) => s in w.stoppers && w.stoppers[s].Polling?
  }

  function Go(w: World, p: nat, stage: Stage): World
    requires p in w.processes
  {
    w.(processes := w.processes[p := w.processes[p].(stage := stage)])
  }

  function WithTask(w: World, p: nat, onIngress: bool, task: Task): World
    requires p in w.processes
  {
    w.(processes := w.processes[p :=
      if onIngress then w.processes[p].(ingress := task) else w.processes[p].(control := task)])
  }

  function Apply(renames: bool, w: World, step: Step): World
    requires Enabled(renames, w, step)
  {
    match step
    case Tick(elapsed) => w.(clock := w.clock + elapsed)
    case Launch(p) => w.(processes := w.processes[p := Process(Starting, Unborn, Unborn, false)])
    case TryLock(p) =>
      if w.lock.Some? then Go(w, p, Exited(false)) else Go(w, p, Locked).(lock := Some(p))
    case Bind(p, succeeds) =>
      if succeeds then Go(w, p, Listening) else Go(w, p, Exited(false)).(lock := None)
    case RemoveOld(p) => Go(w, p, Replacing).(descriptor := None)
    case Rename(p) => Go(w, p, Published).(descriptor := Some(p))
    case PublishFails(p) => Go(w, p, Exited(false)).(lock := None)
    case SpawnTasks(p) => WithTask(WithTask(Go(w, p, Serving), p, true, Up(0)), p, false, Up(0))
    case RequestArrives(p, onIngress) => WithTask(w, p, onIngress, Up(TaskOf(w, p, onIngress).inFlight + 1))
    case RequestEnds(p, onIngress) => WithTask(w, p, onIngress, Up(TaskOf(w, p, onIngress).inFlight - 1))
    case TaskEnds(p, onIngress, failed) => WithTask(w, p, onIngress, Over(failed, TaskOf(w, p, onIngress).inFlight))
    case Select(p) => w.(processes := w.processes[p := w.processes[p].(stage := Draining, cancelled := true)])
    case FinishIngress(p) => Go(w, p, IngressFinished)
    case FinishControl(p) => Go(w, p, ControlFinished)
    case RemoveDescriptor(p) => Go(w, p, Unpublished).(descriptor := None)
    case Unlock(p) => Go(w, p, Exited(true)).(lock := None)
    case Crash(p) =>
      Go(w, p, Crashed(HasPublished(w.processes[p].stage))).(lock := if w.lock == Some(p) then None else w.lock)
    case ReadDescriptor(s) => w.(stoppers := w.stoppers[s := Sent(w.descriptor.value)])
    case AcceptShutdown(s) =>
      var p := w.stoppers[s].server;
      w.(processes := w.processes[p := w.processes[p].(cancelled := true)],
         stoppers := w.stoppers[s := Polling(p, w.clock + STOP_WAIT_TIMEOUT)])
    case Poll(s) =>
      if w.descriptor.None? then w.(stoppers := w.stoppers[s := Gone(w.stoppers[s].server)])
      else if w.stoppers[s].deadline <= w.clock then w.(stoppers := w.stoppers[s := GaveUp(w.stoppers[s].server)])
      else w
  }

  predicate IsRun(renames: bool, w: World, steps: seq<Step>)
    decreases |steps|
  {
    steps == [] || (Enabled(renames, w, steps[0]) && IsRun(renames, Apply(renames, w, steps[0]), steps[1..]))
  }

  function End(renames: bool, w: World, steps: seq<Step>): World
    requires IsRun(renames, w, steps)
    decreases |steps|
  {
    if steps == [] then w else End(renames, Apply(renames, w, steps[0]), steps[1..])
  }

  /** A process past its last listener task. */
  predicate Drained(p: Process) {
    p.ingress.Over? && p.control.Over?
  }

  /** A task that ended without failing was told to, and left no request behind. */
  predicate EndedCleanly(p: Process, task: Task) {
    task.Over? && !task.failed ==> p.cancelled && task.abandoned == 0
  }

  /** Past the start of its tasks and before its exit. */
  predicate HasTasks(stage: Stage) {
    (OnDisk(stage) && !stage.Published?) || stage.Unpublished?
  }

  /** Past the point at which the server tells its tasks to end. */
  predicate IsPastServing(stage: Stage) {
    || stage.Draining? || stage.IngressFinished? || stage.ControlFinished? || stage.Unpublished?
    || stage == Exited(true)
  }

  ghost predicate ProcessInv(w: World, p: nat, process: Process) {
    && (HoldsLock(process.stage) <==> w.lock == Some(p))
    && (OnDisk(process.stage) ==> w.descriptor == Some(p))
    && (process.stage.Unpublished? ==> w.descriptor.None?)
    && (process.stage.Published? || !HasPublished(process.stage) ==> process.control.Unborn?)
    && (HasTasks(process.stage) ==> !process.control.Unborn?)
    && (process.ingress.Unborn? <==> process.control.Unborn?)
    && (IsPastServing(process.stage) ==> process.cancelled)
    && (process.stage.IngressFinished? || process.stage.ControlFinished? ==> process.ingress.Over?)
    && (process.stage.ControlFinished? ==> process.control.Over?)
    && (process.stage.Unpublished? || process.stage == Exited(true) ==> Drained(process))
    && EndedCleanly(process, process.ingress) && EndedCleanly(process, process.control)
  }

  ghost predicate Inv(w: World) {
    && (forall p :: p in w.processes ==> ProcessInv(w, p, w.processes[p]))
    && (w.lock.Some? ==> w.lock.value in w.processes)
    && (w.descriptor.Some? ==>
          && w.descriptor.value in w.processes
          && (OnDisk(w.processes[w.descriptor.value].stage) || w.processes[w.descriptor.value].stage == Crashed(true)))
    && (forall s :: s in w.stoppers ==>
          var stopper := w.stoppers[s];
          && stopper.server in w.processes && HasPublished(w.processes[stopper.server].stage)
          && (!stopper.Sent? ==>
                w.processes[stopper.server].cancelled && !w.processes[stopper.server].control.Unborn?)
          && (stopper.Gone? ==> !OnDisk(w.processes[stopper.server].stage)))
  }

  /** What never changes back in the life of a process. */
  predicate Follows(before: Process, after: Process) {
    && (HasPublished(before.stage) ==> HasPublished(after.stage))
    && (HasPublished(before.stage) && !OnDisk(before.stage) ==> !OnDisk(after.stage))
    && (before.cancelled ==> after.cancelled)
    && (!before.control.Unborn? ==> !after.control.Unborn?)
    && (!Alive(before.stage) ==> !Alive(after.stage))
  }

  /** A step of one process keeps the invariant if it is right for that process,
      takes the lock only when it is free, gives up no lock but its own, and
      touches the descriptor only under the lock. */
  lemma OneProcessChanges(w: World, w': World, p: nat)
    requires Inv(w) && p in w'.processes
    requires w'.processes == w.processes[p := w'.processes[p]] && w'.stoppers == w.stoppers
    requires ProcessInv(w', p, w'.processes[p])
    requires p in w.processes ==> Follows(w.processes[p], w'.processes[p])
    requires w'.lock != w.lock ==>
               (w.lock.None? && w'.lock == Some(p)) || (w.lock == Some(p) && w'.lock.None?)
    requires w'.descriptor != w.descriptor ==>
               (w.lock == Some(p) || w'.lock == Some(p)) && (w'.descriptor.None? || w'.descriptor == Some(p))
    requires w'.descriptor == Some(p) ==>
               OnDisk(w'.processes[p].stage) || w'.processes[p].stage == Crashed(true)
    ensures Inv(w')
  {
    forall r | r in w'.processes
      ensures ProcessInv(w', r, w'.processes[r])
    {
      if r != p {
        assert ProcessInv(w, r, w.processes[r]);
      }
    }
    forall s | s in w'.stoppers
      ensures var stopper := w'.stoppers[s];
              && stopper.server in w'.processes && HasPublished(w'.processes[stopper.server].stage)
              && (!stopper.Sent? ==>
                    w'.processes[stopper.server].cancelled && !w'.processes[stopper.server].control.Unborn?)
              && (stopper.Gone? ==> !OnDisk(w'.processes[stopper.server].stage))
    {
      assert s in w.stoppers;
    }
  }

  predicate Starts(step: Step) {
    step.Launch? || step.TryLock?
  }

  predicate Publishes(step: Step) {
    step.RemoveOld? || step.Rename? || step.SpawnTasks?
  }

  predicate Serves(step: Step) {
    step.RequestArrives? || step.RequestEnds? || step.TaskEnds?
  }

  predicate Drains(step: Step) {
    step.Select? || step.FinishIngress? || step.FinishControl?
  }

  predicate Leaves(step: Step) {
    step.RemoveDescriptor? || step.Unlock? || step.Crash?
  }

  lemma StartingKeepsInv(renames: bool, w: World, step: Step)
    requires Inv(w) && Enabled(renames, w, step)
    requires Starts(step)
    ensures Inv(Apply(renames, w, step))
  {
    OneProcessChanges(w, Apply(renames, w, step), step.p);
  }

  lemma BindingKeepsInv(renames: bool, w: World, step: Step)
    requires Inv(w) && Enabled(renames, w, step) && step.Bind?
    ensures Inv(Apply(renames, w, step))
  {
    OneProcessChanges(w, Apply(renames, w, step), step.p);
  }

  lemma FailingKeepsInv(renames: bool, w: World, step: Step)
    requires Inv(w) && Enabled(renames, w, step) && step.PublishFails?
    ensures Inv(Apply(renames, w, step))
  {
    OneProcessChanges(w, Apply(renames, w, step), step.p);
  }

  lemma PublishingKeepsInv(renames: bool, w: World, step: Step)
    requires Inv(w) && Enabled(renames, w, step)
    requires Publishes(step)
    ensures Inv(Apply(renames, w, step))
  {
    OneProcessChanges(w, Apply(renames, w, step), step.p);
  }

  lemma ServingKeepsInv(renames: bool, w: World, step: Step)
    requires Inv(w) && Enabled(renames, w, step)
    requires Serves(step)
    ensures Inv(Apply(renames, w, step))
  {
    OneProcessChanges(w, Apply(renames, w, step), step.p);
  }

  lemma DrainingKeepsInv(renames: bool, w: World, step: Step)
    requires Inv(w) && Enabled(renames, w, step)
    requires Drains(step)
    ensures Inv(Apply(renames, w, step))
  {
    OneProcessChanges(w, Apply(renames, w, step), step.p);
  }

  lemma LeavingKeepsInv(renames: bool, w: World, step: Step)
    requires Inv(w) && Enabled(renames, w, step)
    requires Leaves(step)
    ensures Inv(Apply(renames, w, step))
  {
    OneProcessChanges(w, Apply(renames, w, step), step.p);
  }

  lemma StoppersKeepInv(renames: bool, w: World, step: Step)
    requires Inv(w) && Enabled(renames, w, step)
    requires step.Tick? || step.ReadDescriptor? || step.Poll?
    ensures Inv(Apply(renames, w, step))
  {
  }

  lemma AcceptingKeepsInv(renames: bool, w: World, s: nat)
    requires Inv(w) && Enabled(renames, w, AcceptShutdown(s))
    ensures Inv(Apply(renames, w, AcceptShutdown(s)))
  {
  }

  lemma StepKeepsInv(renames: bool, w: World, step: Step)
    requires Inv(w) && Enabled(renames, w, step)
    ensures Inv(Apply(renames, w, step))
  {
    if Starts(step) {
      StartingKeepsInv(renames, w, step);
    } else if step.Bind? {
      BindingKeepsInv(renames, w, step);
    } else if step.PublishFails? {
      FailingKeepsInv(renames, w, step);
    } else if Publishes(step) {
      PublishingKeepsInv(renames, w, step);
    } else if Serves(step) {
      ServingKeepsInv(renames, w, step);
    } else if Drains(step) {
      DrainingKeepsInv(renames, w, step);
    } else if Leaves(step) {
      LeavingKeepsInv(renames, w, step);
    } else if step.AcceptShutdown? {
      AcceptingKeepsInv(renames, w, step.s);
    } else {
      StoppersKeepInv(renames, w, step);
    }
  }

  lemma {:induction false} RunKeepsInv(renames: bool, w: World, steps: seq<Step>)
    requires Inv(w) && IsRun(renames, w, steps)
    ensures Inv(End(renames, w, steps))
    decreases |steps|
  {
    if steps != [] {
      StepKeepsInv(renames, w, steps[0]);
      RunKeepsInv(renames, Apply(renames, w, steps[0]), steps[1..]);
    }
  }

  /** In every run: at most one process is between taking and giving up the lock,
      and a descriptor on disk belongs to that process or to one that crashed,
      never to one that exited. */
  lemma OneServerOwnsTheInstance(renames: bool, steps: seq<Step>)
    requires IsRun(renames, START, steps)
    ensures var w := End(renames, START, steps);
            && (forall p, p' ::
                  p in w.processes && p' in w.processes
                  && HoldsLock(w.processes[p].stage) && HoldsLock(w.processes[p'].stage)
                  ==> p == p')
            && (w.descriptor.Some? ==>
                  && w.descriptor.value in w.processes
                  && var stage := w.processes[w.descriptor.value].stage;
                     (OnDisk(stage) && w.lock == w.descriptor) || stage == Crashed(true))
  {
    RunKeepsInv(renames, START, steps);
  }

  /** While a server serves or drains, the descriptor on disk is its own, so that
      what it removes at the end is its own and not a successor's. What a starting
      server removes or replaces is a crashed server's. */
  lemma RemovalsAreOwn(renames: bool, steps: seq<Step>, step: Step)
    requires IsRun(renames, START, steps) && Enabled(renames, End(renames, START, steps), step)
    ensures var w := End(renames, START, steps);
            && (step.RemoveDescriptor? ==> w.descriptor == Some(step.p))
            && (step.RemoveOld? || step.Rename? ==>
                  w.descriptor.None? || Is(w, w.descriptor.value, Crashed(true)))
            && (Apply(renames, w, step).descriptor != w.descriptor ==>
                  step.RemoveDescriptor? || step.RemoveOld? || step.Rename?)
  {
    RunKeepsInv(renames, START, steps);
  }

  /** A stop command that leaves its loop because the file is gone can rely on
      this: the server that accepted its request has ended both of its tasks, each
      with no request in flight unless the task failed, or has crashed. Later
      servers of the same instance do not confuse it. */
  lemma StopIsSound(renames: bool, steps: seq<Step>, s: nat)
    requires IsRun(renames, START, steps)
    requires var w := End(renames, START, steps); s in w.stoppers && w.stoppers[s].Gone?
    ensures var w := End(renames, START, steps);
            && w.stoppers[s].server in w.processes
            && var process := w.processes[w.stoppers[s].server];
               process.stage.Crashed?
               || (Drained(process) && !OnDisk(process.stage) && process.cancelled
                   && EndedCleanly(process, process.ingress) && EndedCleanly(process, process.control))
  {
    RunKeepsInv(renames, START, steps);
  }

  /** In every run, a server tells its tasks to end before it waits for them, and has
      waited for both before it removes its descriptor. */
  lemma TasksEndBeforeRemoval(renames: bool, steps: seq<Step>, step: Step)
    requires IsRun(renames, START, steps) && Enabled(renames, End(renames, START, steps), step)
    requires step.FinishIngress? || step.FinishControl? || step.RemoveDescriptor?
    ensures var process := End(renames, START, steps).processes[step.p];
            process.cancelled && (step.RemoveDescriptor? ==> Drained(process))
  {
    RunKeepsInv(renames, START, steps);
    var w := End(renames, START, steps);
    assert ProcessInv(w, step.p, w.processes[step.p]);
  }

  /** What the stop command sees each time around its loop: whether the file
      exists, and the time. */
  datatype Observation = Observation(present: bool, now: nat)

  datatype StopResult = FileGone(polls: nat) | StillDraining(polls: nat) | CutOff

  /** The polling loop, against the observations it makes. */
  method AwaitStop(seen: seq<Observation>, accepted: nat) returns (r: StopResult)
    ensures r.FileGone? ==> r.polls < |seen| && !seen[r.polls].present
    ensures r.StillDraining? ==> r.polls < |seen| && seen[r.polls].present
                                 && accepted + 15_000_000_000 <= seen[r.polls].now
    ensures !r.CutOff? ==>
              forall i :: 0 <= i < r.polls ==> seen[i].present && seen[i].now < accepted + 15_000_000_000
    ensures r.CutOff? <==>
              forall i :: 0 <= i < |seen| ==> seen[i].present && seen[i].now < accepted + 15_000_000_000
  {
    var deadline := accepted + STOP_WAIT_TIMEOUT;
    var i := 0;
    while i < |seen| && seen[i].present
      invariant i <= |seen|
      invariant forall k :: 0 <= k < i ==> seen[k].present && seen[k].now < deadline
    {
      if seen[i].now >= deadline {
        return StillDraining(i);
      }
      i := i + 1;
    }
    return if i < |seen| then FileGone(i) else CutOff;
  }
}

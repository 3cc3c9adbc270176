/** The worker pool: every interleaving of Start, Stop, ExecuteTask, workers, tasks and cancellation (pool/pool.go). */
module WorkerPool {
  import opened Common

  /** A worker goroutine: at its outer select, waiting on a task it started, or returned. */
  datatype Worker =
    | Idle
    | Busy(task: nat)
    | Exited

  /** What one Start makes: an unbuffered channel, the workers on it, and the context they watch. */
  datatype Generation = Generation(context: nat, closed: bool, closes: nat, workers: seq<Worker>)

  /** One task given to ExecuteTask: how often it was started, and by which worker of which generation. */
  datatype Task = Task(context: nat, starts: nat, finished: bool, generation: nat, worker: nat)

  /** The mutex, with what a running ExecuteTask was called with and has still to send. */
  datatype Lock =
    | Free
    | Executing(call: seq<nat>, todo: seq<nat>)

  datatype State = State(
    size: nat,
    started: bool,
    lock: Lock,
    generations: seq<Generation>,   // the last one is the channel field
    tasks: seq<Task>,
    cancelled: set<nat>,
    fault: bool)                    // a send on a closed or missing channel, or a second close

  datatype Step =
    | Start(context: nat)
    | Stop
    | ExecuteTask(context: nat, count: nat)
    | SendPanics
    | HandOff(worker: nat)
    | ExecuteReturns
    | IdleSeesContext(generation: nat, worker: nat)
    | IdleSeesClosed(generation: nat, worker: nat)
    | BusySeesContext(generation: nat, worker: nat)
    | BusySeesTaskContext(generation: nat, worker: nat)
    | BusySeesDone(generation: nat, worker: nat)
    | TaskEnds(task: nat)
    | Cancel(context: nat)

  function Initial(size: nat): State {
    State(size, false, Free, [], [], {}, false)
  }

  function Last(s: State): nat
    requires s.generations != []
  {
    |s.generations| - 1
  }

  function SetWorker(s: State, g: nat, w: nat, x: Worker): State
    requires g < |s.generations| && w < |s.generations[g].workers|
  {
    var gen := s.generations[g];
    s.(generations := s.generations[g := gen.(workers := gen.workers[w := x])])
  }

  predicate HasWorker(s: State, g: nat, w: nat) {
    g < |s.generations| && w < |s.generations[g].workers|
  }

  /** One step; None when it cannot be taken. A call that returns an error leaves the state as it is. */
  function Next(s: State, step: Step): Option<State> {
    match step
    case Start(context) =>
      if s.lock != Free then None
      else if s.started then Some(s)
      else Some(s.(started := true,
                   generations := s.generations + [Generation(context, false, 0, seq(s.size, _ => Idle))]))
    case Stop =>
      if s.lock != Free then None
      else if !s.started then Some(s)
      else if s.generations == [] then Some(s.(fault := true))
      else
        var gen := s.generations[Last(s)];
        Some(s.(started := false, fault := s.fault || gen.closed,
                generations := s.generations[Last(s) := gen.(closed := true, closes := gen.closes + 1)]))
    case ExecuteTask(context, count) =>
      if s.lock != Free then None
      else if !s.started then Some(s)
      else
        var ids := seq(count, i requires 0 <= i < count => |s.tasks| + i);
        Some(s.(tasks := s.tasks + seq(count, _ => Task(context, 0, false, 0, 0)), lock := Executing(ids, ids)))

    case SendPanics =>
      if s.lock.Free? || s.lock.todo == [] then None
      else if s.generations != [] && !s.generations[Last(s)].closed then None
      else Some(s.(fault := true))
    case HandOff(w) =>
      if s.lock.Free? || s.lock.todo == [] || s.generations == [] then None
      else
        var (g, id) := (Last(s), s.lock.todo[0]);
        if || !HasWorker(s, g, w) || s.generations[g].workers[w] != Idle || s.generations[g].closed
           || id >= |s.tasks| then None
        else
          var task := s.tasks[id];
          Some(SetWorker(s, g, w, Busy(id)).(
                 tasks := s.tasks[id := task.(starts := task.starts + 1, generation := g, worker := w)],
                 lock := s.lock.(todo := s.lock.todo[1..])))
    case ExecuteReturns =>
      if s.lock.Free? || s.lock.todo != [] then None else Some(s.(lock := Free))

    case IdleSeesContext(g, w) =>
      if || !HasWorker(s, g, w) || s.generations[g].workers[w] != Idle
         || s.generations[g].context !in s.cancelled then None
      else Some(SetWorker(s, g, w, Exited))
    case IdleSeesClosed(g, w) =>
      if !HasWorker(s, g, w) || s.generations[g].workers[w] != Idle || !s.generations[g].closed then None
      else Some(SetWorker(s, g, w, Exited))
    case BusySeesContext(g, w) =>
      if !HasWorker(s, g, w) || !s.generations[g].workers[w].Busy? || s.generations[g].context !in s.cancelled then None
      else Some(SetWorker(s, g, w, Exited))
    case BusySeesTaskContext(g, w) =>
      if !HasWorker(s, g, w) || !s.generations[g].workers[w].Busy? then None
      else
        var id := s.generations[g].workers[w].task;
        if id >= |s.tasks| || s.tasks[id].context !in s.cancelled then None else Some(SetWorker(s, g, w, Idle))
    case BusySeesDone(g, w) =>
      if !HasWorker(s, g, w) || !s.generations[g].workers[w].Busy? then None
      else
        var id := s.generations[g].workers[w].task;
        if id >= |s.tasks| || !s.tasks[id].finished then None else Some(SetWorker(s, g, w, Idle))

    case TaskEnds(id) =>
      if id >= |s.tasks| || s.tasks[id].starts == 0 || s.tasks[id].finished then None
      else Some(s.(tasks := s.tasks[id := s.tasks[id].(finished := true)]))
    case Cancel(context) =>
      Some(s.(cancelled := s.cancelled + {context}))
  }

  // ---------- The invariant ----------

  ghost predicate GenerationOk(s: State, g: nat)
    requires g < |s.generations|
  {
    var gen := s.generations[g];
    && |gen.workers| == s.size
    && gen.closes == (if gen.closed then 1 else 0)
    && (gen.closed <==> !(s.started && g == Last(s)))
  }

  /** A busy worker waits on a task that names that worker; a worker is gone only if its context is done or its channel
      closed. */
  ghost predicate WorkerOk(s: State, g: nat, w: nat)
    requires HasWorker(s, g, w)
  {
    var x := s.generations[g].workers[w];
    && (x.Busy? ==> x.task < |s.tasks| && s.tasks[x.task].starts == 1
                    && s.tasks[x.task].generation == g && s.tasks[x.task].worker == w)
    && (x.Exited? ==> s.generations[g].closed || s.generations[g].context in s.cancelled)
  }

  /** Running, with neither its own context nor its pool's cancelled. */
  ghost predicate Live(s: State, id: nat)
    requires id < |s.tasks|
  {
    var t := s.tasks[id];
    && t.starts > 0 && !t.finished && t.context !in s.cancelled
    && t.generation < |s.generations| && s.generations[t.generation].context !in s.cancelled
  }

  /** A live task is the one its worker is waiting on. */
  ghost predicate TaskOk(s: State, id: nat)
    requires id < |s.tasks|
  {
    var t := s.tasks[id];
    && t.starts <= 1
    && (t.starts == 1 ==> HasWorker(s, t.generation, t.worker))
    && (Live(s, id) ==> s.generations[t.generation].workers[t.worker] == Busy(id))
  }

  ghost predicate CallOk(s: State) {
    s.lock.Executing? ==>
      var (call, done) := (s.lock.call, |s.lock.call| - |s.lock.todo|);
      && done >= 0 && s.lock.todo == call[done..]
      && (forall i | 0 <= i < |call| :: call[i] < |s.tasks|)
      && (forall i, j | 0 <= i < j < |call| :: call[i] != call[j])
      && (forall i | 0 <= i < |call| :: s.tasks[call[i]].starts == if i < done then 1 else 0)
  }

  ghost predicate Inv(s: State) {
    && !s.fault
    && (s.started ==> s.generations != [])
    && (s.lock.Executing? ==> s.started)
    && CallOk(s)
    && (forall g | 0 <= g < |s.generations| :: GenerationOk(s, g))
    && (forall g: nat, w: nat | HasWorker(s, g, w) :: WorkerOk(s, g, w))
    && (forall id | 0 <= id < |s.tasks| :: TaskOk(s, id))
  }

  lemma StartKeepsInv(s: State, context: nat)
    requires Inv(s) && s.lock.Free? && !s.started
    ensures Inv(Next(s, Start(context)).value)
  {
    var t := Next(s, Start(context)).value;
    forall g | 0 <= g < |t.generations|
      ensures GenerationOk(t, g)
    {
      assert g < |s.generations| ==> GenerationOk(s, g);
    }
    forall g: nat, w: nat | HasWorker(t, g, w)
      ensures WorkerOk(t, g, w)
    {
      assert g < |s.generations| ==> HasWorker(s, g, w) && WorkerOk(s, g, w);
    }
    forall id | 0 <= id < |t.tasks|
      ensures TaskOk(t, id)
    {
      assert TaskOk(s, id);
    }
  }

  lemma StopKeepsInv(s: State)
    requires Inv(s) && s.lock.Free? && s.started
    ensures Inv(Next(s, Stop).value)
  {
    var t := Next(s, Stop).value;
    assert GenerationOk(s, Last(s));
    forall g | 0 <= g < |t.generations|
      ensures GenerationOk(t, g)
    {
      assert GenerationOk(s, g);
    }
    forall g: nat, w: nat | HasWorker(t, g, w)
      ensures WorkerOk(t, g, w)
    {
      assert HasWorker(s, g, w) && WorkerOk(s, g, w);
    }
    forall id | 0 <= id < |t.tasks|
      ensures TaskOk(t, id)
    {
      assert TaskOk(s, id);
    }
  }

  lemma ExecuteKeepsInv(s: State, context: nat, count: nat)
    requires Inv(s) && s.lock.Free? && s.started
    ensures Inv(Next(s, ExecuteTask(context, count)).value)
  {
    var t := Next(s, ExecuteTask(context, count)).value;
    forall g | 0 <= g < |t.generations|
      ensures GenerationOk(t, g)
    {
      assert GenerationOk(s, g);
    }
    forall g: nat, w: nat | HasWorker(t, g, w)
      ensures WorkerOk(t, g, w)
    {
      assert HasWorker(s, g, w) && WorkerOk(s, g, w);
    }
    forall id | 0 <= id < |t.tasks|
      ensures TaskOk(t, id)
    {
      assert id < |s.tasks| ==> TaskOk(s, id);
    }
  }

  lemma HandOffKeepsInv(s: State, worker: nat)
    requires Inv(s) && Next(s, HandOff(worker)).Some?
    ensures Inv(Next(s, HandOff(worker)).value)
  {
    var t := Next(s, HandOff(worker)).value;
    var (last, done) := (Last(s), |s.lock.call| - |s.lock.todo|);
    var id := s.lock.todo[0];
    assert id == s.lock.call[done];
    assert TaskOk(s, id);
    forall g | 0 <= g < |t.generations|
      ensures GenerationOk(t, g)
    {
      assert GenerationOk(s, g);
    }
    forall g: nat, w: nat | HasWorker(t, g, w)
      ensures WorkerOk(t, g, w)
    {
      assert HasWorker(s, g, w) && WorkerOk(s, g, w);
    }
    forall k | 0 <= k < |t.tasks|
      ensures TaskOk(t, k)
    {
      assert TaskOk(s, k);
    }
  }

  /** A worker lets go of what it holds; allowed when it held nothing live. */
  lemma ReleaseKeepsInv(s: State, g: nat, w: nat, x: Worker)
    requires Inv(s) && HasWorker(s, g, w) && !x.Busy?
    requires s.generations[g].workers[w].Busy? ==> !Live(s, s.generations[g].workers[w].task)
    requires x.Exited? ==> s.generations[g].closed || s.generations[g].context in s.cancelled
    ensures Inv(SetWorker(s, g, w, x))
  {
    var t := SetWorker(s, g, w, x);
    forall k | 0 <= k < |t.generations|
      ensures GenerationOk(t, k)
    {
      assert GenerationOk(s, k);
    }
    forall k: nat, v: nat | HasWorker(t, k, v)
      ensures WorkerOk(t, k, v)
    {
      assert HasWorker(s, k, v) && WorkerOk(s, k, v);
    }
    forall id | 0 <= id < |t.tasks|
      ensures TaskOk(t, id)
    {
      assert TaskOk(s, id);
    }
  }

  lemma TaskEndsKeepsInv(s: State, id: nat)
    requires Inv(s) && Next(s, TaskEnds(id)).Some?
    ensures Inv(Next(s, TaskEnds(id)).value)
  {
    var t := Next(s, TaskEnds(id)).value;
    forall g | 0 <= g < |t.generations|
      ensures GenerationOk(t, g)
    {
      assert GenerationOk(s, g);
    }
    forall g: nat, w: nat | HasWorker(t, g, w)
      ensures WorkerOk(t, g, w)
    {
      assert HasWorker(s, g, w) && WorkerOk(s, g, w);
    }
    forall k | 0 <= k < |t.tasks|
      ensures TaskOk(t, k)
    {
      assert TaskOk(s, k);
    }
  }

  lemma CancelKeepsInv(s: State, context: nat)
    requires Inv(s)
    ensures Inv(s.(cancelled := s.cancelled + {context}))
  {
    var t := s.(cancelled := s.cancelled + {context});
    forall g | 0 <= g < |t.generations|
      ensures GenerationOk(t, g)
    {
      assert GenerationOk(s, g);
    }
    forall g: nat, w: nat | HasWorker(t, g, w)
      ensures WorkerOk(t, g, w)
    {
      assert HasWorker(s, g, w) && WorkerOk(s, g, w);
    }
    forall k | 0 <= k < |t.tasks|
      ensures TaskOk(t, k)
    {
      assert TaskOk(s, k);
    }
  }

  lemma UnlockKeepsInv(s: State)
    requires Inv(s)
    ensures Inv(s.(lock := Free))
  {
    var t := s.(lock := Free);
    forall g | 0 <= g < |t.generations|
      ensures GenerationOk(t, g)
    {
      assert GenerationOk(s, g);
    }
    forall g: nat, w: nat | HasWorker(t, g, w)
      ensures WorkerOk(t, g, w)
    {
      assert HasWorker(s, g, w) && WorkerOk(s, g, w);
    }
    forall k | 0 <= k < |t.tasks|
      ensures TaskOk(t, k)
    {
      assert TaskOk(s, k);
    }
  }

  /** While ExecuteTask holds the mutex the pool stays started, so its channel is there and open. */
  lemma SendCannotPanic(s: State)
    requires Inv(s)
    ensures Next(s, SendPanics).None?
  {
    if s.lock.Executing? {
      assert GenerationOk(s, Last(s));
    }
  }

  lemma StepKeepsInv(s: State, step: Step)
    requires Inv(s) && Next(s, step).Some?
    ensures Inv(Next(s, step).value)
  {
    SendCannotPanic(s);
    match step
    case Start(context) => if !s.started { StartKeepsInv(s, context); }
    case Stop => if s.started { StopKeepsInv(s); }
    case ExecuteTask(context, count) => if s.started { ExecuteKeepsInv(s, context, count); }
    case SendPanics =>
    case HandOff(w) => HandOffKeepsInv(s, w);
    case ExecuteReturns => UnlockKeepsInv(s);
    case TaskEnds(id) => TaskEndsKeepsInv(s, id);
    case Cancel(context) => CancelKeepsInv(s, context);
    case IdleSeesContext(g, w) => ReleaseKeepsInv(s, g, w, Exited);
    case IdleSeesClosed(g, w) => ReleaseKeepsInv(s, g, w, Exited);
    case BusySeesContext(g, w) =>
      assert WorkerOk(s, g, w);
      ReleaseKeepsInv(s, g, w, Exited);
    case BusySeesTaskContext(g, w) =>
      assert WorkerOk(s, g, w);
      ReleaseKeepsInv(s, g, w, Idle);
    case BusySeesDone(g, w) =>
      assert WorkerOk(s, g, w);
      ReleaseKeepsInv(s, g, w, Idle);
  }

  // ---------- Every run ----------

  ghost predicate Runs(s: State, steps: seq<Step>, t: State)
    decreases |steps|
  {
    if steps == [] then s == t
    else Next(s, steps[0]).Some? && Runs(Next(s, steps[0]).value, steps[1..], t)
  }

  lemma {:induction false} RunKeepsInv(s: State, steps: seq<Step>, t: State)
    requires Inv(s) && Runs(s, steps, t)
    ensures Inv(t) && t.size == s.size
    decreases |steps|
  {
    if steps != [] {
      StepKeepsInv(s, steps[0]);
      RunKeepsInv(Next(s, steps[0]).value, steps[1..], t);
    }
  }

  ghost predicate Reachable(size: nat, t: State) {
    exists steps :: Runs(Initial(size), steps, t)
  }

  lemma ReachableInv(size: nat, t: State)
    requires Reachable(size, t)
    ensures Inv(t) && t.size == size
  {
    var steps :| Runs(Initial(size), steps, t);
    RunKeepsInv(Initial(size), steps, t);
  }

  /** No send reaches a closed channel, no channel is closed twice, no task is started twice. */
  lemma NoFault(size: nat, t: State)
    requires Reachable(size, t)
    ensures !t.fault && Next(t, SendPanics).None?
    ensures forall g | 0 <= g < |t.generations| :: t.generations[g].closes <= 1
    ensures forall id | 0 <= id < |t.tasks| :: t.tasks[id].starts <= 1
  {
    ReachableInv(size, t);
    forall g | 0 <= g < |t.generations|
      ensures t.generations[g].closes <= 1
    {
      assert GenerationOk(t, g);
    }
    forall id | 0 <= id < |t.tasks|
      ensures t.tasks[id].starts <= 1
    {
      assert TaskOk(t, id);
    }
    SendCannotPanic(t);
  }

  /** A fault is what Go makes of it: a send where the channel is missing or closed, and closing such a channel. */
  lemma FaultsAreGos(s: State, step: Step)
    requires !s.fault && Next(s, step).Some?
    ensures Next(s, step).value.fault <==>
              || step.SendPanics?
              || (step.Stop? && s.started && (s.generations == [] || s.generations[Last(s)].closed))
    ensures step.SendPanics? ==> s.generations == [] || s.generations[Last(s)].closed
  {
  }

  /** ExecuteTask returns nil only when each of its tasks has been started, exactly once. */
  lemma ReturnsAfterStartingAll(size: nat, t: State)
    requires Reachable(size, t) && Next(t, ExecuteReturns).Some?
    ensures forall i | 0 <= i < |t.lock.call| :: t.lock.call[i] < |t.tasks| && t.tasks[t.lock.call[i]].starts == 1
  {
    ReachableInv(size, t);
    AllStarted(t);
  }

  lemma AllStarted(t: State)
    requires Inv(t) && Next(t, ExecuteReturns).Some?
    ensures forall i | 0 <= i < |t.lock.call| :: t.lock.call[i] < |t.tasks| && t.tasks[t.lock.call[i]].starts == 1
  {
  }

  // ---------- What the calls of a run come to ----------

  /** Whether the last Start or Stop among the steps is a Start. */
  function StartedAfter(started: bool, steps: seq<Step>): bool
    decreases |steps|
  {
    if steps == [] then started
    else StartedAfter(if steps[0].Start? then true else if steps[0].Stop? then false else started, steps[1..])
  }

  /** Contexts, workers and pool are what the calls made them: the pool is started exactly when no Stop came after the
      last Start, and exactly the contexts of Cancel steps are done. */
  lemma {:induction false} RunIsAsCalled(s: State, steps: seq<Step>, t: State)
    requires Inv(s) && Runs(s, steps, t)
    ensures t.started == StartedAfter(s.started, steps)
    ensures forall c: nat :: c in t.cancelled <==> c in s.cancelled || Cancel(c) in steps
    decreases |steps|
  {
    hide Inv;
    if steps != [] {
      StepKeepsInv(s, steps[0]);
      StepIsAsCalled(s, steps[0]);
      RunIsAsCalled(Next(s, steps[0]).value, steps[1..], t);
      assert steps == [steps[0]] + steps[1..];
    }
  }

  lemma StepIsAsCalled(s: State, step: Step)
    requires Inv(s) && Next(s, step).Some?
    ensures var t := Next(s, step).value;
            && t.started == (if step.Start? then true else if step.Stop? then false else s.started)
            && forall c: nat :: c in t.cancelled <==> c in s.cancelled || step == Cancel(c)
  {
  }

  /** With the mutex free every call can be made, and one that is refused, because the pool is started already or is not
      started, changes nothing. */
  lemma RefusedCallsChangeNothing(s: State, context: nat, count: nat)
    requires Inv(s) && s.lock.Free?
    ensures Next(s, Start(context)).Some? && Next(s, Stop).Some? && Next(s, ExecuteTask(context, count)).Some?
    ensures s.started <==> Next(s, Start(context)).value == s
    ensures s.started <==> Next(s, Stop).value != s
    ensures !s.started ==> Next(s, ExecuteTask(context, count)).value == s
  {
  }

  /** A Start that finds the pool stopped makes a channel of its own, with idle workers that watch its context. */
  ghost predicate FreshGeneration(s: State, t: State, context: nat) {
    && t.started && |t.generations| == |s.generations| + 1 && t.generations[..|s.generations|] == s.generations
    && var gen := t.generations[|s.generations|];
       && gen.context == context && !gen.closed && |gen.workers| == s.size
       && forall w | 0 <= w < s.size :: gen.workers[w] == Idle
  }

  lemma StartIsFresh(s: State, context: nat)
    requires Inv(s) && s.lock.Free? && !s.started && Next(s, Start(context)).Some?
    ensures FreshGeneration(s, Next(s, Start(context)).value, context)
  {
  }

  /** The tasks of a call that has been let in, none or some of them started. */
  ghost predicate InCall(s: State, first: nat, count: nat, context: nat) {
    && s.lock.Executing? && |s.lock.call| == count && first + count <= |s.tasks|
    && forall i | 0 <= i < count :: s.lock.call[i] == first + i && s.tasks[first + i].context == context
  }

  lemma CallStaysIn(s: State, step: Step, first: nat, count: nat, context: nat)
    requires InCall(s, first, count, context) && Next(s, step).Some? && !step.ExecuteReturns?
    ensures InCall(Next(s, step).value, first, count, context)
  {
    var t := Next(s, step).value;
    assert t.lock.Executing? && t.lock.call == s.lock.call;
    forall i | 0 <= i < count
      ensures first + i < |t.tasks| && t.tasks[first + i].context == context && t.lock.call[i] == first + i
    {
      assert s.lock.call[i] == first + i && s.tasks[first + i].context == context;
    }
  }

  lemma {:induction false} CallStaysInRun(s: State, steps: seq<Step>, t: State, first: nat, count: nat, context: nat)
    requires InCall(s, first, count, context) && Runs(s, steps, t) && ExecuteReturns !in steps
    ensures InCall(t, first, count, context)
    decreases |steps|
  {
    hide Next, InCall;
    if steps != [] {
      CallStaysIn(s, steps[0], first, count, context);
      CallStaysInRun(Next(s, steps[0]).value, steps[1..], t, first, count, context);
    }
  }

  /** From the call of ExecuteTask to its return: as many new tasks as it was given, under its context, each of them
      started exactly once, whatever happened in between. */
  lemma CallStartsItsTasks(size: nat, s: State, context: nat, count: nat, steps: seq<Step>, t: State)
    requires Reachable(size, s) && s.started && Next(s, ExecuteTask(context, count)).Some?
    requires Runs(Next(s, ExecuteTask(context, count)).value, steps, t) && ExecuteReturns !in steps
    requires Next(t, ExecuteReturns).Some?
    ensures |s.tasks| + count <= |t.tasks|
    ensures forall id | |s.tasks| <= id < |s.tasks| + count :: t.tasks[id].starts == 1 && t.tasks[id].context == context
  {
    hide Runs, Reachable, Inv;
    ReachableInv(size, s);
    var called := Next(s, ExecuteTask(context, count)).value;
    StepKeepsInv(s, ExecuteTask(context, count));
    RunKeepsInv(called, steps, t);
    CallStaysInRun(called, steps, t, |s.tasks|, count, context);
    AllStarted(t);
    forall id | |s.tasks| <= id < |s.tasks| + count
      ensures t.tasks[id].starts == 1 && t.tasks[id].context == context
    {
      var i := id - |s.tasks|;
      assert t.lock.call[i] == |s.tasks| + i && t.tasks[|s.tasks| + i].context == context;
    }
  }

  // ---------- Nothing gets stuck ----------

  /** A call is under way on a pool with workers whose context is live. */
  ghost predicate Serving(s: State) {
    && Inv(s) && s.lock.Executing? && s.size > 0
    && s.generations != [] && s.generations[Last(s)].context !in s.cancelled
  }

  /** What the first worker of the pool does next to take a task from the call. */
  function ServingStep(s: State): Step
    requires s.generations != [] && HasWorker(s, Last(s), 0)
  {
    match s.generations[Last(s)].workers[0]
    case Busy(id) => if id < |s.tasks| && s.tasks[id].finished then BusySeesDone(Last(s), 0) else TaskEnds(id)
    case _ => HandOff(0)
  }

  ghost function ServingLeft(s: State): nat
    requires s.lock.Executing? && s.generations != [] && HasWorker(s, Last(s), 0)
  {
    3 * |s.lock.todo|
    + match s.generations[Last(s)].workers[0]
      case Busy(id) => if id < |s.tasks| && s.tasks[id].finished then 1 else 2
      case _ => 0
  }

  lemma HasFirstWorker(s: State)
    requires Serving(s)
    ensures HasWorker(s, Last(s), 0)
  {
    assert GenerationOk(s, Last(s));
  }

  lemma ServingStepMoves(s: State)
    requires Serving(s) && s.lock.todo != [] && HasWorker(s, Last(s), 0)
    ensures Next(s, ServingStep(s)).Some?
    ensures var t := Next(s, ServingStep(s)).value;
            Serving(t) && HasWorker(t, Last(t), 0) && ServingLeft(t) < ServingLeft(s)
  {
    assert GenerationOk(s, Last(s)) && WorkerOk(s, Last(s), 0);
    assert s.lock.todo[0] == s.lock.call[|s.lock.call| - |s.lock.todo|];
    StepKeepsInv(s, ServingStep(s));
  }

  /** As long as the pool's context is live and it has a worker, a call of ExecuteTask can always come to its end: it
      needs no more than tasks to end and workers to notice it. */
  lemma {:induction false} CallCanReturn(s: State) returns (steps: seq<Step>, t: State)
    requires Serving(s)
    ensures Runs(s, steps, t) && Next(t, ExecuteReturns).Some?
    ensures forall step | step in steps :: step.HandOff? || step.TaskEnds? || step.BusySeesDone?
    decreases (HasFirstWorker(s); ServingLeft(s))
  {
    hide Inv, Next;
    HasFirstWorker(s);
    if s.lock.todo == [] {
      EmptyCallReturns(s);
      return [], s;
    }
    ServingStepMoves(s);
    var rest;
    rest, t := CallCanReturn(Next(s, ServingStep(s)).value);
    steps := [ServingStep(s)] + rest;
    assert steps[1..] == rest;
  }

  lemma EmptyCallReturns(s: State)
    requires s.lock.Executing? && s.lock.todo == []
    ensures Next(s, ExecuteReturns).Some?
  {
  }

  /** What a worker does once its context is done or its channel closed. */
  function LeavingStep(s: State, g: nat, w: nat): Step
    requires HasWorker(s, g, w)
  {
    match s.generations[g].workers[w]
    case Busy(id) =>
      if s.generations[g].context in s.cancelled then BusySeesContext(g, w)
      else if id < |s.tasks| && s.tasks[id].finished then BusySeesDone(g, w)
      else TaskEnds(id)
    case _ => if s.generations[g].context in s.cancelled then IdleSeesContext(g, w) else IdleSeesClosed(g, w)
  }

  ghost predicate MustLeave(s: State, g: nat, w: nat) {
    Inv(s) && HasWorker(s, g, w) && (s.generations[g].closed || s.generations[g].context in s.cancelled)
  }

  ghost function LeavingLeft(s: State, g: nat, w: nat): nat
    requires HasWorker(s, g, w)
  {
    match s.generations[g].workers[w]
    case Busy(id) => if id < |s.tasks| && s.tasks[id].finished then 2 else 3
    case Idle => 1
    case Exited => 0
  }

  lemma LeavingStepMoves(s: State, g: nat, w: nat)
    requires MustLeave(s, g, w) && !s.generations[g].workers[w].Exited?
    ensures Next(s, LeavingStep(s, g, w)).Some?
    ensures var t := Next(s, LeavingStep(s, g, w)).value;
            && MustLeave(t, g, w) && LeavingLeft(t, g, w) < LeavingLeft(s, g, w)
            && t.generations[g].context == s.generations[g].context && t.cancelled == s.cancelled
  {
    assert WorkerOk(s, g, w);
    StepKeepsInv(s, LeavingStep(s, g, w));
  }

  /** A worker whose pool was stopped or whose context is done can always leave, within three steps and whatever the
      others do; it waits for its task to end only if the context is live. */
  lemma {:induction false} WorkerCanLeave(s: State, g: nat, w: nat) returns (steps: seq<Step>, t: State)
    requires MustLeave(s, g, w)
    ensures Runs(s, steps, t) && HasWorker(t, g, w) && t.generations[g].workers[w].Exited?
    ensures |steps| <= LeavingLeft(s, g, w)
    ensures s.generations[g].context in s.cancelled ==> forall step | step in steps :: !step.TaskEnds?
    decreases LeavingLeft(s, g, w)
  {
    hide Inv, Next;
    if s.generations[g].workers[w].Exited? {
      return [], s;
    }
    var step := LeavingStep(s, g, w);
    LeavingStepMoves(s, g, w);
    var rest;
    rest, t := WorkerCanLeave(Next(s, step).value, g, w);
    steps := [step] + rest;
    assert steps[1..] == rest;
  }

  // ---------- How many run at once ----------

  ghost function LiveTasks(t: State, g: nat): set<nat> {
    set id | 0 <= id < |t.tasks| && t.tasks[id].generation == g && Live(t, id)
  }

  /** Keys with distinct values below n number at most n. */
  lemma {:induction false} Pigeonhole(keys: set<nat>, place: map<nat, nat>, n: nat)
    requires keys <= place.Keys && forall k | k in keys :: place[k] < n
    requires forall j, k | j in keys && k in keys && place[j] == place[k] :: j == k
    ensures |keys| <= n
    decreases n
  {
    if any :| any in keys {
      assert 0 <= place[any] < n;
      if k :| k in keys && place[k] == n - 1 {
        Pigeonhole(keys - {k}, place, n - 1);
      } else {
        Pigeonhole(keys, place, n - 1);
      }
    }
  }

  /** Tasks of one generation that are running with both contexts live never outnumber its workers. */
  lemma AtMostSizeLive(size: nat, t: State, g: nat)
    requires Reachable(size, t) && g < |t.generations|
    ensures |LiveTasks(t, g)| <= size
  {
    ReachableInv(size, t);
    var keys := LiveTasks(t, g);
    var place := map id | id in keys :: t.tasks[id].worker;
    assert GenerationOk(t, g);
    forall id | id in keys
      ensures place[id] < size && t.generations[g].workers[place[id]] == Busy(id)
    {
      assert TaskOk(t, id);
    }
    Pigeonhole(keys, place, size);
  }

  lemma {:induction false} RunsThen(s: State, steps: seq<Step>, t: State, step: Step)
    requires Runs(s, steps, t) && Next(t, step).Some?
    ensures Runs(s, steps + [step], Next(t, step).value)
    decreases |steps|
  {
    if steps == [] {
      assert (steps + [step])[1..] == [];
    } else {
      RunsThen(Next(s, steps[0]).value, steps[1..], t, step);
      assert (steps + [step])[1..] == steps[1..] + [step];
    }
  }

  ghost function RunningTasks(t: State): set<nat> {
    set id | 0 <= id < |t.tasks| && t.tasks[id].starts > 0 && !t.tasks[id].finished
  }

  /** All workers idle, and n started tasks that go on running although their contexts are done. */
  ghost predicate Abandoned(size: nat, n: nat, t: State) {
    && Reachable(size, t) && t.size == size && t.started && t.lock.Free?
    && t.generations == [Generation(0, false, 0, seq(size, _ => Idle))]
    && |t.tasks| == n && forall id | 0 <= id < n :: t.tasks[id].starts == 1 && !t.tasks[id].finished
  }

  lemma ReachableThen(size: nat, t: State, step: Step)
    requires Reachable(size, t) && Next(t, step).Some?
    ensures Reachable(size, Next(t, step).value)
  {
    var steps :| Runs(Initial(size), steps, t);
    RunsThen(Initial(size), steps, t, step);
  }

  lemma JustStarted(size: nat) returns (t: State)
    ensures Abandoned(size, 0, t)
  {
    var s := Initial(size);
    assert Runs(s, [], s);
    ReachableThen(size, s, Start(0));
    t := Next(s, Start(0)).value;
  }

  /** One more task handed to the first worker, which lets go of it when the task's own context ends. */
  lemma AbandonOneMore(size: nat, n: nat, t: State) returns (t': State)
    requires size > 0 && Abandoned(size, n, t)
    ensures Abandoned(size, n + 1, t')
  {
    hide Reachable;
    var context := n + 1;
    ReachableThen(size, t, ExecuteTask(context, 1));
    var given := Next(t, ExecuteTask(context, 1)).value;
    ReachableThen(size, given, HandOff(0));
    var handed := Next(given, HandOff(0)).value;
    ReachableThen(size, handed, ExecuteReturns);
    var returned := Next(handed, ExecuteReturns).value;
    ReachableThen(size, returned, Cancel(context));
    var cancelled := Next(returned, Cancel(context)).value;
    ReachableThen(size, cancelled, BusySeesTaskContext(0, 0));
    t' := Next(cancelled, BusySeesTaskContext(0, 0)).value;
    assert t'.generations[0].workers == seq(size, _ => Idle);
  }

  lemma {:induction false} AbandonMany(size: nat, n: nat) returns (t: State)
    requires size > 0
    ensures Abandoned(size, n, t)
  {
    if n == 0 {
      t := JustStarted(size);
    } else {
      var before := AbandonMany(size, n - 1);
      t := AbandonOneMore(size, n - 1, before);
    }
  }

  ghost function Below(n: nat): (ids: set<nat>)
    ensures |ids| == n && forall id: nat :: id in ids <==> id < n
  {
    if n == 0 then {} else Below(n - 1) + {n - 1}
  }

  /** The bound does need live contexts: a worker does not wait for a task whose context ended, so any number of tasks
      can run on a pool of any size above zero. */
  lemma AbandonedTasksKeepRunning(size: nat, n: nat)
    requires size > 0
    ensures exists t :: Reachable(size, t) && |RunningTasks(t)| == n
  {
    var t := AbandonMany(size, n);
    assert RunningTasks(t) == Below(n);
  }

  lemma NoWorkers(t: State)
    requires Inv(t) && t.size == 0
    ensures forall g: nat, w: nat :: !HasWorker(t, g, w)
  {
    forall g: nat, w: nat
      ensures !HasWorker(t, g, w)
    {
      if g < |t.generations| {
        assert GenerationOk(t, g);
      }
    }
  }

  /** Without workers nothing is ever started. */
  lemma EmptyPoolStartsNothing(t: State)
    requires Reachable(0, t)
    ensures RunningTasks(t) == {}
  {
    ReachableInv(0, t);
    NoWorkers(t);
    forall id | 0 <= id < |t.tasks|
      ensures t.tasks[id].starts == 0
    {
      assert TaskOk(t, id) && !HasWorker(t, t.tasks[id].generation, t.tasks[id].worker);
    }
  }
}

// Run bookkeeping of the scheduler under interleaving
// (src/core/scheduler_cron: scheduler_engine_runtime.py, store_runs.py,
// store_jobs.py, schema.sql). run_job coroutines interleave at their awaits;
// every store call is one atomic step. Ids are uuids: never used twice.
module SchedulerRuns {

  import opened Wrappers

  datatype Job = Job(name: string, runCount: int, failureCount: int)

  datatype RunStatus = Running | Success | Failed

  datatype RunRow = RunRow(jobId: string, status: RunStatus)

  // Where a run_job coroutine waits.
  datatype Pc =
    | Creating                                       // before create_run
    | Executing(runId: nat)                          // in the executor callback
    | Completing(runId: nat, ok: bool)               // before complete_run
    | Reading(ok: bool)                              // before get_job_by_id
    | Updating(ok: bool, name: string, count: int)   // before update_job, with what was read
    | Deleting(name: string)                         // before delete_job, auto_delete only
    | Finished

  datatype Task = Task(jobId: string, autoDelete: bool, pc: Pc)

  datatype State = State(
    jobs: map<string, Job>,
    runs: map<nat, RunRow>,
    tasks: map<nat, Task>,
    runningJobs: map<string, nat>,
    usedJobs: set<string>,
    nextRun: nat)

  const START: State := State(map[], map[], map[], map[], {}, 0)

  datatype Step =
    | AddJob(jobId: string, name: string)
    | DeleteJob(name: string)
    | StartRun(taskId: nat, jobId: string, autoDelete: bool)
    | Advance(taskId: nat, ok: bool)   // ok: did the executor succeed

  // ---------- the steps ----------

  predicate NameTaken(s: State, name: string)
  {
    exists j :: j in s.jobs && s.jobs[j].name == name
  }

  predicate Active(s: State, t: nat)
  {
    t in s.tasks && !s.tasks[t].pc.Finished?
  }

  // DELETE ... WHERE name, with ON DELETE CASCADE to the runs.
  function Delete(s: State, name: string): State
  {
    var kept := map j | j in s.jobs && s.jobs[j].name != name :: s.jobs[j];
    s.(jobs := kept, runs := map r | r in s.runs && s.runs[r].jobId in kept :: s.runs[r])
  }

  // UPDATE ... SET run_count (or failure_count) = count + 1 WHERE name
  function Bump(s: State, ok: bool, name: string, count: int): State
  {
    s.(jobs := map j | j in s.jobs :: BumpJob(s.jobs[j], ok, name, count))
  }

  function BumpJob(job: Job, ok: bool, name: string, count: int): Job
  {
    if job.name != name then job
    else if ok then job.(runCount := count + 1)
    else job.(failureCount := count + 1)
  }

  function SetPc(s: State, t: nat, pc: Pc): State
    requires t in s.tasks
  {
    s.(tasks := s.tasks[t := s.tasks[t].(pc := pc)])
  }

  // The finally block: the job is no longer listed as running.
  function Finish(s: State, t: nat): State
    requires t in s.tasks
  {
    SetPc(s, t, Finished).(runningJobs := s.runningJobs - {s.tasks[t].jobId})
  }

  function AdvanceTask(s: State, t: nat, ok: bool): State
    requires t in s.tasks
  {
    var jobId := s.tasks[t].jobId;
    match s.tasks[t].pc
    case Creating =>
      // The foreign key refuses a run of an unknown job, outside the try block.
      if jobId !in s.jobs then SetPc(s, t, Finished)
      else
        SetPc(s, t, Executing(s.nextRun)).(
          runs := s.runs[s.nextRun := RunRow(jobId, Running)],
          runningJobs := s.runningJobs[jobId := s.nextRun],
          nextRun := s.nextRun + 1)
    case Executing(r) => SetPc(s, t, Completing(r, ok))
    case Completing(r, done) =>
      var status := if done then Success else Failed;
      SetPc(s, t, Reading(done)).(
        runs := if r in s.runs then s.runs[r := s.runs[r].(status := status)] else s.runs)
    case Reading(done) =>
      if jobId !in s.jobs then Finish(s, t)
      else
        var job := s.jobs[jobId];
        SetPc(s, t, Updating(done, job.name, if done then job.runCount else job.failureCount))
    case Updating(done, name, count) =>
      var next := Bump(s, done, name, count);
      if done && s.tasks[t].autoDelete then SetPc(next, t, Deleting(name)) else Finish(next, t)
    case Deleting(name) => Finish(Delete(s, name), t)
    case Finished => s
  }

  // A step that the tables or the scheduler refuse leaves the state alone:
  // names are UNIQUE, and a job has one running instance at a time.
  function Apply(s: State, step: Step): State
  {
    match step
    case AddJob(jobId, name) =>
      if NameTaken(s, name) || jobId in s.usedJobs then s
      else s.(jobs := s.jobs[jobId := Job(name, 0, 0)], usedJobs := s.usedJobs + {jobId})
    case DeleteJob(name) => Delete(s, name)
    case StartRun(t, jobId, autoDelete) =>
      if t in s.tasks || (exists u :: u in s.tasks && s.tasks[u].jobId == jobId && !s.tasks[u].pc.Finished?) then s
      else s.(tasks := s.tasks[t := Task(jobId, autoDelete, Creating)])
    case Advance(t, ok) =>
      if t in s.tasks then AdvanceTask(s, t, ok) else s
  }

  // A coroutine is about to write a counter under this name.
  predicate NameHeld(s: State, name: string)
  {
    exists t :: t in s.tasks && s.tasks[t].pc.Updating? && s.tasks[t].pc.name == name
  }

  // The rule the bookkeeping needs: no job is added under a name that a
  // coroutine is about to write to.
  predicate Careful(s: State, step: Step)
  {
    step.AddJob? && !NameTaken(s, step.name) && step.jobId !in s.usedJobs ==> !NameHeld(s, step.name)
  }

  function Run(steps: seq<Step>): State
  {
    if steps == [] then START else Apply(Run(steps[..|steps| - 1]), steps[|steps| - 1])
  }

  predicate CarefulRun(steps: seq<Step>)
  {
    steps == [] ||
      (CarefulRun(steps[..|steps| - 1]) && Careful(Run(steps[..|steps| - 1]), steps[|steps| - 1]))
  }

  // ---------- what holds in every state ----------

  function RowsOf(s: State, jobId: string, status: RunStatus): set<nat>
  {
    set r | r in s.runs && s.runs[r] == RunRow(jobId, status)
  }

  // Between complete_run and update_job a finished run is not counted yet.
  predicate Uncounted(pc: Pc, ok: bool)
  {
    (pc.Reading? && pc.ok == ok) || (pc.Updating? && pc.ok == ok)
  }

  predicate HasUncounted(s: State, jobId: string, ok: bool)
  {
    exists t :: t in s.tasks && s.tasks[t].jobId == jobId && Uncounted(s.tasks[t].pc, ok)
  }

  function Pending(s: State, jobId: string, ok: bool): int
  {
    if HasUncounted(s, jobId, ok) then 1 else 0
  }

  // The counters equal the finished runs, up to the one run in between.
  ghost predicate Counted(s: State)
  {
    forall j :: j in s.jobs ==>
      && s.jobs[j].runCount + Pending(s, j, true) == |RowsOf(s, j, Success)|
      && s.jobs[j].failureCount + Pending(s, j, false) == |RowsOf(s, j, Failed)|
  }

  predicate Holds(pc: Pc, r: nat)
  {
    (pc.Executing? && pc.runId == r) || (pc.Completing? && pc.runId == r)
  }

  // A run marked running belongs to a coroutine that will still complete it.
  ghost predicate RunningRowsOwned(s: State)
  {
    forall r :: r in s.runs && s.runs[r].status == Running ==>
      exists t :: t in s.tasks && s.tasks[t].jobId == s.runs[r].jobId && Holds(s.tasks[t].pc, r)
  }

  ghost predicate Tables(s: State)
  {
    && s.jobs.Keys <= s.usedJobs
    && (forall j :: j in s.jobs ==> s.jobs[j].runCount >= 0 && s.jobs[j].failureCount >= 0)
    && (forall i, j :: i in s.jobs && j in s.jobs && s.jobs[i].name == s.jobs[j].name ==> i == j)
    && (forall r :: r in s.runs ==> r < s.nextRun && s.runs[r].jobId in s.jobs)
  }

  ghost predicate OneActivePerJob(s: State)
  {
    forall t, u :: Active(s, t) && Active(s, u) && s.tasks[t].jobId == s.tasks[u].jobId ==> t == u
  }

  // The run a coroutine works on is its job's and running, until the job goes.
  predicate OwnRow(s: State, jobId: string, r: nat)
  {
    && r < s.nextRun
    && (r in s.runs <==> jobId in s.jobs)
    && (r in s.runs ==> s.runs[r] == RunRow(jobId, Running))
  }

  // What a coroutine knows is still true when it acts on it.
  ghost predicate TaskSound(s: State, t: nat)
    requires t in s.tasks
  {
    var task := s.tasks[t];
    (task.pc.Creating? || task.pc.Finished? || task.jobId in s.usedJobs)
    && match task.pc
    case Executing(r) => OwnRow(s, task.jobId, r)
    case Completing(r, _) => OwnRow(s, task.jobId, r)
    case Updating(ok, name, count) =>
      count >= 0 &&
      if task.jobId in s.jobs
      then s.jobs[task.jobId].name == name
           && count == if ok then s.jobs[task.jobId].runCount else s.jobs[task.jobId].failureCount
      else !NameTaken(s, name)
    case _ => true
  }

  ghost predicate Inv(s: State)
  {
    && Tables(s) && OneActivePerJob(s) && Counted(s) && RunningRowsOwned(s)
    && (forall t :: t in s.tasks ==> TaskSound(s, t))
  }

  // ---------- every step keeps it ----------

  predicate SameJob(a: Job, b: Job)
  {
    a.name == b.name && a.runCount == b.runCount && a.failureCount == b.failureCount
  }

  // The bookkeeping of job j is untouched.
  ghost predicate SameCounts(s: State, n: State, j: string)
  {
    && j in s.jobs && j in n.jobs && SameJob(s.jobs[j], n.jobs[j])
    && (forall status :: status != Running ==> RowsOf(n, j, status) == RowsOf(s, j, status))
    && (forall ok :: HasUncounted(n, j, ok) == HasUncounted(s, j, ok))
  }

  ghost predicate CountedJob(s: State, j: string)
    requires j in s.jobs
  {
    && s.jobs[j].runCount + Pending(s, j, true) == |RowsOf(s, j, Success)|
    && s.jobs[j].failureCount + Pending(s, j, false) == |RowsOf(s, j, Failed)|
  }

  lemma SameCountsCounted(s: State, n: State, j: string)
    requires Counted(s) && SameCounts(s, n, j)
    ensures CountedJob(n, j)
  {
    assert RowsOf(n, j, Success) == RowsOf(s, j, Success) && RowsOf(n, j, Failed) == RowsOf(s, j, Failed);
  }

  lemma NewJobCounted(s: State, n: State, jobId: string, name: string)
    requires Inv(s) && jobId !in s.usedJobs
    requires n.runs == s.runs && n.tasks == s.tasks && jobId in n.jobs && n.jobs[jobId] == Job(name, 0, 0)
    ensures CountedJob(n, jobId)
  {
    assert RowsOf(n, jobId, Success) == {} && RowsOf(n, jobId, Failed) == {};
    forall t, ok | t in n.tasks && n.tasks[t].jobId == jobId
      ensures !Uncounted(n.tasks[t].pc, ok)
    {
      assert TaskSound(s, t);
    }
  }

  lemma NewJobSound(s: State, n: State, t: nat, jobId: string, name: string)
    requires Tables(s) && t in s.tasks && TaskSound(s, t) && jobId !in s.usedJobs && !NameHeld(s, name)
    requires n == s.(jobs := s.jobs[jobId := Job(name, 0, 0)], usedJobs := s.usedJobs + {jobId})
    ensures TaskSound(n, t)
  {
    assert s.tasks[t].pc.Updating? ==> s.tasks[t].pc.name != name;
  }

  lemma AddJobKeeps(s: State, jobId: string, name: string)
    requires Inv(s) && Careful(s, AddJob(jobId, name))
    ensures Inv(Apply(s, AddJob(jobId, name)))
  {
    if !NameTaken(s, name) && jobId !in s.usedJobs {
      var n := Apply(s, AddJob(jobId, name));
      forall j | j in n.jobs
        ensures CountedJob(n, j)
      {
        if j == jobId {
          NewJobCounted(s, n, jobId, name);
        } else {
          SameCountsCounted(s, n, j);
        }
      }
      forall t | t in n.tasks
        ensures TaskSound(n, t)
      {
        NewJobSound(s, n, t, jobId, name);
      }
      assert RunningRowsOwned(n);
    }
  }

  lemma DeleteKeeps(s: State, name: string)
    requires Inv(s)
    ensures Inv(Delete(s, name))
  {
    var n := Delete(s, name);
    forall j | j in n.jobs
      ensures CountedJob(n, j)
    {
      SameCountsCounted(s, n, j);
    }
    forall t | t in n.tasks
      ensures TaskSound(n, t)
    {
      assert TaskSound(s, t);
    }
  }

  // ---------- steps of one coroutine ----------

  // Only coroutine t moved, within its own job.
  ghost predicate OnlyMoved(s: State, n: State, t: nat)
  {
    && t in n.tasks
    && (t in s.tasks ==> n.tasks[t].jobId == s.tasks[t].jobId)
    && (forall u :: u != t ==> (u in s.tasks <==> u in n.tasks))
    && (forall u :: u != t && u in s.tasks ==> n.tasks[u] == s.tasks[u])
  }

  // A coroutine that is not in between before or after does not matter.
  lemma OthersUncounted(s: State, n: State, t: nat, j: string, ok: bool)
    requires OnlyMoved(s, n, t)
    requires t in s.tasks && s.tasks[t].jobId == j ==> (Uncounted(s.tasks[t].pc, ok) <==> Uncounted(n.tasks[t].pc, ok))
    requires t !in s.tasks ==> !Uncounted(n.tasks[t].pc, ok)
    ensures HasUncounted(n, j, ok) == HasUncounted(s, j, ok)
  {
    if HasUncounted(s, j, ok) {
      var u :| u in s.tasks && s.tasks[u].jobId == j && Uncounted(s.tasks[u].pc, ok);
      assert u in n.tasks && n.tasks[u].jobId == j && Uncounted(n.tasks[u].pc, ok);
    }
    if HasUncounted(n, j, ok) {
      var u :| u in n.tasks && n.tasks[u].jobId == j && Uncounted(n.tasks[u].pc, ok);
      assert u in s.tasks && s.tasks[u].jobId == j && Uncounted(s.tasks[u].pc, ok);
    }
  }

  // The only active coroutine of a job decides what of it is uncounted.
  lemma OwnUncounted(s: State, t: nat, ok: bool)
    requires OneActivePerJob(s) && Active(s, t)
    ensures HasUncounted(s, s.tasks[t].jobId, ok) <==> Uncounted(s.tasks[t].pc, ok)
  {
    if HasUncounted(s, s.tasks[t].jobId, ok) {
      var u :| u in s.tasks && s.tasks[u].jobId == s.tasks[t].jobId && Uncounted(s.tasks[u].pc, ok);
      assert Active(s, u);
    }
  }

  // Running rows other than those of t keep their owners.
  lemma OwnersStay(s: State, n: State, t: nat)
    requires RunningRowsOwned(s) && OnlyMoved(s, n, t)
    requires forall r :: r in n.runs && n.runs[r].status == Running && !(r in s.runs && s.runs[r] == n.runs[r]) ==>
      n.tasks[t].jobId == n.runs[r].jobId && Holds(n.tasks[t].pc, r)
    requires t in s.tasks ==> forall r :: r in n.runs && n.runs[r].status == Running && Holds(s.tasks[t].pc, r) ==>
      n.tasks[t].jobId == n.runs[r].jobId && Holds(n.tasks[t].pc, r)
    ensures RunningRowsOwned(n)
  {
    forall r | r in n.runs && n.runs[r].status == Running
      ensures exists u :: u in n.tasks && n.tasks[u].jobId == n.runs[r].jobId && Holds(n.tasks[u].pc, r)
    {
      if r in s.runs && s.runs[r] == n.runs[r] {
        var u :| u in s.tasks && s.tasks[u].jobId == s.runs[r].jobId && Holds(s.tasks[u].pc, r);
        assert u in n.tasks && n.tasks[u].jobId == n.runs[r].jobId && Holds(n.tasks[u].pc, r);
      } else {
        assert t in n.tasks && n.tasks[t].jobId == n.runs[r].jobId && Holds(n.tasks[t].pc, r);
      }
    }
  }

  lemma ActiveStays(s: State, n: State, t: nat)
    requires OneActivePerJob(s) && OnlyMoved(s, n, t)
    requires Active(s, t) || forall u :: Active(s, u) ==> s.tasks[u].jobId != n.tasks[t].jobId
    ensures OneActivePerJob(n)
  {
    forall u, v | Active(n, u) && Active(n, v) && n.tasks[u].jobId == n.tasks[v].jobId
      ensures u == v
    {
      assert u != t ==> Active(s, u);
      assert v != t ==> Active(s, v);
    }
  }

  lemma StartKeeps(s: State, t: nat, jobId: string, autoDelete: bool)
    requires Inv(s)
    ensures Inv(Apply(s, StartRun(t, jobId, autoDelete)))
  {
    var n := Apply(s, StartRun(t, jobId, autoDelete));
    if t in n.tasks && t !in s.tasks {
      ActiveStays(s, n, t);
      OwnersStay(s, n, t);
      forall j | j in n.jobs
        ensures CountedJob(n, j)
      {
        OthersUncounted(s, n, t, j, true);
        OthersUncounted(s, n, t, j, false);
        SameCountsCounted(s, n, j);
      }
      forall u | u in n.tasks
        ensures TaskSound(n, u)
      {
        assert u != t ==> TaskSound(s, u);
      }
    }
  }

  // Shared frame of a coroutine step that leaves its job's bookkeeping and the
  // knowledge of the other coroutines alone.
  lemma QuietStep(s: State, n: State, t: nat)
    requires Inv(s) && Active(s, t) && OnlyMoved(s, n, t)
    requires n.jobs == s.jobs && n.usedJobs == s.usedJobs && n.nextRun >= s.nextRun
    requires Tables(n) && TaskSound(n, t)
    requires forall r :: r in s.runs ==> r in n.runs && n.runs[r] == s.runs[r]
    requires forall r :: r in n.runs && r !in s.runs ==>
      r >= s.nextRun && n.runs[r] == RunRow(n.tasks[t].jobId, Running) && Holds(n.tasks[t].pc, r)
    requires forall r :: r in s.runs && s.runs[r].status == Running && Holds(s.tasks[t].pc, r) ==> Holds(n.tasks[t].pc, r)
    requires s.tasks[t].jobId in s.jobs ==> forall ok :: Uncounted(s.tasks[t].pc, ok) <==> Uncounted(n.tasks[t].pc, ok)
    ensures Inv(n)
  {
    ActiveStays(s, n, t);
    OwnersStay(s, n, t);
    forall j | j in n.jobs
      ensures CountedJob(n, j)
    {
      QuietCounted(s, n, t, j);
    }
    forall u | u in n.tasks
      ensures TaskSound(n, u)
    {
      if u != t {
        QuietSound(s, n, t, u);
      }
    }
  }

  // Another coroutine's knowledge stays true.
  lemma QuietSound(s: State, n: State, t: nat, u: nat)
    requires Tables(s) && OnlyMoved(s, n, t) && u in s.tasks && u != t && TaskSound(s, u)
    requires n.jobs == s.jobs && n.usedJobs == s.usedJobs && n.nextRun >= s.nextRun
    requires forall r :: r in s.runs ==> r in n.runs && n.runs[r] == s.runs[r]
    requires forall r :: r in n.runs && r !in s.runs ==> r >= s.nextRun
    ensures TaskSound(n, u)
  {
  }

  lemma QuietCounted(s: State, n: State, t: nat, j: string)
    requires Counted(s) && OnlyMoved(s, n, t) && t in s.tasks && j in s.jobs && n.jobs == s.jobs
    requires forall r :: r in s.runs ==> r in n.runs && n.runs[r] == s.runs[r]
    requires forall r :: r in n.runs && r !in s.runs ==> n.runs[r].status == Running
    requires s.tasks[t].jobId in s.jobs ==> forall ok :: Uncounted(s.tasks[t].pc, ok) <==> Uncounted(n.tasks[t].pc, ok)
    ensures CountedJob(n, j)
  {
    OthersUncounted(s, n, t, j, true);
    OthersUncounted(s, n, t, j, false);
    assert RowsOf(n, j, Success) == RowsOf(s, j, Success) && RowsOf(n, j, Failed) == RowsOf(s, j, Failed);
    SameCountsCounted(s, n, j);
  }

  // What complete_run does: it settles the coroutine's own row, if that is still there.
  ghost predicate Completed(s: State, n: State, t: nat, r: nat, done: bool)
  {
    && Active(s, t) && OnlyMoved(s, n, t)
    && s.tasks[t].pc == Completing(r, done) && n.tasks[t].pc == Reading(done)
    && n.jobs == s.jobs && n.usedJobs == s.usedJobs && n.nextRun == s.nextRun
    && n.runs == if r in s.runs then s.runs[r := s.runs[r].(status := if done then Success else Failed)] else s.runs
  }

  lemma CompleteKeeps(s: State, n: State, t: nat, r: nat, done: bool)
    requires Inv(s) && Completed(s, n, t, r, done)
    ensures Inv(n)
  {
    CompletedFrame(s, n, t, r, done);
    forall j | j in n.jobs
      ensures CountedJob(n, j)
    {
      if j == s.tasks[t].jobId {
        CompletedCounted(s, n, t, r, done);
      } else {
        CompletedOthers(s, n, t, r, done, j);
      }
    }
    forall u | u in n.tasks
      ensures TaskSound(n, u)
    {
      OtherRowsStay(s, n, t, u, r, done);
    }
  }

  lemma CompletedFrame(s: State, n: State, t: nat, r: nat, done: bool)
    requires Inv(s) && Completed(s, n, t, r, done)
    ensures Tables(n) && OneActivePerJob(n) && RunningRowsOwned(n) && TaskSound(s, t)
  {
    assert TaskSound(s, t);
    ActiveStays(s, n, t);
    OwnersStay(s, n, t);
  }

  lemma CompletedOthers(s: State, n: State, t: nat, r: nat, done: bool, j: string)
    requires Counted(s) && Completed(s, n, t, r, done) && TaskSound(s, t)
    requires j in s.jobs && j != s.tasks[t].jobId
    ensures CountedJob(n, j)
  {
    OthersUncounted(s, n, t, j, true);
    OthersUncounted(s, n, t, j, false);
    assert RowsOf(n, j, Success) == RowsOf(s, j, Success) && RowsOf(n, j, Failed) == RowsOf(s, j, Failed);
    SameCountsCounted(s, n, j);
  }

  // A row completed by t is not the row another coroutine works on.
  lemma OtherRowsStay(s: State, n: State, t: nat, u: nat, r: nat, done: bool)
    requires Inv(s) && Completed(s, n, t, r, done) && u in n.tasks
    ensures TaskSound(n, u)
  {
    assert TaskSound(s, t);
    if u != t {
      assert TaskSound(s, u);
      if Active(s, u) && s.tasks[u].jobId in s.jobs {
        assert s.tasks[u].jobId != s.tasks[t].jobId;
      }
    }
  }

  lemma CompletedCounted(s: State, n: State, t: nat, r: nat, done: bool)
    requires Inv(s) && Completed(s, n, t, r, done) && s.tasks[t].jobId in s.jobs
    ensures CountedJob(n, s.tasks[t].jobId)
  {
    ActiveStays(s, n, t);
    var own := s.tasks[t].jobId;
    CompletedRows(s, n, t, r, done);
    PendingOfActive(s, t, true);
    PendingOfActive(s, t, false);
    PendingOfActive(n, t, true);
    PendingOfActive(n, t, false);
    assert CountedJob(s, own);
  }

  lemma PendingOfActive(s: State, t: nat, ok: bool)
    requires OneActivePerJob(s) && Active(s, t)
    ensures Pending(s, s.tasks[t].jobId, ok) == if Uncounted(s.tasks[t].pc, ok) then 1 else 0
  {
    OwnUncounted(s, t, ok);
    if Uncounted(s.tasks[t].pc, ok) {
      assert HasUncounted(s, s.tasks[t].jobId, ok);
    }
  }

  lemma CompletedRows(s: State, n: State, t: nat, r: nat, done: bool)
    requires Inv(s) && Completed(s, n, t, r, done) && s.tasks[t].jobId in s.jobs
    ensures var own := s.tasks[t].jobId;
            && |RowsOf(n, own, Success)| == |RowsOf(s, own, Success)| + (if done then 1 else 0)
            && |RowsOf(n, own, Failed)| == |RowsOf(s, own, Failed)| + (if done then 0 else 1)
  {
    var own := s.tasks[t].jobId;
    assert TaskSound(s, t);
    SettledRows(s, n, r, own, if done then Success else Failed, if done then Failed else Success);
  }

  lemma SettledRows(s: State, n: State, r: nat, own: string, status: RunStatus, other: RunStatus)
    requires r in s.runs && s.runs[r] == RunRow(own, Running) && n.runs == s.runs[r := RunRow(own, status)]
    requires status != Running && other != Running && other != status
    ensures |RowsOf(n, own, status)| == |RowsOf(s, own, status)| + 1
    ensures RowsOf(n, own, other) == RowsOf(s, own, other)
  {
    assert r !in RowsOf(s, own, status);
    assert RowsOf(n, own, status) == RowsOf(s, own, status) + {r};
  }

  // What update_job does.
  ghost predicate Updated(s: State, n: State, t: nat)
  {
    && Active(s, t) && OnlyMoved(s, n, t) && s.tasks[t].pc.Updating?
    && (n.tasks[t].pc.Deleting? || n.tasks[t].pc.Finished?)
    && n.jobs == Bump(s, s.tasks[t].pc.ok, s.tasks[t].pc.name, s.tasks[t].pc.count).jobs
    && n.runs == s.runs && n.usedJobs == s.usedJobs && n.nextRun == s.nextRun
  }

  // update_job writes the counter it read plus one: the run is now counted.
  lemma UpdateKeeps(s: State, n: State, t: nat)
    requires Inv(s) && Updated(s, n, t)
    ensures Inv(n)
  {
    assert TaskSound(s, t);
    UpdatedFrame(s, n, t);
    forall j | j in n.jobs
      ensures CountedJob(n, j)
    {
      if j == s.tasks[t].jobId {
        UpdatedCounted(s, n, t);
      } else {
        UpdatedOthers(s, n, t, j);
      }
    }
    forall u | u in n.tasks
      ensures TaskSound(n, u)
    {
      OtherCountersStay(s, n, t, u);
    }
  }

  lemma UpdatedFrame(s: State, n: State, t: nat)
    requires Tables(s) && OneActivePerJob(s) && RunningRowsOwned(s) && Updated(s, n, t) && TaskSound(s, t)
    ensures Tables(n) && OneActivePerJob(n) && RunningRowsOwned(n)
  {
    ActiveStays(s, n, t);
    OwnersStay(s, n, t);
  }

  lemma UpdatedCounted(s: State, n: State, t: nat)
    requires Counted(s) && OneActivePerJob(s) && Updated(s, n, t) && TaskSound(s, t) && s.tasks[t].jobId in s.jobs
    ensures CountedJob(n, s.tasks[t].jobId)
  {
    var own, pc := s.tasks[t].jobId, s.tasks[t].pc;
    assert CountedJob(s, own);
    assert n.jobs[own] == BumpJob(s.jobs[own], pc.ok, pc.name, pc.count);
    SameRows(s, n, own);
    PendingMoves(s, n, t, true);
    PendingMoves(s, n, t, false);
  }

  lemma PendingMoves(s: State, n: State, t: nat, ok: bool)
    requires OneActivePerJob(s) && Updated(s, n, t)
    ensures Pending(n, s.tasks[t].jobId, ok) == 0
    ensures Pending(s, s.tasks[t].jobId, ok) == if s.tasks[t].pc.ok == ok then 1 else 0
  {
    PendingOfActive(s, t, ok);
    NothingUncounted(s, n, t, ok);
  }

  lemma UpdatedOthers(s: State, n: State, t: nat, j: string)
    requires Inv(s) && Updated(s, n, t) && j in s.jobs && j != s.tasks[t].jobId
    ensures CountedJob(n, j)
  {
    assert TaskSound(s, t) && CountedJob(s, j);
    SameRows(s, n, j);
    OthersUncounted(s, n, t, j, true);
    OthersUncounted(s, n, t, j, false);
    assert n.jobs[j] == s.jobs[j];
  }

  lemma SameRows(s: State, n: State, j: string)
    requires n.runs == s.runs
    ensures RowsOf(n, j, Success) == RowsOf(s, j, Success) && RowsOf(n, j, Failed) == RowsOf(s, j, Failed)
  {
  }

  lemma NothingUncounted(s: State, n: State, t: nat, ok: bool)
    requires OneActivePerJob(s) && Active(s, t) && OnlyMoved(s, n, t)
    requires !Uncounted(n.tasks[t].pc, ok)
    ensures !HasUncounted(n, s.tasks[t].jobId, ok)
  {
    forall u | u in n.tasks && n.tasks[u].jobId == s.tasks[t].jobId
      ensures !Uncounted(n.tasks[u].pc, ok)
    {
      assert u != t ==> !Active(s, u);
    }
  }

  lemma OtherCountersStay(s: State, n: State, t: nat, u: nat)
    requires Inv(s) && Updated(s, n, t)
    requires u in n.tasks
    ensures TaskSound(n, u)
  {
    assert TaskSound(s, t);
    if u != t {
      assert TaskSound(s, u);
      var theirs := s.tasks[u].jobId;
      if s.tasks[u].pc.Updating? && theirs in s.jobs {
        assert Active(s, u) && theirs != s.tasks[t].jobId;
        assert n.jobs[theirs] == s.jobs[theirs];
      }
    }
  }

  // What create_run and the two lines after it do for a known job.
  ghost predicate Created(s: State, n: State, t: nat)
  {
    && Active(s, t) && s.tasks[t].pc.Creating? && s.tasks[t].jobId in s.jobs
    && n.jobs == s.jobs && n.usedJobs == s.usedJobs && n.nextRun == s.nextRun + 1
    && n.tasks == s.tasks[t := s.tasks[t].(pc := Executing(s.nextRun))]
    && n.runs == s.runs[s.nextRun := RunRow(s.tasks[t].jobId, Running)]
  }

  lemma CreatedFrame(s: State, n: State, t: nat)
    requires Inv(s) && Created(s, n, t)
    ensures Tables(n) && OneActivePerJob(n) && RunningRowsOwned(n)
  {
    assert s.nextRun !in s.runs;
    ActiveStays(s, n, t);
    OwnersStay(s, n, t);
  }

  lemma CreatedSound(s: State, n: State, t: nat, u: nat)
    requires Tables(s) && Created(s, n, t) && u in s.tasks && TaskSound(s, u)
    ensures TaskSound(n, u)
  {
  }

  lemma CreatedCounted(s: State, n: State, t: nat, j: string)
    requires Tables(s) && Counted(s) && Created(s, n, t) && j in s.jobs
    ensures CountedJob(n, j)
  {
    assert s.nextRun !in s.runs;
    QuietCounted(s, n, t, j);
  }

  lemma CreatedKeeps(s: State, n: State, t: nat)
    requires Inv(s) && Created(s, n, t)
    ensures Inv(n)
  {
    CreatedFrame(s, n, t);
    forall j | j in n.jobs
      ensures CountedJob(n, j)
    {
      CreatedCounted(s, n, t, j);
    }
    forall u | u in n.tasks
      ensures TaskSound(n, u)
    {
      CreatedSound(s, n, t, u);
    }
  }

  lemma CreateKeeps(s: State, t: nat, ok: bool)
    requires Inv(s) && t in s.tasks && s.tasks[t].pc.Creating?
    ensures Inv(AdvanceTask(s, t, ok))
  {
    if s.tasks[t].jobId in s.jobs {
      CreatedKeeps(s, AdvanceTask(s, t, ok), t);
    } else {
      QuietStep(s, SetPc(s, t, Finished), t);
    }
  }

  lemma ExecuteKeeps(s: State, t: nat, ok: bool)
    requires Inv(s) && t in s.tasks && s.tasks[t].pc.Executing?
    ensures Inv(AdvanceTask(s, t, ok))
  {
    assert TaskSound(s, t);
    QuietStep(s, AdvanceTask(s, t, ok), t);
  }

  lemma ReadKeeps(s: State, t: nat, ok: bool)
    requires Inv(s) && t in s.tasks && s.tasks[t].pc.Reading?
    ensures Inv(AdvanceTask(s, t, ok))
  {
    assert TaskSound(s, t);
    QuietStep(s, AdvanceTask(s, t, ok), t);
  }

  lemma CompletingKeeps(s: State, t: nat, ok: bool)
    requires Inv(s) && t in s.tasks && s.tasks[t].pc.Completing?
    ensures Inv(AdvanceTask(s, t, ok))
  {
    assert TaskSound(s, t);
    CompleteKeeps(s, AdvanceTask(s, t, ok), t, s.tasks[t].pc.runId, s.tasks[t].pc.ok);
  }

  lemma UpdatingKeeps(s: State, t: nat, ok: bool)
    requires Inv(s) && t in s.tasks && s.tasks[t].pc.Updating?
    ensures Inv(AdvanceTask(s, t, ok))
  {
    assert TaskSound(s, t);
    UpdateKeeps(s, AdvanceTask(s, t, ok), t);
  }

  lemma DeletingKeeps(s: State, t: nat, ok: bool)
    requires Inv(s) && t in s.tasks && s.tasks[t].pc.Deleting?
    ensures Inv(AdvanceTask(s, t, ok))
  {
    var mid := Delete(s, s.tasks[t].pc.name);
    DeleteKeeps(s, s.tasks[t].pc.name);
    assert TaskSound(mid, t);
    QuietStep(mid, AdvanceTask(s, t, ok), t);
  }

  lemma AdvanceKeeps(s: State, t: nat, ok: bool)
    requires Inv(s) && t in s.tasks
    ensures Inv(AdvanceTask(s, t, ok))
  {
    match s.tasks[t].pc
    case Creating => CreateKeeps(s, t, ok);
    case Executing(r) => ExecuteKeeps(s, t, ok);
    case Completing(r, done) => CompletingKeeps(s, t, ok);
    case Reading(done) => ReadKeeps(s, t, ok);
    case Updating(done, name, count) => UpdatingKeeps(s, t, ok);
    case Deleting(name) => DeletingKeeps(s, t, ok);
    case Finished =>
  }

  // In every state a careful run reaches, an undeleted job's counters equal its
  // finished runs up to the one being counted, and every run marked running
  // still has a coroutine that will complete it.
  lemma {:induction false} BookkeepingHolds(steps: seq<Step>)
    requires CarefulRun(steps)
    ensures Inv(Run(steps))
  {
    if steps == [] {
      assert Counted(START);
    } else {
      var before, step := Run(steps[..|steps| - 1]), steps[|steps| - 1];
      BookkeepingHolds(steps[..|steps| - 1]);
      match step
      case AddJob(jobId, name) => AddJobKeeps(before, jobId, name);
      case DeleteJob(name) => DeleteKeeps(before, name);
      case StartRun(t, jobId, autoDelete) => StartKeeps(before, t, jobId, autoDelete);
      case Advance(t, ok) =>
        if t in before.tasks {
          AdvanceKeeps(before, t, ok);
        }
    }
  }

  // Once all coroutines have finished, the counters are exact and no run is
  // left marked running.
  lemma QuiescentCountsExact(steps: seq<Step>)
    requires CarefulRun(steps)
    requires forall t :: t in Run(steps).tasks ==> Run(steps).tasks[t].pc.Finished?
    ensures var s := Run(steps);
            && (forall j :: j in s.jobs ==>
                  s.jobs[j].runCount == |RowsOf(s, j, Success)| && s.jobs[j].failureCount == |RowsOf(s, j, Failed)|)
            && (forall r :: r in s.runs ==> s.runs[r].status != Running)
  {
    BookkeepingHolds(steps);
    var s := Run(steps);
    assert forall j :: j in s.jobs ==> CountedJob(s, j);
  }

  // The rule is exact: a job may be added under a free name without the next
  // step of any coroutine spoiling a counter if and only if no coroutine is
  // about to write to that name.
  lemma AddJobSafeIffCareful(s: State, jobId: string, name: string)
    requires Inv(s) && jobId !in s.usedJobs && !NameTaken(s, name)
    ensures Careful(s, AddJob(jobId, name)) <==>
            forall t, ok :: Counted(Apply(Apply(s, AddJob(jobId, name)), Advance(t, ok)))
  {
    var mid := Apply(s, AddJob(jobId, name));
    if Careful(s, AddJob(jobId, name)) {
      AddJobKeeps(s, jobId, name);
      forall t, ok
        ensures Counted(Apply(mid, Advance(t, ok)))
      {
        if t in mid.tasks {
          AdvanceKeeps(mid, t, ok);
        }
      }
    } else {
      var t :| t in s.tasks && s.tasks[t].pc.Updating? && s.tasks[t].pc.name == name;
      CarelessAddMiscounts(s, t, jobId, true);
    }
  }

  lemma NoRowsYet(s: State, n: State, jobId: string)
    requires Tables(s) && jobId !in s.usedJobs && n.runs == s.runs
    ensures RowsOf(n, jobId, Success) == {} && RowsOf(n, jobId, Failed) == {}
  {
    assert forall r :: r in s.runs ==> s.runs[r].jobId in s.jobs;
  }

  // The coroutine writes one more than it read to a job that never ran.
  lemma CarelessAddMiscounts(s: State, t: nat, jobId: string, ok: bool)
    requires Inv(s) && t in s.tasks && s.tasks[t].pc.Updating?
    requires jobId !in s.usedJobs && !NameTaken(s, s.tasks[t].pc.name)
    ensures var n := Apply(Apply(s, AddJob(jobId, s.tasks[t].pc.name)), Advance(t, ok));
            jobId in n.jobs && !CountedJob(n, jobId)
  {
    var pc := s.tasks[t].pc;
    assert TaskSound(s, t);
    var mid := Apply(s, AddJob(jobId, pc.name));
    var n := Apply(mid, Advance(t, ok));
    NoRowsYet(s, n, jobId);
    assert n.jobs[jobId] == BumpJob(Job(pc.name, 0, 0), pc.ok, pc.name, pc.count);
    forall u, done | u in n.tasks && n.tasks[u].jobId == jobId
      ensures !Uncounted(n.tasks[u].pc, done)
    {
      assert TaskSound(s, u);
    }
  }

  // ---------- what the rows and counters say about the executor ----------

  // What became of coroutine t: the run it created, and whether its executor
  // returned or raised.
  datatype Trace = Trace(runId: Option<nat>, outcome: Option<bool>)

  // The trace of t after one more step from s.
  function NextTrace(s: State, step: Step, t: nat, trace: Trace): Trace
  {
    if !step.Advance? || step.taskId != t || t !in s.tasks then trace
    else if s.tasks[t].pc.Creating? && s.tasks[t].jobId in s.jobs then trace.(runId := Some(s.nextRun))
    else if s.tasks[t].pc.Executing? then trace.(outcome := Some(step.ok))
    else trace
  }

  function TraceOf(steps: seq<Step>, t: nat): Trace
  {
    if steps == [] then Trace(None, None)
    else
      var n := |steps| - 1;
      NextTrace(Run(steps[..n]), steps[n], t, TraceOf(steps[..n], t))
  }

  // How far a coroutine that left this trace can be.
  predicate PcFits(pc: Pc, autoDelete: bool, trace: Trace)
  {
    match pc
    case Creating => trace == Trace(None, None)
    case Executing(r) => trace == Trace(Some(r), None)
    case Completing(r, ok) => trace == Trace(Some(r), Some(ok))
    case Reading(ok) => trace.runId.Some? && trace.outcome == Some(ok)
    case Updating(ok, _, _) => trace.runId.Some? && trace.outcome == Some(ok)
    case Deleting(_) => trace.runId.Some? && trace.outcome == Some(true) && autoDelete
    case Finished => trace.runId.Some? <==> trace.outcome.Some?
  }

  // The row of a run, as long as its job is not deleted: running until the
  // coroutine completes it, then a success exactly when the executor returned.
  predicate RowFits(s: State, t: nat, trace: Trace)
    requires t in s.tasks
  {
    trace.runId.Some? ==>
      var r := trace.runId.value;
      && r < s.nextRun
      && (r in s.runs ==>
            s.runs[r] == RunRow(s.tasks[t].jobId,
                                if trace.outcome.None? || s.tasks[t].pc.Completing? then Running
                                else if trace.outcome.value then Success else Failed))
  }

  ghost predicate TaskFits(s: State, t: nat, trace: Trace)
  {
    if t in s.tasks then PcFits(s.tasks[t].pc, s.tasks[t].autoDelete, trace) && RowFits(s, t, trace)
    else trace == Trace(None, None)
  }

  ghost predicate RunsBelow(s: State)
  {
    forall r :: r in s.runs ==> r < s.nextRun
  }

  ghost predicate Traced(steps: seq<Step>)
  {
    && RunsBelow(Run(steps))
    && (forall t :: TaskFits(Run(steps), t, TraceOf(steps, t)))
    && (forall t, u :: t != u && TraceOf(steps, t).runId.Some? ==> TraceOf(steps, t).runId != TraceOf(steps, u).runId)
  }

  // Where a coroutine goes from where it is.
  lemma MovedTo(s: State, t: nat, ok: bool)
    requires t in s.tasks
    ensures var pc, n := s.tasks[t].pc, AdvanceTask(s, t, ok);
            && t in n.tasks && n.tasks[t].jobId == s.tasks[t].jobId && n.tasks[t].autoDelete == s.tasks[t].autoDelete
            && var next := n.tasks[t].pc;
               && (pc.Creating? ==> next == if s.tasks[t].jobId in s.jobs then Executing(s.nextRun) else Finished)
               && (pc.Executing? ==> next == Completing(pc.runId, ok))
               && (pc.Completing? ==> next == Reading(pc.ok))
               && (pc.Reading? ==> next.Finished? || (next.Updating? && next.ok == pc.ok))
               && (pc.Updating? ==> if pc.ok && s.tasks[t].autoDelete then next.Deleting? else next.Finished?)
               && (pc.Deleting? || pc.Finished? ==> next.Finished?)
  {
    var task := s.tasks[t];
    assert forall pc :: SetPc(s, t, pc).tasks[t] == task.(pc := pc);
    match task.pc
    case Creating =>
    case Executing(_) =>
    case Completing(_, _) =>
    case Reading(_) =>
    case Updating(done, name, count) => assert Bump(s, done, name, count).tasks == s.tasks;
    case Deleting(name) => assert Delete(s, name).tasks == s.tasks;
    case Finished =>
  }

  lemma MovedPc(s: State, t: nat, ok: bool, trace: Trace)
    requires t in s.tasks && PcFits(s.tasks[t].pc, s.tasks[t].autoDelete, trace)
    ensures var n := AdvanceTask(s, t, ok);
            && t in n.tasks && n.tasks[t].jobId == s.tasks[t].jobId && n.tasks[t].autoDelete == s.tasks[t].autoDelete
            && PcFits(n.tasks[t].pc, n.tasks[t].autoDelete, NextTrace(s, Advance(t, ok), t, trace))
  {
    MovedTo(s, t, ok);
  }

  lemma MovedRuns(s: State, t: nat, ok: bool)
    requires t in s.tasks && !s.tasks[t].pc.Creating? && !s.tasks[t].pc.Completing?
    ensures var n := AdvanceTask(s, t, ok);
            n.nextRun == s.nextRun && forall r :: r in n.runs ==> r in s.runs && n.runs[r] == s.runs[r]
  {
  }

  lemma MovedRow(s: State, t: nat, ok: bool, trace: Trace)
    requires t in s.tasks && PcFits(s.tasks[t].pc, s.tasks[t].autoDelete, trace) && RowFits(s, t, trace)
    requires RunsBelow(s)
    ensures t in AdvanceTask(s, t, ok).tasks && RowFits(AdvanceTask(s, t, ok), t, NextTrace(s, Advance(t, ok), t, trace))
  {
    MovedPc(s, t, ok, trace);
    if !s.tasks[t].pc.Creating? && !s.tasks[t].pc.Completing? {
      MovedRuns(s, t, ok);
    }
  }

  // No step renews a row, and none changes it but the coroutine completing it.
  lemma OtherRows(s: State, step: Step, r: nat)
    requires r < s.nextRun
    requires step.Advance? && step.taskId in s.tasks && s.tasks[step.taskId].pc.Completing? ==>
               r != s.tasks[step.taskId].pc.runId
    ensures r in Apply(s, step).runs ==> r in s.runs && Apply(s, step).runs[r] == s.runs[r]
  {
  }

  lemma OthersStay(s: State, step: Step, u: nat)
    requires !(step.Advance? && step.taskId == u)
    ensures u in s.tasks ==> u in Apply(s, step).tasks && Apply(s, step).tasks[u] == s.tasks[u]
    ensures u !in s.tasks && u in Apply(s, step).tasks ==> Apply(s, step).tasks[u].pc.Creating?
  {
  }

  lemma StepGrows(s: State, step: Step)
    requires RunsBelow(s)
    ensures s.nextRun <= Apply(s, step).nextRun && RunsBelow(Apply(s, step))
  {
  }

  // A coroutine that does not move keeps its place, its trace and its row.
  lemma OtherFits(s: State, step: Step, u: nat, trace: Trace)
    requires RunsBelow(s) && TaskFits(s, u, trace) && !(step.Advance? && step.taskId == u)
    requires step.Advance? && step.taskId in s.tasks && s.tasks[step.taskId].pc.Completing? ==>
               trace.runId != Some(s.tasks[step.taskId].pc.runId)
    ensures TaskFits(Apply(s, step), u, trace)
  {
    OthersStay(s, step, u);
    StepGrows(s, step);
    if trace.runId.Some? {
      OtherRows(s, step, trace.runId.value);
    }
  }

  lemma StepFits(s: State, step: Step, u: nat, trace: Trace, moving: Trace)
    requires RunsBelow(s) && TaskFits(s, u, trace)
    requires step.Advance? ==> TaskFits(s, step.taskId, moving)
    requires step.Advance? && step.taskId != u && moving.runId.Some? ==> trace.runId != moving.runId
    ensures TaskFits(Apply(s, step), u, NextTrace(s, step, u, trace))
  {
    if step.Advance? && step.taskId == u {
      if u in s.tasks {
        MovedPc(s, u, step.ok, trace);
        MovedRow(s, u, step.ok, trace);
      }
    } else {
      OtherFits(s, step, u, trace);
    }
  }

  lemma TraceLast(steps: seq<Step>, step: Step, t: nat)
    ensures TraceOf(steps + [step], t) == NextTrace(Run(steps), step, t, TraceOf(steps, t))
  {
    assert (steps + [step])[..|steps|] == steps;
  }

  // A new run id is above every one handed out before.
  lemma NewIdsDiffer(s: State, step: Step, t: nat, u: nat, a: Trace, b: Trace)
    requires t != u && TaskFits(s, t, a) && TaskFits(s, u, b)
    requires a.runId.Some? ==> a.runId != b.runId
    requires b.runId.Some? ==> a.runId != b.runId
    ensures NextTrace(s, step, t, a).runId.Some? ==>
              NextTrace(s, step, t, a).runId != NextTrace(s, step, u, b).runId
  {
  }

  lemma StepTraced(steps: seq<Step>, step: Step)
    requires Traced(steps)
    ensures Traced(steps + [step])
  {
    var s := Run(steps);
    RunExtend(steps, step);
    StepGrows(s, step);
    forall t
      ensures TaskFits(Run(steps + [step]), t, TraceOf(steps + [step], t))
    {
      TraceLast(steps, step, t);
      StepFits(s, step, t, TraceOf(steps, t), if step.Advance? then TraceOf(steps, step.taskId) else TraceOf(steps, t));
    }
    forall t, u | t != u && TraceOf(steps + [step], t).runId.Some?
      ensures TraceOf(steps + [step], t).runId != TraceOf(steps + [step], u).runId
    {
      TraceLast(steps, step, t);
      TraceLast(steps, step, u);
      NewIdsDiffer(s, step, t, u, TraceOf(steps, t), TraceOf(steps, u));
    }
  }

  // In every run, whatever interleaves: the row a coroutine created is marked
  // running until it completes it, then a success exactly when its executor
  // returned and a failure exactly when it raised.
  lemma {:induction false} RowsShowOutcomes(steps: seq<Step>)
    ensures Traced(steps)
  {
    if steps != [] {
      var n := |steps| - 1;
      RowsShowOutcomes(steps[..n]);
      StepTraced(steps[..n], steps[n]);
      assert steps == steps[..n] + [steps[n]];
    }
  }

  // One is added to the counter of the outcome, nothing to the other, and nothing
  // to any other job; the job is then deleted if it returned and asks for that.
  predicate CountedOnce(s: State, n: State, t: nat, returned: bool)
    requires t in s.tasks && s.tasks[t].jobId in s.jobs
  {
    var own := s.tasks[t].jobId;
    && n.jobs.Keys == s.jobs.Keys
    && n.jobs[own].runCount == s.jobs[own].runCount + (if returned then 1 else 0)
    && n.jobs[own].failureCount == s.jobs[own].failureCount + (if returned then 0 else 1)
    && (forall j :: j in s.jobs && j != own ==> n.jobs[j] == s.jobs[j])
    && t in n.tasks && (n.tasks[t].pc.Deleting? <==> returned && s.tasks[t].autoDelete)
    && (!n.tasks[t].pc.Deleting? ==> n.tasks[t].pc.Finished?)
  }

  // Writing the counter of a job that is not deleted counts what the executor did.
  lemma OutcomeIsCounted(steps: seq<Step>, t: nat, ok: bool)
    requires CarefulRun(steps) && t in Run(steps).tasks && Run(steps).tasks[t].pc.Updating?
    requires Run(steps).tasks[t].jobId in Run(steps).jobs
    ensures CountedOnce(Run(steps), Run(steps + [Advance(t, ok)]), t, TraceOf(steps, t).outcome == Some(true))
  {
    RunExtend(steps, Advance(t, ok));
    BookkeepingHolds(steps);
    RowsShowOutcomes(steps);
    assert TaskFits(Run(steps), t, TraceOf(steps, t));
    CounterWritten(Run(steps), t, ok);
  }

  lemma CounterWritten(s: State, t: nat, ok: bool)
    requires Tables(s) && t in s.tasks && TaskSound(s, t) && s.tasks[t].pc.Updating? && s.tasks[t].jobId in s.jobs
    ensures CountedOnce(s, AdvanceTask(s, t, ok), t, s.tasks[t].pc.ok)
  {
  }

  // The step after that deletes the job, its runs, and no other job.
  lemma AutoDeleted(steps: seq<Step>, t: nat, ok: bool)
    requires t in Run(steps).tasks && Run(steps).tasks[t].pc.Deleting?
    ensures var s, n := Run(steps), Run(steps + [Advance(t, ok)]);
            var name := s.tasks[t].pc.name;
            && TraceOf(steps, t).outcome == Some(true) && s.tasks[t].autoDelete
            && (forall j :: j in n.jobs <==> j in s.jobs && s.jobs[j].name != name)
            && (forall r :: r in n.runs <==> r in s.runs && s.runs[r].jobId in n.jobs)
            && n.tasks[t].pc.Finished?
  {
    RunExtend(steps, Advance(t, ok));
    RowsShowOutcomes(steps);
    assert TaskFits(Run(steps), t, TraceOf(steps, t));
  }

  // ---------- a run that miscounts ----------

  // Job a runs once; when its coroutine has read the job, the job is deleted and
  // b is created under the same name; then the coroutine writes its count.
  function RecreatedJob(a: string, b: string, name: string): seq<Step>
  {
    [AddJob(a, name), StartRun(0, a, false)]
    + [Advance(0, true), Advance(0, true), Advance(0, true), Advance(0, true)]
    + [DeleteJob(name), AddJob(b, name), Advance(0, true)]
  }

  lemma RunExtend(steps: seq<Step>, step: Step)
    ensures Run(steps + [step]) == Apply(Run(steps), step)
  {
    assert (steps + [step])[..|steps|] == steps;
  }

  lemma RunTwo(steps: seq<Step>, a: Step, b: Step)
    ensures Run(steps + [a, b]) == Apply(Apply(Run(steps), a), b)
  {
    RunExtend(steps, a);
    RunExtend(steps + [a], b);
    assert steps + [a] + [b] == steps + [a, b];
  }

  lemma JobStarted(a: string, name: string)
    ensures Run([AddJob(a, name), StartRun(0, a, false)]) ==
            State(map[a := Job(name, 0, 0)], map[], map[0 := Task(a, false, Creating)], map[], {a}, 0)
  {
    RunExtend([], AddJob(a, name));
    RunExtend([AddJob(a, name)], StartRun(0, a, false));
    assert [] + [AddJob(a, name)] == [AddJob(a, name)];
    assert [AddJob(a, name)] + [StartRun(0, a, false)] == [AddJob(a, name), StartRun(0, a, false)];
  }

  // Four awaits later the coroutine holds the count it read.
  lemma JobRan(s: State, a: string, name: string)
    requires s == State(map[a := Job(name, 0, 0)], map[], map[0 := Task(a, false, Creating)], map[], {a}, 0)
    ensures var go := Advance(0, true);
            Apply(Apply(Apply(Apply(s, go), go), go), go) ==
            State(map[a := Job(name, 0, 0)], map[0 := RunRow(a, Success)], map[0 := Task(a, false, Updating(true, name, 0))],
                  map[a := 0], {a}, 1)
  {
    var go := Advance(0, true);
    var s1 := Apply(s, go);
    assert s1.tasks[0] == Task(a, false, Executing(0)) && s1.runs == map[0 := RunRow(a, Running)];
    var s2 := Apply(s1, go);
    assert s2.tasks[0] == Task(a, false, Completing(0, true));
    var s3 := Apply(s2, go);
    assert s3.tasks[0] == Task(a, false, Reading(true)) && s3.runs == map[0 := RunRow(a, Success)];
  }

  lemma JobReplaced(s: State, a: string, b: string, name: string)
    requires a != b
    requires s == State(map[a := Job(name, 0, 0)], map[0 := RunRow(a, Success)],
                        map[0 := Task(a, false, Updating(true, name, 0))], map[a := 0], {a}, 1)
    ensures var mid := Apply(Apply(s, DeleteJob(name)), AddJob(b, name));
            && !Careful(Apply(s, DeleteJob(name)), AddJob(b, name))
            && Apply(mid, Advance(0, true)) ==
               State(map[b := Job(name, 1, 0)], map[], map[0 := Task(a, false, Finished)], map[], {a, b}, 1)
  {
    var deleted := Apply(s, DeleteJob(name));
    assert deleted.jobs == map[] && deleted.runs == map[];
    assert deleted.tasks[0].pc == Updating(true, name, 0) && NameHeld(deleted, name);
    var mid := Apply(deleted, AddJob(b, name));
    assert mid.jobs == map[b := Job(name, 0, 0)] && mid.usedJobs == {a, b};
    assert Bump(mid, true, name, 0).jobs == map[b := Job(name, 1, 0)];
  }

  // At the end every coroutine has finished and job b claims a run it never had.
  lemma RecreatedJobMiscounts(a: string, b: string, name: string)
    requires a != b
    ensures var s := Run(RecreatedJob(a, b, name));
            && s.jobs == map[b := Job(name, 1, 0)] && s.runs == map[]
            && forall t :: t in s.tasks ==> s.tasks[t].pc.Finished?
  {
    var go := Advance(0, true);
    var ran := JobRanOnce(a, name);
    JobReplaced(Run(ran), a, b, name);
    RunTwo(ran, DeleteJob(name), AddJob(b, name));
    RunExtend(ran + [DeleteJob(name), AddJob(b, name)], go);
    assert ran + [DeleteJob(name), AddJob(b, name)] + [go] == RecreatedJob(a, b, name);
  }

  lemma JobRanOnce(a: string, name: string) returns (ran: seq<Step>)
    ensures var go := Advance(0, true); ran == [AddJob(a, name), StartRun(0, a, false)] + [go, go] + [go, go]
    ensures Run(ran) == State(map[a := Job(name, 0, 0)], map[0 := RunRow(a, Success)],
                              map[0 := Task(a, false, Updating(true, name, 0))], map[a := 0], {a}, 1)
  {
    var start := [AddJob(a, name), StartRun(0, a, false)];
    var go := Advance(0, true);
    var half := start + [go, go];
    ran := half + [go, go];
    JobStarted(a, name);
    RunTwo(start, go, go);
    RunTwo(half, go, go);
    JobRan(Run(start), a, name);
  }
}

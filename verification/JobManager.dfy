/** Background jobs (`src/job_manager.cpp`).

    The critical sections of the manager and the epilogue of each worker thread are atomic steps over
    one state; a run is any interleaving of them. A worker is numbered when its thread is created, and
    its stop flag is its own. */
module JobManagement {
  import opened Sealing
  import opened Contract

  type Id = string

  datatype Status = Running | Completed | Failed | Cancelled

  /** Who holds the joinable thread object. */
  datatype Handle = InTable | Collected | Joined

  datatype Worker = Worker(job: Id, stop: bool, ended: Option<Status>, handle: Handle, joins: nat)

  /** A job record; `worker` is the thread started for it last. */
  datatype Job = Job(status: Status, worker: nat)

  datatype State = State(
    jobs: map<Id, Job>, stopFlags: map<Id, nat>, threads: map<Id, nat>, current: int, maxJobs: nat,
    stopping: bool, collected: bool, workers: seq<Worker>)

  const INITIAL := State(map[], map[], map[], 0, 4, false, false, [])

  predicate Exists(s: State, t: nat) { t < |s.workers| }

  ghost function RunningIds(s: State): set<Id> { set id | id in s.jobs && s.jobs[id].status == Running }

  // ---------------------------------------------------------------- steps

  /** Ids whose thread `CleanupFinishedThreads` joins and forgets. */
  function FinishedIds(s: State): set<Id> { set id | id in s.threads && id in s.jobs && s.jobs[id].status != Running }

  /** Joins the threads of `ids` and forgets them and their flags. */
  function Reap(s: State, ids: set<Id>): State {
    s.(threads := s.threads - ids, stopFlags := s.stopFlags - ids,
       workers := seq(|s.workers|, t requires 0 <= t < |s.workers| =>
         var w := s.workers[t];
         if w.job in ids && w.job in s.threads && s.threads[w.job] == t then w.(handle := Joined, joins := w.joins + 1)
         else w))
  }

  function CleanedUp(s: State): State { Reap(s, FinishedIds(s)) }

  /** `Terminates`: assigning to a thread slot that is still joinable ends the process. */
  datatype StartResult = Started | Stopping | QueueFull | Terminates

  function Launched(s: State, id: Id): State {
    var t := |s.workers|;
    s.(jobs := s.jobs[id := Job(Running, t)], stopFlags := s.stopFlags[id := t], threads := s.threads[id := t],
       current := s.current + 1, workers := s.workers + [Worker(id, false, None, InTable, 0)])
  }

  /** `StartJob`: its outcome and the state it leaves. */
  function Starting(s: State, id: Id): (StartResult, State) {
    if s.stopping then (Stopping, s)
    else
      var c := CleanedUp(s);
      if c.current >= c.maxJobs then (QueueFull, c)
      else if id in c.threads then (Terminates, c)
      else (Started, Launched(c, id))
  }

  /** The locked end of worker `t`; `threw` if the job's work raised an exception. */
  function Epilogue(s: State, t: nat, threw: bool): State
    requires Exists(s, t)
  {
    var w := s.workers[t];
    var status := if threw then Failed else if w.stop then Cancelled else Completed;
    s.(jobs := if w.job in s.jobs then s.jobs[w.job := s.jobs[w.job].(status := status)] else s.jobs,
       current := s.current - 1, workers := s.workers[t := w.(ended := Some(status))])
  }

  function Cancel(s: State, id: Id): State
    requires id in s.stopFlags ==> Exists(s, s.stopFlags[id])
  {
    if id in s.stopFlags then
      var t := s.stopFlags[id];
      s.(workers := s.workers[t := s.workers[t].(stop := true)])
    else s
  }

  /** The locked section of `Stop`: raise every flag, take every thread out of the table. */
  function Collect(s: State): State {
    s.(collected := true, threads := map[], stopFlags := map[],
       workers := seq(|s.workers|, t requires 0 <= t < |s.workers| =>
         var w := s.workers[t];
         var flagged := if w.job in s.stopFlags && s.stopFlags[w.job] == t then w.(stop := true) else w;
         if w.job in s.threads && s.threads[w.job] == t then flagged.(handle := Collected) else flagged))
  }

  function Join(s: State, t: nat): State
    requires Exists(s, t)
  {
    var w := s.workers[t];
    s.(workers := s.workers[t := w.(handle := Joined, joins := w.joins + 1)])
  }

  // ---------------------------------------------------------------- the invariant

  ghost predicate JobOk(s: State, id: Id)
    requires id in s.jobs
  {
    var j := s.jobs[id];
    && j.worker < |s.workers| && s.workers[j.worker].job == id
    && s.workers[j.worker].ended == if j.status == Running then None else Some(j.status)
  }

  ghost predicate WorkerOk(s: State, t: nat)
    requires t < |s.workers|
  {
    var w := s.workers[t];
    && w.job in s.jobs
    && (w.handle == InTable <==> w.job in s.threads && s.threads[w.job] == t)
    && (w.handle == Collected ==> s.collected)
    && (w.handle == Joined ==> w.ended.Some?)
    && w.joins == (if w.handle == Joined then 1 else 0)
    && (w.ended.None? ==> s.jobs[w.job].worker == t && (s.collected ==> w.stop))
  }

  ghost predicate Inv(s: State) {
    && s.stopFlags == s.threads
    && (forall id :: id in s.jobs ==> JobOk(s, id))
    && (forall id :: id in s.threads ==> id in s.jobs && s.threads[id] == s.jobs[id].worker)
    && (forall t :: 0 <= t < |s.workers| ==> WorkerOk(s, t))
    && s.current == |RunningIds(s)|
    && (s.collected ==> s.stopping && s.threads == map[])
  }

  /** A running job's worker is undone; unless `Stop` has taken it, it is in the table. */
  lemma RunningHasThread(s: State, id: Id)
    requires Inv(s) && id in s.jobs && s.jobs[id].status == Running && !s.collected
    ensures id in s.threads && s.threads[id] == s.jobs[id].worker
  {
    assert JobOk(s, id) && WorkerOk(s, s.jobs[id].worker);
  }

  /** No thread joined under the lock is still running: its epilogue, which needs the lock, is over. */
  lemma CleanupNeverBlocks(s: State, id: Id)
    requires Inv(s) && id in FinishedIds(s)
    ensures s.workers[s.threads[id]].ended.Some?
  {
    assert JobOk(s, id);
  }

  lemma ReapInv(s: State, ids: set<Id>)
    requires Inv(s) && ids <= FinishedIds(s)
    ensures Inv(Reap(s, ids))
  {
    var r := Reap(s, ids);
    forall id | id in r.jobs ensures JobOk(r, id) { assert JobOk(s, id); }
    forall t | 0 <= t < |r.workers| ensures WorkerOk(r, t) {
      assert WorkerOk(s, t);
      if s.workers[t].job in ids { CleanupNeverBlocks(s, s.workers[t].job); }
    }
    assert RunningIds(r) == RunningIds(s);
  }

  /** An id without a thread in the table is not running, and no worker of it is undone. */
  lemma Idle(s: State, id: Id)
    requires Inv(s) && !s.collected && id !in s.threads
    ensures id !in RunningIds(s)
    ensures forall u :: 0 <= u < |s.workers| && s.workers[u].job == id ==> s.workers[u].ended.Some?
  {
    if id in s.jobs {
      assert JobOk(s, id) && WorkerOk(s, s.jobs[id].worker);
      forall u | 0 <= u < |s.workers| && s.workers[u].job == id ensures s.workers[u].ended.Some? {
        assert WorkerOk(s, u);
      }
    } else {
      forall u | 0 <= u < |s.workers| ensures s.workers[u].job != id { assert WorkerOk(s, u); }
    }
  }

  lemma LaunchedWorker(s: State, id: Id, u: nat)
    requires Inv(s) && !s.collected && id !in s.threads && u <= |s.workers|
    ensures WorkerOk(Launched(s, id), u)
  {
    if u < |s.workers| {
      assert WorkerOk(s, u);
      Idle(s, id);
    }
  }

  lemma LaunchedJob(s: State, id: Id, k: Id)
    requires Inv(s) && (k == id || k in s.jobs)
    ensures JobOk(Launched(s, id), k)
  {
    if k != id { assert JobOk(s, k); }
  }

  lemma LaunchedCount(s: State, id: Id)
    requires Inv(s) && !s.collected && id !in s.threads
    ensures Launched(s, id).current == |RunningIds(Launched(s, id))|
  {
    Idle(s, id);
    assert RunningIds(Launched(s, id)) == RunningIds(s) + {id};
  }

  lemma LaunchInv(s: State, id: Id)
    requires Inv(s) && !s.stopping && id !in s.threads
    ensures Inv(Launched(s, id))
  {
    var r := Launched(s, id);
    forall k | k in r.jobs ensures JobOk(r, k) { LaunchedJob(s, id, k); }
    forall u | 0 <= u < |r.workers| ensures WorkerOk(r, u) { LaunchedWorker(s, id, u); }
    LaunchedCount(s, id);
  }

  lemma EndedWorker(s: State, t: nat, threw: bool, u: nat)
    requires Inv(s) && Exists(s, t) && s.workers[t].ended.None? && u < |s.workers|
    ensures WorkerOk(Epilogue(s, t, threw), u)
  {
    assert WorkerOk(s, u) && WorkerOk(s, t);
  }

  lemma EpilogueInv(s: State, t: nat, threw: bool)
    requires Inv(s) && Exists(s, t) && s.workers[t].ended.None?
    ensures Inv(Epilogue(s, t, threw))
  {
    var r, id := Epilogue(s, t, threw), s.workers[t].job;
    assert WorkerOk(s, t) && JobOk(s, id);
    forall k | k in r.jobs ensures JobOk(r, k) { assert JobOk(s, k); }
    forall u | 0 <= u < |r.workers| ensures WorkerOk(r, u) { EndedWorker(s, t, threw, u); }
    assert RunningIds(r) == RunningIds(s) - {id} && id in RunningIds(s);
  }

  lemma CancelInv(s: State, id: Id)
    requires Inv(s)
    ensures id in s.stopFlags ==> Exists(s, s.stopFlags[id])
    ensures Inv(Cancel(s, id))
    ensures id in RunningIds(s) ==> Cancel(s, id).workers[s.jobs[id].worker].stop
  {
    if id in s.stopFlags { assert JobOk(s, id); }
    var r := Cancel(s, id);
    forall k | k in r.jobs ensures JobOk(r, k) { assert JobOk(s, k); }
    forall u | 0 <= u < |r.workers| ensures WorkerOk(r, u) { assert WorkerOk(s, u); }
    assert RunningIds(r) == RunningIds(s);
    if id in RunningIds(s) {
      if s.collected { assert JobOk(s, id) && WorkerOk(s, s.jobs[id].worker); } else { RunningHasThread(s, id); }
    }
  }

  lemma CollectInv(s: State)
    requires Inv(s) && s.stopping
    ensures Inv(Collect(s))
  {
    var r := Collect(s);
    forall k | k in r.jobs ensures JobOk(r, k) { assert JobOk(s, k); }
    forall u | 0 <= u < |r.workers| ensures WorkerOk(r, u) { assert WorkerOk(s, u); }
    assert RunningIds(r) == RunningIds(s);
  }

  lemma JoinInv(s: State, t: nat)
    requires Inv(s) && Exists(s, t) && s.workers[t].handle == Collected && s.workers[t].ended.Some?
    ensures Inv(Join(s, t))
  {
    var r := Join(s, t);
    forall k | k in r.jobs ensures JobOk(r, k) { assert JobOk(s, k); }
    forall u | 0 <= u < |r.workers| ensures WorkerOk(r, u) { assert WorkerOk(s, u); }
    assert WorkerOk(s, t) && RunningIds(r) == RunningIds(s);
  }

  /** Starting a job overwrites a joinable thread, ending the process, exactly when that id is running
      (and the manager is neither stopping nor full). */
  lemma StartTerminatesExactly(s: State, id: Id)
    requires Inv(s)
    ensures Starting(s, id).0 == Terminates <==>
      !s.stopping && s.current < s.maxJobs && id in s.jobs && s.jobs[id].status == Running
  {
    if !s.stopping && id in RunningIds(s) { RunningHasThread(s, id); }
  }

  /** The shortest such run: one start, and the same id again while it is running. */
  lemma RestartTerminates(id: Id)
    ensures var s := Starting(INITIAL, id).1;
      Starting(INITIAL, id).0 == Started && Inv(s) && Starting(s, id).0 == Terminates
  {
    assert RunningIds(INITIAL) == {};
    ReapNothing(INITIAL);
    assert FinishedIds(INITIAL) == {};
    LaunchInv(INITIAL, id);
    StartTerminatesExactly(Launched(INITIAL, id), id);
  }

  // ---------------------------------------------------------------- runs

  datatype Event =
    | Start(id: Id)
    | Finish(worker: nat, threw: bool)
    | CancelJob(id: Id)
    | SetMax(maxJobs: nat)
    | StopBegin
    | StopAgain
    | StopCollect
    | StopJoin(worker: nat)

  /** One atomic step. A running id is never restarted; `StopAgain` is a later call of `Stop`, which
      returns at once; `StopJoin` returns only when the thread is over. */
  ghost predicate Next(s: State, ev: Event, s': State) {
    match ev
    case Start(id) => !(id in s.jobs && s.jobs[id].status == Running) && s' == Starting(s, id).1
    case Finish(t, threw) => Exists(s, t) && s.workers[t].ended.None? && s' == Epilogue(s, t, threw)
    case CancelJob(id) => (id in s.stopFlags ==> Exists(s, s.stopFlags[id])) && s' == Cancel(s, id)
    case SetMax(n) => s' == s.(maxJobs := n)
    case StopBegin => !s.stopping && s' == s.(stopping := true)
    case StopAgain => s.stopping && s' == s
    case StopCollect => s.stopping && !s.collected && s' == Collect(s)
    case StopJoin(t) => Exists(s, t) && s.workers[t].handle == Collected && s.workers[t].ended.Some? && s' == Join(s, t)
  }

  lemma NextInv(s: State, ev: Event, s': State)
    requires Inv(s) && Next(s, ev, s')
    ensures Inv(s')
  {
    match ev
    case Start(id) =>
      if !s.stopping {
        ReapInv(s, FinishedIds(s));
        var r := Starting(s, id).0;
        StartTerminatesExactly(s, id);
        if r == Started { LaunchInv(CleanedUp(s), id); }
      }
    case Finish(t, threw) => EpilogueInv(s, t, threw);
    case CancelJob(id) => CancelInv(s, id);
    case SetMax(n) => FieldsOnly(s, s');
    case StopBegin => FieldsOnly(s, s');
    case StopAgain =>
    case StopCollect => CollectInv(s);
    case StopJoin(t) => JoinInv(s, t);
  }

  lemma FieldsOnly(s: State, s': State)
    requires Inv(s) && s'.jobs == s.jobs && s'.stopFlags == s.stopFlags && s'.threads == s.threads
    requires s'.current == s.current && s'.workers == s.workers && s'.collected == s.collected
    requires s.stopping ==> s'.stopping
    ensures Inv(s')
  {
    forall k | k in s'.jobs ensures JobOk(s', k) { assert JobOk(s, k); }
    forall u | 0 <= u < |s'.workers| ensures WorkerOk(s', u) { assert WorkerOk(s, u); }
    assert RunningIds(s') == RunningIds(s);
  }

  /** `Next` and `Inv`, sealed. */
  ghost predicate Step(s: State, ev: Event, s': State) { forall k {:trigger Key(k)} :: Key(k) ==> Next(s, ev, s') }

  ghost predicate Good(s: State) { forall k {:trigger Key(k)} :: Key(k) ==> Inv(s) }

  lemma StepGood(s: State, ev: Event, s': State)
    requires Good(s) && Step(s, ev, s')
    ensures Good(s')
  {
    assert Key(0);
    NextInv(s, ev, s');
  }

  ghost predicate Run(ss: seq<State>, evs: seq<Event>) {
    |ss| == |evs| + 1 && ss[0] == INITIAL && forall i :: 0 <= i < |evs| ==> Step(ss[i], evs[i], ss[i+1])
  }

  lemma {:induction false} RunGood(ss: seq<State>, evs: seq<Event>, i: nat)
    requires Run(ss, evs) && i < |ss|
    ensures Good(ss[i])
  {
    if i == 0 { assert RunningIds(INITIAL) == {}; }
    else {
      RunGood(ss, evs, i - 1);
      StepGood(ss[i-1], evs[i-1], ss[i]);
    }
  }

  /** In every interleaving: the counter equals the number of running jobs, the flag and thread tables
      have the same keys, and no start ever hits a joinable slot. */
  lemma EveryRunInv(ss: seq<State>, evs: seq<Event>, i: nat)
    requires Run(ss, evs) && i < |ss|
    ensures Inv(ss[i])
    ensures ss[i].current == |RunningIds(ss[i])| && ss[i].stopFlags.Keys == ss[i].threads.Keys
    ensures i < |evs| && evs[i].Start? ==> Starting(ss[i], evs[i].id).0 != Terminates
  {
    RunGood(ss, evs, i);
    assert Key(0);
    if i < |evs| && evs[i].Start? {
      assert Step(ss[i], evs[i], ss[i+1]);
      StartTerminatesExactly(ss[i], evs[i].id);
    }
  }

  /** What no step takes back: a worker keeps its job, a raised stop flag and its outcome; a worker
      that is told to stop before it completes does not end `Completed`. */
  ghost predicate WorkerMoves(w: Worker, w': Worker) {
    && w'.job == w.job && (w.stop ==> w'.stop) && (w.ended.Some? ==> w'.ended == w.ended)
    && (w.stop && w.ended != Some(Completed) ==> w'.ended != Some(Completed))
  }

  lemma StepMoves(s: State, ev: Event, s': State, t: nat)
    requires Good(s) && Step(s, ev, s') && Exists(s, t)
    ensures Exists(s', t) && WorkerMoves(s.workers[t], s'.workers[t])
  {
    assert Key(0);
  }

  lemma RunMoves(ss: seq<State>, evs: seq<Event>, i: nat, t: nat)
    requires Run(ss, evs) && i < |evs| && Exists(ss[i], t)
    ensures Exists(ss[i+1], t) && WorkerMoves(ss[i].workers[t], ss[i+1].workers[t])
  {
    RunGood(ss, evs, i);
    StepMoves(ss[i], evs[i], ss[i+1], t);
  }

  lemma MovesCompose(w: Worker, w': Worker, w'': Worker)
    requires WorkerMoves(w, w') && WorkerMoves(w', w'')
    ensures WorkerMoves(w, w'')
  {}

  /** Over any stretch of any run. */
  lemma {:induction false} NothingTakenBack(ss: seq<State>, evs: seq<Event>, i: nat, j: nat, t: nat)
    requires Run(ss, evs) && i <= j < |ss| && Exists(ss[i], t)
    ensures Exists(ss[j], t) && WorkerMoves(ss[i].workers[t], ss[j].workers[t])
    decreases j - i
  {
    if i < j {
      NothingTakenBack(ss, evs, i, j - 1, t);
      RunMoves(ss, evs, j - 1, t);
      MovesCompose(ss[i].workers[t], ss[j-1].workers[t], ss[j].workers[t]);
    }
  }

  /** `CancelJob` on a running job raises the flag of the worker that runs it. */
  lemma CancelReachesWorker(ss: seq<State>, evs: seq<Event>, i: nat, id: Id)
    requires Run(ss, evs) && i < |evs| && evs[i] == CancelJob(id)
    requires id in ss[i].jobs && ss[i].jobs[id].status == Running
    ensures var t := ss[i].jobs[id].worker;
      Exists(ss[i+1], t) && ss[i+1].workers[t].stop && ss[i+1].workers[t].ended.None?
  {
    EveryRunInv(ss, evs, i);
    assert Key(0) && Step(ss[i], evs[i], ss[i+1]);
    CancelInv(ss[i], id);
    assert JobOk(ss[i], id);
  }

  /** A job cancelled while running never ends `Completed`: whatever happens afterwards, until the id is
      started anew its record does not say so. */
  lemma CancelledNeverCompletes(ss: seq<State>, evs: seq<Event>, i: nat, j: nat, id: Id)
    requires Run(ss, evs) && i < j < |ss| && evs[i] == CancelJob(id)
    requires id in ss[i].jobs && ss[i].jobs[id].status == Running
    ensures id in ss[j].jobs
    ensures ss[j].jobs[id].worker == ss[i].jobs[id].worker ==> ss[j].jobs[id].status != Completed
  {
    var t := ss[i].jobs[id].worker;
    CancelReachesWorker(ss, evs, i, id);
    EveryRunInv(ss, evs, i);
    assert JobOk(ss[i], id);
    NothingTakenBack(ss, evs, i, i + 1, t);
    NothingTakenBack(ss, evs, i + 1, j, t);
    EveryRunInv(ss, evs, j);
    assert WorkerOk(ss[j], t) && JobOk(ss[j], id);
  }

  /** The call of `Stop` that set the flag has returned: it took the threads and has joined all of them. */
  ghost predicate StopReturned(s: State) {
    s.collected && forall t :: 0 <= t < |s.workers| ==> s.workers[t].handle != Collected
  }

  /** Once the first call of `Stop` returns, every thread ever started is over and was joined exactly
      once. */
  lemma AllJoinedOnce(ss: seq<State>, evs: seq<Event>, i: nat)
    requires Run(ss, evs) && i < |ss| && StopReturned(ss[i])
    ensures forall t :: 0 <= t < |ss[i].workers| ==> ss[i].workers[t].joins == 1 && ss[i].workers[t].ended.Some?
    ensures ss[i].current == 0
  {
    EveryRunInv(ss, evs, i);
    var s := ss[i];
    forall t | 0 <= t < |s.workers| ensures s.workers[t].joins == 1 && s.workers[t].ended.Some? {
      assert WorkerOk(s, t);
    }
    forall id | id in s.jobs ensures s.jobs[id].status != Running { assert JobOk(s, id); }
    assert RunningIds(s) == {};
  }

  /** A later call returns before that: here with a thread that is still running and not joined. */
  lemma LaterStopReturnsEarly(id: Id)
    ensures var s := Launched(INITIAL, id);
      var t := s.(stopping := true);
      Run([INITIAL, s, t, t], [Start(id), StopBegin, StopAgain]) && t.workers[0].ended.None? && t.workers[0].joins == 0
  {
    RestartTerminates(id);
    ReapNothing(INITIAL);
    assert FinishedIds(INITIAL) == {};
    var s := Launched(INITIAL, id);
    var t := s.(stopping := true);
    assert Next(INITIAL, Start(id), s) && Next(s, StopBegin, t) && Next(t, StopAgain, t);
  }

  // ---------------------------------------------------------------- the object

  lemma ReapOneMore(s: State, ids: set<Id>, id: Id)
    requires id !in ids && id in s.threads
    ensures Reap(Reap(s, ids), {id}) == Reap(s, ids + {id})
  {
    var a, b := Reap(Reap(s, ids), {id}), Reap(s, ids + {id});
    assert a.threads == b.threads && a.stopFlags == b.stopFlags;
    assert a.workers == b.workers;
  }

  lemma ReapNothing(s: State)
    ensures Reap(s, {}) == s && FinishedIds(s) - s.threads.Keys == {}
  {
    assert Reap(s, {}).workers == s.workers;
  }

  lemma GoodReap(s: State, ids: set<Id>)
    requires Good(s) && ids <= FinishedIds(s)
    ensures Good(Reap(s, ids))
  {
    assert Key(0);
    ReapInv(s, ids);
  }

  lemma GoodLaunch(s: State, id: Id)
    requires Good(s) && !s.stopping && id !in s.threads
    ensures Good(Launched(s, id))
  {
    assert Key(0);
    LaunchInv(s, id);
  }

  lemma GoodCollect(s: State)
    requires Good(s) && s.stopping
    ensures Good(Collect(s))
  {
    assert Key(0);
    CollectInv(s);
  }

  lemma GoodStopping(s: State)
    requires Good(s)
    ensures Good(s.(stopping := true))
  {
    assert Key(0);
    FieldsOnly(s, s.(stopping := true));
  }

  lemma GoodEpilogue(s: State, t: nat, threw: bool)
    requires Good(s) && Exists(s, t) && s.workers[t].ended.None?
    ensures Good(Epilogue(s, t, threw))
  {
    assert Key(0);
    EpilogueInv(s, t, threw);
  }

  lemma GoodCancel(s: State, id: Id)
    requires Good(s)
    ensures (id in s.stopFlags ==> Exists(s, s.stopFlags[id])) && Good(Cancel(s, id))
  {
    assert Key(0);
    CancelInv(s, id);
  }

  lemma GoodJoin(s: State, t: nat)
    requires Good(s) && Exists(s, t) && s.workers[t].handle == Collected && s.workers[t].ended.Some?
    ensures Good(Join(s, t))
  {
    assert Key(0);
    JoinInv(s, t);
  }

  lemma GoodStart(s: State, id: Id)
    requires Good(s)
    ensures Starting(s, id).0 == Terminates ==> id in s.jobs && s.jobs[id].status == Running
  {
    assert Key(0);
    StartTerminatesExactly(s, id);
  }

  lemma JoinReturns(s: State, reaped: set<Id>, id: Id)
    requires Good(s) && reaped <= FinishedIds(s) && id in s.threads && id !in reaped
    requires id in s.jobs && s.jobs[id].status != Running
    ensures var r := Reap(s, reaped);
      id in r.threads && r.threads[id] < |r.workers|
      && r.workers[r.threads[id]].job == id && r.workers[r.threads[id]].ended.Some?
  {
    assert Key(0);
    assert JobOk(s, id);
  }

  /** `workers` models the threads themselves: their stop flags, outcomes and handles. */
  class JobManager {
    var jobs: map<Id, Job>
    var stopFlags: map<Id, nat>
    var threads: map<Id, nat>
    var current: int
    var maxJobs: nat
    var stopping: bool
    var collected: bool
    var workers: seq<Worker>

    function Value(): State
      reads this
    {
      State(jobs, stopFlags, threads, current, maxJobs, stopping, collected, workers)
    }

    constructor ()
      ensures Value() == INITIAL && Good(Value())
    {
      jobs, stopFlags, threads, current, maxJobs := map[], map[], map[], 0, 4;
      stopping, collected, workers := false, false, [];
      new;
      assert RunningIds(INITIAL) == {};
    }

    method JoinAndForget(id: Id)
      requires id in threads && threads[id] < |workers|
      requires workers[threads[id]].job == id && workers[threads[id]].ended.Some?
      modifies this
      ensures Value() == Reap(old(Value()), {id})
    {
      ghost var s := Value();
      var t := threads[id];
      workers := workers[t := workers[t].(handle := Joined, joins := workers[t].joins + 1)];
      stopFlags := stopFlags - {id};
      threads := threads - {id};
      assert workers == Reap(s, {id}).workers;
    }

    /** One turn of the cleanup loop, after the threads of `reaped` are gone. */
    method VisitThread(id: Id, ghost s: State, ghost finished: set<Id>, ghost reaped: set<Id>)
      returns (ghost more: set<Id>)
      requires Good(s) && finished == FinishedIds(s) && reaped <= finished
      requires id in s.threads && id !in reaped && Value() == Reap(s, reaped)
      modifies this
      ensures Value() == Reap(s, more) && more == if id in finished then reaped + {id} else reaped
    {
      more := reaped;
      if id in jobs && jobs[id].status != Running {
        JoinReturns(s, reaped, id);
        ReapOneMore(s, reaped, id);
        JoinAndForget(id);
        more := reaped + {id};
      }
    }

    /** Called with the lock held; every join it makes returns at once. */
    method CleanupFinishedThreads()
      requires Good(Value())
      modifies this
      ensures Good(Value()) && Value() == CleanedUp(old(Value()))
    {
      ghost var s := Value();
      ghost var finished, reaped: set<Id> := FinishedIds(s), {};
      var rest := threads.Keys;
      ReapNothing(s);
      while rest != {}
        invariant rest <= s.threads.Keys && Value() == Reap(s, reaped)
        invariant reaped <= finished && rest !! reaped && finished <= reaped + rest
        decreases |rest|
      {
        var id :| id in rest;
        rest := rest - {id};
        reaped := VisitThread(id, s, finished, reaped);
      }
      assert reaped == finished;
      GoodReap(s, reaped);
    }

    method StartJob(id: Id) returns (r: StartResult)
      requires Good(Value())
      modifies this
      ensures Good(Value())
      ensures (r, Value()) == Starting(old(Value()), id)
      ensures r == Terminates ==> id in old(jobs) && old(jobs)[id].status == Running
    {
      GoodStart(Value(), id);
      if stopping { return Stopping; }
      CleanupFinishedThreads();
      if current >= maxJobs { return QueueFull; }
      if id in threads { return Terminates; }
      GoodLaunch(Value(), id);
      var t := |workers|;
      stopFlags := stopFlags[id := t];
      jobs := jobs[id := Job(Running, t)];
      current := current + 1;
      workers := workers + [Worker(id, false, None, InTable, 0)];
      threads := threads[id := t];
      return Started;
    }

    method WorkerEpilogue(t: nat, threw: bool)
      requires Good(Value()) && t < |workers| && workers[t].ended.None?
      modifies this
      ensures Good(Value()) && Value() == Epilogue(old(Value()), t, threw)
    {
      GoodEpilogue(Value(), t, threw);
      var w := workers[t];
      var status := Failed;
      if !threw { if w.stop { status := Cancelled; } else { status := Completed; } }
      if w.job in jobs { jobs := jobs[w.job := jobs[w.job].(status := status)]; }
      current := current - 1;
      workers := workers[t := w.(ended := Some(status))];
    }

    method CancelId(id: Id)
      requires Good(Value())
      modifies this
      ensures Good(Value())
      ensures (id in old(stopFlags) ==> old(stopFlags)[id] < |old(workers)|) && Value() == Cancel(old(Value()), id)
    {
      GoodCancel(Value(), id);
      if id in stopFlags {
        var t := stopFlags[id];
        workers := workers[t := workers[t].(stop := true)];
      }
    }

    /** Raise the flags and move the threads out. */
    method TakeThreads()
      modifies this`workers
      ensures workers == Collect(old(Value())).workers
    {
      ghost var s := Value();
      ghost var goal := Collect(s).workers;
      var i := 0;
      while i < |workers|
        invariant 0 <= i <= |workers| == |s.workers|
        invariant forall k :: 0 <= k < |workers| ==> workers[k] == if k < i then goal[k] else s.workers[k]
      {
        var w := workers[i];
        if w.job in stopFlags && stopFlags[w.job] == i { w := w.(stop := true); }
        if w.job in threads && threads[w.job] == i { w := w.(handle := Collected); }
        workers := workers[i := w];
        i := i + 1;
      }
    }

    /** The flag exchange `Stop` begins with, outside the lock; a second call finds the flag set and
        returns. */
    method BeginStop() returns (first: bool)
      requires Good(Value())
      modifies this
      ensures Good(Value()) && first == !old(stopping) && Value() == old(Value()).(stopping := true)
    {
      GoodStopping(Value());
      first := !stopping;
      stopping := true;
    }

    /** The locked section of the call that set the flag; other steps may run between the two. */
    method CollectThreads()
      requires Good(Value()) && stopping && !collected
      modifies this
      ensures Good(Value()) && Value() == Collect(old(Value()))
    {
      GoodCollect(Value());
      TakeThreads();
      threads, stopFlags, collected := map[], map[], true;
    }

    method JoinCollected(t: nat)
      requires Good(Value()) && t < |workers| && workers[t].handle == Collected && workers[t].ended.Some?
      modifies this
      ensures Good(Value()) && Value() == Join(old(Value()), t)
    {
      GoodJoin(Value(), t);
      workers := workers[t := workers[t].(handle := Joined, joins := workers[t].joins + 1)];
    }
  }
}

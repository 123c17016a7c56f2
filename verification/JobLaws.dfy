/** What a run of the job manager tells from its events alone: how each job ends, and that stopping starts
    nothing more. */
module JobLaws {
  import opened Contract
  import opened Sealing
  import opened JobManagement

  /** Before step `i` the job of worker `t` was cancelled, or `Stop` raised every flag, while the worker
      existed. */
  ghost predicate Asked(ss: seq<State>, evs: seq<Event>, t: nat, i: nat)
    requires |ss| == |evs| + 1 && i <= |evs|
  {
    exists k :: 0 <= k < i && AskedBy(ss[k], evs[k], t)
  }

  ghost predicate AskedBy(s: State, ev: Event, t: nat) {
    Exists(s, t) && (ev.StopCollect? || ev == CancelJob(s.workers[t].job))
  }

  /** An undone worker is the running one of its job and holds the flag under that id, unless `Stop` has
      already raised it. */
  lemma UndoneHoldsFlag(s: State, t: nat)
    requires Inv(s) && Exists(s, t) && s.workers[t].ended.None?
    ensures var id := s.workers[t].job;
      if s.collected then s.workers[t].stop else id in s.stopFlags && s.stopFlags[id] == t
  {
    assert WorkerOk(s, t);
    var id := s.workers[t].job;
    assert JobOk(s, id);
    if !s.collected { RunningHasThread(s, id); }
  }

  lemma CancelFlags(s: State, id: Id, t: nat)
    requires Inv(s) && Exists(s, t) && s.workers[t].ended.None?
    requires id in s.stopFlags ==> Exists(s, s.stopFlags[id])
    ensures var w := Cancel(s, id).workers[t];
      w.ended.None? && w.job == s.workers[t].job && (w.stop <==> s.workers[t].stop || id == s.workers[t].job)
  {
    UndoneHoldsFlag(s, t);
    if id in s.stopFlags && id != s.workers[t].job { assert JobOk(s, id); }
  }

  lemma CollectFlags(s: State, t: nat)
    requires Inv(s) && Exists(s, t) && s.workers[t].ended.None? && !s.collected
    ensures var w := Collect(s).workers[t]; w.ended.None? && w.job == s.workers[t].job && w.stop
  {
    UndoneHoldsFlag(s, t);
  }

  /** What one step does to the flag of a worker that is undone after it. */
  lemma FlagStep(s: State, ev: Event, s': State, t: nat)
    requires Good(s) && Step(s, ev, s') && Exists(s', t) && s'.workers[t].ended.None?
    ensures !Exists(s, t) ==> !s'.workers[t].stop
    ensures Exists(s, t) ==>
      && s.workers[t].ended.None? && s'.workers[t].job == s.workers[t].job
      && (s'.workers[t].stop <==> s.workers[t].stop || AskedBy(s, ev, t))
  {
    assert Key(0);
    if Exists(s, t) { StepMoves(s, ev, s', t); }
    match ev
    case Start(id) =>
    case Finish(u, threw) =>
    case CancelJob(id) => if Exists(s, t) { CancelFlags(s, id, t); }
    case SetMax(n) =>
    case StopBegin =>
    case StopAgain =>
    case StopCollect => if Exists(s, t) { CollectFlags(s, t); }
    case StopJoin(u) =>
  }

  lemma RunFlagStep(ss: seq<State>, evs: seq<Event>, i: nat, t: nat)
    requires Run(ss, evs) && i < |evs| && Exists(ss[i+1], t) && ss[i+1].workers[t].ended.None?
    ensures !Exists(ss[i], t) ==> !ss[i+1].workers[t].stop
    ensures Exists(ss[i], t) ==>
      && ss[i].workers[t].ended.None? && ss[i+1].workers[t].job == ss[i].workers[t].job
      && (ss[i+1].workers[t].stop <==> ss[i].workers[t].stop || AskedBy(ss[i], evs[i], t))
  {
    RunGood(ss, evs, i);
    FlagStep(ss[i], evs[i], ss[i+1], t);
  }

  /** While a worker is undone its flag is up if and only if its job was cancelled or `Stop` took the
      threads since it was started. */
  lemma {:induction false} FlagExactly(ss: seq<State>, evs: seq<Event>, i: nat, t: nat)
    requires Run(ss, evs) && i < |ss| && Exists(ss[i], t) && ss[i].workers[t].ended.None?
    ensures ss[i].workers[t].stop <==> Asked(ss, evs, t, i)
  {
    if i > 0 {
      var n := i - 1;
      RunFlagStep(ss, evs, n, t);
      if Exists(ss[n], t) { FlagExactly(ss, evs, n, t); }
      else {
        forall k | 0 <= k < i ensures !AskedBy(ss[k], evs[k], t) {
          if Exists(ss[k], t) { NothingTakenBack(ss, evs, k, n, t); }
        }
      }
    }
  }

  function Outcome(threw: bool, asked: bool): Status {
    if threw then Failed else if asked then Cancelled else Completed
  }

  lemma FinishRecords(s: State, s': State, t: nat, threw: bool)
    requires Step(s, Finish(t, threw), s')
    ensures Exists(s, t) && s.workers[t].ended.None? && Exists(s', t)
    ensures s'.workers[t].ended == Some(Outcome(threw, s.workers[t].stop)) && s'.workers[t].job == s.workers[t].job
  {
    assert Key(0);
  }

  /** How a job ends, in every interleaving and for good: failed if and only if its work threw, cancelled if
      it returned after a cancellation or a `Stop` since its start, completed otherwise. Its record says the
      same until the id is started anew. */
  lemma OutcomeExactly(ss: seq<State>, evs: seq<Event>, i: nat, j: nat, t: nat, threw: bool)
    requires Run(ss, evs) && i < j < |ss| && evs[i] == Finish(t, threw)
    ensures Exists(ss[i], t) && Exists(ss[j], t)
    ensures ss[j].workers[t].ended ==
      Some(if threw then Failed else if Asked(ss, evs, t, i) then Cancelled else Completed)
    ensures var id := ss[i].workers[t].job;
      && id in ss[j].jobs
      && (ss[j].jobs[id].worker == t ==> Some(ss[j].jobs[id].status) == ss[j].workers[t].ended)
  {
    assert Step(ss[i], evs[i], ss[i+1]);
    FinishRecords(ss[i], ss[i+1], t, threw);
    FlagExactly(ss, evs, i, t);
    NothingTakenBack(ss, evs, i + 1, j, t);
    EveryRunInv(ss, evs, j);
    assert WorkerOk(ss[j], t);
    assert JobOk(ss[j], ss[j].workers[t].job);
  }

  /** An unfinished job is recorded as running. */
  lemma RunningUntilFinished(ss: seq<State>, evs: seq<Event>, i: nat, t: nat)
    requires Run(ss, evs) && i < |ss| && Exists(ss[i], t) && ss[i].workers[t].ended.None?
    ensures var id := ss[i].workers[t].job;
      id in ss[i].jobs && ss[i].jobs[id] == Job(Running, t)
  {
    EveryRunInv(ss, evs, i);
    assert WorkerOk(ss[i], t);
    assert JobOk(ss[i], ss[i].workers[t].job);
  }

  lemma StoppingStep(s: State, ev: Event, s': State)
    requires Step(s, ev, s') && s.stopping
    ensures s'.stopping && |s'.workers| == |s.workers|
  {
    assert Key(0);
  }

  /** Once `Stop` has begun no thread is started any more. */
  lemma {:induction false} StoppingStartsNothing(ss: seq<State>, evs: seq<Event>, i: nat, j: nat)
    requires Run(ss, evs) && i <= j < |ss| && ss[i].stopping
    ensures ss[j].stopping && |ss[j].workers| == |ss[i].workers|
    decreases j - i
  {
    if i < j {
      StoppingStartsNothing(ss, evs, i, j - 1);
      assert Step(ss[j-1], evs[j-1], ss[j]);
      StoppingStep(ss[j-1], evs[j-1], ss[j]);
    }
  }
}

/** The tuning loop on top of the job manager: every trial is a job of its own, and the loop itself is
    one (`OrchestrateTuning` and `RunPcaTraining`). */
module TuningJobs {
  import opened TuningLoop
  import Jobs = JobManagement
  import HpoSearch

  /** The job id of a trial's run. */
  function TrainJob(id: Id): Id { "train-" + id }

  lemma TrainJobInjective(a: Id, b: Id)
    requires TrainJob(a) == TrainJob(b)
    ensures a == b
  {
    assert a == TrainJob(a)[6..] && b == TrainJob(b)[6..];
  }

  /** The inner launch loop with the manager's answers: a refused start throws out of the loop. */
  function Burst(t: Task, p: Progress, s: Jobs.State): (r: (Progress, Jobs.State))
    requires |t.ids| <= |t.trials| && p.next <= |t.ids|
    ensures p.next <= r.0.next <= |t.ids|
    decreases |t.ids| - p.next
  {
    if p.next < |t.ids| && |p.active| < t.limit then
      var (answer, s') := Jobs.Starting(s, TrainJob(t.ids[p.next]));
      if answer != Jobs.Started then (p.(end := Threw), s') else Burst(t, LaunchOne(t, p), s')
    else (p, s)
  }

  /** The launches refused in a burst are an input of the tuning loop: the one it stopped at, if any. */
  lemma {:induction false} BurstIsLaunch(t: Task, p: Progress, s: Jobs.State)
    requires |t.ids| <= |t.trials| && p.next <= |t.ids| && p.end == Going
    ensures var q := Burst(t, p, s).0; q == LaunchUp(t, p, if q.end == Threw then {q.next} else {})
    decreases |t.ids| - p.next
  {
    if p.next < |t.ids| && |p.active| < t.limit {
      var (answer, s') := Jobs.Starting(s, TrainJob(t.ids[p.next]));
      if answer == Jobs.Started { BurstIsLaunch(t, LaunchOne(t, p), s'); }
    }
  }

  /** How many trials the loop wants to start now. */
  function Wanted(t: Task, p: Progress): nat
    requires p.next <= |t.ids|
  {
    var left, room := |t.ids| - p.next, t.limit - |p.active|;
    if room < 0 then 0 else if left < room then left else room
  }

  /** How many jobs the manager still takes. */
  function FreeSlots(s: Jobs.State): nat { if s.current >= s.maxJobs then 0 else s.maxJobs - s.current }

  ghost predicate NotYetRunning(t: Task, p: Progress, s: Jobs.State) {
    forall k :: p.next <= k < |t.ids| ==> TrainJob(t.ids[k]) !in Jobs.RunningIds(s)
  }

  lemma StartedRuns(s: Jobs.State, name: Id)
    requires Jobs.Starting(s, name).0 == Jobs.Started
    ensures var s' := Jobs.Starting(s, name).1;
      s'.current == s.current + 1 && Jobs.RunningIds(s') == Jobs.RunningIds(s) + {name}
  {}

  /** One accepted start takes a slot and leaves the other trials not running. */
  lemma StartTakesSlot(t: Task, p: Progress, s: Jobs.State)
    requires ValidTask(t) && p.next < |t.ids| && Jobs.Inv(s) && !s.stopping && NotYetRunning(t, p, s)
    ensures var (answer, s') := Jobs.Starting(s, TrainJob(t.ids[p.next]));
      && answer == (if FreeSlots(s) == 0 then Jobs.QueueFull else Jobs.Started)
      && (answer == Jobs.Started ==> Jobs.Inv(s') && !s'.stopping && FreeSlots(s') == FreeSlots(s) - 1
                                     && NotYetRunning(t, LaunchOne(t, p), s'))
  {
    var name := TrainJob(t.ids[p.next]);
    var (answer, s') := Jobs.Starting(s, name);
    Jobs.StartTerminatesExactly(s, name);
    if answer == Jobs.Started {
      Jobs.NextInv(s, Jobs.Start(name), s');
      StartedRuns(s, name);
      forall k | p.next < k < |t.ids| ensures TrainJob(t.ids[k]) != name {
        if TrainJob(t.ids[k]) == name { TrainJobInjective(t.ids[k], t.ids[p.next]); }
      }
    }
  }

  /** A burst of launches, no job ending meanwhile, throws if and only if the loop wants to start more
      trials than the manager has slots. */
  lemma {:induction false} BurstThrowsExactly(t: Task, p: Progress, s: Jobs.State, reported: set<Id>)
    requires ValidTask(t) && Inv(t, p, reported) && p.end == Going
    requires Jobs.Inv(s) && !s.stopping && NotYetRunning(t, p, s)
    ensures Burst(t, p, s).0.end == Threw <==> Wanted(t, p) > FreeSlots(s)
    decreases |t.ids| - p.next
  {
    if p.next < |t.ids| && |p.active| < t.limit {
      StartTakesSlot(t, p, s);
      var (answer, s') := Jobs.Starting(s, TrainJob(t.ids[p.next]));
      if answer == Jobs.Started {
        LaunchOneInv(t, p, reported);
        BurstThrowsExactly(t, LaunchOne(t, p), s', reported);
      }
    }
  }

  /** With the default of four slots and nothing running but the tuning job itself, the first turn
      throws if and only if there are four trials or more and the concurrency limit is four or more. */
  lemma DefaultSlotsTooFew(t: Task, s: Jobs.State, tuning: Id)
    requires ValidTask(t) && Jobs.Inv(s) && !s.stopping && s.maxJobs == Jobs.INITIAL.maxJobs
    requires Jobs.RunningIds(s) == {tuning} && forall k :: 0 <= k < |t.ids| ==> TrainJob(t.ids[k]) != tuning
    ensures Burst(t, START, s).0.end == Threw <==> |t.ids| >= 4 && t.limit >= 4
  {
    BurstThrowsExactly(t, START, s, {});
    assert s.current == 1;
  }

  /** The concurrency limit a tuning task is given. */
  function ClampLimit(n: int): (r: nat)
    ensures 1 <= r <= 10
  {
    if n < 1 then 1 else if n > 10 then 10 else n
  }

  /** For an accepted configuration the clamp changes nothing. */
  lemma AcceptedNotClamped(h: HpoSearch.Config)
    requires HpoSearch.Accepts(h)
    ensures ClampLimit(h.maxConcurrency) == h.maxConcurrency
  {}
}

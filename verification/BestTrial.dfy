/** The best finished trial of a tuning run (`HandleGetModelDetail`): lowest threshold, then earliest
    completion, then lowest index. */
module TrialSelection {
  datatype Trial = Trial(
    id: string, completed: bool, eligible: bool, threshold: real, completedAt: string, index: int)

  predicate Candidate(t: Trial) { t.completed && t.eligible }

  /** The order of `std::string`. */
  predicate Before(a: string, b: string) {
    b != "" && (a == "" || a[0] < b[0] || (a[0] == b[0] && Before(a[1..], b[1..])))
  }

  lemma {:induction false} BeforeTransitive(a: string, b: string, c: string)
    requires Before(a, b) && Before(b, c)
    ensures Before(a, c)
  {
    if a != "" && a[0] == b[0] == c[0] { BeforeTransitive(a[1..], b[1..], c[1..]); }
  }

  lemma {:induction false} BeforeTotal(a: string, b: string)
    ensures Before(a, b) || a == b || Before(b, a)
    ensures Before(a, b) ==> !Before(b, a)
    ensures a == b ==> !Before(a, b)
  {
    if a != "" && b != "" && a[0] == b[0] {
      BeforeTotal(a[1..], b[1..]);
      assert a == [a[0]] + a[1..] && b == [b[0]] + b[1..];
    }
  }

  /** `t` beats `u`. */
  predicate Better(t: Trial, u: Trial) {
    || t.threshold < u.threshold
    || (t.threshold == u.threshold && Before(t.completedAt, u.completedAt))
    || (t.threshold == u.threshold && t.completedAt == u.completedAt && t.index < u.index)
  }

  lemma BetterTotal(t: Trial, u: Trial)
    ensures !(Better(t, u) && Better(u, t))
    ensures t.index != u.index ==> Better(t, u) || Better(u, t)
  {
    BeforeTotal(t.completedAt, u.completedAt);
  }

  /** What beats the best so far beats everything that one was at least as good as. */
  lemma BetterChain(t: Trial, u: Trial, v: Trial)
    requires Better(t, u) && !Better(v, u)
    ensures Better(t, v)
  {
    BeforeTotal(u.completedAt, v.completedAt);
    if Before(t.completedAt, u.completedAt) && Before(u.completedAt, v.completedAt) {
      BeforeTransitive(t.completedAt, u.completedAt, v.completedAt);
    }
  }

  /** Trial `k` is the first candidate among `trials[m..i]` that no candidate there beats. */
  ghost predicate FirstBestIn(trials: seq<Trial>, m: nat, i: nat, k: nat) {
    && m <= k < i <= |trials| && Candidate(trials[k])
    && (forall j :: m <= j < i && Candidate(trials[j]) ==> !Better(trials[j], trials[k]))
    && (forall j :: m <= j < k && Candidate(trials[j]) ==> Better(trials[k], trials[j]))
  }

  ghost predicate FirstBest(trials: seq<Trial>, k: nat) { FirstBestIn(trials, 0, |trials|, k) }

  /** What being best means: no candidate has a lower threshold; of those with the same threshold none was
      completed earlier; of those completed at the same time none has a lower index. */
  lemma BestMeans(trials: seq<Trial>, k: nat, j: nat)
    requires FirstBest(trials, k) && j < |trials| && Candidate(trials[j])
    ensures trials[k].completed && trials[k].eligible && trials[k].threshold <= trials[j].threshold
    ensures trials[k].threshold == trials[j].threshold ==> !Before(trials[j].completedAt, trials[k].completedAt)
    ensures trials[k].threshold == trials[j].threshold && trials[k].completedAt == trials[j].completedAt ==>
      trials[k].index <= trials[j].index
  {
    assert !Better(trials[j], trials[k]);
  }

  ghost predicate NoneIn(trials: seq<Trial>, m: nat, i: nat)
    requires i <= |trials|
  {
    forall j :: m <= j < i ==> !Candidate(trials[j])
  }

  /** Before trial `m` nothing is remembered: it is the first one, or it follows a candidate without a
      run id. */
  ghost predicate Forgotten(trials: seq<Trial>, m: nat) {
    m == 0 || (m <= |trials| && Candidate(trials[m-1]) && trials[m-1].id == "")
  }

  /** The best candidate is chosen if and only if it has a run id: an empty one cannot be told from "none
      yet". In general the answer is the best of the trials from some point on. */
  method SelectBest(trials: seq<Trial>) returns (bestId: string, minThreshold: real)
    ensures bestId == "" ==> exists m: nat :: Forgotten(trials, m) && NoneIn(trials, m, |trials|)
    ensures bestId != "" ==>
      exists m: nat, k: nat ::
        && Forgotten(trials, m) && FirstBestIn(trials, m, |trials|, k)
        && bestId == trials[k].id && minThreshold == trials[k].threshold
    ensures NoneIn(trials, 0, |trials|) ==> bestId == ""
    ensures !NoneIn(trials, 0, |trials|) ==> exists k: nat :: FirstBest(trials, k)
    ensures forall k: nat :: FirstBest(trials, k) ==>
      (bestId != "" && bestId == trials[k].id && minThreshold == trials[k].threshold <==> trials[k].id != "")
  {
    var bestCompletedAt, bestIndex;
    bestId, minThreshold, bestCompletedAt, bestIndex := "", 0.0, "", 0;
    ghost var m, k := 0, 0;
    for i := 0 to |trials|
      invariant 0 <= m <= i && Forgotten(trials, m)
      invariant bestId == "" ==> NoneIn(trials, m, i)
      invariant bestId != "" ==> FirstBestIn(trials, m, i, k) && bestId == trials[k].id
      invariant forall b: nat :: b < i && FirstBest(trials, b) && trials[b].id != "" ==> bestId != "" && k == b
      invariant bestId != "" ==> minThreshold == trials[k].threshold
      invariant bestId != "" ==> bestCompletedAt == trials[k].completedAt && bestIndex == trials[k].index
    {
      var t := trials[i];
      if Candidate(t) {
        var isBetter := false;
        if bestId == "" || t.threshold < minThreshold {
          isBetter := true;
        } else if t.threshold == minThreshold {
          if Before(t.completedAt, bestCompletedAt) {
            isBetter := true;
          } else if t.completedAt == bestCompletedAt {
            if t.index < bestIndex { isBetter := true; }
          }
        }
        if isBetter {
          NewBest(trials, m, i, k, bestId != "");
          bestId, minThreshold, bestCompletedAt, bestIndex := t.id, t.threshold, t.completedAt, t.index;
          k := i;
          if bestId == "" { m := i + 1; }
        }
      }
    }
    BestExists(trials, |trials|);
    if b: nat :| FirstBestIn(trials, 0, |trials|, b) { assert FirstBest(trials, b); }
  }

  lemma {:induction false} BestExists(trials: seq<Trial>, i: nat)
    requires i <= |trials|
    ensures NoneIn(trials, 0, i) || exists k: nat :: FirstBestIn(trials, 0, i, k)
  {
    if i > 0 {
      var n := i - 1;
      BestExists(trials, n);
      if Candidate(trials[n]) {
        if NoneIn(trials, 0, n) { NewBest(trials, 0, n, 0, false); }
        else {
          var k: nat :| FirstBestIn(trials, 0, n, k);
          if Better(trials[n], trials[k]) { NewBest(trials, 0, n, k, true); }
          else { assert FirstBestIn(trials, 0, i, k); }
        }
      } else if !NoneIn(trials, 0, n) {
        var k: nat :| FirstBestIn(trials, 0, n, k);
        assert FirstBestIn(trials, 0, i, k);
      }
    }
  }

  /** A candidate that beats the best so far, or is the first, is the new best. */
  lemma NewBest(trials: seq<Trial>, m: nat, i: nat, k: nat, some: bool)
    requires m <= i < |trials| && Candidate(trials[i])
    requires if some then FirstBestIn(trials, m, i, k) && Better(trials[i], trials[k]) else NoneIn(trials, m, i)
    ensures FirstBestIn(trials, m, i + 1, i)
  {
    BetterTotal(trials[i], trials[i]);
    if some {
      forall j | m <= j < i && Candidate(trials[j])
        ensures Better(trials[i], trials[j]) && !Better(trials[j], trials[i])
      {
        BetterChain(trials[i], trials[k], trials[j]);
        BetterTotal(trials[i], trials[j]);
      }
    }
  }

  /** A best trial without a run id is passed over for a worse one. */
  method UnnamedForgets(worse: Trial) returns (bestId: string)
    requires Candidate(worse) && worse.id != ""
    ensures bestId == worse.id
  {
    var best := worse.(id := "", threshold := worse.threshold - 1.0);
    var trials := [best, worse];
    assert Better(best, worse);
    BetterTotal(worse, worse);
    BetterTotal(best, worse);
    var threshold;
    bestId, threshold := SelectBest(trials);
    assert Candidate(trials[0]) && Candidate(trials[1]);
  }

  /** Trials of one run have distinct indexes, so the choice does not depend on the order in which the
      database lists them. */
  lemma BestIgnoresOrder(trials: seq<Trial>, listed: seq<Trial>, k: nat, l: nat)
    requires multiset(trials) == multiset(listed)
    requires forall i, j :: 0 <= i < j < |trials| ==> trials[i].index != trials[j].index
    requires FirstBest(trials, k) && FirstBest(listed, l)
    ensures trials[k] == listed[l]
  {
    assert listed[l] in multiset(trials) && trials[k] in multiset(listed);
    var i :| 0 <= i < |trials| && trials[i] == listed[l];
    var j :| 0 <= j < |listed| && listed[j] == trials[k];
    BetterTotal(trials[i], trials[k]);
  }
}

/** Keyset pagination over a stored dataset: the batch iterator of training and the scoring worker.

    The table is the list of one dataset's rows in `record_id` order, ids distinct; no row is
    written while a job reads. A query of the training iterator may fail. */
module Telemetry {
  import opened Contract
  import opened Sealing
  import opened Linalg
  import opened Doubles
  import opened OrderStats
  import opened PcaTheorems
  import opened PcaSpec
  import opened PcaTrainer
  import opened PcaScoring

  datatype Row = Row(recordId: int, features: Vector)

  ghost predicate IsTable(t: seq<Row>) {
    && (forall i, j :: 0 <= i < j < |t| ==> t[i].recordId < t[j].recordId)
    && (forall i :: 0 <= i < |t| ==> |t[i].features| == FEATURES)
  }

  /** `WHERE record_id > id ORDER BY record_id`. */
  function After(t: seq<Row>, id: int): (r: seq<Row>)
    ensures |r| <= |t|
  {
    if t == [] then [] else (if t[0].recordId > id then [t[0]] else []) + After(t[1..], id)
  }

  /** `LIMIT n`. */
  function Limit(r: seq<Row>, n: nat): seq<Row> { if |r| <= n then r else r[..n] }

  /** The rows in the half-open id range `(low, high]`. */
  function Between(t: seq<Row>, low: int, high: int): seq<Row> {
    if t == [] then [] else (if low < t[0].recordId <= high then [t[0]] else []) + Between(t[1..], low, high)
  }

  function Features(r: seq<Row>): (f: seq<Vector>)
    ensures |f| == |r| && forall i :: 0 <= i < |r| ==> f[i] == r[i].features
  {
    seq(|r|, i requires 0 <= i < |r| => r[i].features)
  }

  // ---------------------------------------------------------------- what keyset paging relies on

  /** How many leading rows have an id of at most `id`. */
  function Cut(t: seq<Row>, id: int): (k: nat)
    ensures k <= |t|
  {
    if t == [] || t[0].recordId > id then 0 else 1 + Cut(t[1..], id)
  }

  lemma {:induction false} CutSplits(t: seq<Row>, id: int)
    requires IsTable(t)
    ensures forall i :: 0 <= i < |t| ==> (t[i].recordId <= id <==> i < Cut(t, id))
  {
    if t != [] && !(t[0].recordId > id) {
      CutSplits(t[1..], id);
      assert forall i :: 0 < i < |t| ==> t[i] == t[1..][i-1];
    }
  }

  lemma CutAtRow(t: seq<Row>, m: nat)
    requires IsTable(t) && 0 < m <= |t|
    ensures Cut(t, t[m-1].recordId) == m
  {
    CutSplits(t, t[m-1].recordId);
    assert m < |t| ==> t[m-1].recordId < t[m].recordId;
  }

  lemma {:induction false} AfterIsSuffix(t: seq<Row>, id: int)
    requires IsTable(t)
    ensures After(t, id) == t[Cut(t, id)..]
  {
    if t != [] {
      AfterIsSuffix(t[1..], id);
      if t[0].recordId > id {
        NothingBefore(t, id);
        assert t[1..][0..] == t[1..] && [t[0]] + t[1..] == t && t[0..] == t;
      } else {
        TailFrom(t, Cut(t[1..], id));
      }
    }
  }

  lemma TailFrom(t: seq<Row>, k: nat)
    requires k < |t|
    ensures t[1..][k..] == t[1 + k..]
  {}

  ghost predicate IsSlice(t: seq<Row>, low: int, high: int) {
    Cut(t, low) <= Cut(t, high) && Between(t, low, high) == t[Cut(t, low)..Cut(t, high)]
  }

  lemma {:induction false} BetweenIsSlice(t: seq<Row>, low: int, high: int)
    requires IsTable(t) && low <= high
    ensures Cut(t, low) <= Cut(t, high) && Between(t, low, high) == t[Cut(t, low)..Cut(t, high)]
  {
    if t != [] {
      BetweenIsSlice(t[1..], low, high);
      NothingBefore(t, low);
      NothingBefore(t, high);
      if t[0].recordId <= low { SkipHead(t, low, high); }
      else if t[0].recordId <= high { TakeHead(t, low, high); }
      else { StopAtHead(t, low, high); }
      assert IsSlice(t, low, high);
    }
  }

  lemma {:induction false} SkipHead(t: seq<Row>, low: int, high: int)
    requires t != [] && t[0].recordId <= low <= high && IsSlice(t[1..], low, high)
    ensures IsSlice(t, low, high)
  {
    var a, b := Cut(t[1..], low), Cut(t[1..], high);
    assert t[1..][a..b] == t[1 + a..1 + b];
  }

  lemma {:induction false} TakeHead(t: seq<Row>, low: int, high: int)
    requires t != [] && low < t[0].recordId <= high && IsSlice(t[1..], low, high) && Cut(t[1..], low) == 0
    ensures IsSlice(t, low, high)
  {
    var b := Cut(t[1..], high);
    assert [t[0]] + t[1..][0..b] == t[0..1 + b];
  }

  lemma {:induction false} StopAtHead(t: seq<Row>, low: int, high: int)
    requires t != [] && low <= high < t[0].recordId && IsSlice(t[1..], low, high)
    requires Cut(t[1..], low) == 0 && Cut(t[1..], high) == 0
    ensures IsSlice(t, low, high)
  {}

  lemma NothingBefore(t: seq<Row>, id: int)
    requires IsTable(t) && t != []
    ensures t[0].recordId > id ==> Cut(t[1..], id) == 0
  {
    assert |t| > 1 ==> t[1..][0].recordId > t[0].recordId;
  }

  /** A scan cut at any id and resumed from it covers the rest of the table once, in order. */
  lemma CutAndResume(t: seq<Row>, low: int, mid: int)
    requires IsTable(t) && low <= mid
    ensures Between(t, low, mid) + After(t, mid) == After(t, low)
  {
    BetweenIsSlice(t, low, mid);
    AfterIsSuffix(t, mid);
    AfterIsSuffix(t, low);
  }

  /** One query: the rows it returns, and where the next one continues. */
  lemma Page(t: seq<Row>, id: int, n: nat)
    requires IsTable(t)
    ensures var res, k := Limit(After(t, id), n), Cut(t, id);
      && k + |res| <= |t| && res == t[k..k + |res|]
      && (res == [] <==> n == 0 || k == |t|)
      && (res != [] ==> res[|res|-1].recordId > id && Cut(t, res[|res|-1].recordId) == k + |res|)
  {
    AfterIsSuffix(t, id);
    CutSplits(t, id);
    var res, k := Limit(After(t, id), n), Cut(t, id);
    if res != [] {
      assert res[|res|-1] == t[k + |res| - 1];
      CutAtRow(t, k + |res|);
    }
  }

  /** What follows a page is what its last id leads to. */
  lemma NextPage(t: seq<Row>, id: int, n: nat)
    requires IsTable(t)
    ensures var rows := After(t, id);
      var res := Limit(rows, n);
      res != [] ==> After(t, res[|res|-1].recordId) == rows[|res|..]
  {
    var res := Limit(After(t, id), n);
    Page(t, id, n);
    AfterIsSuffix(t, id);
    if res != [] { AfterIsSuffix(t, res[|res|-1].recordId); }
  }

  // ---------------------------------------------------------------- the training iterator

  /** The callback is called once for each row of a batch. */
  method Deliver(seen: seq<Vector>, batch: seq<Vector>) returns (r: seq<Vector>)
    ensures r == seen + batch
  {
    r := seen;
    for i := 0 to |batch|
      invariant r == seen + batch[..i]
    {
      r := r + [batch[i]];
    }
    assert batch[..|batch|] == batch;
  }

  /** How one call of the iterator goes wrong: the query throws, or reading row `row` of its result. */
  datatype Fault = NoFault | QueryFails | RowFails(row: nat)

  /** The fault is met before the result has been read. */
  predicate Interrupts(f: Fault, res: seq<Row>) { f.QueryFails? || (f.RowFails? && f.row < |res|) }

  function RowsRead(f: Fault, res: seq<Row>): (m: nat)
    ensures m <= |res| && (!Interrupts(f, res) ==> m == |res|)
  {
    if f.QueryFails? then 0 else if f.RowFails? && f.row < |res| then f.row else |res|
  }

  class TelemetryBatchIterator {
    const table: seq<Row>
    const batchSize: nat
    var lastRecordId: int
    var totalProcessed: nat

    constructor (table: seq<Row>, batchSize: nat)
      ensures this.table == table && this.batchSize == batchSize && lastRecordId == 0 && totalProcessed == 0
    {
      this.table, this.batchSize, lastRecordId, totalProcessed := table, batchSize, 0, 0;
    }

    /** A failure is caught: the call answers as at the end of the data, with the cursor past the rows
        that were read and the count unchanged. */
    method NextBatch(fault: Fault) returns (more: bool, batch: seq<Vector>)
      modifies this
      ensures var res := Limit(old(After(table, lastRecordId)), batchSize);
        var m := RowsRead(fault, res);
        && batch == Features(res[..m]) && more == (res != [] && !Interrupts(fault, res))
        && lastRecordId == (if m == 0 then old(lastRecordId) else res[m-1].recordId)
        && totalProcessed == old(totalProcessed) + if more then |res| else 0
    {
      batch := [];
      if fault.QueryFails? { return false, batch; }
      var res := Limit(After(table, lastRecordId), batchSize);
      if res == [] { return false, batch; }
      ghost var start, m := totalProcessed, RowsRead(fault, res);
      for i := 0 to |res|
        invariant i <= m && batch == Features(res[..i]) && totalProcessed == start
        invariant lastRecordId == if i == 0 then old(lastRecordId) else res[i-1].recordId
      {
        if fault == RowFails(i) { return false, batch; }
        batch := batch + [res[i].features];
        lastRecordId := res[i].recordId;
      }
      totalProcessed := totalProcessed + |batch|;
      return true, batch;
    }

    method Reset()
      modifies this
      ensures lastRecordId == 0 && totalProcessed == 0
    {
      lastRecordId, totalProcessed := 0, 0;
    }

    /** One query, against the rows that are left. */
    method Fetch(fault: Fault, ghost rows: seq<Row>) returns (more: bool, batch: seq<Vector>)
      requires IsTable(table) && rows == After(table, lastRecordId)
      modifies this
      ensures more == Continues(rows, batchSize, fault)
      ensures more ==> batch == Features(Limit(rows, batchSize)) && After(table, lastRecordId) == rows[|batch|..]
      ensures totalProcessed == old(totalProcessed) + if more then |batch| else 0
    {
      NextPage(table, lastRecordId, batchSize);
      ghost var res := Limit(rows, batchSize);
      more, batch := NextBatch(fault);
      if more { assert res[..|res|] == res; }
    }

    /** One pass of the stream: `seen` lists what the callback receives, in order. `faults(q)` is how
        query `q` of the pass goes. */
    method ForEach(faults: nat -> Fault) returns (seen: seq<Vector>)
      requires IsTable(table)
      modifies this
      ensures seen == Features(Delivered(After(table, 0), batchSize, faults, 0))
      ensures totalProcessed == |seen|
    {
      Reset();
      seen := [];
      var q := 0;
      ghost var rows := After(table, 0);
      ghost var goal := Features(Delivered(rows, batchSize, faults, 0));
      var more, batch := Fetch(faults(q), rows);
      while more
        invariant more == Continues(rows, batchSize, faults(q))
        invariant more ==> batch == Features(Limit(rows, batchSize)) && After(table, lastRecordId) == rows[|batch|..]
        invariant goal == seen + Features(Delivered(rows, batchSize, faults, q))
        invariant totalProcessed == |seen| + if more then |batch| else 0
        decreases |rows|
      {
        DeliverPage(goal, seen, batch, rows, batchSize, faults, q);
        seen := Deliver(seen, batch);
        rows := rows[|batch|..];
        q := q + 1;
        more, batch := Fetch(faults(q), rows);
      }
    }
  }

  // ---------------------------------------------------------------- what a pass delivers

  /** The query finds rows and reads them all. */
  predicate Continues(rows: seq<Row>, n: nat, f: Fault) { n > 0 && rows != [] && !Interrupts(f, Limit(rows, n)) }

  /** What a pass over `rows` delivers from query `q` on: whole pages up to the first interrupted one. */
  function Delivered(rows: seq<Row>, n: nat, faults: nat -> Fault, q: nat): (r: seq<Row>)
    ensures r <= rows
    decreases |rows|
  {
    var res := Limit(rows, n);
    if Continues(rows, n, faults(q)) then res + Delivered(rows[|res|..], n, faults, q + 1) else []
  }

  lemma {:induction false} DeliverPage(goal: seq<Vector>, seen: seq<Vector>, batch: seq<Vector>, rows: seq<Row>,
                                       n: nat, faults: nat -> Fault, q: nat)
    requires Continues(rows, n, faults(q)) && batch == Features(Limit(rows, n))
    requires goal == seen + Features(Delivered(rows, n, faults, q))
    ensures 0 < |batch| <= |rows|
    ensures goal == (seen + batch) + Features(Delivered(rows[|batch|..], n, faults, q + 1))
  {
    var res := Limit(rows, n);
    var rest := Delivered(rows[|res|..], n, faults, q + 1);
    assert Delivered(rows, n, faults, q) == res + rest;
    FeaturesJoin(res, rest);
    Regroup(goal, seen, batch, Features(rest));
  }

  lemma FeaturesJoin(a: seq<Row>, b: seq<Row>)
    ensures Features(a + b) == Features(a) + Features(b)
  {}

  lemma Regroup(goal: seq<Vector>, a: seq<Vector>, b: seq<Vector>, c: seq<Vector>)
    requires goal == a + (b + c)
    ensures goal == (a + b) + c
  {}

  function Times(i: nat, n: nat): nat { i * n }

  /** Query `i` of a pass, if it returns rows (those from `i n` on), is not interrupted. */
  predicate CleanPage(rows: seq<Row>, n: nat, f: Fault, i: nat) {
    Times(i, n) < |rows| ==> !Interrupts(f, Limit(rows[Times(i, n)..], n))
  }

  ghost predicate CleanPass(rows: seq<Row>, n: nat, faults: nat -> Fault) {
    forall i: nat :: CleanPage(rows, n, faults(i), i)
  }

  lemma TimesNext(i: nat, n: nat)
    ensures Times(0, n) == 0 && Times(i + 1, n) == Times(i, n) + n
  {}

  /** Page `i + 1` is page `i` of what follows the first page. */
  lemma ShiftedPage(rows: seq<Row>, n: nat, f: Fault, i: nat)
    ensures CleanPage(rows, n, f, i + 1) == CleanPage(rows[|Limit(rows, n)|..], n, f, i)
  {
    TimesNext(i, n);
    if n < |rows| && Times(i + 1, n) < |rows| {
      assert rows[n..][Times(i, n)..] == rows[Times(i + 1, n)..];
    }
  }

  lemma FirstPage(rows: seq<Row>, n: nat, f: Fault)
    requires n > 0 && rows != []
    ensures CleanPage(rows, n, f, 0) == Continues(rows, n, f)
  {
    TimesNext(0, n);
    assert rows[0..] == rows;
  }

  function Later(faults: nat -> Fault): nat -> Fault { (i: nat) => faults(i + 1) }

  /** All pages are clean exactly when the first one is and all those after it. */
  lemma {:induction false} CleanStep(rows: seq<Row>, n: nat, faults: nat -> Fault)
    requires n > 0 && rows != []
    ensures var rest := rows[|Limit(rows, n)|..];
      CleanPass(rows, n, faults) <==> Continues(rows, n, faults(0)) && CleanPass(rest, n, Later(faults))
  {
    var rest := rows[|Limit(rows, n)|..];
    FirstPage(rows, n, faults(0));
    forall i: nat ensures CleanPage(rows, n, faults(i + 1), i + 1) == CleanPage(rest, n, Later(faults)(i), i) {
      ShiftedPage(rows, n, faults(i + 1), i);
    }
    if Continues(rows, n, faults(0)) && CleanPass(rest, n, Later(faults)) {
      forall i: nat ensures CleanPage(rows, n, faults(i), i) {
        if i > 0 { ShiftedPage(rows, n, faults(i), i - 1); assert CleanPage(rest, n, Later(faults)(i - 1), i - 1); }
      }
    }
  }

  lemma {:induction false} DeliveredLater(rows: seq<Row>, n: nat, faults: nat -> Fault, q: nat)
    ensures Delivered(rows, n, faults, q + 1) == Delivered(rows, n, Later(faults), q)
    decreases |rows|
  {
    if Continues(rows, n, faults(q + 1)) { DeliveredLater(rows[|Limit(rows, n)|..], n, faults, q + 1); }
  }

  lemma {:induction false} SamePrefix(p: seq<Row>, x: seq<Row>, y: seq<Row>)
    ensures p + x == p + y <==> x == y
  {
    assert (p + x)[|p|..] == x && (p + y)[|p|..] == y;
  }

  lemma {:induction false} DeliveredStep(rows: seq<Row>, n: nat, faults: nat -> Fault)
    requires n > 0 && rows != []
    ensures var rest := rows[|Limit(rows, n)|..];
      Delivered(rows, n, faults, 0) == rows <==>
        Continues(rows, n, faults(0)) && Delivered(rest, n, Later(faults), 0) == rest
  {
    var res := Limit(rows, n);
    var rest := rows[|res|..];
    assert rows == res + rest;
    DeliveredLater(rest, n, faults, 0);
    SamePrefix(res, Delivered(rest, n, faults, 1), rest);
  }

  /** A pass delivers every row if and only if none of the queries that return rows is interrupted. */
  lemma {:induction false} DeliveredExactly(rows: seq<Row>, n: nat, faults: nat -> Fault)
    requires n > 0
    ensures Delivered(rows, n, faults, 0) == rows <==> CleanPass(rows, n, faults)
    decreases |rows|
  {
    if rows != [] {
      CleanStep(rows, n, faults);
      DeliveredStep(rows, n, faults);
      DeliveredExactly(rows[|Limit(rows, n)|..], n, Later(faults));
    }
  }

  ghost predicate Complete(t: seq<Row>, n: nat, faults: nat -> Fault) {
    t == [] || (n > 0 && t[0].recordId > 0 && CleanPass(t, n, faults))
  }

  /** A pass delivers the whole dataset if and only if the dataset is empty, or ids are positive, the
      batch size is not zero and no query that returns rows is interrupted. */
  lemma {:induction false} WholeDataset(t: seq<Row>, n: nat, faults: nat -> Fault)
    requires IsTable(t)
    ensures Delivered(After(t, 0), n, faults, 0) == t <==> Complete(t, n, faults)
  {
    AfterIsSuffix(t, 0);
    CutSplits(t, 0);
    if n > 0 { DeliveredExactly(After(t, 0), n, faults); }
  }

  /** The second query of a pass fails: only the first page is delivered, and nothing tells. */
  lemma SecondPageLost(t: seq<Row>, n: nat)
    requires 0 < n < |After(t, 0)|
    ensures var faults := (q: nat) => if q == 1 then QueryFails else NoFault;
      Delivered(After(t, 0), n, faults, 0) == After(t, 0)[..n]
  {
    var faults := (q: nat) => if q == 1 then QueryFails else NoFault;
    assert Delivered(After(t, 0)[n..], n, faults, 1) == [];
  }

  /** `TrainPcaFromDbBatched`: three passes over one iterator; `faults(k)` is how the queries of pass `k`
      go. If each pass delivers the whole dataset, whatever the batch size, the result is that of
      training on the stored rows held in memory. */
  method TrainPcaFromDbBatched(libm: Libm, table: seq<Row>, batchSize: nat, faults: nat -> nat -> Fault,
                               nComponents: int, percentile: real)
    returns (r: Result<Artifact, TrainError>)
    requires IsTable(table)
    ensures var pass := k => Features(Delivered(After(table, 0), batchSize, faults(k), 0));
      r == Train(libm, pass(0), pass(1), pass(2), FEATURES, nComponents, percentile)
    ensures (forall k :: Complete(table, batchSize, faults(k))) ==>
      r == Train(libm, Features(table), Features(table), Features(table), FEATURES, nComponents, percentile)
  {
    var iter := new TelemetryBatchIterator(table, batchSize);
    var first := iter.ForEach(faults(0));
    var second := iter.ForEach(faults(1));
    var third := iter.ForEach(faults(2));
    WholeDataset(table, batchSize, faults(0));
    WholeDataset(table, batchSize, faults(1));
    WholeDataset(table, batchSize, faults(2));
    r := TrainPcaFromStream(libm, first, second, third, FEATURES, nComponents, percentile);
  }

  // ---------------------------------------------------------------- the scoring worker

  datatype JobEnd = Completed | Cancelled | Failed

  /** What the job's record says of its progress. */
  datatype Checkpoint = Checkpoint(last: int, processed: int)

  /** What happens to one turn of the worker: the query or the insertion throws, or the progress it
      writes is lost (that failure is only logged). */
  datatype Trouble = NoTrouble | FetchThrows | InsertThrows | SaveLost

  /** A row of the score table. */
  datatype Stored = Stored(recordId: int, error: Double, isAnomaly: bool)

  /** Entry `i` is about row `i` and carries its error and its flag. */
  ghost predicate Reports(stored: seq<Stored>, rows: seq<Row>, score: Vector -> Score) {
    && |stored| == |rows|
    && (forall i :: 0 <= i < |rows| ==> stored[i].recordId == rows[i].recordId)
    && (forall i :: 0 <= i < |rows| ==> stored[i].error == score(rows[i].features).reconstructionError)
    && (forall i :: 0 <= i < |rows| ==> (stored[i].isAnomaly <==> score(rows[i].features).isAnomaly))
  }

  function ScoreRows(rows: seq<Row>, score: Vector -> Score): (r: seq<Stored>)
    ensures Reports(r, rows, score)
  {
    seq(|rows|, i requires 0 <= i < |rows| =>
      Stored(rows[i].recordId, score(rows[i].features).reconstructionError, score(rows[i].features).isAnomaly))
  }

  lemma ScoresJoin(a: seq<Row>, b: seq<Row>, score: Vector -> Score)
    ensures ScoreRows(a + b, score) == ScoreRows(a, score) + ScoreRows(b, score)
  {}

  const BATCH: nat := 5000

  /** A turn that finds `rows` throws: at the query, or at the insertion if there is anything to insert. */
  predicate Throws(trouble: Trouble, rows: seq<Row>) {
    trouble.FetchThrows? || (trouble.InsertThrows? && rows != [])
  }

  /** One turn's worth of rows after `last`: an insertion is all or nothing. */
  method ScoreTurn(table: seq<Row>, last: int, score: Vector -> Score, trouble: Trouble)
    returns (rows: seq<Row>, scores: seq<Stored>, threw: bool)
    requires IsTable(table)
    ensures threw <==> Throws(trouble, After(table, last))
    ensures rows == if threw then [] else Limit(After(table, last), BATCH)
    ensures scores == ScoreRows(rows, score)
  {
    rows, scores, threw := [], [], false;
    if trouble.FetchThrows? { return [], [], true; }
    rows := Limit(After(table, last), BATCH);
    if rows == [] { return; }
    scores := ScoreBatch(rows, score);
    if trouble.InsertThrows? { return [], [], true; }
  }

  /** So many turns have scored so many rows: full batches, and a short one only at the end. */
  predicate InBatches(scored: nat, turns: nat, done: bool) {
    scored <= 5000 * turns && (turns > 0 ==> scored > 5000 * (turns - 1)) && (scored < 5000 * turns ==> done)
  }

  lemma BatchOn(scored: nat, turns: nat, left: nat, rows: nat)
    requires InBatches(scored, turns, false) && left > 0 && rows == if left <= BATCH then left else BATCH
    ensures InBatches(scored + rows, turns + 1, left - rows == 0)
  {}

  /** Exactly the rows up to `at` are scored, and the stored checkpoint is true of some earlier point. */
  ghost predicate Progressed(t: seq<Row>, start: int, before: int, score: Vector -> Score, inserted: seq<Stored>,
                             at: Checkpoint, saved: Checkpoint)
  {
    && start <= saved.last <= at.last && inserted == ScoreRows(Between(t, start, at.last), score)
    && at.processed == before + |Between(t, start, at.last)|
    && saved.processed == before + |Between(t, start, saved.last)|
  }

  lemma {:induction false} ProgressOn(t: seq<Row>, start: int, before: int, score: Vector -> Score,
                                      inserted: seq<Stored>, at: Checkpoint, saved: Checkpoint, rows: seq<Row>)
    requires IsTable(t) && Progressed(t, start, before, score, inserted, at, saved)
    requires rows == Limit(After(t, at.last), BATCH) && rows != []
    ensures var next := Checkpoint(rows[|rows|-1].recordId, at.processed + |rows|);
      && Progressed(t, start, before, score, inserted + ScoreRows(rows, score), next, saved)
      && Progressed(t, start, before, score, inserted + ScoreRows(rows, score), next, next)
      && After(t, next.last) == After(t, at.last)[|rows|..] && 0 < |rows| <= BATCH && next.last > at.last
  {
    BetweenPage(t, start, at.last, BATCH);
    NextPage(t, at.last, BATCH);
    ScoresJoin(Between(t, start, at.last), rows, score);
  }

  /** A page extends the rows already covered. */
  lemma {:induction false} BetweenPage(t: seq<Row>, start: int, last: int, n: nat)
    requires IsTable(t) && start <= last
    ensures var rows := Limit(After(t, last), n);
      rows != [] ==>
        var next := rows[|rows|-1].recordId;
        next > last && Between(t, start, next) == Between(t, start, last) + rows
  {
    var rows := Limit(After(t, last), n);
    Page(t, last, n);
    if rows != [] {
      var next := rows[|rows|-1].recordId;
      BetweenIsSlice(t, start, last);
      BetweenIsSlice(t, start, next);
      Adjacent(t, Cut(t, start), Cut(t, last), Cut(t, next));
    }
  }

  lemma Adjacent(t: seq<Row>, a: nat, b: nat, c: nat)
    requires a <= b <= c <= |t|
    ensures t[a..c] == t[a..b] + t[b..c]
  {}

  /** What the loop has done after `turns` turns. */
  ghost predicate LoopState(t: seq<Row>, start: int, before: int, score: Vector -> Score, trouble: nat -> Trouble,
                            inserted: seq<Stored>, at: Checkpoint, saved: Checkpoint, turns: nat)
  {
    && Progressed(t, start, before, score, inserted, at, saved)
    && InBatches(|inserted|, turns, After(t, at.last) == [])
    && (saved.last == at.last <==> turns == 0 || !trouble(turns - 1).SaveLost?)
  }

  /** `LoopState`, sealed. */
  ghost predicate Working(t: seq<Row>, start: int, before: int, score: Vector -> Score, trouble: nat -> Trouble,
                          inserted: seq<Stored>, at: Checkpoint, saved: Checkpoint, turns: nat)
  {
    forall k {:trigger Key(k)} :: Key(k) ==> LoopState(t, start, before, score, trouble, inserted, at, saved, turns)
  }

  lemma WorkStarts(t: seq<Row>, start: int, before: int, score: Vector -> Score, trouble: nat -> Trouble)
    requires IsTable(t)
    ensures var at := Checkpoint(start, before); Working(t, start, before, score, trouble, [], at, at, 0)
  {
    BetweenIsSlice(t, start, start);
  }

  lemma {:induction false} WorkGoesOn(t: seq<Row>, start: int, before: int, score: Vector -> Score,
                                      trouble: nat -> Trouble, inserted: seq<Stored>, at: Checkpoint,
                                      saved: Checkpoint, turns: nat, rows: seq<Row>)
    requires IsTable(t) && Working(t, start, before, score, trouble, inserted, at, saved, turns)
    requires rows == Limit(After(t, at.last), BATCH) && rows != []
    ensures var next := Checkpoint(rows[|rows|-1].recordId, at.processed + |rows|);
      && Working(t, start, before, score, trouble, inserted + ScoreRows(rows, score), next,
                 if trouble(turns).SaveLost? then saved else next, turns + 1)
      && |After(t, next.last)| < |After(t, at.last)|
  {
    assert Key(0);
    ProgressOn(t, start, before, score, inserted, at, saved, rows);
    BatchOn(|inserted|, turns, |After(t, at.last)|, |rows|);
  }

  lemma WorkDone(t: seq<Row>, start: int, before: int, score: Vector -> Score, trouble: nat -> Trouble,
                 inserted: seq<Stored>, at: Checkpoint, saved: Checkpoint, turns: nat)
    requires Working(t, start, before, score, trouble, inserted, at, saved, turns)
    ensures LoopState(t, start, before, score, trouble, inserted, at, saved, turns)
  {
    assert Key(0);
  }

  /** The worker's loop: it ends at a raised flag, at a turn that throws, or when no row is left. */
  method ScoreLoop(table: seq<Row>, start: int, processedBefore: int, score: Vector -> Score, stops: nat -> bool,
                   trouble: nat -> Trouble)
    returns (threw: bool, inserted: seq<Stored>, at: Checkpoint, saved: Checkpoint, turns: nat)
    requires IsTable(table)
    ensures Working(table, start, processedBefore, score, trouble, inserted, at, saved, turns)
    ensures threw <==> !stops(turns) && Throws(trouble(turns), After(table, at.last))
    ensures !threw && !stops(turns) ==> After(table, at.last) == []
  {
    threw, inserted, turns := false, [], 0;
    at := Checkpoint(start, processedBefore);
    saved := at;
    WorkStarts(table, start, processedBefore, score, trouble);
    var stop := stops(0);
    while !stop
      invariant stop == stops(turns) && !threw
      invariant Working(table, start, processedBefore, score, trouble, inserted, at, saved, turns)
      decreases |After(table, at.last)|
    {
      var rows, scores;
      rows, scores, threw := ScoreTurn(table, at.last, score, trouble(turns));
      if threw || rows == [] { return; }
      WorkGoesOn(table, start, processedBefore, score, trouble, inserted, at, saved, turns, rows);
      inserted := inserted + scores;
      at := Checkpoint(rows[|rows|-1].recordId, at.processed + |rows|);
      if !trouble(turns).SaveLost? { saved := at; }
      turns := turns + 1;
      stop := stops(turns);
    }
  }

  /** The worker of `HandleScoreDatasetJob` from a stored checkpoint. `stops(i)` is the i-th value read
      from the stop flag, which is never taken back and is read before each of the `turns` batches, once
      more, and once after the loop; `trouble(i)` befalls turn `i`, and `endLost` says
      that the final write is lost. What it inserts is one score for each row in `(start, last]`, in id
      order; `processed` grows by their number; `Completed` means no row is left, and `Failed` that a turn
      threw. The stored checkpoint is never ahead, and behind exactly if the last write was lost. */
  method ScoreDataset(table: seq<Row>, start: int, processedBefore: int, score: Vector -> Score, stops: nat -> bool,
                      trouble: nat -> Trouble, endLost: bool)
    returns (end: JobEnd, inserted: seq<Stored>, last: int, processed: int, saved: Checkpoint, turns: nat)
    requires IsTable(table)
    requires forall i, j :: i <= j && stops(i) ==> stops(j)
    ensures last >= start && inserted == ScoreRows(Between(table, start, last), score)
    ensures Reports(inserted, Between(table, start, last), score)
    ensures processed == processedBefore + |inserted|
    ensures end == Completed ==> After(table, last) == [] && inserted == ScoreRows(After(table, start), score)
    ensures turns == (|inserted| + 4999) / 5000 && (end != Failed ==> (end == Cancelled <==> stops(turns + 1)))
    ensures end == Failed <==> !stops(turns) && Throws(trouble(turns), After(table, last))
    ensures start <= saved.last <= last
    ensures saved.processed == processedBefore + |Between(table, start, saved.last)|
    ensures saved.last == last <==>
      (end != Failed && !endLost) || turns == 0 || !trouble(turns - 1).SaveLost?
    ensures saved.last == last ==> saved.processed == processed
  {
    var threw, at;
    threw, inserted, at, saved, turns := ScoreLoop(table, start, processedBefore, score, stops, trouble);
    last, processed := at.last, at.processed;
    WorkDone(table, start, processedBefore, score, trouble, inserted, at, saved, turns);
    CutAndResume(table, start, last);
    if threw { end := Failed; return; } // The record is written back as it is stored.
    if stops(turns + 1) { end := Cancelled; } else { end := Completed; }
    if !endLost { saved := Checkpoint(last, processed); }
  }

  /** A worker that has scored `(start, last]` and a later one that resumes from `saved` and completes
      score every row after `start` exactly once if and only if no row lies in `(saved, last]`; the rows
      there are scored twice. */
  lemma {:induction false} ResumeExactly(t: seq<Row>, start: int, saved: int, last: int)
    requires IsTable(t) && start <= saved <= last
    ensures Between(t, start, last) == Between(t, start, saved) + Between(t, saved, last)
    ensures After(t, saved) == Between(t, saved, last) + After(t, last)
    ensures Between(t, start, last) + After(t, saved) == After(t, start) <==> Between(t, saved, last) == []
  {
    BetweenJoin(t, start, saved, last);
    CutAndResume(t, start, saved);
    CutAndResume(t, saved, last);
    TwiceOrOnce(Between(t, start, saved), Between(t, saved, last), After(t, last));
  }

  lemma {:induction false} BetweenJoin(t: seq<Row>, low: int, mid: int, high: int)
    requires IsTable(t) && low <= mid <= high
    ensures Between(t, low, high) == Between(t, low, mid) + Between(t, mid, high)
  {
    BetweenIsSlice(t, low, mid);
    BetweenIsSlice(t, mid, high);
    BetweenIsSlice(t, low, high);
    Adjacent(t, Cut(t, low), Cut(t, mid), Cut(t, high));
  }

  lemma TwiceOrOnce(x: seq<Row>, y: seq<Row>, z: seq<Row>)
    ensures (x + y) + (y + z) == x + (y + z) <==> y == []
  {
    if y == [] { assert (x + y) + (y + z) == x + (y + z); }
    else { assert |(x + y) + (y + z)| != |x + (y + z)|; }
  }

  // ---------------------------------------------------------------- what a model's job stores

  /** The scores a loaded model gives. */
  function ScoreFn(libm: Libm, a: Artifact): Vector -> Score {
    x => if Consistent(a, |x|) then ScoreWith(libm, a, x) else Score(false, Fin(0.0), [])
  }

  /** A stored flag is set if and only if the stored error exceeds the model's threshold. */
  lemma StoredFlagMeans(libm: Libm, a: Artifact, rows: seq<Row>, stored: seq<Stored>, i: nat)
    requires Consistent(a, FEATURES) && Reports(stored, rows, ScoreFn(libm, a)) && i < |rows|
    requires |rows[i].features| == FEATURES
    ensures stored[i].error == Fin(ErrorWith(libm, a, rows[i].features))
    ensures stored[i].isAnomaly <==> ErrorWith(libm, a, rows[i].features) > a.threshold
  {}

  function IsFlagged(): Stored -> bool { (s: Stored) => s.isAnomaly }

  lemma {:induction false} StoredFlagsCount(libm: Libm, a: Artifact, rows: seq<Row>, stored: seq<Stored>)
    requires IsTable(rows) && Consistent(a, FEATURES) && Reports(stored, rows, ScoreFn(libm, a))
    ensures Count(stored, IsFlagged()) == Count(ErrorsWith(libm, a, Features(rows), FEATURES), Above(a.threshold))
  {
    var errors := ErrorsWith(libm, a, Features(rows), FEATURES);
    forall i | 0 <= i < |rows| ensures stored[i].isAnomaly <==> errors[i] > a.threshold {
      StoredFlagMeans(libm, a, rows, stored, i);
    }
    CountImplies(stored, IsFlagged(), errors, Above(a.threshold));
    CountImplies(errors, Above(a.threshold), stored, IsFlagged());
  }

  /** A job that scores its own training set with a model trained at percentile `p` stores at most
      `n - ceil(p n / 100)` flags. */
  lemma {:induction false} TrainingSetFlags(libm: Libm, table: seq<Row>, k: nat, p: real, rank: real,
                                            stored: seq<Stored>)
    requires IsTable(table) && Trainable(libm, Features(table), FEATURES, k) && 0.0 < p <= 100.0
    requires rank == Mul(p, |table| as real) / 100.0
    requires var xs := Features(table);
      var r := Train(libm, xs, xs, xs, FEATURES, k, p);
      r.Success? && Reports(stored, table, ScoreFn(libm, r.value))
    ensures 1 <= Ceil(rank) <= |table| && Count(stored, IsFlagged()) <= |table| - Ceil(rank)
  {
    var xs := Features(table);
    var a := Train(libm, xs, xs, xs, FEATURES, k, p).value;
    TrainingRowsFlagged(libm, xs, FEATURES, k, p, rank);
    FlaggedCounts(libm, a, xs, FEATURES);
    StoredFlagsCount(libm, a, table, stored);
  }

  method ScoreBatch(rows: seq<Row>, score: Vector -> Score) returns (scores: seq<Stored>)
    ensures scores == ScoreRows(rows, score)
  {
    scores := [];
    for i := 0 to |rows|
      invariant scores == ScoreRows(rows[..i], score)
    {
      var s := score(rows[i].features);
      scores := scores + [Stored(rows[i].recordId, s.reconstructionError, s.isAnomaly)];
    }
    assert rows[..|rows|] == rows;
  }
}

/** Batched execution of the inference scheduler: concatenate the inputs, run once, split the
    outputs, and fall back to running the requests one by one. */
module Dispatch {
  import opened Options

  type Row = seq<real>

  /** An output tensor: without batch dimension, or a list of rows. */
  datatype Output = Scalar(value: real) | Rows(rows: seq<Row>)

  datatype Outcome = Ran(outputs: seq<Output>) | Raised(error: string)

  type Executor = seq<Row> -> Outcome

  datatype Job = Job(id: nat, input: seq<Row>)

  datatype Future = Pending | Cancelled | Done(outputs: seq<Output>) | Failed(error: string)

  // ----- concatenation and splitting

  function Sum(sizes: seq<nat>): nat {
    if sizes == [] then 0 else sizes[0] + Sum(sizes[1..])
  }

  function Concat(inputs: seq<seq<Row>>): seq<Row> {
    if inputs == [] then [] else inputs[0] + Concat(inputs[1..])
  }

  predicate Splittable(outputs: seq<Output>, total: nat) {
    forall k | 0 <= k < |outputs| :: outputs[k].Rows? && |outputs[k].rows| == total
  }

  /** The rows from start to end of every output. */
  function Slice(outputs: seq<Output>, total: nat, start: nat, end: nat): seq<Output>
    requires Splittable(outputs, total) && start <= end <= total
  {
    seq(|outputs|, k requires 0 <= k < |outputs| => Rows(outputs[k].rows[start..end]))
  }

  /** Consecutive slices of the given sizes. */
  function Slices(outputs: seq<Output>, total: nat, sizes: seq<nat>, start: nat): seq<seq<Output>>
    requires Splittable(outputs, total) && start + Sum(sizes) <= total
  {
    if sizes == [] then []
    else [Slice(outputs, total, start, start + sizes[0])] + Slices(outputs, total, sizes[1..], start + sizes[0])
  }

  /** Split batch outputs; refused when an output has not kept the batch dimension. */
  method SplitOutputs(outputs: seq<Output>, sizes: seq<nat>) returns (groups: Option<seq<seq<Output>>>)
    ensures Splittable(outputs, Sum(sizes)) ==> groups == Some(Slices(outputs, Sum(sizes), sizes, 0))
    ensures !Splittable(outputs, Sum(sizes)) ==> groups == None
  {
    var total := Sum(sizes);
    for k := 0 to |outputs|
      invariant forall j | 0 <= j < k :: outputs[j].Rows? && |outputs[j].rows| == total
    {
      if outputs[k].Scalar? || |outputs[k].rows| != total {
        return None;
      }
    }
    var grouped := Group(outputs, total, sizes);
    return Some(grouped);
  }

  method Group(outputs: seq<Output>, total: nat, sizes: seq<nat>) returns (grouped: seq<seq<Output>>)
    requires Splittable(outputs, total) && Sum(sizes) == total
    ensures grouped == Slices(outputs, total, sizes, 0)
  {
    grouped := [];
    var start: nat := 0;
    ghost var all := Slices(outputs, total, sizes, 0);
    assert sizes[0..] == sizes;
    for i := 0 to |sizes|
      invariant start + Sum(sizes[i..]) == total
      invariant grouped + Slices(outputs, total, sizes[i..], start) == all
    {
      var end := start + sizes[i];
      assert sizes[i..][1..] == sizes[i + 1..];
      ghost var rest := Slices(outputs, total, sizes[i + 1..], end);
      assert grouped + ([Slice(outputs, total, start, end)] + rest) == (grouped + [Slice(outputs, total, start, end)]) + rest;
      grouped := grouped + [Slice(outputs, total, start, end)];
      start := end;
    }
  }

  /** Rows of output k of all groups, in order. */
  function Column(groups: seq<seq<Output>>, k: nat): seq<Row>
    requires forall g: seq<Output> | g in groups :: k < |g| && g[k].Rows?
  {
    if groups == [] then [] else groups[0][k].rows + Column(groups[1..], k)
  }

  /** Each group has m outputs with as many rows as its size. */
  ghost predicate Shaped(groups: seq<seq<Output>>, sizes: seq<nat>, m: nat) {
    && |groups| == |sizes|
    && forall i | 0 <= i < |groups| :: |groups[i]| == m && forall k | 0 <= k < m :: groups[i][k].Rows? && |groups[i][k].rows| == sizes[i]
  }

  /** The outputs put together along the batch dimension. */
  function Stack(groups: seq<seq<Output>>, m: nat): seq<Output>
    requires forall g: seq<Output> | g in groups :: |g| == m && forall k | 0 <= k < m :: g[k].Rows?
  {
    seq(m, k requires 0 <= k < m => Rows(Column(groups, k)))
  }

  lemma {:induction false} ColumnSize(groups: seq<seq<Output>>, sizes: seq<nat>, m: nat, k: nat)
    requires Shaped(groups, sizes, m) && k < m
    ensures |Column(groups, k)| == Sum(sizes)
  {
    if groups != [] {
      ColumnSize(groups[1..], sizes[1..], m, k);
    }
  }

  /** The outputs hold some rows and then the groups, column by column. */
  ghost predicate Holds(outputs: seq<Output>, total: nat, start: nat, groups: seq<seq<Output>>, m: nat)
    requires Splittable(outputs, total) && start <= total
    requires forall g: seq<Output> | g in groups :: |g| == m && forall k | 0 <= k < m :: g[k].Rows?
  {
    |outputs| == m && forall k | 0 <= k < m :: outputs[k].rows[start..] == Column(groups, k)
  }

  lemma {:induction false} SlicesOfHeld(outputs: seq<Output>, total: nat, sizes: seq<nat>, start: nat, groups: seq<seq<Output>>, m: nat)
    requires Splittable(outputs, total) && start + Sum(sizes) == total && Shaped(groups, sizes, m)
    requires Holds(outputs, total, start, groups, m)
    ensures Slices(outputs, total, sizes, start) == groups
  {
    if sizes != [] {
      var end := start + sizes[0];
      forall k | 0 <= k < m ensures outputs[k].rows[start..end] == groups[0][k].rows && outputs[k].rows[end..] == Column(groups[1..], k) {
        var rest := outputs[k].rows[start..];
        assert rest == groups[0][k].rows + Column(groups[1..], k);
        assert outputs[k].rows[start..end] == rest[..sizes[0]];
        assert outputs[k].rows[end..] == rest[sizes[0]..];
      }
      assert Slice(outputs, total, start, end) == groups[0];
      SlicesOfHeld(outputs, total, sizes[1..], end, groups[1..], m);
      assert groups == [groups[0]] + groups[1..];
    }
  }

  /** Splitting inverts stacking, for every list of sizes. */
  lemma {:induction false} SplitInvertsStack(groups: seq<seq<Output>>, sizes: seq<nat>, m: nat)
    requires Shaped(groups, sizes, m)
    ensures Splittable(Stack(groups, m), Sum(sizes))
    ensures Slices(Stack(groups, m), Sum(sizes), sizes, 0) == groups
  {
    forall k | 0 <= k < m ensures |Column(groups, k)| == Sum(sizes) {
      ColumnSize(groups, sizes, m, k);
    }
    SlicesOfHeld(Stack(groups, m), Sum(sizes), sizes, 0, groups, m);
  }

  // ----- executors that work row by row

  function MapRows(f: Row -> Row, xs: seq<Row>): (ys: seq<Row>)
    ensures |ys| == |xs|
  {
    seq(|xs|, i requires 0 <= i < |xs| => f(xs[i]))
  }

  type RowMap = (nat, Row) -> Row

  /** Output k applies its row map to every row. */
  function Applied(f: RowMap, m: nat, xs: seq<Row>): seq<Output> {
    seq(m, k requires 0 <= k < m => Rows(MapRows(x => f(k, x), xs)))
  }

  /** The run succeeds and every output keeps the batch dimension. */
  predicate Splits(exec: Executor, xs: seq<Row>) {
    exec(xs).Ran? && Splittable(exec(xs).outputs, |xs|)
  }

  /** Outputs that keep the batch dimension are computed row by row. */
  ghost predicate RowByRow(exec: Executor, f: RowMap, m: nat) {
    forall xs | Splits(exec, xs) :: exec(xs).outputs == Applied(f, m, xs)
  }

  ghost predicate KeepsRows(exec: Executor) {
    forall xs | exec(xs).Ran? :: Splits(exec, xs)
  }

  /** The executor of a row map that never raises. */
  function Total(f: RowMap, m: nat): Executor {
    xs => Ran(Applied(f, m, xs))
  }

  function Inputs(jobs: seq<Job>): seq<seq<Row>> {
    seq(|jobs|, i requires 0 <= i < |jobs| => jobs[i].input)
  }

  function Sizes(jobs: seq<Job>): seq<nat> {
    seq(|jobs|, i requires 0 <= i < |jobs| => |jobs[i].input|)
  }

  function Alone(f: RowMap, m: nat, jobs: seq<Job>): seq<seq<Output>> {
    seq(|jobs|, i requires 0 <= i < |jobs| => Applied(f, m, jobs[i].input))
  }

  lemma {:induction false} ColumnOfAlone(f: RowMap, m: nat, jobs: seq<Job>, k: nat)
    requires k < m
    ensures Column(Alone(f, m, jobs), k) == MapRows(x => f(k, x), Concat(Inputs(jobs)))
  {
    if jobs != [] {
      ColumnOfAlone(f, m, jobs[1..], k);
      assert Alone(f, m, jobs)[1..] == Alone(f, m, jobs[1..]);
      assert Inputs(jobs)[1..] == Inputs(jobs[1..]);
    }
  }

  lemma {:induction false} ConcatSize(jobs: seq<Job>)
    ensures |Concat(Inputs(jobs))| == Sum(Sizes(jobs))
  {
    if jobs != [] {
      ConcatSize(jobs[1..]);
      assert Inputs(jobs)[1..] == Inputs(jobs[1..]) && Sizes(jobs)[1..] == Sizes(jobs[1..]);
    }
  }

  /** Splitting the outputs of the combined run gives each job what it would get alone. */
  lemma {:induction false} BatchIsAlone(f: RowMap, m: nat, jobs: seq<Job>)
    ensures Splittable(Applied(f, m, Concat(Inputs(jobs))), Sum(Sizes(jobs)))
    ensures Slices(Applied(f, m, Concat(Inputs(jobs))), Sum(Sizes(jobs)), Sizes(jobs), 0) == Alone(f, m, jobs)
  {
    var groups := Alone(f, m, jobs);
    forall k | 0 <= k < m ensures Rows(Column(groups, k)) == Applied(f, m, Concat(Inputs(jobs)))[k] {
      ColumnOfAlone(f, m, jobs, k);
    }
    assert Stack(groups, m) == Applied(f, m, Concat(Inputs(jobs)));
    SplitInvertsStack(groups, Sizes(jobs), m);
  }

  // ----- dispatching

  type Futures = map<nat, Future>

  /** What running a job alone makes of its future. */
  function Result(exec: Executor, job: Job): Future {
    match exec(job.input)
    case Ran(outputs) => Done(outputs)
    case Raised(error) => Failed(error)
  }

  /** Run one job, unless its future is settled; cancellations may arrive while it runs. */
  method ExecuteOne(exec: Executor, job: Job, futures: Futures, cancelled: set<nat>) returns (futures': Futures)
    requires job.id in futures
    ensures futures' == futures[job.id := Settle(exec, job, futures[job.id], job.id in cancelled)]
  {
    if futures[job.id] != Pending {
      assert futures[job.id := futures[job.id]] == futures;
      return futures;
    }
    if job.id in cancelled {
      return futures[job.id := Cancelled];
    }
    return futures[job.id := Result(exec, job)];
  }

  /** A future changes only while it is pending; a cancellation that arrives first wins. */
  function Settle(exec: Executor, job: Job, before: Future, cancelled: bool): Future {
    if before != Pending then before else if cancelled then Cancelled else Result(exec, job)
  }

  /** The futures after the jobs have been run one by one. */
  function OneByOne(exec: Executor, jobs: seq<Job>, futures: Futures, cancelled: set<nat>): (r: Futures)
    requires forall j | j in jobs :: j.id in futures
    ensures r.Keys == futures.Keys
  {
    if jobs == [] then futures
    else
      var job := jobs[|jobs| - 1];
      var before := OneByOne(exec, jobs[..|jobs| - 1], futures, cancelled);
      before[job.id := Settle(exec, job, before[job.id], job.id in cancelled)]
  }

  /** The jobs that were not cancelled before the dispatch. */
  function Active(jobs: seq<Job>, futures: Futures): (r: seq<Job>)
    requires forall j | j in jobs :: j.id in futures
    ensures forall j :: j in r <==> j in jobs && futures[j.id] != Cancelled
  {
    if jobs == [] then []
    else
      var job := jobs[|jobs| - 1];
      assert jobs == jobs[..|jobs| - 1] + [job];
      var r := Active(jobs[..|jobs| - 1], futures);
      if futures[job.id] == Cancelled then r else r + [job]
  }

  ghost predicate DistinctJobs(jobs: seq<Job>) {
    forall i, j | 0 <= i < j < |jobs| :: jobs[i].id != jobs[j].id
  }

  /** Running one by one settles each job by itself. */
  lemma {:induction false} OneByOneAt(exec: Executor, jobs: seq<Job>, futures: Futures, cancelled: set<nat>, id: nat)
    requires (forall j | j in jobs :: j.id in futures) && DistinctJobs(jobs) && id in futures
    ensures forall i | 0 <= i < |jobs| && jobs[i].id == id ::
              OneByOne(exec, jobs, futures, cancelled)[id] == Settle(exec, jobs[i], futures[id], id in cancelled)
    ensures (forall j | j in jobs :: j.id != id) ==> OneByOne(exec, jobs, futures, cancelled)[id] == futures[id]
  {
    if jobs != [] {
      var init, job := jobs[..|jobs| - 1], jobs[|jobs| - 1];
      assert jobs == init + [job];
      OneByOneAt(exec, init, futures, cancelled, id);
      OneByOneAt(exec, init, futures, cancelled, job.id);
      assert forall j | j in init :: j.id != job.id;
    }
  }

  lemma {:induction false} ActiveDistinct(jobs: seq<Job>, futures: Futures)
    requires (forall j | j in jobs :: j.id in futures) && DistinctJobs(jobs)
    ensures DistinctJobs(Active(jobs, futures))
  {
    if jobs != [] {
      var init, job := jobs[..|jobs| - 1], jobs[|jobs| - 1];
      assert jobs == init + [job];
      ActiveDistinct(init, futures);
      assert forall j | j in init :: j.id != job.id;
    }
  }

  /** Leaving the cancelled jobs out makes no difference. */
  lemma {:induction false} ActiveSuffices(exec: Executor, jobs: seq<Job>, futures: Futures, cancelled: set<nat>)
    requires (forall j | j in jobs :: j.id in futures) && DistinctJobs(jobs)
    ensures OneByOne(exec, Active(jobs, futures), futures, cancelled) == OneByOne(exec, jobs, futures, cancelled)
  {
    var active := Active(jobs, futures);
    ActiveDistinct(jobs, futures);
    forall id | id in futures ensures OneByOne(exec, active, futures, cancelled)[id] == OneByOne(exec, jobs, futures, cancelled)[id] {
      ActiveSufficesAt(exec, jobs, futures, cancelled, id);
    }
  }

  lemma {:induction false} ActiveSufficesAt(exec: Executor, jobs: seq<Job>, futures: Futures, cancelled: set<nat>, id: nat)
    requires (forall j | j in jobs :: j.id in futures) && DistinctJobs(jobs) && DistinctJobs(Active(jobs, futures)) && id in futures
    ensures OneByOne(exec, Active(jobs, futures), futures, cancelled)[id] == OneByOne(exec, jobs, futures, cancelled)[id]
  {
    var active := Active(jobs, futures);
    OneByOneAt(exec, active, futures, cancelled, id);
    OneByOneAt(exec, jobs, futures, cancelled, id);
    if job :| job in jobs && job.id == id {
      var i :| 0 <= i < |jobs| && jobs[i] == job;
      if futures[id] != Cancelled {
        var k :| 0 <= k < |active| && active[k] == job;
      }
    }
  }

  /** Run the jobs one by one, as the fallback does. */
  method Fallback(exec: Executor, jobs: seq<Job>, futures: Futures, cancelled: set<nat>) returns (futures': Futures)
    requires forall j | j in jobs :: j.id in futures
    ensures futures' == OneByOne(exec, jobs, futures, cancelled)
  {
    futures' := futures;
    for i := 0 to |jobs|
      invariant futures' == OneByOne(exec, jobs[..i], futures, cancelled)
    {
      assert jobs[i] in jobs && jobs[..i + 1][..i] == jobs[..i];
      futures' := ExecuteOne(exec, jobs[i], futures', cancelled);
    }
    assert jobs[..|jobs|] == jobs;
  }

  /** Hand the split outputs to the jobs that are still waiting. */
  method Deliver(ghost exec: Executor, jobs: seq<Job>, groups: seq<seq<Output>>, futures: Futures, cancelled: set<nat>) returns (futures': Futures)
    requires (forall j | j in jobs :: j.id in futures) && |groups| == |jobs|
    requires forall i | 0 <= i < |jobs| :: Result(exec, jobs[i]) == Done(groups[i])
    ensures futures' == OneByOne(exec, jobs, futures, cancelled)
  {
    futures' := futures;
    for i := 0 to |jobs|
      invariant futures' == OneByOne(exec, jobs[..i], futures, cancelled)
    {
      var id := jobs[i].id;
      assert jobs[i] in jobs && jobs[..i + 1][..i] == jobs[..i];
      assert futures'[id := futures'[id]] == futures';
      if futures'[id] == Pending {
        futures' := futures'[id := if id in cancelled then Cancelled else Done(groups[i])];
      }
    }
    assert jobs[..|jobs|] == jobs;
  }

  /** The batch runs combined: more than one job is active and their joint run can be split. */
  predicate Combines(exec: Executor, batch: seq<Job>, futures: Futures)
    requires forall j | j in batch :: j.id in futures
  {
    |Active(batch, futures)| > 1 && Splits(exec, Concat(Inputs(Active(batch, futures))))
  }

  /** Dispatch a batch of an executor that works row by row.  A batch that runs combined gives
      each job the rows of the row map; otherwise each job gets what running it alone gives. */
  method DispatchBatch(exec: Executor, batch: seq<Job>, futures: Futures, cancelled: set<nat>, ghost f: RowMap, ghost m: nat)
    returns (futures': Futures)
    requires (forall j | j in batch :: j.id in futures) && DistinctJobs(batch)
    requires RowByRow(exec, f, m)
    ensures futures' == OneByOne(if Combines(exec, batch, futures) then Total(f, m) else exec, batch, futures, cancelled)
    ensures futures' == OneByOne(exec, batch, futures, cancelled)
            <==> (Combines(exec, batch, futures) ==> AllRunAlone(exec, batch, futures, cancelled))
  {
    var active := Active(batch, futures);
    ghost var each := if Combines(exec, batch, futures) then Total(f, m) else exec;
    futures' := RunActive(exec, active, futures, cancelled, f, m);
    ActiveSuffices(each, batch, futures, cancelled);
    BatchingIsExact(exec, f, m, batch, futures, cancelled);
  }

  method RunActive(exec: Executor, active: seq<Job>, futures: Futures, cancelled: set<nat>, ghost f: RowMap, ghost m: nat)
    returns (futures': Futures)
    requires (forall j | j in active :: j.id in futures) && RowByRow(exec, f, m)
    ensures futures' == OneByOne(if |active| > 1 && Splits(exec, Concat(Inputs(active))) then Total(f, m) else exec, active, futures, cancelled)
  {
    if |active| <= 1 {
      futures' := Fallback(exec, active, futures, cancelled);
      return;
    }
    var combined := exec(Concat(Inputs(active)));
    if combined.Raised? {
      futures' := Fallback(exec, active, futures, cancelled);
      return;
    }
    BatchIsAlone(f, m, active);
    ConcatSize(active);
    var groups := SplitOutputs(combined.outputs, Sizes(active));
    if groups == None {
      futures' := Fallback(exec, active, futures, cancelled);
      return;
    }
    futures' := Deliver(Total(f, m), active, groups.value, futures, cancelled);
  }

  /** Every job that is waiting for its result runs alone, with outputs of its own rows. */
  ghost predicate AllRunAlone(exec: Executor, batch: seq<Job>, futures: Futures, cancelled: set<nat>)
    requires forall j | j in batch :: j.id in futures
  {
    forall j | j in batch :: RunsAlone(exec, j, futures, cancelled)
  }

  predicate RunsAlone(exec: Executor, job: Job, futures: Futures, cancelled: set<nat>)
    requires job.id in futures
  {
    futures[job.id] == Pending && job.id !in cancelled ==> Splits(exec, job.input)
  }

  /** The row map and the executor settle a batch alike exactly when every waiting job runs alone. */
  lemma {:induction false} BatchingIsExact(exec: Executor, f: RowMap, m: nat, batch: seq<Job>, futures: Futures, cancelled: set<nat>)
    requires (forall j | j in batch :: j.id in futures) && DistinctJobs(batch) && RowByRow(exec, f, m)
    ensures OneByOne(Total(f, m), batch, futures, cancelled) == OneByOne(exec, batch, futures, cancelled)
            <==> AllRunAlone(exec, batch, futures, cancelled)
  {
    var (all, each) := (OneByOne(Total(f, m), batch, futures, cancelled), OneByOne(exec, batch, futures, cancelled));
    forall i | 0 <= i < |batch| ensures all[batch[i].id] == each[batch[i].id] <==> RunsAlone(exec, batch[i], futures, cancelled) {
      OneByOneAt(Total(f, m), batch, futures, cancelled, batch[i].id);
      OneByOneAt(exec, batch, futures, cancelled, batch[i].id);
      SettlesAlike(exec, f, m, batch[i], futures[batch[i].id], batch[i].id in cancelled);
    }
    forall id | id in futures && (forall j | j in batch :: j.id != id) ensures all[id] == each[id] {
      OneByOneAt(Total(f, m), batch, futures, cancelled, id);
      OneByOneAt(exec, batch, futures, cancelled, id);
    }
  }

  lemma {:induction false} SettlesAlike(exec: Executor, f: RowMap, m: nat, job: Job, before: Future, cancelled: bool)
    requires RowByRow(exec, f, m)
    ensures Settle(Total(f, m), job, before, cancelled) == Settle(exec, job, before, cancelled)
            <==> (before == Pending && !cancelled ==> Splits(exec, job.input))
  {
    assert Splittable(Applied(f, m, job.input), |job.input|);
  }

  /** A session of a fixed batch size. */
  function FixedBatch(size: nat, f: RowMap, m: nat): Executor {
    xs => if |xs| == size then Ran(Applied(f, m, xs)) else Raised("batch size")
  }

  lemma {:induction false} BothActive(a: Job, b: Job, futures: Futures)
    requires a.id in futures && b.id in futures && futures[a.id] == futures[b.id] == Pending
    ensures Active([a, b], futures) == [a, b]
  {
    assert [a, b][..1] == [a] && [a][..0] == [];
    assert Active([a], futures) == [a];
  }

  lemma {:induction false} ConcatTwo(x: Row, y: Row)
    ensures Concat([[x], [y]]) == [x, y]
  {
    assert [[x], [y]][1..] == [[y]] && [[y]][1..] == [];
    assert Concat([[y]]) == [y] + Concat([]);
  }

  /** A session for two rows: the batch of two requests runs, though each alone would fail. */
  lemma {:induction false} FixedBatchDiffers(f: RowMap, m: nat, x: Row, y: Row, batch: seq<Job>, futures: Futures)
    requires batch == [Job(0, [x]), Job(1, [y])] && futures == map[0 := Pending, 1 := Pending]
    ensures RowByRow(FixedBatch(2, f, m), f, m) && Combines(FixedBatch(2, f, m), batch, futures)
    ensures OneByOne(FixedBatch(2, f, m), batch, futures, {})[0] == Failed("batch size")
    ensures OneByOne(Total(f, m), batch, futures, {})[0] == Done(Applied(f, m, [x]))
  {
    FixedBatchCombines(f, m, x, y, batch, futures);
    FirstAlone(FixedBatch(2, f, m), batch, futures);
    FirstAlone(Total(f, m), batch, futures);
  }

  lemma {:induction false} FixedBatchCombines(f: RowMap, m: nat, x: Row, y: Row, batch: seq<Job>, futures: Futures)
    requires batch == [Job(0, [x]), Job(1, [y])] && futures == map[0 := Pending, 1 := Pending]
    ensures RowByRow(FixedBatch(2, f, m), f, m) && Combines(FixedBatch(2, f, m), batch, futures)
  {
    BothActive(batch[0], batch[1], futures);
    ConcatTwo(x, y);
    assert Inputs(batch) == [[x], [y]];
  }

  lemma {:induction false} FirstAlone(exec: Executor, batch: seq<Job>, futures: Futures)
    requires batch != [] && (forall j | j in batch :: j.id in futures) && DistinctJobs(batch) && futures[batch[0].id] == Pending
    ensures OneByOne(exec, batch, futures, {})[batch[0].id] == Result(exec, batch[0])
  {
    OneByOneAt(exec, batch, futures, {}, batch[0].id);
  }

  // ----- many inputs of one caller

  function Jobs(inputs: seq<seq<Row>>): seq<Job> {
    seq(|inputs|, i requires 0 <= i < |inputs| => Job(i, inputs[i]))
  }

  /** Some input fails, and those before it do not. */
  ghost predicate FirstError(exec: Executor, inputs: seq<seq<Row>>, error: string) {
    exists i :: 0 <= i < |inputs| && exec(inputs[i]) == Raised(error) && forall j | 0 <= j < i :: exec(inputs[j]).Ran?
  }

  /** What running the inputs one by one gives: all outputs stacked, or the first error. */
  ghost predicate RunsAll(exec: Executor, f: RowMap, m: nat, inputs: seq<seq<Row>>, r: Outcome) {
    if forall i | 0 <= i < |inputs| :: exec(inputs[i]).Ran? then r == Ran(Applied(f, m, Concat(inputs)))
    else r.Raised? && FirstError(exec, inputs, r.error)
  }

  /** All inputs are tried in one run, and it succeeds. */
  predicate RunsAtOnce(exec: Executor, inputs: seq<seq<Row>>, mixed: bool, fixedBatch: Option<nat>) {
    |inputs| > 1 && !mixed && !(fixedBatch.Some? && fixedBatch.value < |inputs|) && exec(Concat(inputs)).Ran?
  }

  lemma {:induction false} StackOfAlone(f: RowMap, m: nat, inputs: seq<seq<Row>>)
    ensures Stack(Alone(f, m, Jobs(inputs)), m) == Applied(f, m, Concat(inputs))
  {
    var groups := Alone(f, m, Jobs(inputs));
    assert Inputs(Jobs(inputs)) == inputs;
    forall k | 0 <= k < m ensures Rows(Column(groups, k)) == Applied(f, m, Concat(inputs))[k] {
      ColumnOfAlone(f, m, Jobs(inputs), k);
    }
  }

  /** Run the inputs one by one and stack the outputs; the first failure ends it. */
  method RunEach(exec: Executor, inputs: seq<seq<Row>>, ghost f: RowMap, ghost m: nat) returns (r: Outcome)
    requires RowByRow(exec, f, m) && KeepsRows(exec) && inputs != []
    ensures RunsAll(exec, f, m, inputs, r)
  {
    var groups: seq<seq<Output>> := [];
    for i := 0 to |inputs|
      invariant forall j | 0 <= j < i :: exec(inputs[j]).Ran?
      invariant groups == Alone(f, m, Jobs(inputs))[..i]
    {
      var one := exec(inputs[i]);
      if one.Raised? {
        assert FirstError(exec, inputs, one.error);
        return one;
      }
      groups := groups + [one.outputs];
    }
    StackOfAlone(f, m, inputs);
    assert groups == Alone(f, m, Jobs(inputs));
    r := Ran(Stack(groups, |groups[0]|));
  }

  /** Batched when shapes and batch size allow it and the combined run succeeds, one by one
      otherwise.  The way taken shows exactly when a combined run hides that an input alone fails. */
  method RunModelBundleBatch(exec: Executor, inputs: seq<seq<Row>>, mixed: bool, fixedBatch: Option<nat>, ghost f: RowMap, ghost m: nat)
    returns (r: Outcome)
    requires RowByRow(exec, f, m) && KeepsRows(exec)
    ensures inputs == [] ==> r == Ran([])
    ensures RunsAtOnce(exec, inputs, mixed, fixedBatch) ==> r == Ran(Applied(f, m, Concat(inputs)))
    ensures inputs != [] ==>
      (RunsAll(exec, f, m, inputs, r)
       <==> (RunsAtOnce(exec, inputs, mixed, fixedBatch) ==> forall i | 0 <= i < |inputs| :: exec(inputs[i]).Ran?))
  {
    if inputs == [] {
      return Ran([]);
    }
    if |inputs| == 1 {
      assert Concat(inputs) == inputs[0];
      r := exec(inputs[0]);
      assert r.Raised? ==> exec(inputs[0]) == Raised(r.error);
      return;
    }
    if mixed || (fixedBatch.Some? && fixedBatch.value < |inputs|) {
      r := RunEach(exec, inputs, f, m);
      return;
    }
    r := exec(Concat(inputs));
    if r.Raised? {
      r := RunEach(exec, inputs, f, m);
    }
  }

  /** Two one-row inputs of a session for two rows run at once, though each alone fails. */
  lemma {:induction false} FixedBatchRunsAtOnce(f: RowMap, m: nat, x: Row, y: Row)
    ensures var (exec, inputs) := (FixedBatch(2, f, m), [[x], [y]]);
      && RowByRow(exec, f, m) && KeepsRows(exec) && RunsAtOnce(exec, inputs, false, Some(2))
      && forall i | 0 <= i < |inputs| :: exec(inputs[i]).Raised?
  {
    ConcatTwo(x, y);
  }
}

/**
 `runConcurrent` (benchkit/runner_concurrent.go) as a step system: the worker goroutines, the
 feeding goroutine, the error channel, cancellation and the waiting caller.
 */
module WorkerPool {
  import opened Basics

  /**
   A worker waits on the `work` channel, runs an operation, reports its error through `errOnce`,
   cancels the others, and exits.
   */
  datatype Worker = Idle | Running(idx: int) | Failing(idx: int) | Cancelling | Exited

  datatype Caller = Waiting | Returned(err: Option<int>)

  /**
   `next` and `closed` belong to the feeder; an error is named by the index whose operation
   returned it. `started`, `succeeded`, `failed` and `reports` record what happened, all but
   `succeeded` in order.
   */
  datatype State = State(
    total: int,
    workers: seq<Worker>,
    next: int,
    closed: bool,
    once: bool,
    errCh: Option<int>,
    done: bool,
    parentCanceled: bool,
    caller: Caller,
    started: seq<int>,
    succeeded: set<int>,
    failed: seq<int>,
    reports: seq<int>)

  /** The number of goroutines after both clamps; `range` over a negative number runs no iteration. */
  function Workers(total: int, concurrency: int): (n: nat)
    ensures n == var wanted, work := if concurrency < 1 then 1 else concurrency, if total < 0 then 0 else total;
                 if wanted < work then wanted else work
    ensures n == 0 <==> total <= 0
    ensures n <= 1 <==> total <= 1 || concurrency <= 1
  {
    var atLeastOne := if concurrency <= 0 then 1 else concurrency;
    var atMostTotal := if atLeastOne > total then total else atLeastOne;
    if atMostTotal < 0 then 0 else atMostTotal
  }

  function Indices(total: int): nat {
    if total < 0 then 0 else total
  }

  function Start(total: int, concurrency: int): State {
    State(total, seq(Workers(total, concurrency), _ => Idle), 0, false, false, None, false, false,
          Waiting, [], {}, [], [])
  }

  datatype Step =
    | Send(w: int)
    | CloseDone
    | CloseCanceled
    | Finish(w: int, ok: bool)
    | Report(w: int)
    | Cancel(w: int)
    | Leave(w: int)
    | ParentCancel
    | Return

  predicate At(s: State, w: int) {
    0 <= w < |s.workers|
  }

  predicate AllExited(s: State) {
    forall w :: 0 <= w < |s.workers| ==> s.workers[w].Exited?
  }

  /** A send on `errCh` needs room in its one-slot buffer; a send on `work` needs a waiting worker. */
  predicate Enabled(s: State, step: Step) {
    match step
    case Send(w) => At(s, w) && s.workers[w].Idle? && !s.closed && s.next < Indices(s.total)
    case CloseDone => !s.closed && s.next >= Indices(s.total)
    case CloseCanceled => !s.closed && s.next < Indices(s.total) && s.done
    case Finish(w, ok) => At(s, w) && s.workers[w].Running?
    case Report(w) => At(s, w) && s.workers[w].Failing? && (s.once || s.errCh.None?)
    case Cancel(w) => At(s, w) && s.workers[w].Cancelling?
    case Leave(w) => At(s, w) && s.workers[w].Idle? && s.closed
    case ParentCancel => s.caller.Waiting? && !s.parentCanceled
    case Return => s.caller.Waiting? && AllExited(s)
  }

  function Next(s: State, step: Step): State
    requires Enabled(s, step)
  {
    match step
    case Send(w) =>
      s.(workers := s.workers[w := Running(s.next)], next := s.next + 1, started := s.started + [s.next])
    case CloseDone => s.(closed := true)
    case CloseCanceled => s.(closed := true)
    case Finish(w, ok) =>
      var idx := s.workers[w].idx;
      if ok then s.(workers := s.workers[w := Idle], succeeded := s.succeeded + {idx})
      else s.(workers := s.workers[w := Failing(idx)], failed := s.failed + [idx])
    case Report(w) =>
      var idx := s.workers[w].idx;
      var reported := s.(workers := s.workers[w := Cancelling], reports := s.reports + [idx]);
      if s.once then reported else reported.(once := true, errCh := Some(idx))
    case Cancel(w) => s.(workers := s.workers[w := Exited], done := true)
    case Leave(w) => s.(workers := s.workers[w := Exited])
    case ParentCancel => s.(parentCanceled := true, done := true)
    case Return => s.(caller := Returned(s.errCh), errCh := None, done := true)
  }

  predicate Allowed(s: State, steps: seq<Step>)
    decreases |steps|
  {
    steps == [] || (Enabled(s, steps[0]) && Allowed(Next(s, steps[0]), steps[1..]))
  }

  function Run(s: State, steps: seq<Step>): State
    requires Allowed(s, steps)
    decreases |steps|
  {
    if steps == [] then s else Run(Next(s, steps[0]), steps[1..])
  }

  // ---- What every step keeps ----

  predicate InFlight(workers: seq<Worker>, i: int) {
    exists w :: 0 <= w < |workers| && workers[w] == Running(i)
  }

  /** Indices go out in order, each once. */
  ghost predicate Ordered(s: State) {
    && 0 <= s.next <= Indices(s.total)
    && |s.started| == s.next
    && forall k :: 0 <= k < s.next ==> s.started[k] == k
  }

  /** Each index sent is in flight with one worker, or succeeded, or failed, and only one of these. */
  ghost predicate Accounted(workers: seq<Worker>, next: int, succeeded: set<int>, failed: seq<int>) {
    && (forall i :: i in failed ==> i !in succeeded)
    && (forall i :: i in succeeded || i in failed ==> 0 <= i < next)
    && (forall w :: 0 <= w < |workers| && workers[w].Running? ==>
          0 <= workers[w].idx < next && workers[w].idx !in succeeded && workers[w].idx !in failed)
    && (forall v, w :: 0 <= v < w < |workers| && workers[v].Running? && workers[w].Running? ==>
          workers[v].idx != workers[w].idx)
    && (forall i :: 0 <= i < next ==> i in succeeded || i in failed || InFlight(workers, i))
  }

  /** A failure is on its way to `errCh` or has reached it; nothing else has. */
  ghost predicate Reporting(workers: seq<Worker>, failed: seq<int>, reports: seq<int>) {
    && (forall k :: 0 <= k < |reports| ==> reports[k] in failed)
    && (forall w :: 0 <= w < |workers| && workers[w].Failing? ==> workers[w].idx in failed)
    && (forall i :: i in failed ==> i in reports || Failing(i) in workers)
  }

  /** `errCh`, and then the caller's result, is the first report. */
  ghost predicate FirstReport(s: State) {
    var first := if s.reports == [] then None else Some(s.reports[0]);
    && (s.once <==> s.reports != [])
    && (s.caller.Waiting? ==> s.errCh == first)
    && (s.caller.Returned? ==> s.errCh == None && s.caller.err == first)
  }

  /** Nobody stops early without a reason. */
  ghost predicate Stopping(s: State) {
    && (forall w :: 0 <= w < |s.workers| && s.workers[w].Exited? ==> s.closed || s.done)
    && (forall w :: 0 <= w < |s.workers| && s.workers[w].Cancelling? ==> s.once)
    && (forall w :: 0 <= w < |s.workers| && s.workers[w].Exited? ==> s.closed || s.once)
    && (s.caller.Waiting? && s.done ==> s.parentCanceled || s.once)
    && (s.parentCanceled ==> s.done)
    && (s.caller.Waiting? && s.closed ==> s.next == Indices(s.total) || s.parentCanceled || s.once)
    && (s.caller.Returned? ==> s.done && AllExited(s))
    && (s.caller.Returned? ==> s.next == Indices(s.total) || s.parentCanceled || s.once)
  }

  ghost predicate Inv(s: State, concurrency: int) {
    && |s.workers| == Workers(s.total, concurrency)
    && Ordered(s) && Accounted(s.workers, s.next, s.succeeded, s.failed)
    && Reporting(s.workers, s.failed, s.reports) && FirstReport(s) && Stopping(s)
  }

  lemma {:induction false} OrderedStep(s: State, step: Step)
    requires Ordered(s) && Enabled(s, step)
    ensures Ordered(Next(s, step))
  {
  }

  lemma {:induction false} StillInFlight(workers: seq<Worker>, w: int, now: Worker, i: int)
    requires 0 <= w < |workers| && InFlight(workers, i) && workers[w] != Running(i)
    ensures InFlight(workers[w := now], i)
  {
    var v :| 0 <= v < |workers| && workers[v] == Running(i);
    assert workers[w := now][v] == Running(i);
  }

  lemma {:induction false} SendKeepsAccount(workers: seq<Worker>, next: int, ok: set<int>, failed: seq<int>, w: int)
    requires Accounted(workers, next, ok, failed) && next >= 0
    requires 0 <= w < |workers| && workers[w].Idle?
    ensures Accounted(workers[w := Running(next)], next + 1, ok, failed)
  {
    var after := workers[w := Running(next)];
    forall i | 0 <= i < next + 1 ensures i in ok || i in failed || InFlight(after, i) {
      if i == next {
        assert after[w] == Running(i);
      } else if InFlight(workers, i) {
        StillInFlight(workers, w, Running(next), i);
      }
    }
  }

  /** A worker that stops running hands its index to one of the two outcomes. */
  lemma {:induction false} FinishKeepsAccount(workers: seq<Worker>, next: int, ok: set<int>, failed: seq<int>, w: int,
                                              now: Worker, okNow: set<int>, failedNow: seq<int>)
    requires Accounted(workers, next, ok, failed)
    requires 0 <= w < |workers| && workers[w].Running? && !now.Running?
    requires (okNow == ok + {workers[w].idx} && failedNow == failed)
          || (okNow == ok && failedNow == failed + [workers[w].idx])
    ensures Accounted(workers[w := now], next, okNow, failedNow)
  {
    forall i | 0 <= i < next ensures i in okNow || i in failedNow || InFlight(workers[w := now], i) {
      if i != workers[w].idx && InFlight(workers, i) {
        StillInFlight(workers, w, now, i);
      }
    }
  }

  lemma {:induction false} OthersKeepAccount(workers: seq<Worker>, next: int, ok: set<int>, failed: seq<int>, w: int,
                                             now: Worker)
    requires Accounted(workers, next, ok, failed)
    requires 0 <= w < |workers| && !workers[w].Running? && !now.Running?
    ensures Accounted(workers[w := now], next, ok, failed)
  {
    forall i | 0 <= i < next ensures i in ok || i in failed || InFlight(workers[w := now], i) {
      if InFlight(workers, i) {
        StillInFlight(workers, w, now, i);
      }
    }
  }

  lemma {:induction false} AccountedStep(s: State, step: Step)
    requires Accounted(s.workers, s.next, s.succeeded, s.failed) && s.next >= 0 && Enabled(s, step)
    ensures var t := Next(s, step); Accounted(t.workers, t.next, t.succeeded, t.failed)
  {
    var t := Next(s, step);
    match step {
      case Send(w) => SendKeepsAccount(s.workers, s.next, s.succeeded, s.failed, w);
      case Finish(w, ok) =>
        FinishKeepsAccount(s.workers, s.next, s.succeeded, s.failed, w, t.workers[w], t.succeeded, t.failed);
      case Report(w) => OthersKeepAccount(s.workers, s.next, s.succeeded, s.failed, w, Cancelling);
      case Cancel(w) => OthersKeepAccount(s.workers, s.next, s.succeeded, s.failed, w, Exited);
      case Leave(w) => OthersKeepAccount(s.workers, s.next, s.succeeded, s.failed, w, Exited);
      case _ =>
    }
  }

  lemma {:induction false} StillFailing(workers: seq<Worker>, w: int, now: Worker, i: int)
    requires 0 <= w < |workers| && Failing(i) in workers && workers[w] != Failing(i)
    ensures Failing(i) in workers[w := now]
  {
    var v :| 0 <= v < |workers| && workers[v] == Failing(i);
    assert workers[w := now][v] == Failing(i);
  }

  lemma {:induction false} ReportKeepsReporting(workers: seq<Worker>, failed: seq<int>, reports: seq<int>, w: int)
    requires Reporting(workers, failed, reports)
    requires 0 <= w < |workers| && workers[w].Failing?
    ensures Reporting(workers[w := Cancelling], failed, reports + [workers[w].idx])
  {
    forall i | i in failed ensures i in reports + [workers[w].idx] || Failing(i) in workers[w := Cancelling] {
      if Failing(i) in workers && workers[w] != Failing(i) {
        StillFailing(workers, w, Cancelling, i);
      }
    }
  }

  lemma {:induction false} OthersKeepReporting(workers: seq<Worker>, failed: seq<int>, reports: seq<int>, w: int,
                                               now: Worker, failedNow: seq<int>)
    requires Reporting(workers, failed, reports)
    requires 0 <= w < |workers| && !workers[w].Failing?
    requires failedNow == if now.Failing? then failed + [now.idx] else failed
    ensures Reporting(workers[w := now], failedNow, reports)
  {
    forall i | i in failedNow ensures i in reports || Failing(i) in workers[w := now] {
      if i in failed {
        if Failing(i) in workers {
          StillFailing(workers, w, now, i);
        }
      } else {
        assert workers[w := now][w] == Failing(i);
      }
    }
  }

  lemma {:induction false} ReportingStep(s: State, step: Step)
    requires Reporting(s.workers, s.failed, s.reports) && Enabled(s, step)
    ensures var t := Next(s, step); Reporting(t.workers, t.failed, t.reports)
  {
    var t := Next(s, step);
    match step {
      case Report(w) => ReportKeepsReporting(s.workers, s.failed, s.reports, w);
      case Send(w) => OthersKeepReporting(s.workers, s.failed, s.reports, w, t.workers[w], s.failed);
      case Finish(w, ok) => OthersKeepReporting(s.workers, s.failed, s.reports, w, t.workers[w], t.failed);
      case Cancel(w) => OthersKeepReporting(s.workers, s.failed, s.reports, w, Exited, s.failed);
      case Leave(w) => OthersKeepReporting(s.workers, s.failed, s.reports, w, Exited, s.failed);
      case _ =>
    }
  }

  lemma {:induction false} FirstReportStep(s: State, step: Step)
    requires FirstReport(s) && Stopping(s) && Enabled(s, step)
    ensures FirstReport(Next(s, step))
  {
  }

  lemma {:induction false} StoppingStep(s: State, step: Step)
    requires Stopping(s) && Enabled(s, step)
    requires (s.total > 0 ==> s.workers != []) && 0 <= s.next <= Indices(s.total)
    ensures Stopping(Next(s, step))
  {
    if step.Return? && s.total > 0 {
      assert s.workers[0].Exited?;
    }
  }

  lemma {:induction false} StepKeepsInv(s: State, step: Step, concurrency: int)
    requires Inv(s, concurrency) && Enabled(s, step)
    ensures Inv(Next(s, step), concurrency) && Next(s, step).total == s.total
  {
    OrderedStep(s, step);
    AccountedStep(s, step);
    ReportingStep(s, step);
    FirstReportStep(s, step);
    StoppingStep(s, step);
  }

  lemma {:induction false} RunKeepsInv(s: State, steps: seq<Step>, concurrency: int)
    requires Inv(s, concurrency) && Allowed(s, steps)
    ensures Inv(Run(s, steps), concurrency) && Run(s, steps).total == s.total
    decreases |steps|
  {
    if steps != [] {
      StepKeepsInv(s, steps[0], concurrency);
      RunKeepsInv(Next(s, steps[0]), steps[1..], concurrency);
    }
  }

  // ---- Termination ----

  function Weight(w: Worker): nat {
    match w
    case Idle => 1
    case Running(_) => 5
    case Failing(_) => 3
    case Cancelling => 2
    case Exited => 0
  }

  function Weights(workers: seq<Worker>): nat {
    if workers == [] then 0 else Weight(workers[0]) + Weights(workers[1..])
  }

  /** How many more steps there can be. */
  function Measure(s: State): int {
    (if s.closed then 0 else 1 + 6 * (Indices(s.total) - s.next)) + Weights(s.workers)
    + (if s.parentCanceled then 0 else 1) + (if s.caller.Waiting? then 1 else 0)
  }

  lemma {:induction false} WeightsUpdate(workers: seq<Worker>, w: int, now: Worker)
    requires 0 <= w < |workers|
    ensures Weights(workers[w := now]) == Weights(workers) - Weight(workers[w]) + Weight(now)
    decreases |workers|
  {
    if w == 0 {
      assert workers[w := now][1..] == workers[1..];
    } else {
      assert workers[w := now][1..] == workers[1..][w - 1 := now];
      WeightsUpdate(workers[1..], w - 1, now);
    }
  }

  lemma {:induction false} StepMeasure(s: State, step: Step)
    requires Ordered(s) && Enabled(s, step)
    ensures Measure(Next(s, step)) < Measure(s)
  {
    match step {
      case Send(w) => WeightsUpdate(s.workers, w, Running(s.next));
      case Finish(w, ok) => WeightsUpdate(s.workers, w, if ok then Idle else Failing(s.workers[w].idx));
      case Report(w) => WeightsUpdate(s.workers, w, Cancelling);
      case Cancel(w) => WeightsUpdate(s.workers, w, Exited);
      case Leave(w) => WeightsUpdate(s.workers, w, Exited);
      case _ =>
    }
  }

  lemma {:induction false} RunMeasure(s: State, steps: seq<Step>, concurrency: int)
    requires Inv(s, concurrency) && Allowed(s, steps)
    ensures |steps| + Measure(Run(s, steps)) <= Measure(s)
    decreases |steps|
  {
    if steps != [] {
      StepMeasure(s, steps[0]);
      StepKeepsInv(s, steps[0], concurrency);
      RunMeasure(Next(s, steps[0]), steps[1..], concurrency);
    }
  }

  lemma {:induction false} IdleWeights(n: nat)
    ensures Weights(seq(n, _ => Idle)) == n
  {
    if n > 0 {
      assert seq(n, _ => Idle)[1..] == seq(n - 1, _ => Idle);
      IdleWeights(n - 1);
    }
  }

  lemma {:induction false} StartInv(total: int, concurrency: int)
    ensures Inv(Start(total, concurrency), concurrency)
    ensures Measure(Start(total, concurrency)) == 6 * Indices(total) + Workers(total, concurrency) + 3
  {
    IdleWeights(Workers(total, concurrency));
  }

  ghost predicate Finished(s: State) {
    s.caller.Returned? && s.closed
  }

  lemma {:induction false} WorkerCanMove(s: State, w: int) returns (step: Step)
    requires At(s, w) && !s.workers[w].Exited? && FirstReport(s) && (s.caller.Returned? ==> AllExited(s))
    requires s.workers[w].Idle? ==> s.closed || s.next < Indices(s.total)
    ensures Enabled(s, step) && !step.ParentCancel?
  {
    match s.workers[w] {
      case Idle => step := if s.closed then Leave(w) else Send(w);
      case Running(_) => step := Finish(w, true);
      case Failing(_) => step := Report(w);
      case Cancelling => step := Cancel(w);
    }
  }

  /**
   No deadlock: until the caller has returned and the feeding goroutine has ended, some step other
   than an outside cancellation is possible. In particular a failing worker never blocks on `errCh`,
   and the feeder never stays behind on `work`.
   */
  lemma {:induction false} NeverStuck(s: State, concurrency: int)
    requires Inv(s, concurrency) && !Finished(s)
    ensures exists step :: Enabled(s, step) && !step.ParentCancel?
  {
    if !s.closed && s.next >= Indices(s.total) {
      assert Enabled(s, CloseDone);
    } else if !s.closed && s.done {
      assert Enabled(s, CloseCanceled);
    } else if AllExited(s) {
      assert s.total > 0 && !s.closed ==> s.workers[0].Exited?;
      assert Enabled(s, Return);
    } else {
      var w :| 0 <= w < |s.workers| && !s.workers[w].Exited?;
      var step := WorkerCanMove(s, w);
    }
  }

  // ---- Whole runs ----

  ghost predicate AllIndices(done: set<int>, total: int) {
    forall i :: i in done <==> 0 <= i < total
  }

  /**
   What the caller gets: an error exactly when some operation failed, and then the one reported
   first; and without a failure or an outside cancellation, every index succeeded.
   */
  ghost predicate RightResult(s: State)
    requires s.caller.Returned?
  {
    && (s.caller.err.Some? <==> s.failed != [])
    && (s.caller.err.Some? ==> s.reports != [] && s.caller.err.value == s.reports[0] && s.reports[0] in s.failed)
    && (forall i :: i in s.started <==> i in s.succeeded || i in s.failed)
    && (s.failed == [] && !s.parentCanceled ==> AllIndices(s.succeeded, s.total))
  }

  lemma {:induction false} ReturnedResult(s: State, concurrency: int)
    requires Inv(s, concurrency) && s.caller.Returned?
    ensures RightResult(s)
  {
    forall i | 0 <= i < s.next ensures i in s.started && (i in s.succeeded || i in s.failed) {
      assert s.started[i] == i;
    }
    if s.failed != [] {
      var i := s.failed[0];
      assert Failing(i) !in s.workers;
    }
  }

  /**
   Every run, under any interleaving of workers, feeder, failures and outside cancellation: it has
   at most 6 * total + workers + 3 steps; indices start in order, each at most once, with never more
   operations in flight than workers; and the result is right when the caller returns. A run that
   cannot go on has returned and left no goroutine behind.
   */
  lemma {:induction false} EveryRunIsRight(total: int, concurrency: int, steps: seq<Step>)
    requires Allowed(Start(total, concurrency), steps)
    ensures var s := Run(Start(total, concurrency), steps);
      && |steps| <= 6 * Indices(total) + Workers(total, concurrency) + 3
      && |s.workers| == Workers(total, concurrency)
      && |s.started| <= Indices(total) && (forall k :: 0 <= k < |s.started| ==> s.started[k] == k)
      && (s.caller.Returned? ==> RightResult(s))
      && ((forall step :: Enabled(s, step) ==> step.ParentCancel?) ==> Finished(s) && AllExited(s))
  {
    StartInv(total, concurrency);
    var start := Start(total, concurrency);
    RunKeepsInv(start, steps, concurrency);
    RunMeasure(start, steps, concurrency);
    var s := Run(start, steps);
    if s.caller.Returned? {
      ReturnedResult(s, concurrency);
    }
    if !Finished(s) {
      NeverStuck(s, concurrency);
    }
  }

  lemma {:induction false} RunStep(s: State, steps: seq<Step>, step: Step)
    requires Enabled(s, step) && Allowed(Next(s, step), steps)
    ensures Allowed(s, [step] + steps) && Run(s, [step] + steps) == Run(Next(s, step), steps)
  {
    assert ([step] + steps)[1..] == steps;
  }

  lemma {:induction false} RunConcat(s: State, a: seq<Step>, b: seq<Step>)
    requires Allowed(s, a) && Allowed(Run(s, a), b)
    ensures Allowed(s, a + b) && Run(s, a + b) == Run(Run(s, a), b)
    decreases |a|
  {
    if a == [] {
      assert a + b == b;
    } else {
      RunConcat(Next(s, a[0]), a[1..], b);
      RunStep(s, a[1..] + b, a[0]);
      assert [a[0]] + (a[1..] + b) == a + b;
    }
  }

  /** From every reachable state the caller can return without another outside cancellation. */
  lemma {:induction false} CanReturn(s: State, concurrency: int) returns (steps: seq<Step>)
    requires Inv(s, concurrency)
    ensures Allowed(s, steps) && Run(s, steps).caller.Returned? && ParentCancel !in steps
    decreases Measure(s)
  {
    if s.caller.Returned? {
      steps := [];
    } else {
      NeverStuck(s, concurrency);
      var step :| Enabled(s, step) && !step.ParentCancel?;
      StepMeasure(s, step);
      StepKeepsInv(s, step, concurrency);
      var rest := CanReturn(Next(s, step), concurrency);
      RunStep(s, rest, step);
      steps := [step] + rest;
    }
  }

  /** The records only grow, and nothing starts once `work` is closed. */
  ghost predicate RecordsGrow(s: State, t: State) {
    s.failed <= t.failed && s.reports <= t.reports && (s.closed ==> t.closed && t.started == s.started)
  }

  lemma {:induction false} StepKeepsRecords(s: State, step: Step)
    requires Enabled(s, step)
    ensures RecordsGrow(s, Next(s, step))
    ensures !step.ParentCancel? ==> Next(s, step).parentCanceled == s.parentCanceled
  {
  }

  lemma {:induction false} RunKeepsRecords(s: State, steps: seq<Step>)
    requires Allowed(s, steps)
    ensures RecordsGrow(s, Run(s, steps))
    ensures ParentCancel !in steps ==> Run(s, steps).parentCanceled == s.parentCanceled
    decreases |steps|
  {
    if steps != [] {
      StepKeepsRecords(s, steps[0]);
      RunKeepsRecords(Next(s, steps[0]), steps[1..]);
    }
  }

  /** The first k workers run the first k operations, and the others wait. */
  ghost predicate FirstRunning(s: State, k: nat) {
    && k <= |s.workers| && !s.closed && s.next == k
    && forall w :: 0 <= w < |s.workers| ==> s.workers[w] == if w < k then Running(w) else Idle
  }

  /** The pool comes to have as many operations in flight as it may. */
  lemma {:induction false} FillsUp(total: int, concurrency: int, k: nat) returns (steps: seq<Step>)
    requires k <= Workers(total, concurrency)
    ensures Allowed(Start(total, concurrency), steps) && FirstRunning(Run(Start(total, concurrency), steps), k)
    ensures Run(Start(total, concurrency), steps).total == total
    ensures |Run(Start(total, concurrency), steps).workers| == Workers(total, concurrency)
  {
    if k == 0 {
      steps := [];
    } else {
      var before := FillsUp(total, concurrency, k - 1);
      var s := Run(Start(total, concurrency), before);
      RunStep(s, [], Send(k - 1));
      assert [Send(k - 1)] + [] == [Send(k - 1)];
      RunConcat(Start(total, concurrency), before, [Send(k - 1)]);
      steps := before + [Send(k - 1)];
    }
  }

  // ---- When no error means that everything ran ----

  ghost predicate ErrorFreeIsComplete(total: int, concurrency: int, steps: seq<Step>)
    requires Allowed(Start(total, concurrency), steps)
  {
    var s := Run(Start(total, concurrency), steps);
    s.caller == Returned(None) ==> AllIndices(s.succeeded, total)
  }

  /** An outside cancellation is not an error: whatever the total, the caller may get none though no index ran. */
  lemma {:induction false} CanceledRunReturnsNoError(total: int, concurrency: int) returns (steps: seq<Step>)
    requires total >= 1
    ensures Allowed(Start(total, concurrency), steps)
    ensures var s := Run(Start(total, concurrency), steps); s.caller == Returned(None) && s.started == []
  {
    var s0 := Start(total, concurrency);
    var s1 := Next(s0, ParentCancel);
    var s2 := Next(s1, CloseCanceled);
    StartInv(total, concurrency);
    StepKeepsInv(s0, ParentCancel, concurrency);
    StepKeepsInv(s1, CloseCanceled, concurrency);
    var rest := CanReturn(s2, concurrency);
    RunKeepsRecords(s2, rest);
    RunKeepsInv(s2, rest, concurrency);
    ReturnedResult(Run(s2, rest), concurrency);
    RunStep(s1, rest, CloseCanceled);
    RunStep(s0, [CloseCanceled] + rest, ParentCancel);
    steps := [ParentCancel] + ([CloseCanceled] + rest);
  }

  /**
   No error means that every index succeeded, in every run, exactly where the caller cannot cancel or
   there is nothing to run.
   */
  lemma {:induction false} NoErrorMeansCompleteExactlyWhen(total: int, concurrency: int, cancellable: bool)
    ensures (forall steps :: Allowed(Start(total, concurrency), steps) && (cancellable || ParentCancel !in steps) ==>
               ErrorFreeIsComplete(total, concurrency, steps))
            <==> !cancellable || total <= 0
  {
    var start := Start(total, concurrency);
    StartInv(total, concurrency);
    if !cancellable || total <= 0 {
      forall steps | Allowed(start, steps) && (cancellable || ParentCancel !in steps)
        ensures ErrorFreeIsComplete(total, concurrency, steps)
      {
        RunKeepsInv(start, steps, concurrency);
        RunKeepsRecords(start, steps);
        if Run(start, steps).caller.Returned? {
          ReturnedResult(Run(start, steps), concurrency);
        }
      }
    } else {
      var steps := CanceledRunReturnsNoError(total, concurrency);
      RunKeepsInv(start, steps, concurrency);
      ReturnedResult(Run(start, steps), concurrency);
      assert 0 !in Run(start, steps).succeeded;
      assert !ErrorFreeIsComplete(total, concurrency, steps);
    }
  }

  // ---- When the returned error is the first failure ----

  ghost predicate ErrorIsFirstFailure(total: int, concurrency: int, steps: seq<Step>)
    requires Allowed(Start(total, concurrency), steps)
  {
    var s := Run(Start(total, concurrency), steps);
    s.caller.Returned? && s.caller.err.Some? ==> s.failed != [] && s.caller.err.value == s.failed[0]
  }

  /** A lone worker that failed takes no further index. */
  ghost predicate LoneFailure(s: State) {
    |s.workers| <= 1 && s.failed != [] ==>
      |s.workers| == 1 && |s.failed| == 1 && !s.workers[0].Idle? && !s.workers[0].Running?
  }

  lemma {:induction false} RunKeepsLoneFailure(s: State, steps: seq<Step>)
    requires LoneFailure(s) && Allowed(s, steps)
    ensures LoneFailure(Run(s, steps))
    decreases |steps|
  {
    if steps != [] {
      RunKeepsLoneFailure(Next(s, steps[0]), steps[1..]);
    }
  }

  /** Two workers fail, and the second reaches `errOnce` before the first does. */
  function RacingSteps(): seq<Step> {
    [Send(0), Send(1), Finish(0, false), Finish(1, false), Report(1)]
  }

  lemma {:induction false} RacingRun(total: int, concurrency: int)
    requires Workers(total, concurrency) >= 2
    ensures var s := Start(total, concurrency);
      && Allowed(s, RacingSteps()) && Run(s, RacingSteps()).failed == [0, 1] && Run(s, RacingSteps()).reports == [1]
  {
    var s0 := Start(total, concurrency);
    var s1 := Next(s0, Send(0));
    var s2 := Next(s1, Send(1));
    var s3 := Next(s2, Finish(0, false));
    var s4 := Next(s3, Finish(1, false));
    RunStep(s4, [], Report(1));
    RunStep(s3, [Report(1)], Finish(1, false));
    RunStep(s2, [Finish(1, false), Report(1)], Finish(0, false));
    RunStep(s1, [Finish(0, false), Finish(1, false), Report(1)], Send(1));
    RunStep(s0, [Send(1), Finish(0, false), Finish(1, false), Report(1)], Send(0));
  }

  /** With two workers the operation that failed first can lose the race, whatever else there is to run. */
  lemma {:induction false} FirstFailureCanLoseTheRace(total: int, concurrency: int) returns (steps: seq<Step>)
    requires total >= 2 && concurrency >= 2
    ensures Allowed(Start(total, concurrency), steps)
    ensures var s := Run(Start(total, concurrency), steps);
      s.failed != [] && s.failed[0] == 0 && s.caller == Returned(Some(1))
  {
    var start := Start(total, concurrency);
    StartInv(total, concurrency);
    RacingRun(total, concurrency);
    RunKeepsInv(start, RacingSteps(), concurrency);
    var raced := Run(start, RacingSteps());
    var rest := CanReturn(raced, concurrency);
    RunKeepsRecords(raced, rest);
    RunKeepsInv(raced, rest, concurrency);
    RunConcat(start, RacingSteps(), rest);
    steps := RacingSteps() + rest;
    assert raced.failed[0] == 0 && raced.reports[0] == 1;
  }

  /**
   Every run that returns an error returns the first failure exactly when there is at most one
   worker; with more, "first" is the first to reach `errOnce`.
   */
  lemma {:induction false} FirstErrorIsFirstFailureExactlyWhen(total: int, concurrency: int)
    ensures (forall steps :: Allowed(Start(total, concurrency), steps) ==> ErrorIsFirstFailure(total, concurrency, steps))
            <==> total <= 1 || concurrency <= 1
  {
    var start := Start(total, concurrency);
    StartInv(total, concurrency);
    if total <= 1 || concurrency <= 1 {
      forall steps | Allowed(start, steps) ensures ErrorIsFirstFailure(total, concurrency, steps) {
        RunKeepsInv(start, steps, concurrency);
        RunKeepsLoneFailure(start, steps);
        if Run(start, steps).caller.Returned? {
          ReturnedResult(Run(start, steps), concurrency);
        }
      }
    } else {
      var steps := FirstFailureCanLoseTheRace(total, concurrency);
      assert !ErrorIsFirstFailure(total, concurrency, steps);
    }
  }
}

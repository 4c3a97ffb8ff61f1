/**
 The tracker and the two middlewares as objects: one command dispatched through
 `outerMiddleware`, the retry loop and `attemptMiddleware`, with the recorder underneath.
 */
module LifecycleObjects {
  import opened BoundedMaps
  import opened BoundedMapObjects
  import opened Recorders
  import opened RecorderObjects
  import opened LifecycleTraces
  import opened LifecycleSystem

  class AttemptTracker {
    const attempts: BoundedMap<nat>
    const rejected: BoundedMap<bool>

    ghost function View(): Tracker
      reads attempts, rejected
    {
      Tracker(attempts.View(), rejected.View())
    }

    constructor ()
      ensures View() == NewTracker() && fresh(attempts) && fresh(rejected)
    {
      attempts := new BoundedMap<nat>(DEFAULT_CACHE_CAPACITY);
      rejected := new BoundedMap<bool>(DEFAULT_CACHE_CAPACITY);
    }

    method Next(id: string) returns (n: nat)
      modifies attempts
      ensures View() == NextAttempt(old(View()), id)
      ensures n == AttemptsOf(View(), id) == AttemptsOf(old(View()), id) + 1
    {
      var v, _ := attempts.Get(id, 0);
      attempts.Put(id, v + 1);
      n := v + 1;
    }

    method ClearEntries(id: string)
      modifies attempts, rejected
      ensures View() == Clear(old(View()), id)
    {
      attempts.Delete(id);
      rejected.Delete(id);
    }

    method Mark(id: string)
      modifies rejected
      ensures View() == MarkRejected(old(View()), id)
    {
      rejected.Put(id, true);
    }

    /** Hands out both entries and clears them. */
    method Take(id: string) returns (n: nat, marked: bool)
      modifies attempts, rejected
      ensures n == AttemptsOf(old(View()), id) && marked == RejectedOf(old(View()), id)
      ensures View() == Clear(old(View()), id)
    {
      var ok: bool;
      n, ok := attempts.Get(id, 0);
      marked, ok := rejected.Get(id, false);
      attempts.Delete(id);
      rejected.Delete(id);
    }
  }

  /** The emissions of one command: event j is recorded under fault j. */
  function Tagged(id: string, events: seq<Event>, faults: nat -> Fault): seq<Emission<Event>> {
    seq(|events|, j requires 0 <= j < |events| => Emission(id, events[j], faults(j)))
  }

  lemma {:induction false} EmitAllAppend<E>(r: RecState<E>, es: seq<Emission<E>>, e: Emission<E>)
    ensures EmitAll(r, es + [e]) == Recorders.Emit(EmitAll(r, es), e).rec
    decreases |es|
  {
    if es == [] {
      assert es + [e] == [e] && [e][1..] == [];
    } else {
      assert (es + [e])[1..] == es[1..] + [e];
      EmitAllAppend(Recorders.Emit(r, es[0]).rec, es[1..], e);
    }
  }

  /** The error that wraps the last one when the attempts are exhausted or the wait is cancelled. */
  const GAVE_UP := Error(Infrastructure, "middleware.retry")

  function RetriedBefore(i: nat): seq<Event> {
    if i > 1 then [Retried(i - 1)] else []
  }

  /** Before the i-th attempt, `emitted` and what is still to come make up the whole trace, and the
      dispatch succeeds if the remaining attempts do. */
  ghost predicate BeforeAttempt(cfg: Config, script: Script, i: nat, emitted: seq<Event>, all: seq<Event>, ok: bool) {
    && 1 <= i <= cfg.maxAttempts
    && emitted + RetriedBefore(i) + HandleTrace(cfg, script, i) == all
    && (ok <==> Succeeded(cfg, script, i))
  }

  /** The i-th attempt was the last one and ended in this family. */
  ghost predicate AtTheEnd(cfg: Config, script: Script, i: nat, f: Family, emitted: seq<Event>, all: seq<Event>) {
    emitted + Terminal(cfg, f, i, Marked(cfg, script, i + 1)) == all
  }

  lemma {:induction false} AfterSuccess(cfg: Config, script: Script, i: nat, before: seq<Event>, all: seq<Event>, ok: bool)
    requires BeforeAttempt(cfg, script, i, before, all, ok) && script.outcome(i).Succeeds?
    ensures ok && before + RetriedBefore(i) + [Completed] == all
  {
  }

  /** The events of a failed attempt, taken off the front of the remaining trace. */
  lemma {:induction false} AfterFailedAttempt(cfg: Config, script: Script, i: nat, before: seq<Event>,
                                              after: seq<Event>, all: seq<Event>, ok: bool)
    requires BeforeAttempt(cfg, script, i, before, all, ok) && script.outcome(i).Fails?
    requires after == before + RetriedBefore(i) +
                      [if script.outcome(i).error.family in cfg.rejections then Rejected(i) else Failed(i)]
    ensures var e := script.outcome(i).error;
            if Retries(cfg, script, i, e) then BeforeAttempt(cfg, script, i + 1, after, all, ok)
            else !ok && AtTheEnd(cfg, script, i, Returned(cfg, e), after, all)
  {
    var e := script.outcome(i).error;
    var failure := [if e.family in cfg.rejections then Rejected(i) else Failed(i)];
    assert before + RetriedBefore(i) + (failure + FailureTrace(cfg, script, i, e))
           == after + FailureTrace(cfg, script, i, e);
    if Retries(cfg, script, i, e) {
      assert after + ([Retried(i)] + HandleTrace(cfg, script, i + 1))
             == after + [Retried(i)] + HandleTrace(cfg, script, i + 1);
    }
  }

  class Pipeline {
    const cfg: Config
    const tracker: AttemptTracker
    const recorder: Recorder<Event>
    var emitted: seq<Event>

    ghost predicate Separate() {
      tracker.attempts != recorder.versions && cfg.maxAttempts >= 1
    }

    constructor (cfg: Config, tracker: AttemptTracker, recorder: Recorder<Event>)
      ensures this.cfg == cfg && this.tracker == tracker && this.recorder == recorder && emitted == []
    {
      this.cfg := cfg;
      this.tracker := tracker;
      this.recorder := recorder;
      emitted := [];
    }

    /** One `Record...` call; its error is ignored by the middlewares. */
    method Record(id: string, e: Event, faults: nat -> Fault, ghost start: RecState<Event>)
      requires Separate()
      requires recorder.View() == EmitAll(start, Tagged(id, emitted, faults))
      modifies this`emitted, recorder.store, recorder.versions
      ensures emitted == old(emitted) + [e]
      ensures recorder.View() == EmitAll(start, Tagged(id, emitted, faults))
      ensures tracker.View() == old(tracker.View())
    {
      EmitAllAppend(start, Tagged(id, emitted, faults), Emission(id, e, faults(|emitted|)));
      assert Tagged(id, emitted + [e], faults) == Tagged(id, emitted, faults) + [Emission(id, e, faults(|emitted|))];
      var _ := recorder.EmitEvent(id, e, faults(|emitted|));
      emitted := emitted + [e];
    }

    /** The tracker has the entries of a command between its attempts. */
    ghost predicate Between(id: string, n: nat, marked: bool, inflight: set<string>)
      reads tracker.attempts, tracker.rejected
    {
      id in inflight && TrackerOk(tracker.View(), inflight) && TrackerIs(tracker.View(), id, n, marked)
    }

    /** The attempt middleware's handling of an error. */
    method RecordFailure(id: string, script: Script, i: nat, err: Error, faults: nat -> Fault,
                         ghost start: RecState<Event>, ghost inflight: set<string>)
      requires Separate() && i >= 1 && script.outcome(i) == Fails(err)
      requires recorder.View() == EmitAll(start, Tagged(id, emitted, faults))
      requires Between(id, i, Marked(cfg, script, i), inflight)
      modifies this`emitted, tracker.rejected, recorder.store, recorder.versions
      ensures recorder.View() == EmitAll(start, Tagged(id, emitted, faults))
      ensures Between(id, i, Marked(cfg, script, i + 1), inflight)
      ensures emitted == old(emitted) + [if err.family in cfg.rejections then Rejected(i) else Failed(i)]
    {
      if err.family in cfg.rejections {
        MarkRejectedMoves(tracker.View(), id, i, Marked(cfg, script, i), inflight);
        tracker.Mark(id);
        Record(id, Rejected(i), faults, start);
      } else {
        Record(id, Failed(i), faults, start);
      }
    }

    /** The attempt middleware before it calls the handler. */
    method BeginAttempt(id: string, ghost i: nat, ghost marked: bool, faults: nat -> Fault,
                        ghost start: RecState<Event>, ghost inflight: set<string>) returns (n: nat)
      requires Separate() && i >= 1
      requires recorder.View() == EmitAll(start, Tagged(id, emitted, faults))
      requires Between(id, i - 1, marked, inflight)
      modifies this`emitted, tracker.attempts, recorder.store, recorder.versions
      ensures n == i
      ensures recorder.View() == EmitAll(start, Tagged(id, emitted, faults))
      ensures Between(id, i, marked, inflight)
      ensures emitted == old(emitted) + RetriedBefore(i)
    {
      NextAttemptMoves(tracker.View(), id, i - 1, marked, inflight);
      n := tracker.Next(id);
      if n > 1 {
        Record(id, Retried(n - 1), faults, start);
      }
    }

    /** The attempt middleware around the i-th call of the handler. */
    method RunAttempt(id: string, script: Script, i: nat, faults: nat -> Fault,
                      ghost start: RecState<Event>, ghost inflight: set<string>) returns (outcome: Outcome)
      requires Separate() && 1 <= i <= cfg.maxAttempts
      requires recorder.View() == EmitAll(start, Tagged(id, emitted, faults))
      requires Between(id, i - 1, Marked(cfg, script, i), inflight)
      modifies this`emitted, tracker.attempts, tracker.rejected, recorder.store, recorder.versions
      ensures outcome == script.outcome(i)
      ensures recorder.View() == EmitAll(start, Tagged(id, emitted, faults))
      ensures outcome.Succeeds? ==> Between(id, 0, false, inflight)
      ensures outcome.Fails? ==> Between(id, i, Marked(cfg, script, i + 1), inflight)
      ensures outcome.Succeeds? ==> emitted == old(emitted) + RetriedBefore(i)
      ensures outcome.Fails? ==>
                emitted == old(emitted) + RetriedBefore(i) +
                           [if outcome.error.family in cfg.rejections then Rejected(i) else Failed(i)]
    {
      var n := BeginAttempt(id, i, Marked(cfg, script, i), faults, start, inflight);
      outcome := script.outcome(i);
      if outcome.Fails? {
        RecordFailure(id, script, n, outcome.error, faults, start, inflight);
        return;
      }
      ClearMoves(tracker.View(), id, inflight);
      tracker.ClearEntries(id);
    }

    /** One turn of the retry loop; exhaustion and cancellation replace the error. */
    method TryOnce(id: string, script: Script, i: nat, faults: nat -> Fault, ghost start: RecState<Event>,
                   ghost inflight: set<string>, ghost all: seq<Event>, ghost ok: bool)
      returns (outcome: Outcome, again: bool)
      requires Separate() && BeforeAttempt(cfg, script, i, emitted, all, ok)
      requires recorder.View() == EmitAll(start, Tagged(id, emitted, faults))
      requires Between(id, i - 1, Marked(cfg, script, i), inflight)
      modifies this`emitted, tracker.attempts, tracker.rejected, recorder.store, recorder.versions
      ensures recorder.View() == EmitAll(start, Tagged(id, emitted, faults))
      ensures again ==> BeforeAttempt(cfg, script, i + 1, emitted, all, ok)
      ensures outcome.Fails? ==> Between(id, i, Marked(cfg, script, i + 1), inflight)
      ensures !again ==> (outcome.Succeeds? <==> ok)
      ensures outcome.Succeeds? ==> !again && Between(id, 0, false, inflight) && emitted + [Completed] == all
      ensures outcome.Fails? && !again ==> AtTheEnd(cfg, script, i, outcome.error.family, emitted, all)
    {
      ghost var before := emitted;
      outcome := RunAttempt(id, script, i, faults, start, inflight);
      if outcome.Succeeds? {
        AfterSuccess(cfg, script, i, before, all, ok);
        return outcome, false;
      }
      AfterFailedAttempt(cfg, script, i, before, emitted, all, ok);
      if !cfg.retryable(outcome.error) {
        return outcome, false;
      }
      if i == cfg.maxAttempts || script.canceled(i) {
        return Fails(GAVE_UP), false;
      }
      again := true;
    }

    /** The retry loop. */
    method RunRetries(id: string, script: Script, faults: nat -> Fault,
                      ghost start: RecState<Event>, ghost inflight: set<string>, ghost all: seq<Event>)
      returns (outcome: Outcome, ghost last: nat)
      requires Separate() && emitted + HandleTrace(cfg, script, 1) == all
      requires recorder.View() == EmitAll(start, Tagged(id, emitted, faults))
      requires Between(id, 0, false, inflight)
      modifies this`emitted, tracker.attempts, tracker.rejected, recorder.store, recorder.versions
      ensures recorder.View() == EmitAll(start, Tagged(id, emitted, faults))
      ensures outcome.Succeeds? <==> Succeeded(cfg, script, 1)
      ensures outcome.Succeeds? ==>
                Between(id, 0, false, inflight) && emitted + [Completed] == all
      ensures outcome.Fails? ==>
                && last >= 1 && Between(id, last, Marked(cfg, script, last + 1), inflight)
                && emitted + Terminal(cfg, outcome.error.family, last, Marked(cfg, script, last + 1)) == all
    {
      var attempt := 1;
      ghost var ok := Succeeded(cfg, script, 1);
      assert emitted + RetriedBefore(1) == emitted;
      while attempt <= cfg.maxAttempts
        invariant BeforeAttempt(cfg, script, attempt, emitted, all, ok)
        invariant recorder.View() == EmitAll(start, Tagged(id, emitted, faults))
        invariant Between(id, attempt - 1, Marked(cfg, script, attempt), inflight)
        decreases cfg.maxAttempts - attempt
      {
        var again;
        outcome, again := TryOnce(id, script, attempt, faults, start, inflight, all, ok);
        last := attempt;
        if !again {
          return;
        }
        attempt := attempt + 1;
      }
    }

    /** The outer middleware's handling of an error after `last` attempts. */
    method Finish(id: string, f: Family, ghost marked: bool, ghost last: nat, faults: nat -> Fault,
                  ghost start: RecState<Event>, ghost inflight: set<string>)
      requires Separate()
      requires recorder.View() == EmitAll(start, Tagged(id, emitted, faults))
      requires Between(id, last, marked, inflight)
      modifies this`emitted, tracker.attempts, tracker.rejected, recorder.store, recorder.versions
      ensures recorder.View() == EmitAll(start, Tagged(id, emitted, faults))
      ensures Between(id, 0, false, inflight)
      ensures emitted == old(emitted) + Terminal(cfg, f, last, marked)
    {
      ClearMoves(tracker.View(), id, inflight);
      var attempts, alreadyRejected := tracker.Take(id);
      if alreadyRejected {
      } else if f in cfg.rejections {
        Record(id, Rejected(attempts), faults, start);
      } else {
        Record(id, DeadLettered(attempts), faults, start);
      }
    }

    /** The outer middleware's handling of success. */
    method Complete(id: string, faults: nat -> Fault, ghost start: RecState<Event>, ghost inflight: set<string>)
      requires Separate()
      requires recorder.View() == EmitAll(start, Tagged(id, emitted, faults))
      requires Between(id, 0, false, inflight)
      modifies this`emitted, tracker.attempts, tracker.rejected, recorder.store, recorder.versions
      ensures recorder.View() == EmitAll(start, Tagged(id, emitted, faults))
      ensures Between(id, 0, false, inflight)
      ensures emitted == old(emitted) + [Completed]
    {
      ClearMoves(tracker.View(), id, inflight);
      tracker.ClearEntries(id);
      Record(id, Completed, faults, start);
    }

    /** The outer middleware: whatever the tracker and the store have seen of other commands, the
        dispatch emits its lone trace, records it event by event, and leaves the tracker clean. It makes
        attempts up to the k-th, the first that no other follows, and returns whether that one succeeds. */
    method Dispatch(id: string, script: Script, faults: nat -> Fault, ghost inflight: set<string>)
      returns (ok: bool, ghost k: nat)
      requires Separate() && emitted == []
      requires Between(id, 0, false, inflight)
      modifies this`emitted, tracker.attempts, tracker.rejected, recorder.store, recorder.versions
      ensures emitted == AloneTrace(cfg, script)
      ensures recorder.View() == EmitAll(old(recorder.View()), Tagged(id, emitted, faults))
      ensures Between(id, 0, false, inflight)
      ensures LastAttempt(cfg, script, k) && TraceOfAttempts(cfg, script, k, emitted)
      ensures ok <==> script.outcome(k).Succeeds?
    {
      k := FindLastAttempt(cfg, script, 1);
      AloneTraceFollowsTheScript(cfg, script, k);
      ghost var start := recorder.View();
      assert Tagged(id, [], faults) == [];
      Record(id, Received, faults, start);
      var outcome, last := RunRetries(id, script, faults, start, inflight, AloneTrace(cfg, script));
      if outcome.Fails? {
        Finish(id, outcome.error.family, Marked(cfg, script, last + 1), last, faults, start, inflight);
        ok := false;
      } else {
        Complete(id, faults, start, inflight);
        ok := true;
      }
    }
  }
}

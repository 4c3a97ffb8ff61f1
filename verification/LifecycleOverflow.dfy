/**
 What happens past the capacity of the attempt tracker (commandlifecycle/middleware.go,
 bounded.go): with more than 1024 commands in flight an entry is evicted while its command
 still needs it, whatever the configuration.
 */
module LifecycleOverflow {
  import opened BoundedMaps
  import opened Recorders
  import opened LifecycleTraces
  import opened LifecycleSystem

  const REFUSED := Error(Rejection, "refused")

  /** Every attempt is refused, and the wait before a retry is cancelled. */
  const ALWAYS_REFUSED := Script(_ => Fails(REFUSED), _ => true)

  /** The command has failed its first attempt and is about to record that. */
  function WaitingPC(cfg: Config): PC {
    Emit(if Rejection in cfg.rejections then Rejected(1) else Failed(1), Decide(1, REFUSED))
  }

  ghost predicate Waits(cfg: Config, th: Thread) {
    th.script == ALWAYS_REFUSED && th.pc == WaitingPC(cfg) && th.emitted == [Received]
  }

  ghost predicate AllWait(cfg: Config, s: Sys) {
    forall id :: id in s.threads ==> Waits(cfg, s.threads[id])
  }

  // ---- Runs of one command ----

  /** n steps of one command, whose recordings all fail. */
  function Moves(id: string, n: nat): seq<Step> {
    if n == 0 then [] else [Advance(id, CreateFails)] + Moves(id, n - 1)
  }

  function Moved(cfg: Config, s: Sys, id: string, n: nat): (t: Sys)
    requires id in s.threads
    ensures id in t.threads
    decreases n
  {
    if n == 0 then s else Moved(cfg, StepThread(cfg, s, id, CreateFails), id, n - 1)
  }

  /** The steps change no other command and no bound. */
  ghost predicate OnlyMoves(s: Sys, t: Sys, id: string) {
    && t.threads.Keys == s.threads.Keys && t.limit == s.limit
    && forall other :: other in s.threads && other != id ==> t.threads[other] == s.threads[other]
  }

  lemma {:induction false} StepOnlyMoves(cfg: Config, s: Sys, id: string)
    requires id in s.threads
    ensures OnlyMoves(s, StepThread(cfg, s, id, CreateFails), id)
  {
  }

  /** The steps take the system from one state to the other. */
  ghost predicate Leads(cfg: Config, s: Sys, steps: seq<Step>, t: Sys) {
    Runs(cfg, s, steps) && After(cfg, s, steps) == t
  }

  lemma {:induction false} FirstStep(cfg: Config, s: Sys, steps: seq<Step>, t: Sys)
    requires Leads(cfg, s, steps, t) && steps != []
    ensures Enabled(s, steps[0]) && Leads(cfg, Next(cfg, s, steps[0]), steps[1..], t)
  {
  }

  lemma {:induction false} StepBefore(cfg: Config, s: Sys, step: Step, rest: seq<Step>, t: Sys)
    requires Enabled(s, step) && Leads(cfg, Next(cfg, s, step), rest, t)
    ensures Leads(cfg, s, [step] + rest, t)
  {
    RunStep(cfg, s, step, rest);
  }

  lemma {:induction false} LeadsOn(cfg: Config, s: Sys, a: seq<Step>, t: Sys, b: seq<Step>, u: Sys)
    requires Leads(cfg, s, a, t) && Leads(cfg, t, b, u)
    ensures Leads(cfg, s, a + b, u)
    decreases |a|
  {
    if a == [] {
      assert a + b == b;
    } else {
      FirstStep(cfg, s, a, t);
      LeadsOn(cfg, Next(cfg, s, a[0]), a[1..], t, b, u);
      StepBefore(cfg, s, a[0], a[1..] + b, u);
      assert [a[0]] + (a[1..] + b) == a + b;
    }
  }

  lemma {:induction false} MovesRun(cfg: Config, s: Sys, id: string, n: nat)
    requires id in s.threads
    ensures Leads(cfg, s, Moves(id, n), Moved(cfg, s, id, n))
    ensures OnlyMoves(s, Moved(cfg, s, id, n), id)
    decreases n
  {
    if n > 0 {
      var t := StepThread(cfg, s, id, CreateFails);
      StepOnlyMoves(cfg, s, id);
      MovesRun(cfg, t, id, n - 1);
      StepBefore(cfg, s, Advance(id, CreateFails), Moves(id, n - 1), Moved(cfg, t, id, n - 1));
    }
  }

  lemma {:induction false} MovesAreAdvances(id: string, n: nat)
    ensures forall i :: 0 <= i < |Moves(id, n)| ==> Moves(id, n)[i].Advance?
  {
    if n > 0 {
      MovesAreAdvances(id, n - 1);
    }
  }

  /** Without another dispatch there is no need for a bound. */
  lemma {:induction false} AdvancesKeepInv(cfg: Config, s: Sys, steps: seq<Step>)
    requires cfg.maxAttempts >= 1 && Inv(cfg, s) && Runs(cfg, s, steps)
    requires forall i :: 0 <= i < |steps| ==> steps[i].Advance?
    ensures Inv(cfg, After(cfg, s, steps))
    decreases |steps|
  {
    if steps != [] {
      StepKeepsInv(cfg, s, steps[0]);
      AdvancesKeepInv(cfg, Next(cfg, s, steps[0]), steps[1..]);
    }
  }

  // ---- A command that waits ----

  function Started(s: Sys, id: string): Sys {
    s.(threads := s.threads[id := Thread(ALWAYS_REFUSED, Start, [], Events(s.rec.streams, id))])
  }

  /** How many steps it takes from calling the handler until the command waits. */
  function UntilWaiting(cfg: Config): nat {
    if Rejection in cfg.rejections then 2 else 1
  }

  function WaitingTracker(cfg: Config, t: Tracker, id: string): Tracker {
    if Rejection in cfg.rejections then MarkRejected(NextAttempt(t, id), id) else NextAttempt(t, id)
  }

  lemma {:induction false} ReceivesAndAttempts(cfg: Config, s: Sys, id: string)
    requires id !in s.tracker.attempts.entries
    ensures var t := Moved(cfg, Started(s, id), id, 3);
            && t.tracker == NextAttempt(s.tracker, id)
            && t.threads[id] == Thread(ALWAYS_REFUSED, Handle(1, 1), [Received], Events(s.rec.streams, id))
  {
    var t1 := StepThread(cfg, Started(s, id), id, CreateFails);
    assert t1.threads[id].pc == Emit(Received, Attempt(1)) && t1.tracker == s.tracker;
    var t2 := StepThread(cfg, t1, id, CreateFails);
    assert t2.threads[id].pc == Attempt(1) && t2.threads[id].emitted == [] + [Received] && t2.tracker == s.tracker;
    var t3 := StepThread(cfg, t2, id, CreateFails);
    assert Moved(cfg, t3, id, 0) == t3;
    assert Moved(cfg, t2, id, 1) == t3;
    assert Moved(cfg, t1, id, 2) == t3;
  }

  lemma {:induction false} FailsAndWaits(cfg: Config, s: Sys, id: string)
    requires id in s.threads && s.threads[id].script == ALWAYS_REFUSED && s.threads[id].pc == Handle(1, 1)
    requires s.threads[id].emitted == [Received]
    ensures var t := Moved(cfg, s, id, UntilWaiting(cfg));
            && Waits(cfg, t.threads[id])
            && t.tracker == if Rejection in cfg.rejections then MarkRejected(s.tracker, id) else s.tracker
  {
    var t1 := StepThread(cfg, s, id, CreateFails);
    if Rejection in cfg.rejections {
      assert t1.threads[id].pc == Mark(1, 1, REFUSED);
      var t2 := StepThread(cfg, t1, id, CreateFails);
      assert t2.threads[id].pc == WaitingPC(cfg);
      assert Moved(cfg, t2, id, 0) == t2;
      assert Moved(cfg, t1, id, 1) == t2;
    } else {
      assert t1.threads[id].pc == WaitingPC(cfg);
      assert Moved(cfg, t1, id, 0) == t1;
    }
  }

  /** The steps by which a new command comes to wait, and the states they lead to. */
  function WaitSteps(cfg: Config, id: string): seq<Step> {
    [Dispatch(id, ALWAYS_REFUSED)] + (Moves(id, 3) + Moves(id, UntilWaiting(cfg)))
  }

  function Handled(cfg: Config, s: Sys, id: string): (t: Sys)
    ensures id in t.threads
  {
    Moved(cfg, Started(s, id), id, 3)
  }

  function Waited(cfg: Config, s: Sys, id: string): Sys {
    Moved(cfg, Handled(cfg, s, id), id, UntilWaiting(cfg))
  }

  lemma {:induction false} WaitedRun(cfg: Config, s: Sys, id: string)
    requires id !in s.threads && |s.threads| < s.limit
    ensures Leads(cfg, s, WaitSteps(cfg, id), Waited(cfg, s, id))
  {
    var n := UntilWaiting(cfg);
    MovesRun(cfg, Started(s, id), id, 3);
    MovesRun(cfg, Handled(cfg, s, id), id, n);
    LeadsOn(cfg, Started(s, id), Moves(id, 3), Handled(cfg, s, id), Moves(id, n), Waited(cfg, s, id));
    StepBefore(cfg, s, Dispatch(id, ALWAYS_REFUSED), Moves(id, 3) + Moves(id, n), Waited(cfg, s, id));
  }

  lemma {:induction false} WaitedState(cfg: Config, s: Sys, id: string)
    requires AllWait(cfg, s) && id !in s.threads && id !in s.tracker.attempts.entries
    ensures var t := Waited(cfg, s, id);
            && AllWait(cfg, t) && t.tracker == WaitingTracker(cfg, s.tracker, id)
            && t.threads.Keys == s.threads.Keys + {id} && t.limit == s.limit
  {
    ReceivesAndAttempts(cfg, s, id);
    FailsAndWaits(cfg, Handled(cfg, s, id), id);
    MovesRun(cfg, Started(s, id), id, 3);
    MovesRun(cfg, Handled(cfg, s, id), id, UntilWaiting(cfg));
    var t := Waited(cfg, s, id);
    forall other | other in t.threads ensures Waits(cfg, t.threads[other]) {
      if other != id {
        assert t.threads[other] == s.threads[other];
      }
    }
  }

  lemma {:induction false} MovesKeepInv(cfg: Config, s: Sys, id: string, n: nat)
    requires cfg.maxAttempts >= 1 && Inv(cfg, s) && id in s.threads
    ensures Inv(cfg, Moved(cfg, s, id, n))
  {
    MovesRun(cfg, s, id, n);
    MovesAreAdvances(id, n);
    AdvancesKeepInv(cfg, s, Moves(id, n));
  }

  lemma {:induction false} WaitedKeepsInv(cfg: Config, s: Sys, id: string)
    requires cfg.maxAttempts >= 1 && Inv(cfg, s) && |s.threads| < DEFAULT_CACHE_CAPACITY
    requires id !in s.threads && |s.threads| < s.limit
    ensures Inv(cfg, Waited(cfg, s, id))
  {
    StepKeepsInv(cfg, s, Dispatch(id, ALWAYS_REFUSED));
    MovesKeepInv(cfg, Started(s, id), id, 3);
    MovesKeepInv(cfg, Handled(cfg, s, id), id, UntilWaiting(cfg));
  }

  // ---- 1024 waiting commands ----

  /** This many commands wait, with shorter ids than any that is still to come. */
  ghost predicate LinedUp(cfg: Config, s: Sys, n: nat)
    requires cfg.maxAttempts >= 1
  {
    && Inv(cfg, s) && AllWait(cfg, s) && |s.threads| == n
    && forall id :: id in s.threads ==> |id| < n
  }

  function Name(n: nat): (id: string)
    ensures |id| == n
  {
    seq(n, _ => 'c')
  }

  lemma {:induction false} OneMoreLinedUp(cfg: Config, s: Sys, n: nat)
    requires cfg.maxAttempts >= 1 && LinedUp(cfg, s, n) && n < DEFAULT_CACHE_CAPACITY && n < s.limit
    ensures Leads(cfg, s, WaitSteps(cfg, Name(n)), Waited(cfg, s, Name(n)))
    ensures LinedUp(cfg, Waited(cfg, s, Name(n)), n + 1) && Waited(cfg, s, Name(n)).limit == s.limit
  {
    var id := Name(n);
    assert id !in s.tracker.attempts.entries;
    WaitedRun(cfg, s, id);
    WaitedState(cfg, s, id);
    WaitedKeepsInv(cfg, s, id);
    assert |Waited(cfg, s, id).threads.Keys| == |s.threads.Keys| + 1;
  }

  lemma {:induction false} NobodyLinedUp(cfg: Config, s: Sys)
    requires cfg.maxAttempts >= 1 && Initial(s)
    ensures Leads(cfg, s, [], s) && LinedUp(cfg, s, 0)
  {
    InitialInv(cfg, s);
  }

  lemma {:induction false} LinesUpOneMore(cfg: Config, s: Sys, before: seq<Step>, mid: Sys, n: nat)
    returns (steps: seq<Step>, t: Sys)
    requires cfg.maxAttempts >= 1 && Leads(cfg, s, before, mid)
    requires LinedUp(cfg, mid, n) && n < DEFAULT_CACHE_CAPACITY && n < mid.limit
    ensures Leads(cfg, s, steps, t) && LinedUp(cfg, t, n + 1) && t.limit == mid.limit
  {
    OneMoreLinedUp(cfg, mid, n);
    steps, t := before + WaitSteps(cfg, Name(n)), Waited(cfg, mid, Name(n));
    LeadsOn(cfg, s, before, mid, WaitSteps(cfg, Name(n)), t);
  }

  lemma {:induction false} LineUp(cfg: Config, s: Sys, n: nat) returns (steps: seq<Step>, t: Sys)
    requires cfg.maxAttempts >= 1 && Initial(s) && n <= DEFAULT_CACHE_CAPACITY && n <= s.limit
    ensures Leads(cfg, s, steps, t) && LinedUp(cfg, t, n) && t.limit == s.limit
  {
    if n == 0 {
      steps, t := [], s;
      NobodyLinedUp(cfg, s);
    } else {
      var before, mid := LineUp(cfg, s, n - 1);
      steps, t := LinesUpOneMore(cfg, s, before, mid, n - 1);
    }
  }

  lemma {:induction false} ThreadIsTracked(cfg: Config, s: Sys, id: string)
    requires cfg.maxAttempts >= 1 && OnTrace(cfg, s) && id in s.threads
    ensures var th := s.threads[id];
            TrackerIs(s.tracker, id, CountAt(Core(th.pc)), MarkAt(cfg, th.script, Core(th.pc)))
  {
    assert ThreadOk(cfg, s.tracker, id, s.threads[id]);
  }

  /** What the tracker holds of a waiting command. */
  lemma {:induction false} WaitingIsTracked(cfg: Config, s: Sys, id: string)
    requires cfg.maxAttempts >= 1 && OnTrace(cfg, s) && id in s.threads && Waits(cfg, s.threads[id])
    ensures TrackerIs(s.tracker, id, 1, Rejection in cfg.rejections)
  {
    ThreadIsTracked(cfg, s, id);
    MarkedWhenRefused(cfg);
  }

  lemma {:induction false} MarkedWhenRefused(cfg: Config)
    ensures Marked(cfg, ALWAYS_REFUSED, 2) <==> Rejection in cfg.rejections
  {
    assert RejectedAt(cfg, ALWAYS_REFUSED, 1) <==> Rejection in cfg.rejections;
    assert !Marked(cfg, ALWAYS_REFUSED, 1);
  }

  lemma {:induction false} TrackerIsFull(cfg: Config, s: Sys)
    requires cfg.maxAttempts >= 1 && LinedUp(cfg, s, DEFAULT_CACHE_CAPACITY)
    ensures s.tracker.attempts.entries.Keys == s.threads.Keys && AtCapacity(s.tracker.attempts)
    ensures if Rejection in cfg.rejections
            then s.tracker.rejected.entries.Keys == s.threads.Keys && AtCapacity(s.tracker.rejected)
            else s.tracker.rejected.entries.Keys == {}
  {
    forall id | id in s.threads ensures TrackerIs(s.tracker, id, 1, Rejection in cfg.rejections) {
      WaitingIsTracked(cfg, s, id);
    }
  }

  lemma {:induction false} PutEvicts<T>(m: Bounded<T>, key: string, val: T) returns (evicted: string)
    requires Valid(m) && AtCapacity(m) && key !in m.entries
    ensures evicted in m.entries && evicted != key && evicted !in Put(m, key, val).entries
  {
    EvictRemovesOne(m);
    evicted := Victim(m);
  }

  /** The 1025th command makes the tracker forget a mark or a count that is still needed. */
  lemma {:induction false} OneIsForgotten(cfg: Config, s: Sys, id: string) returns (evicted: string)
    requires cfg.maxAttempts >= 1 && LinedUp(cfg, s, DEFAULT_CACHE_CAPACITY) && id !in s.threads
    ensures evicted in s.threads && evicted != id
    ensures var t := WaitingTracker(cfg, s.tracker, id);
            !RejectedOf(t, evicted) && (Rejection in cfg.rejections || AttemptsOf(t, evicted) == 0)
  {
    TrackerIsFull(cfg, s);
    if Rejection in cfg.rejections {
      evicted := PutEvicts(s.tracker.rejected, id, true);
    } else {
      evicted := PutEvicts(s.tracker.attempts, id, AttemptsOf(s.tracker, id) + 1);
    }
  }

  // ---- The forgotten command ends differently ----

  /** What the outer middleware then reports. */
  function LastEvent(cfg: Config, attempts: nat): Event {
    if Returned(cfg, REFUSED) in cfg.rejections then Rejected(attempts) else DeadLettered(attempts)
  }

  lemma {:induction false} ForgottenEnds(cfg: Config, s: Sys, id: string)
    requires id in s.threads && Waits(cfg, s.threads[id]) && !RejectedOf(s.tracker, id)
    ensures var th := Moved(cfg, s, id, 4).threads[id];
            && th.pc.Done? && th.script == ALWAYS_REFUSED
            && th.emitted == [Received, WaitingPC(cfg).e, LastEvent(cfg, AttemptsOf(s.tracker, id))]
  {
    var t1 := StepThread(cfg, s, id, CreateFails);
    assert t1.threads[id].pc == Decide(1, REFUSED) && t1.tracker == s.tracker;
    assert t1.threads[id].emitted == [Received, WaitingPC(cfg).e];
    var t2 := StepThread(cfg, t1, id, CreateFails);
    assert t2.threads[id].pc == OuterError(1, Returned(cfg, REFUSED)) && t2.tracker == s.tracker;
    var t3 := StepThread(cfg, t2, id, CreateFails);
    assert t3.threads[id].pc == Emit(LastEvent(cfg, AttemptsOf(s.tracker, id)), Done);
    var t4 := StepThread(cfg, t3, id, CreateFails);
    assert t4.threads[id].pc == Done;
    assert Moved(cfg, t4, id, 0) == t4;
    assert Moved(cfg, t3, id, 1) == t4;
    assert Moved(cfg, t2, id, 2) == t4;
    assert Moved(cfg, t1, id, 3) == t4;
  }

  lemma {:induction false} RefusedAlone(cfg: Config)
    requires cfg.maxAttempts >= 1
    ensures AloneTrace(cfg, ALWAYS_REFUSED) ==
            [Received, WaitingPC(cfg).e] + if Rejection in cfg.rejections then [] else [LastEvent(cfg, 1)]
  {
    MarkedWhenRefused(cfg);
    var last := if Rejection in cfg.rejections then [] else [LastEvent(cfg, 1)];
    assert FailureTrace(cfg, ALWAYS_REFUSED, 1, REFUSED) == last;
    assert HandleTrace(cfg, ALWAYS_REFUSED, 1) == [WaitingPC(cfg).e] + last;
    assert [Received] + ([WaitingPC(cfg).e] + last) == [Received, WaitingPC(cfg).e] + last;
  }

  /** A finished dispatch of this run has emitted what it would have emitted alone. */
  ghost predicate AsIfAlone(cfg: Config, s: Sys, steps: seq<Step>, id: string)
    requires cfg.maxAttempts >= 1 && Runs(cfg, s, steps)
  {
    var t := After(cfg, s, steps);
    id in t.threads && t.threads[id].pc.Done? ==> t.threads[id].emitted == AloneTrace(cfg, t.threads[id].script)
  }

  /** This command waits, and the tracker has forgotten it. */
  ghost predicate Forgotten(cfg: Config, s: Sys, id: string) {
    && id in s.threads && Waits(cfg, s.threads[id]) && !RejectedOf(s.tracker, id)
    && (Rejection in cfg.rejections || AttemptsOf(s.tracker, id) == 0)
  }

  /** Run to its end, it has not emitted its lone trace. */
  lemma {:induction false} ForgottenLeavesTheTrace(cfg: Config, s: Sys, id: string)
    requires cfg.maxAttempts >= 1 && Forgotten(cfg, s, id)
    ensures var th := Moved(cfg, s, id, 4).threads[id];
            th.pc.Done? && th.emitted != AloneTrace(cfg, th.script)
  {
    ForgottenEnds(cfg, s, id);
    RefusedAlone(cfg);
    var emitted, alone := Moved(cfg, s, id, 4).threads[id].emitted, AloneTrace(cfg, ALWAYS_REFUSED);
    if Rejection in cfg.rejections {
      assert |emitted| != |alone|;
    } else {
      assert emitted[2] != alone[2];
    }
  }

  /** The 1025th command makes the tracker forget one of the others. */
  lemma {:induction false} OverflowForgetsOne(cfg: Config, s: Sys, last: string) returns (id: string)
    requires cfg.maxAttempts >= 1 && LinedUp(cfg, s, DEFAULT_CACHE_CAPACITY) && last !in s.threads
    ensures Forgotten(cfg, Waited(cfg, s, last), id)
  {
    assert last !in s.tracker.attempts.entries;
    WaitedState(cfg, s, last);
    id := OneIsForgotten(cfg, s, last);
  }

  /** With 1025 commands in flight, one reports attempts it did not make or a second verdict, whatever
      the configuration. */
  lemma {:induction false} OverflowLeavesTheTrace(cfg: Config, s: Sys) returns (steps: seq<Step>, id: string)
    requires cfg.maxAttempts >= 1 && Initial(s) && s.limit > DEFAULT_CACHE_CAPACITY
    ensures Runs(cfg, s, steps) && !AsIfAlone(cfg, s, steps, id)
  {
    var before, full := LineUp(cfg, s, DEFAULT_CACHE_CAPACITY);
    var last := Name(DEFAULT_CACHE_CAPACITY);
    WaitedRun(cfg, full, last);
    var over := Waited(cfg, full, last);
    LeadsOn(cfg, s, before, full, WaitSteps(cfg, last), over);
    id := OverflowForgetsOne(cfg, full, last);
    MovesRun(cfg, over, id, 4);
    steps := before + WaitSteps(cfg, last) + Moves(id, 4);
    LeadsOn(cfg, s, before + WaitSteps(cfg, last), over, Moves(id, 4), Moved(cfg, over, id, 4));
    ForgottenLeavesTheTrace(cfg, over, id);
  }

  /** Every finished dispatch of every run has emitted its lone trace exactly when the callers keep at
      most 1024 commands in flight, for every configuration. */
  lemma {:induction false} RunsAsIfAloneExactlyWhen(cfg: Config, limit: nat)
    requires cfg.maxAttempts >= 1
    ensures (forall s, steps, id :: Initial(s) && s.limit == limit && Runs(cfg, s, steps) ==> AsIfAlone(cfg, s, steps, id))
            <==> limit <= DEFAULT_CACHE_CAPACITY
  {
    if limit <= DEFAULT_CACHE_CAPACITY {
      forall s, steps, id | Initial(s) && s.limit == limit && Runs(cfg, s, steps) ensures AsIfAlone(cfg, s, steps, id) {
        if id in After(cfg, s, steps).threads {
          EveryDispatchRunsAsIfAlone(cfg, s, steps, id);
        }
      }
    } else {
      var s := Sys(NewTracker(), RecState(map[], Empty(DEFAULT_CACHE_CAPACITY)), map[], limit);
      var steps, id := OverflowLeavesTheTrace(cfg, s);
    }
  }
}

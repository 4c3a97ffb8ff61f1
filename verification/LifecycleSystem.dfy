/**
 Commands dispatched concurrently through the paired middlewares, the retry layer, the
 shared attempt tracker and the recorder (commandlifecycle/middleware.go, recorder.go).

 Each step is one critical section of the tracker or the recorder, one store operation or
 one local move of one command; steps of different commands interleave freely.
 */
module LifecycleSystem {
  import opened Basics
  import opened BoundedMaps
  import opened Recorders
  import opened LifecycleTraces

  // ---- The attempt tracker ----

  datatype Tracker = Tracker(attempts: Bounded<nat>, rejected: Bounded<bool>)

  function NewTracker(): Tracker {
    Tracker(Empty(DEFAULT_CACHE_CAPACITY), Empty(DEFAULT_CACHE_CAPACITY))
  }

  function AttemptsOf(t: Tracker, id: string): nat {
    if id in t.attempts.entries then t.attempts.entries[id] else 0
  }

  predicate RejectedOf(t: Tracker, id: string) {
    id in t.rejected.entries && t.rejected.entries[id]
  }

  function NextAttempt(t: Tracker, id: string): Tracker {
    t.(attempts := Put(t.attempts, id, AttemptsOf(t, id) + 1))
  }

  function MarkRejected(t: Tracker, id: string): Tracker {
    t.(rejected := Put(t.rejected, id, true))
  }

  /** `clear`, and what `take` leaves behind. */
  function Clear(t: Tracker, id: string): Tracker {
    Tracker(Delete(t.attempts, id), Delete(t.rejected, id))
  }

  // ---- One dispatch ----

  /** Where a dispatch stands; `Emit`, `Saving` and `Resetting` carry what follows the recording. */
  datatype PC =
    | Start
    | Attempt(i: nat)
    | Handle(i: nat, n: nat)
    | Mark(i: nat, n: nat, err: Error)
    | Decide(i: nat, err: Error)
    | ClearAttempt(i: nat)
    | OuterSuccess
    | OuterError(i: nat, f: Family)
    | Done
    | Emit(e: Event, k: PC)
    | Saving(e: Event, version: nat, k: PC)
    | Resetting(k: PC)

  /** `emitted` is what the middlewares have asked to record; `base` is the stream before the dispatch. */
  datatype Thread = Thread(script: Script, pc: PC, emitted: seq<Event>, base: seq<Stored<Event>>)

  /** `limit` bounds how many commands the callers have in flight at once. */
  datatype Sys = Sys(tracker: Tracker, rec: RecState<Event>, threads: map<string, Thread>, limit: nat)

  /** The tracker steps and local moves of a dispatch. */
  function MiddlewareStep(cfg: Config, id: string, script: Script, pc: PC, t: Tracker): (Tracker, PC) {
    match pc
    case Start => (t, Emit(Received, Attempt(1)))
    case Attempt(i) =>
      var n := AttemptsOf(t, id) + 1;
      (NextAttempt(t, id), if n > 1 then Emit(Retried(n - 1), Handle(i, n)) else Handle(i, n))
    case Handle(i, n) =>
      (match script.outcome(i)
       case Succeeds => (t, ClearAttempt(i))
       case Fails(e) => (t, if e.family in cfg.rejections then Mark(i, n, e) else Emit(Failed(n), Decide(i, e))))
    case Mark(i, n, e) => (MarkRejected(t, id), Emit(Rejected(n), Decide(i, e)))
    case Decide(i, e) =>
      (t, if Retries(cfg, script, i, e) then Attempt(i + 1) else OuterError(i, Returned(cfg, e)))
    case ClearAttempt(i) => (Clear(t, id), OuterSuccess)
    case OuterSuccess => (Clear(t, id), Emit(Completed, Done))
    case OuterError(i, f) =>
      var attempts := AttemptsOf(t, id);
      (Clear(t, id),
       if RejectedOf(t, id) then Done
       else if f in cfg.rejections then Emit(Rejected(attempts), Done)
       else Emit(DeadLettered(attempts), Done))
    case _ => (t, pc)
  }

  /** The recorder steps of an emit, under a fault. */
  function RecorderStep(id: string, pc: PC, rec: RecState<Event>, fault: Fault): (RecState<Event>, PC) {
    match pc
    case Emit(e, k) =>
      var res := Resolve(rec, id, fault.LoadFails?);
      (res.rec, if res.version == 0 || fault.CreateFails? then k else Saving(e, res.version, k))
    case Saving(e, v, k) =>
      (Save(rec, id, v, e, fault), if SaveOk(rec, id, v, fault) then k else Resetting(k))
    case Resetting(k) => (Reset(rec, id), k)
    case _ => (rec, pc)
  }

  predicate Recording(pc: PC) {
    pc.Emit? || pc.Saving? || pc.Resetting?
  }

  function StepThread(cfg: Config, s: Sys, id: string, fault: Fault): Sys
    requires id in s.threads
  {
    var th := s.threads[id];
    if Recording(th.pc) then
      var (rec, pc) := RecorderStep(id, th.pc, s.rec, fault);
      var emitted := if th.pc.Emit? then th.emitted + [th.pc.e] else th.emitted;
      s.(rec := rec, threads := s.threads[id := th.(pc := pc, emitted := emitted)])
    else
      var (tracker, pc) := MiddlewareStep(cfg, id, th.script, th.pc, s.tracker);
      s.(tracker := tracker, threads := s.threads[id := th.(pc := pc)])
  }

  // ---- The tracker under concurrency ----

  /** The tracker's two entries for a command. */
  ghost predicate TrackerIs(t: Tracker, id: string, attempts: nat, marked: bool) {
    && (id in t.attempts.entries <==> attempts > 0)
    && AttemptsOf(t, id) == attempts
    && (id in t.rejected.entries <==> marked)
    && RejectedOf(t, id) == marked
  }

  ghost predicate SameEntries(t: Tracker, t': Tracker, id: string) {
    && (id in t.attempts.entries <==> id in t'.attempts.entries)
    && AttemptsOf(t, id) == AttemptsOf(t', id)
    && (id in t.rejected.entries <==> id in t'.rejected.entries)
    && RejectedOf(t, id) == RejectedOf(t', id)
  }

  /** The tracker holds entries of in-flight commands only, at most as many as it has room for. */
  ghost predicate TrackerOk(t: Tracker, inflight: set<string>) {
    && Valid(t.attempts) && Valid(t.rejected)
    && t.attempts.cap == DEFAULT_CACHE_CAPACITY && t.rejected.cap == DEFAULT_CACHE_CAPACITY
    && t.attempts.entries.Keys <= inflight && t.rejected.entries.Keys <= inflight
    && |inflight| <= DEFAULT_CACHE_CAPACITY
  }

  /** A new entry of an in-flight command never evicts. */
  lemma {:induction false} RoomForInflight<T>(m: Bounded<T>, id: string, inflight: set<string>)
    requires m.cap == DEFAULT_CACHE_CAPACITY && m.entries.Keys <= inflight && |inflight| <= DEFAULT_CACHE_CAPACITY
    requires id in inflight && id !in m.entries
    ensures !AtCapacity(m)
  {
    SubsetSize(m.entries.Keys, inflight - {id});
  }

  lemma {:induction false} PutKeepsOthers<T(!new)>(m: Bounded<T>, id: string, v: T, inflight: set<string>)
    requires Valid(m) && m.cap == DEFAULT_CACHE_CAPACITY
    requires m.entries.Keys <= inflight && |inflight| <= DEFAULT_CACHE_CAPACITY && id in inflight
    ensures var p := Put(m, id, v);
            Valid(p) && p.cap == m.cap && p.entries == m.entries[id := v] && p.entries.Keys <= inflight
  {
    PutBinds(m, id, v);
    if id !in m.entries {
      RoomForInflight(m, id, inflight);
    }
  }

  lemma {:induction false} DeleteKeepsOthers<T>(m: Bounded<T>, id: string, inflight: set<string>)
    requires Valid(m) && m.entries.Keys <= inflight
    ensures var d := Delete(m, id);
            Valid(d) && d.cap == m.cap && d.entries == m.entries - {id} && d.entries.Keys <= inflight
  {
    DeleteUnbinds(m, id);
  }

  /** What one tracker operation does: the command's own entries, and nobody else's. */
  ghost predicate TrackerMoves(t: Tracker, t': Tracker, id: string, attempts: nat, marked: bool) {
    && TrackerIs(t', id, attempts, marked)
    && forall other :: other != id ==> SameEntries(t, t', other)
  }

  lemma {:induction false} PutMovesAttempts(t: Tracker, t': Tracker, id: string, n: nat, m: bool)
    requires TrackerIs(t, id, n, m)
    requires t'.attempts.entries == t.attempts.entries[id := n + 1] && t'.rejected == t.rejected
    ensures TrackerMoves(t, t', id, n + 1, m)
  {
  }

  lemma {:induction false} PutMovesRejected(t: Tracker, t': Tracker, id: string, n: nat, m: bool)
    requires TrackerIs(t, id, n, m)
    requires t'.rejected.entries == t.rejected.entries[id := true] && t'.attempts == t.attempts
    ensures TrackerMoves(t, t', id, n, true)
  {
  }

  lemma {:induction false} DeleteMovesBoth(t: Tracker, t': Tracker, id: string)
    requires t'.attempts.entries == t.attempts.entries - {id}
    requires t'.rejected.entries == t.rejected.entries - {id}
    ensures TrackerMoves(t, t', id, 0, false)
  {
  }

  lemma {:induction false} NextAttemptMoves(t: Tracker, id: string, n: nat, m: bool, inflight: set<string>)
    requires TrackerOk(t, inflight) && id in inflight && TrackerIs(t, id, n, m)
    ensures TrackerOk(NextAttempt(t, id), inflight)
    ensures TrackerMoves(t, NextAttempt(t, id), id, n + 1, m)
  {
    PutKeepsOthers(t.attempts, id, n + 1, inflight);
    PutMovesAttempts(t, NextAttempt(t, id), id, n, m);
  }

  lemma {:induction false} MarkRejectedMoves(t: Tracker, id: string, n: nat, m: bool, inflight: set<string>)
    requires TrackerOk(t, inflight) && id in inflight && TrackerIs(t, id, n, m)
    ensures TrackerOk(MarkRejected(t, id), inflight)
    ensures TrackerMoves(t, MarkRejected(t, id), id, n, true)
  {
    PutKeepsOthers(t.rejected, id, true, inflight);
    PutMovesRejected(t, MarkRejected(t, id), id, n, m);
  }

  lemma {:induction false} ClearMoves(t: Tracker, id: string, inflight: set<string>)
    requires TrackerOk(t, inflight) && id in inflight
    ensures TrackerOk(Clear(t, id), inflight)
    ensures TrackerMoves(t, Clear(t, id), id, 0, false)
  {
    DeleteKeepsOthers(t.attempts, id, inflight);
    DeleteKeepsOthers(t.rejected, id, inflight);
    DeleteMovesBoth(t, Clear(t, id), id);
  }

  /** Past 1024 commands a new one evicts another's count, whose next attempt then reports 1. */
  lemma {:induction false} EvictedCommandRestartsAtOne(t: Tracker, id: string) returns (evicted: string)
    requires Valid(t.attempts) && AtCapacity(t.attempts) && id !in t.attempts.entries
    ensures evicted in t.attempts.entries && evicted != id
    ensures AttemptsOf(NextAttempt(t, id), evicted) + 1 == 1
  {
    EvictRemovesOne(t.attempts);
    evicted := Victim(t.attempts);
  }

  // ---- What a dispatch still has to emit ----

  /** The pc that a recording returns to. */
  function Core(pc: PC): PC {
    match pc
    case Emit(_, k) => k
    case Saving(_, _, k) => k
    case Resetting(k) => k
    case _ => pc
  }

  ghost predicate CoreOk(cfg: Config, script: Script, pc: PC) {
    match pc
    case Attempt(i) => 1 <= i <= cfg.maxAttempts
    case Handle(i, n) => 1 <= i <= cfg.maxAttempts && n == i
    case Mark(i, n, e) =>
      1 <= i <= cfg.maxAttempts && n == i && script.outcome(i) == Fails(e) && e.family in cfg.rejections
    case Decide(i, e) => 1 <= i <= cfg.maxAttempts && script.outcome(i) == Fails(e)
    case ClearAttempt(i) => 1 <= i <= cfg.maxAttempts && script.outcome(i).Succeeds?
    case OuterError(i, f) => 1 <= i <= cfg.maxAttempts
    case _ => !Recording(pc)
  }

  /** The attempt count the tracker must hold. */
  function CountAt(pc: PC): nat {
    match pc
    case Attempt(i) => if i == 0 then 0 else i - 1
    case Handle(i, _) => i
    case Mark(i, _, _) => i
    case Decide(i, _) => i
    case ClearAttempt(i) => i
    case OuterError(i, _) => i
    case _ => 0
  }

  /** The rejection mark the tracker must hold. */
  predicate MarkAt(cfg: Config, script: Script, pc: PC) {
    match pc
    case Attempt(i) => Marked(cfg, script, i)
    case Handle(i, _) => Marked(cfg, script, i)
    case Mark(i, _, _) => Marked(cfg, script, i)
    case Decide(i, _) => Marked(cfg, script, i + 1)
    case ClearAttempt(i) => Marked(cfg, script, i)
    case OuterError(i, _) => Marked(cfg, script, i + 1)
    case _ => false
  }

  function CoreRest(cfg: Config, script: Script, pc: PC): seq<Event>
    requires cfg.maxAttempts >= 1 && CoreOk(cfg, script, pc)
  {
    match pc
    case Start => AloneTrace(cfg, script)
    case Attempt(i) => (if i > 1 then [Retried(i - 1)] else []) + HandleTrace(cfg, script, i)
    case Handle(i, _) => HandleTrace(cfg, script, i)
    case Mark(i, _, _) => HandleTrace(cfg, script, i)
    case Decide(i, e) => FailureTrace(cfg, script, i, e)
    case ClearAttempt(_) => [Completed]
    case OuterSuccess => [Completed]
    case OuterError(i, f) => Terminal(cfg, f, i, Marked(cfg, script, i + 1))
    case _ => []
  }

  function Rest(cfg: Config, script: Script, pc: PC): seq<Event>
    requires cfg.maxAttempts >= 1 && CoreOk(cfg, script, Core(pc))
  {
    (if pc.Emit? then [pc.e] else []) + CoreRest(cfg, script, Core(pc))
  }

  /** The dispatch is on the trace it would emit alone, and the tracker agrees with it. */
  ghost predicate ThreadOk(cfg: Config, t: Tracker, id: string, th: Thread)
    requires cfg.maxAttempts >= 1
  {
    && CoreOk(cfg, th.script, Core(th.pc))
    && TrackerIs(t, id, CountAt(Core(th.pc)), MarkAt(cfg, th.script, Core(th.pc)))
    && th.emitted + Rest(cfg, th.script, th.pc) == AloneTrace(cfg, th.script)
  }

  /** The dispatch stays on its trace through one tracker step or local move. */
  ghost predicate StaysOnTrace(cfg: Config, id: string, script: Script, pc: PC, t: Tracker, inflight: set<string>)
    requires cfg.maxAttempts >= 1 && CoreOk(cfg, script, Core(pc))
  {
    var (t', pc') := MiddlewareStep(cfg, id, script, pc, t);
    && CoreOk(cfg, script, Core(pc'))
    && TrackerOk(t', inflight)
    && TrackerMoves(t, t', id, CountAt(Core(pc')), MarkAt(cfg, script, Core(pc')))
    && Rest(cfg, script, pc') == Rest(cfg, script, pc)
  }

  ghost predicate TrackerAt(cfg: Config, id: string, script: Script, pc: PC, t: Tracker, inflight: set<string>) {
    && cfg.maxAttempts >= 1 && TrackerOk(t, inflight) && id in inflight
    && CoreOk(cfg, script, pc)
    && TrackerIs(t, id, CountAt(pc), MarkAt(cfg, script, pc))
  }

  lemma {:induction false} AttemptStaysOnTrace(cfg: Config, id: string, script: Script, pc: PC, t: Tracker,
                                               inflight: set<string>)
    requires TrackerAt(cfg, id, script, pc, t, inflight) && pc.Attempt?
    ensures StaysOnTrace(cfg, id, script, pc, t, inflight)
  {
    NextAttemptMoves(t, id, CountAt(pc), MarkAt(cfg, script, pc), inflight);
  }

  lemma {:induction false} MarkStaysOnTrace(cfg: Config, id: string, script: Script, pc: PC, t: Tracker,
                                            inflight: set<string>)
    requires TrackerAt(cfg, id, script, pc, t, inflight) && pc.Mark?
    ensures StaysOnTrace(cfg, id, script, pc, t, inflight)
  {
    MarkRejectedMoves(t, id, CountAt(pc), MarkAt(cfg, script, pc), inflight);
  }

  lemma {:induction false} SuccessStaysOnTrace(cfg: Config, id: string, script: Script, pc: PC, t: Tracker,
                                               inflight: set<string>)
    requires TrackerAt(cfg, id, script, pc, t, inflight) && (pc.ClearAttempt? || pc.OuterSuccess?)
    ensures StaysOnTrace(cfg, id, script, pc, t, inflight)
  {
    ClearMoves(t, id, inflight);
  }

  lemma {:induction false} ErrorStaysOnTrace(cfg: Config, id: string, script: Script, pc: PC, t: Tracker,
                                             inflight: set<string>)
    requires TrackerAt(cfg, id, script, pc, t, inflight) && pc.OuterError?
    ensures StaysOnTrace(cfg, id, script, pc, t, inflight)
  {
    ClearMoves(t, id, inflight);
  }

  lemma {:induction false} HandleStaysOnTrace(cfg: Config, id: string, script: Script, pc: PC, t: Tracker,
                                              inflight: set<string>)
    requires TrackerAt(cfg, id, script, pc, t, inflight) && pc.Handle?
    ensures StaysOnTrace(cfg, id, script, pc, t, inflight)
  {
  }

  lemma {:induction false} DecideStaysOnTrace(cfg: Config, id: string, script: Script, pc: PC, t: Tracker,
                                              inflight: set<string>)
    requires TrackerAt(cfg, id, script, pc, t, inflight) && pc.Decide?
    ensures StaysOnTrace(cfg, id, script, pc, t, inflight)
  {
  }

  lemma {:induction false} MiddlewareStaysOnTrace(cfg: Config, id: string, script: Script, pc: PC, t: Tracker,
                                                  inflight: set<string>)
    requires TrackerAt(cfg, id, script, pc, t, inflight) && !Recording(pc)
    ensures StaysOnTrace(cfg, id, script, pc, t, inflight)
  {
    if pc.Attempt? {
      AttemptStaysOnTrace(cfg, id, script, pc, t, inflight);
    } else if pc.Handle? {
      HandleStaysOnTrace(cfg, id, script, pc, t, inflight);
    } else if pc.Decide? {
      DecideStaysOnTrace(cfg, id, script, pc, t, inflight);
    } else if pc.Mark? {
      MarkStaysOnTrace(cfg, id, script, pc, t, inflight);
    } else if pc.ClearAttempt? || pc.OuterSuccess? {
      SuccessStaysOnTrace(cfg, id, script, pc, t, inflight);
    } else if pc.OuterError? {
      ErrorStaysOnTrace(cfg, id, script, pc, t, inflight);
    }
  }

  // ---- What reaches the store ----

  /** The emitted events whose recording has ended, one way or the other. */
  function Settled(th: Thread): seq<Event> {
    if th.pc.Saving? && th.emitted != [] then th.emitted[..|th.emitted| - 1] else th.emitted
  }

  ghost predicate SavesLast(th: Thread) {
    th.pc.Saving? ==> th.emitted != [] && th.emitted[|th.emitted| - 1] == th.pc.e
  }

  /** Under any faults: the dispatch added a subsequence of its settled events to its stream. */
  ghost predicate Kept(rec: RecState<Event>, id: string, th: Thread) {
    var stream := Events(rec.streams, id);
    && SavesLast(th)
    && th.base <= stream
    && Subsequence(Payloads(stream[|th.base|..]), Settled(th))
  }

  /** With a healthy store: it added exactly its settled events, and the cached version is right. */
  ghost predicate Exactly(rec: RecState<Event>, id: string, th: Thread) {
    var stream := Events(rec.streams, id);
    && SavesLast(th)
    && !th.pc.Resetting?
    && stream == th.base + Stamp(|th.base|, Settled(th))
    && (th.pc.Saving? ==> th.pc.version == |stream| + 1)
    && (id in rec.versions.entries ==>
          rec.versions.entries[id] == |stream| + (if th.pc.Saving? then 1 else 0))
  }

  lemma {:induction false} PayloadsAppend<E>(s: seq<Stored<E>>, x: Stored<E>)
    ensures Payloads(s + [x]) == Payloads(s) + [x.payload]
  {
    if s == [] {
      assert s + [x] == [x] && [x][1..] == [];
    } else {
      assert (s + [x])[1..] == s[1..] + [x];
      PayloadsAppend(s[1..], x);
    }
  }

  lemma {:induction false} StampAppend<E>(base: nat, ps: seq<E>, p: E)
    ensures Stamp(base, ps + [p]) == Stamp(base, ps) + [Stored(base + |ps| + 1, p)]
    decreases |ps|
  {
    if ps == [] {
      assert ps + [p] == [p] && [p][1..] == [];
    } else {
      assert (ps + [p])[1..] == ps[1..] + [p];
      StampAppend(base + 1, ps[1..], p);
    }
  }

  /** The thread after its recorder step. */
  function Recorded(th: Thread, pc: PC): Thread {
    th.(pc := pc, emitted := if th.pc.Emit? then th.emitted + [th.pc.e] else th.emitted)
  }

  /** No other command's stream changes, and its cached version stays or is evicted. */
  ghost predicate FramesOthers(rec: RecState<Event>, rec': RecState<Event>, id: string) {
    forall other :: other != id ==>
      Events(rec'.streams, other) == Events(rec.streams, other) && CacheFrames(rec.versions, rec'.versions, other)
  }

  lemma {:induction false} ResolveFrames(id: string, rec: RecState<Event>, loadFails: bool)
    requires Valid(rec.versions)
    ensures var rec' := Resolve(rec, id, loadFails).rec; Valid(rec'.versions) && FramesOthers(rec, rec', id)
  {
    ResolveEffect(rec, id, loadFails);
  }

  lemma {:induction false} SaveFrames(id: string, rec: RecState<Event>, version: nat, e: Event, fault: Fault)
    ensures var rec' := Save(rec, id, version, e, fault);
            rec'.versions == rec.versions && FramesOthers(rec, rec', id)
  {
  }

  lemma {:induction false} RecorderStepFrames(id: string, pc: PC, rec: RecState<Event>, fault: Fault)
    requires Valid(rec.versions)
    ensures var rec' := RecorderStep(id, pc, rec, fault).0; Valid(rec'.versions) && FramesOthers(rec, rec', id)
  {
    match pc
    case Emit(e, k) => ResolveFrames(id, rec, fault.LoadFails?);
    case Saving(e, v, k) => SaveFrames(id, rec, v, e, fault);
    case Resetting(k) => ResetEffect(rec, id);
    case _ =>
  }

  /** A recording under one fault, from `Emit` to what follows it. */
  function RecordedAtOnce(id: string, pc: PC, rec: RecState<Event>, fault: Fault): (RecState<Event>, PC) {
    var (r1, p1) := RecorderStep(id, pc, rec, fault);
    var (r2, p2) := RecorderStep(id, p1, r1, fault);
    RecorderStep(id, p2, r2, fault)
  }

  /** Uninterrupted, at most three recorder steps are the recorder's emit, whatever fails. */
  lemma {:induction false} RecordingIsOneEmit(id: string, e: Event, k: PC, rec: RecState<Event>, fault: Fault)
    requires !Recording(k)
    ensures RecordedAtOnce(id, PC.Emit(e, k), rec, fault) == (Recorders.Emit(rec, Emission(id, e, fault)).rec, k)
  {
  }

  lemma {:induction false} EmitKeeps(id: string, th: Thread, rec: RecState<Event>, fault: Fault)
    requires Valid(rec.versions) && th.pc.Emit? && !Recording(th.pc.k)
    requires Kept(rec, id, th)
    ensures var (rec', pc') := RecorderStep(id, th.pc, rec, fault);
            Kept(rec', id, Recorded(th, pc'))
  {
    ResolveEffect(rec, id, fault.LoadFails?);
    var added := Payloads(Events(rec.streams, id)[|th.base|..]);
    assert (th.emitted + [th.pc.e])[..|th.emitted|] == th.emitted;
    SubsequenceAppend(added, th.emitted, th.pc.e);
  }

  lemma {:induction false} SavingKeeps(id: string, th: Thread, rec: RecState<Event>, fault: Fault)
    requires th.pc.Saving? && !Recording(th.pc.k)
    requires Kept(rec, id, th)
    ensures var (rec', pc') := RecorderStep(id, th.pc, rec, fault);
            Kept(rec', id, Recorded(th, pc'))
  {
    var stream, stored := Events(rec.streams, id), Stored(th.pc.version, th.pc.e);
    var added := stream[|th.base|..];
    assert th.emitted == Settled(th) + [th.pc.e];
    SubsequenceAppend(Payloads(added), Settled(th), th.pc.e);
    PayloadsAppend(added, stored);
    assert (stream + [stored])[|th.base|..] == added + [stored];
  }

  lemma {:induction false} RecorderStepKeeps(id: string, th: Thread, rec: RecState<Event>, fault: Fault)
    requires Valid(rec.versions) && Recording(th.pc) && !Recording(Core(th.pc))
    requires Kept(rec, id, th)
    ensures var (rec', pc') := RecorderStep(id, th.pc, rec, fault);
            Kept(rec', id, Recorded(th, pc'))
  {
    match th.pc
    case Emit(e, k) => EmitKeeps(id, th, rec, fault);
    case Saving(e, v, k) => SavingKeeps(id, th, rec, fault);
    case Resetting(k) => ResetEffect(rec, id);
    case _ =>
  }

  lemma {:induction false} RecorderStepExact(id: string, th: Thread, rec: RecState<Event>)
    requires Valid(rec.versions) && Recording(th.pc) && !Recording(Core(th.pc))
    requires Exactly(rec, id, th)
    ensures var (rec', pc') := RecorderStep(id, th.pc, rec, Healthy);
            Exactly(rec', id, Recorded(th, pc'))
  {
    match th.pc
    case Emit(e, k) =>
      ResolveEffect(rec, id, false);
      assert (th.emitted + [e])[..|th.emitted|] == th.emitted;
    case Saving(e, v, k) =>
      assert th.emitted == Settled(th) + [e];
      StampAppend(|th.base|, Settled(th), e);
    case _ =>
  }

  // ---- Runs ----

  datatype Step =
    | Dispatch(id: string, script: Script)
    | Advance(id: string, fault: Fault)
    | Return(id: string)

  /** At most `limit` commands with distinct ids are in flight; a dispatch returns once it is done. */
  ghost predicate Enabled(s: Sys, step: Step) {
    match step
    case Dispatch(id, _) => id !in s.threads && |s.threads| < s.limit
    case Advance(id, _) => id in s.threads
    case Return(id) => id in s.threads && s.threads[id].pc.Done?
  }

  ghost function Next(cfg: Config, s: Sys, step: Step): Sys
    requires Enabled(s, step)
  {
    match step
    case Dispatch(id, script) =>
      s.(threads := s.threads[id := Thread(script, Start, [], Events(s.rec.streams, id))])
    case Advance(id, fault) => StepThread(cfg, s, id, fault)
    case Return(id) => s.(threads := s.threads - {id})
  }

  /** Every dispatch in flight is on the trace it would emit alone. */
  ghost predicate OnTrace(cfg: Config, s: Sys)
    requires cfg.maxAttempts >= 1
  {
    forall id :: id in s.threads ==> ThreadOk(cfg, s.tracker, id, s.threads[id])
  }

  ghost predicate AllKept(s: Sys) {
    forall id :: id in s.threads ==> Kept(s.rec, id, s.threads[id])
  }

  /** One command's stream is exact while it is in flight, and its cached version right otherwise. */
  ghost predicate ExactFor(s: Sys, id: string) {
    if id in s.threads then Exactly(s.rec, id, s.threads[id]) else !CacheWrong(s.rec, id)
  }

  /** Recording an event moves it from what is left to what was emitted. */
  lemma {:induction false} RecordedTrace(cfg: Config, id: string, th: Thread, rec: RecState<Event>, fault: Fault)
    requires cfg.maxAttempts >= 1 && Recording(th.pc) && CoreOk(cfg, th.script, Core(th.pc))
    requires !Recording(Core(th.pc))
    ensures var pc' := RecorderStep(id, th.pc, rec, fault).1;
            && Core(pc') == Core(th.pc)
            && Recorded(th, pc').emitted + Rest(cfg, th.script, pc') == th.emitted + Rest(cfg, th.script, th.pc)
  {
  }

  lemma {:induction false} CoreIsNotRecording(cfg: Config, script: Script, pc: PC)
    requires CoreOk(cfg, script, Core(pc))
    ensures !Recording(Core(pc))
  {
  }

  lemma {:induction false} RecordedThreadOk(cfg: Config, t: Tracker, id: string, th: Thread, rec: RecState<Event>,
                                            fault: Fault)
    requires cfg.maxAttempts >= 1 && ThreadOk(cfg, t, id, th) && Recording(th.pc)
    ensures ThreadOk(cfg, t, id, Recorded(th, RecorderStep(id, th.pc, rec, fault).1))
  {
    CoreIsNotRecording(cfg, th.script, th.pc);
    RecordedTrace(cfg, id, th, rec, fault);
  }

  lemma {:induction false} MovedThreadOk(cfg: Config, t: Tracker, id: string, th: Thread, inflight: set<string>)
    requires cfg.maxAttempts >= 1 && TrackerOk(t, inflight) && id in inflight
    requires ThreadOk(cfg, t, id, th) && !Recording(th.pc)
    ensures var (t', pc') := MiddlewareStep(cfg, id, th.script, th.pc, t);
            && TrackerOk(t', inflight)
            && ThreadOk(cfg, t', id, th.(pc := pc'))
            && forall other :: other != id ==> SameEntries(t, t', other)
  {
    MiddlewareStaysOnTrace(cfg, id, th.script, th.pc, t, inflight);
  }

  lemma {:induction false} MovedThreadKept(cfg: Config, t: Tracker, id: string, th: Thread, rec: RecState<Event>)
    requires !Recording(th.pc)
    ensures var pc' := MiddlewareStep(cfg, id, th.script, th.pc, t).1;
            && (Kept(rec, id, th) ==> Kept(rec, id, th.(pc := pc')))
            && (Exactly(rec, id, th) ==> Exactly(rec, id, th.(pc := pc')))
  {
  }

  lemma {:induction false} OtherThreadOk(cfg: Config, t: Tracker, t': Tracker, id: string, th: Thread)
    requires cfg.maxAttempts >= 1 && ThreadOk(cfg, t, id, th) && SameEntries(t, t', id)
    ensures ThreadOk(cfg, t', id, th)
  {
  }

  lemma {:induction false} OtherThreadKept(rec: RecState<Event>, rec': RecState<Event>, id: string, th: Thread)
    requires Events(rec'.streams, id) == Events(rec.streams, id) && CacheFrames(rec.versions, rec'.versions, id)
    ensures Kept(rec, id, th) ==> Kept(rec', id, th)
    ensures Exactly(rec, id, th) ==> Exactly(rec', id, th)
    ensures !CacheWrong(rec, id) ==> !CacheWrong(rec', id)
  {
  }

  lemma {:induction false} AdvancedThreadOk(cfg: Config, s: Sys, id: string, fault: Fault)
    requires cfg.maxAttempts >= 1 && id in s.threads
    requires TrackerOk(s.tracker, s.threads.Keys) && ThreadOk(cfg, s.tracker, id, s.threads[id])
    ensures var s' := StepThread(cfg, s, id, fault);
            && s'.threads.Keys == s.threads.Keys
            && TrackerOk(s'.tracker, s'.threads.Keys)
            && ThreadOk(cfg, s'.tracker, id, s'.threads[id])
            && forall other :: other != id ==> SameEntries(s.tracker, s'.tracker, other)
  {
    var th := s.threads[id];
    assert StepThread(cfg, s, id, fault).threads.Keys == s.threads.Keys;
    if Recording(th.pc) {
      RecordedThreadOk(cfg, s.tracker, id, th, s.rec, fault);
    } else {
      MovedThreadOk(cfg, s.tracker, id, th, s.threads.Keys);
    }
  }

  lemma {:induction false} AdvanceStaysOnTrace(cfg: Config, s: Sys, id: string, fault: Fault)
    requires cfg.maxAttempts >= 1 && id in s.threads
    requires TrackerOk(s.tracker, s.threads.Keys) && OnTrace(cfg, s)
    ensures var s' := StepThread(cfg, s, id, fault);
            TrackerOk(s'.tracker, s'.threads.Keys) && OnTrace(cfg, s')
  {
    AdvancedThreadOk(cfg, s, id, fault);
    var s' := StepThread(cfg, s, id, fault);
    forall other | other in s'.threads && other != id ensures ThreadOk(cfg, s'.tracker, other, s'.threads[other]) {
      OtherThreadOk(cfg, s.tracker, s'.tracker, other, s.threads[other]);
    }
  }

  lemma {:induction false} AdvancedThreadKept(cfg: Config, s: Sys, id: string, fault: Fault)
    requires id in s.threads && !Recording(Core(s.threads[id].pc))
    requires Valid(s.rec.versions) && Kept(s.rec, id, s.threads[id])
    ensures var s' := StepThread(cfg, s, id, fault);
            && Valid(s'.rec.versions)
            && Kept(s'.rec, id, s'.threads[id])
            && (fault.Healthy? && Exactly(s.rec, id, s.threads[id]) ==> Exactly(s'.rec, id, s'.threads[id]))
            && FramesOthers(s.rec, s'.rec, id)
  {
    var th := s.threads[id];
    if Recording(th.pc) {
      RecorderStepFrames(id, th.pc, s.rec, fault);
      RecorderStepKeeps(id, th, s.rec, fault);
      if fault.Healthy? && Exactly(s.rec, id, th) {
        RecorderStepExact(id, th, s.rec);
      }
    } else {
      MovedThreadKept(cfg, s.tracker, id, th, s.rec);
    }
  }

  lemma {:induction false} AdvanceKeepsStore(cfg: Config, s: Sys, id: string, fault: Fault)
    requires id in s.threads && !Recording(Core(s.threads[id].pc))
    requires Valid(s.rec.versions) && AllKept(s)
    ensures var s' := StepThread(cfg, s, id, fault);
            Valid(s'.rec.versions) && AllKept(s')
  {
    AdvancedThreadKept(cfg, s, id, fault);
    var s' := StepThread(cfg, s, id, fault);
    forall other | other != id && other in s.threads ensures Kept(s'.rec, other, s.threads[other]) {
      OtherThreadKept(s.rec, s'.rec, other, s.threads[other]);
    }
  }

  lemma {:induction false} OtherThreadExact(s: Sys, rec: RecState<Event>, id: string)
    requires ExactFor(s, id)
    requires Events(rec.streams, id) == Events(s.rec.streams, id) && CacheFrames(s.rec.versions, rec.versions, id)
    ensures if id in s.threads then Exactly(rec, id, s.threads[id]) else !CacheWrong(rec, id)
  {
    if id in s.threads {
      OtherThreadKept(s.rec, rec, id, s.threads[id]);
    }
  }

  /** A healthy step of the command, or any step of another, keeps the command's stream exact. */
  lemma {:induction false} AdvanceStaysExact(cfg: Config, s: Sys, id: string, moving: string, fault: Fault)
    requires moving in s.threads && !Recording(Core(s.threads[moving].pc))
    requires Valid(s.rec.versions) && Kept(s.rec, moving, s.threads[moving])
    requires ExactFor(s, id) && (moving == id ==> fault.Healthy?)
    ensures ExactFor(StepThread(cfg, s, moving, fault), id)
  {
    AdvancedThreadKept(cfg, s, moving, fault);
    if moving != id {
      OtherThreadExact(s, StepThread(cfg, s, moving, fault).rec, id);
    }
  }

  // ---- The theorems ----

  ghost predicate Inv(cfg: Config, s: Sys)
    requires cfg.maxAttempts >= 1
  {
    TrackerOk(s.tracker, s.threads.Keys) && OnTrace(cfg, s) && Valid(s.rec.versions) && AllKept(s)
  }

  lemma {:induction false} FreshThreadOk(cfg: Config, s: Sys, id: string, script: Script)
    requires cfg.maxAttempts >= 1 && TrackerOk(s.tracker, s.threads.Keys) && id !in s.threads
    ensures var th := Thread(script, Start, [], Events(s.rec.streams, id));
            && ThreadOk(cfg, s.tracker, id, th)
            && Kept(s.rec, id, th)
            && (!CacheWrong(s.rec, id) ==> Exactly(s.rec, id, th))
  {
    var base := Events(s.rec.streams, id);
    assert base[|base|..] == [];
    assert base + [] == base;
    assert [] + AloneTrace(cfg, script) == AloneTrace(cfg, script);
  }

  lemma {:induction false} DispatchStaysOnTrace(cfg: Config, s: Sys, id: string, script: Script)
    requires cfg.maxAttempts >= 1 && Enabled(s, Dispatch(id, script)) && |s.threads| < DEFAULT_CACHE_CAPACITY
    requires TrackerOk(s.tracker, s.threads.Keys) && OnTrace(cfg, s)
    ensures var s' := Next(cfg, s, Dispatch(id, script));
            TrackerOk(s'.tracker, s'.threads.Keys) && OnTrace(cfg, s')
  {
    var s' := Next(cfg, s, Dispatch(id, script));
    assert s'.threads.Keys == s.threads.Keys + {id};
    FreshThreadOk(cfg, s, id, script);
  }

  lemma {:induction false} DispatchKeepsStore(cfg: Config, s: Sys, id: string, script: Script)
    requires cfg.maxAttempts >= 1 && Enabled(s, Dispatch(id, script))
    requires TrackerOk(s.tracker, s.threads.Keys) && AllKept(s)
    ensures AllKept(Next(cfg, s, Dispatch(id, script)))
  {
    FreshThreadOk(cfg, s, id, script);
  }

  /** When a dispatch returns, the tracker has nothing left of it. */
  lemma {:induction false} ReturnStaysOnTrace(cfg: Config, s: Sys, id: string)
    requires cfg.maxAttempts >= 1 && Enabled(s, Return(id))
    requires TrackerOk(s.tracker, s.threads.Keys) && OnTrace(cfg, s)
    ensures var s' := Next(cfg, s, Return(id));
            TrackerOk(s'.tracker, s'.threads.Keys) && OnTrace(cfg, s')
  {
    var s' := Next(cfg, s, Return(id));
    assert s'.threads.Keys == s.threads.Keys - {id};
    assert ThreadOk(cfg, s.tracker, id, s.threads[id]);
  }

  lemma {:induction false} AdvanceKeepsInv(cfg: Config, s: Sys, id: string, fault: Fault)
    requires cfg.maxAttempts >= 1 && Inv(cfg, s) && id in s.threads
    ensures Inv(cfg, StepThread(cfg, s, id, fault))
  {
    assert ThreadOk(cfg, s.tracker, id, s.threads[id]);
    CoreIsNotRecording(cfg, s.threads[id].script, s.threads[id].pc);
    AdvanceStaysOnTrace(cfg, s, id, fault);
    AdvanceKeepsStore(cfg, s, id, fault);
  }

  lemma {:induction false} StepKeepsInv(cfg: Config, s: Sys, step: Step)
    requires cfg.maxAttempts >= 1 && Inv(cfg, s) && Enabled(s, step)
    requires step.Dispatch? ==> |s.threads| < DEFAULT_CACHE_CAPACITY
    ensures Inv(cfg, Next(cfg, s, step))
  {
    match step
    case Dispatch(id, script) =>
      DispatchStaysOnTrace(cfg, s, id, script);
      DispatchKeepsStore(cfg, s, id, script);
    case Advance(id, fault) => AdvanceKeepsInv(cfg, s, id, fault);
    case Return(id) => ReturnStaysOnTrace(cfg, s, id);
  }

  lemma {:induction false} StepKeepsLimit(cfg: Config, s: Sys, step: Step)
    requires Enabled(s, step)
    ensures Next(cfg, s, step).limit == s.limit && (step.Dispatch? ==> |s.threads| < s.limit)
  {
  }

  lemma {:induction false} StepStaysExact(cfg: Config, s: Sys, step: Step, id: string)
    requires cfg.maxAttempts >= 1 && Inv(cfg, s) && Enabled(s, step)
    requires ExactFor(s, id) && HealthyStepFor(step, id)
    ensures ExactFor(Next(cfg, s, step), id)
  {
    match step
    case Dispatch(started, script) => FreshThreadOk(cfg, s, started, script);
    case Advance(moving, fault) =>
      assert ThreadOk(cfg, s.tracker, moving, s.threads[moving]);
      CoreIsNotRecording(cfg, s.threads[moving].script, s.threads[moving].pc);
      AdvanceStaysExact(cfg, s, id, moving, fault);
    case Return(_) =>
  }

  ghost predicate Runs(cfg: Config, s: Sys, steps: seq<Step>)
    decreases |steps|
  {
    steps == [] || (Enabled(s, steps[0]) && Runs(cfg, Next(cfg, s, steps[0]), steps[1..]))
  }

  ghost function After(cfg: Config, s: Sys, steps: seq<Step>): Sys
    requires Runs(cfg, s, steps)
    decreases |steps|
  {
    if steps == [] then s else After(cfg, Next(cfg, s, steps[0]), steps[1..])
  }

  /** The recordings of one command meet no fault; those of others may. */
  ghost predicate HealthyStepFor(step: Step, id: string) {
    step.Advance? && step.id == id ==> step.fault.Healthy?
  }

  ghost predicate HealthyFor(steps: seq<Step>, id: string) {
    forall i :: 0 <= i < |steps| ==> HealthyStepFor(steps[i], id)
  }

  lemma {:induction false} RunKeepsInv(cfg: Config, s: Sys, steps: seq<Step>)
    requires cfg.maxAttempts >= 1 && Inv(cfg, s) && Runs(cfg, s, steps) && s.limit <= DEFAULT_CACHE_CAPACITY
    ensures Inv(cfg, After(cfg, s, steps))
    decreases |steps|
  {
    if steps != [] {
      StepKeepsLimit(cfg, s, steps[0]);
      StepKeepsInv(cfg, s, steps[0]);
      RunKeepsInv(cfg, Next(cfg, s, steps[0]), steps[1..]);
    }
  }

  lemma {:induction false} RunStaysExact(cfg: Config, s: Sys, steps: seq<Step>, id: string)
    requires cfg.maxAttempts >= 1 && Inv(cfg, s) && Runs(cfg, s, steps) && s.limit <= DEFAULT_CACHE_CAPACITY
    requires HealthyFor(steps, id) && ExactFor(s, id)
    ensures ExactFor(After(cfg, s, steps), id)
    decreases |steps|
  {
    if steps != [] {
      assert HealthyStepFor(steps[0], id);
      StepKeepsLimit(cfg, s, steps[0]);
      StepKeepsInv(cfg, s, steps[0]);
      StepStaysExact(cfg, s, steps[0], id);
      RunStaysExact(cfg, Next(cfg, s, steps[0]), steps[1..], id);
    }
  }

  /** A fresh pair of middlewares over any store, with a version cache of any capacity. */
  ghost predicate Initial(s: Sys) {
    s.tracker == NewTracker() && s.threads == map[] && s.rec.versions == Empty(s.rec.versions.cap)
  }

  lemma {:induction false} InitialInv(cfg: Config, s: Sys)
    requires cfg.maxAttempts >= 1 && Initial(s)
    ensures Inv(cfg, s) && forall id :: ExactFor(s, id)
  {
  }

  lemma {:induction false} DoneEmittedAll(cfg: Config, t: Tracker, id: string, th: Thread)
    requires cfg.maxAttempts >= 1 && ThreadOk(cfg, t, id, th)
    ensures th.emitted <= AloneTrace(cfg, th.script)
    ensures th.pc.Done? ==>
              && th.emitted == AloneTrace(cfg, th.script) && Settled(th) == th.emitted
              && id !in t.attempts.entries && id !in t.rejected.entries
  {
    if th.pc.Done? {
      assert th.emitted + [] == th.emitted;
    }
  }

  // ---- Every dispatch can finish ----

  /** The attempt a dispatch is at is one of those allowed. */
  predicate InRange(cfg: Config, pc: PC) {
    match pc
    case Attempt(i) => 1 <= i <= cfg.maxAttempts
    case Handle(i, _) => 1 <= i <= cfg.maxAttempts
    case Mark(i, _, _) => 1 <= i <= cfg.maxAttempts
    case Decide(i, _) => 1 <= i <= cfg.maxAttempts
    case _ => !Recording(pc)
  }

  /** The attempts still allowed, and then the place within one. */
  function CoreRank(cfg: Config, pc: PC): nat
    requires InRange(cfg, pc) && cfg.maxAttempts >= 1
  {
    match pc
    case Start => 4 * cfg.maxAttempts + 5
    case Attempt(i) => 4 * (cfg.maxAttempts - i) + 8
    case Handle(i, _) => 4 * (cfg.maxAttempts - i) + 7
    case Mark(i, _, _) => 4 * (cfg.maxAttempts - i) + 6
    case Decide(i, _) => 4 * (cfg.maxAttempts - i) + 5
    case ClearAttempt(_) => 3
    case OuterSuccess => 2
    case OuterError(_, _) => 2
    case _ => 0
  }

  /** The dispatch is done, or will be after so many more steps of its own. */
  ghost predicate Ends(cfg: Config, pc: PC, left: nat)
    requires cfg.maxAttempts >= 1
  {
    && InRange(cfg, Core(pc))
    && 4 * CoreRank(cfg, Core(pc)) +
       (match pc case Emit(_, _) => 3 case Saving(_, _, _) => 2 case Resetting(_) => 1 case _ => 0) <= left
  }

  lemma {:induction false} HandleGoesOn(cfg: Config, id: string, script: Script, pc: PC, t: Tracker, left: nat)
    requires cfg.maxAttempts >= 1 && Ends(cfg, pc, left) && (pc.Handle? || pc.Mark? || pc.Decide?)
    ensures left > 0 && Ends(cfg, MiddlewareStep(cfg, id, script, pc, t).1, left - 1)
  {
  }

  lemma {:induction false} MiddlewareGoesOn(cfg: Config, id: string, script: Script, pc: PC, t: Tracker, left: nat)
    requires cfg.maxAttempts >= 1 && Ends(cfg, pc, left) && !Recording(pc) && !pc.Done?
    ensures left > 0 && Ends(cfg, MiddlewareStep(cfg, id, script, pc, t).1, left - 1)
  {
    if pc.Handle? || pc.Mark? || pc.Decide? {
      HandleGoesOn(cfg, id, script, pc, t, left);
    }
  }

  lemma {:induction false} RecorderGoesOn(cfg: Config, id: string, pc: PC, rec: RecState<Event>, fault: Fault, left: nat)
    requires cfg.maxAttempts >= 1 && Ends(cfg, pc, left) && Recording(pc)
    ensures left > 0 && Ends(cfg, RecorderStep(id, pc, rec, fault).1, left - 1)
  {
  }

  /** Every step of a dispatch that is not done brings it nearer to its end, whatever the tracker, the cache
      and the store hold and whatever fails. */
  lemma {:induction false} StepGoesOn(cfg: Config, s: Sys, id: string, fault: Fault, left: nat)
    requires cfg.maxAttempts >= 1 && id in s.threads && Ends(cfg, s.threads[id].pc, left) && !s.threads[id].pc.Done?
    ensures var s' := StepThread(cfg, s, id, fault);
            left > 0 && id in s'.threads && Ends(cfg, s'.threads[id].pc, left - 1)
  {
    var th := s.threads[id];
    if Recording(th.pc) {
      RecorderGoesOn(cfg, id, th.pc, s.rec, fault, left);
    } else {
      MiddlewareGoesOn(cfg, id, th.script, th.pc, s.tracker, left);
    }
  }

  lemma {:induction false} RunStep(cfg: Config, s: Sys, step: Step, rest: seq<Step>)
    requires Enabled(s, step) && Runs(cfg, Next(cfg, s, step), rest)
    ensures Runs(cfg, s, [step] + rest) && After(cfg, s, [step] + rest) == After(cfg, Next(cfg, s, step), rest)
  {
    assert ([step] + rest)[1..] == rest;
  }

  /** n steps of one command under one fault. */
  function Advances(id: string, fault: Fault, n: nat): seq<Step> {
    if n == 0 then [] else [Advance(id, fault)] + Advances(id, fault, n - 1)
  }

  /** So many steps of its own take the dispatch to its end. */
  ghost predicate DoneAfter(cfg: Config, s: Sys, id: string, fault: Fault, n: nat) {
    var steps := Advances(id, fault, n);
    Runs(cfg, s, steps) && id in After(cfg, s, steps).threads && After(cfg, s, steps).threads[id].pc.Done?
  }

  lemma {:induction false} OneAdvance(cfg: Config, s: Sys, id: string, fault: Fault, n: nat)
    requires id in s.threads && DoneAfter(cfg, StepThread(cfg, s, id, fault), id, fault, n)
    ensures DoneAfter(cfg, s, id, fault, n + 1)
  {
    RunStep(cfg, s, Advance(id, fault), Advances(id, fault, n));
  }

  lemma {:induction false} FinishesWithin(cfg: Config, s: Sys, id: string, fault: Fault, left: nat) returns (n: nat)
    requires cfg.maxAttempts >= 1 && id in s.threads && Ends(cfg, s.threads[id].pc, left)
    ensures n <= left && DoneAfter(cfg, s, id, fault, n)
    decreases left
  {
    if s.threads[id].pc.Done? {
      n := 0;
    } else {
      StepGoesOn(cfg, s, id, fault, left);
      var m := FinishesWithin(cfg, StepThread(cfg, s, id, fault), id, fault, left - 1);
      OneAdvance(cfg, s, id, fault, m);
      n := m + 1;
    }
  }

  ghost predicate AllNear(cfg: Config, s: Sys)
    requires cfg.maxAttempts >= 1
  {
    forall id :: id in s.threads ==> Ends(cfg, s.threads[id].pc, 16 * cfg.maxAttempts + 23)
  }

  lemma {:induction false} StepKeepsAllNear(cfg: Config, s: Sys, step: Step)
    requires cfg.maxAttempts >= 1 && AllNear(cfg, s) && Enabled(s, step)
    ensures AllNear(cfg, Next(cfg, s, step))
  {
    if step.Advance? && !s.threads[step.id].pc.Done? {
      StepGoesOn(cfg, s, step.id, step.fault, 16 * cfg.maxAttempts + 23);
    }
  }

  lemma {:induction false} RunKeepsAllNear(cfg: Config, s: Sys, steps: seq<Step>)
    requires cfg.maxAttempts >= 1 && AllNear(cfg, s) && Runs(cfg, s, steps)
    ensures AllNear(cfg, After(cfg, s, steps))
    decreases |steps|
  {
    if steps != [] {
      StepKeepsAllNear(cfg, s, steps[0]);
      RunKeepsAllNear(cfg, Next(cfg, s, steps[0]), steps[1..]);
    }
  }

  /** However many commands there are and however their steps interleave, each dispatch finishes by its own
      steps alone from wherever the run has left it, whatever fails on the way: it needs at most 16 for each
      attempt allowed and 23 more. */
  lemma {:induction false} EveryDispatchCanFinish(cfg: Config, s: Sys, steps: seq<Step>, id: string, fault: Fault)
    returns (n: nat)
    requires cfg.maxAttempts >= 1 && s.threads == map[] && Runs(cfg, s, steps)
    requires id in After(cfg, s, steps).threads
    ensures n <= 16 * cfg.maxAttempts + 23 && DoneAfter(cfg, After(cfg, s, steps), id, fault, n)
  {
    RunKeepsAllNear(cfg, s, steps);
    n := FinishesWithin(cfg, After(cfg, s, steps), id, fault, 16 * cfg.maxAttempts + 23);
  }

  /** In every interleaving of at most 1024 commands, each dispatch has emitted a prefix of the
      trace it would emit alone, and the whole trace once it is done; the tracker then holds
      nothing of it. What it persisted is a subsequence of what it emitted, whatever failed. */
  lemma {:induction false} EveryDispatchRunsAsIfAlone(cfg: Config, s: Sys, steps: seq<Step>, id: string)
    requires cfg.maxAttempts >= 1 && Initial(s) && s.limit <= DEFAULT_CACHE_CAPACITY && Runs(cfg, s, steps)
    requires id in After(cfg, s, steps).threads
    ensures var s' := After(cfg, s, steps);
            var th := s'.threads[id];
            var stream := Events(s'.rec.streams, id);
            && th.emitted <= AloneTrace(cfg, th.script)
            && th.base <= stream
            && Subsequence(Payloads(stream[|th.base|..]), Settled(th))
            && (th.pc.Done? ==> th.emitted == AloneTrace(cfg, th.script) && Settled(th) == th.emitted)
            && (th.pc.Done? ==> id !in s'.tracker.attempts.entries && id !in s'.tracker.rejected.entries)
  {
    InitialInv(cfg, s);
    RunKeepsInv(cfg, s, steps);
    var s' := After(cfg, s, steps);
    DoneEmittedAll(cfg, s'.tracker, id, s'.threads[id]);
    assert Kept(s'.rec, id, s'.threads[id]);
  }

  /** So each finished dispatch of every interleaving made the attempts its own script calls for: one for
      each error that is retried, up to the limit and until a cancelled wait, and its last event is that
      of its last attempt. */
  lemma {:induction false} EveryDispatchFollowsItsScript(cfg: Config, s: Sys, steps: seq<Step>, id: string) returns (k: nat)
    requires cfg.maxAttempts >= 1 && Initial(s) && s.limit <= DEFAULT_CACHE_CAPACITY && Runs(cfg, s, steps)
    requires id in After(cfg, s, steps).threads && After(cfg, s, steps).threads[id].pc.Done?
    ensures var th := After(cfg, s, steps).threads[id];
            LastAttempt(cfg, th.script, k) && TraceOfAttempts(cfg, th.script, k, th.emitted)
  {
    EveryDispatchRunsAsIfAlone(cfg, s, steps, id);
    var script := After(cfg, s, steps).threads[id].script;
    k := FindLastAttempt(cfg, script, 1);
    AloneTraceFollowsTheScript(cfg, script, k);
  }

  /** In a configuration that does not retry rejections and does not report exhaustion as one, every
      finished dispatch of every interleaving has emitted a well-formed lifecycle. */
  lemma {:induction false} EveryDispatchEmitsALifecycle(cfg: Config, s: Sys, steps: seq<Step>, id: string)
    requires cfg.maxAttempts >= 1 && Initial(s) && s.limit <= DEFAULT_CACHE_CAPACITY && Runs(cfg, s, steps) && Sound(cfg)
    requires id in After(cfg, s, steps).threads && After(cfg, s, steps).threads[id].pc.Done?
    ensures IsLifecycle(After(cfg, s, steps).threads[id].emitted)
  {
    EveryDispatchRunsAsIfAlone(cfg, s, steps, id);
    SoundConfigGivesLifecycle(cfg, After(cfg, s, steps).threads[id].script);
  }

  /** If none of its own recordings meets a fault, the stream of a command is at every moment exactly
      what it has recorded so far, and its whole trace once it is done, stamped with consecutive
      versions: whatever fails for the others, for every capacity of the version cache. */
  lemma {:induction false} HealthyStoreHoldsTheTrace(cfg: Config, s: Sys, steps: seq<Step>, id: string)
    requires cfg.maxAttempts >= 1 && Initial(s) && s.limit <= DEFAULT_CACHE_CAPACITY
    requires Runs(cfg, s, steps) && HealthyFor(steps, id)
    requires id in After(cfg, s, steps).threads
    ensures var s' := After(cfg, s, steps);
            var th := s'.threads[id];
            && Events(s'.rec.streams, id) == th.base + Stamp(|th.base|, Settled(th))
            && (th.pc.Done? ==> Settled(th) == AloneTrace(cfg, th.script))
  {
    InitialInv(cfg, s);
    RunKeepsInv(cfg, s, steps);
    RunStaysExact(cfg, s, steps, id);
    var s' := After(cfg, s, steps);
    assert ThreadOk(cfg, s'.tracker, id, s'.threads[id]);
    DoneEmittedAll(cfg, s'.tracker, id, s'.threads[id]);
  }
}

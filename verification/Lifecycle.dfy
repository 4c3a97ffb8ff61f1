/**
 The event trace of one command dispatched through the outer lifecycle middleware, the
 retry middleware and the attempt middleware (commandlifecycle/middleware.go,
 middleware/retry.go), stated without the shared attempt tracker.
 */
module LifecycleTraces {

  datatype Family = Rejection | Conflict | Transient | Corruption | Infrastructure | Orchestration

  datatype Event =
    | Received
    | Failed(attempt: nat)
    | Rejected(attempt: nat)
    | Retried(attempt: nat)
    | DeadLettered(attempts: nat)
    | Completed

  /** `detail` stands for all that tells errors of one family apart. */
  datatype Error = Error(family: Family, detail: string)

  /** Rejection families of the recorder; `IsRetryable` and attempt limit of the retry layer. */
  datatype Config = Config(rejections: set<Family>, retryable: Error -> bool, maxAttempts: nat)

  datatype Outcome = Succeeds | Fails(error: Error)

  /** What the handler answers at each attempt, and whether the context is canceled in the
      backoff that follows it. */
  datatype Script = Script(outcome: nat -> Outcome, canceled: nat -> bool)

  predicate RejectedAt(cfg: Config, script: Script, i: nat) {
    script.outcome(i).Fails? && script.outcome(i).error.family in cfg.rejections
  }

  /** Some attempt before the i-th was rejected. */
  predicate Marked(cfg: Config, script: Script, i: nat) {
    i > 1 && (RejectedAt(cfg, script, i - 1) || Marked(cfg, script, i - 1))
  }

  predicate Retries(cfg: Config, script: Script, i: nat, e: Error) {
    cfg.retryable(e) && i < cfg.maxAttempts && !script.canceled(i)
  }

  /** The error the retry layer hands out: exhaustion and cancellation wrap it as Infrastructure. */
  function Returned(cfg: Config, e: Error): Family {
    if cfg.retryable(e) then Infrastructure else e.family
  }

  /** The outer middleware's events for an error after `attempts` attempts. */
  function Terminal(cfg: Config, f: Family, attempts: nat, marked: bool): seq<Event> {
    if marked then [] else if f in cfg.rejections then [Rejected(attempts)] else [DeadLettered(attempts)]
  }

  /** Events from the i-th call of the handler on. */
  function HandleTrace(cfg: Config, script: Script, i: nat): seq<Event>
    requires 1 <= i <= cfg.maxAttempts
    decreases cfg.maxAttempts - i, 1
  {
    match script.outcome(i)
    case Succeeds => [Completed]
    case Fails(e) =>
      [if e.family in cfg.rejections then Rejected(i) else Failed(i)] + FailureTrace(cfg, script, i, e)
  }

  /** Events after the i-th attempt has recorded its failure. */
  function FailureTrace(cfg: Config, script: Script, i: nat, e: Error): seq<Event>
    requires 1 <= i <= cfg.maxAttempts
    decreases cfg.maxAttempts - i, 0
  {
    if Retries(cfg, script, i, e) then [Retried(i)] + HandleTrace(cfg, script, i + 1)
    else Terminal(cfg, Returned(cfg, e), i, Marked(cfg, script, i + 1))
  }

  /** Everything a dispatch emits when it runs alone. */
  function AloneTrace(cfg: Config, script: Script): seq<Event>
    requires cfg.maxAttempts >= 1
  {
    [Received] + HandleTrace(cfg, script, 1)
  }

  /** The handler answers success at the i-th attempt or at one the retry layer still makes. */
  predicate Succeeded(cfg: Config, script: Script, i: nat)
    requires 1 <= i <= cfg.maxAttempts
    decreases cfg.maxAttempts - i
  {
    match script.outcome(i)
    case Succeeds => true
    case Fails(e) => Retries(cfg, script, i, e) && Succeeded(cfg, script, i + 1)
  }

  // ---- The trace, from the script alone ----

  /** No attempt follows the i-th: it succeeds, fails with an error that is not retried, is the last one
      allowed, or the wait after it is cancelled. */
  predicate Final(cfg: Config, script: Script, i: nat) {
    script.outcome(i).Succeeds? || !cfg.retryable(script.outcome(i).error) || i == cfg.maxAttempts || script.canceled(i)
  }

  /** The k-th is the first attempt that no other follows. */
  ghost predicate LastAttempt(cfg: Config, script: Script, k: nat) {
    1 <= k <= cfg.maxAttempts && Final(cfg, script, k) && forall i :: 1 <= i < k ==> !Final(cfg, script, i)
  }

  ghost predicate SomeRejected(cfg: Config, script: Script, k: nat) {
    exists i :: 1 <= i <= k && script.outcome(i).Fails? && script.outcome(i).error.family in cfg.rejections
  }

  /** The events of the k-th and last attempt. */
  ghost function Ending(cfg: Config, script: Script, k: nat): seq<Event> {
    match script.outcome(k)
    case Succeeds => [Completed]
    case Fails(e) =>
      if e.family in cfg.rejections then [Rejected(k)]
      else if SomeRejected(cfg, script, k) then [Failed(k)]
      else if (if cfg.retryable(e) then Infrastructure else e.family) in cfg.rejections then [Failed(k), Rejected(k)]
      else [Failed(k), DeadLettered(k)]
  }

  /** The two events of the i-th attempt if another follows it. */
  ghost predicate Round(cfg: Config, script: Script, i: nat, failure: Event, retry: Event) {
    && script.outcome(i).Fails?
    && failure == (if script.outcome(i).error.family in cfg.rejections then Rejected(i) else Failed(i))
    && retry == Retried(i)
  }

  /** Received; for each attempt before the k-th its failure and its retry, numbered; then the ending. */
  ghost predicate TraceOfAttempts(cfg: Config, script: Script, k: nat, t: seq<Event>) {
    && 1 <= k && |t| >= 2 * k && t[0] == Received
    && (forall i :: 1 <= i < k ==> Round(cfg, script, i, t[2 * i - 1], t[2 * i]))
    && t[2 * k - 1..] == Ending(cfg, script, k)
  }

  lemma {:induction false} FindLastAttempt(cfg: Config, script: Script, i: nat) returns (k: nat)
    requires 1 <= i <= cfg.maxAttempts && forall j :: 1 <= j < i ==> !Final(cfg, script, j)
    ensures LastAttempt(cfg, script, k)
    decreases cfg.maxAttempts - i
  {
    if Final(cfg, script, i) {
      k := i;
    } else {
      k := FindLastAttempt(cfg, script, i + 1);
    }
  }

  lemma {:induction false} MarkedMeans(cfg: Config, script: Script, k: nat)
    ensures Marked(cfg, script, k + 1) <==> SomeRejected(cfg, script, k)
  {
    if k > 0 {
      MarkedMeans(cfg, script, k - 1);
      if RejectedAt(cfg, script, k) {
        assert script.outcome(k).Fails? && script.outcome(k).error.family in cfg.rejections;
      }
    }
  }

  /** One round is taken off the front of the trace. */
  lemma {:induction false} OneRound(cfg: Config, script: Script, i: nat)
    requires 1 <= i <= cfg.maxAttempts && !Final(cfg, script, i)
    ensures i < cfg.maxAttempts && script.outcome(i).Fails?
    ensures HandleTrace(cfg, script, i) ==
            [if script.outcome(i).error.family in cfg.rejections then Rejected(i) else Failed(i), Retried(i)]
            + HandleTrace(cfg, script, i + 1)
    ensures Succeeded(cfg, script, i) <==> Succeeded(cfg, script, i + 1)
  {
    var e := script.outcome(i).error;
    var first := if e.family in cfg.rejections then Rejected(i) else Failed(i);
    assert FailureTrace(cfg, script, i, e) == [Retried(i)] + HandleTrace(cfg, script, i + 1);
    assert [first] + ([Retried(i)] + HandleTrace(cfg, script, i + 1)) == [first, Retried(i)] + HandleTrace(cfg, script, i + 1);
  }

  lemma {:induction false} LastRound(cfg: Config, script: Script, k: nat)
    requires 1 <= k <= cfg.maxAttempts && Final(cfg, script, k)
    ensures HandleTrace(cfg, script, k) == Ending(cfg, script, k)
    ensures Succeeded(cfg, script, k) <==> script.outcome(k).Succeeds?
  {
    MarkedMeans(cfg, script, k);
    if script.outcome(k).Fails? {
      var e := script.outcome(k).error;
      if e.family in cfg.rejections {
        assert SomeRejected(cfg, script, k);
      }
      assert FailureTrace(cfg, script, k, e) == Terminal(cfg, Returned(cfg, e), k, Marked(cfg, script, k + 1));
    }
  }

  lemma {:induction false} RoundsUpTo(cfg: Config, script: Script, i: nat, k: nat)
    requires LastAttempt(cfg, script, k) && 1 <= i <= k
    ensures var t := HandleTrace(cfg, script, i);
            && |t| > 2 * (k - i) && t[2 * (k - i)..] == Ending(cfg, script, k)
            && (Succeeded(cfg, script, i) <==> script.outcome(k).Succeeds?)
    decreases k - i
  {
    if i == k {
      LastRound(cfg, script, k);
    } else {
      OneRound(cfg, script, i);
      RoundsUpTo(cfg, script, i + 1, k);
      var t, rest := HandleTrace(cfg, script, i), HandleTrace(cfg, script, i + 1);
      assert t[2..] == rest;
      assert t[2 * (k - i)..] == rest[2 * (k - i - 1)..];
    }
  }

  lemma {:induction false} RoundAt(cfg: Config, script: Script, i: nat, j: nat, k: nat)
    requires LastAttempt(cfg, script, k) && 1 <= i <= j < k
    ensures var t, at := HandleTrace(cfg, script, i), 2 * (j - i);
            |t| > at + 1 && Round(cfg, script, j, t[at], t[at + 1])
    decreases j - i
  {
    OneRound(cfg, script, i);
    if i < j {
      RoundAt(cfg, script, i + 1, j, k);
      var t, rest, at := HandleTrace(cfg, script, i), HandleTrace(cfg, script, i + 1), 2 * (j - i);
      assert t[2..] == rest;
      assert t[at] == rest[at - 2] && t[at + 1] == rest[at - 1];
    }
  }

  lemma {:induction false} AloneRound(cfg: Config, script: Script, i: nat, k: nat)
    requires LastAttempt(cfg, script, k) && 1 <= i < k
    ensures var t := AloneTrace(cfg, script); |t| > 2 * i && Round(cfg, script, i, t[2 * i - 1], t[2 * i])
  {
    RoundAt(cfg, script, 1, i, k);
    var t, rest := AloneTrace(cfg, script), HandleTrace(cfg, script, 1);
    assert t[2 * i - 1] == rest[2 * i - 2] && t[2 * i] == rest[2 * i - 1];
  }

  /** A dispatch makes attempts up to the first that no other follows, retries exactly those before it,
      and ends as that one ends. */
  lemma {:induction false} AloneTraceFollowsTheScript(cfg: Config, script: Script, k: nat)
    requires LastAttempt(cfg, script, k)
    ensures TraceOfAttempts(cfg, script, k, AloneTrace(cfg, script))
    ensures Succeeded(cfg, script, 1) <==> script.outcome(k).Succeeds?
  {
    var t := AloneTrace(cfg, script);
    RoundsUpTo(cfg, script, 1, k);
    assert t[2 * k - 1..] == HandleTrace(cfg, script, 1)[2 * (k - 1)..];
    forall i | 1 <= i < k ensures Round(cfg, script, i, t[2 * i - 1], t[2 * i]) {
      AloneRound(cfg, script, i, k);
    }
  }

  // ---- Well-formed lifecycles ----

  /** (failed i, retried i)* then completed, or failed n, dead-lettered n, or rejected n. */
  predicate LifecycleFrom(t: seq<Event>, i: nat)
    decreases |t|
  {
    || t == [Completed]
    || t == [Rejected(i)]
    || t == [Failed(i), DeadLettered(i)]
    || (|t| > 2 && t[..2] == [Failed(i), Retried(i)] && LifecycleFrom(t[2..], i + 1))
  }

  predicate IsLifecycle(t: seq<Event>) {
    t != [] && t[0] == Received && LifecycleFrom(t[1..], 1)
  }

  /** Rejections are not retried, and exhausting the attempts is not itself a rejection. */
  ghost predicate Sound(cfg: Config) {
    forall e :: cfg.retryable(e) ==>
      && (cfg.maxAttempts >= 2 ==> e.family !in cfg.rejections)
      && (Infrastructure in cfg.rejections ==> e.family in cfg.rejections)
  }

  lemma {:induction false} SoundHandleTrace(cfg: Config, script: Script, i: nat)
    requires Sound(cfg) && 1 <= i <= cfg.maxAttempts && !Marked(cfg, script, i)
    ensures LifecycleFrom(HandleTrace(cfg, script, i), i)
    decreases cfg.maxAttempts - i
  {
    match script.outcome(i)
    case Succeeds =>
    case Fails(e) =>
      var t := HandleTrace(cfg, script, i);
      assert cfg.maxAttempts >= 2 && e.family in cfg.rejections ==> !cfg.retryable(e);
      assert Marked(cfg, script, i + 1) <==> e.family in cfg.rejections;
      if Retries(cfg, script, i, e) {
        SoundHandleTrace(cfg, script, i + 1);
        assert HandleTrace(cfg, script, i + 1) != [];
        assert t == [Failed(i)] + FailureTrace(cfg, script, i, e);
        assert t == [Failed(i), Retried(i)] + HandleTrace(cfg, script, i + 1);
        assert t[2..] == HandleTrace(cfg, script, i + 1);
      } else if e.family in cfg.rejections {
        assert t == [Rejected(i)];
      } else {
        assert FailureTrace(cfg, script, i, e) == [DeadLettered(i)];
        assert t == [Failed(i), DeadLettered(i)];
      }
  }

  /** A sound configuration gives every dispatch a well-formed lifecycle. */
  lemma {:induction false} SoundConfigGivesLifecycle(cfg: Config, script: Script)
    requires Sound(cfg) && cfg.maxAttempts >= 1
    ensures IsLifecycle(AloneTrace(cfg, script))
  {
    SoundHandleTrace(cfg, script, 1);
    assert AloneTrace(cfg, script)[1..] == HandleTrace(cfg, script, 1);
  }

  /** Any other configuration has a dispatch whose trace is malformed: a retried rejection keeps
      its mark and suppresses the dead letter, and an exhausted command is reported rejected. */
  lemma {:induction false} UnsoundConfigBreaksLifecycle(cfg: Config) returns (script: Script)
    requires !Sound(cfg) && cfg.maxAttempts >= 1
    ensures !IsLifecycle(AloneTrace(cfg, script))
  {
    var e :| cfg.retryable(e) && ((cfg.maxAttempts >= 2 && e.family in cfg.rejections) ||
                                  (Infrastructure in cfg.rejections && e.family !in cfg.rejections));
    if e.family in cfg.rejections {
      script := Script(i => if i == 1 then Fails(e) else Succeeds, _ => false);
      var t := AloneTrace(cfg, script);
      assert HandleTrace(cfg, script, 2) == [Completed];
      assert HandleTrace(cfg, script, 1) == [Rejected(1), Retried(1), Completed];
      assert t[1..] == [Rejected(1), Retried(1), Completed];
      assert t[1..][..2][0] == Rejected(1);
    } else {
      script := Script(_ => Fails(e), _ => true);
      var t := AloneTrace(cfg, script);
      assert !Marked(cfg, script, 2) by { assert !RejectedAt(cfg, script, 1) && !Marked(cfg, script, 1); }
      assert FailureTrace(cfg, script, 1, e) == [Rejected(1)];
      assert HandleTrace(cfg, script, 1) == [Failed(1), Rejected(1)];
      assert t[1..] == [Failed(1), Rejected(1)];
      assert t[1..][1] == Rejected(1);
    }
  }

  const VERSION_CONFLICT := Error(Conflict, "event.version_conflict")

  /** The override that CommandRetry's comment suggests: those conflicts that wrap a version conflict
      are retried too. */
  function RetryConflicts(rejections: set<Family>, wraps: Error -> bool, maxAttempts: nat): Config {
    Config(rejections, (e: Error) => e.family == Transient || (e.family == Conflict && wraps(e)), maxAttempts)
  }

  /** That override is sound exactly when neither conflicts nor transient errors are recorded as
      rejections, and exhausting the attempts is not one either. */
  lemma {:induction false} RetryConflictsIsSoundExactlyWhen(rejections: set<Family>, wraps: Error -> bool, maxAttempts: nat)
    requires maxAttempts >= 2 && wraps(VERSION_CONFLICT)
    ensures Sound(RetryConflicts(rejections, wraps, maxAttempts)) <==> rejections !! {Transient, Conflict, Infrastructure}
  {
    var cfg := RetryConflicts(rejections, wraps, maxAttempts);
    assert cfg.retryable(VERSION_CONFLICT) && cfg.retryable(Error(Transient, ""));
  }

  /** A rejected command that is retried and then exhausted gets no terminal event at all. */
  lemma {:induction false} RetriedRejectionLosesItsDeadLetter()
    ensures var cfg := RetryConflicts({Rejection, Conflict}, e => e == VERSION_CONFLICT, 2);
            var script := Script(i => Fails(if i == 1 then VERSION_CONFLICT else Error(Transient, "")), _ => false);
            AloneTrace(cfg, script) == [Received, Rejected(1), Retried(1), Failed(2)]
  {
    var cfg := RetryConflicts({Rejection, Conflict}, e => e == VERSION_CONFLICT, 2);
    var script := Script(i => Fails(if i == 1 then VERSION_CONFLICT else Error(Transient, "")), _ => false);
    assert RejectedAt(cfg, script, 1);
    assert Marked(cfg, script, 3);
    assert FailureTrace(cfg, script, 2, Error(Transient, "")) == [];
    assert HandleTrace(cfg, script, 2) == [Failed(2)];
    assert FailureTrace(cfg, script, 1, VERSION_CONFLICT) == [Retried(1), Failed(2)];
    assert HandleTrace(cfg, script, 1) == [Rejected(1), Retried(1), Failed(2)];
  }
}

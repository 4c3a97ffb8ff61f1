/**
 Leases taken by concurrent MySQL transactions (claiming/rich.go, claiming/mysql.go): the claims of
 `Leases` are no longer atomic. A transaction looks for free rows by a clock that is old by the time
 it commits, renewals and other writers wait for the rows it has locked, and a worker holds its
 lease from the commit on.
 */
module LeaseTransactions {
  import opened Basics
  import opened ClaimTables
  import L = Leases
  import T = ClaimTransactions

  datatype Sys = Sys(txs: T.Sys, granted: map<(string, Key), int>, clock: int)

  datatype Step =
    | Transact(step: T.Step)
    | Renew(worker: string, key: Key, now: int, newUntil: int)
    | Write(t: Table)

  function Start(t: Table, clock: int): Sys {
    Sys(T.Start(t), map[], clock)
  }

  /** The committed leases. */
  function View(sys: Sys): L.Sys {
    L.Sys(sys.txs.t, sys.granted, sys.clock)
  }

  /** What a step does to the committed leases, if anything. */
  function LeaseStep(sys: Sys, step: Step): Option<L.Step> {
    match step
    case Transact(Commit(id)) =>
      if id in sys.txs.open && sys.txs.open[id].stamped.Some?
      then Some(L.Claim(sys.txs.open[id].p, sys.txs.open[id].stamped.value)) else None
    case Transact(_) => None
    case Renew(worker, key, now, newUntil) => Some(L.Renew(worker, key, now, newUntil))
    case Write(t) => Some(L.Write(t))
  }

  /** What it does to the transactions: renewals and writers change unlocked rows. */
  function TxStep(s: Spec, sys: Sys, step: Step): T.Step {
    match step
    case Transact(tx) => tx
    case Renew(worker, key, now, newUntil) =>
      T.WriteUnlocked(L.Next(s, View(sys), L.Renew(worker, key, now, newUntil)).t)
    case Write(t) => T.WriteUnlocked(t)
  }

  ghost predicate Enabled(s: Spec, sys: Sys, step: Step) {
    match step
    case Transact(tx) =>
      && !tx.WriteUnlocked? && T.Enabled(s, sys.txs, tx)
      && (tx.LockRows? ==> Owned(s, tx.p))
    case Renew(_, _, _, _) => T.Enabled(s, sys.txs, TxStep(s, sys, step))
    case Write(t) => T.MayWrite(s, sys.txs, t) && L.LeavesLeases(View(sys), t)
  }

  ghost function Next(s: Spec, sys: Sys, step: Step): Sys
    requires Enabled(s, sys, step)
  {
    var txs := T.Next(s, sys.txs, TxStep(s, sys, step));
    match LeaseStep(sys, step)
    case None => Sys(txs, sys.granted, sys.clock)
    case Some(lease) =>
      var l := L.Next(s, View(sys), lease);
      Sys(txs, l.granted, l.clock)
  }

  ghost predicate Inv(s: Spec, t0: Table, sys: Sys) {
    && T.Inv(s, t0, sys.txs)
    && L.Inv(View(sys))
    && AllOwned(s, sys.txs.open)
  }

  /** A renewal has to wait only for a transaction that has locked its row. */
  lemma {:induction false} RenewalWaitsOnlyForItsRow(s: Spec, t0: Table, sys: Sys, worker: string, key: Key, now: int,
                                                    newUntil: int)
    requires T.Inv(s, t0, sys.txs) && key !in T.LockedBy(sys.txs.open)
    ensures Enabled(s, sys, Renew(worker, key, now, newUntil))
  {
    var t := L.Next(s, View(sys), L.Renew(worker, key, now, newUntil)).t;
    forall id | id in sys.txs.open ensures IdsIdentify(s, sys.txs.open[id].p, t) {
      assert T.TxOk(s, sys.txs.t, sys.txs.open[id]);
      assert t.Keys == sys.txs.t.Keys;
    }
  }

  /** The committed leases make the step of the lease system, or stay as they are. */
  lemma {:induction false} StepIsALeaseStep(s: Spec, t0: Table, sys: Sys, step: Step)
    requires Inv(s, t0, sys) && Enabled(s, sys, step)
    ensures match LeaseStep(sys, step)
            case None => View(Next(s, sys, step)) == View(sys)
            case Some(lease) => L.Enabled(s, View(sys), lease) && View(Next(s, sys, step)) == L.Next(s, View(sys), lease)
  {
    match step
    case Transact(Commit(id)) => assert T.TxOk(s, sys.txs.t, sys.txs.open[id]);
    case _ =>
  }

  lemma {:induction false} LeaseStepKeepsInv(s: Spec, sys: L.Sys, step: L.Step)
    requires L.Inv(sys) && L.Enabled(s, sys, step)
    ensures L.Inv(L.Next(s, sys, step))
  {
    match step
    case Claim(p, picked) => L.ClaimKeepsInv(s, sys, p, picked);
    case Renew(worker, key, now, newUntil) => L.RenewKeepsInv(s, sys, worker, key, now, newUntil);
    case Write(t) => L.WriteKeepsInv(s, sys, t);
  }

  ghost predicate AllOwned(s: Spec, open: map<nat, T.Tx>) {
    forall id :: id in open ==> Owned(s, open[id].p)
  }

  lemma {:induction false} TxStepKeepsOwned(s: Spec, txs: T.Sys, step: T.Step)
    requires AllOwned(s, txs.open) && T.Enabled(s, txs, step) && (step.LockRows? ==> Owned(s, step.p))
    ensures AllOwned(s, T.Next(s, txs, step).open)
  {
  }

  lemma {:induction false} StepKeepsInv(s: Spec, t0: Table, sys: Sys, step: Step)
    requires Inv(s, t0, sys) && Enabled(s, sys, step)
    ensures Inv(s, t0, Next(s, sys, step))
  {
    T.StepKeepsInv(s, t0, sys.txs, TxStep(s, sys, step));
    StepIsALeaseStep(s, t0, sys, step);
    TxStepKeepsOwned(s, sys.txs, TxStep(s, sys, step));
    if LeaseStep(sys, step).Some? {
      LeaseStepKeepsInv(s, View(sys), LeaseStep(sys, step).value);
    }
  }

  ghost predicate Follows(s: Spec, sys: Sys, steps: seq<Step>)
    decreases |steps|
  {
    steps == [] || (Enabled(s, sys, steps[0]) && Follows(s, Next(s, sys, steps[0]), steps[1..]))
  }

  ghost function After(s: Spec, sys: Sys, steps: seq<Step>): Sys
    requires Follows(s, sys, steps)
    decreases |steps|
  {
    if steps == [] then sys else After(s, Next(s, sys, steps[0]), steps[1..])
  }

  /** The lease steps of a run, in commit order. */
  ghost function LeaseSteps(s: Spec, sys: Sys, steps: seq<Step>): seq<L.Step>
    requires Follows(s, sys, steps)
    decreases |steps|
  {
    if steps == [] then []
    else
      var rest := LeaseSteps(s, Next(s, sys, steps[0]), steps[1..]);
      match LeaseStep(sys, steps[0])
      case None => rest
      case Some(lease) => [lease] + rest
  }

  lemma {:induction false} RunIsALeaseRun(s: Spec, t0: Table, sys: Sys, steps: seq<Step>)
    requires Inv(s, t0, sys) && Follows(s, sys, steps)
    ensures L.Follows(s, View(sys), LeaseSteps(s, sys, steps))
    ensures View(After(s, sys, steps)) == L.After(s, View(sys), LeaseSteps(s, sys, steps))
    decreases |steps|
  {
    if steps != [] {
      var next := Next(s, sys, steps[0]);
      StepKeepsInv(s, t0, sys, steps[0]);
      StepIsALeaseStep(s, t0, sys, steps[0]);
      RunIsALeaseRun(s, t0, next, steps[1..]);
      var rest := LeaseSteps(s, next, steps[1..]);
      if LeaseStep(sys, steps[0]).Some? {
        assert ([LeaseStep(sys, steps[0]).value] + rest)[1..] == rest;
      }
    }
  }

  /** Every interleaving of transactions, renewals and writers is, on the committed table, a run of the
      atomic lease system; so from a table without running leases at most one worker believes it holds a
      row, and a renewal succeeds if and only if its caller is that one, although each transaction chose
      its rows by a clock older than its commit. */
  lemma {:induction false} TransactionsHaveOneHolder(s: Spec, t: Table, clock: int, steps: seq<Step>, now: int)
    requires forall k :: k in t ==> !L.Live(t[k], clock)
    requires Follows(s, Start(t, clock), steps)
    requires now >= After(s, Start(t, clock), steps).clock
    ensures var leases := LeaseSteps(s, Start(t, clock), steps);
            var sys := View(After(s, Start(t, clock), steps));
            && L.Follows(s, L.Sys(t, map[], clock), leases) && sys == L.After(s, L.Sys(t, map[], clock), leases)
            && (forall w, v, k :: L.Believes(sys, w, k, now) && L.Believes(sys, v, k, now) ==> w == v)
            && (forall w, k :: L.RenewalSucceeds(sys, w, k, now) <==> k in sys.t && L.Believes(sys, w, k, now))
  {
    var start := Start(t, clock);
    RunIsALeaseRun(s, t, start, steps);
    L.AtMostOneHolder(s, t, clock, LeaseSteps(s, start, steps), now);
  }
}

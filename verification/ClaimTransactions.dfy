/**
 Concurrent MySQL claims (claiming/rich.go, claiming/mysql.go): each transaction locks the first
 unlocked candidates, later stamps them by id without looking at them again, and commits or
 crashes. Other writers change any row that no open transaction has locked.
 */
module ClaimTransactions {
  import opened Basics
  import opened ClaimTables
  import opened ClaimStatements
  import opened ClaimProofs

  /** An open transaction: its parameters, the rows it locked, what its UPDATE has matched, and the
      number of steps taken when it locked them. */
  datatype Tx = Tx(p: Params, locked: set<Key>, stamped: Option<set<Key>>, at: nat)

  /** What reached the committed table; `at` is the step at which a claim locked its rows. */
  datatype Act = Claimed(p: Params, picked: set<Key>, at: nat) | Wrote(t: Table)

  datatype Sys = Sys(t: Table, open: map<nat, Tx>, log: seq<Act>, steps: nat)

  function Start(t: Table): Sys {
    Sys(t, map[], [], 0)
  }

  datatype Step =
    | LockRows(id: nat, p: Params, picked: set<Key>)
    | StampIds(id: nat, ids: seq<string>)
    | Commit(id: nat)
    | Crash(id: nat)
    | WriteUnlocked(t: Table)

  function LockedBy(open: map<nat, Tx>): set<Key> {
    set id, k | id in open && k in open[id].locked :: k
  }

  /** Writers keep ids identifying for every claim, and wait for row locks. */
  ghost predicate MayWrite(s: Spec, sys: Sys, t: Table) {
    && (forall k :: k in LockedBy(sys.open) && k in sys.t ==> k in t && t[k] == sys.t[k])
    && (forall id :: id in sys.open ==> IdsIdentify(s, sys.open[id].p, t))
  }

  ghost predicate Enabled(s: Spec, sys: Sys, step: Step) {
    match step
    case LockRows(id, p, picked) =>
      && id !in sys.open && IdsIdentify(s, p, sys.t)
      && Picks(s, sys.t, Candidates(s, p, sys.t) - LockedBy(sys.open), p.limit, picked)
    case StampIds(id, ids) =>
      id in sys.open && sys.open[id].stamped.None? && Lists(ids, sys.open[id].locked)
    case Commit(id) => id in sys.open && sys.open[id].stamped.Some?
    case Crash(id) => id in sys.open
    case WriteUnlocked(t) => MayWrite(s, sys, t)
  }

  ghost function Next(s: Spec, sys: Sys, step: Step): Sys
    requires Enabled(s, sys, step)
  {
    var n := sys.steps + 1;
    match step
    case LockRows(id, p, picked) => sys.(open := sys.open[id := Tx(p, picked, None, sys.steps)], steps := n)
    case StampIds(id, ids) =>
      var tx := sys.open[id];
      var b := MySQLStamp(s, ids, tx.p);
      sys.(open := sys.open[id := tx.(stamped := Some(Matching(b.args, b.stmt.where, sys.t)))], steps := n)
    case Commit(id) =>
      var tx := sys.open[id];
      Sys(Stamp(s, tx.p, sys.t, tx.stamped.value), sys.open - {id}, sys.log + [Claimed(tx.p, tx.locked, tx.at)], n)
    case Crash(id) => sys.(open := sys.open - {id}, steps := n)
    case WriteUnlocked(t) => sys.(t := t, log := sys.log + [Wrote(t)], steps := n)
  }

  // ---- The atomic reference ----

  function Replayed(s: Spec, t0: Table, log: seq<Act>): Table
    decreases |log|
  {
    if log == [] then t0
    else match log[|log| - 1]
      case Claimed(p, picked, _) => Stamp(s, p, Replayed(s, t0, log[..|log| - 1]), picked)
      case Wrote(t) => t
  }

  /** Every claim in the log took, at its commit, rows that were due and free by its own clock. */
  ghost predicate ClaimsAreValid(s: Spec, t0: Table, log: seq<Act>) {
    forall i :: 0 <= i < |log| && log[i].Claimed? ==>
      log[i].picked <= Candidates(s, log[i].p, Replayed(s, t0, log[..i]))
  }

  lemma {:induction false} ReplayAppend(s: Spec, t0: Table, log: seq<Act>, a: Act)
    ensures Replayed(s, t0, log + [a]) ==
            match a case Claimed(p, picked, _) => Stamp(s, p, Replayed(s, t0, log), picked) case Wrote(t) => t
    ensures ClaimsAreValid(s, t0, log) && (a.Claimed? ==> a.picked <= Candidates(s, a.p, Replayed(s, t0, log))) ==>
              ClaimsAreValid(s, t0, log + [a])
  {
    assert (log + [a])[..|log|] == log;
    forall i | 0 <= i < |log| ensures (log + [a])[..i] == log[..i] {
    }
  }

  // ---- What every step keeps ----

  /** The transaction's rows are still due and free by its clock, and its UPDATE matched just them. */
  ghost predicate TxOk(s: Spec, t: Table, tx: Tx) {
    && tx.locked <= Candidates(s, tx.p, t)
    && IdsIdentify(s, tx.p, t)
    && (tx.stamped.Some? ==> tx.stamped.value == tx.locked)
  }

  ghost predicate Disjoint(open: map<nat, Tx>) {
    forall i, j :: i in open && j in open && i != j ==> open[i].locked !! open[j].locked
  }

  ghost predicate Inv(s: Spec, t0: Table, sys: Sys) {
    && (forall id :: id in sys.open ==> TxOk(s, sys.t, sys.open[id]))
    && Disjoint(sys.open)
    && sys.t == Replayed(s, t0, sys.log)
    && ClaimsAreValid(s, t0, sys.log)
  }

  lemma {:induction false} CandidatesUnmoved(s: Spec, p: Params, t: Table, t': Table, keys: set<Key>)
    requires keys <= Candidates(s, p, t)
    requires forall k :: k in keys ==> k in t' && t'[k] == t[k]
    ensures keys <= Candidates(s, p, t')
  {
    forall k | k in keys ensures k in Candidates(s, p, t') {
      assert k in Candidates(s, p, t);
    }
  }

  lemma {:induction false} SkippedRowsStayDisjoint(open: map<nat, Tx>, id: nat, tx: Tx)
    requires Disjoint(open) && id !in open && tx.locked !! LockedBy(open)
    ensures Disjoint(open[id := tx])
  {
    forall j | j in open ensures tx.locked !! open[j].locked {
      assert open[j].locked <= LockedBy(open);
    }
  }

  lemma {:induction false} LockRowsKeepsInv(s: Spec, t0: Table, sys: Sys, id: nat, p: Params, picked: set<Key>)
    requires Inv(s, t0, sys) && Enabled(s, sys, LockRows(id, p, picked))
    ensures Inv(s, t0, Next(s, sys, LockRows(id, p, picked)))
  {
    assert picked <= Candidates(s, p, sys.t);
    assert picked !! LockedBy(sys.open);
    SkippedRowsStayDisjoint(sys.open, id, Tx(p, picked, None, sys.steps));
  }

  lemma {:induction false} StampIdsKeepsInv(s: Spec, t0: Table, sys: Sys, id: nat, ids: seq<string>)
    requires Inv(s, t0, sys) && Enabled(s, sys, StampIds(id, ids))
    ensures Inv(s, t0, Next(s, sys, StampIds(id, ids)))
  {
    var tx := sys.open[id];
    assert TxOk(s, sys.t, tx);
    StampMatches(s, tx.p, ids, sys.t, tx.locked);
  }

  /** A commit is one atomic claim on the table it meets. */
  lemma {:induction false} CommitKeepsInv(s: Spec, t0: Table, sys: Sys, id: nat)
    requires Inv(s, t0, sys) && Enabled(s, sys, Commit(id))
    ensures Inv(s, t0, Next(s, sys, Commit(id)))
  {
    var tx := sys.open[id];
    var sys' := Next(s, sys, Commit(id));
    assert TxOk(s, sys.t, tx);
    ReplayAppend(s, t0, sys.log, Claimed(tx.p, tx.locked, tx.at));
    forall other | other in sys'.open ensures TxOk(s, sys'.t, sys'.open[other]) {
      var o := sys.open[other];
      assert TxOk(s, sys.t, o);
      assert o.locked !! tx.locked;
      forall k | k in o.locked ensures k in sys'.t && sys'.t[k] == sys.t[k] {
        assert k in Candidates(s, o.p, sys.t);
      }
      CandidatesUnmoved(s, o.p, sys.t, sys'.t, o.locked);
      assert sys'.t.Keys == sys.t.Keys;
    }
  }

  /** A transaction that ends, by a commit or a crash, frees the rows it locked and no others. */
  lemma {:induction false} EndFreesItsRows(s: Spec, t0: Table, sys: Sys, step: Step)
    requires Inv(s, t0, sys) && Enabled(s, sys, step) && (step.Commit? || step.Crash?)
    ensures LockedBy(Next(s, sys, step).open) == LockedBy(sys.open) - sys.open[step.id].locked
  {
    var open' := Next(s, sys, step).open;
    forall k ensures k in LockedBy(open') <==> k in LockedBy(sys.open) && k !in sys.open[step.id].locked {
      if k in LockedBy(sys.open) && k !in sys.open[step.id].locked {
        var id :| id in sys.open && k in sys.open[id].locked;
        assert id in open' && k in open'[id].locked;
      }
    }
  }

  /** A crash changes no row, and every row that it had locked may be claimed at once. */
  lemma {:induction false} CrashLeavesItsRowsClaimable(s: Spec, t0: Table, sys: Sys, id: nat)
    requires Inv(s, t0, sys) && id in sys.open
    ensures var sys', tx := Next(s, sys, Crash(id)), sys.open[id];
            && sys'.t == sys.t && sys'.log == sys.log
            && tx.locked <= Candidates(s, tx.p, sys'.t) - LockedBy(sys'.open)
  {
    EndFreesItsRows(s, t0, sys, Crash(id));
    assert TxOk(s, sys.t, sys.open[id]);
  }

  lemma {:induction false} WriteKeepsInv(s: Spec, t0: Table, sys: Sys, t: Table)
    requires Inv(s, t0, sys) && Enabled(s, sys, WriteUnlocked(t))
    ensures Inv(s, t0, Next(s, sys, WriteUnlocked(t)))
  {
    ReplayAppend(s, t0, sys.log, Wrote(t));
    forall id | id in sys.open ensures TxOk(s, t, sys.open[id]) {
      var tx := sys.open[id];
      assert TxOk(s, sys.t, tx);
      forall k | k in tx.locked ensures k in t && t[k] == sys.t[k] {
        assert k in LockedBy(sys.open) && k in Candidates(s, tx.p, sys.t);
      }
      CandidatesUnmoved(s, tx.p, sys.t, t, tx.locked);
    }
  }

  lemma {:induction false} StepKeepsInv(s: Spec, t0: Table, sys: Sys, step: Step)
    requires Inv(s, t0, sys) && Enabled(s, sys, step)
    ensures Inv(s, t0, Next(s, sys, step))
  {
    match step
    case LockRows(id, p, picked) => LockRowsKeepsInv(s, t0, sys, id, p, picked);
    case StampIds(id, ids) => StampIdsKeepsInv(s, t0, sys, id, ids);
    case Commit(id) => CommitKeepsInv(s, t0, sys, id);
    case Crash(id) =>
    case WriteUnlocked(t) => WriteKeepsInv(s, t0, sys, t);
  }

  // ---- Runs ----

  /** Where the steps lead, if each of them is possible. */
  ghost function Outcome(s: Spec, sys: Sys, steps: seq<Step>): Option<Sys>
    decreases |steps|
  {
    if steps == [] then Some(sys)
    else
      var n := |steps| - 1;
      match Outcome(s, sys, steps[..n])
      case None => None
      case Some(mid) => if Enabled(s, mid, steps[n]) then Some(Next(s, mid, steps[n])) else None
  }

  ghost predicate Follows(s: Spec, sys: Sys, steps: seq<Step>) {
    Outcome(s, sys, steps).Some?
  }

  ghost function After(s: Spec, sys: Sys, steps: seq<Step>): Sys
    requires Follows(s, sys, steps)
  {
    Outcome(s, sys, steps).value
  }

  lemma {:induction false} OneMore(s: Spec, sys: Sys, steps: seq<Step>, step: Step)
    requires Follows(s, sys, steps) && Enabled(s, After(s, sys, steps), step)
    ensures Follows(s, sys, steps + [step]) && After(s, sys, steps + [step]) == Next(s, After(s, sys, steps), step)
  {
    assert (steps + [step])[..|steps|] == steps;
  }

  lemma {:induction false} RunKeepsInv(s: Spec, t0: Table, sys: Sys, steps: seq<Step>)
    requires Inv(s, t0, sys) && Follows(s, sys, steps)
    ensures Inv(s, t0, After(s, sys, steps)) && After(s, sys, steps).steps == sys.steps + |steps|
    decreases |steps|
  {
    if steps != [] {
      var n := |steps| - 1;
      RunKeepsInv(s, t0, sys, steps[..n]);
      StepKeepsInv(s, t0, After(s, sys, steps[..n]), steps[n]);
    }
  }

  lemma {:induction false} PrefixFollows(s: Spec, sys: Sys, steps: seq<Step>, n: nat)
    requires Follows(s, sys, steps) && n <= |steps|
    ensures Follows(s, sys, steps[..n])
    decreases |steps|
  {
    if n < |steps| {
      PrefixFollows(s, sys, steps[..|steps| - 1], n);
      assert steps[..|steps| - 1][..n] == steps[..n];
    } else {
      assert steps[..n] == steps;
    }
  }

  /** The n-th step of the run locked `picked`: in claim order and up to the limit the first of the
      candidates it met that no transaction open at that moment had locked. */
  ghost predicate LockedFirst(s: Spec, t0: Table, steps: seq<Step>, n: nat, p: Params, picked: set<Key>)
    requires Follows(s, Start(t0), steps)
  {
    && n < |steps|
    && (exists id :: steps[n] == LockRows(id, p, picked))
    && (PrefixFollows(s, Start(t0), steps, n);
        var met := After(s, Start(t0), steps[..n]);
        Picks(s, met.t, Candidates(s, p, met.t) - LockedBy(met.open), p.limit, picked))
  }

  /** Every open transaction and every committed claim locked its rows that way, each in a step of its own. */
  ghost predicate AllLockedFirst(s: Spec, t0: Table, steps: seq<Step>)
    requires Follows(s, Start(t0), steps)
  {
    var sys := After(s, Start(t0), steps);
    && (forall id :: id in sys.open ==> LockedFirst(s, t0, steps, sys.open[id].at, sys.open[id].p, sys.open[id].locked))
    && (forall i :: 0 <= i < |sys.log| && sys.log[i].Claimed? ==>
          LockedFirst(s, t0, steps, sys.log[i].at, sys.log[i].p, sys.log[i].picked))
  }

  /** Of the n steps so far, each transaction and each committed claim has one of its own. */
  ghost predicate OwnSteps(open: map<nat, Tx>, log: seq<Act>, n: nat) {
    && (forall id :: id in open ==> open[id].at < n)
    && (forall i :: 0 <= i < |log| && log[i].Claimed? ==> log[i].at < n)
    && (forall i, j :: i in open && j in open && i != j ==> open[i].at != open[j].at)
    && (forall i, j :: 0 <= i < j < |log| && log[i].Claimed? && log[j].Claimed? ==> log[i].at != log[j].at)
    && (forall id, i :: id in open && 0 <= i < |log| && log[i].Claimed? ==> open[id].at != log[i].at)
  }

  ghost predicate HaveOwnSteps(sys: Sys) {
    OwnSteps(sys.open, sys.log, sys.steps)
  }

  lemma {:induction false} OwnStepOfTx(open: map<nat, Tx>, log: seq<Act>, n: nat, id: nat, tx: Tx)
    requires OwnSteps(open, log, n) && (if id in open then tx.at == open[id].at else tx.at == n)
    ensures OwnSteps(open[id := tx], log, n + 1)
  {
  }

  lemma {:induction false} OwnStepOfClaim(open: map<nat, Tx>, log: seq<Act>, n: nat, id: nat, act: Act)
    requires OwnSteps(open, log, n) && id in open && act.Claimed? && act.at == open[id].at
    ensures OwnSteps(open - {id}, log + [act], n + 1)
  {
    forall i, j | 0 <= i < j < |log + [act]| && (log + [act])[i].Claimed? && (log + [act])[j].Claimed?
      ensures (log + [act])[i].at != (log + [act])[j].at
    {
    }
  }

  lemma {:induction false} StepKeepsOwnSteps(s: Spec, sys: Sys, step: Step)
    requires HaveOwnSteps(sys) && Enabled(s, sys, step)
    ensures var sys' := Next(s, sys, step);
            HaveOwnSteps(sys') && sys'.steps == sys.steps + 1
  {
    match step
    case LockRows(id, p, picked) => OwnStepOfTx(sys.open, sys.log, sys.steps, id, Tx(p, picked, None, sys.steps));
    case StampIds(id, _) =>
      OwnStepOfTx(sys.open, sys.log, sys.steps, id, Next(s, sys, step).open[id]);
    case Commit(id) =>
      var tx := sys.open[id];
      OwnStepOfClaim(sys.open, sys.log, sys.steps, id, Claimed(tx.p, tx.locked, tx.at));
    case Crash(id) =>
    case WriteUnlocked(t) =>
  }

  lemma {:induction false} LockedFirstStays(s: Spec, t0: Table, steps: seq<Step>, n: nat, p: Params, picked: set<Key>)
    requires steps != [] && Follows(s, Start(t0), steps)
    requires LockedFirst(s, t0, steps[..|steps| - 1], n, p, picked)
    ensures LockedFirst(s, t0, steps, n, p, picked)
  {
    var front := steps[..|steps| - 1];
    PrefixFollows(s, Start(t0), steps, n);
    assert front[..n] == steps[..n] && front[n] == steps[n];
  }

  lemma {:induction false} LockStepLocksFirst(s: Spec, t0: Table, steps: seq<Step>)
    requires steps != [] && Follows(s, Start(t0), steps) && steps[|steps| - 1].LockRows?
    ensures var last := steps[|steps| - 1]; LockedFirst(s, t0, steps, |steps| - 1, last.p, last.picked)
  {
    var n := |steps| - 1;
    assert steps[n] == LockRows(steps[n].id, steps[n].p, steps[n].picked);
  }

  lemma {:induction false} RunLocksFirst(s: Spec, t0: Table, steps: seq<Step>)
    requires Follows(s, Start(t0), steps)
    ensures AllLockedFirst(s, t0, steps)
    ensures var sys := After(s, Start(t0), steps); HaveOwnSteps(sys) && sys.steps == |steps|
    decreases |steps|
  {
    if steps != [] {
      var n := |steps| - 1;
      var front := steps[..n];
      RunLocksFirst(s, t0, front);
      var was, sys := After(s, Start(t0), front), After(s, Start(t0), steps);
      StepKeepsOwnSteps(s, was, steps[n]);
      if steps[n].LockRows? {
        LockStepLocksFirst(s, t0, steps);
      }
      forall id | id in sys.open
        ensures LockedFirst(s, t0, steps, sys.open[id].at, sys.open[id].p, sys.open[id].locked)
      {
        if !(steps[n].LockRows? && steps[n].id == id) {
          LockedFirstStays(s, t0, steps, was.open[id].at, was.open[id].p, was.open[id].locked);
        }
      }
      forall i | 0 <= i < |sys.log| && sys.log[i].Claimed?
        ensures LockedFirst(s, t0, steps, sys.log[i].at, sys.log[i].p, sys.log[i].picked)
      {
        if i < |was.log| {
          LockedFirstStays(s, t0, steps, was.log[i].at, was.log[i].p, was.log[i].picked);
        } else {
          var tx := was.open[steps[n].id];
          LockedFirstStays(s, t0, steps, tx.at, tx.p, tx.locked);
        }
      }
    }
  }

  /** Every interleaving is a sequence of atomic claims and outside writes in commit order. Each
      committed claim stamped rows that were due and free on the table it met at commit, and took
      them, in a step of its own, as the first candidates in claim order, up to its limit, that no
      open transaction had locked; no row is ever in the hands of two open transactions. */
  lemma {:induction false} TransactionsRefineAtomicClaims(s: Spec, t0: Table, steps: seq<Step>)
    requires Follows(s, Start(t0), steps)
    ensures var sys := After(s, Start(t0), steps);
            && sys.t == Replayed(s, t0, sys.log)
            && ClaimsAreValid(s, t0, sys.log)
            && AllLockedFirst(s, t0, steps)
            && HaveOwnSteps(sys)
            && Disjoint(sys.open)
            && forall id :: id in sys.open ==> sys.open[id].locked <= Candidates(s, sys.open[id].p, sys.t)
  {
    RunKeepsInv(s, t0, Start(t0), steps);
    RunLocksFirst(s, t0, steps);
    var sys := After(s, Start(t0), steps);
    assert forall id :: id in sys.open ==> TxOk(s, sys.t, sys.open[id]);
  }

  /** Each committed claim took, when it locked them, the earliest free rows that no transaction open at
      that moment had locked. */
  lemma {:induction false} CommittedClaimsTakeTheEarliest(s: Spec, t0: Table, steps: seq<Step>, i: nat)
    requires Follows(s, Start(t0), steps)
    requires i < |After(s, Start(t0), steps).log| && After(s, Start(t0), steps).log[i].Claimed?
    ensures var c := After(s, Start(t0), steps).log[i];
            && c.at < |steps| && Follows(s, Start(t0), steps[..c.at])
            && var met := After(s, Start(t0), steps[..c.at]);
               TakesEarliest(s, c.p, met.t, LockedBy(met.open), c.picked)
  {
    TransactionsRefineAtomicClaims(s, t0, steps);
    var c := After(s, Start(t0), steps).log[i];
    assert LockedFirst(s, t0, steps, c.at, c.p, c.picked);
    PrefixFollows(s, Start(t0), steps, c.at);
    var met := After(s, Start(t0), steps[..c.at]);
    PicksTakeEarliest(s, c.p, met.t, LockedBy(met.open), c.picked);
  }

  /** With nobody else's locks in the way, a transaction takes the relational claim. */
  lemma {:induction false} LoneTransactionIsTheClaim(s: Spec, p: Params, t: Table, picked: set<Key>, ids: seq<string>)
    requires IdsIdentify(s, p, t) && Lists(ids, picked)
    requires Picks(s, t, Candidates(s, p, t) - LockedBy(map[]), p.limit, picked)
    ensures var steps := [LockRows(0, p, picked), StampIds(0, ids), Commit(0)];
            Follows(s, Start(t), steps) && Claims(s, p, t, picked, After(s, Start(t), steps).t)
  {
    var s0 := Start(t);
    assert Candidates(s, p, t) - LockedBy(map[]) == Candidates(s, p, t);
    var first, second, third := LockRows(0, p, picked), StampIds(0, ids), Commit(0);
    assert After(s, s0, []) == s0;
    OneMore(s, s0, [], first);
    StampMatches(s, p, ids, t, picked);
    OneMore(s, s0, [] + [first], second);
    OneMore(s, s0, [] + [first] + [second], third);
    assert [] + [first] + [second] + [third] == [first, second, third];
  }
}

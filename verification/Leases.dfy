/**
 Who holds a lease (claiming/rich.go, claiming/claiming.go): owner-stamped claims and owner-fenced
 renewals by workers with distinct names, each statement with a clock reading of its own.
 */
module Leases {
  import opened Basics
  import opened ClaimTables
  import opened ClaimStatements
  import opened ClaimProofs

  // ---- What the renewal statements write ----

  /** The fence: the row's lease is still running. */
  predicate Live(row: Row, now: int) {
    row.lease.Some? && row.lease.value > now
  }

  predicate LiveFor(row: Row, owner: string, now: int) {
    Live(row, now) && row.owner == Some(owner)
  }

  /** The fence-only renewal writes every live row with the id, whoever holds it. */
  lemma {:induction false} RenewalMeans(s: Spec, newUntil: int, id: string, now: int, t: Table,
                                        touched: set<Key>, t': Table)
    ensures Runs(s, Renewal(s, newUntil, id, now), t, {}, touched, t') <==>
            && touched == (set k | k in t && k.id == id && Live(t[k], now))
            && t' == map k | k in t :: if k in touched then t[k].(lease := Some(newUntil)) else t[k]
  {
    var b := Renewal(s, newUntil, id, now);
    LeaseUpdateMeans(b, newUntil, t, touched);
    forall k | k in t ensures HoldAll(b.args, b.stmt.where, k, t[k]) <==> k.id == id && Live(t[k], now) {
      if HoldAll(b.args, b.stmt.where, k, t[k]) {
        assert Holds(b.args, b.stmt.where[0], k, t[k]) && Holds(b.args, b.stmt.where[1], k, t[k]);
      }
    }
    assert Matching(b.args, b.stmt.where, t) == set k | k in t && k.id == id && Live(t[k], now);
  }

  lemma {:induction false} LeaseUpdateMeans(b: Bound, newUntil: int, t: Table, touched: set<Key>)
    requires b.stmt.PlainUpdate? && b.stmt.sets == [SetLease(1)] && TimeAt(b.args, 1) == Some(newUntil)
    ensures Updated(b.args, b.stmt.sets, t, touched) ==
            map k | k in t :: if k in touched then t[k].(lease := Some(newUntil)) else t[k]
  {
    assert b.stmt.sets[1..] == [];
    assert forall row :: Assigned(b.args, b.stmt.sets, row) == row.(lease := Some(newUntil));
  }

  /** With both columns configured the scoped renewal writes the one row of the keyspace with that
      id if it is live for the caller, and nothing otherwise. */
  lemma {:induction false} ScopedRenewalMeans(s: Spec, newUntil: int, key: Key, owner: string, now: int, t: Table,
                                              touched: set<Key>, t': Table)
    requires s.ownerColumn != "" && s.filterColumn != ""
    ensures Runs(s, ScopedRenewal(s, newUntil, key.id, owner, key.space, now), t, {}, touched, t') <==>
            && touched == (if key in t && LiveFor(t[key], owner, now) then {key} else {})
            && t' == map k | k in t :: if k in touched then t[k].(lease := Some(newUntil)) else t[k]
  {
    var b := ScopedRenewal(s, newUntil, key.id, owner, key.space, now);
    LeaseUpdateMeans(b, newUntil, t, touched);
    forall k | k in t ensures HoldAll(b.args, b.stmt.where, k, t[k]) <==> k == key && LiveFor(t[k], owner, now) {
      if HoldAll(b.args, b.stmt.where, k, t[k]) {
        assert Holds(b.args, b.stmt.where[0], k, t[k]) && Holds(b.args, b.stmt.where[1], k, t[k]);
        assert Holds(b.args, b.stmt.where[2], k, t[k]) && Holds(b.args, b.stmt.where[3], k, t[k]);
      }
    }
  }

  /** The owner-fenced renewal writes every row with the id that is live for the caller, in every keyspace; so
      does the scoped one where there is no filter column. */
  lemma {:induction false} OwnedRenewalWritesTheCallersRows(s: Spec, newUntil: int, id: string, owner: string,
                                                            filter: string, now: int, t: Table, touched: set<Key>,
                                                            t': Table)
    requires s.ownerColumn != ""
    ensures var writes := && touched == (set k | k in t && k.id == id && LiveFor(t[k], owner, now))
                          && t' == map k | k in t :: if k in touched then t[k].(lease := Some(newUntil)) else t[k];
            && (Runs(s, OwnedRenewal(s, newUntil, id, owner, now), t, {}, touched, t') <==> writes)
            && (s.filterColumn == "" ==>
                  (Runs(s, ScopedRenewal(s, newUntil, id, owner, filter, now), t, {}, touched, t') <==> writes))
  {
    var b := OwnedRenewal(s, newUntil, id, owner, now);
    LeaseUpdateMeans(b, newUntil, t, touched);
    forall k | k in t ensures HoldAll(b.args, b.stmt.where, k, t[k]) <==> k.id == id && LiveFor(t[k], owner, now) {
      if HoldAll(b.args, b.stmt.where, k, t[k]) {
        assert Holds(b.args, b.stmt.where[0], k, t[k]) && Holds(b.args, b.stmt.where[1], k, t[k]);
        assert Holds(b.args, b.stmt.where[2], k, t[k]);
      }
    }
    assert Matching(b.args, b.stmt.where, t) == set k | k in t && k.id == id && LiveFor(t[k], owner, now);
  }

  /** Where ids are unique that is the caller's row, without naming the keyspace. */
  lemma {:induction false} OwnedRenewalMeans(s: Spec, newUntil: int, key: Key, owner: string, now: int, t: Table,
                                             touched: set<Key>, t': Table)
    requires s.ownerColumn != "" && key in t && forall j, k :: j in t && k in t && j.id == k.id ==> j == k
    ensures Runs(s, OwnedRenewal(s, newUntil, key.id, owner, now), t, {}, touched, t') <==>
            && touched == (if LiveFor(t[key], owner, now) then {key} else {})
            && t' == map k | k in t :: if k in touched then t[k].(lease := Some(newUntil)) else t[k]
  {
    OwnedRenewalWritesTheCallersRows(s, newUntil, key.id, owner, key.space, now, t, touched, t');
    assert (set k | k in t && k.id == key.id && LiveFor(t[k], owner, now)) ==
           if LiveFor(t[key], owner, now) then {key} else {};
  }

  /** Without an owner column the scope is dropped too: the fence alone decides, in every keyspace. */
  lemma {:induction false} ScopeIsDroppedWithoutOwnerColumn(s: Spec, newUntil: int, id: string, owner: string,
                                                            filter: string, now: int)
    requires s.ownerColumn == ""
    ensures ScopedRenewal(s, newUntil, id, owner, filter, now) == Renewal(s, newUntil, id, now)
    ensures OwnedRenewal(s, newUntil, id, owner, now) == Renewal(s, newUntil, id, now)
  {
  }

  /** Renewals bind by position on every dialect. */
  lemma {:induction false} RenewalsAreBound(style: Style, s: Spec, newUntil: int, id: string, owner: string,
                                            filter: string, now: int)
    ensures WellBound(style, s, Renewal(s, newUntil, id, now))
    ensures WellBound(style, s, OwnedRenewal(s, newUntil, id, owner, now))
    ensures WellBound(style, s, ScopedRenewal(s, newUntil, id, owner, filter, now))
  {
    var bs := [Renewal(s, newUntil, id, now), OwnedRenewal(s, newUntil, id, owner, now),
               ScopedRenewal(s, newUntil, id, owner, filter, now)];
    forall i | 0 <= i < 3 ensures WellBound(style, s, bs[i]) {
      RenewalIsBound(style, s, bs[i]);
    }
    assert WellBound(style, s, bs[0]) && WellBound(style, s, bs[1]) && WellBound(style, s, bs[2]);
  }

  lemma {:induction false} RenewalIsBound(style: Style, s: Spec, b: Bound)
    requires b.stmt.PlainUpdate? && b.stmt.sets == [SetLease(1)]
    requires |b.args| == |b.stmt.where| + 1
    requires forall i :: 0 <= i < |b.stmt.where| ==> !b.stmt.where[i].IdAmong? && b.stmt.where[i].ph == i + 2
    ensures WellBound(style, s, b)
  {
    TextualOrder(s, b.stmt);
    var where := b.stmt.where;
    PositionalWhere(where, 2);
    assert b.stmt.sets[1..] == [];
    assert SetPhs(b.stmt.sets[1..], WherePhs(where, [])) == WherePhs(where, []);
    var phs := StmtPhs(b.stmt);
    assert phs == [1] + WherePhs(where, []);
    forall k | 1 <= k <= |b.args| ensures k in phs {
      assert phs[k - 1] == k;
    }
  }

  lemma {:induction false} PositionalWhere(preds: seq<Pred>, first: nat)
    requires forall i :: 0 <= i < |preds| ==> !preds[i].IdAmong? && preds[i].ph == first + i
    ensures var phs := WherePhs(preds, []);
            |phs| == |preds| && forall i :: 0 <= i < |phs| ==> phs[i] == first + i
    decreases |preds|
  {
    if preds != [] {
      PositionalWhere(preds[1..], first + 1);
    }
  }

  // ---- Workers, grants and the clock ----

  /** `granted` is the deadline each worker was last given for a row and has not been denied since. */
  datatype Sys = Sys(t: Table, granted: map<(string, Key), int>, clock: int)

  datatype Step =
    | Claim(p: Params, picked: set<Key>)
    | Renew(worker: string, key: Key, now: int, newUntil: int)
    | Write(t: Table)

  /** The worker believes its lease is running. */
  predicate Believes(sys: Sys, worker: string, key: Key, now: int) {
    (worker, key) in sys.granted && sys.granted[(worker, key)] > now
  }

  /** Other writers delete rows, leave leases alone, and insert free rows under keys nobody holds. */
  ghost predicate LeavesLeases(sys: Sys, t: Table) {
    && (forall k :: k in t && k in sys.t ==> t[k].lease == sys.t[k].lease && t[k].owner == sys.t[k].owner)
    && (forall k :: k in t && k !in sys.t ==> t[k].lease.None? && forall w :: !Believes(sys, w, k, sys.clock))
  }

  /** A statement carries the time at which its worker built it, and may take effect long after. */
  ghost predicate Enabled(s: Spec, sys: Sys, step: Step) {
    match step
    case Claim(p, picked) => Owned(s, p) && picked <= Candidates(s, p, sys.t)
    case Renew(_, _, _, _) => true
    case Write(t) => LeavesLeases(sys, t)
  }

  function Later(clock: int, now: int): (later: int)
    ensures later >= clock && later >= now
  {
    if now > clock then now else clock
  }

  function Grant(granted: map<(string, Key), int>, worker: string, keys: set<Key>, until: int): map<(string, Key), int> {
    map wk | wk in granted.Keys + (set k | k in keys :: (worker, k)) ::
      if wk.0 == worker && wk.1 in keys then until else if wk in granted then granted[wk] else until
  }

  /** The renewal affects a row; on a deleted one it affects none. */
  predicate RenewalSucceeds(sys: Sys, worker: string, key: Key, now: int) {
    key in sys.t && LiveFor(sys.t[key], worker, now)
  }

  function Next(s: Spec, sys: Sys, step: Step): Sys {
    match step
    case Claim(p, picked) =>
      if p.owner.None? then sys
      else Sys(Stamp(s, p, sys.t, picked), Grant(sys.granted, p.owner.value, picked, p.leaseUntil),
               Later(sys.clock, p.now))
    case Renew(worker, key, now, newUntil) =>
      if RenewalSucceeds(sys, worker, key, now)
      then Sys(sys.t[key := sys.t[key].(lease := Some(newUntil))], sys.granted[(worker, key) := newUntil],
               Later(sys.clock, now))
      else Sys(sys.t, sys.granted - {(worker, key)}, Later(sys.clock, now))
    case Write(t) => sys.(t := t)
  }

  // ---- The steps are the statements ----

  /** The renewal step is a run of the scoped renewal: it writes its row if it succeeds, and nothing otherwise. */
  lemma {:induction false} RenewStepIsTheScopedRenewal(s: Spec, sys: Sys, worker: string, key: Key, now: int,
                                                      newUntil: int, touched: set<Key>, t': Table)
    requires s.ownerColumn != "" && s.filterColumn != ""
    ensures Runs(s, ScopedRenewal(s, newUntil, key.id, worker, key.space, now), sys.t, {}, touched, t') <==>
            && t' == Next(s, sys, Renew(worker, key, now, newUntil)).t
            && touched == if RenewalSucceeds(sys, worker, key, now) then {key} else {}
  {
    ScopedRenewalMeans(s, newUntil, key, worker, now, sys.t, touched, t');
    RenewedTable(s, sys, worker, key, now, newUntil);
  }

  /** Where ids are unique it is a run of the owner-fenced renewal too. */
  lemma {:induction false} RenewStepIsTheOwnedRenewal(s: Spec, sys: Sys, worker: string, key: Key, now: int,
                                                     newUntil: int, touched: set<Key>, t': Table)
    requires s.ownerColumn != "" && key in sys.t && forall j, k :: j in sys.t && k in sys.t && j.id == k.id ==> j == k
    ensures Runs(s, OwnedRenewal(s, newUntil, key.id, worker, now), sys.t, {}, touched, t') <==>
            && t' == Next(s, sys, Renew(worker, key, now, newUntil)).t
            && touched == if RenewalSucceeds(sys, worker, key, now) then {key} else {}
  {
    OwnedRenewalMeans(s, newUntil, key, worker, now, sys.t, touched, t');
    RenewedTable(s, sys, worker, key, now, newUntil);
  }

  lemma {:induction false} RenewedTable(s: Spec, sys: Sys, worker: string, key: Key, now: int, newUntil: int)
    ensures var touched := if RenewalSucceeds(sys, worker, key, now) then {key} else {};
            Next(s, sys, Renew(worker, key, now, newUntil)).t ==
            map k | k in sys.t :: if k in touched then sys.t[k].(lease := Some(newUntil)) else sys.t[k]
  {
  }

  /** After a renewal that succeeds its row is leased to the worker, who believes so, until the new time;
      after one that does not the worker believes nothing of the row. Nobody else's belief changes. */
  lemma {:induction false} RenewalGrants(s: Spec, sys: Sys, worker: string, key: Key, now: int, newUntil: int,
                                        other: string, k: Key, x: int)
    ensures var sys' := Next(s, sys, Renew(worker, key, now, newUntil));
            && (if RenewalSucceeds(sys, worker, key, now)
                then (Believes(sys', worker, key, x) <==> x < newUntil) &&
                     key in sys'.t && sys'.t[key].lease == Some(newUntil) && sys'.t[key].owner == Some(worker)
                else !Believes(sys', worker, key, x) && sys'.t == sys.t)
            && ((other, k) != (worker, key) ==> (Believes(sys', other, k, x) <==> Believes(sys, other, k, x)))
            && (k != key && k in sys.t ==> k in sys'.t && sys'.t[k] == sys.t[k])
            && sys'.clock >= now && sys'.clock >= sys.clock && sys'.clock in {now, sys.clock}
  {
  }

  /** After a claim its rows are leased to its worker, who believes so, until the claim's lease ends; nobody
      else's belief changes. */
  lemma {:induction false} ClaimGrants(s: Spec, sys: Sys, p: Params, picked: set<Key>, worker: string, k: Key, x: int)
    requires Enabled(s, sys, Claim(p, picked))
    ensures var sys' := Next(s, sys, Claim(p, picked));
            && (worker == p.owner.value && k in picked ==>
                  && (Believes(sys', worker, k, x) <==> x < p.leaseUntil)
                  && k in sys'.t && sys'.t[k].lease == Some(p.leaseUntil) && sys'.t[k].owner == Some(worker))
            && (worker != p.owner.value || k !in picked ==> (Believes(sys', worker, k, x) <==> Believes(sys, worker, k, x)))
            && (k in sys.t && k !in picked ==> k in sys'.t && sys'.t[k] == sys.t[k])
            && sys'.clock >= p.now && sys'.clock >= sys.clock && sys'.clock in {p.now, sys.clock}
  {
    if k in picked {
      assert k in Candidates(s, p, sys.t);
      assert (p.owner.value, k) in Next(s, sys, Claim(p, picked)).granted;
    }
  }

  /** Running grants and running leases are the same thing. */
  ghost predicate Inv(sys: Sys) {
    && (forall w, k :: Believes(sys, w, k, sys.clock) && k in sys.t ==>
          sys.t[k].owner == Some(w) && sys.t[k].lease == Some(sys.granted[(w, k)]))
    && (forall k :: k in sys.t && Live(sys.t[k], sys.clock) ==>
          sys.t[k].owner.Some? && Believes(sys, sys.t[k].owner.value, k, sys.clock))
    && (forall w, v, k :: Believes(sys, w, k, sys.clock) && Believes(sys, v, k, sys.clock) ==> w == v)
  }

  lemma {:induction false} ClaimKeepsInv(s: Spec, sys: Sys, p: Params, picked: set<Key>)
    requires Inv(sys) && Enabled(s, sys, Claim(p, picked))
    ensures Inv(Next(s, sys, Claim(p, picked)))
  {
    var w := p.owner.value;
    var sys' := Next(s, sys, Claim(p, picked));
    forall v, k | Believes(sys', v, k, sys'.clock) && !(v == w && k in picked)
      ensures Believes(sys, v, k, sys.clock) && k !in picked && sys'.granted[(v, k)] == sys.granted[(v, k)]
    {
      if k in picked {
        assert k in Candidates(s, p, sys.t);
        assert Believes(sys, v, k, sys.clock);
      }
    }
    forall k | k in sys'.t && Live(sys'.t[k], sys'.clock)
      ensures sys'.t[k].owner.Some? && Believes(sys', sys'.t[k].owner.value, k, sys'.clock)
    {
      if k in picked {
        assert (w, k) in sys'.granted;
      } else {
        assert Live(sys.t[k], sys.clock);
      }
    }
  }

  lemma {:induction false} RenewKeepsInv(s: Spec, sys: Sys, worker: string, key: Key, now: int, newUntil: int)
    requires Inv(sys) && Enabled(s, sys, Renew(worker, key, now, newUntil))
    ensures Inv(Next(s, sys, Renew(worker, key, now, newUntil)))
  {
    var sys' := Next(s, sys, Renew(worker, key, now, newUntil));
    forall v, k | Believes(sys', v, k, sys'.clock) && (v, k) != (worker, key)
      ensures Believes(sys, v, k, sys.clock) && Believes(sys, v, k, sys'.clock)
    {
    }
    forall k | k in sys'.t && Live(sys'.t[k], sys'.clock)
      ensures sys'.t[k].owner.Some? && Believes(sys', sys'.t[k].owner.value, k, sys'.clock)
    {
      if sys'.t[k] == sys.t[k] {
        assert Live(sys.t[k], sys.clock);
      }
    }
  }

  lemma {:induction false} WriteKeepsInv(s: Spec, sys: Sys, t: Table)
    requires Inv(sys) && Enabled(s, sys, Write(t))
    ensures Inv(Next(s, sys, Write(t)))
  {
    var sys' := Next(s, sys, Write(t));
    assert forall w, k :: Believes(sys', w, k, sys'.clock) <==> Believes(sys, w, k, sys.clock);
    forall k | k in t && Live(t[k], sys.clock) ensures t[k].owner.Some? && Believes(sys', t[k].owner.value, k, sys.clock) {
      assert k in sys.t && Live(sys.t[k], sys.clock);
    }
  }

  /** A renewal succeeds exactly for the worker that holds a running grant of a row that still exists. */
  lemma {:induction false} RenewalSucceedsExactlyForTheHolder(sys: Sys, worker: string, key: Key, now: int)
    requires Inv(sys) && now >= sys.clock
    ensures RenewalSucceeds(sys, worker, key, now) <==> key in sys.t && Believes(sys, worker, key, now)
  {
    if Believes(sys, worker, key, now) {
      assert Believes(sys, worker, key, sys.clock);
    }
    if RenewalSucceeds(sys, worker, key, now) {
      assert Live(sys.t[key], sys.clock);
    }
  }

  ghost predicate Follows(s: Spec, sys: Sys, steps: seq<Step>)
    decreases |steps|
  {
    steps == [] || (Enabled(s, sys, steps[0]) && Follows(s, Next(s, sys, steps[0]), steps[1..]))
  }

  function After(s: Spec, sys: Sys, steps: seq<Step>): Sys
    decreases |steps|
  {
    if steps == [] then sys else After(s, Next(s, sys, steps[0]), steps[1..])
  }

  lemma {:induction false} RunKeepsInv(s: Spec, sys: Sys, steps: seq<Step>)
    requires Inv(sys) && Follows(s, sys, steps)
    ensures Inv(After(s, sys, steps))
    decreases |steps|
  {
    if steps != [] {
      match steps[0] {
        case Claim(p, picked) => ClaimKeepsInv(s, sys, p, picked);
        case Renew(worker, key, now, newUntil) => RenewKeepsInv(s, sys, worker, key, now, newUntil);
        case Write(t) => WriteKeepsInv(s, sys, t);
      }
      RunKeepsInv(s, Next(s, sys, steps[0]), steps[1..]);
    }
  }

  /** From a table without running leases, in every run and at every later moment, at most one
      worker believes it holds a row, and a renewal succeeds if and only if its caller is that one. */
  lemma {:induction false} AtMostOneHolder(s: Spec, t: Table, clock: int, steps: seq<Step>, now: int)
    requires forall k :: k in t ==> !Live(t[k], clock)
    requires Follows(s, Sys(t, map[], clock), steps)
    requires now >= After(s, Sys(t, map[], clock), steps).clock
    ensures var sys := After(s, Sys(t, map[], clock), steps);
            && (forall w, v, k :: Believes(sys, w, k, now) && Believes(sys, v, k, now) ==> w == v)
            && (forall w, k :: RenewalSucceeds(sys, w, k, now) <==> k in sys.t && Believes(sys, w, k, now))
  {
    var start := Sys(t, map[], clock);
    RunKeepsInv(s, start, steps);
    var sys := After(s, start, steps);
    forall w, v, k | Believes(sys, w, k, now) && Believes(sys, v, k, now) ensures w == v {
      assert Believes(sys, w, k, sys.clock) && Believes(sys, v, k, sys.clock);
    }
    forall w, k ensures RenewalSucceeds(sys, w, k, now) <==> k in sys.t && Believes(sys, w, k, now) {
      RenewalSucceedsExactlyForTheHolder(sys, w, k, now);
    }
  }

  // ---- What breaks it ----

  /** The fence alone lets a worker whose lease ran out extend the lease of the next holder. */
  lemma {:induction false} FenceOnlyRenewalStealsALease()
    ensures var s := Spec("jobs", "id", "due", "lease", ["id"], "", "", "");
            var k := Key("", "x");
            var held := Row(Some(0), Some(20), Some("second"), 0);
            exists t' :: Runs(s, OwnedRenewal(s, 30, "x", "first", 12), map[k := held], {}, {k}, t') &&
                         t'[k] == held.(lease := Some(30))
  {
    var s := Spec("jobs", "id", "due", "lease", ["id"], "", "", "");
    var k := Key("", "x");
    var t := map[k := Row(Some(0), Some(20), Some("second"), 0)];
    var t' := map j | j in t :: if j in {k} then t[j].(lease := Some(30)) else t[j];
    RenewalMeans(s, 30, "x", 12, t, {k}, t');
    assert {k} == set j | j in t && j.id == "x" && Live(t[j], 12);
    assert Runs(s, OwnedRenewal(s, 30, "x", "first", 12), t, {}, {k}, t');
  }

  /** A claim that names no owner leaves the previous one in place, who can then renew it. */
  lemma {:induction false} OwnerlessClaimLeavesThePreviousOwner(s: Spec, p: Params, t: Table, picked: set<Key>, k: Key,
                                                               w: string)
    requires !Owned(s, p) && picked <= Candidates(s, p, t) && p.leaseUntil > p.now
    requires k in picked && t[k].owner == Some(w)
    ensures var t' := Stamp(s, p, t, picked); k in t' && LiveFor(t'[k], w, p.now)
  {
    assert k in Candidates(s, p, t);
  }

  /** Why inserting waits for grants to run out: a row deleted under a running grant and put back
      can be claimed by a second worker, and then both believe they hold it. */
  lemma {:induction false} ReinsertedRowHasTwoBelievers(s: Spec, sys: Sys, key: Key, row: Row, w: string, p: Params)
    requires key !in sys.t && Believes(sys, w, key, p.now) && p.now >= sys.clock
    requires Owned(s, p) && p.owner.value != w && p.leaseUntil > p.now
    requires Candidate(s, p, key, row) && row.lease.None?
    ensures var put := sys.(t := sys.t[key := row]);
            && !Enabled(s, sys, Write(put.t))
            && Enabled(s, put, Claim(p, {key}))
            && var claimed := Next(s, put, Claim(p, {key}));
               Believes(claimed, w, key, p.now) && Believes(claimed, p.owner.value, key, p.now)
  {
    var put := sys.(t := sys.t[key := row]);
    assert Believes(sys, w, key, sys.clock);
    assert key in put.t && key !in sys.t;
    assert key in Candidates(s, p, put.t);
    assert (p.owner.value, key) in Next(s, put, Claim(p, {key})).granted;
  }
}

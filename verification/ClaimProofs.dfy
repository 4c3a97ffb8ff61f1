/**
 The builders bind every placeholder to its value, and on every dialect the bound statements
 denote the relational claim (claiming/rich.go, stmt.go, mysql.go).
 */
module ClaimProofs {
  import opened Basics
  import opened ClaimTables
  import opened ClaimStatements

  // ---- Placeholders in textual order ----

  lemma {:induction false} PlaceholdersOfList(phs: seq<nat>, spaced: bool, rest: Tokens)
    ensures Placeholders(ListTokens(phs, spaced, rest)) == phs + Placeholders(rest)
  {
    if |phs| > 1 {
      PlaceholdersOfList(phs[1..], spaced, rest);
    }
  }

  /** The ordinals of a predicate, in front of what follows it. */
  function PredPhs(pred: Pred, rest: seq<nat>): seq<nat> {
    if pred.IdAmong? then pred.phs + rest else [pred.ph] + rest
  }

  lemma {:induction false} PlaceholdersOfPred(s: Spec, pred: Pred, rest: Tokens)
    ensures Placeholders(PredTokens(s, pred, rest)) == PredPhs(pred, Placeholders(rest))
  {
    if pred.IdAmong? {
      PlaceholdersOfList(pred.phs, pred.spaced, T(")", rest));
    } else if pred.LeaseFreeAt? {
      assert Placeholders(P(pred.ph, T(")", rest))) == [pred.ph] + Placeholders(T(")", rest));
    } else {
      assert Placeholders(P(pred.ph, rest)) == [pred.ph] + Placeholders(rest);
    }
  }

  function WherePhs(preds: seq<Pred>, rest: seq<nat>): seq<nat> {
    if preds == [] then rest else PredPhs(preds[0], WherePhs(preds[1..], rest))
  }

  lemma {:induction false} PlaceholdersOfWhere(s: Spec, preds: seq<Pred>, rest: Tokens)
    ensures Placeholders(WhereTokens(s, preds, rest)) == WherePhs(preds, Placeholders(rest))
  {
    if |preds| == 1 {
      PlaceholdersOfPred(s, preds[0], rest);
    } else if preds != [] {
      var tail := T(" AND ", WhereTokens(s, preds[1..], rest));
      PlaceholdersOfPred(s, preds[0], tail);
      PlaceholdersOfWhere(s, preds[1..], rest);
    }
  }

  function SetPhs(sets: seq<Assign>, rest: seq<nat>): seq<nat> {
    if sets == [] then rest else [sets[0].ph] + SetPhs(sets[1..], rest)
  }

  lemma {:induction false} PlaceholdersOfSets(s: Spec, sets: seq<Assign>, rest: Tokens)
    ensures Placeholders(SetTokens(s, sets, rest)) == SetPhs(sets, Placeholders(rest))
  {
    if sets != [] {
      PlaceholdersOfSets(s, sets[1..], rest);
      var tail := if |sets| == 1 then rest else T(", ", SetTokens(s, sets[1..], rest));
      assert Placeholders(tail) == SetPhs(sets[1..], Placeholders(rest));
      assert Placeholders(P(sets[0].ph, tail)) == [sets[0].ph] + Placeholders(tail);
    }
  }

  function LimitPhs(limit: Option<nat>, rest: seq<nat>): seq<nat> {
    if limit.Some? then [limit.value] + rest else rest
  }

  lemma {:induction false} PlaceholdersOfSelect(s: Spec, columns: string, newline: string, sel: Select, rest: Tokens)
    ensures Placeholders(SelectTokens(s, columns, newline, sel, rest)) ==
            WherePhs(sel.where, LimitPhs(sel.limit, Placeholders(rest)))
  {
    var tail := OrderTokens(s, newline, sel.limit, rest);
    PlaceholdersOfWhere(s, sel.where, tail);
    if sel.limit.Some? {
      assert Placeholders(P(sel.limit.value, rest)) == [sel.limit.value] + Placeholders(rest);
      assert Placeholders(tail) == Placeholders(P(sel.limit.value, rest));
    }
    assert Placeholders(tail) == LimitPhs(sel.limit, Placeholders(rest));
  }

  function StmtPhs(stmt: Stmt): seq<nat> {
    match stmt
    case CteUpdate(sel, sets, _) => WherePhs(sel.where, LimitPhs(sel.limit, SetPhs(sets, [])))
    case InUpdate(sets, sel, recheck) =>
      SetPhs(sets, WherePhs(sel.where, LimitPhs(sel.limit, WherePhs(recheck, []))))
    case LockingSelect(sel) => WherePhs(sel.where, LimitPhs(sel.limit, []))
    case PlainUpdate(sets, where, _) => SetPhs(sets, WherePhs(where, []))
  }

  lemma {:induction false} PlaceholdersOfCte(s: Spec, stmt: Stmt)
    requires stmt.CteUpdate?
    ensures Placeholders(StmtTokens(s, stmt)) == StmtPhs(stmt)
  {
    PlaceholdersOfSets(s, stmt.sets, T(JoinText(s, stmt.joinSpace), End));
    var update := JoinedUpdate(s, stmt.sets, stmt.joinSpace);
    PlaceholdersOfSelect(s, JoinColumns(s, stmt.joinSpace), "\n", stmt.sel, update);
  }

  lemma {:induction false} PlaceholdersOfIn(s: Spec, stmt: Stmt)
    requires stmt.InUpdate?
    ensures Placeholders(StmtTokens(s, stmt)) == StmtPhs(stmt)
  {
    var last := T("\nRETURNING " + Columns(s.returning, ""), End);
    var recheck := T("\n)\nAND ", WhereTokens(s, stmt.recheck, last));
    var sub := T("\nWHERE " + s.idColumn + " IN (\n  ", SelectTokens(s, s.idColumn, "\n  ", stmt.sel, recheck));
    PlaceholdersOfWhere(s, stmt.recheck, last);
    PlaceholdersOfSelect(s, s.idColumn, "\n  ", stmt.sel, recheck);
    PlaceholdersOfSets(s, stmt.sets, sub);
  }

  lemma {:induction false} PlaceholdersOfPlain(s: Spec, stmt: Stmt)
    requires stmt.PlainUpdate?
    ensures Placeholders(StmtTokens(s, stmt)) == StmtPhs(stmt)
  {
    var last := if stmt.handsBack then T("\nRETURNING " + Columns(s.returning, ""), End) else End;
    var where := T(if stmt.handsBack then "\nWHERE " else " WHERE ", WhereTokens(s, stmt.where, last));
    PlaceholdersOfWhere(s, stmt.where, last);
    PlaceholdersOfSets(s, stmt.sets, where);
  }

  /** The textual order of a statement's placeholders, clause by clause. */
  lemma {:induction false} TextualOrder(s: Spec, stmt: Stmt)
    ensures Placeholders(StmtTokens(s, stmt)) == StmtPhs(stmt)
  {
    match stmt
    case CteUpdate(_, _, _) => PlaceholdersOfCte(s, stmt);
    case InUpdate(_, _, _) => PlaceholdersOfIn(s, stmt);
    case LockingSelect(sel) =>
      PlaceholdersOfSelect(s, Columns(s.returning, ""), "\n", sel, T("\nFOR UPDATE SKIP LOCKED", End));
    case PlainUpdate(_, _, _) => PlaceholdersOfPlain(s, stmt);
  }

  // ---- Binding ----

  lemma {:induction false} ClaimPredPhs(s: Spec, p: Params, due: nat, lease: nat, filter: nat, rest: seq<nat>)
    ensures WherePhs(ClaimPreds(s, p, due, lease, filter), rest) ==
            [due, lease] + (if Filtered(s, p) then [filter] + rest else rest)
  {
    var preds := ClaimPreds(s, p, due, lease, filter);
    if Filtered(s, p) {
      assert preds[1..] == [LeaseFreeAt(lease), InSpace(filter)];
      assert preds[1..][1..] == [InSpace(filter)];
      assert preds[1..][1..][1..] == [];
      assert WherePhs([InSpace(filter)], rest) == [filter] + rest;
      assert WherePhs(preds[1..], rest) == [lease] + ([filter] + rest);
    } else {
      assert preds[1..] == [LeaseFreeAt(lease)];
      assert preds[1..][1..] == [];
      assert WherePhs(preds[1..], rest) == [lease] + rest;
    }
  }

  lemma {:induction false} SetsPhs(s: Spec, p: Params, lease: nat, owner: nat, rest: seq<nat>)
    ensures SetPhs(Sets(s, p, lease, owner), rest) == [lease] + (if Owned(s, p) then [owner] + rest else rest)
  {
    var sets := Sets(s, p, lease, owner);
    if Owned(s, p) {
      assert sets[1..] == [SetOwner(owner)];
      assert sets[1..][1..] == [];
      assert SetPhs(sets[1..], rest) == [owner] + rest;
    } else {
      assert sets[1..] == [];
    }
  }

  /** Ordinals cover n arguments. */
  ghost predicate Covers(phs: seq<nat>, n: nat) {
    (forall i :: 0 <= i < |phs| ==> 1 <= phs[i] <= n) && (forall k :: 1 <= k <= n ==> k in phs)
  }

  lemma {:induction false} PostgresPhs(s: Spec, p: Params) returns (phs: seq<nat>)
    ensures phs == StmtPhs(PostgresClaim(s, p).stmt)
    ensures var o, f, l := One(Owned(s, p)), One(Filtered(s, p)), One(p.limit > 0);
            && |phs| == 3 + o + f + l
            && phs[0] == 1 && phs[1] == 1 && phs[2 + f + l] == 2
            && (Filtered(s, p) ==> phs[2] == 3 + o)
            && (p.limit > 0 ==> phs[2 + f] == 3 + o + f)
            && (Owned(s, p) ==> phs[3 + f + l] == 3)
  {
    var b := PostgresClaim(s, p);
    phs := StmtPhs(b.stmt);
    SetsPhs(s, p, 2, 3, []);
    var sets := SetPhs(b.stmt.sets, []);
    ClaimPredPhs(s, p, 1, 1, 3 + One(Owned(s, p)), LimitPhs(b.stmt.sel.limit, sets));
  }

  lemma {:induction false} PostgresPhsCover(phs: seq<nat>, o: nat, f: nat, l: nat)
    requires o <= 1 && f <= 1 && l <= 1 && |phs| == 3 + o + f + l
    requires phs[0] == 1 && phs[1] == 1 && phs[2 + f + l] == 2
    requires f == 1 ==> phs[2] == 3 + o
    requires l == 1 ==> phs[2 + f] == 3 + o + f
    requires o == 1 ==> phs[3 + f + l] == 3
    ensures Covers(phs, 2 + o + f + l)
  {
    forall k | 1 <= k <= 2 + o + f + l ensures k in phs {
      assert k == phs[0] || k == phs[2 + f + l] || (o == 1 && k == phs[3 + f + l]) ||
             (f == 1 && k == phs[2]) || (l == 1 && k == phs[2 + f]);
    }
  }

  /** Each $N is its own value's ordinal and no argument is left over. */
  lemma {:induction false} PostgresClaimIsBound(s: Spec, p: Params)
    ensures WellBound(Dollar, s, PostgresClaim(s, p))
  {
    TextualOrder(s, PostgresClaim(s, p).stmt);
    var phs := PostgresPhs(s, p);
    PostgresPhsCover(phs, One(Owned(s, p)), One(Filtered(s, p)), One(p.limit > 0));
  }

  lemma {:induction false} NumberedPhs(s: Spec, p: Params) returns (phs: seq<nat>)
    ensures phs == StmtPhs(NumberedClaim(s, p).stmt)
    ensures var o, f, l := One(Owned(s, p)), One(Filtered(s, p)), One(p.limit > 0);
            && |phs| == 5 + o + f + l + f
            && phs[0] == 1 && (Owned(s, p) ==> phs[1] == 2)
            && phs[1 + o] == phs[2 + o] == phs[3 + o + f + l] == phs[4 + o + f + l] == 2 + o
            && (Filtered(s, p) ==> phs[3 + o] == phs[5 + o + f + l] == 3 + o)
            && (p.limit > 0 ==> phs[3 + o + f] == 3 + o + f)
  {
    var b := NumberedClaim(s, p);
    phs := StmtPhs(b.stmt);
    var n := 2 + One(Owned(s, p));
    ClaimPredPhs(s, p, n, n, n + 1, []);
    var recheck := WherePhs(b.stmt.recheck, []);
    ClaimPredPhs(s, p, n, n, n + 1, LimitPhs(b.stmt.sel.limit, recheck));
    SetsPhs(s, p, 1, 2, WherePhs(b.stmt.sel.where, LimitPhs(b.stmt.sel.limit, recheck)));
  }

  lemma {:induction false} NumberedPhsCover(phs: seq<nat>, o: nat, f: nat, l: nat)
    requires o <= 1 && f <= 1 && l <= 1 && |phs| == 5 + o + f + l + f
    requires phs[0] == 1 && (o == 1 ==> phs[1] == 2)
    requires phs[1 + o] == phs[2 + o] == phs[3 + o + f + l] == phs[4 + o + f + l] == 2 + o
    requires f == 1 ==> phs[3 + o] == phs[5 + o + f + l] == 3 + o
    requires l == 1 ==> phs[3 + o + f] == 3 + o + f
    ensures Covers(phs, 2 + o + f + l)
  {
    forall k | 1 <= k <= 2 + o + f + l ensures k in phs {
      assert k == phs[0] || k == phs[1 + o] || (o == 1 && k == phs[1]) ||
             (f == 1 && k == phs[3 + o]) || (l == 1 && k == phs[3 + o + f]);
    }
  }

  lemma {:induction false} NumberedClaimIsBound(s: Spec, p: Params)
    ensures WellBound(Question, s, NumberedClaim(s, p)) && WellBound(Dollar, s, NumberedClaim(s, p))
  {
    TextualOrder(s, NumberedClaim(s, p).stmt);
    var phs := NumberedPhs(s, p);
    NumberedPhsCover(phs, One(Owned(s, p)), One(Filtered(s, p)), One(p.limit > 0));
  }

  /** Bound by position: the k-th plain ? is the k-th argument. */
  lemma {:induction false} MySQLClaimIsBound(s: Spec, p: Params)
    ensures WellBound(Positional, s, MySQLClaim(s, p))
  {
    var b := MySQLClaim(s, p);
    TextualOrder(s, b.stmt);
    ClaimPredPhs(s, p, 1, 2, 3, LimitPhs(b.stmt.sel.limit, []));
    var phs := StmtPhs(b.stmt);
    assert forall i :: 0 <= i < |phs| ==> phs[i] == i + 1;
    forall k | 1 <= k <= |b.args| ensures k in phs {
      assert phs[k - 1] == k;
    }
  }

  lemma {:induction false} StampPhs(s: Spec, ids: seq<string>, p: Params) returns (phs: seq<nat>)
    ensures phs == StmtPhs(MySQLStamp(s, ids, p).stmt)
    ensures |phs| == 1 + One(Owned(s, p)) + |ids| + One(Filtered(s, p))
    ensures forall i :: 0 <= i < |phs| ==> phs[i] == i + 1
  {
    var b := MySQLStamp(s, ids, p);
    phs := StmtPhs(b.stmt);
    var first := 2 + One(Owned(s, p));
    var where := b.stmt.where;
    var list := Ordinals(first, |ids|);
    if Filtered(s, p) {
      assert where[1..] == [InSpace(first + |ids|)];
      assert where[1..][1..] == [];
      assert WherePhs(where[1..], []) == [first + |ids|];
      assert WherePhs(where, []) == list + [first + |ids|];
    } else {
      assert where[1..] == [];
      assert WherePhs(where, []) == list + [];
    }
    SetsPhs(s, p, 1, 2, WherePhs(where, []));
  }

  /** The stamping statement's arguments follow its placeholders, however many ids there are. */
  lemma {:induction false} MySQLStampIsBound(s: Spec, ids: seq<string>, p: Params)
    ensures WellBound(Positional, s, MySQLStamp(s, ids, p))
  {
    TextualOrder(s, MySQLStamp(s, ids, p).stmt);
    var phs := StampPhs(s, ids, p);
    forall k | 1 <= k <= |phs| ensures k in phs {
      assert phs[k - 1] == k;
    }
  }

  /** On every dialect the claim's statement is bound in that dialect's own placeholder style. */
  lemma {:induction false} EveryDialectIsBound(d: Dialect, s: Spec, p: Params)
    ensures ClaimOf(d, s, p).None? <==> d.Unknown?
    ensures !d.Unknown? ==> WellBound(StyleOf(d), s, ClaimOf(d, s, p).value)
  {
    PostgresClaimIsBound(s, p);
    NumberedClaimIsBound(s, p);
    MySQLClaimIsBound(s, p);
  }

  // ---- Meaning ----

  /** The arguments at these ordinals are the claim's own values. */
  ghost predicate BindsClaim(s: Spec, p: Params, args: seq<Value>, due: nat, lease: nat, filter: nat) {
    && TimeAt(args, due) == Some(p.now) && TimeAt(args, lease) == Some(p.now)
    && (Filtered(s, p) ==> TextAt(args, filter) == p.filter)
  }

  lemma {:induction false} ClaimPredsMean(s: Spec, p: Params, args: seq<Value>, due: nat, lease: nat, filter: nat, t: Table)
    requires BindsClaim(s, p, args, due, lease, filter)
    ensures Matching(args, ClaimPreds(s, p, due, lease, filter), t) == Candidates(s, p, t)
  {
    var preds := ClaimPreds(s, p, due, lease, filter);
    forall k | k in t ensures HoldAll(args, preds, k, t[k]) <==> Candidate(s, p, k, t[k]) {
      if HoldAll(args, preds, k, t[k]) {
        assert Holds(args, preds[0], k, t[k]) && Holds(args, preds[1], k, t[k]);
        if Filtered(s, p) {
          assert Holds(args, preds[2], k, t[k]);
        }
      }
    }
  }

  lemma {:induction false} SetsMean(s: Spec, p: Params, args: seq<Value>, lease: nat, owner: nat, row: Row)
    requires TimeAt(args, lease) == Some(p.leaseUntil) && (Owned(s, p) ==> TextAt(args, owner) == p.owner)
    ensures Assigned(args, Sets(s, p, lease, owner), row) == Stamped(s, p, row)
  {
    var sets := Sets(s, p, lease, owner);
    var leased := row.(lease := Some(p.leaseUntil));
    if Owned(s, p) {
      assert sets[1..] == [SetOwner(owner)];
      assert sets[1..][1..] == [];
      assert Assigned(args, sets[1..], leased) == leased.(owner := p.owner);
    } else {
      assert sets[1..] == [];
    }
  }

  lemma {:induction false} UpdateMeansStamp(s: Spec, p: Params, args: seq<Value>, lease: nat, owner: nat,
                                            t: Table, touched: set<Key>)
    requires TimeAt(args, lease) == Some(p.leaseUntil) && (Owned(s, p) ==> TextAt(args, owner) == p.owner)
    ensures Updated(args, Sets(s, p, lease, owner), t, touched) == Stamp(s, p, t, touched)
  {
    forall k | k in t && k in touched ensures Assigned(args, Sets(s, p, lease, owner), t[k]) == Stamped(s, p, t[k]) {
      SetsMean(s, p, args, lease, owner, t[k]);
    }
  }

  /** Where ids identify the claimed rows, the join gives back exactly what was picked. */
  lemma {:induction false} JoinGivesBack(s: Spec, p: Params, t: Table, picked: set<Key>)
    requires IdsIdentify(s, p, t) && picked <= Candidates(s, p, t)
    ensures Joined(t, picked, Filtered(s, p)) == picked
    ensures Joined(t, picked, false) * Candidates(s, p, t) == picked
  {
    forall k | k in picked ensures k in t && k in Joined(t, picked, true) && k in Joined(t, picked, false) {
      assert k in Candidates(s, p, t);
    }
    forall k | k in Joined(t, picked, Filtered(s, p)) ensures k in picked {
      var j :| j in picked && j.id == k.id && (Filtered(s, p) ==> j.space == k.space);
      assert j in Candidates(s, p, t);
    }
    forall k | k in Joined(t, picked, false) && k in Candidates(s, p, t) ensures k in picked {
      var j :| j in picked && j.id == k.id;
      assert j in Candidates(s, p, t);
    }
  }

  lemma {:induction false} LimitMeans(s: Spec, p: Params, t: Table, args: seq<Value>, ph: nat,
                                      available: set<Key>, picked: set<Key>)
    requires p.limit > 0 ==> CountAt(args, ph) == Some(p.limit)
    ensures Picks(s, t, available, LimitOf(args, LimitPh(p, ph)), picked) <==> Picks(s, t, available, p.limit, picked)
  {
  }

  /** The ordinals and limit of a claim's SELECT are bound to the claim's values. */
  ghost predicate BindsSelect(s: Spec, p: Params, args: seq<Value>, due: nat, lease: nat, filter: nat, limit: nat) {
    BindsClaim(s, p, args, due, lease, filter) && (p.limit > 0 ==> CountAt(args, limit) == Some(p.limit))
  }

  ghost predicate BindsSets(s: Spec, p: Params, args: seq<Value>, lease: nat, owner: nat) {
    TimeAt(args, lease) == Some(p.leaseUntil) && (Owned(s, p) ==> TextAt(args, owner) == p.owner)
  }

  lemma {:induction false} SelectMeans(s: Spec, p: Params, args: seq<Value>, due: nat, lease: nat, filter: nat,
                                       limit: nat, t: Table, picked: set<Key>)
    requires BindsSelect(s, p, args, due, lease, filter, limit)
    ensures Selects(s, args, Select(ClaimPreds(s, p, due, lease, filter), LimitPh(p, limit)), t, picked) <==>
            Picks(s, t, Candidates(s, p, t), p.limit, picked)
  {
    ClaimPredsMean(s, p, args, due, lease, filter, t);
    LimitMeans(s, p, t, args, limit, Candidates(s, p, t), picked);
  }

  lemma {:induction false} PostgresArgs(s: Spec, p: Params)
    ensures var f := 3 + One(Owned(s, p));
            && BindsSelect(s, p, PostgresClaim(s, p).args, 1, 1, f, f + One(Filtered(s, p)))
            && BindsSets(s, p, PostgresClaim(s, p).args, 2, 3)
  {
  }

  lemma {:induction false} NumberedArgs(s: Spec, p: Params)
    ensures var n := 2 + One(Owned(s, p));
            && BindsSelect(s, p, NumberedClaim(s, p).args, n, n, n + 1, n + 1 + One(Filtered(s, p)))
            && BindsSets(s, p, NumberedClaim(s, p).args, 1, 2)
  {
  }

  /** What a run of the Postgres statement picks, writes and leaves, whether or not ids identify rows. */
  lemma {:induction false} PostgresRunMeans(s: Spec, p: Params, t: Table, picked: set<Key>, touched: set<Key>, t': Table)
    ensures Runs(s, PostgresClaim(s, p), t, picked, touched, t') <==>
            && Picks(s, t, Candidates(s, p, t), p.limit, picked)
            && touched == Joined(t, picked, Filtered(s, p))
            && t' == Stamp(s, p, t, touched)
  {
    PostgresArgs(s, p);
    var b, f := PostgresClaim(s, p), 3 + One(Owned(s, p));
    SelectMeans(s, p, b.args, 1, 1, f, f + One(Filtered(s, p)), t, picked);
    UpdateMeansStamp(s, p, b.args, 2, 3, t, touched);
  }

  /** The same for SQLite and DuckDB, which check the WHERE clause again. */
  lemma {:induction false} NumberedRunMeans(s: Spec, p: Params, t: Table, picked: set<Key>, touched: set<Key>, t': Table)
    ensures Runs(s, NumberedClaim(s, p), t, picked, touched, t') <==>
            && Picks(s, t, Candidates(s, p, t), p.limit, picked)
            && touched == Joined(t, picked, false) * Candidates(s, p, t)
            && t' == Stamp(s, p, t, touched)
  {
    NumberedArgs(s, p);
    var b, n := NumberedClaim(s, p), 2 + One(Owned(s, p));
    ClaimPredsMean(s, p, b.args, n, n, n + 1, t);
    SelectMeans(s, p, b.args, n, n, n + 1, n + 1 + One(Filtered(s, p)), t, picked);
    UpdateMeansStamp(s, p, b.args, 1, 2, t, touched);
  }

  /** The Postgres statement is the relational claim. */
  lemma {:induction false} PostgresClaimMeans(s: Spec, p: Params, t: Table, picked: set<Key>, touched: set<Key>, t': Table)
    requires IdsIdentify(s, p, t)
    ensures Runs(s, PostgresClaim(s, p), t, picked, touched, t') <==> Claims(s, p, t, picked, t') && touched == picked
  {
    PostgresRunMeans(s, p, t, picked, touched, t');
    if picked <= Candidates(s, p, t) {
      JoinGivesBack(s, p, t, picked);
    }
  }

  /** The SQLite and DuckDB statement is the relational claim. */
  lemma {:induction false} NumberedClaimMeans(s: Spec, p: Params, t: Table, picked: set<Key>, touched: set<Key>, t': Table)
    requires IdsIdentify(s, p, t)
    ensures Runs(s, NumberedClaim(s, p), t, picked, touched, t') <==> Claims(s, p, t, picked, t') && touched == picked
  {
    NumberedRunMeans(s, p, t, picked, touched, t');
    if picked <= Candidates(s, p, t) {
      JoinGivesBack(s, p, t, picked);
    }
  }

  // ---- The two MySQL statements ----

  /** `ids` lists the ids of the selected rows. */
  ghost predicate Lists(ids: seq<string>, picked: set<Key>) {
    && (forall k :: k in picked ==> k.id in ids)
    && (forall i :: 0 <= i < |ids| ==> exists k :: k in picked && k.id == ids[i])
  }

  ghost predicate BindsIds(args: seq<Value>, first: nat, ids: seq<string>) {
    forall i :: 0 <= i < |ids| ==> TextAt(args, first + i) == Some(ids[i])
  }

  lemma {:induction false} StampArgs(s: Spec, ids: seq<string>, p: Params)
    ensures var first, args := 2 + One(Owned(s, p)), MySQLStamp(s, ids, p).args;
            && BindsIds(args, first, ids)
            && (Filtered(s, p) ==> TextAt(args, first + |ids|) == p.filter)
            && BindsSets(s, p, args, 1, 2)
  {
    var first := 2 + One(Owned(s, p));
    var head := [Time(p.leaseUntil)] + OwnerArg(s, p);
    var args := MySQLStamp(s, ids, p).args;
    assert args == head + IdArgs(ids) + FilterArg(s, p);
    forall i | 0 <= i < |ids| ensures TextAt(args, first + i) == Some(ids[i]) {
      assert args[first - 1 + i] == IdArgs(ids)[i];
    }
  }

  lemma {:induction false} IdAmongMeans(args: seq<Value>, first: nat, ids: seq<string>, key: Key, row: Row)
    requires BindsIds(args, first, ids)
    ensures Holds(args, IdAmong(Ordinals(first, |ids|), true), key, row) <==> key.id in ids
  {
    var phs := Ordinals(first, |ids|);
    if key.id in ids {
      var i :| 0 <= i < |ids| && ids[i] == key.id;
      assert TextAt(args, phs[i]) == Some(key.id);
    }
    if Holds(args, IdAmong(phs, true), key, row) {
      var i :| 0 <= i < |phs| && TextAt(args, phs[i]) == Some(key.id);
      assert TextAt(args, first + i) == Some(ids[i]);
    }
  }

  /** The stamp's WHERE keeps the rows of the claim's keyspace whose id is listed. */
  lemma {:induction false} StampWhereMeans(s: Spec, p: Params, ids: seq<string>, key: Key, row: Row)
    ensures var b := MySQLStamp(s, ids, p);
            HoldAll(b.args, b.stmt.where, key, row) <==>
            key.id in ids && (Filtered(s, p) ==> key.space == p.filter.value)
  {
    var b := MySQLStamp(s, ids, p);
    var first := 2 + One(Owned(s, p));
    StampArgs(s, ids, p);
    IdAmongMeans(b.args, first, ids, key, row);
    var where := b.stmt.where;
    assert where[0] == IdAmong(Ordinals(first, |ids|), true);
    if Filtered(s, p) {
      assert where[1] == InSpace(first + |ids|);
    }
    if HoldAll(b.args, where, key, row) {
      assert Holds(b.args, where[0], key, row);
      assert Filtered(s, p) ==> Holds(b.args, where[1], key, row);
    }
  }

  lemma {:induction false} StampMatches(s: Spec, p: Params, ids: seq<string>, t: Table, picked: set<Key>)
    requires IdsIdentify(s, p, t) && picked <= Candidates(s, p, t) && Lists(ids, picked)
    ensures var b := MySQLStamp(s, ids, p); Matching(b.args, b.stmt.where, t) == picked
  {
    var b := MySQLStamp(s, ids, p);
    forall k ensures k in Matching(b.args, b.stmt.where, t) <==> k in picked {
      if k in t {
        StampWhereMeans(s, p, ids, k, t[k]);
        ListedIsPicked(s, p, ids, t, picked, k);
      } else {
        assert k !in Candidates(s, p, t);
      }
    }
  }

  lemma {:induction false} ListedIsPicked(s: Spec, p: Params, ids: seq<string>, t: Table, picked: set<Key>, k: Key)
    requires IdsIdentify(s, p, t) && picked <= Candidates(s, p, t) && Lists(ids, picked) && k in t
    ensures k in picked <==> k.id in ids && (Filtered(s, p) ==> k.space == p.filter.value)
  {
    if k in picked {
      assert k in Candidates(s, p, t);
    } else if k.id in ids {
      var i :| 0 <= i < |ids| && ids[i] == k.id;
      var j :| j in picked && j.id == ids[i];
      assert j in Candidates(s, p, t);
    }
  }

  lemma {:induction false} MySQLSelectMeans(s: Spec, p: Params, t: Table, picked: set<Key>)
    ensures Runs(s, MySQLClaim(s, p), t, picked, {}, t) <==> Picks(s, t, Candidates(s, p, t), p.limit, picked)
  {
    assert BindsSelect(s, p, MySQLClaim(s, p).args, 1, 2, 3, 3 + One(Filtered(s, p)));
    SelectMeans(s, p, MySQLClaim(s, p).args, 1, 2, 3, 3 + One(Filtered(s, p)), t, picked);
  }

  /** The two MySQL statements, run one after the other on the selected ids, are the relational claim. */
  lemma {:induction false} MySQLClaimMeans(s: Spec, p: Params, t: Table, picked: set<Key>, ids: seq<string>,
                                           touched: set<Key>, t': Table)
    requires IdsIdentify(s, p, t) && Lists(ids, picked)
    ensures Runs(s, MySQLClaim(s, p), t, picked, {}, t) && Runs(s, MySQLStamp(s, ids, p), t, {}, touched, t') <==>
            Claims(s, p, t, picked, t') && touched == picked
  {
    MySQLSelectMeans(s, p, t, picked);
    StampArgs(s, ids, p);
    UpdateMeansStamp(s, p, MySQLStamp(s, ids, p).args, 1, 2, t, touched);
    if picked <= Candidates(s, p, t) {
      StampMatches(s, p, ids, t, picked);
    }
  }

  // ---- Shared ids ----

  /** No row of `others` shares its id with a different candidate. */
  ghost predicate IdsApart(s: Spec, p: Params, t: Table, others: set<Key>) {
    forall j, k :: j in Candidates(s, p, t) && k in others && j.id == k.id ==> j == k
  }

  /** Whatever the limit and the ties, the claim writes only the rows it picked. */
  ghost predicate PostgresStays(s: Spec, p: Params, t: Table) {
    forall n: int, picked, touched, t' ::
      Runs(s, PostgresClaim(s, p.(limit := n)), t, picked, touched, t') ==> touched == picked
  }

  ghost predicate NumberedStays(s: Spec, p: Params, t: Table) {
    forall n: int, picked, touched, t' ::
      Runs(s, NumberedClaim(s, p.(limit := n)), t, picked, touched, t') ==> touched == picked
  }

  ghost predicate MySQLStays(s: Spec, p: Params, t: Table) {
    forall n: int, picked, ids, touched, t' ::
      (&& Runs(s, MySQLClaim(s, p.(limit := n)), t, picked, {}, t)
       && Lists(ids, picked)
       && Runs(s, MySQLStamp(s, ids, p.(limit := n)), t, {}, touched, t')) ==> touched == picked
  }

  /** A limit and an answer that hold one of two rows but not the other. */
  lemma {:induction false} SomeAnswerParts(s: Spec, p: Params, t: Table, j: Key, k: Key)
    returns (first: Key, other: Key, n: int, picked: set<Key>)
    requires j in Candidates(s, p, t) && k in t && j != k
    ensures (first == j && other == k) || (first == k && other == j && k in Candidates(s, p, t))
    ensures Picks(s, t, Candidates(s, p, t), n, picked) && first in picked && other !in picked
  {
    var all := Candidates(s, p, t);
    first, other := j, k;
    if k !in all {
      n, picked := 0, all;
    } else {
      if OrderKey(s, t[k]) < OrderKey(s, t[j]) {
        first, other := k, j;
      }
      picked := set c | c in all && OrderKey(s, t[c]) < OrderKey(s, t[first]);
      picked := picked + {first};
      n := |picked|;
      SubsetSize(picked, all - {other});
    }
  }

  lemma {:induction false} LimitLeavesCandidates(s: Spec, p: Params, t: Table, n: int)
    ensures Candidates(s, p.(limit := n), t) == Candidates(s, p, t)
    ensures Filtered(s, p.(limit := n)) == Filtered(s, p) && Owned(s, p.(limit := n)) == Owned(s, p)
  {
  }

  lemma {:induction false} StampRunMeans(s: Spec, p: Params, ids: seq<string>, t: Table, picked: set<Key>,
                                         touched: set<Key>, t': Table)
    requires !Filtered(s, p) && Lists(ids, picked)
    ensures Runs(s, MySQLStamp(s, ids, p), t, {}, touched, t') <==>
            touched == Joined(t, picked, false) && t' == Stamp(s, p, t, touched)
  {
    var b := MySQLStamp(s, ids, p);
    StampArgs(s, ids, p);
    UpdateMeansStamp(s, p, b.args, 1, 2, t, touched);
    forall k | k in t ensures k in Matching(b.args, b.stmt.where, t) <==> k in Joined(t, picked, false) {
      StampWhereMeans(s, p, ids, k, t[k]);
      if k.id in ids {
        var i :| 0 <= i < |ids| && ids[i] == k.id;
        var j :| j in picked && j.id == ids[i];
      }
    }
    assert Matching(b.args, b.stmt.where, t) == Joined(t, picked, false);
  }

  /** With ids apart the join on the id alone gives back the picked rows of `others`. */
  lemma {:induction false} ApartJoinGivesBack(s: Spec, p: Params, t: Table, others: set<Key>, picked: set<Key>)
    requires IdsApart(s, p, t, others) && picked <= Candidates(s, p, t) && Candidates(s, p, t) <= others <= t.Keys
    ensures Joined(t, picked, false) * others == picked
  {
    forall k | k in picked ensures k in Joined(t, picked, false) {
      assert k in Candidates(s, p, t);
    }
    forall k | k in Joined(t, picked, false) && k in others ensures k in picked {
      var j :| j in picked && j.id == k.id;
      assert j in Candidates(s, p, t);
    }
  }

  /** Without a filter the Postgres claim writes only picked rows, whatever the limit, if and only if
      no candidate shares its id with another row of the table. */
  lemma {:induction false} PostgresStaysExactlyWhen(s: Spec, p: Params, t: Table)
    requires !Filtered(s, p)
    ensures PostgresStays(s, p, t) <==> IdsApart(s, p, t, t.Keys)
  {
    if IdsApart(s, p, t, t.Keys) {
      forall n: int, picked, touched, t' | Runs(s, PostgresClaim(s, p.(limit := n)), t, picked, touched, t')
        ensures touched == picked
      {
        LimitLeavesCandidates(s, p, t, n);
        PostgresRunMeans(s, p.(limit := n), t, picked, touched, t');
        ApartJoinGivesBack(s, p, t, t.Keys, picked);
        assert Joined(t, picked, false) * t.Keys == Joined(t, picked, false);
      }
    } else {
      var j, k :| j in Candidates(s, p, t) && k in t.Keys && j.id == k.id && j != k;
      var first, other, n, picked := SomeAnswerParts(s, p, t, j, k);
      var touched := Joined(t, picked, false);
      LimitLeavesCandidates(s, p, t, n);
      PostgresRunMeans(s, p.(limit := n), t, picked, touched, Stamp(s, p.(limit := n), t, touched));
      assert Runs(s, PostgresClaim(s, p.(limit := n)), t, picked, touched, Stamp(s, p.(limit := n), t, touched));
      assert other in touched;
    }
  }

  /** The SQLite and DuckDB claim checks the WHERE clause again, so there only two candidates with
      one id get in each other's way. */
  lemma {:induction false} NumberedStaysExactlyWhen(s: Spec, p: Params, t: Table)
    requires !Filtered(s, p)
    ensures NumberedStays(s, p, t) <==> IdsApart(s, p, t, Candidates(s, p, t))
  {
    var all := Candidates(s, p, t);
    if IdsApart(s, p, t, all) {
      forall n: int, picked, touched, t' | Runs(s, NumberedClaim(s, p.(limit := n)), t, picked, touched, t')
        ensures touched == picked
      {
        LimitLeavesCandidates(s, p, t, n);
        NumberedRunMeans(s, p.(limit := n), t, picked, touched, t');
        ApartJoinGivesBack(s, p, t, all, picked);
      }
    } else {
      var j, k :| j in all && k in all && j.id == k.id && j != k;
      var first, other, n, picked := SomeAnswerParts(s, p, t, j, k);
      var touched := Joined(t, picked, false) * all;
      LimitLeavesCandidates(s, p, t, n);
      NumberedRunMeans(s, p.(limit := n), t, picked, touched, Stamp(s, p.(limit := n), t, touched));
      assert Runs(s, NumberedClaim(s, p.(limit := n)), t, picked, touched, Stamp(s, p.(limit := n), t, touched));
      assert other in touched;
    }
  }

  lemma {:induction false} IdsOf(picked: set<Key>) returns (ids: seq<string>)
    ensures Lists(ids, picked)
    decreases |picked|
  {
    if picked == {} {
      ids := [];
    } else {
      var k :| k in picked;
      var rest := IdsOf(picked - {k});
      ids := [k.id] + rest;
      forall i | 0 <= i < |ids| ensures exists j :: j in picked && j.id == ids[i] {
        if i > 0 {
          var j :| j in picked - {k} && j.id == rest[i - 1];
        }
      }
    }
  }

  /** The MySQL stamp knows ids only, so the condition is that of the Postgres join. */
  lemma {:induction false} MySQLStaysExactlyWhen(s: Spec, p: Params, t: Table)
    requires !Filtered(s, p)
    ensures MySQLStays(s, p, t) <==> IdsApart(s, p, t, t.Keys)
  {
    if IdsApart(s, p, t, t.Keys) {
      forall n: int, picked, ids, touched, t' |
        Runs(s, MySQLClaim(s, p.(limit := n)), t, picked, {}, t) && Lists(ids, picked) &&
        Runs(s, MySQLStamp(s, ids, p.(limit := n)), t, {}, touched, t')
        ensures touched == picked
      {
        LimitLeavesCandidates(s, p, t, n);
        MySQLSelectMeans(s, p.(limit := n), t, picked);
        StampRunMeans(s, p.(limit := n), ids, t, picked, touched, t');
        ApartJoinGivesBack(s, p, t, t.Keys, picked);
        assert Joined(t, picked, false) * t.Keys == Joined(t, picked, false);
      }
    } else {
      var j, k :| j in Candidates(s, p, t) && k in t.Keys && j.id == k.id && j != k;
      var first, other, n, picked := SomeAnswerParts(s, p, t, j, k);
      var ids := IdsOf(picked);
      var touched := Joined(t, picked, false);
      LimitLeavesCandidates(s, p, t, n);
      MySQLSelectMeans(s, p.(limit := n), t, picked);
      StampRunMeans(s, p.(limit := n), ids, t, picked, touched, Stamp(s, p.(limit := n), t, touched));
      assert Runs(s, MySQLClaim(s, p.(limit := n)), t, picked, {}, t);
      assert Runs(s, MySQLStamp(s, ids, p.(limit := n)), t, {}, touched, Stamp(s, p.(limit := n), t, touched));
      assert other in touched;
    }
  }

  /** Two keyspaces, one id: the unfiltered claim stamps a row that is not due. */
  lemma {:induction false} SharedIdIsStampedThoughNotDue()
    ensures var s := Spec("jobs", "id", "due", "lease", ["id"], "", "", "queue");
            var p := Params(10, 20, None, None, 0);
            var (dueRow, later) := (Key("a", "x"), Key("b", "x"));
            var t := map[dueRow := Row(Some(5), None, None, 0), later := Row(Some(99), None, None, 0)];
            var t' := map[dueRow := Row(Some(5), Some(20), None, 0), later := Row(Some(99), Some(20), None, 0)];
            Runs(s, PostgresClaim(s, p), t, {dueRow}, {dueRow, later}, t')
  {
    var s := Spec("jobs", "id", "due", "lease", ["id"], "", "", "queue");
    var p := Params(10, 20, None, None, 0);
    var (dueRow, later) := (Key("a", "x"), Key("b", "x"));
    var t := map[dueRow := Row(Some(5), None, None, 0), later := Row(Some(99), None, None, 0)];
    PostgresArgs(s, p);
    var args := PostgresClaim(s, p).args;
    assert dueRow != later by { assert "a"[0] != "b"[0]; }
    assert Candidates(s, p, t) == {dueRow};
    SelectMeans(s, p, args, 1, 1, 3, 3, t, {dueRow});
    assert dueRow.id == later.id;
    assert Joined(t, {dueRow}, false) == {dueRow, later} by {
      assert later in Joined(t, {dueRow}, false);
    }
    UpdateMeansStamp(s, p, args, 2, 3, t, {dueRow, later});
  }

  // ---- Legacy statements ----

  function LegacyParams(now: int, leaseUntil: int): Params {
    Params(now, leaseUntil, None, None, 0)
  }

  function LegacyPostgres(s: Spec, now: int, leaseUntil: int): Bound {
    Bound(CteUpdate(Select([DueAtMost(1), LeaseFreeAt(1)], None), [SetLease(2)], false),
          [Time(now), Time(leaseUntil)])
  }

  /** One unordered UPDATE over every claimable row. */
  function LegacySQLite(s: Spec, now: int, leaseUntil: int): Bound {
    Bound(PlainUpdate([SetLease(1)], [DueAtMost(2), LeaseFreeAt(2)], true), [Time(leaseUntil), Time(now)])
  }

  function LegacyMySQLSelect(s: Spec, now: int): Bound {
    Bound(LockingSelect(Select([DueAtMost(1), LeaseFreeAt(2)], None)), [Time(now), Time(now)])
  }

  /** None for no ids: nothing is sent. The placeholders are joined without a space. */
  function LegacyMySQLStamp(s: Spec, leaseUntil: int, ids: seq<string>): Option<Bound> {
    if ids == [] then None
    else Some(Bound(PlainUpdate([SetLease(1)], [IdAmong(Ordinals(2, |ids|), false)], false),
                    [Time(leaseUntil)] + IdArgs(ids)))
  }

  /** With no owner, filter or limit the Postgres and MySQL builders build the legacy claims. */
  lemma {:induction false} ZeroParamsBuildTheLegacyStatements(s: Spec, now: int, leaseUntil: int)
    ensures PostgresClaim(s, LegacyParams(now, leaseUntil)) == LegacyPostgres(s, now, leaseUntil)
    ensures MySQLClaim(s, LegacyParams(now, leaseUntil)) == LegacyMySQLSelect(s, now)
  {
    assert [Time(now), Time(leaseUntil)] + [] == [Time(now), Time(leaseUntil)];
    assert [Time(now), Time(now)] + [] == [Time(now), Time(now)];
  }

  /** The two stamps differ in the text of their id lists only: same placeholders, same arguments,
      same effect on every table. */
  lemma {:induction false} LegacyStampDiffersInSpacingOnly(s: Spec, now: int, leaseUntil: int, ids: seq<string>, t: Table,
                                                           touched: set<Key>, t': Table)
    requires ids != []
    ensures var legacy, b := LegacyMySQLStamp(s, leaseUntil, ids).value, MySQLStamp(s, ids, LegacyParams(now, leaseUntil));
            && legacy != b && legacy.args == b.args && StmtPhs(legacy.stmt) == StmtPhs(b.stmt)
            && (Runs(s, legacy, t, {}, touched, t') <==> Runs(s, b, t, {}, touched, t'))
  {
    var legacy, b := LegacyMySQLStamp(s, leaseUntil, ids).value, MySQLStamp(s, ids, LegacyParams(now, leaseUntil));
    assert [Time(leaseUntil)] + [] + IdArgs(ids) + [] == [Time(leaseUntil)] + IdArgs(ids);
    var dense, spaced := legacy.stmt.where[0], b.stmt.where[0];
    assert spaced == IdAmong(dense.phs, true);
    assert legacy.stmt.where[1..] == [] && b.stmt.where[1..] == [];
    forall k | k in t ensures HoldAll(b.args, legacy.stmt.where, k, t[k]) <==> HoldAll(b.args, b.stmt.where, k, t[k]) {
      assert Holds(b.args, dense, k, t[k]) <==> Holds(b.args, spaced, k, t[k]);
    }
    assert Matching(b.args, legacy.stmt.where, t) == Matching(b.args, b.stmt.where, t);
  }

  /** The ordered IN-subquery form changes the table exactly as the legacy SQLite UPDATE did,
      whether or not ids are unique. */
  lemma {:induction false} NumberedClaimRefinesLegacySQLite(s: Spec, now: int, leaseUntil: int, t: Table, touched: set<Key>,
                                                            t': Table)
    ensures Runs(s, LegacySQLite(s, now, leaseUntil), t, {}, touched, t') <==>
            Runs(s, NumberedClaim(s, LegacyParams(now, leaseUntil)), t, touched, touched, t')
  {
    var p := LegacyParams(now, leaseUntil);
    var legacy, b := LegacySQLite(s, now, leaseUntil), NumberedClaim(s, p);
    ClaimPredsMean(s, p, legacy.args, 2, 2, 3, t);
    UpdateMeansStamp(s, p, legacy.args, 1, 2, t, touched);
    NumberedArgs(s, p);
    assert b == Bound(InUpdate([SetLease(1)], Select([DueAtMost(2), LeaseFreeAt(2)], None),
                               [DueAtMost(2), LeaseFreeAt(2)]), b.args);
    ClaimPredsMean(s, p, b.args, 2, 2, 3, t);
    UpdateMeansStamp(s, p, b.args, 1, 2, t, touched);
    SelectMeans(s, p, b.args, 2, 2, 3, 3, t, touched);
    UnlimitedPicksAll(s, t, Candidates(s, p, t), touched);
    forall k | k in Candidates(s, p, t) ensures k in Joined(t, Candidates(s, p, t), false) {
    }
    assert Joined(t, Candidates(s, p, t), false) * Candidates(s, p, t) == Candidates(s, p, t);
  }

  lemma {:induction false} UnlimitedPicksAll(s: Spec, t: Table, available: set<Key>, picked: set<Key>)
    requires available <= t.Keys
    ensures Picks(s, t, available, 0, picked) <==> picked == available
  {
    if Picks(s, t, available, 0, picked) {
      SubsetSize(picked, available);
    }
  }
}

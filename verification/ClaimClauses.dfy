/**
 What the clauses of the claim statements say (claiming/rich.go, stmt.go, mysql.go): their text,
 read as SQL reads it, a named column compared with a bound value, holds of the rows that the
 statement's meaning gives it.
 */
module ClaimClauses {
  import opened Basics
  import opened ClaimTables
  import opened ClaimStatements
  import opened ClaimProofs

  datatype Op = AtMost | Equal | Greater

  function Symbol(op: Op): string {
    match op case AtMost => " <= " case Equal => " = " case Greater => " > "
  }

  datatype Clause =
    | Compare(column: string, op: Op, ph: nat)
    | NullOr(column: string, op: Op, ph: nat)
    | Among(column: string, phs: seq<nat>, spaced: bool)

  function Written(c: Clause, rest: Tokens): Tokens {
    match c
    case Compare(column, op, ph) => T(column + Symbol(op), P(ph, rest))
    case NullOr(column, op, ph) => T("(" + column + " IS NULL OR " + column + Symbol(op), P(ph, T(")", rest)))
    case Among(column, phs, spaced) => T(column + " IN (", ListTokens(phs, spaced, T(")", rest)))
  }

  function Conjunction(cs: seq<Clause>, rest: Tokens): Tokens {
    if cs == [] then rest
    else Written(cs[0], if |cs| == 1 then rest else T(" AND ", Conjunction(cs[1..], rest)))
  }

  // ---- How SQL reads them ----

  /** What a row holds in the column of this name; None is NULL. */
  function Cell(s: Spec, column: string, key: Key, row: Row): Option<Value> {
    if column == s.idColumn then Some(Text(key.id))
    else if column == s.dueColumn then (if row.due.Some? then Some(Time(row.due.value)) else None)
    else if column == s.leaseColumn then (if row.lease.Some? then Some(Time(row.lease.value)) else None)
    else if column == s.ownerColumn then (if row.owner.Some? then Some(Text(row.owner.value)) else None)
    else if column == s.filterColumn then Some(Text(key.space))
    else None
  }

  function ArgAt(args: seq<Value>, ph: nat): Option<Value> {
    if 1 <= ph <= |args| then Some(args[ph - 1]) else None
  }

  /** Nothing compares with NULL, and only times are ordered. */
  predicate Compared(a: Option<Value>, op: Op, b: Option<Value>) {
    && a.Some? && b.Some?
    && match op
       case Equal => a == b
       case AtMost => a.value.Time? && b.value.Time? && a.value.t <= b.value.t
       case Greater => a.value.Time? && b.value.Time? && a.value.t > b.value.t
  }

  predicate Says(s: Spec, args: seq<Value>, c: Clause, key: Key, row: Row) {
    var cell := Cell(s, c.column, key, row);
    match c
    case Compare(_, op, ph) => Compared(cell, op, ArgAt(args, ph))
    case NullOr(_, op, ph) => cell.None? || Compared(cell, op, ArgAt(args, ph))
    case Among(_, phs, _) => exists i :: 0 <= i < |phs| && Compared(cell, Equal, ArgAt(args, phs[i]))
  }

  /** The columns that a clause may name have different names. */
  predicate NamesDiffer(s: Spec) {
    && s.idColumn != s.dueColumn && s.idColumn != s.leaseColumn && s.dueColumn != s.leaseColumn
    && s.ownerColumn !in {s.idColumn, s.dueColumn, s.leaseColumn}
    && s.filterColumn !in {s.idColumn, s.dueColumn, s.leaseColumn}
    && (s.filterColumn == s.ownerColumn ==> s.filterColumn == "")
  }

  /** The clause names a column that there is, and a lease is compared with a time. */
  predicate Fits(s: Spec, args: seq<Value>, pred: Pred) {
    match pred
    case InSpace(_) => s.filterColumn != ""
    case OwnerIs(_) => s.ownerColumn != ""
    case LeaseFreeAt(ph) => TimeAt(args, ph).Some?
    case _ => true
  }

  // ---- Text and meaning agree ----

  /** The clause that a predicate is written as. */
  function ClauseOf(s: Spec, pred: Pred): Clause {
    match pred
    case DueAtMost(ph) => Compare(s.dueColumn, AtMost, ph)
    case LeaseFreeAt(ph) => NullOr(s.leaseColumn, AtMost, ph)
    case InSpace(ph) => Compare(s.filterColumn, Equal, ph)
    case IdIs(ph) => Compare(s.idColumn, Equal, ph)
    case IdAmong(phs, spaced) => Among(s.idColumn, phs, spaced)
    case OwnerIs(ph) => Compare(s.ownerColumn, Equal, ph)
    case LeaseAfter(ph) => Compare(s.leaseColumn, Greater, ph)
  }

  function Clauses(s: Spec, preds: seq<Pred>): (cs: seq<Clause>)
    ensures |cs| == |preds|
  {
    if preds == [] then [] else [ClauseOf(s, preds[0])] + Clauses(s, preds[1..])
  }

  lemma {:induction false} ClauseMeans(s: Spec, args: seq<Value>, pred: Pred, key: Key, row: Row)
    requires NamesDiffer(s) && Fits(s, args, pred)
    ensures Holds(args, pred, key, row) <==> Says(s, args, ClauseOf(s, pred), key, row)
  {
    if pred.IdAmong? {
      assert forall i :: 0 <= i < |pred.phs| ==>
          (TextAt(args, pred.phs[i]) == Some(key.id) <==> Compared(Some(Text(key.id)), Equal, ArgAt(args, pred.phs[i])));
    }
  }

  predicate SayAll(s: Spec, args: seq<Value>, cs: seq<Clause>, key: Key, row: Row) {
    cs == [] || (Says(s, args, cs[0], key, row) && SayAll(s, args, cs[1..], key, row))
  }

  lemma {:induction false} HoldAllFirst(args: seq<Value>, preds: seq<Pred>, key: Key, row: Row)
    requires preds != []
    ensures HoldAll(args, preds, key, row) <==>
              Holds(args, preds[0], key, row) && HoldAll(args, preds[1..], key, row)
  {
    assert forall i :: 0 < i < |preds| ==> preds[i] == preds[1..][i - 1];
    if Holds(args, preds[0], key, row) && HoldAll(args, preds[1..], key, row) {
      forall i | 0 <= i < |preds| ensures Holds(args, preds[i], key, row) {
        assert i > 0 ==> Holds(args, preds[1..][i - 1], key, row);
      }
    }
  }

  /** Every WHERE clause is written as the conjunction of its clauses. */
  lemma {:induction false} WhereIsWritten(s: Spec, preds: seq<Pred>, rest: Tokens)
    ensures WhereTokens(s, preds, rest) == Conjunction(Clauses(s, preds), rest)
  {
    if preds != [] {
      WhereIsWritten(s, preds[1..], rest);
    }
  }

  /** Where the column names differ that conjunction, read as SQL, holds of exactly the rows that the
      statement works on. */
  lemma {:induction false} WhereMeans(s: Spec, args: seq<Value>, preds: seq<Pred>, key: Key, row: Row)
    requires NamesDiffer(s) && forall i :: 0 <= i < |preds| ==> Fits(s, args, preds[i])
    ensures HoldAll(args, preds, key, row) <==> SayAll(s, args, Clauses(s, preds), key, row)
  {
    if preds != [] {
      ClauseMeans(s, args, preds[0], key, row);
      WhereMeans(s, args, preds[1..], key, row);
      HoldAllFirst(args, preds, key, row);
    }
  }

  lemma {:induction false} BoundWhereSaysCandidate(s: Spec, p: Params, args: seq<Value>, due: nat, lease: nat,
                                                  filter: nat, key: Key, row: Row)
    requires NamesDiffer(s) && BindsClaim(s, p, args, due, lease, filter)
    ensures SayAll(s, args, Clauses(s, ClaimPreds(s, p, due, lease, filter)), key, row) <==> Candidate(s, p, key, row)
  {
    var preds, t := ClaimPreds(s, p, due, lease, filter), map[key := row];
    WhereMeans(s, args, preds, key, row);
    ClaimPredsMean(s, p, args, due, lease, filter, t);
    assert key in Matching(args, preds, t) <==> key in Candidates(s, p, t);
  }

  /** Where the dialect's claim puts its values. */
  lemma {:induction false} ClaimOrdinals(d: Dialect, s: Spec, p: Params) returns (due: nat, lease: nat, filter: nat)
    requires !d.Unknown?
    ensures var b := ClaimOf(d, s, p).value;
            BindsClaim(s, p, b.args, due, lease, filter) && b.stmt.sel.where == ClaimPreds(s, p, due, lease, filter)
  {
    var n := 2 + One(Owned(s, p));
    if d.Postgres? {
      due, lease, filter := 1, 1, n + 1;
    } else if d.MySQL? {
      due, lease, filter := 1, 2, 3;
    } else {
      due, lease, filter := n, n, n + 1;
    }
  }

  /** On every dialect the WHERE clause of the claim, read as SQL, holds of exactly the candidates. */
  lemma {:induction false} ClaimWhereSaysCandidate(d: Dialect, s: Spec, p: Params, key: Key, row: Row)
    requires !d.Unknown? && NamesDiffer(s)
    ensures var b := ClaimOf(d, s, p).value;
            SayAll(s, b.args, Clauses(s, b.stmt.sel.where), key, row) <==> Candidate(s, p, key, row)
  {
    var due, lease, filter := ClaimOrdinals(d, s, p);
    BoundWhereSaysCandidate(s, p, ClaimOf(d, s, p).value.args, due, lease, filter, key, row);
  }

  // ---- SET clauses ----

  datatype Assignment = Assignment(column: string, ph: nat)

  function AssignmentOf(s: Spec, a: Assign): Assignment {
    match a case SetLease(ph) => Assignment(s.leaseColumn, ph) case SetOwner(ph) => Assignment(s.ownerColumn, ph)
  }

  function Assignments(s: Spec, sets: seq<Assign>): (list: seq<Assignment>)
    ensures |list| == |sets|
  {
    if sets == [] then [] else [AssignmentOf(s, sets[0])] + Assignments(s, sets[1..])
  }

  function WrittenSets(list: seq<Assignment>, rest: Tokens): Tokens {
    if list == [] then rest
    else T(list[0].column + " = ", P(list[0].ph, if |list| == 1 then rest else T(", ", WrittenSets(list[1..], rest))))
  }

  /** The row with this value in the column of this name. */
  function Stored(s: Spec, column: string, v: Option<Value>, row: Row): Row {
    if column == s.leaseColumn then row.(lease := if v.Some? && v.value.Time? then Some(v.value.t) else None)
    else if column == s.ownerColumn then row.(owner := if v.Some? && v.value.Text? then Some(v.value.s) else None)
    else row
  }

  function StoredAll(s: Spec, args: seq<Value>, list: seq<Assignment>, row: Row): Row {
    if list == [] then row
    else StoredAll(s, args, list[1..], Stored(s, list[0].column, ArgAt(args, list[0].ph), row))
  }

  /** Every SET clause is written as the list of its assignments. */
  lemma {:induction false} SetsAreWritten(s: Spec, sets: seq<Assign>, rest: Tokens)
    ensures SetTokens(s, sets, rest) == WrittenSets(Assignments(s, sets), rest)
  {
    if sets != [] {
      SetsAreWritten(s, sets[1..], rest);
    }
  }

  /** Those, read as SQL, change a row as they should. */
  lemma {:induction false} SetsMean(s: Spec, args: seq<Value>, sets: seq<Assign>, row: Row)
    requires NamesDiffer(s)
    ensures Assigned(args, sets, row) == StoredAll(s, args, Assignments(s, sets), row)
    decreases |sets|
  {
    if sets != [] {
      SetsMean(s, args, sets[1..], Stored(s, AssignmentOf(s, sets[0]).column, ArgAt(args, sets[0].ph), row));
    }
  }

  // ---- ORDER BY and the join ----

  /** The first row comes no later than the second when sorted by this column, ascending; NULL as 0. */
  predicate NoLater(s: Spec, column: string, key: Key, row: Row, key': Key, row': Row) {
    TimeOr0(Cell(s, column, key, row)) <= TimeOr0(Cell(s, column, key', row'))
  }

  function TimeOr0(v: Option<Value>): int {
    if v.Some? && v.value.Time? then v.value.t else 0
  }

  /** Without an expression of the caller's the rows are sorted by the due column, ascending, and said to be. */
  lemma {:induction false} OrderMeans(s: Spec, key: Key, row: Row, key': Key, row': Row)
    requires NamesDiffer(s) && s.orderBy == ""
    ensures OrderExpr(s) == s.dueColumn + " ASC"
    ensures OrderKey(s, row) <= OrderKey(s, row') <==> NoLater(s, s.dueColumn, key, row, key', row')
  {
  }

  /** The columns that a picked row and the row to be written must agree on. */
  function JoinedOn(s: Spec, joinSpace: bool): seq<string> {
    if joinSpace then [s.idColumn, s.filterColumn] else [s.idColumn]
  }

  function WrittenJoin(columns: seq<string>): string {
    if columns == [] then ""
    else if |columns| == 1 then "t." + columns[0] + " = due." + columns[0]
    else "t." + columns[0] + " = due." + columns[0] + " AND " + WrittenJoin(columns[1..])
  }

  predicate Agree(s: Spec, columns: seq<string>, key: Key, row: Row, key': Key, row': Row) {
    forall i :: 0 <= i < |columns| ==> Cell(s, columns[i], key, row) == Cell(s, columns[i], key', row')
  }

  /** The UPDATE behind the common table expression is written to join on those columns. */
  lemma {:induction false} JoinIsWritten(s: Spec, joinSpace: bool)
    ensures JoinText(s, joinSpace) ==
            " FROM due WHERE " + WrittenJoin(JoinedOn(s, joinSpace)) + "\nRETURNING " + Columns(s.returning, "t.")
  {
    var on, back := JoinedOn(s, joinSpace), "\nRETURNING " + Columns(s.returning, "t.");
    var first := "t." + s.idColumn + " = due." + s.idColumn;
    assert WrittenJoin(on) == first + JoinSpaceText(s, joinSpace) by {
      if joinSpace {
        assert on[1..] == [s.filterColumn];
      }
    }
    assert JoinText(s, joinSpace) == " FROM due WHERE " + first + JoinSpaceText(s, joinSpace) + back;
  }

  /** It writes exactly the rows that agree on them with a picked row. */
  lemma {:induction false} JoinMeans(s: Spec, joinSpace: bool, t: Table, picked: set<Key>, k: Key)
    requires NamesDiffer(s) && (joinSpace ==> s.filterColumn != "") && picked <= t.Keys && k in t
    ensures k in Joined(t, picked, joinSpace) <==>
              exists j :: j in picked && Agree(s, JoinedOn(s, joinSpace), k, t[k], j, t[j])
  {
    forall j | j in picked
      ensures Agree(s, JoinedOn(s, joinSpace), k, t[k], j, t[j]) <==> j.id == k.id && (joinSpace ==> j.space == k.space)
    {
      AgreeMeans(s, joinSpace, k, t[k], j, t[j]);
    }
  }

  lemma {:induction false} AgreeMeans(s: Spec, joinSpace: bool, k: Key, row: Row, j: Key, row': Row)
    requires NamesDiffer(s) && (joinSpace ==> s.filterColumn != "")
    ensures Agree(s, JoinedOn(s, joinSpace), k, row, j, row') <==> j.id == k.id && (joinSpace ==> j.space == k.space)
  {
    var on := JoinedOn(s, joinSpace);
    if Agree(s, on, k, row, j, row') {
      assert Cell(s, on[0], k, row) == Cell(s, on[0], j, row');
      assert joinSpace ==> Cell(s, on[1], k, row) == Cell(s, on[1], j, row');
    }
  }
}

/**
 The statement builders (claiming/rich.go, stmt.go, mysql.go). A statement is a tree of clauses
 whose placeholders are ordinals into the bound arguments; `Tokens` lays it out in textual order
 and `Runs` gives it a relational meaning.
 */
module ClaimStatements {
  import opened Basics
  import opened ClaimTables

  datatype Dialect = SQLite | Postgres | MySQL | DuckDB | Unknown

  /** $N, ?N, or a plain ? bound by position. */
  datatype Style = Dollar | Question | Positional

  datatype Value = Time(t: int) | Text(s: string) | Count(n: int)

  datatype Pred =
    | DueAtMost(ph: nat)
    | LeaseFreeAt(ph: nat)
    | InSpace(ph: nat)
    | IdIs(ph: nat)
    | IdAmong(phs: seq<nat>, spaced: bool)
    | OwnerIs(ph: nat)
    | LeaseAfter(ph: nat)

  datatype Assign = SetLease(ph: nat) | SetOwner(ph: nat)

  datatype Select = Select(where: seq<Pred>, limit: Option<nat>)

  datatype Stmt =
    | CteUpdate(sel: Select, sets: seq<Assign>, joinSpace: bool)
    | InUpdate(sets: seq<Assign>, sel: Select, recheck: seq<Pred>)
    | LockingSelect(sel: Select)
    | PlainUpdate(sets: seq<Assign>, where: seq<Pred>, handsBack: bool)

  datatype Bound = Bound(stmt: Stmt, args: seq<Value>)

  // ---- Text ----

  /** A statement from left to right. */
  datatype Tokens = End | T(text: string, rest: Tokens) | P(ph: nat, rest: Tokens)

  function Itoa(n: nat): (text: string)
    ensures text != ""
  {
    if n < 10 then ['0' + n as char] else Itoa(n / 10) + ['0' + (n % 10) as char]
  }

  function Decimal(text: string): int {
    if text == "" then 0
    else Decimal(text[..|text| - 1]) * 10 + (text[|text| - 1] as int - '0' as int)
  }

  /** The digits read back as the number, so different ordinals have different texts. */
  lemma {:induction false} ItoaReadsBack(n: nat)
    ensures Decimal(Itoa(n)) == n
    ensures forall c :: c in Itoa(n) ==> '0' <= c <= '9'
    decreases n
  {
    var text := Itoa(n);
    if n < 10 {
      assert text[..0] == "";
    } else {
      ItoaReadsBack(n / 10);
      assert text[..|text| - 1] == Itoa(n / 10);
    }
  }

  function OrderExpr(s: Spec): string {
    if s.orderBy != "" then s.orderBy else s.dueColumn + " ASC"
  }

  function Columns(cols: seq<string>, prefix: string): string {
    if cols == [] then ""
    else if |cols| == 1 then prefix + cols[0]
    else prefix + cols[0] + ", " + Columns(cols[1..], prefix)
  }

  function ListTokens(phs: seq<nat>, spaced: bool, rest: Tokens): Tokens {
    if phs == [] then rest
    else if |phs| == 1 then P(phs[0], rest)
    else P(phs[0], T(if spaced then ", " else ",", ListTokens(phs[1..], spaced, rest)))
  }

  function PredTokens(s: Spec, pred: Pred, rest: Tokens): Tokens {
    match pred
    case DueAtMost(ph) => T(s.dueColumn + " <= ", P(ph, rest))
    case LeaseFreeAt(ph) =>
      T("(" + s.leaseColumn + " IS NULL OR " + s.leaseColumn + " <= ", P(ph, T(")", rest)))
    case InSpace(ph) => T(s.filterColumn + " = ", P(ph, rest))
    case IdIs(ph) => T(s.idColumn + " = ", P(ph, rest))
    case IdAmong(phs, spaced) => T(s.idColumn + " IN (", ListTokens(phs, spaced, T(")", rest)))
    case OwnerIs(ph) => T(s.ownerColumn + " = ", P(ph, rest))
    case LeaseAfter(ph) => T(s.leaseColumn + " > ", P(ph, rest))
  }

  function WhereTokens(s: Spec, preds: seq<Pred>, rest: Tokens): Tokens {
    if preds == [] then rest
    else if |preds| == 1 then PredTokens(s, preds[0], rest)
    else PredTokens(s, preds[0], T(" AND ", WhereTokens(s, preds[1..], rest)))
  }

  function SetTokens(s: Spec, sets: seq<Assign>, rest: Tokens): Tokens {
    if sets == [] then rest
    else T((if sets[0].SetLease? then s.leaseColumn else s.ownerColumn) + " = ",
           P(sets[0].ph, if |sets| == 1 then rest else T(", ", SetTokens(s, sets[1..], rest))))
  }

  /** What follows the WHERE clause of a SELECT. */
  function OrderTokens(s: Spec, newline: string, limit: Option<nat>, rest: Tokens): Tokens {
    T(newline + "ORDER BY " + OrderExpr(s), if limit.Some? then T(" LIMIT ", P(limit.value, rest)) else rest)
  }

  function SelectTokens(s: Spec, columns: string, newline: string, sel: Select, rest: Tokens): Tokens {
    T("SELECT " + columns + " FROM " + s.table + newline + "WHERE ",
      WhereTokens(s, sel.where, OrderTokens(s, newline, sel.limit, rest)))
  }

  /** How the UPDATE joins the picked rows, and what it hands back. */
  function JoinText(s: Spec, joinSpace: bool): string {
    " FROM due WHERE t." + (s.idColumn + (" = due." + (s.idColumn + (JoinSpaceText(s, joinSpace)
      + ("\nRETURNING " + Columns(s.returning, "t."))))))
  }

  function JoinSpaceText(s: Spec, joinSpace: bool): string {
    if joinSpace then " AND t." + s.filterColumn + " = due." + s.filterColumn else ""
  }

  function JoinColumns(s: Spec, joinSpace: bool): string {
    if joinSpace then s.idColumn + ", " + s.filterColumn else s.idColumn
  }

  /** The UPDATE behind the common table expression. */
  function JoinedUpdate(s: Spec, sets: seq<Assign>, joinSpace: bool): Tokens {
    T("\nFOR UPDATE SKIP LOCKED\n)\nUPDATE ", T(s.table + " t SET ", SetTokens(s, sets, T(JoinText(s, joinSpace), End))))
  }

  function StmtTokens(s: Spec, stmt: Stmt): Tokens {
    match stmt
    case CteUpdate(sel, sets, joinSpace) =>
      T("WITH due AS (\n",
        SelectTokens(s, JoinColumns(s, joinSpace), "\n", sel, JoinedUpdate(s, sets, joinSpace)))
    case InUpdate(sets, sel, recheck) =>
      T("UPDATE " + s.table + " SET ",
        SetTokens(s, sets,
          T("\nWHERE " + s.idColumn + " IN (\n  ",
            SelectTokens(s, s.idColumn, "\n  ", sel,
              T("\n)\nAND ", WhereTokens(s, recheck, T("\nRETURNING " + Columns(s.returning, ""), End)))))))
    case LockingSelect(sel) =>
      SelectTokens(s, Columns(s.returning, ""), "\n", sel, T("\nFOR UPDATE SKIP LOCKED", End))
    case PlainUpdate(sets, where, handsBack) =>
      T("UPDATE " + s.table + " SET ",
        SetTokens(s, sets,
          T(if handsBack then "\nWHERE " else " WHERE ",
            WhereTokens(s, where,
              if handsBack then T("\nRETURNING " + Columns(s.returning, ""), End) else End))))
  }

  /** The ordinals in textual order. */
  function Placeholders(toks: Tokens): seq<nat> {
    match toks
    case End => []
    case T(_, rest) => Placeholders(rest)
    case P(ph, rest) => [ph] + Placeholders(rest)
  }

  /** Every placeholder has an argument and every argument a placeholder; where placeholders are
      bound by position, the ordinals are the positions. */
  ghost predicate WellBound(style: Style, s: Spec, b: Bound) {
    var phs := Placeholders(StmtTokens(s, b.stmt));
    && (forall i :: 0 <= i < |phs| ==> 1 <= phs[i] <= |b.args|)
    && (forall n :: 1 <= n <= |b.args| ==> n in phs)
    && (style.Positional? ==> |phs| == |b.args| && forall i :: 0 <= i < |phs| ==> phs[i] == i + 1)
  }

  // ---- Meaning ----

  function TimeAt(args: seq<Value>, ph: nat): Option<int> {
    if 1 <= ph <= |args| && args[ph - 1].Time? then Some(args[ph - 1].t) else None
  }

  function TextAt(args: seq<Value>, ph: nat): Option<string> {
    if 1 <= ph <= |args| && args[ph - 1].Text? then Some(args[ph - 1].s) else None
  }

  function CountAt(args: seq<Value>, ph: nat): Option<int> {
    if 1 <= ph <= |args| && args[ph - 1].Count? then Some(args[ph - 1].n) else None
  }

  /** A predicate over a wrongly typed or missing argument holds of no row. */
  predicate Holds(args: seq<Value>, pred: Pred, key: Key, row: Row) {
    match pred
    case DueAtMost(ph) => TimeAt(args, ph).Some? && Due(TimeAt(args, ph).value, row)
    case LeaseFreeAt(ph) => TimeAt(args, ph).Some? && LeaseFree(TimeAt(args, ph).value, row)
    case InSpace(ph) => TextAt(args, ph) == Some(key.space)
    case IdIs(ph) => TextAt(args, ph) == Some(key.id)
    case IdAmong(phs, _) => exists i :: 0 <= i < |phs| && TextAt(args, phs[i]) == Some(key.id)
    case OwnerIs(ph) => row.owner.Some? && TextAt(args, ph) == row.owner
    case LeaseAfter(ph) => row.lease.Some? && TimeAt(args, ph).Some? && row.lease.value > TimeAt(args, ph).value
  }

  predicate HoldAll(args: seq<Value>, preds: seq<Pred>, key: Key, row: Row) {
    forall i :: 0 <= i < |preds| ==> Holds(args, preds[i], key, row)
  }

  function Matching(args: seq<Value>, preds: seq<Pred>, t: Table): set<Key> {
    set k | k in t && HoldAll(args, preds, k, t[k])
  }

  function Assigned(args: seq<Value>, sets: seq<Assign>, row: Row): Row {
    if sets == [] then row
    else Assigned(args, sets[1..],
                  match sets[0]
                  case SetLease(ph) => row.(lease := TimeAt(args, ph))
                  case SetOwner(ph) => row.(owner := TextAt(args, ph)))
  }

  function Updated(args: seq<Value>, sets: seq<Assign>, t: Table, touched: set<Key>): Table {
    map k | k in t :: if k in touched then Assigned(args, sets, t[k]) else t[k]
  }

  function LimitOf(args: seq<Value>, limit: Option<nat>): int {
    if limit.None? then 0 else if CountAt(args, limit.value).Some? then CountAt(args, limit.value).value else 0
  }

  ghost predicate Selects(s: Spec, args: seq<Value>, sel: Select, t: Table, picked: set<Key>) {
    Picks(s, t, Matching(args, sel.where, t), LimitOf(args, sel.limit), picked)
  }

  /** The rows of `t` that share an id, and the keyspace if asked, with a picked row. */
  function Joined(t: Table, picked: set<Key>, joinSpace: bool): set<Key> {
    set k | k in t && exists j :: j in picked && j.id == k.id && (joinSpace ==> j.space == k.space)
  }

  /** Running the bound statement on `t` may pick `picked`, write the rows `touched` and leave `t'`. */
  ghost predicate Runs(s: Spec, b: Bound, t: Table, picked: set<Key>, touched: set<Key>, t': Table) {
    match b.stmt
    case CteUpdate(sel, sets, joinSpace) =>
      && Selects(s, b.args, sel, t, picked)
      && touched == Joined(t, picked, joinSpace)
      && t' == Updated(b.args, sets, t, touched)
    case InUpdate(sets, sel, recheck) =>
      && Selects(s, b.args, sel, t, picked)
      && touched == Joined(t, picked, false) * Matching(b.args, recheck, t)
      && t' == Updated(b.args, sets, t, touched)
    case LockingSelect(sel) =>
      Selects(s, b.args, sel, t, picked) && touched == {} && t' == t
    case PlainUpdate(sets, where, _) =>
      && picked == {}
      && touched == Matching(b.args, where, t)
      && t' == Updated(b.args, sets, t, touched)
  }

  // ---- What the builders build ----

  function One(b: bool): nat {
    if b then 1 else 0
  }

  function OwnerArg(s: Spec, p: Params): seq<Value> {
    if Owned(s, p) then [Text(p.owner.value)] else []
  }

  function FilterArg(s: Spec, p: Params): seq<Value> {
    if Filtered(s, p) then [Text(p.filter.value)] else []
  }

  function LimitArg(p: Params): seq<Value> {
    if p.limit > 0 then [Count(p.limit)] else []
  }

  function ClaimPreds(s: Spec, p: Params, due: nat, lease: nat, filter: nat): seq<Pred> {
    if Filtered(s, p) then [DueAtMost(due), LeaseFreeAt(lease), InSpace(filter)]
    else [DueAtMost(due), LeaseFreeAt(lease)]
  }

  function LimitPh(p: Params, ph: nat): Option<nat> {
    if p.limit > 0 then Some(ph) else None
  }

  function Sets(s: Spec, p: Params, lease: nat, owner: nat): seq<Assign> {
    if Owned(s, p) then [SetLease(lease), SetOwner(owner)] else [SetLease(lease)]
  }

  /** $1 now, $2 lease_until, then owner, filter and limit as present. */
  function PostgresClaim(s: Spec, p: Params): Bound {
    var f := 3 + One(Owned(s, p));
    Bound(CteUpdate(Select(ClaimPreds(s, p, 1, 1, f), LimitPh(p, f + One(Filtered(s, p)))),
                    Sets(s, p, 2, 3), Filtered(s, p)),
          [Time(p.now), Time(p.leaseUntil)] + OwnerArg(s, p) + FilterArg(s, p) + LimitArg(p))
  }

  /** 1 lease_until, owner as present, now, then filter and limit as present. */
  function NumberedClaim(s: Spec, p: Params): Bound {
    var n := 2 + One(Owned(s, p));
    var preds := ClaimPreds(s, p, n, n, n + 1);
    Bound(InUpdate(Sets(s, p, 1, 2), Select(preds, LimitPh(p, n + 1 + One(Filtered(s, p)))), preds),
          [Time(p.leaseUntil)] + OwnerArg(s, p) + [Time(p.now)] + FilterArg(s, p) + LimitArg(p))
  }

  function MySQLClaim(s: Spec, p: Params): Bound {
    Bound(LockingSelect(Select(ClaimPreds(s, p, 1, 2, 3), LimitPh(p, 3 + One(Filtered(s, p))))),
          [Time(p.now), Time(p.now)] + FilterArg(s, p) + LimitArg(p))
  }

  function Ordinals(first: nat, n: nat): seq<nat> {
    seq(n, i requires 0 <= i < n => first + i)
  }

  function IdArgs(ids: seq<string>): seq<Value> {
    seq(|ids|, i requires 0 <= i < |ids| => Text(ids[i]))
  }

  /** SET columns first, then the ids, then the filter: the textual order. */
  function MySQLStamp(s: Spec, ids: seq<string>, p: Params): Bound {
    var first := 2 + One(Owned(s, p));
    Bound(PlainUpdate(Sets(s, p, 1, 2),
                      if Filtered(s, p) then [IdAmong(Ordinals(first, |ids|), true), InSpace(first + |ids|)]
                      else [IdAmong(Ordinals(first, |ids|), true)], false),
          [Time(p.leaseUntil)] + OwnerArg(s, p) + IdArgs(ids) + FilterArg(s, p))
  }

  function StyleOf(d: Dialect): Style {
    match d
    case Postgres => Dollar
    case DuckDB => Dollar
    case MySQL => Positional
    case _ => Question
  }

  /** An unknown dialect gets no statement. */
  function ClaimOf(d: Dialect, s: Spec, p: Params): Option<Bound> {
    match d
    case Postgres => Some(PostgresClaim(s, p))
    case SQLite => Some(NumberedClaim(s, p))
    case DuckDB => Some(NumberedClaim(s, p))
    case MySQL => Some(MySQLClaim(s, p))
    case Unknown => None
  }

  /** Extends a live lease, whoever holds it. */
  function Renewal(s: Spec, newUntil: int, id: string, now: int): Bound {
    Bound(PlainUpdate([SetLease(1)], [IdIs(2), LeaseAfter(3)], false), [Time(newUntil), Text(id), Time(now)])
  }

  /** Extends the caller's own live lease; without an owner column it falls back to the fence alone. */
  function OwnedRenewal(s: Spec, newUntil: int, id: string, owner: string, now: int): Bound {
    if s.ownerColumn == "" then Renewal(s, newUntil, id, now)
    else Bound(PlainUpdate([SetLease(1)], [IdIs(2), OwnerIs(3), LeaseAfter(4)], false),
               [Time(newUntil), Text(id), Text(owner), Time(now)])
  }

  /** Also confined to one keyspace, unless the owner or the filter column is missing. */
  function ScopedRenewal(s: Spec, newUntil: int, id: string, owner: string, filter: string, now: int): Bound {
    if s.ownerColumn == "" || s.filterColumn == "" then OwnedRenewal(s, newUntil, id, owner, now)
    else Bound(PlainUpdate([SetLease(1)], [IdIs(2), OwnerIs(3), InSpace(4), LeaseAfter(5)], false),
               [Time(newUntil), Text(id), Text(owner), Text(filter), Time(now)])
  }
}

/** The claim builders as the source writes them: counters and argument lists grown step by step. */
module ClaimBuilders {
  import opened Basics
  import opened ClaimTables
  import opened ClaimStatements

  method PostgresClaimStmt(s: Spec, p: Params) returns (b: Bound)
    ensures b == PostgresClaim(s, p)
  {
    var args := [Time(p.now), Time(p.leaseUntil)];
    var n := 2;
    var sets := [SetLease(2)];
    if Owned(s, p) {
      n := n + 1;
      sets := sets + [SetOwner(n)];
      args := args + [Text(p.owner.value)];
    }
    var preds := [DueAtMost(1), LeaseFreeAt(1)];
    if Filtered(s, p) {
      n := n + 1;
      preds := preds + [InSpace(n)];
      args := args + [Text(p.filter.value)];
    }
    var limit := None;
    if p.limit > 0 {
      n := n + 1;
      limit := Some(n);
      args := args + [Count(p.limit)];
    }
    assert sets == Sets(s, p, 2, 3) && preds == ClaimPreds(s, p, 1, 1, 3 + One(Owned(s, p)));
    assert args == PostgresClaim(s, p).args;
    b := Bound(CteUpdate(Select(preds, limit), sets, Filtered(s, p)), args);
  }

  method NumberedClaimStmt(s: Spec, p: Params) returns (b: Bound)
    ensures b == NumberedClaim(s, p)
  {
    var args := [Time(p.leaseUntil)];
    var sets := [SetLease(1)];
    var n := 1;
    if Owned(s, p) {
      n := n + 1;
      sets := sets + [SetOwner(n)];
      args := args + [Text(p.owner.value)];
    }
    n := n + 1;
    args := args + [Time(p.now)];
    var preds := [DueAtMost(n), LeaseFreeAt(n)];
    if Filtered(s, p) {
      n := n + 1;
      preds := preds + [InSpace(n)];
      args := args + [Text(p.filter.value)];
    }
    var limit := None;
    if p.limit > 0 {
      n := n + 1;
      limit := Some(n);
      args := args + [Count(p.limit)];
    }
    ghost var now := 2 + One(Owned(s, p));
    assert sets == Sets(s, p, 1, 2) && preds == ClaimPreds(s, p, now, now, now + 1);
    assert args == NumberedClaim(s, p).args;
    b := Bound(InUpdate(sets, Select(preds, limit), preds), args);
  }

  method MySQLClaimSelect(s: Spec, p: Params) returns (b: Bound)
    ensures b == MySQLClaim(s, p)
  {
    var args := [Time(p.now)];
    var preds := [DueAtMost(|args|)];
    args := args + [Time(p.now)];
    preds := preds + [LeaseFreeAt(|args|)];
    if Filtered(s, p) {
      args := args + [Text(p.filter.value)];
      preds := preds + [InSpace(|args|)];
    }
    var limit := None;
    if p.limit > 0 {
      args := args + [Count(p.limit)];
      limit := Some(|args|);
    }
    assert preds == ClaimPreds(s, p, 1, 2, 3);
    assert args == MySQLClaim(s, p).args;
    b := Bound(LockingSelect(Select(preds, limit)), args);
  }

  /** One placeholder and one argument per id, in order. */
  method MySQLStampStmt(s: Spec, ids: seq<string>, p: Params) returns (b: Bound)
    ensures b == MySQLStamp(s, ids, p)
  {
    var args := [Time(p.leaseUntil)];
    var sets := [SetLease(1)];
    if Owned(s, p) {
      args := args + [Text(p.owner.value)];
      sets := sets + [SetOwner(|args|)];
    }
    var head := args;
    var phs := [];
    for i := 0 to |ids|
      invariant args == head + IdArgs(ids[..i])
      invariant phs == Ordinals(|head| + 1, i)
    {
      args := args + [Text(ids[i])];
      phs := phs + [|args|];
      assert IdArgs(ids[..i + 1]) == IdArgs(ids[..i]) + [Text(ids[i])];
    }
    assert ids[..|ids|] == ids;
    var where := [IdAmong(phs, true)];
    if Filtered(s, p) {
      args := args + [Text(p.filter.value)];
      where := where + [InSpace(|args|)];
    }
    assert sets == Sets(s, p, 1, 2);
    assert args == MySQLStamp(s, ids, p).args;
    assert where == MySQLStamp(s, ids, p).stmt.where;
    b := Bound(PlainUpdate(sets, where, false), args);
  }

  /** The statement for a dialect; an unknown one gets none. */
  method ClaimStmt(d: Dialect, s: Spec, p: Params) returns (b: Option<Bound>)
    ensures b == ClaimOf(d, s, p)
  {
    match d {
      case Postgres =>
        var built := PostgresClaimStmt(s, p);
        b := Some(built);
      case SQLite =>
        var built := NumberedClaimStmt(s, p);
        b := Some(built);
      case DuckDB =>
        var built := NumberedClaimStmt(s, p);
        b := Some(built);
      case MySQL =>
        var built := MySQLClaimSelect(s, p);
        b := Some(built);
      case Unknown =>
        b := None;
    }
  }
}

/**
 The text of every claim statement as one string (claiming/rich.go, stmt.go, mysql.go), from its
 clauses, assignments and names.
 */
module ClaimLayouts {
  import opened Basics
  import opened ClaimTables
  import opened ClaimStatements
  import opened ClaimTexts
  import opened ClaimClauses

  function Ph(style: Style, ph: nat): string {
    [Mark(style)] + OrdinalText(style, ph)
  }

  function ListText(style: Style, phs: seq<nat>, spaced: bool): string {
    if phs == [] then ""
    else if |phs| == 1 then Ph(style, phs[0])
    else Ph(style, phs[0]) + (if spaced then ", " else ",") + ListText(style, phs[1..], spaced)
  }

  function ClauseText(style: Style, c: Clause): string {
    match c
    case Compare(column, op, ph) => column + Symbol(op) + Ph(style, ph)
    case NullOr(column, op, ph) => "(" + column + " IS NULL OR " + column + Symbol(op) + Ph(style, ph) + ")"
    case Among(column, phs, spaced) => column + " IN (" + ListText(style, phs, spaced) + ")"
  }

  function WhereText(style: Style, cs: seq<Clause>): string {
    if cs == [] then ""
    else if |cs| == 1 then ClauseText(style, cs[0])
    else ClauseText(style, cs[0]) + " AND " + WhereText(style, cs[1..])
  }

  function SetText(style: Style, list: seq<Assignment>): string {
    if list == [] then ""
    else if |list| == 1 then list[0].column + " = " + Ph(style, list[0].ph)
    else list[0].column + " = " + Ph(style, list[0].ph) + ", " + SetText(style, list[1..])
  }

  lemma {:induction false} Regroup2(a: string, b: string, c: string)
    ensures a + (b + c) == (a + b) + c
  {
  }

  lemma {:induction false} Regroup3(a: string, b: string, c: string, d: string)
    ensures a + (b + (c + d)) == (a + b + c) + d
  {
    Regroup2(b, c, d);
    Regroup2(a, b + c, d);
    Regroup2(a, b, c);
  }

  lemma {:induction false} Regroup4(a: string, b: string, c: string, d: string, e: string)
    ensures a + (b + (c + (d + e))) == (a + b + c + d) + e
  {
    Regroup3(b, c, d, e);
    Regroup2(a, b + c + d, e);
    Regroup3(a, b, c, d);
  }

  lemma {:induction false} RenderPh(style: Style, ph: nat, rest: Tokens)
    ensures Render(style, P(ph, rest)) == Ph(style, ph) + Render(style, rest)
  {
    Regroup2([Mark(style)], OrdinalText(style, ph), Render(style, rest));
  }

  lemma {:induction false} RenderList(style: Style, phs: seq<nat>, spaced: bool, rest: Tokens)
    ensures Render(style, ListTokens(phs, spaced, rest)) == ListText(style, phs, spaced) + Render(style, rest)
  {
    if phs == [] {
      assert "" + Render(style, rest) == Render(style, rest);
    } else if |phs| == 1 {
      RenderPh(style, phs[0], rest);
    } else {
      var comma, more := if spaced then ", " else ",", ListTokens(phs[1..], spaced, rest);
      RenderPh(style, phs[0], T(comma, more));
      RenderList(style, phs[1..], spaced, rest);
      Regroup3(Ph(style, phs[0]), comma, ListText(style, phs[1..], spaced), Render(style, rest));
    }
  }

  lemma {:induction false} RenderClause(style: Style, c: Clause, rest: Tokens)
    ensures Render(style, Written(c, rest)) == ClauseText(style, c) + Render(style, rest)
  {
    var r := Render(style, rest);
    match c
    case Compare(column, op, ph) =>
      RenderPh(style, ph, rest);
      Regroup2(column + Symbol(op), Ph(style, ph), r);
    case NullOr(column, op, ph) =>
      RenderPh(style, ph, T(")", rest));
      Regroup3("(" + column + " IS NULL OR " + column + Symbol(op), Ph(style, ph), ")", r);
    case Among(column, phs, spaced) =>
      RenderList(style, phs, spaced, T(")", rest));
      Regroup3(column + " IN (", ListText(style, phs, spaced), ")", r);
  }

  lemma {:induction false} RenderWhere(style: Style, cs: seq<Clause>, rest: Tokens)
    ensures Render(style, Conjunction(cs, rest)) == WhereText(style, cs) + Render(style, rest)
  {
    if cs == [] {
      assert "" + Render(style, rest) == Render(style, rest);
    } else if |cs| == 1 {
      RenderClause(style, cs[0], rest);
    } else {
      RenderClause(style, cs[0], T(" AND ", Conjunction(cs[1..], rest)));
      RenderWhere(style, cs[1..], rest);
      Regroup3(ClauseText(style, cs[0]), " AND ", WhereText(style, cs[1..]), Render(style, rest));
    }
  }

  lemma {:induction false} RenderSets(style: Style, list: seq<Assignment>, rest: Tokens)
    ensures Render(style, WrittenSets(list, rest)) == SetText(style, list) + Render(style, rest)
  {
    var r := Render(style, rest);
    if list == [] {
      assert "" + r == r;
    } else if |list| == 1 {
      RenderPh(style, list[0].ph, rest);
      Regroup2(list[0].column + " = ", Ph(style, list[0].ph), r);
    } else {
      RenderPh(style, list[0].ph, T(", ", WrittenSets(list[1..], rest)));
      RenderSets(style, list[1..], rest);
      Regroup4(list[0].column + " = ", Ph(style, list[0].ph), ", ", SetText(style, list[1..]), r);
    }
  }

  // ---- Whole statements ----

  function LimitText(style: Style, limit: Option<nat>): string {
    if limit.Some? then " LIMIT " + Ph(style, limit.value) else ""
  }

  function SelectText(style: Style, s: Spec, columns: string, newline: string, sel: Select): string {
    "SELECT " + columns + " FROM " + s.table + newline + "WHERE " + WhereText(style, Clauses(s, sel.where))
    + (newline + "ORDER BY " + OrderExpr(s)) + LimitText(style, sel.limit)
  }

  lemma {:induction false} RenderOrder(style: Style, s: Spec, newline: string, limit: Option<nat>, rest: Tokens)
    ensures Render(style, OrderTokens(s, newline, limit, rest)) ==
            (newline + "ORDER BY " + OrderExpr(s)) + (LimitText(style, limit) + Render(style, rest))
  {
    var r := Render(style, rest);
    if limit.Some? {
      RenderPh(style, limit.value, rest);
      Regroup2(" LIMIT ", Ph(style, limit.value), r);
    } else {
      assert "" + r == r;
    }
  }

  lemma {:induction false} RenderSelect(style: Style, s: Spec, columns: string, newline: string, sel: Select, rest: Tokens)
    ensures Render(style, SelectTokens(s, columns, newline, sel, rest)) ==
            SelectText(style, s, columns, newline, sel) + Render(style, rest)
  {
    var order := OrderTokens(s, newline, sel.limit, rest);
    WhereIsWritten(s, sel.where, order);
    RenderWhere(style, Clauses(s, sel.where), order);
    RenderOrder(style, s, newline, sel.limit, rest);
    Regroup4("SELECT " + columns + " FROM " + s.table + newline + "WHERE ", WhereText(style, Clauses(s, sel.where)),
             newline + "ORDER BY " + OrderExpr(s), LimitText(style, sel.limit), Render(style, rest));
  }

  /** The statement as one string. */
  function StmtText(style: Style, s: Spec, stmt: Stmt): string {
    match stmt
    case CteUpdate(sel, sets, joinSpace) =>
      "WITH due AS (\n" + SelectText(style, s, JoinColumns(s, joinSpace), "\n", sel)
      + "\nFOR UPDATE SKIP LOCKED\n)\nUPDATE " + (s.table + " t SET ") + SetText(style, Assignments(s, sets))
      + (" FROM due WHERE " + WrittenJoin(JoinedOn(s, joinSpace)) + "\nRETURNING " + Columns(s.returning, "t."))
    case InUpdate(sets, sel, recheck) =>
      ("UPDATE " + s.table + " SET ") + SetText(style, Assignments(s, sets))
      + ("\nWHERE " + s.idColumn + " IN (\n  ") + SelectText(style, s, s.idColumn, "\n  ", sel)
      + "\n)\nAND " + WhereText(style, Clauses(s, recheck)) + ("\nRETURNING " + Columns(s.returning, ""))
    case LockingSelect(sel) =>
      SelectText(style, s, Columns(s.returning, ""), "\n", sel) + "\nFOR UPDATE SKIP LOCKED"
    case PlainUpdate(sets, where, handsBack) =>
      ("UPDATE " + s.table + " SET ") + SetText(style, Assignments(s, sets))
      + (if handsBack then "\nWHERE " else " WHERE ") + WhereText(style, Clauses(s, where))
      + (if handsBack then "\nRETURNING " + Columns(s.returning, "") else "")
  }

  lemma {:induction false} RenderLast(style: Style, text: string)
    ensures Render(style, T(text, End)) == text
  {
    assert text + "" == text;
  }

  lemma {:induction false} SetsThen(style: Style, s: Spec, sets: seq<Assign>, rest: Tokens)
    ensures Render(style, SetTokens(s, sets, rest)) == SetText(style, Assignments(s, sets)) + Render(style, rest)
  {
    SetsAreWritten(s, sets, rest);
    RenderSets(style, Assignments(s, sets), rest);
  }

  lemma {:induction false} WhereThen(style: Style, s: Spec, preds: seq<Pred>, rest: Tokens)
    ensures Render(style, WhereTokens(s, preds, rest)) == WhereText(style, Clauses(s, preds)) + Render(style, rest)
  {
    WhereIsWritten(s, preds, rest);
    RenderWhere(style, Clauses(s, preds), rest);
  }

  lemma {:induction false} CteIsText(style: Style, s: Spec, stmt: Stmt)
    requires stmt.CteUpdate?
    ensures Render(style, StmtTokens(s, stmt)) == StmtText(style, s, stmt)
  {
    var CteUpdate(sel, sets, joinSpace) := stmt;
    var update := JoinedUpdate(s, sets, joinSpace);
    var a, b := SelectText(style, s, JoinColumns(s, joinSpace), "\n", sel), SetText(style, Assignments(s, sets));
    var join := JoinText(s, joinSpace);
    RenderSelect(style, s, JoinColumns(s, joinSpace), "\n", sel, update);
    SetsThen(style, s, sets, T(join, End));
    RenderLast(style, join);
    JoinIsWritten(s, joinSpace);
    assert Render(style, update) == "\nFOR UPDATE SKIP LOCKED\n)\nUPDATE " + ((s.table + " t SET ") + (b + join));
    Regroup4("WITH due AS (\n", a, "\nFOR UPDATE SKIP LOCKED\n)\nUPDATE ", s.table + " t SET ", b + join);
    Regroup2("WITH due AS (\n" + a + "\nFOR UPDATE SKIP LOCKED\n)\nUPDATE " + (s.table + " t SET "), b, join);
  }

  lemma {:induction false} InIsText(style: Style, s: Spec, stmt: Stmt)
    requires stmt.InUpdate?
    ensures Render(style, StmtTokens(s, stmt)) == StmtText(style, s, stmt)
  {
    var InUpdate(sets, sel, recheck) := stmt;
    var back := "\nRETURNING " + Columns(s.returning, "");
    var again := T("\n)\nAND ", WhereTokens(s, recheck, T(back, End)));
    var sub := T("\nWHERE " + s.idColumn + " IN (\n  ", SelectTokens(s, s.idColumn, "\n  ", sel, again));
    var a, b := SetText(style, Assignments(s, sets)), SelectText(style, s, s.idColumn, "\n  ", sel);
    var c := WhereText(style, Clauses(s, recheck));
    SetsThen(style, s, sets, sub);
    RenderSelect(style, s, s.idColumn, "\n  ", sel, again);
    WhereThen(style, s, recheck, T(back, End));
    RenderLast(style, back);
    var head, mid := "UPDATE " + s.table + " SET ", "\nWHERE " + s.idColumn + " IN (\n  ";
    Regroup4(head, a, mid, b, "\n)\nAND " + (c + back));
    Regroup3(head + a + mid + b, "\n)\nAND ", c, back);
  }

  lemma {:induction false} PlainIsText(style: Style, s: Spec, stmt: Stmt)
    requires stmt.PlainUpdate?
    ensures Render(style, StmtTokens(s, stmt)) == StmtText(style, s, stmt)
  {
    var PlainUpdate(sets, where, handsBack) := stmt;
    var last := if handsBack then T("\nRETURNING " + Columns(s.returning, ""), End) else End;
    var back := if handsBack then "\nRETURNING " + Columns(s.returning, "") else "";
    var mid := if handsBack then "\nWHERE " else " WHERE ";
    SetsThen(style, s, sets, T(mid, WhereTokens(s, where, last)));
    WhereThen(style, s, where, last);
    RenderLast(style, back);
    Regroup4("UPDATE " + s.table + " SET ", SetText(style, Assignments(s, sets)), mid,
             WhereText(style, Clauses(s, where)), back);
  }

  /** Every statement, in every placeholder style, has exactly this text. */
  lemma {:induction false} EveryStatementIsText(style: Style, s: Spec, stmt: Stmt)
    ensures Render(style, StmtTokens(s, stmt)) == StmtText(style, s, stmt)
  {
    match stmt
    case CteUpdate(_, _, _) => CteIsText(style, s, stmt);
    case InUpdate(_, _, _) => InIsText(style, s, stmt);
    case LockingSelect(sel) =>
      RenderSelect(style, s, Columns(s.returning, ""), "\n", sel, T("\nFOR UPDATE SKIP LOCKED", End));
      RenderLast(style, "\nFOR UPDATE SKIP LOCKED");
    case PlainUpdate(_, _, _) => PlainIsText(style, s, stmt);
  }
}

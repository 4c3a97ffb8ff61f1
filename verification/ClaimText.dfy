/**
 The text of the claim statements (claiming/rich.go, stmt.go, mysql.go): what a driver that scans it
 for placeholders finds.
 */
module ClaimTexts {
  import opened Basics
  import opened ClaimTables
  import opened ClaimStatements
  import opened ClaimProofs

  function Mark(style: Style): char {
    if style.Dollar? then '$' else '?'
  }

  /** What follows the mark: the ordinal, or nothing for a placeholder bound by position. */
  function OrdinalText(style: Style, ph: nat): string {
    if style.Positional? then "" else Itoa(ph)
  }

  function Render(style: Style, toks: Tokens): string {
    match toks
    case End => ""
    case T(text, rest) => text + Render(style, rest)
    case P(ph, rest) => [Mark(style)] + (OrdinalText(style, ph) + Render(style, rest))
  }

  // ---- Scanning ----

  predicate Digit(c: char) {
    '0' <= c <= '9'
  }

  function LeadingDigits(text: string): string {
    if text == "" || !Digit(text[0]) then "" else [text[0]] + LeadingDigits(text[1..])
  }

  /** The digits behind each mark of the text, from left to right. */
  function Scan(mark: char, text: string): seq<string> {
    if text == "" then []
    else if text[0] == mark then [LeadingDigits(text[1..])] + Scan(mark, text[1..])
    else Scan(mark, text[1..])
  }

  lemma {:induction false} ScanSkips(mark: char, text: string, rest: string)
    requires mark !in text
    ensures Scan(mark, text + rest) == Scan(mark, rest)
  {
    if text == "" {
      assert text + rest == rest;
    } else {
      assert (text + rest)[1..] == text[1..] + rest;
      ScanSkips(mark, text[1..], rest);
    }
  }

  lemma {:induction false} LeadingDigitsEnd(digits: string, rest: string)
    requires forall c :: c in digits ==> Digit(c)
    requires rest == "" || !Digit(rest[0])
    ensures LeadingDigits(digits + rest) == digits
  {
    if digits == "" {
      assert digits + rest == rest;
    } else {
      assert (digits + rest)[1..] == digits[1..] + rest;
      LeadingDigitsEnd(digits[1..], rest);
    }
  }

  // ---- Statements that scan back ----

  /** What follows a placeholder does not run on into it. */
  predicate Apart(toks: Tokens) {
    toks.End? || (toks.T? && toks.text != "" && !Digit(toks.text[0]))
  }

  /** No text holds the mark, and every placeholder is followed by something else. */
  predicate Legible(mark: char, toks: Tokens) {
    match toks
    case End => true
    case T(text, rest) => mark !in text && Legible(mark, rest)
    case P(_, rest) => Apart(rest) && Legible(mark, rest)
  }

  function OrdinalTexts(style: Style, phs: seq<nat>): seq<string> {
    if phs == [] then [] else [OrdinalText(style, phs[0])] + OrdinalTexts(style, phs[1..])
  }

  lemma {:induction false} ScanFindsPlaceholders(style: Style, toks: Tokens)
    requires Legible(Mark(style), toks)
    ensures Scan(Mark(style), Render(style, toks)) == OrdinalTexts(style, Placeholders(toks))
  {
    match toks
    case End =>
    case T(text, rest) =>
      ScanSkips(Mark(style), text, Render(style, rest));
      ScanFindsPlaceholders(style, rest);
    case P(ph, rest) =>
      var digits, tail := OrdinalText(style, ph), Render(style, rest);
      ItoaReadsBack(ph);
      LeadingDigitsEnd(digits, tail);
      ScanSkips(Mark(style), digits, tail);
      ScanFindsPlaceholders(style, rest);
      assert Render(style, toks)[1..] == digits + tail;
      assert ([ph] + Placeholders(rest))[1..] == Placeholders(rest);
  }

  // ---- Marks in names ----

  /** No text between the placeholders holds the mark. */
  predicate MarkFree(mark: char, toks: Tokens) {
    match toks
    case End => true
    case T(text, rest) => mark !in text && MarkFree(mark, rest)
    case P(_, rest) => MarkFree(mark, rest)
  }

  lemma {:induction false} ScanAddsUp(mark: char, text: string, rest: string)
    ensures |Scan(mark, text + rest)| == |Scan(mark, text)| + |Scan(mark, rest)|
  {
    if text == "" {
      assert text + rest == rest;
    } else {
      assert (text + rest)[1..] == text[1..] + rest;
      ScanAddsUp(mark, text[1..], rest);
    }
  }

  lemma {:induction false} ScanFindsEveryMark(mark: char, text: string)
    ensures Scan(mark, text) == [] <==> mark !in text
  {
    if text != "" {
      ScanFindsEveryMark(mark, text[1..]);
      assert mark in text <==> text[0] == mark || mark in text[1..];
    }
  }

  /** A scan never misses a placeholder, and finds more than the placeholders exactly when a text holds the mark. */
  lemma {:induction false} ScanFindsMoreExactlyWhen(style: Style, toks: Tokens)
    ensures var found := |Scan(Mark(style), Render(style, toks))|;
            found >= |Placeholders(toks)| && (found == |Placeholders(toks)| <==> MarkFree(Mark(style), toks))
  {
    match toks
    case End =>
    case T(text, rest) =>
      ScanAddsUp(Mark(style), text, Render(style, rest));
      ScanFindsEveryMark(Mark(style), text);
      ScanFindsMoreExactlyWhen(style, rest);
    case P(ph, rest) =>
      var digits, tail := OrdinalText(style, ph), Render(style, rest);
      ItoaReadsBack(ph);
      ScanSkips(Mark(style), digits, tail);
      ScanFindsMoreExactlyWhen(style, rest);
      assert Render(style, toks)[1..] == digits + tail;
  }

  // ---- The statements of the builders ----

  /** No identifier holds the mark. */
  predicate Unmarked(mark: char, s: Spec) {
    && mark !in s.table && mark !in s.idColumn && mark !in s.dueColumn && mark !in s.leaseColumn
    && mark !in s.orderBy && mark !in s.ownerColumn && mark !in s.filterColumn
    && forall i :: 0 <= i < |s.returning| ==> mark !in s.returning[i]
  }

  lemma {:induction false} ColumnsUnmarked(mark: char, cols: seq<string>, prefix: string)
    requires mark in "$?" && mark !in prefix && forall i :: 0 <= i < |cols| ==> mark !in cols[i]
    ensures mark !in Columns(cols, prefix)
  {
    if |cols| > 1 {
      ColumnsUnmarked(mark, cols[1..], prefix);
    }
  }

  lemma {:induction false} ListLegible(mark: char, phs: seq<nat>, spaced: bool, rest: Tokens)
    requires mark in "$?" && Legible(mark, rest) && Apart(rest)
    ensures Legible(mark, ListTokens(phs, spaced, rest))
  {
    if |phs| > 1 {
      ListLegible(mark, phs[1..], spaced, rest);
    }
  }

  lemma {:induction false} PredLegible(mark: char, s: Spec, pred: Pred, rest: Tokens)
    requires mark in "$?" && Unmarked(mark, s) && Legible(mark, rest) && Apart(rest)
    ensures Legible(mark, PredTokens(s, pred, rest))
  {
    if pred.IdAmong? {
      ListLegible(mark, pred.phs, pred.spaced, T(")", rest));
    }
  }

  lemma {:induction false} WhereLegible(mark: char, s: Spec, preds: seq<Pred>, rest: Tokens)
    requires mark in "$?" && Unmarked(mark, s) && Legible(mark, rest) && Apart(rest)
    ensures Legible(mark, WhereTokens(s, preds, rest))
  {
    if |preds| == 1 {
      PredLegible(mark, s, preds[0], rest);
    } else if preds != [] {
      WhereLegible(mark, s, preds[1..], rest);
      PredLegible(mark, s, preds[0], T(" AND ", WhereTokens(s, preds[1..], rest)));
    }
  }

  lemma {:induction false} SetsLegible(mark: char, s: Spec, sets: seq<Assign>, rest: Tokens)
    requires mark in "$?" && Unmarked(mark, s) && Legible(mark, rest) && Apart(rest)
    ensures Legible(mark, SetTokens(s, sets, rest))
  {
    if sets != [] {
      SetsLegible(mark, s, sets[1..], rest);
    }
  }

  lemma {:induction false} OrderLegible(mark: char, s: Spec, newline: string, limit: Option<nat>, rest: Tokens)
    requires mark in "$?" && Unmarked(mark, s) && (newline == "\n" || newline == "\n  ")
    requires Legible(mark, rest) && Apart(rest)
    ensures Legible(mark, OrderTokens(s, newline, limit, rest)) && Apart(OrderTokens(s, newline, limit, rest))
  {
  }

  lemma {:induction false} SelectLegible(mark: char, s: Spec, columns: string, newline: string, sel: Select, rest: Tokens)
    requires mark in "$?" && Unmarked(mark, s) && mark !in columns && (newline == "\n" || newline == "\n  ")
    requires Legible(mark, rest) && Apart(rest)
    ensures Legible(mark, SelectTokens(s, columns, newline, sel, rest))
  {
    OrderLegible(mark, s, newline, sel.limit, rest);
    WhereLegible(mark, s, sel.where, OrderTokens(s, newline, sel.limit, rest));
  }

  lemma {:induction false} JoinTextUnmarked(mark: char, s: Spec, joinSpace: bool)
    requires mark in "$?" && Unmarked(mark, s)
    ensures mark !in JoinText(s, joinSpace) && Apart(T(JoinText(s, joinSpace), End))
  {
    ColumnsUnmarked(mark, s.returning, "t.");
    var back := "\nRETURNING " + Columns(s.returning, "t.");
    assert mark !in back;
    assert mark !in JoinSpaceText(s, joinSpace);
    var onId := s.idColumn + (JoinSpaceText(s, joinSpace) + back);
    assert mark !in onId;
    assert mark !in s.idColumn + (" = due." + onId);
  }

  lemma {:induction false} JoinedUpdateLegible(mark: char, s: Spec, sets: seq<Assign>, joinSpace: bool)
    requires mark in "$?" && Unmarked(mark, s)
    ensures Legible(mark, JoinedUpdate(s, sets, joinSpace)) && Apart(JoinedUpdate(s, sets, joinSpace))
  {
    JoinTextUnmarked(mark, s, joinSpace);
    SetsLegible(mark, s, sets, T(JoinText(s, joinSpace), End));
  }

  lemma {:induction false} CteLegible(mark: char, s: Spec, stmt: Stmt)
    requires mark in "$?" && Unmarked(mark, s) && stmt.CteUpdate?
    ensures Legible(mark, StmtTokens(s, stmt))
  {
    JoinedUpdateLegible(mark, s, stmt.sets, stmt.joinSpace);
    SelectLegible(mark, s, JoinColumns(s, stmt.joinSpace), "\n", stmt.sel, JoinedUpdate(s, stmt.sets, stmt.joinSpace));
  }

  lemma {:induction false} InLegible(mark: char, s: Spec, stmt: Stmt)
    requires mark in "$?" && Unmarked(mark, s) && stmt.InUpdate?
    ensures Legible(mark, StmtTokens(s, stmt))
  {
    ColumnsUnmarked(mark, s.returning, "");
    var last := T("\nRETURNING " + Columns(s.returning, ""), End);
    var again := T("\n)\nAND ", WhereTokens(s, stmt.recheck, last));
    var sub := T("\nWHERE " + s.idColumn + " IN (\n  ", SelectTokens(s, s.idColumn, "\n  ", stmt.sel, again));
    WhereLegible(mark, s, stmt.recheck, last);
    SelectLegible(mark, s, s.idColumn, "\n  ", stmt.sel, again);
    SetsLegible(mark, s, stmt.sets, sub);
  }

  lemma {:induction false} PlainLegible(mark: char, s: Spec, stmt: Stmt)
    requires mark in "$?" && Unmarked(mark, s) && stmt.PlainUpdate?
    ensures Legible(mark, StmtTokens(s, stmt))
  {
    ColumnsUnmarked(mark, s.returning, "");
    var last := if stmt.handsBack then T("\nRETURNING " + Columns(s.returning, ""), End) else End;
    WhereLegible(mark, s, stmt.where, last);
    SetsLegible(mark, s, stmt.sets, T(if stmt.handsBack then "\nWHERE " else " WHERE ", WhereTokens(s, stmt.where, last)));
  }

  lemma {:induction false} StatementIsLegible(mark: char, s: Spec, stmt: Stmt)
    requires mark in "$?" && Unmarked(mark, s)
    ensures Legible(mark, StmtTokens(s, stmt))
  {
    match stmt
    case CteUpdate(_, _, _) => CteLegible(mark, s, stmt);
    case InUpdate(_, _, _) => InLegible(mark, s, stmt);
    case LockingSelect(sel) =>
      ColumnsUnmarked(mark, s.returning, "");
      SelectLegible(mark, s, Columns(s.returning, ""), "\n", sel, T("\nFOR UPDATE SKIP LOCKED", End));
    case PlainUpdate(_, _, _) => PlainLegible(mark, s, stmt);
  }

  /** A driver that scans the text finds, from left to right, one placeholder for each of the
      statement's clauses in order: with its ordinal in the numbered styles, bare otherwise. */
  lemma {:induction false} TextCarriesThePlaceholders(style: Style, s: Spec, stmt: Stmt)
    requires Unmarked(Mark(style), s)
    ensures var found, phs := Scan(Mark(style), Render(style, StmtTokens(s, stmt))), StmtPhs(stmt);
            && |found| == |phs|
            && forall i :: 0 <= i < |phs| ==>
                 if style.Positional? then found[i] == "" else found[i] == Itoa(phs[i]) && Decimal(found[i]) == phs[i]
  {
    StatementIsLegible(Mark(style), s, stmt);
    ScanFindsPlaceholders(style, StmtTokens(s, stmt));
    TextualOrder(s, stmt);
    var phs := StmtPhs(stmt);
    OrdinalTextsAt(style, phs);
    forall i | 0 <= i < |phs| ensures Decimal(Itoa(phs[i])) == phs[i] {
      ItoaReadsBack(phs[i]);
    }
  }

  /** Names are spliced in unquoted: the driver finds as many placeholders as the clauses have values
      exactly when no name or clause text of the statement holds the mark. */
  lemma {:induction false} TextHasOnePlaceholderPerValueExactlyWhen(style: Style, s: Spec, stmt: Stmt)
    ensures var found := |Scan(Mark(style), Render(style, StmtTokens(s, stmt)))|;
            && found >= |StmtPhs(stmt)|
            && (found == |StmtPhs(stmt)| <==> MarkFree(Mark(style), StmtTokens(s, stmt)))
            && (Unmarked(Mark(style), s) ==> found == |StmtPhs(stmt)|)
  {
    ScanFindsMoreExactlyWhen(style, StmtTokens(s, stmt));
    TextualOrder(s, stmt);
    if Unmarked(Mark(style), s) {
      TextCarriesThePlaceholders(style, s, stmt);
    }
  }

  lemma {:induction false} OrdinalTextsAt(style: Style, phs: seq<nat>)
    ensures |OrdinalTexts(style, phs)| == |phs|
    ensures forall i :: 0 <= i < |phs| ==> OrdinalTexts(style, phs)[i] == OrdinalText(style, phs[i])
  {
    if phs != [] {
      OrdinalTextsAt(style, phs[1..]);
    }
  }

  /** On every dialect the text of the claim, as scanned, names an argument at each placeholder and a
      placeholder for each argument; where placeholders are bare there are as many as arguments. */
  lemma {:induction false} EveryClaimTextIsBound(d: Dialect, s: Spec, p: Params)
    requires !d.Unknown? && Unmarked(Mark(StyleOf(d)), s)
    ensures var b := ClaimOf(d, s, p).value;
            var found := Scan(Mark(StyleOf(d)), Render(StyleOf(d), StmtTokens(s, b.stmt)));
            if StyleOf(d).Positional? then |found| == |b.args|
            else && (forall i :: 0 <= i < |found| ==> 1 <= Decimal(found[i]) <= |b.args|)
                 && (forall n :: 1 <= n <= |b.args| ==> Itoa(n) in found)
  {
    EveryDialectIsBound(d, s, p);
    var b := ClaimOf(d, s, p).value;
    TextCarriesThePlaceholders(StyleOf(d), s, b.stmt);
    TextualOrder(s, b.stmt);
    var found, phs := Scan(Mark(StyleOf(d)), Render(StyleOf(d), StmtTokens(s, b.stmt))), StmtPhs(b.stmt);
    if !StyleOf(d).Positional? {
      forall n: nat | 1 <= n <= |b.args| ensures Itoa(n) in found {
        assert n in phs;
        var i :| 0 <= i < |phs| && phs[i] == n;
        assert found[i] == Itoa(n);
      }
    }
  }
}

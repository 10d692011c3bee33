/** When the text of a statement or of an expression reads back: a condition that is also
    necessary. */
module RoundTrips {
  import opened Text
  import opened ClangAst
  import opened Formatters
  import opened Lexing
  import opened CoqTerms
  import opened Docs
  import opened DocReading
  import opened DocTerms
  import opened DocSizes
  import opened ExprDocs
  import opened ExprReading
  import opened StmtDocs
  import opened StmtReading
  import opened CoqExprs
  import opened ExprSizes
  import opened Translation
  import opened ExprTerms
  import opened DeclTerms
  import opened CoqStmts
  import opened CoqReading
  import opened StmtTerms
  import opened StmtSizes

  /** Words that run together are lost: the text of a statement that reads back has as many tokens
      as were written, for reading takes no fewer. */
  lemma ReadsSeparated(s: Stmt)
    requires StmtOk(s) && ReadProgram(TextOf(s)) == Some(One(s))
    ensures Separated(s)
  {
    hide StmtOk, Placed, Separated, Spelled, StmtDoc, ReadStmt, Put, One, CSize, Size;
    hide Weight, Lex, Yield, ParseTerm;
    StmtShape(s);
    UseStmt(s);
    LexDoc(StmtDoc(s));
    StmtWritten(s);
    var toks := Lex(TextOf(s)).value;
    TermWeight(toks);
    ReadingTakes(Parse(toks).value);
    EmptyWeight();
  }

  lemma EmptyWeight()
    ensures Weight([]) == 0
  {
  }

  /** The text of a statement reads back as the flattened statement exactly when its words stay
      apart and no label stands where one statement is expected. */
  lemma RoundTrip(s: Stmt)
    requires StmtOk(s)
    ensures ReadProgram(TextOf(s)) == Some(One(s)) <==> Placed(s, false) && Separated(s)
  {
    hide StmtOk, Placed, Separated, TextOf, One, ReadProgram;
    TextRead(s);
    if ReadProgram(TextOf(s)) == Some(One(s)) {
      ReadsSeparated(s);
    }
  }

  /** Statements with the same text are the same once flattened. */
  lemma TextDeterminesStatement(s: Stmt, t: Stmt)
    requires StmtOk(s) && Placed(s, false) && Separated(s)
    requires StmtOk(t) && Placed(t, false) && Separated(t)
    requires TextOf(s) == TextOf(t)
    ensures One(s) == One(t)
  {
    hide StmtOk, Placed, Separated, TextOf, One, ReadProgram;
    RoundTrip(s);
    RoundTrip(t);
  }

  // ---- Expressions ---------------------------------------------------------------------------

  /** The text of an expression printed on its own. */
  function ExprText(e: Expr): string {
    Put(INITIAL, TopDoc(e)).out
  }

  /** The expression that a text spells. */
  function ReadExprText(text: string): Option<CExpr> {
    var t :- ReadText(text);
    ReadExpr(t)
  }

  /** Words of an expression that run together are lost, too. */
  lemma ExprSeparated(e: Expr)
    requires TopOk(e) && ReadExprText(ExprText(e)) == Some(TopToCoq(e))
    ensures Apart(e)
  {
    hide TopOk, TopToCoq, Apart, Spelled, TopDoc, ReadExpr, Put, ESize, Size, Weight, Lex, Yield, ParseTerm;
    TopShape(e);
    LexDoc(TopDoc(e));
    TopTokens(e);
    var toks := Lex(ExprText(e)).value;
    TermWeight(toks);
    ExprTakes(Parse(toks).value);
    EmptyWeight();
  }

  /** The text of an expression reads back as the Coq expression for which it stands, operators,
      operands, names, numbers and types in place, exactly when its words stay apart. */
  lemma ExprReadsBack(e: Expr)
    requires TopOk(e)
    ensures ReadExprText(ExprText(e)) == Some(TopToCoq(e)) <==> Apart(e)
  {
    hide TopOk, TopToCoq, Apart, TopDoc, ReadExpr, Put, TermOf, ReadText;
    if Apart(e) {
      ExprRoundTrip(e);
      TopRead(e);
    } else if ReadExprText(ExprText(e)) == Some(TopToCoq(e)) {
      ExprSeparated(e);
    }
  }

  // ---- A label directly under `switch` -------------------------------------------------------

  /** Joined elements at the end of a constructor are a list of their own. */
  lemma {:induction false} TrailingEnd(d: Doc)
    ensures Trailing(Elements(d), END) == TermOf(d)
    decreases d
  {
    if d.DJoin? {
      TrailingEnd(d.rest);
      assert Elements(d)[1..] == Elements(d.rest);
    } else {
      assert [TermOf(d)] + [] == [TermOf(d)];
    }
  }

  lemma JoinedSwitch(v: Doc, cond: Doc, label_: Doc, sub: Doc)
    requires !v.DJoin? && !cond.DJoin? && !label_.DJoin?
    ensures TermOf(DCtor(true, "Sswitch", Arg0(v, Arg0(cond, Arg0(DJoin(label_, sub), END)))))
         == Infix("::", Apply(Ident("Sswitch"), [TermOf(v), TermOf(cond), TermOf(label_)]), TermOf(sub))
  {
    hide TermOf, Trailing;
    var last := Arg0(DJoin(label_, sub), END);
    var args := Arg0(v, Arg0(cond, last));
    LastJoined(label_, sub);
    OneMore(Tight, cond, last);
    OneMore(Tight, v, Arg0(cond, last));
    assert Group(args) == [TermOf(v), TermOf(cond), TermOf(label_)];
    CtorJoined("Sswitch", args, TermOf(sub));
  }

  lemma LastJoined(label_: Doc, sub: Doc)
    requires !label_.DJoin?
    ensures Group(Arg0(DJoin(label_, sub), END)) == [TermOf(label_)]
    ensures Behind(Arg0(DJoin(label_, sub), END)) == Some(TermOf(sub))
  {
    hide TermOf, Trailing;
    var d := DJoin(label_, sub);
    assert Elements(d) == [TermOf(label_)] + Elements(sub);
    assert Elements(d)[1..] == Elements(sub);
    TrailingEnd(sub);
  }

  lemma CtorJoined(head: string, args: Args, more: Term)
    requires Behind(args) == Some(more) && Group(args) != []
    ensures TermOf(DCtor(true, head, args)) == Infix("::", Apply(Ident(head), Group(args)), more)
  {
    assert ([Ident(head)] + Group(args))[1..] == Group(args);
  }

  /** A `switch` whose body is a bare `case`, as in `switch (x) case 1: f();`, prints as a list
      cell with the `switch` in front and the labelled statement behind: it is no statement. */
  lemma CaseUnderSwitch(v: Option<ConditionVar>, cond: Expr, lo: int, hi: Option<int>, sub: Stmt)
    requires var s := Switch(v, cond, Case(lo, hi, sub)); StmtOk(s) && Separated(s)
    ensures var s := Switch(v, cond, Case(lo, hi, sub));
            && ReadText(TextOf(s)) == Some(Infix("::",
                 Apply(Ident("Sswitch"), [TermOf(CondVarDoc(v)), TopTerm(cond), TermOf(CaseLabelDoc(lo, hi))]),
                 TermOf(StmtDoc(sub))))
            && ReadProgram(TextOf(s)) == None
  {
    hide TermOf, TopDoc, CondVarDoc, CaseLabelDoc, TopOk, DeclOk, Separated, TextOf, ReadText, ReadProgram, StmtDoc;
    hide ReadExpr, TopToCoq, ReadOptDecl, CondVarToCoq;
    var s := Switch(v, cond, Case(lo, hi, sub));
    TextRead(s);
    SwitchNode(s);
    CaseNode(s.body);
    CondVarRead(v);
    UseTop(cond);
    LabelFirst(lo, hi);
    JoinedSwitch(CondVarDoc(v), TopDoc(cond), CaseLabelDoc(lo, hi), StmtDoc(sub));
    assert !Placed(s, false);
  }
}

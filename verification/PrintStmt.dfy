/** The statement visitors of src/PrintStmt.cpp. */
module PrintStmts {
  import opened Text
  import opened Formatters
  import opened ClangAst
  import opened Docs
  import opened ExprDocs
  import opened StmtDocs
  import opened CoqPrinters
  import opened PrintExprs
  import opened PrintLocalDecls

  /** The variable declared in a condition, if any. */
  method PrintCondVar(v: Option<ConditionVar>, coq: CoqPrinter)
    modifies coq.output
    ensures coq.output.St() == Put(old(coq.output.St()), CondVarDoc(v))
    ensures coq.output.depth == old(coq.output.depth)
  {
    ghost var st := coq.output.St();
    match v
    case Some(d) =>
      coq.Ctor("Some", true);
      var _ := PrintLocalDecl(d, coq);
      PutEnd(coq.output.St());
      coq.EndCtor();
      PutCtor1(st, true, "Some", VarDoc(d), END);
    case None => PrintNone(coq);
  }

  method PrintOptExpr(e: Option<Expr>, coq: CoqPrinter)
    modifies coq.output
    ensures coq.output.St() == Put(old(coq.output.St()), OptExprDoc(e))
    ensures coq.output.depth == old(coq.output.depth)
  {
    hide TopDoc;
    ghost var st := coq.output.St();
    match e
    case Some(x) =>
      coq.Ctor("Some", true);
      PrintTop(x, coq);
      PutEnd(coq.output.St());
      coq.EndCtor();
      PutCtor1(st, true, "Some", TopDoc(x), END);
    case None => PrintNone(coq);
  }

  method VisitDeclStmt(s: Stmt, coq: CoqPrinter)
    requires s.DeclStmt?
    modifies coq.output
    ensures coq.output.St() == Put(old(coq.output.St()), StmtDoc(s))
    ensures coq.output.depth == old(coq.output.depth)
    decreases s, 0
  {
    ghost var st := coq.output.St();
    var ds := s.decls;
    coq.Ctor("Sdecl", true);
    ghost var st1 := coq.output.St();
    coq.BeginList();
    ghost var st2 := coq.output.St();
    var i := 0;
    assert ds[0..] == ds;
    while i < |ds|
      invariant 0 <= i <= |ds|
      invariant PutItems(coq.output.St(), LocalDocs(ds[i..])) == PutItems(st2, LocalDocs(ds))
      invariant coq.output.depth == st2.depth
    {
      ghost var cur := coq.output.St();
      assert ds[i..][1..] == ds[i + 1..];
      var printed := PrintLocalDecl(ds[i], coq);
      if printed {
        coq.Cons();
        PutItemsStep(cur, LocalDoc(ds[i]).value, LocalDocs(ds[i + 1..]));
      } else {
        assert [] + LocalDocs(ds[i + 1..]) == LocalDocs(ds[i + 1..]);
      }
      i := i + 1;
    }
    coq.EndList();
    PutDList(st1, LocalDocs(ds));
    PutEnd(coq.output.St());
    coq.EndCtor();
    PutCtor1(st, true, "Sdecl", DList(LocalDocs(ds)), END);
  }

  method VisitWhileStmt(s: Stmt, coq: CoqPrinter)
    requires s.While?
    modifies coq.output
    ensures coq.output.St() == Put(old(coq.output.St()), StmtDoc(s))
    ensures coq.output.depth == old(coq.output.depth)
    decreases s, 0
  {
    hide TopDoc, CondVarDoc, StmtDoc;
    WhileNode(s);
    ghost var st := coq.output.St();
    coq.Ctor("Swhile", true);
    PrintCondVar(s.condVar, coq);
    coq.output.AddNbsp();
    PrintTop(s.cond, coq);
    coq.output.AddNbsp();
    PrintStmt(s.body, coq);
    PutEnd(coq.output.St());
    coq.EndCtor();
    PutCtor3(st, true, "Swhile", CondVarDoc(s.condVar), TopDoc(s.cond), StmtDoc(s.body), END);
  }

  method VisitForStmt(s: Stmt, coq: CoqPrinter)
    requires s.For?
    modifies coq.output
    ensures coq.output.St() == Put(old(coq.output.St()), StmtDoc(s))
    ensures coq.output.depth == old(coq.output.depth)
    decreases s, 0
  {
    hide OptExprDoc, StmtDoc;
    ForNode(s);
    ghost var st := coq.output.St();
    coq.Ctor("Sfor", true);
    ghost var st1 := coq.output.St();
    ghost var init := match s.init { case Some(i) => SomeDoc(StmtDoc(i)) case None => NONE_DOC };
    match s.init {
      case Some(i) =>
        coq.Ctor("Some", true);
        PrintStmt(i, coq);
        PutEnd(coq.output.St());
        coq.EndCtor();
        PutCtor1(st1, true, "Some", StmtDoc(i), END);
      case None => PrintNone(coq);
    }
    coq.output.AddNbsp();
    PrintOptExpr(s.test, coq);
    coq.output.AddNbsp();
    PrintOptExpr(s.inc, coq);
    ghost var st2 := coq.output.St();
    coq.output.AddNbsp();
    PrintStmt(s.body, coq);
    PutEnd(coq.output.St());
    coq.EndCtor();
    PutCtor3(st, true, "Sfor", init, OptExprDoc(s.test), OptExprDoc(s.inc), Arg(StmtDoc(s.body), END));
    PutArg(st2, StmtDoc(s.body), END);
  }

  method VisitDoStmt(s: Stmt, coq: CoqPrinter)
    requires s.Do?
    modifies coq.output
    ensures coq.output.St() == Put(old(coq.output.St()), StmtDoc(s))
    ensures coq.output.depth == old(coq.output.depth)
    decreases s, 0
  {
    hide TopDoc, StmtDoc;
    DoNode(s);
    ghost var st := coq.output.St();
    coq.Ctor("Sdo", true);
    PrintStmt(s.body, coq);
    coq.output.AddNbsp();
    PrintTop(s.cond, coq);
    PutEnd(coq.output.St());
    coq.EndCtor();
    PutCtor2(st, true, "Sdo", StmtDoc(s.body), TopDoc(s.cond), END);
  }

  method VisitIfStmt(s: Stmt, coq: CoqPrinter)
    requires s.If?
    modifies coq.output
    ensures coq.output.St() == Put(old(coq.output.St()), StmtDoc(s))
    ensures coq.output.depth == old(coq.output.depth)
    decreases s, 0
  {
    hide TopDoc, CondVarDoc, StmtDoc;
    IfNode(s);
    ghost var st := coq.output.St();
    ghost var e := match s.els { case Some(x) => StmtDoc(x) case None => DWord("Sskip") };
    coq.Ctor("Sif", true);
    PrintCondVar(s.condVar, coq);
    coq.output.AddNbsp();
    PrintTop(s.cond, coq);
    coq.output.AddNbsp();
    PrintStmt(s.thn, coq);
    ghost var st1 := coq.output.St();
    coq.output.AddNbsp();
    match s.els {
      case Some(x) => PrintStmt(x, coq);
      case None =>
        PutWord(coq.output.St(), "Sskip");
        coq.output.Put("Sskip");
    }
    PutEnd(coq.output.St());
    coq.EndCtor();
    PutCtor3(st, true, "Sif", CondVarDoc(s.condVar), TopDoc(s.cond), StmtDoc(s.thn), Arg(e, END));
    PutArg(st1, e, END);
  }

  /** A constant of a `case` label, delimited twice. */
  method PrintCaseConstant(v: int, coq: CoqPrinter)
    modifies coq.output
    ensures coq.output.St() == Put(old(coq.output.St()), DBoxed(v))
    ensures coq.output.depth == old(coq.output.depth)
  {
    coq.output.Put("(");
    coq.output.PutInteger(v);
    coq.output.Put(")%Z");
  }

  method PrintCaseLabel(lo: int, hi: Option<int>, coq: CoqPrinter)
    modifies coq.output
    ensures coq.output.St() == Put(old(coq.output.St()), CaseLabelDoc(lo, hi))
    ensures coq.output.depth == old(coq.output.depth)
  {
    ghost var st := coq.output.St();
    coq.Ctor("Scase", true);
    ghost var st1 := coq.output.St();
    ghost var branch: Doc;
    match hi {
      case Some(h) =>
        coq.Ctor("Range", false);
        PrintCaseConstant(lo, coq);
        coq.output.AddNbsp();
        PrintCaseConstant(h, coq);
        PutEnd(coq.output.St());
        coq.EndCtor();
        branch := DCtor(false, "Range", Arg0(DBoxed(lo), Arg(DBoxed(h), END)));
        PutCtor2(st1, false, "Range", DBoxed(lo), DBoxed(h), END);
      case None =>
        coq.Ctor("Exact", false);
        PrintCaseConstant(lo, coq);
        PutEnd(coq.output.St());
        coq.EndCtor();
        branch := DCtor(false, "Exact", Arg0(DBoxed(lo), END));
        PutCtor1(st1, false, "Exact", DBoxed(lo), END);
    }
    PutEnd(coq.output.St());
    coq.EndCtor();
    PutCtor1(st, true, "Scase", branch, END);
  }

  lemma PutJoin(st: State, a: Doc, b: Doc)
    ensures Put(st, DJoin(a, b)) == Put(Consed(Put(st, a)), b)
  {
  }

  method VisitCaseStmt(s: Stmt, coq: CoqPrinter)
    requires s.Case?
    modifies coq.output
    ensures coq.output.St() == Put(old(coq.output.St()), StmtDoc(s))
    ensures coq.output.depth == old(coq.output.depth)
    decreases s, 0
  {
    hide StmtDoc;
    CaseNode(s);
    ghost var st := coq.output.St();
    PrintCaseLabel(s.lo, s.hi, coq);
    coq.Cons();
    PrintStmt(s.sub, coq);
    PutJoin(st, CaseLabelDoc(s.lo, s.hi), StmtDoc(s.sub));
  }

  method VisitDefaultStmt(s: Stmt, coq: CoqPrinter)
    requires s.Default?
    modifies coq.output
    ensures coq.output.St() == Put(old(coq.output.St()), StmtDoc(s))
    ensures coq.output.depth == old(coq.output.depth)
    decreases s, 0
  {
    hide StmtDoc;
    DefaultNode(s);
    ghost var st := coq.output.St();
    PutWord(st, "Sdefault");
    coq.output.Put("Sdefault");
    match s.defaulted {
      case Some(x) =>
        coq.Cons();
        PrintStmt(x, coq);
        PutJoin(st, DWord("Sdefault"), StmtDoc(x));
      case None =>
    }
  }

  /** Arguments that follow each other without a gap. */
  lemma PutTightCtor3(st: State, head: string, a: Doc, b: Doc, c: Doc)
    ensures Put(st, DCtor(true, head, Arg0(a, Arg0(b, Arg0(c, END)))))
         == Rparen(Put(Put(Put(Opened(st, head, true), a), b), c))
  {
    PutCtor1(st, true, head, a, Arg0(b, Arg0(c, END)));
    PutTight(Put(Opened(st, head, true), a), b, Arg0(c, END));
    PutTight(Put(Put(Opened(st, head, true), a), b), c, END);
  }

  method VisitSwitchStmt(s: Stmt, coq: CoqPrinter)
    requires s.Switch?
    modifies coq.output
    ensures coq.output.St() == Put(old(coq.output.St()), StmtDoc(s))
    ensures coq.output.depth == old(coq.output.depth)
    decreases s, 0
  {
    hide TopDoc, CondVarDoc, StmtDoc;
    SwitchNode(s);
    ghost var st := coq.output.St();
    coq.Ctor("Sswitch", true);
    PrintCondVar(s.condVar, coq);
    PrintTop(s.cond, coq);
    PrintStmt(s.body, coq);
    coq.EndCtor();
    PutTightCtor3(st, "Sswitch", CondVarDoc(s.condVar), TopDoc(s.cond), StmtDoc(s.body));
  }

  method VisitReturnStmt(s: Stmt, coq: CoqPrinter)
    requires s.Return?
    modifies coq.output
    ensures coq.output.St() == Put(old(coq.output.St()), StmtDoc(s))
    ensures coq.output.depth == old(coq.output.depth)
    decreases s, 0
  {
    hide TopDoc, StmtDoc;
    ReturnNode(s);
    ghost var st := coq.output.St();
    match s.val {
      case Some(x) =>
        coq.Ctor("Sreturn_val", true);
        PrintTop(x, coq);
        PutEnd(coq.output.St());
        coq.EndCtor();
        PutCtor1(st, true, "Sreturn_val", TopDoc(x), END);
      case None =>
        PutWord(st, "Sreturn_void");
        coq.output.Put("Sreturn_void");
    }
  }

  method VisitExpr(s: Stmt, coq: CoqPrinter)
    requires s.ExprStmt?
    modifies coq.output
    ensures coq.output.St() == Put(old(coq.output.St()), StmtDoc(s))
    ensures coq.output.depth == old(coq.output.depth)
    decreases s, 0
  {
    hide TopDoc, StmtDoc;
    ExprStmtNode(s);
    ghost var st := coq.output.St();
    coq.Ctor("Sexpr", true);
    PrintTop(s.expr, coq);
    PutEnd(coq.output.St());
    coq.EndCtor();
    PutCtor1(st, true, "Sexpr", TopDoc(s.expr), END);
  }

  method VisitCompoundStmt(s: Stmt, coq: CoqPrinter)
    requires s.Compound?
    modifies coq.output
    ensures coq.output.St() == Put(old(coq.output.St()), StmtDoc(s))
    ensures coq.output.depth == old(coq.output.depth)
    decreases s, 0
  {
    hide StmtDoc;
    CompoundNode(s);
    ghost var st := coq.output.St();
    var items := s.items;
    coq.Ctor("Sseq", true);
    ghost var st1 := coq.output.St();
    coq.BeginList();
    ghost var st2 := coq.output.St();
    var i := 0;
    assert items[0..] == items;
    while i < |items|
      invariant 0 <= i <= |items|
      invariant PutItems(coq.output.St(), ItemDocs(items[i..])) == PutItems(st2, ItemDocs(items))
      invariant coq.output.depth == st2.depth
    {
      ghost var cur := coq.output.St();
      assert items[i..][1..] == items[i + 1..];
      PrintStmt(items[i], coq);
      coq.Cons();
      PutItemsStep(cur, StmtDoc(items[i]), ItemDocs(items[i + 1..]));
      i := i + 1;
    }
    coq.EndList();
    PutDList(st1, ItemDocs(items));
    PutEnd(coq.output.St());
    coq.EndCtor();
    PutCtor1(st, true, "Sseq", DList(ItemDocs(items)), END);
  }

  method VisitAttributedStmt(s: Stmt, coq: CoqPrinter)
    requires s.Attributed?
    modifies coq.output
    ensures coq.output.St() == Put(old(coq.output.St()), StmtDoc(s))
    ensures coq.output.depth == old(coq.output.depth)
    decreases s, 0
  {
    hide StmtDoc;
    AttributedNode(s);
    ghost var st := coq.output.St();
    var attrs := s.attrs;
    ghost var docs := QuotedDocs(attrs);
    coq.Ctor("Sattr", true);
    ghost var st1 := coq.output.St();
    coq.BeginList();
    ghost var st2 := coq.output.St();
    var i := 0;
    assert attrs[0..] == attrs;
    while i < |attrs|
      invariant 0 <= i <= |attrs|
      invariant PutItems(coq.output.St(), QuotedDocs(attrs[i..])) == PutItems(st2, docs)
      invariant coq.output.depth == st2.depth
    {
      ghost var cur := coq.output.St();
      assert attrs[i..][1..] == attrs[i + 1..];
      PutQuoted(cur, attrs[i]);
      coq.Str(attrs[i]);
      coq.Cons();
      PutItemsStep(cur, DQuoted(attrs[i]), QuotedDocs(attrs[i + 1..]));
      i := i + 1;
    }
    coq.EndList();
    PutDList(st1, docs);
    PrintStmt(s.sub, coq);
    coq.EndCtor();
    PutCtor1(st, true, "Sattr", DList(docs), Arg0(StmtDoc(s.sub), END));
    PutTight(Put(st1, DList(docs)), StmtDoc(s.sub), END);
    PutEnd(Put(Put(st1, DList(docs)), StmtDoc(s.sub)));
  }

  method VisitLabelStmt(s: Stmt, coq: CoqPrinter)
    requires s.LabelStmt?
    modifies coq.output
    ensures coq.output.St() == Put(old(coq.output.St()), StmtDoc(s))
    ensures coq.output.depth == old(coq.output.depth)
    decreases s, 0
  {
    hide StmtDoc;
    LabelNode(s);
    ghost var st := coq.output.St();
    coq.Ctor("Slabeled", true);
    PutQuoted(coq.output.St(), s.name);
    coq.Str(s.name);
    coq.output.AddNbsp();
    PrintStmt(s.sub, coq);
    PutEnd(coq.output.St());
    coq.EndCtor();
    PutCtor2(st, true, "Slabeled", DQuoted(s.name), StmtDoc(s.sub), END);
  }

  method VisitGotoStmt(s: Stmt, coq: CoqPrinter)
    requires s.Goto?
    modifies coq.output
    ensures coq.output.St() == Put(old(coq.output.St()), StmtDoc(s))
    ensures coq.output.depth == old(coq.output.depth)
    decreases s, 0
  {
    hide StmtDoc;
    GotoNode(s);
    ghost var st := coq.output.St();
    coq.Ctor("Sgoto", true);
    PutQuoted(coq.output.St(), s.name);
    coq.Str(s.name);
    PutEnd(coq.output.St());
    coq.EndCtor();
    PutCtor1(st, true, "Sgoto", DQuoted(s.name), END);
  }

  /** Statements without parts. */
  method VisitWord(s: Stmt, coq: CoqPrinter)
    requires s.Break? || s.Continue? || s.Null?
    modifies coq.output
    ensures coq.output.St() == Put(old(coq.output.St()), StmtDoc(s))
    ensures coq.output.depth == old(coq.output.depth)
  {
    if s.Break? {
      coq.output.Put("Sbreak");
    } else if s.Continue? {
      coq.output.Put("Scontinue");
    } else {
      coq.output.Put("Sskip");
    }
  }

  /** Prints a statement; the depth of the formatter is restored. */
  method PrintStmt(s: Stmt, coq: CoqPrinter)
    modifies coq.output
    ensures coq.output.St() == Put(old(coq.output.St()), StmtDoc(s))
    ensures coq.output.depth == old(coq.output.depth)
    decreases s, 1
  {
    hide StmtDoc;
    match s
    case DeclStmt(_) => VisitDeclStmt(s, coq);
    case While(_, _, _) => VisitWhileStmt(s, coq);
    case For(_, _, _, _) => VisitForStmt(s, coq);
    case Do(_, _) => VisitDoStmt(s, coq);
    case Break => VisitWord(s, coq);
    case Continue => VisitWord(s, coq);
    case If(_, _, _, _) => VisitIfStmt(s, coq);
    case Case(_, _, _) => VisitCaseStmt(s, coq);
    case Default(_) => VisitDefaultStmt(s, coq);
    case Switch(_, _, _) => VisitSwitchStmt(s, coq);
    case ExprStmt(_) => VisitExpr(s, coq);
    case Return(_) => VisitReturnStmt(s, coq);
    case Compound(_) => VisitCompoundStmt(s, coq);
    case Null => VisitWord(s, coq);
    case Attributed(_, _) => VisitAttributedStmt(s, coq);
    case LabelStmt(_, _) => VisitLabelStmt(s, coq);
    case Goto(_) => VisitGotoStmt(s, coq);
  }
}

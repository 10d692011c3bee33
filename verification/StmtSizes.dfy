/** The fewest tokens from which a statement can be read, and how many are written for it:
    they agree exactly when no label stands where one statement is expected. */
module StmtSizes {
  import opened Text
  import opened ClangAst
  import opened CoqTerms
  import opened Docs
  import opened DocTerms
  import opened DocSizes
  import opened ExprDocs
  import opened StmtDocs
  import opened CoqExprs
  import opened Translation
  import opened ExprTerms
  import opened DeclTerms
  import opened ExprSizes
  import opened CoqStmts
  import opened CoqReading
  import opened DocReading
  import opened StmtReading
  import opened StmtTerms

  /** A constant and its two delimiters. */
  function ConstantSize(v: int): nat {
    (if v < 0 then 2 else 1) + 4
  }

  function BranchSize(b: Branch): nat {
    match b
    case Exact(v) => 1 + ConstantSize(v)
    case Range(lo, hi) => 1 + ConstantSize(lo) + ConstantSize(hi)
  }

  function CSize(c: CStmt): nat
    decreases c
  {
    match c
    case Sseq(items) => 2 + CSizes(items)
    case Sdecl(decls) => 1 + DSizes(decls)
    case Sif(v, cond, thn, els) => 1 + OptDSize(v) + ESize(cond) + CSize(thn) + CSize(els)
    case Swhile(v, cond, body) => 1 + OptDSize(v) + ESize(cond) + CSize(body)
    case Sfor(init, test, inc, body) =>
      1 + (if init.Some? then 1 + CSize(init.value) else 1) + OptESize(test) + OptESize(inc) + CSize(body)
    case Sdo(body, cond) => 1 + CSize(body) + ESize(cond)
    case Sswitch(v, cond, body) => 1 + OptDSize(v) + ESize(cond) + CSize(body)
    case Scase(b) => 1 + BranchSize(b)
    case SreturnVal(x) => 1 + ESize(x)
    case Sexpr(x) => 1 + ESize(x)
    case Sattr(attrs, sub) => 2 + 2 * |attrs| + CSize(sub)
    case Slabeled(_, sub) => 2 + CSize(sub)
    case Sgoto(_) => 2
    case _ => 1
  }

  /** The elements of a list, each with the sign after it. */
  function CSizes(cs: seq<CStmt>): nat
    decreases cs
  {
    if cs == [] then 0 else CSize(cs[0]) + 1 + CSizes(cs[1..])
  }

  lemma {:induction false} CSizesAppend(a: seq<CStmt>, b: seq<CStmt>)
    ensures CSizes(a + b) == CSizes(a) + CSizes(b)
    decreases |a|
  {
    if a == [] {
      assert a + b == b;
    } else {
      assert (a + b)[1..] == a[1..] + b;
      CSizesAppend(a[1..], b);
    }
  }

  lemma CSizesOne(c: CStmt)
    ensures CSizes([c]) == CSize(c) + 1
  {
    assert [c][1..] == [];
  }

  // ---- What reading takes --------------------------------------------------------------------

  lemma {:induction false} TermsTake(t: Term)
    requires ReadTerms(t).Some?
    ensures Size(t) == Sizes(ReadTerms(t).value) + |ReadTerms(t).value| + 1
  {
    match t
    case Ident(_) =>
    case Infix(_, l, r) =>
      TermsTake(r);
      SizesCons(l, ReadTerms(r).value);
  }

  lemma {:induction false} NamesTake(ts: seq<Term>)
    requires ReadNames(ts).Some?
    ensures Sizes(ts) == |ts| == |ReadNames(ts).value|
    decreases |ts|
  {
    if ts == [] {
    } else {
      NamesTake(ts[1..]);
    }
  }

  lemma ConstantTakes(t: Term)
    requires ReadConstant(t).Some?
    ensures Size(t) >= ConstantSize(ReadConstant(t).value)
  {
    var n := t.t.t;
    assert Size(t) == Size(t.t) + 2 == Size(n) + 4;
    if n.Minus? {
      assert Size(n) == 1 + Size(n.t);
    }
  }

  lemma BranchTakes(t: Term)
    requires ReadBranch(t).Some?
    ensures Size(t) >= BranchSize(ReadBranch(t).value)
  {
    hide ReadConstant, Size, ConstantSize;
    ArgsTake(t);
    ConstantTakes(t.args[0]);
    if |t.args| == 2 {
      ConstantTakes(t.args[1]);
    }
  }

  /** No term reads as a statement that has fewer tokens than the statement. */
  lemma {:induction false} ReadingTakes(t: Term)
    requires ReadStmt(t).Some?
    ensures Size(t) >= CSize(ReadStmt(t).value)
    decreases t, 2
  {
    hide ReadNode, HeadOf;
    if t.Ident? {
    } else {
      NodeTakes(HeadOf(t.fn.w).value, t);
    }
  }

  lemma {:induction false} NodeTakes(h: Head, t: Term)
    requires t.Apply? && t.fn.Ident? && ReadNode(h, t).Some?
    ensures Size(t) >= CSize(ReadNode(h, t).value)
    decreases t, 1
  {
    hide Size, ReadStmt, ReadStmts, ReadIf, ReadFor, ReadAttr, ReadBranch, ReadExpr, ReadOptDecl, ReadDecls;
    hide BranchSize, ESize, DSizes, OptDSize;
    ArgsTake(t);
    var args := t.args;
    match h
    case HSeq => ListTakes(args[0]);
    case HDecl => DeclsTake(args[0]);
    case HIf => IfTakes(t);
    case HWhile =>
      OptDeclTakes(args[0]);
      ExprTakes(args[1]);
      ReadingTakes(args[2]);
    case HFor => ForTakes(t);
    case HDo =>
      ReadingTakes(args[0]);
      ExprTakes(args[1]);
    case HSwitch =>
      OptDeclTakes(args[0]);
      ExprTakes(args[1]);
      ReadingTakes(args[2]);
    case HCase => BranchTakes(args[0]);
    case HAttr => AttrTakes(t);
    case HLabeled =>
      LitTakes(args[0]);
      ReadingTakes(args[1]);
    case HGoto => LitTakes(args[0]);
    case HExpr => ExprTakes(args[0]);
    case HReturn => ExprTakes(args[0]);
  }

  lemma {:induction false} IfTakes(t: Term)
    requires t.Apply? && t.fn.Ident? && |t.args| == 4 && ReadIf(t).Some?
    ensures Size(t) >= CSize(ReadIf(t).value)
    decreases t, 0
  {
    hide ReadStmt, ReadExpr, ReadOptDecl, Size, ESize, OptDSize;
    ArgsTake(t);
    OptDeclTakes(t.args[0]);
    ExprTakes(t.args[1]);
    ReadingTakes(t.args[2]);
    ReadingTakes(t.args[3]);
  }

  lemma {:induction false} ForTakes(t: Term)
    requires t.Apply? && t.fn.Ident? && |t.args| == 4 && ReadFor(t).Some?
    ensures Size(t) >= CSize(ReadFor(t).value)
    decreases t, 0
  {
    hide ReadStmt, ReadOption, ReadOptExpr, Size, OptESize;
    ArgsTake(t);
    var args := t.args;
    OptionTakes(args[0]);
    OptExprTakes(args[1]);
    OptExprTakes(args[2]);
    ReadingTakes(args[3]);
    var init := ReadOption(args[0]).value;
    if init.Some? {
      ReadingTakes(init.value);
    }
  }

  lemma {:induction false} AttrTakes(t: Term)
    requires t.Apply? && t.fn.Ident? && |t.args| == 2 && ReadAttr(t).Some?
    ensures Size(t) >= CSize(ReadAttr(t).value)
    decreases t, 0
  {
    hide ReadStmt, ReadTerms, ReadNames, Size;
    ArgsTake(t);
    TermsTake(t.args[0]);
    NamesTake(ReadTerms(t.args[0]).value);
    ReadingTakes(t.args[1]);
  }

  lemma {:induction false} ListTakes(t: Term)
    requires ReadStmts(t).Some?
    ensures Size(t) >= CSizes(ReadStmts(t).value) + 1
    decreases t, 3
  {
    hide ReadStmt;
    match t
    case Ident(_) =>
    case Infix(_, l, r) =>
      ReadingTakes(l);
      ListTakes(r);
      var (x, rest) := (ReadStmt(l).value, ReadStmts(r).value);
      assert ([x] + rest)[1..] == rest;
  }

  // ---- What is written -----------------------------------------------------------------------

  /** The tokens written for a statement. */
  function Written(s: Stmt): nat {
    Tokens(StmtDoc(s))
  }

  lemma TopTokens(e: Expr)
    requires TopOk(e)
    ensures Tokens(TopDoc(e)) == ESize(TopToCoq(e))
  {
    hide Tokens, Size, ESize, TopDoc, TopToCoq, TopOk, ReadExpr, TermOf;
    TopShape(e);
    TermTokens(TopDoc(e));
    TopRead(e);
    ExprTakes(TermOf(TopDoc(e)));
  }

  lemma CondVarTokens(v: Option<ConditionVar>)
    requires v.Some? ==> DeclOk(v.value)
    ensures Tokens(CondVarDoc(v)) == OptDSize(CondVarToCoq(v))
  {
    hide Tokens, Size, OptDSize, CondVarDoc, CondVarToCoq, DeclOk, ReadOptDecl, TermOf;
    CondVarShape(v);
    TermTokens(CondVarDoc(v));
    CondVarRead(v);
    OptDeclTakes(TermOf(CondVarDoc(v)));
  }

  lemma OptExprTokens(e: Option<Expr>)
    requires e.Some? ==> TopOk(e.value)
    ensures Tokens(OptExprDoc(e)) == OptESize(OptToCoq(e))
  {
    hide Tokens, Size, OptESize, OptExprDoc, OptToCoq, TopOk, ReadOptExpr, TermOf;
    OptExprShape(e);
    TermTokens(OptExprDoc(e));
    OptExprRead(e);
    OptExprTakes(TermOf(OptExprDoc(e)));
  }

  lemma NoneTokens()
    ensures Tokens(NONE_DOC) == 1
  {
    WordTokens("None");
  }

  lemma ConstantWritten(v: int)
    ensures Tokens(DBoxed(v)) == ConstantSize(v)
  {
    hide Tokens;
    TermTokens(DBoxed(v));
    assert Size(BoxedTerm(v)) == Size(NumeralTerm(v)) + 4;
    if v < 0 {
      assert Size(NumeralTerm(v)) == 1 + Size(Ident(Decimal(-v)));
    }
  }

  lemma BranchWritten(lo: int, hi: Option<int>)
    ensures Tokens(CaseLabelDoc(lo, hi)) == CSize(Scase(LabelOf(lo, hi)))
  {
    hide Tokens, ConstantSize;
    var b := BranchDoc(lo, hi);
    assert CaseLabelDoc(lo, hi) == DCtor(true, "Scase", Arg0(b, END));
    Tokens1(true, "Scase", Tight, b, Tight);
    ConstantWritten(lo);
    match hi
    case Some(h) =>
      ConstantWritten(h);
      Tokens2(false, "Range", Tight, DBoxed(lo), SP, DBoxed(h));
    case None => Tokens1(false, "Exact", Tight, DBoxed(lo), Tight);
  }

  lemma {:induction false} QuotedTokens(texts: seq<string>)
    ensures ItemTokens(QuotedDocs(texts)) == 2 * |texts|
    decreases |texts|
  {
    hide Tokens, ItemTokens;
    var docs := QuotedDocs(texts);
    ItemsMore(docs);
    if texts == [] {
    } else {
      QuotedTokens(texts[1..]);
      assert docs[1..] == QuotedDocs(texts[1..]);
      WordTokens(texts[0]);
    }
  }

  /** The elements written for a statement take no more tokens than the list elements that it
      flattens to, and as many exactly when every label in it stands as a list item. */
  lemma {:induction false} ElementsWritten(s: Stmt)
    requires StmtOk(s)
    ensures Written(s) + 1 <= CSizes(Flatten(s))
    ensures Written(s) + 1 == CSizes(Flatten(s)) <==> Placed(s, true)
    decreases s, 3
  {
    hide Tokens, StmtDoc, CSize, CSizes;
    if s.Case? {
      ElementsWritten(s.sub);
      BranchWritten(s.lo, s.hi);
      JoinedDoc(s);
      JoinWritten(s, CaseLabelDoc(s.lo, s.hi), s.sub);
      CSizesAppend([Scase(LabelOf(s.lo, s.hi))], Flatten(s.sub));
      CSizesOne(Scase(LabelOf(s.lo, s.hi)));
    } else if s.Default? && s.defaulted.Some? {
      ElementsWritten(s.defaulted.value);
      WordSize("Sdefault");
      JoinedDoc(s);
      JoinWritten(s, DWord("Sdefault"), s.defaulted.value);
      CSizesAppend([Sdefault], Flatten(s.defaulted.value));
      CSizesOne(Sdefault);
    } else {
      NodeWritten(s);
      assert Flatten(s) == [One(s)];
      CSizesOne(One(s));
      assert Placed(s, true) == Placed(s, false);
    }
  }

  /** A statement that is not a label of a `switch`. */
  lemma {:induction false} NodeWritten(s: Stmt)
    requires !s.Case? && !(s.Default? && s.defaulted.Some?)
    requires StmtOk(s)
    ensures Written(s) <= CSize(One(s))
    ensures Written(s) == CSize(One(s)) <==> Placed(s, false)
    decreases s, 2
  {
    hide Written, CSize, One, Placed, StmtOk;
    match s
    case While(_, _, _) => WhileWritten(s);
    case For(_, _, _, _) => ForWritten(s);
    case Do(_, _) => DoWritten(s);
    case If(_, _, _, _) => IfWritten(s);
    case Switch(_, _, _) => SwitchWritten(s);
    case Compound(_) => CompoundWritten(s);
    case Attributed(_, _) => AttributedWritten(s);
    case LabelStmt(_, _) => LabelWritten(s);
    case _ => LeafWritten(s);
  }

  lemma {:induction false} WhileWritten(s: Stmt)
    requires s.While? && StmtOk(s)
    ensures Written(s) <= CSize(One(s))
    ensures Written(s) == CSize(One(s)) <==> Placed(s, false)
    decreases s, 1
  {
    hide Tokens, TopDoc, TopOk, DeclOk, CondVarDoc, OptExprDoc, StmtDoc;
    hide ESize, OptESize, OptDSize, TopToCoq, CondVarToCoq, OptToCoq;
    WhileNode(s);
    CondVarTokens(s.condVar);
    TopTokens(s.cond);
    StmtWritten(s.body);
    Tokens3(true, "Swhile", Tight, CondVarDoc(s.condVar), SP, TopDoc(s.cond), SP, StmtDoc(s.body));
  }

  lemma {:induction false} ForWritten(s: Stmt)
    requires s.For? && StmtOk(s)
    ensures Written(s) <= CSize(One(s))
    ensures Written(s) == CSize(One(s)) <==> Placed(s, false)
    decreases s, 1
  {
    hide Tokens, TopDoc, TopOk, DeclOk, CondVarDoc, OptExprDoc, StmtDoc;
    hide ESize, OptESize, OptDSize, TopToCoq, CondVarToCoq, OptToCoq;
    ForNode(s);
    var i := match s.init { case Some(i) => SomeDoc(StmtDoc(i)) case None => NONE_DOC };
    match s.init {
      case Some(x) =>
        StmtWritten(x);
        Tokens1(true, "Some", Tight, StmtDoc(x), Tight);
      case None => NoneTokens();
    }
    OptExprTokens(s.test);
    OptExprTokens(s.inc);
    StmtWritten(s.body);
    Tokens4("Sfor", i, OptExprDoc(s.test), OptExprDoc(s.inc), StmtDoc(s.body));
  }

  lemma {:induction false} DoWritten(s: Stmt)
    requires s.Do? && StmtOk(s)
    ensures Written(s) <= CSize(One(s))
    ensures Written(s) == CSize(One(s)) <==> Placed(s, false)
    decreases s, 1
  {
    hide Tokens, TopDoc, TopOk, DeclOk, CondVarDoc, OptExprDoc, StmtDoc;
    hide ESize, OptESize, OptDSize, TopToCoq, CondVarToCoq, OptToCoq;
    DoNode(s);
    TopTokens(s.cond);
    StmtWritten(s.body);
    Tokens2(true, "Sdo", Tight, StmtDoc(s.body), SP, TopDoc(s.cond));
  }

  lemma {:induction false} IfWritten(s: Stmt)
    requires s.If? && StmtOk(s)
    ensures Written(s) <= CSize(One(s))
    ensures Written(s) == CSize(One(s)) <==> Placed(s, false)
    decreases s, 1
  {
    hide Tokens, TopDoc, TopOk, DeclOk, CondVarDoc, OptExprDoc, StmtDoc;
    hide ESize, OptESize, OptDSize, TopToCoq, CondVarToCoq, OptToCoq;
    IfNode(s);
    CondVarTokens(s.condVar);
    TopTokens(s.cond);
    StmtWritten(s.thn);
    var e := match s.els { case Some(x) => StmtDoc(x) case None => DWord("Sskip") };
    match s.els {
      case Some(x) => StmtWritten(x);
      case None => WordSize("Sskip");
    }
    Tokens4("Sif", CondVarDoc(s.condVar), TopDoc(s.cond), StmtDoc(s.thn), e);
  }

  lemma {:induction false} SwitchWritten(s: Stmt)
    requires s.Switch? && StmtOk(s)
    ensures Written(s) <= CSize(One(s))
    ensures Written(s) == CSize(One(s)) <==> Placed(s, false)
    decreases s, 1
  {
    hide Tokens, TopDoc, TopOk, DeclOk, CondVarDoc, OptExprDoc, StmtDoc;
    hide ESize, OptESize, OptDSize, TopToCoq, CondVarToCoq, OptToCoq;
    SwitchNode(s);
    CondVarTokens(s.condVar);
    TopTokens(s.cond);
    StmtWritten(s.body);
    Tokens3(true, "Sswitch", Tight, CondVarDoc(s.condVar), Tight, TopDoc(s.cond), Tight, StmtDoc(s.body));
  }

  lemma {:induction false} CompoundWritten(s: Stmt)
    requires s.Compound? && StmtOk(s)
    ensures Written(s) <= CSize(One(s))
    ensures Written(s) == CSize(One(s)) <==> Placed(s, false)
    decreases s, 1
  {
    hide Tokens, TopDoc, TopOk, DeclOk, CondVarDoc, OptExprDoc, StmtDoc;
    hide ESize, OptESize, OptDSize, TopToCoq, CondVarToCoq, OptToCoq;
    CompoundNode(s);
    ItemsWritten(s.items);
    var docs := ItemDocs(s.items);
    ListTokens(docs);
    Tokens1(true, "Sseq", Tight, DList(docs), Tight);
  }

  lemma {:induction false} AttributedWritten(s: Stmt)
    requires s.Attributed? && StmtOk(s)
    ensures Written(s) <= CSize(One(s))
    ensures Written(s) == CSize(One(s)) <==> Placed(s, false)
    decreases s, 1
  {
    hide Tokens, TopDoc, TopOk, DeclOk, CondVarDoc, OptExprDoc, StmtDoc;
    hide ESize, OptESize, OptDSize, TopToCoq, CondVarToCoq, OptToCoq;
    AttributedNode(s);
    StmtWritten(s.sub);
    QuotedTokens(s.attrs);
    var docs := QuotedDocs(s.attrs);
    ListTokens(docs);
    Tokens2(true, "Sattr", Tight, DList(docs), Tight, StmtDoc(s.sub));
  }

  lemma {:induction false} LabelWritten(s: Stmt)
    requires s.LabelStmt? && StmtOk(s)
    ensures Written(s) <= CSize(One(s))
    ensures Written(s) == CSize(One(s)) <==> Placed(s, false)
    decreases s, 1
  {
    hide Tokens, TopDoc, TopOk, DeclOk, CondVarDoc, OptExprDoc, StmtDoc;
    hide ESize, OptESize, OptDSize, TopToCoq, CondVarToCoq, OptToCoq;
    LabelNode(s);
    StmtWritten(s.sub);
    WordTokens(s.name);
    Tokens2(true, "Slabeled", Tight, DQuoted(s.name), SP, StmtDoc(s.sub));
  }

  lemma DeclStmtWritten(s: Stmt)
    requires s.DeclStmt? && StmtOk(s)
    ensures Written(s) == CSize(One(s))
  {
    hide Tokens, Size, StmtDoc, DSizes, DeclsToCoq, ReadDecls, TermOf, Spelled, Fusions;
    DeclStmtNode(s);
    var docs := LocalDocs(s.decls);
    LocalsShape(s.decls);
    ListDocShape(docs, DeclsApart(s.decls));
    TermTokens(DList(docs));
    LocalsRead(s.decls);
    DeclsTake(TermOf(DList(docs)));
    Tokens1(true, "Sdecl", Tight, DList(docs), Tight);
  }

  lemma ExprStmtWritten(s: Stmt)
    requires s.ExprStmt? && StmtOk(s)
    ensures Written(s) == CSize(One(s))
  {
    hide Tokens, TopDoc, TopOk, StmtDoc, ESize, TopToCoq;
    ExprStmtNode(s);
    TopTokens(s.expr);
    Tokens1(true, "Sexpr", Tight, TopDoc(s.expr), Tight);
  }

  lemma ReturnWritten(s: Stmt)
    requires s.Return? && s.val.Some? && StmtOk(s)
    ensures Written(s) == CSize(One(s))
  {
    hide Tokens, TopDoc, TopOk, StmtDoc, ESize, TopToCoq;
    ReturnNode(s);
    TopTokens(s.val.value);
    Tokens1(true, "Sreturn_val", Tight, TopDoc(s.val.value), Tight);
  }

  lemma GotoWritten(s: Stmt)
    requires s.Goto?
    ensures Written(s) == CSize(One(s))
  {
    hide Tokens, StmtDoc;
    GotoNode(s);
    WordTokens(s.name);
    Tokens1(true, "Sgoto", Tight, DQuoted(s.name), Tight);
  }

  /** Statements without parts that are statements. */
  lemma LeafWritten(s: Stmt)
    requires s.DeclStmt? || s.ExprStmt? || s.Return? || s.Goto? || s.Break? || s.Continue? || s.Null?
          || (s.Default? && s.defaulted.None?)
    requires StmtOk(s)
    ensures Written(s) == CSize(One(s)) && Placed(s, false)
  {
    hide Written, CSize, One, StmtOk;
    match s
    case DeclStmt(_) => DeclStmtWritten(s);
    case ExprStmt(_) => ExprStmtWritten(s);
    case Return(Some(_)) => ReturnWritten(s);
    case Goto(_) => GotoWritten(s);
    case _ => WordWritten(s);
  }

  lemma WordDocs(s: Stmt)
    requires WordStmt(s)
    ensures s.Break? ==> StmtDoc(s) == DWord("Sbreak")
    ensures s.Continue? ==> StmtDoc(s) == DWord("Scontinue")
    ensures s.Null? ==> StmtDoc(s) == DWord("Sskip")
    ensures s.Return? ==> StmtDoc(s) == DWord("Sreturn_void")
    ensures s.Default? ==> StmtDoc(s) == DWord("Sdefault")
  {
    hide TopDoc;
  }

  lemma WordWritten(s: Stmt)
    requires WordStmt(s)
    ensures Written(s) == CSize(One(s)) && Placed(s, false)
  {
    hide Tokens, StmtDoc, DeclsToCoq, CondVarToCoq, OptToCoq, TopToCoq, ESize, DSizes;
    WordDocs(s);
    match s
    case Break => WordSize("Sbreak");
    case Continue => WordSize("Scontinue");
    case Null => WordSize("Sskip");
    case Return(_) => WordSize("Sreturn_void");
    case Default(_) => WordSize("Sdefault");
  }

  lemma {:induction false} ItemsWritten(items: seq<Stmt>)
    requires forall i :: 0 <= i < |items| ==> StmtOk(items[i])
    ensures ItemTokens(ItemDocs(items)) <= CSizes(FlattenAll(items))
    ensures ItemTokens(ItemDocs(items)) == CSizes(FlattenAll(items)) <==>
            forall i :: 0 <= i < |items| ==> Placed(items[i], true)
    decreases items, 0
  {
    hide Tokens, ItemTokens, StmtDoc, CSizes, Placed, StmtOk;
    ItemsMore(ItemDocs(items));
    if items == [] {
      NoSizes();
    } else {
      ElementsWritten(items[0]);
      ItemsWritten(items[1..]);
      assert ItemDocs(items)[1..] == ItemDocs(items[1..]);
      CSizesAppend(Flatten(items[0]), FlattenAll(items[1..]));
    }
  }

  lemma NoSizes()
    ensures CSizes([]) == 0
  {
  }

  lemma WordSize(w: string)
    ensures Tokens(DWord(w)) == 1
    ensures CSize(Sdefault) == CSize(Sskip) == CSize(Sbreak) == CSize(Scontinue) == CSize(SreturnVoid) == 1
  {
    WordTokens(w);
  }

  lemma JoinedDoc(s: Stmt)
    ensures s.Case? ==> StmtDoc(s) == DJoin(CaseLabelDoc(s.lo, s.hi), StmtDoc(s.sub))
    ensures s.Default? && s.defaulted.Some? ==>
      StmtDoc(s) == DJoin(DWord("Sdefault"), StmtDoc(s.defaulted.value))
  {
  }

  lemma JoinWritten(s: Stmt, label_: Doc, sub: Stmt)
    requires StmtDoc(s) == DJoin(label_, StmtDoc(sub))
    ensures Written(s) == Tokens(label_) + 1 + Written(sub)
  {
    hide StmtDoc;
    JoinTokens(label_, StmtDoc(sub));
  }

  /** The same where one statement is expected: there, labels must not be joined. */
  lemma {:induction false} StmtWritten(s: Stmt)
    requires StmtOk(s)
    ensures Written(s) <= CSize(One(s))
    ensures Written(s) == CSize(One(s)) <==> Placed(s, false)
    decreases s, 4
  {
    hide Tokens, StmtDoc, CSizes, Written, Placed, StmtOk;
    ElementsWritten(s);
    if |Flatten(s)| == 1 {
      CSizesOne(One(s));
      assert Flatten(s) == [One(s)];
      OnePlaced(s);
    } else {
      assert One(s) == Sseq(Flatten(s));
      OnePlaced(s);
    }
  }

  lemma OnePlaced(s: Stmt)
    ensures |Flatten(s)| == 1 ==> Placed(s, false) == Placed(s, true)
    ensures |Flatten(s)| != 1 ==> !Placed(s, false)
  {
  }
}

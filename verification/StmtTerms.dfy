/** Statements read back: the term of a printed statement reads as the flattened statement when
    every label has its place, and as no statement otherwise. */
module StmtTerms {
  import opened Text
  import opened ClangAst
  import opened Formatters
  import opened Lexing
  import opened CoqTerms
  import opened Docs
  import opened DocReading
  import opened DocTerms
  import opened DocParsing
  import opened ExprDocs
  import opened ExprReading
  import opened StmtDocs
  import opened StmtReading
  import opened CoqExprs
  import opened Translation
  import opened ExprTerms
  import opened DeclTerms
  import opened CoqStmts
  import opened CoqReading

  // ---- Parts ---------------------------------------------------------------------------------

  lemma SomeTerm(d: Doc)
    ensures if d.DJoin? then TermOf(SomeDoc(d)).Infix? else TermOf(SomeDoc(d)) == Apply(Ident("Some"), [TermOf(d)])
    ensures ReadOption(TermOf(SomeDoc(d))) == if d.DJoin? then None else Some(Some(TermOf(d)))
    ensures !SomeDoc(d).DJoin?
  {
    hide TermOf;
    Terms1(true, "Some", Tight, d, Tight);
  }

  lemma NoneTerm()
    ensures ReadOption(TermOf(NONE_DOC)) == Some(None) && !NONE_DOC.DJoin?
  {
    WordTerm("None");
  }

  lemma UseTop(e: Expr)
    requires TopOk(e)
    ensures ReadExpr(TermOf(TopDoc(e))) == Some(TopToCoq(e)) && !TopDoc(e).DJoin?
  {
    hide TopDoc, TopToCoq, TopOk, TermOf, ReadExpr;
    TopRead(e);
  }

  lemma ConstantRead(v: int)
    ensures ReadConstant(TermOf(DBoxed(v))) == Some(v)
  {
    var n := if v < 0 then -v else v;
    DecimalRoundTrip(n);
    forall i | 0 <= i < |Decimal(n)|
      ensures IsDigit(Decimal(n)[i])
    {
    }
  }

  function BranchDoc(lo: int, hi: Option<int>): Doc {
    match hi
    case Some(h) => DCtor(false, "Range", Arg0(DBoxed(lo), Arg(DBoxed(h), END)))
    case None => DCtor(false, "Exact", Arg0(DBoxed(lo), END))
  }

  lemma BranchTermRead(lo: int, hi: Option<int>)
    ensures ReadBranch(TermOf(BranchDoc(lo, hi))) == Some(LabelOf(lo, hi))
  {
    hide TermOf, ReadConstant, ReadStmt;
    ConstantRead(lo);
    match hi {
      case Some(h) =>
        ConstantRead(h);
        Terms2(false, "Range", Tight, DBoxed(lo), SP, DBoxed(h));
      case None => Terms1(false, "Exact", Tight, DBoxed(lo), Tight);
    }
  }

  lemma BranchRead(lo: int, hi: Option<int>)
    ensures ReadStmt(TermOf(CaseLabelDoc(lo, hi))) == Some(Scase(LabelOf(lo, hi)))
  {
    hide TermOf, ReadBranch, LabelOf;
    BranchTermRead(lo, hi);
    assert CaseLabelDoc(lo, hi) == DCtor(true, "Scase", Arg0(BranchDoc(lo, hi), END));
    Terms1(true, "Scase", Tight, BranchDoc(lo, hi), Tight);
    HeadKnown(HCase);
  }

  // ---- Lists ---------------------------------------------------------------------------------

  function Both(x: Option<seq<CStmt>>, y: Option<seq<CStmt>>): Option<seq<CStmt>> {
    if x.Some? && y.Some? then Some(x.value + y.value) else None
  }

  /** Statements read from a sequence of terms. */
  function ReadEach(ts: seq<Term>): Option<seq<CStmt>> {
    if ts == [] then Some([])
    else
      match (ReadStmt(ts[0]), ReadEach(ts[1..]))
      case (Some(x), Some(rest)) => Some([x] + rest)
      case _ => None
  }

  lemma {:induction false} EachAppend(a: seq<Term>, b: seq<Term>)
    ensures ReadEach(a + b) == Both(ReadEach(a), ReadEach(b))
    decreases |a|
  {
    hide ReadStmt;
    if a == [] {
      assert a + b == b;
      assert ReadEach(b).Some? ==> [] + ReadEach(b).value == ReadEach(b).value;
    } else {
      assert (a + b)[1..] == a[1..] + b;
      EachAppend(a[1..], b);
      if Both(ReadEach(a), ReadEach(b)).Some? {
        var (x, more, y) := (ReadStmt(a[0]).value, ReadEach(a[1..]).value, ReadEach(b).value);
        assert ([x] + more) + y == [x] + (more + y);
      }
    }
  }

  lemma EachOne(t: Term)
    ensures ReadEach([t]) == if ReadStmt(t).Some? then Some([ReadStmt(t).value]) else None
  {
    hide ReadStmt;
    assert [t][1..] == [];
    assert ReadEach([]) == Some([]);
    if ReadStmt(t).Some? {
      assert [ReadStmt(t).value] + [] == [ReadStmt(t).value];
    }
  }

  lemma {:induction false} ChainRead(ts: seq<Term>)
    ensures ReadStmts(Chain(ts, NIL)) == ReadEach(ts)
    ensures ReadTerms(Chain(ts, NIL)) == Some(ts)
    decreases |ts|
  {
    hide ReadStmt;
    if ts == [] {
    } else {
      ChainRead(ts[1..]);
      assert [ts[0]] + ts[1..] == ts;
    }
  }

  lemma {:induction false} QuotedRead(texts: seq<string>)
    ensures ReadNames(ItemTerms(QuotedDocs(texts))) == Some(texts)
    decreases |texts|
  {
    if texts == [] {
    } else {
      QuotedRead(texts[1..]);
      var docs := QuotedDocs(texts);
      assert docs[1..] == QuotedDocs(texts[1..]);
      assert docs[0] == DQuoted(texts[0]);
      QuotedTerm(texts[0]);
      assert Elements(docs[0]) == [Lit(texts[0])];
      assert ItemTerms(docs) == [Lit(texts[0])] + ItemTerms(docs[1..]);
      assert ItemTerms(docs)[1..] == ItemTerms(docs[1..]);
      assert [texts[0]] + texts[1..] == texts;
    }
  }

  // ---- Statements ----------------------------------------------------------------------------

  /** What the term of a statement reads as. */
  function Reading(s: Stmt): Option<CStmt> {
    if Placed(s, false) then Some(One(s)) else None
  }

  /** Statements that print a label in front of another statement. */
  predicate Labels(s: Stmt) {
    s.Case? || (s.Default? && s.defaulted.Some?)
  }

  lemma LabelsJoin(s: Stmt)
    requires StmtOk(s)
    ensures StmtDoc(s).DJoin? <==> Labels(s)
    ensures Labels(s) ==> Reading(s) == None && ReadStmt(TermOf(StmtDoc(s))) == None
  {
    hide StmtOk, TopDoc, ReadStmt, TermOf, One;
    if StmtDoc(s).DJoin? {
      JoinedTerm(StmtDoc(s));
    }
  }

  lemma JoinedTerm(d: Doc)
    requires d.DJoin?
    ensures TermOf(d).Infix? && ReadStmt(TermOf(d)) == None
  {
  }

  lemma {:induction false} DeclStmtRead(s: Stmt)
    requires s.DeclStmt? && StmtOk(s)
    ensures ReadStmt(TermOf(StmtDoc(s))) == Reading(s)
    decreases s, 1
  {
    hide TermOf, TopDoc, TopOk, DeclOk, CondVarDoc, OptExprDoc, StmtDoc;
    hide ReadOption, ReadOptExpr, ReadOptDecl, ReadExpr, ReadDecls, TopToCoq, CondVarToCoq, OptToCoq, DeclsToCoq;
    DeclStmtNode(s);
    PlacedEither(s);
    var docs := LocalDocs(s.decls);
    LocalsRead(s.decls);
    Terms1(true, "Sdecl", Tight, DList(docs), Tight);
    HeadKnown(HDecl);
  }

  lemma {:induction false} WhileRead(s: Stmt)
    requires s.While? && StmtOk(s)
    ensures ReadStmt(TermOf(StmtDoc(s))) == Reading(s)
    decreases s, 1
  {
    hide TermOf, TopDoc, TopOk, DeclOk, CondVarDoc, OptExprDoc, StmtDoc;
    hide ReadOption, ReadOptExpr, ReadOptDecl, ReadExpr, ReadDecls, TopToCoq, CondVarToCoq, OptToCoq, DeclsToCoq;
    WhileNode(s);
    PlacedEither(s);
    CondVarRead(s.condVar);
    UseTop(s.cond);
    StmtRead(s.body);
    LabelsJoin(s.body);
    Terms3(true, "Swhile", Tight, CondVarDoc(s.condVar), SP, TopDoc(s.cond), SP, StmtDoc(s.body));
    HeadKnown(HWhile);
  }

  /** What the first argument of `Sfor` reads as. */
  function InitReading(init: Option<Stmt>): Option<Option<CStmt>> {
    match init
    case Some(x) => if Reading(x).Some? then Some(Some(Reading(x).value)) else None
    case None => Some(None)
  }

  lemma ForArgs(a: Term, b: Term, c: Term, d: Term, init: Option<Option<CStmt>>, test: Option<CExpr>,
                inc: Option<CExpr>)
    requires
      match ReadOption(a)
      case Some(Some(u)) => init == if ReadStmt(u).Some? then Some(ReadStmt(u)) else None
      case Some(None) => init == Some(None)
      case None => init == None
    requires ReadOptExpr(b) == Some(test) && ReadOptExpr(c) == Some(inc)
    ensures ReadStmt(Apply(Ident("Sfor"), [a, b, c, d])) ==
      if init.Some? && ReadStmt(d).Some? then Some(Sfor(init.value, test, inc, ReadStmt(d).value)) else None
  {
    hide ReadOption, ReadOptExpr;
    HeadKnown(HFor);
    var t := Apply(Ident("Sfor"), [a, b, c, d]);
    assert ReadStmt(t) == ReadFor(t);
  }

  lemma {:induction false} ForRead(s: Stmt)
    requires s.For? && StmtOk(s)
    ensures ReadStmt(TermOf(StmtDoc(s))) == Reading(s)
    decreases s, 1
  {
    hide TermOf, TopDoc, TopOk, DeclOk, CondVarDoc, OptExprDoc, StmtDoc;
    hide ReadOption, ReadOptExpr, ReadOptDecl, ReadExpr, ReadDecls, TopToCoq, CondVarToCoq, OptToCoq, DeclsToCoq;
    ForNode(s);
    PlacedEither(s);
    var i := match s.init { case Some(i) => SomeDoc(StmtDoc(i)) case None => NONE_DOC };
    NoneTerm();
    match s.init {
      case Some(x) =>
        StmtRead(x);
        LabelsJoin(x);
        SomeTerm(StmtDoc(x));
      case None =>
    }
    OptExprRead(s.test);
    OptExprRead(s.inc);
    StmtRead(s.body);
    LabelsJoin(s.body);
    Terms4("Sfor", i, OptExprDoc(s.test), OptExprDoc(s.inc), StmtDoc(s.body));
    ForArgs(TermOf(i), TermOf(OptExprDoc(s.test)), TermOf(OptExprDoc(s.inc)), TermOf(StmtDoc(s.body)),
            InitReading(s.init), OptToCoq(s.test), OptToCoq(s.inc));
  }

  lemma {:induction false} DoRead(s: Stmt)
    requires s.Do? && StmtOk(s)
    ensures ReadStmt(TermOf(StmtDoc(s))) == Reading(s)
    decreases s, 1
  {
    hide TermOf, TopDoc, TopOk, DeclOk, CondVarDoc, OptExprDoc, StmtDoc;
    hide ReadOption, ReadOptExpr, ReadOptDecl, ReadExpr, ReadDecls, TopToCoq, CondVarToCoq, OptToCoq, DeclsToCoq;
    DoNode(s);
    PlacedEither(s);
    UseTop(s.cond);
    StmtRead(s.body);
    LabelsJoin(s.body);
    Terms2(true, "Sdo", Tight, StmtDoc(s.body), SP, TopDoc(s.cond));
    HeadKnown(HDo);
  }

  lemma WordRead(w: string)
    ensures ReadStmt(TermOf(DWord(w))) == ReadWord(w)
    ensures ReadWord("Sskip") == Some(Sskip) && ReadWord("Sbreak") == Some(Sbreak)
    ensures ReadWord("Scontinue") == Some(Scontinue) && ReadWord("Sdefault") == Some(Sdefault)
    ensures ReadWord("Sreturn_void") == Some(SreturnVoid)
  {
  }

  lemma IfArgs(a: Term, b: Term, c: Term, d: Term, v: Option<CDecl>, cond: CExpr)
    requires ReadOptDecl(a) == Some(v) && ReadExpr(b) == Some(cond)
    ensures ReadStmt(Apply(Ident("Sif"), [a, b, c, d])) ==
      if ReadStmt(c).Some? && ReadStmt(d).Some? then Some(Sif(v, cond, ReadStmt(c).value, ReadStmt(d).value)) else None
  {
    hide ReadOptDecl, ReadExpr;
    HeadKnown(HIf);
    var t := Apply(Ident("Sif"), [a, b, c, d]);
    assert ReadStmt(t) == ReadIf(t);
  }

  lemma {:induction false} IfRead(s: Stmt)
    requires s.If? && StmtOk(s)
    ensures ReadStmt(TermOf(StmtDoc(s))) == Reading(s)
    decreases s, 1
  {
    hide TermOf, TopDoc, TopOk, DeclOk, CondVarDoc, OptExprDoc, StmtDoc;
    hide ReadOption, ReadOptExpr, ReadOptDecl, ReadExpr, ReadDecls, TopToCoq, CondVarToCoq, OptToCoq, DeclsToCoq;
    IfNode(s);
    PlacedEither(s);
    CondVarRead(s.condVar);
    UseTop(s.cond);
    StmtRead(s.thn);
    LabelsJoin(s.thn);
    var e := match s.els { case Some(x) => StmtDoc(x) case None => DWord("Sskip") };
    match s.els {
      case Some(x) =>
        StmtRead(x);
        LabelsJoin(x);
      case None => WordRead("Sskip");
    }
    Terms4("Sif", CondVarDoc(s.condVar), TopDoc(s.cond), StmtDoc(s.thn), e);
    IfArgs(TermOf(CondVarDoc(s.condVar)), TermOf(TopDoc(s.cond)), TermOf(StmtDoc(s.thn)), TermOf(e),
           CondVarToCoq(s.condVar), TopToCoq(s.cond));
  }

  lemma {:induction false} SwitchRead(s: Stmt)
    requires s.Switch? && StmtOk(s)
    ensures ReadStmt(TermOf(StmtDoc(s))) == Reading(s)
    decreases s, 1
  {
    hide TermOf, TopDoc, TopOk, DeclOk, CondVarDoc, OptExprDoc, StmtDoc;
    hide ReadOption, ReadOptExpr, ReadOptDecl, ReadExpr, ReadDecls, TopToCoq, CondVarToCoq, OptToCoq, DeclsToCoq;
    SwitchNode(s);
    PlacedEither(s);
    CondVarRead(s.condVar);
    UseTop(s.cond);
    StmtRead(s.body);
    LabelsJoin(s.body);
    Terms3(true, "Sswitch", Tight, CondVarDoc(s.condVar), Tight, TopDoc(s.cond), Tight, StmtDoc(s.body));
    HeadKnown(HSwitch);
  }

  lemma {:induction false} ExprStmtRead(s: Stmt)
    requires s.ExprStmt? && StmtOk(s)
    ensures ReadStmt(TermOf(StmtDoc(s))) == Reading(s)
    decreases s, 1
  {
    hide TermOf, TopDoc, TopOk, DeclOk, CondVarDoc, OptExprDoc, StmtDoc;
    hide ReadOption, ReadOptExpr, ReadOptDecl, ReadExpr, ReadDecls, TopToCoq, CondVarToCoq, OptToCoq, DeclsToCoq;
    ExprStmtNode(s);
    PlacedEither(s);
    UseTop(s.expr);
    Terms1(true, "Sexpr", Tight, TopDoc(s.expr), Tight);
    HeadKnown(HExpr);
  }

  lemma {:induction false} ReturnRead(s: Stmt)
    requires s.Return? && StmtOk(s)
    ensures ReadStmt(TermOf(StmtDoc(s))) == Reading(s)
    decreases s, 1
  {
    hide TermOf, TopDoc, TopOk, DeclOk, CondVarDoc, OptExprDoc, StmtDoc;
    hide ReadOption, ReadOptExpr, ReadOptDecl, ReadExpr, ReadDecls, TopToCoq, CondVarToCoq, OptToCoq, DeclsToCoq;
    ReturnNode(s);
    PlacedEither(s);
    match s.val
    case Some(x) =>
      UseTop(x);
      Terms1(true, "Sreturn_val", Tight, TopDoc(x), Tight);
      HeadKnown(HReturn);
    case None => WordRead("Sreturn_void");
  }

  lemma {:induction false} CompoundRead(s: Stmt)
    requires s.Compound? && StmtOk(s)
    ensures ReadStmt(TermOf(StmtDoc(s))) == Reading(s)
    decreases s, 1
  {
    hide TermOf, TopDoc, TopOk, DeclOk, CondVarDoc, OptExprDoc, StmtDoc;
    hide ReadOption, ReadOptExpr, ReadOptDecl, ReadExpr, ReadDecls, TopToCoq, CondVarToCoq, OptToCoq, DeclsToCoq;
    CompoundNode(s);
    PlacedEither(s);
    ItemsRead(s.items);
    var docs := ItemDocs(s.items);
    ListTerm(docs);
    ChainRead(ItemTerms(docs));
    Terms1(true, "Sseq", Tight, DList(docs), Tight);
    HeadKnown(HSeq);
  }

  lemma AttrArgs(a: Term, b: Term, ts: seq<Term>, names: seq<string>)
    requires ReadTerms(a) == Some(ts) && ReadNames(ts) == Some(names)
    ensures ReadStmt(Apply(Ident("Sattr"), [a, b])) ==
      if ReadStmt(b).Some? then Some(Sattr(names, ReadStmt(b).value)) else None
  {
    hide ReadTerms, ReadNames;
    HeadKnown(HAttr);
    var t := Apply(Ident("Sattr"), [a, b]);
    assert ReadStmt(t) == ReadAttr(t);
  }

  lemma {:induction false} AttributedRead(s: Stmt)
    requires s.Attributed? && StmtOk(s)
    ensures ReadStmt(TermOf(StmtDoc(s))) == Reading(s)
    decreases s, 1
  {
    hide TermOf, TopDoc, TopOk, DeclOk, CondVarDoc, OptExprDoc, StmtDoc;
    hide ReadOption, ReadOptExpr, ReadOptDecl, ReadExpr, ReadDecls, TopToCoq, CondVarToCoq, OptToCoq, DeclsToCoq;
    AttributedNode(s);
    PlacedEither(s);
    StmtRead(s.sub);
    LabelsJoin(s.sub);
    QuotedRead(s.attrs);
    var docs := QuotedDocs(s.attrs);
    ListTerm(docs);
    ChainRead(ItemTerms(docs));
    Terms2(true, "Sattr", Tight, DList(docs), Tight, StmtDoc(s.sub));
    AttrArgs(TermOf(DList(docs)), TermOf(StmtDoc(s.sub)), ItemTerms(docs), s.attrs);
  }

  lemma {:induction false} LabelRead(s: Stmt)
    requires s.LabelStmt? && StmtOk(s)
    ensures ReadStmt(TermOf(StmtDoc(s))) == Reading(s)
    decreases s, 1
  {
    hide TermOf, TopDoc, TopOk, DeclOk, CondVarDoc, OptExprDoc, StmtDoc;
    hide ReadOption, ReadOptExpr, ReadOptDecl, ReadExpr, ReadDecls, TopToCoq, CondVarToCoq, OptToCoq, DeclsToCoq;
    LabelNode(s);
    PlacedEither(s);
    StmtRead(s.sub);
    LabelsJoin(s.sub);
    QuotedTerm(s.name);
    Terms2(true, "Slabeled", Tight, DQuoted(s.name), SP, StmtDoc(s.sub));
    HeadKnown(HLabeled);
  }

  lemma {:induction false} GotoRead(s: Stmt)
    requires s.Goto? && StmtOk(s)
    ensures ReadStmt(TermOf(StmtDoc(s))) == Reading(s)
    decreases s, 1
  {
    hide TermOf, TopDoc, TopOk, DeclOk, CondVarDoc, OptExprDoc, StmtDoc;
    hide ReadOption, ReadOptExpr, ReadOptDecl, ReadExpr, ReadDecls, TopToCoq, CondVarToCoq, OptToCoq, DeclsToCoq;
    GotoNode(s);
    PlacedEither(s);
    QuotedTerm(s.name);
    Terms1(true, "Sgoto", Tight, DQuoted(s.name), Tight);
    HeadKnown(HGoto);
  }

  /** The term of a statement reads as the flattened statement if every label in it stands as a
      list item, and as no statement otherwise. */
  lemma {:induction false} StmtRead(s: Stmt)
    requires StmtOk(s)
    ensures ReadStmt(TermOf(StmtDoc(s))) == Reading(s)
    decreases s, 2
  {
    hide StmtOk, ReadStmt, TermOf, ReadWord;
    if Labels(s) {
      LabelsJoin(s);
      return;
    }
    match s
    case DeclStmt(_) => DeclStmtRead(s);
    case While(_, _, _) => WhileRead(s);
    case For(_, _, _, _) => ForRead(s);
    case Do(_, _) => DoRead(s);
    case Default(_) => WordRead("Sdefault");
    case Break => WordRead("Sbreak");
    case Continue => WordRead("Scontinue");
    case If(_, _, _, _) => IfRead(s);
    case Switch(_, _, _) => SwitchRead(s);
    case ExprStmt(_) => ExprStmtRead(s);
    case Return(_) => ReturnRead(s);
    case Compound(_) => CompoundRead(s);
    case Null => WordRead("Sskip");
    case Attributed(_, _) => AttributedRead(s);
    case LabelStmt(_, _) => LabelRead(s);
    case Goto(_) => GotoRead(s);
  }

  /** The list elements of a statement read as its flattening, in the same way. */
  lemma {:induction false} ItemRead(s: Stmt)
    requires StmtOk(s)
    ensures ReadEach(Elements(StmtDoc(s))) == if Placed(s, true) then Some(Flatten(s)) else None
    decreases s, 3
  {
    hide ReadStmt, TermOf, ReadWord, ReadEach, StmtDoc;
    if s.Case? {
      ItemRead(s.sub);
      BranchRead(s.lo, s.hi);
      CaseNode(s);
      LabelItem(CaseLabelDoc(s.lo, s.hi), StmtDoc(s.sub), Scase(LabelOf(s.lo, s.hi)));
    } else if s.Default? && s.defaulted.Some? {
      ItemRead(s.defaulted.value);
      WordRead("Sdefault");
      DefaultNode(s);
      LabelItem(DWord("Sdefault"), StmtDoc(s.defaulted.value), Sdefault);
    } else {
      StmtRead(s);
      PlacedEither(s);
      LabelsJoin(s);
      EachOne(TermOf(StmtDoc(s)));
    }
  }

  /** A label in front of list elements. */
  lemma LabelItem(label_: Doc, sub: Doc, x: CStmt)
    requires ReadStmt(TermOf(label_)) == Some(x)
    ensures ReadEach(Elements(DJoin(label_, sub))) ==
      if ReadEach(Elements(sub)).Some? then Some([x] + ReadEach(Elements(sub)).value) else None
  {
    hide ReadStmt, TermOf, ReadEach;
    EachOne(TermOf(label_));
    EachAppend([TermOf(label_)], Elements(sub));
  }

  lemma PlacedEither(s: Stmt)
    requires !Labels(s)
    ensures Placed(s, true) <==> Placed(s, false)
    ensures Flatten(s) == [One(s)]
  {
  }

  lemma {:induction false} ItemsRead(items: seq<Stmt>)
    requires forall i :: 0 <= i < |items| ==> StmtOk(items[i])
    ensures ReadEach(ItemTerms(ItemDocs(items))) ==
      if forall i :: 0 <= i < |items| ==> Placed(items[i], true) then Some(FlattenAll(items)) else None
    decreases items, 0
  {
    hide ReadStmt, TermOf, StmtOk, StmtDoc, Placed;
    if items == [] {
    } else {
      ItemRead(items[0]);
      ItemsRead(items[1..]);
      assert ItemDocs(items)[1..] == ItemDocs(items[1..]);
      EachAppend(Elements(StmtDoc(items[0])), ItemTerms(ItemDocs(items[1..])));
    }
  }

  // ---- Texts ---------------------------------------------------------------------------------

  /** The text that printing a statement on a fresh formatter produces. */
  function TextOf(s: Stmt): string {
    Put(INITIAL, StmtDoc(s)).out
  }

  /** The printed text parses as the statement's term exactly when its words stay apart. Then it
      reads as the flattened statement if every label has its place, and as no statement
      otherwise: it is never misread. */
  lemma TextRead(s: Stmt)
    requires StmtOk(s)
    ensures ReadText(TextOf(s)) == Some(TermOf(StmtDoc(s))) <==> Separated(s)
    ensures Separated(s) ==> ReadProgram(TextOf(s)) == if Placed(s, false) then Some(One(s)) else None
  {
    hide StmtOk, Placed, Separated, Spelled, Fusions, StmtDoc, ReadStmt, ReadText, Put, TermOf;
    StmtShape(s);
    UseStmt(s);
    ReadBack(StmtDoc(s));
    StmtRead(s);
  }

  /** The same for an expression on its own. */
  lemma ExprRoundTrip(e: Expr)
    requires TopOk(e)
    ensures ReadText(Put(INITIAL, TopDoc(e)).out) == Some(TopTerm(e)) <==> Apart(e)
  {
    hide TopOk, Apart, Spelled, Fusions, ReadText, Put, TermOf, ExprDoc;
    TopShape(e);
    ReadBack(TopDoc(e));
  }
}

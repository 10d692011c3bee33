/** The text of statements: which statements print as documents that Coq's grammar accepts, and
    when their words stay apart. */
module StmtReading {
  import opened Text
  import opened Names
  import opened ClangAst
  import opened CoqTypes
  import opened Lexing
  import opened Docs
  import opened DocReading
  import opened ExprDocs
  import opened Binders
  import opened ExprReading
  import opened StmtDocs

  // ---- Declarations ------------------------------------------------------------------------

  predicate TopOk(e: Expr) {
    ExprOk({}, -1, e)
  }

  predicate DeclOk(d: LocalDecl) {
    match d
    case VarDecl(name, _, ty, init) =>
      IsPlain(name) && QualOk(ty) && (init.Some? ==> TopOk(init.value))
    case Decomposition(_, source, ty, bs) =>
      TopOk(source) && QualOk(ty) && forall i :: 0 <= i < |bs| ==> IsPlain(bs[i].name) && TopOk(bs[i].expr)
    case Unprinted => true
  }

  predicate DeclApart(d: LocalDecl) {
    match d
    case VarDecl(_, _, _, init) => init.Some? ==> Apart(init.value)
    case Decomposition(_, source, _, bs) => Apart(source) && BindingsApart(bs)
    case Unprinted => true
  }

  predicate BindingsApart(bs: seq<Binding>) {
    bs == [] || (Apart(bs[0].expr) && BindingsApart(bs[1..]))
  }

  predicate DeclsApart(ds: seq<LocalDecl>) {
    ds == [] || (DeclApart(ds[0]) && DeclsApart(ds[1..]))
  }

  lemma TopShape(e: Expr)
    requires TopOk(e)
    ensures Shaped(TopDoc(e), Bare(e), Apart(e))
  {
    ExprShape(NO_NAMES, {}, e);
  }

  lemma SomeShape(d: Doc, p: bool)
    requires Spelled(d) && (p <==> Fusions(d) == 0)
    ensures Shaped(SomeDoc(d), false, p)
  {
    QuietEnd();
    Shape1(true, "Some", d, END, p);
  }

  /** The initializer at the end of a declaration. */
  lemma InitShape(prev: Edge, init: Option<Expr>)
    requires init.Some? ==> TopOk(init.value)
    ensures var rest := InitArgs(NO_NAMES, init);
            && SpelledArgs(rest)
            && ((init.Some? ==> Apart(init.value)) <==> FusionsArgs(prev, rest) == 0)
  {
    match init
    case Some(x) =>
      TopShape(x);
      SomeShape(TopDoc(x), Apart(x));
      QuietEnd();
      ArgsMore(prev, SomeDoc(TopDoc(x)), END);
      assert FusionsArgs(Last(SomeDoc(TopDoc(x))), END) == 0;
    case None =>
      ArgsMore(prev, NONE_DOC, Done(SP));
      assert FusionsArgs(Last(NONE_DOC), Done(SP)) == 0;
  }

  lemma VarShape(d: LocalDecl)
    requires d.VarDecl? && DeclOk(d)
    ensures Shaped(VarDoc(d), false, DeclApart(d))
  {
    hide ExprDoc;
    QualAtomic(d.ty);
    var init := InitArgs(NO_NAMES, d.init);
    InitShape(Last(QualDoc(d.ty)), d.init);
    ArgsMore(Quote, QualDoc(d.ty), init);
    var rest := Arg(QualDoc(d.ty), init);
    match d.storage
    case Automatic => Args1(true, "Dvar", DQuoted(d.name), rest);
    case StaticLocal(safe) =>
      var w := DWord(if safe then "true" else "false");
      ArgsMore(Solid, DQuoted(d.name), rest);
      assert Spelled(w);
      Args1(true, "Dinit", w, Arg(DQuoted(d.name), rest));
  }

  lemma BindingShape(env: Env, ty: QualType, b: Binding)
    requires InScope(env, {}) && env.count == -1
    requires IsPlain(b.name) && TopOk(b.expr) && QualOk(ty)
    ensures Shaped(BindingDoc(ExprDoc(env, b.expr).0, ty, b.name), false, Apart(b.expr))
  {
    hide ExprDoc;
    ExprShape(env, {}, b.expr);
    var x := ExprDoc(env, b.expr).0;
    SomeShape(x, Apart(b.expr));
    QualAtomic(ty);
    QuietEnd();
    Shape3(true, "Dvar", DQuoted(b.name), QualDoc(ty), SomeDoc(x), END, true, true, Apart(b.expr));
  }

  lemma {:induction false} BindingsShape(env: Env, ty: QualType, bs: seq<Binding>)
    requires InScope(env, {}) && env.count == -1 && QualOk(ty)
    requires forall i :: 0 <= i < |bs| ==> IsPlain(bs[i].name) && TopOk(bs[i].expr)
    ensures var docs := BindingDocs(env, ty, bs);
            && (forall i :: 0 <= i < |docs| ==> Spelled(docs[i]))
            && (BindingsApart(bs) <==> FusionsItems(docs) == 0)
    decreases |bs|
  {
    hide ExprDoc, BindingDoc, Fusions, Spelled, TopOk;
    if bs == [] {
    } else {
      var (x, env1) := ExprDoc(env, bs[0].expr);
      StepInto(env, bs[0].expr, {});
      BindingShape(env, ty, bs[0]);
      BindingsShape(env1, ty, bs[1..]);
      var d := BindingDoc(x, ty, bs[0].name);
      var ds := BindingDocs(env1, ty, bs[1..]);
      assert ([d] + ds)[1..] == ds;
    }
  }

  lemma DecompositionShape(d: LocalDecl)
    requires d.Decomposition? && DeclOk(d)
    ensures Shaped(DecompositionDoc(d), false, DeclApart(d))
  {
    hide ExprDoc, TopOk, ListDoc;
    var (x, env) := ExprDoc(NO_NAMES, d.source);
    EnvRestored(NO_NAMES, d.source);
    TopShape(d.source);
    Use(x, Bare(d.source), Apart(d.source));
    var bound := env.(anonymous := env.anonymous + [d.id]);
    BindingsShape(bound, d.ty, d.bindings);
    var docs := BindingDocs(bound, d.ty, d.bindings);
    ListShaped(docs, BindingsApart(d.bindings));
    QuietEnd();
    Shape3(true, "Ddecompose", x, DAnon(|env.anonymous|), ListDoc(docs), END,
           Apart(d.source), true, BindingsApart(d.bindings));
  }

  lemma {:induction false} LocalsShape(ds: seq<LocalDecl>)
    requires forall i :: 0 <= i < |ds| ==> DeclOk(ds[i])
    ensures var docs := LocalDocs(ds);
            && (forall i :: 0 <= i < |docs| ==> Spelled(docs[i]) && !docs[i].DJoin?)
            && (DeclsApart(ds) <==> FusionsItems(docs) == 0)
    decreases |ds|
  {
    hide VarDoc, DecompositionDoc, Spelled, Fusions;
    if ds == [] {
    } else {
      LocalsShape(ds[1..]);
      var rest := LocalDocs(ds[1..]);
      match ds[0]
      case VarDecl(_, _, _, _) =>
        VarShape(ds[0]);
        assert ([VarDoc(ds[0])] + rest)[1..] == rest;
      case Decomposition(_, _, _, _) =>
        DecompositionShape(ds[0]);
        assert ([DecompositionDoc(ds[0])] + rest)[1..] == rest;
      case Unprinted =>
        assert [] + rest == rest;
    }
  }

  // ---- Statements --------------------------------------------------------------------------

  /** Expressions are in scope and names can stand in Coq text. */
  predicate StmtOk(s: Stmt) {
    match s
    case DeclStmt(ds) => forall i :: 0 <= i < |ds| ==> DeclOk(ds[i])
    case While(v, c, b) => (v.Some? ==> DeclOk(v.value)) && TopOk(c) && StmtOk(b)
    case For(i, t, n, b) =>
      && (i.Some? ==> StmtOk(i.value)) && (t.Some? ==> TopOk(t.value)) && (n.Some? ==> TopOk(n.value))
      && StmtOk(b)
    case Do(b, c) => StmtOk(b) && TopOk(c)
    case If(v, c, t, e) =>
      (v.Some? ==> DeclOk(v.value)) && TopOk(c) && StmtOk(t) && (e.Some? ==> StmtOk(e.value))
    case Case(_, _, sub) => StmtOk(sub)
    case Default(sub) => sub.Some? ==> StmtOk(sub.value)
    case Switch(v, c, b) => (v.Some? ==> DeclOk(v.value)) && TopOk(c) && StmtOk(b)
    case ExprStmt(e) => TopOk(e)
    case Return(e) => e.Some? ==> TopOk(e.value)
    case Compound(items) => forall i :: 0 <= i < |items| ==> StmtOk(items[i])
    case Attributed(attrs, sub) => (forall i :: 0 <= i < |attrs| ==> IsPlain(attrs[i])) && StmtOk(sub)
    case LabelStmt(name, sub) => IsPlain(name) && StmtOk(sub)
    case Goto(name) => IsPlain(name)
    case _ => true
  }

  /** Statements that print as one bare word. */
  predicate WordStmt(s: Stmt) {
    s.Break? || s.Continue? || s.Null? || (s.Return? && s.val.None?) || (s.Default? && s.defaulted.None?)
  }

  /** Statements whose text starts with a word of its own. */
  predicate StartsWord(s: Stmt) {
    WordStmt(s) || s.Default?
  }

  /** The words of a statement stay apart: the condition of a `switch` follows `None`, and its
      body follows the condition, without a space, so a bare word may not meet another there. */
  predicate Separated(s: Stmt) {
    match s
    case DeclStmt(ds) => DeclsApart(ds)
    case While(v, c, b) => (v.Some? ==> DeclApart(v.value)) && Apart(c) && Separated(b)
    case For(i, t, n, b) =>
      && (i.Some? ==> Separated(i.value)) && (t.Some? ==> Apart(t.value)) && (n.Some? ==> Apart(n.value))
      && Separated(b)
    case Do(b, c) => Separated(b) && Apart(c)
    case If(v, c, t, e) =>
      && (v.Some? ==> DeclApart(v.value)) && Apart(c) && Separated(t)
      && (e.Some? ==> Separated(e.value))
    case Case(_, _, sub) => Separated(sub)
    case Default(sub) => sub.Some? ==> Separated(sub.value)
    case Switch(v, c, b) =>
      && (v.Some? ==> DeclApart(v.value)) && Apart(c) && Separated(b)
      && !(v.None? && Bare(c)) && !(Bare(c) && StartsWord(b))
    case ExprStmt(e) => Apart(e)
    case Return(e) => e.Some? ==> Apart(e.value)
    case Compound(items) => AllSeparated(items)
    case Attributed(_, sub) => Separated(sub)
    case LabelStmt(_, sub) => Separated(sub)
    case _ => true
  }

  predicate AllSeparated(items: seq<Stmt>) {
    items == [] || (Separated(items[0]) && AllSeparated(items[1..]))
  }

  lemma CondVarShape(v: Option<ConditionVar>)
    requires v.Some? ==> DeclOk(v.value)
    ensures Shaped(CondVarDoc(v), v.None?, v.Some? ==> DeclApart(v.value))
  {
    hide VarDoc;
    match v
    case Some(d) =>
      VarShape(d);
      Use(VarDoc(d), false, DeclApart(d));
      SomeShape(VarDoc(d), DeclApart(d));
    case None =>
  }

  lemma OptExprShape(e: Option<Expr>)
    requires e.Some? ==> TopOk(e.value)
    ensures Shaped(OptExprDoc(e), e.None?, e.Some? ==> Apart(e.value))
  {
    hide TopDoc, TopOk;
    match e
    case Some(x) =>
      TopShape(x);
      Use(TopDoc(x), Bare(x), Apart(x));
      SomeShape(TopDoc(x), Apart(x));
    case None =>
  }

  /** What holds of the document of a statement: it starts with a word when the statement does,
      and it is free of fusions iff the statement is separated. */
  predicate StmtShaped(s: Stmt) {
    var d := StmtDoc(s);
    && Spelled(d)
    && (Fusions(d) == 0 <==> Separated(s))
    && First(d) == if StartsWord(s) then Solid else Free
  }

  lemma Conclude(s: Stmt)
    requires Shaped(StmtDoc(s), StartsWord(s), Separated(s))
    ensures StmtShaped(s)
  {
  }

  lemma UseStmt(s: Stmt)
    requires StmtShaped(s)
    ensures Spelled(StmtDoc(s)) && (Separated(s) <==> Fusions(StmtDoc(s)) == 0)
    ensures First(StmtDoc(s)) == if StartsWord(s) then Solid else Free
  {
  }

  lemma ListDocShape(docs: seq<Doc>, p: bool)
    requires forall i :: 0 <= i < |docs| ==> Spelled(docs[i])
    requires p <==> FusionsItems(docs) == 0
    ensures Spelled(DList(docs)) && (p <==> Fusions(DList(docs)) == 0)
  {
  }

  lemma {:induction false} DeclStmtShape(s: Stmt)
    requires s.DeclStmt? && StmtOk(s)
    ensures StmtShaped(s)
    decreases s, 1
  {
    hide Shaped, Spelled, Fusions, TopDoc, TopOk, DeclOk, CondVarDoc, OptExprDoc, StmtDoc;
    DeclStmtNode(s);
    LocalsShape(s.decls);
    var docs := LocalDocs(s.decls);
    ListDocShape(docs, DeclsApart(s.decls));
    QuietEnd();
    Shape1(true, "Sdecl", DList(docs), END, DeclsApart(s.decls));
    Conclude(s);
  }

  lemma {:induction false} WhileShape(s: Stmt)
    requires s.While? && StmtOk(s)
    ensures StmtShaped(s)
    decreases s, 1
  {
    hide Shaped, Spelled, Fusions, TopDoc, TopOk, DeclOk, CondVarDoc, OptExprDoc, StmtDoc;
    WhileNode(s);
    CondVarShape(s.condVar);
    var p := s.condVar.Some? ==> DeclApart(s.condVar.value);
    Use(CondVarDoc(s.condVar), s.condVar.None?, p);
    TopShape(s.cond);
    Use(TopDoc(s.cond), Bare(s.cond), Apart(s.cond));
    StmtShape(s.body);
    UseStmt(s.body);
    QuietEnd();
    Shape3(true, "Swhile", CondVarDoc(s.condVar), TopDoc(s.cond), StmtDoc(s.body), END,
           p, Apart(s.cond), Separated(s.body));
    Conclude(s);
  }

  lemma CtorShaped(head: string, a: Doc, rest: Args, p: bool, q: bool)
    requires IsWord(head) && Spelled(a) && SpelledArgs(rest)
    requires (p <==> Fusions(a) == 0) && (q <==> FusionsArgs(Last(a), rest) == 0)
    ensures Shaped(DCtor(true, head, Arg0(a, rest)), false, p && q)
  {
    Args1(true, head, a, rest);
  }

  lemma FourArgs(head: string, a: Doc, b: Doc, c: Doc, d: Doc, p: bool, q: bool, r: bool, t: bool)
    requires IsWord(head)
    requires Spelled(a) && Spelled(b) && Spelled(c) && Spelled(d)
    requires (p <==> Fusions(a) == 0) && (q <==> Fusions(b) == 0)
    requires (r <==> Fusions(c) == 0) && (t <==> Fusions(d) == 0)
    ensures Shaped(DCtor(true, head, Arg0(a, Arg(b, Arg(c, Arg(d, END))))), false, p && q && r && t)
  {
    hide Shaped, Spelled, SpelledArgs, Fusions, FusionsArgs;
    ThreeMore(Last(a), b, c, d);
    CtorShaped(head, a, Arg(b, Arg(c, Arg(d, END))), p, q && r && t);
  }

  lemma ThreeMore(p: Edge, b: Doc, c: Doc, d: Doc)
    requires Spelled(b) && Spelled(c) && Spelled(d)
    ensures SpelledArgs(Arg(b, Arg(c, Arg(d, END))))
    ensures FusionsArgs(p, Arg(b, Arg(c, Arg(d, END)))) == Fusions(b) + Fusions(c) + Fusions(d)
  {
    hide Fusions, Spelled;
    assert FusionsArgs(Last(d), END) == 0 && SpelledArgs(END);
    ArgsMore(Last(c), d, END);
    ArgsMore(Last(b), c, Arg(d, END));
    ArgsMore(p, b, Arg(c, Arg(d, END)));
  }

  lemma {:induction false} ForInitShape(s: Stmt, i: Doc, p: bool)
    requires s.For? && StmtOk(s)
    requires i == match s.init { case Some(i) => SomeDoc(StmtDoc(i)) case None => NONE_DOC }
    requires p == (s.init.Some? ==> Separated(s.init.value))
    ensures Spelled(i) && (p <==> Fusions(i) == 0)
    decreases s, 0
  {
    match s.init
    case Some(x) =>
      StmtShape(x);
      UseStmt(x);
      SomeShape(StmtDoc(x), Separated(x));
    case None =>
  }

  lemma {:induction false} ForShape(s: Stmt)
    requires s.For? && StmtOk(s)
    ensures StmtShaped(s)
    decreases s, 1
  {
    hide Shaped, Spelled, Fusions, TopDoc, TopOk, DeclOk, CondVarDoc, OptExprDoc, StmtDoc;
    ForNode(s);
    var i := match s.init { case Some(i) => SomeDoc(StmtDoc(i)) case None => NONE_DOC };
    var p := s.init.Some? ==> Separated(s.init.value);
    ForInitShape(s, i, p);
    OptExprShape(s.test);
    var q := s.test.Some? ==> Apart(s.test.value);
    Use(OptExprDoc(s.test), s.test.None?, q);
    OptExprShape(s.inc);
    var r := s.inc.Some? ==> Apart(s.inc.value);
    Use(OptExprDoc(s.inc), s.inc.None?, r);
    StmtShape(s.body);
    UseStmt(s.body);
    FourArgs("Sfor", i, OptExprDoc(s.test), OptExprDoc(s.inc), StmtDoc(s.body), p, q, r, Separated(s.body));
    Conclude(s);
  }

  lemma {:induction false} DoShape(s: Stmt)
    requires s.Do? && StmtOk(s)
    ensures StmtShaped(s)
    decreases s, 1
  {
    hide Shaped, Spelled, Fusions, TopDoc, TopOk, DeclOk, CondVarDoc, OptExprDoc, StmtDoc;
    DoNode(s);
    TopShape(s.cond);
    Use(TopDoc(s.cond), Bare(s.cond), Apart(s.cond));
    StmtShape(s.body);
    UseStmt(s.body);
    QuietEnd();
    Shape2(true, "Sdo", StmtDoc(s.body), TopDoc(s.cond), END, Separated(s.body), Apart(s.cond));
    Conclude(s);
  }

  lemma SkipShape()
    ensures Atomic(DWord("Sskip"))
  {
  }

  lemma {:induction false} IfShape(s: Stmt)
    requires s.If? && StmtOk(s)
    ensures StmtShaped(s)
    decreases s, 1
  {
    hide Shaped, Spelled, Fusions, TopDoc, TopOk, DeclOk, CondVarDoc, OptExprDoc, StmtDoc;
    IfNode(s);
    CondVarShape(s.condVar);
    var p := s.condVar.Some? ==> DeclApart(s.condVar.value);
    Use(CondVarDoc(s.condVar), s.condVar.None?, p);
    TopShape(s.cond);
    Use(TopDoc(s.cond), Bare(s.cond), Apart(s.cond));
    StmtShape(s.thn);
    UseStmt(s.thn);
    var e := match s.els { case Some(x) => StmtDoc(x) case None => DWord("Sskip") };
    match s.els {
      case Some(x) =>
        StmtShape(x);
        UseStmt(x);
      case None => SkipShape();
    }
    FourArgs("Sif", CondVarDoc(s.condVar), TopDoc(s.cond), StmtDoc(s.thn), e,
             p, Apart(s.cond), Separated(s.thn), s.els.Some? ==> Separated(s.els.value));
    Conclude(s);
  }

  lemma LabelFirst(lo: int, hi: Option<int>)
    ensures First(CaseLabelDoc(lo, hi)) == Free && !CaseLabelDoc(lo, hi).DJoin?
    ensures First(DWord("Sdefault")) == Solid
  {
  }

  lemma LabelShapes(lo: int, hi: Option<int>)
    ensures Atomic(CaseLabelDoc(lo, hi)) && Atomic(DWord("Sdefault"))
  {
    QuietEnd();
    match hi
    case Some(h) =>
      Shape2(false, "Range", DBoxed(lo), DBoxed(h), END, true, true);
      Shape1(true, "Scase", DCtor(false, "Range", Arg0(DBoxed(lo), Arg(DBoxed(h), END))), END, true);
    case None =>
      Shape1(false, "Exact", DBoxed(lo), END, true);
      Shape1(true, "Scase", DCtor(false, "Exact", Arg0(DBoxed(lo), END)), END, true);
  }

  /** A label in front of a statement. */
  lemma JoinShape(s: Stmt, a: Doc, sub: Stmt)
    requires Atomic(a) && StmtDoc(s) == DJoin(a, StmtDoc(sub)) && Separated(s) == Separated(sub)
    requires First(a) == if StartsWord(s) then Solid else Free
    requires StmtShaped(sub)
    ensures StmtShaped(s)
  {
    hide Separated, StmtDoc;
  }

  lemma {:induction false} CaseShape(s: Stmt)
    requires s.Case? && StmtOk(s)
    ensures StmtShaped(s)
    decreases s, 1
  {
    hide Shaped, Spelled, Fusions, TopDoc, TopOk, DeclOk, CondVarDoc, OptExprDoc, StmtDoc;
    CaseNode(s);
    StmtShape(s.sub);
    LabelShapes(s.lo, s.hi);
    LabelFirst(s.lo, s.hi);
    JoinShape(s, CaseLabelDoc(s.lo, s.hi), s.sub);
  }

  lemma {:induction false} DefaultShape(s: Stmt)
    requires s.Default? && StmtOk(s)
    ensures StmtShaped(s)
    decreases s, 1
  {
    hide Shaped, Spelled, Fusions, TopDoc, TopOk, DeclOk, CondVarDoc, OptExprDoc, StmtDoc;
    DefaultNode(s);
    match s.defaulted
    case Some(x) =>
      LabelShapes(0, None);
      LabelFirst(0, None);
      StmtShape(x);
      JoinShape(s, DWord("Sdefault"), x);
    case None => WordStmtShape(s);
  }

  /** Three arguments without gaps run together where two bare ones meet. */
  lemma TightArgs(a: Doc, b: Doc, c: Doc, x: bool, y: bool, z: bool, p: bool, q: bool, r: bool)
    requires Shaped(a, x, p) && Shaped(b, y, q)
    requires Spelled(c) && (r <==> Fusions(c) == 0) && First(c) == if z then Solid else Free
    ensures Shaped(DCtor(true, "Sswitch", Arg0(a, Arg0(b, Arg0(c, END)))), false,
                   p && q && r && !(x && y) && !(y && z))
  {
    QuietEnd();
    TightArg(Last(b), c, END);
    TightArg(Last(a), b, Arg0(c, END));
    Args1(true, "Sswitch", a, Arg0(b, Arg0(c, END)));
  }

  lemma {:induction false} SwitchShape(s: Stmt)
    requires s.Switch? && StmtOk(s)
    ensures StmtShaped(s)
    decreases s, 1
  {
    hide Shaped, Spelled, Fusions, TopDoc, TopOk, DeclOk, CondVarDoc, OptExprDoc, StmtDoc;
    SwitchNode(s);
    CondVarShape(s.condVar);
    var p := s.condVar.Some? ==> DeclApart(s.condVar.value);
    TopShape(s.cond);
    StmtShape(s.body);
    UseStmt(s.body);
    TightArgs(CondVarDoc(s.condVar), TopDoc(s.cond), StmtDoc(s.body),
              s.condVar.None?, Bare(s.cond), StartsWord(s.body), p, Apart(s.cond), Separated(s.body));
    Conclude(s);
  }

  lemma {:induction false} ExprStmtShape(s: Stmt)
    requires s.ExprStmt? && StmtOk(s)
    ensures StmtShaped(s)
    decreases s, 1
  {
    hide Shaped, Spelled, Fusions, TopDoc, TopOk, DeclOk, CondVarDoc, OptExprDoc, StmtDoc;
    ExprStmtNode(s);
    TopShape(s.expr);
    Use(TopDoc(s.expr), Bare(s.expr), Apart(s.expr));
    QuietEnd();
    Shape1(true, "Sexpr", TopDoc(s.expr), END, Apart(s.expr));
    Conclude(s);
  }

  lemma WordShape(text: string)
    requires IsWord(text)
    ensures Shaped(DWord(text), true, true)
  {
  }

  lemma {:induction false} ReturnShape(s: Stmt)
    requires s.Return? && StmtOk(s)
    ensures StmtShaped(s)
    decreases s, 1
  {
    hide Shaped, Spelled, Fusions, TopDoc, TopOk, DeclOk, CondVarDoc, OptExprDoc, StmtDoc;
    ReturnNode(s);
    match s.val
    case Some(x) =>
      TopShape(x);
      Use(TopDoc(x), Bare(x), Apart(x));
      QuietEnd();
      Shape1(true, "Sreturn_val", TopDoc(x), END, Apart(x));
      Conclude(s);
    case None =>
      WordShape("Sreturn_void");
      Conclude(s);
  }

  lemma {:induction false} CompoundShape(s: Stmt)
    requires s.Compound? && StmtOk(s)
    ensures StmtShaped(s)
    decreases s, 1
  {
    hide Shaped, Spelled, Fusions, TopDoc, TopOk, DeclOk, CondVarDoc, OptExprDoc, StmtDoc;
    CompoundNode(s);
    ItemsShape(s.items);
    var docs := ItemDocs(s.items);
    ListDocShape(docs, AllSeparated(s.items));
    QuietEnd();
    Shape1(true, "Sseq", DList(docs), END, AllSeparated(s.items));
    Conclude(s);
  }

  lemma {:induction false} QuotedShape(texts: seq<string>)
    requires forall i :: 0 <= i < |texts| ==> IsPlain(texts[i])
    ensures var docs := QuotedDocs(texts);
            (forall i :: 0 <= i < |docs| ==> Spelled(docs[i])) && FusionsItems(docs) == 0
    decreases |texts|
  {
    if texts == [] {
    } else {
      QuotedShape(texts[1..]);
      assert QuotedDocs(texts)[1..] == QuotedDocs(texts[1..]);
    }
  }

  /** A list followed at once by another argument. */
  lemma TightPair(head: string, a: Doc, b: Doc, q: bool)
    requires IsWord(head) && a.DList? && Spelled(a) && Fusions(a) == 0 && Spelled(b)
    requires q <==> Fusions(b) == 0
    ensures Shaped(DCtor(true, head, Arg0(a, Arg0(b, END))), false, q)
  {
    QuietEnd();
    TightArg(Last(a), b, END);
    Args1(true, head, a, Arg0(b, END));
  }

  lemma {:induction false} AttributedShape(s: Stmt)
    requires s.Attributed? && StmtOk(s)
    ensures StmtShaped(s)
    decreases s, 1
  {
    hide Shaped, Spelled, Fusions, TopDoc, TopOk, DeclOk, CondVarDoc, OptExprDoc, StmtDoc;
    AttributedNode(s);
    QuotedShape(s.attrs);
    var docs := QuotedDocs(s.attrs);
    StmtShape(s.sub);
    UseStmt(s.sub);
    ListDocShape(docs, true);
    TightPair("Sattr", DList(docs), StmtDoc(s.sub), Separated(s.sub));
    Conclude(s);
  }

  lemma QuotedAtomic(text: string)
    requires IsPlain(text)
    ensures Atomic(DQuoted(text))
  {
  }

  lemma {:induction false} LabelShape(s: Stmt)
    requires s.LabelStmt? && StmtOk(s)
    ensures StmtShaped(s)
    decreases s, 1
  {
    hide Shaped, Spelled, Fusions, TopDoc, TopOk, DeclOk, CondVarDoc, OptExprDoc, StmtDoc;
    LabelNode(s);
    StmtShape(s.sub);
    UseStmt(s.sub);
    QuietEnd();
    QuotedAtomic(s.name);
    Shape2(true, "Slabeled", DQuoted(s.name), StmtDoc(s.sub), END, true, Separated(s.sub));
    Conclude(s);
  }

  lemma {:induction false} GotoShape(s: Stmt)
    requires s.Goto? && StmtOk(s)
    ensures StmtShaped(s)
    decreases s, 1
  {
    hide Shaped, Spelled, Fusions, TopDoc, TopOk, DeclOk, CondVarDoc, OptExprDoc, StmtDoc;
    GotoNode(s);
    QuietEnd();
    QuotedAtomic(s.name);
    Shape1(true, "Sgoto", DQuoted(s.name), END, true);
    Conclude(s);
  }

  lemma {:induction false} StmtShape(s: Stmt)
    requires StmtOk(s)
    ensures StmtShaped(s)
    decreases s, 2
  {
    hide StmtShaped, StmtOk;
    match s
    case DeclStmt(_) => DeclStmtShape(s);
    case While(_, _, _) => WhileShape(s);
    case For(_, _, _, _) => ForShape(s);
    case Do(_, _) => DoShape(s);
    case Break => WordStmtShape(s);
    case Continue => WordStmtShape(s);
    case If(_, _, _, _) => IfShape(s);
    case Case(_, _, _) => CaseShape(s);
    case Default(_) => DefaultShape(s);
    case Switch(_, _, _) => SwitchShape(s);
    case ExprStmt(_) => ExprStmtShape(s);
    case Return(_) => ReturnShape(s);
    case Compound(_) => CompoundShape(s);
    case Null => WordStmtShape(s);
    case Attributed(_, _) => AttributedShape(s);
    case LabelStmt(_, _) => LabelShape(s);
    case Goto(_) => GotoShape(s);
  }

  lemma WordStmtShape(s: Stmt)
    requires s.Break? || s.Continue? || s.Null? || (s.Default? && s.defaulted.None?)
    ensures StmtShaped(s)
  {
    if s.Default? {
      WordShape("Sdefault");
    } else if s.Break? {
      WordShape("Sbreak");
    } else if s.Continue? {
      WordShape("Scontinue");
    } else {
      WordShape("Sskip");
    }
    Conclude(s);
  }

  lemma {:induction false} ItemsShape(items: seq<Stmt>)
    requires forall i :: 0 <= i < |items| ==> StmtOk(items[i])
    ensures var docs := ItemDocs(items);
            && (forall i :: 0 <= i < |docs| ==> Spelled(docs[i]))
            && (AllSeparated(items) <==> FusionsItems(docs) == 0)
    decreases items, 0
  {
    hide Spelled, Fusions, StmtOk, StmtDoc, Separated;
    if items == [] {
    } else {
      StmtShape(items[0]);
      UseStmt(items[0]);
      ItemsShape(items[1..]);
      assert ItemDocs(items)[1..] == ItemDocs(items[1..]);
    }
  }
}

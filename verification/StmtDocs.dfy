/** The documents that src/PrintStmt.cpp and src/PrintLocalDecl.cpp write. A `case` or `default`
    statement contributes its label as a list element of its own, ahead of the statement it
    labels. */
module StmtDocs {
  import opened Text
  import opened Names
  import opened ClangAst
  import opened CoqTypes
  import opened Docs
  import opened ExprDocs

  /** An expression printed in a fresh environment. */
  function TopDoc(e: Expr): Doc {
    ExprDoc(NO_NAMES, e).0
  }

  function OptExprDoc(e: Option<Expr>): Doc {
    match e
    case Some(x) => SomeDoc(TopDoc(x))
    case None => NONE_DOC
  }

  // ---- Local declarations ------------------------------------------------------------------

  /** The initializer ends the declaration; without one a space is left before the parenthesis. */
  function InitArgs(env: Env, init: Option<Expr>): Args {
    match init
    case Some(x) => Arg(SomeDoc(ExprDoc(env, x).0), END)
    case None => Arg(NONE_DOC, Done(SP))
  }

  function VarDoc(d: LocalDecl): Doc
    requires d.VarDecl?
  {
    var rest := Arg(QualDoc(d.ty), InitArgs(NO_NAMES, d.init));
    match d.storage
    case Automatic => DCtor(true, "Dvar", Arg0(DQuoted(d.name), rest))
    case StaticLocal(safe) =>
      DCtor(true, "Dinit", Arg0(DWord(if safe then "true" else "false"), Arg(DQuoted(d.name), rest)))
  }

  function BindingDoc(x: Doc, ty: QualType, name: string): Doc {
    DCtor(true, "Dvar", Arg0(DQuoted(name), Arg(QualDoc(ty), Arg(SomeDoc(x), END))))
  }

  function BindingDocs(env: Env, ty: QualType, bs: seq<Binding>): (docs: seq<Doc>)
    ensures |docs| == |bs|
    decreases |bs|
  {
    if bs == [] then []
    else
      var (x, env1) := ExprDoc(env, bs[0].expr);
      [BindingDoc(x, ty, bs[0].name)] + BindingDocs(env1, ty, bs[1..])
  }

  function DecompositionDoc(d: LocalDecl): Doc
    requires d.Decomposition?
  {
    var (x, env) := ExprDoc(NO_NAMES, d.source);
    var bound := env.(anonymous := env.anonymous + [d.id]);
    DCtor(true, "Ddecompose",
      Arg0(x, Arg(DAnon(|env.anonymous|), Arg(ListDoc(BindingDocs(bound, d.ty, d.bindings)), END))))
  }

  function LocalDoc(d: LocalDecl): Option<Doc> {
    match d
    case VarDecl(_, _, _, _) => Some(VarDoc(d))
    case Decomposition(_, _, _, _) => Some(DecompositionDoc(d))
    case Unprinted => None
  }

  function LocalDocs(ds: seq<LocalDecl>): seq<Doc> {
    if ds == [] then []
    else (if LocalDoc(ds[0]).Some? then [LocalDoc(ds[0]).value] else []) + LocalDocs(ds[1..])
  }

  function CondVarDoc(v: Option<ConditionVar>): Doc {
    match v
    case Some(d) => SomeDoc(VarDoc(d))
    case None => NONE_DOC
  }

  // ---- Statements --------------------------------------------------------------------------

  function QuotedDocs(texts: seq<string>): seq<Doc> {
    if texts == [] then [] else [DQuoted(texts[0])] + QuotedDocs(texts[1..])
  }

  function CaseLabelDoc(lo: int, hi: Option<int>): Doc {
    DCtor(true, "Scase",
      match hi
      case Some(h) => Arg0(DCtor(false, "Range", Arg0(DBoxed(lo), Arg(DBoxed(h), END))), END)
      case None => Arg0(DCtor(false, "Exact", Arg0(DBoxed(lo), END)), END))
  }

  function StmtDoc(s: Stmt): Doc
    decreases s, 1
  {
    match s
    case DeclStmt(ds) => DCtor(true, "Sdecl", Arg0(DList(LocalDocs(ds)), END))
    case While(_, _, _) => WhileDoc(s)
    case For(_, _, _, _) => ForDoc(s)
    case Do(_, _) => DoDoc(s)
    case Break => DWord("Sbreak")
    case Continue => DWord("Scontinue")
    case If(_, _, _, _) => IfDoc(s)
    case Case(_, _, _) => CaseDoc(s)
    case Default(_) => DefaultDoc(s)
    case Switch(_, _, _) => SwitchDoc(s)
    case ExprStmt(e) => DCtor(true, "Sexpr", Arg0(TopDoc(e), END))
    case Return(_) => ReturnDoc(s)
    case Compound(items) => DCtor(true, "Sseq", Arg0(DList(ItemDocs(items)), END))
    case Null => DWord("Sskip")
    case Attributed(_, _) => AttributedDoc(s)
    case LabelStmt(_, _) => LabelDoc(s)
    case Goto(l) => DCtor(true, "Sgoto", Arg0(DQuoted(l), END))
  }

  function WhileDoc(s: Stmt): Doc
    requires s.While?
    decreases s, 0
  {
    DCtor(true, "Swhile", Arg0(CondVarDoc(s.condVar), Arg(TopDoc(s.cond), Arg(StmtDoc(s.body), END))))
  }

  function ForDoc(s: Stmt): Doc
    requires s.For?
    decreases s, 0
  {
    DCtor(true, "Sfor", Arg0(
      match s.init { case Some(i) => SomeDoc(StmtDoc(i)) case None => NONE_DOC },
      Arg(OptExprDoc(s.test), Arg(OptExprDoc(s.inc), Arg(StmtDoc(s.body), END)))))
  }

  function DoDoc(s: Stmt): Doc
    requires s.Do?
    decreases s, 0
  {
    DCtor(true, "Sdo", Arg0(StmtDoc(s.body), Arg(TopDoc(s.cond), END)))
  }

  function IfDoc(s: Stmt): Doc
    requires s.If?
    decreases s, 0
  {
    var e := match s.els { case Some(x) => StmtDoc(x) case None => DWord("Sskip") };
    DCtor(true, "Sif",
      Arg0(CondVarDoc(s.condVar), Arg(TopDoc(s.cond), Arg(StmtDoc(s.thn), Arg(e, END)))))
  }

  function CaseDoc(s: Stmt): Doc
    requires s.Case?
    decreases s, 0
  {
    DJoin(CaseLabelDoc(s.lo, s.hi), StmtDoc(s.sub))
  }

  function DefaultDoc(s: Stmt): Doc
    requires s.Default?
    decreases s, 0
  {
    match s.defaulted
    case Some(x) => DJoin(DWord("Sdefault"), StmtDoc(x))
    case None => DWord("Sdefault")
  }

  /** Nothing separates the condition from its neighbours. */
  function SwitchDoc(s: Stmt): Doc
    requires s.Switch?
    decreases s, 0
  {
    DCtor(true, "Sswitch",
      Arg0(CondVarDoc(s.condVar), Arg0(TopDoc(s.cond), Arg0(StmtDoc(s.body), END))))
  }

  function ReturnDoc(s: Stmt): Doc
    requires s.Return?
    decreases s, 0
  {
    match s.val
    case Some(x) => DCtor(true, "Sreturn_val", Arg0(TopDoc(x), END))
    case None => DWord("Sreturn_void")
  }

  function AttributedDoc(s: Stmt): Doc
    requires s.Attributed?
    decreases s, 0
  {
    DCtor(true, "Sattr", Arg0(DList(QuotedDocs(s.attrs)), Arg0(StmtDoc(s.sub), END)))
  }

  function LabelDoc(s: Stmt): Doc
    requires s.LabelStmt?
    decreases s, 0
  {
    DCtor(true, "Slabeled", Arg0(DQuoted(s.name), Arg(StmtDoc(s.sub), END)))
  }

  function ItemDocs(items: seq<Stmt>): seq<Doc>
    decreases items, 0
  {
    if items == [] then [] else [StmtDoc(items[0])] + ItemDocs(items[1..])
  }

  // ---- One node at a time: the document by kind, for proofs that hide the rest ---------------

  lemma WhileNode(s: Stmt)
    requires s.While?
    ensures StmtDoc(s) == WhileDoc(s)
  {
  }

  lemma ForNode(s: Stmt)
    requires s.For?
    ensures StmtDoc(s) == ForDoc(s)
  {
  }

  lemma DoNode(s: Stmt)
    requires s.Do?
    ensures StmtDoc(s) == DoDoc(s)
  {
  }

  lemma IfNode(s: Stmt)
    requires s.If?
    ensures StmtDoc(s) == IfDoc(s)
  {
  }

  lemma CaseNode(s: Stmt)
    requires s.Case?
    ensures StmtDoc(s) == CaseDoc(s)
  {
  }

  lemma DefaultNode(s: Stmt)
    requires s.Default?
    ensures StmtDoc(s) == DefaultDoc(s)
  {
  }

  lemma SwitchNode(s: Stmt)
    requires s.Switch?
    ensures StmtDoc(s) == SwitchDoc(s)
  {
  }

  lemma ReturnNode(s: Stmt)
    requires s.Return?
    ensures StmtDoc(s) == ReturnDoc(s)
  {
  }

  lemma AttributedNode(s: Stmt)
    requires s.Attributed?
    ensures StmtDoc(s) == AttributedDoc(s)
  {
  }

  lemma LabelNode(s: Stmt)
    requires s.LabelStmt?
    ensures StmtDoc(s) == LabelDoc(s)
  {
  }

  lemma DeclStmtNode(s: Stmt)
    requires s.DeclStmt?
    ensures StmtDoc(s) == DCtor(true, "Sdecl", Arg0(DList(LocalDocs(s.decls)), END))
  {
  }

  lemma ExprStmtNode(s: Stmt)
    requires s.ExprStmt?
    ensures StmtDoc(s) == DCtor(true, "Sexpr", Arg0(TopDoc(s.expr), END))
  {
  }

  lemma CompoundNode(s: Stmt)
    requires s.Compound?
    ensures StmtDoc(s) == DCtor(true, "Sseq", Arg0(DList(ItemDocs(s.items)), END))
  {
  }

  lemma GotoNode(s: Stmt)
    requires s.Goto?
    ensures StmtDoc(s) == DCtor(true, "Sgoto", Arg0(DQuoted(s.name), END))
  {
  }
}

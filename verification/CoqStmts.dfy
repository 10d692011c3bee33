/** Statements on the Coq side, and the flattening that the printer performs: labels of a
    `switch` become elements of the enclosing list. */
module CoqStmts {
  import opened Text
  import opened ClangAst
  import opened CoqExprs
  import opened Translation

  datatype Branch = Exact(v: int) | Range(lo: int, hi: int)

  /** `Stmt` of theories/lang/cpp/syntax/stmt.v. */
  datatype CStmt =
    | Sseq(items: seq<CStmt>)
    | Sdecl(decls: seq<CDecl>)
    | Sif(condVar: Option<CDecl>, cond: CExpr, thn: CStmt, els: CStmt)
    | Swhile(condVar: Option<CDecl>, cond: CExpr, body: CStmt)
    | Sfor(init: Option<CStmt>, test: Option<CExpr>, inc: Option<CExpr>, body: CStmt)
    | Sdo(body: CStmt, cond: CExpr)
    | Sswitch(condVar: Option<CDecl>, cond: CExpr, body: CStmt)
    | Scase(branch: Branch)
    | Sdefault
    | Sbreak
    | Scontinue
    | SreturnVoid
    | SreturnVal(val: CExpr)
    | Sexpr(expr: CExpr)
    | Sattr(attrs: seq<string>, sub: CStmt)
    | Slabeled(name: string, sub: CStmt)
    | Sgoto(name: string)
    | Sskip

  function LabelOf(lo: int, hi: Option<int>): Branch {
    match hi
    case Some(h) => Range(lo, h)
    case None => Exact(lo)
  }

  /** The list elements that a statement contributes. */
  function Flatten(s: Stmt): (r: seq<CStmt>)
    ensures r != []
    decreases s, 1
  {
    match s
    case DeclStmt(ds) => [Sdecl(DeclsToCoq(ds))]
    case While(v, c, b) => [Swhile(CondVarToCoq(v), TopToCoq(c), One(b))]
    case For(i, t, n, b) =>
      [Sfor(if i.Some? then Some(One(i.value)) else None, OptToCoq(t), OptToCoq(n), One(b))]
    case Do(b, c) => [Sdo(One(b), TopToCoq(c))]
    case Break => [Sbreak]
    case Continue => [Scontinue]
    case If(v, c, t, e) =>
      [Sif(CondVarToCoq(v), TopToCoq(c), One(t), if e.Some? then One(e.value) else Sskip)]
    case Case(lo, hi, sub) => [Scase(LabelOf(lo, hi))] + Flatten(sub)
    case Default(sub) => [Sdefault] + (if sub.Some? then Flatten(sub.value) else [])
    case Switch(v, c, b) => [Sswitch(CondVarToCoq(v), TopToCoq(c), One(b))]
    case ExprStmt(e) => [Sexpr(TopToCoq(e))]
    case Return(e) => [if e.Some? then SreturnVal(TopToCoq(e.value)) else SreturnVoid]
    case Compound(items) => [Sseq(FlattenAll(items))]
    case Null => [Sskip]
    case Attributed(attrs, sub) => [Sattr(attrs, One(sub))]
    case LabelStmt(name, sub) => [Slabeled(name, One(sub))]
    case Goto(name) => [Sgoto(name)]
  }

  /** A statement where Coq expects exactly one. */
  function One(s: Stmt): CStmt
    decreases s, 2
  {
    var f := Flatten(s);
    if |f| == 1 then f[0] else Sseq(f)
  }

  function FlattenAll(items: seq<Stmt>): seq<CStmt>
    decreases items, 0
  {
    if items == [] then [] else Flatten(items[0]) + FlattenAll(items[1..])
  }

  /** `case` and `default` statements occur only as items of a compound statement or directly
      under another such label. */
  predicate Placed(s: Stmt, item: bool)
    decreases s
  {
    match s
    case While(_, _, b) => Placed(b, false)
    case For(i, _, _, b) => (i.Some? ==> Placed(i.value, false)) && Placed(b, false)
    case Do(b, _) => Placed(b, false)
    case If(_, _, t, e) => Placed(t, false) && (e.Some? ==> Placed(e.value, false))
    case Case(_, _, sub) => item && Placed(sub, true)
    case Default(sub) => sub.Some? ==> item && Placed(sub.value, true)
    case Switch(_, _, b) => Placed(b, false)
    case Compound(items) => forall i :: 0 <= i < |items| ==> Placed(items[i], true)
    case Attributed(_, sub) => Placed(sub, false)
    case LabelStmt(_, sub) => Placed(sub, false)
    case _ => true
  }

  lemma PlacedIsOne(s: Stmt)
    requires Placed(s, false)
    ensures Flatten(s) == [One(s)]
  {
  }
}

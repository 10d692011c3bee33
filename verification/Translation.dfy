/** The Coq expression for which an expression stands, and the Coq declaration for a local
    declaration. */
module Translation {
  import opened Text
  import opened Names
  import opened ClangAst
  import opened CoqTypes
  import opened ExprDocs
  import opened Binders
  import opened CoqExprs

  function BinOpOf(op: ArithOp): CBinOp {
    match op
    case Add => Badd
    case Sub => Bsub
    case Mul => Bmul
    case Div => Bdiv
    case Rem => Bmod
    case And => Band
    case Or => Bor
    case Xor => Bxor
    case Shl => Bshl
    case Shr => Bshr
    case EQ => Beq
    case NE => Bneq
    case LT => Blt
    case LE => Ble
    case GT => Bgt
    case GE => Bge
    case Cmp => Bcmp
  }

  /** A declaration on the anonymous stack is known by its position there; functions, static and
      global variables go by their global names. */
  function NameOf(env: Env, decl: ValueDecl): CName {
    if decl.id in env.anonymous then Lname("$" + Decimal(IndexOf(env.anonymous, decl.id)))
    else if decl.local then Lname(decl.name)
    else Gname(decl.name)
  }

  function ReadThrough(reference: bool, e: CExpr): CExpr {
    if reference then EreadRef(e) else e
  }

  function UnaryOf(op: UnaryOp, x: CExpr, ty: CoqType): CExpr {
    match op
    case Plus => Eunop(Uplus, x, ty)
    case Minus => Eunop(Uminus, x, ty)
    case Not => Eunop(Ubnot, x, ty)
    case LNot => Eunop(Unot, x, ty)
    case AddrOf => Eaddrof(x)
    case Deref => Ederef(x, ty)
    case PostInc => Epostinc(x, ty)
    case PostDec => Epostdec(x, ty)
    case PreInc => Epreinc(x, ty)
    case PreDec => Epredec(x, ty)
  }

  function BinaryOf(op: BinaryOp, l: CExpr, r: CExpr, ty: CoqType): CExpr {
    match op
    case Arith(x) => Ebinop(BinOpOf(x), l, r, ty)
    case CompoundAssign(x) => EassignOp(BinOpOf(x), l, r, ty)
    case Assign => Eassign(l, r, ty)
    case Comma => Ecomma(l, r)
    case LAnd => Eseqand(l, r)
    case LOr => Eseqor(l, r)
  }

  /** The environment behind an expression. */
  function Past(env: Env, e: Expr): Env {
    WithNumbers(env, Bound(e))
  }

  function Inside(env: Env): Env {
    env.(count := env.count + 1)
  }

  /** The Coq expression in an environment of numbers and anonymous declarations. */
  function ToCoq(env: Env, e: Expr): CExpr
    decreases e, 1
  {
    match e
    case NullPtr => Enull
    case BoolLiteral(b) => Ebool(b)
    case IntegerLiteral(n, ty) => Eint(n, Printed(ty))
    case CharacterLiteral(n, ty) => Echar(n, Printed(ty))
    case StringLiteral(str, elem) => Estring(Units(str.bytes, str.width), PrintedType(elem))
    case This(ty) => Ethis(Printed(ty))
    case DeclRef(decl, ty) => ReadThrough(decl.reference, Evar(NameOf(env, decl), Printed(ty)))
    case Unary(op, sub, ty) => UnaryOf(op, ToCoq(env, sub), Printed(ty))
    case Binary(op, l, r, ty) =>
      if op.Comma? || op.LAnd? || op.LOr?
      then BinaryOf(op, ToCoq(NO_NAMES, l), ToCoq(NO_NAMES, r), Printed(ty))
      else BinaryOf(op, ToCoq(env, l), ToCoq(Past(env, l), r), Printed(ty))
    case Subscript(l, r, ty) => Esubscript(ToCoq(env, l), ToCoq(Past(env, l), r), Printed(ty))
    case Call(f, xs, ty) => Ecall(ToCoq(env, f), AllToCoq(Past(env, f), xs), Printed(ty))
    case MemberCall(name, virtually, mty, o, xs, ty) =>
      EmemberCall(name, if virtually then Virtual else CallKind.Direct, Printed(mty),
                  ToCoq(env, o), AllToCoq(Past(env, o), xs), Printed(ty))
    case Construct(name, xs, ty) => Econstructor(name, AllToCoq(env, xs), Printed(ty))
    case Cast(kind, sub, vc, ty) => Ecast(kind, ToCoq(env, sub), vc, Printed(ty))
    case Member(sub, record, field, reference, ty) =>
      ReadThrough(reference, Emember(ToCoq(env, sub), record, field, Printed(ty)))
    case Conditional(c, t, f, vc, ty) =>
      var env1 := Past(env, c);
      Eif(ToCoq(env, c), ToCoq(env1, t), ToCoq(Past(env1, t), f), vc, Printed(ty))
    case BinaryConditional(_, _, _, _, _, _, _) => Eif2ToCoq(env, e)
    case Transparent(sub) => ToCoq(env, sub)
    case InitList(xs, filler, ty) =>
      Einitlist(AllToCoq(env, xs),
                if filler.Some? then Some(ToCoq(WithNumbers(env, BoundAll(xs)), filler.value)) else None,
                Printed(ty))
    case WithCleanups(sub) => Eandclean(ToCoq(env, sub))
    case MaterializeTemporary(sub, vc) => EmaterializeTemp(ToCoq(env, sub), vc)
    case DefaultArg(sub) => Eimplicit(ToCoq(env, sub))
    case OpaqueValue(o, vc, ty) => EopaqueRef(IndexOf(env.indexes, o), vc, Printed(ty))
    case ArrayInitLoop(_, _, _, _, _) => LoopToCoq(env, e)
    case ArrayInitIndex(ty) => EarrayloopIndex(env.count, Printed(ty))
  }

  /** The common part is numbered; the others are one level further in. */
  function Eif2ToCoq(env: Env, e: Expr): CExpr
    requires e.BinaryConditional?
    decreases e, 0
  {
    var env0 := WithNumbers(env, [e.opaque_]);
    var env1 := Inside(Past(env0, e.common));
    var env2 := Past(env1, e.cond);
    Eif2(|env.indexes|, ToCoq(env0, e.common), ToCoq(env1, e.cond), ToCoq(env2, e.thn),
         ToCoq(Past(env2, e.thn), e.els), e.vc, Printed(e.ty))
  }

  /** The source is numbered; the body is one level further in. */
  function LoopToCoq(env: Env, e: Expr): CExpr
    requires e.ArrayInitLoop?
    decreases e, 0
  {
    var env0 := WithNumbers(env, [e.opaque_]);
    var env1 := Inside(Past(env0, e.source));
    EarrayloopInit(|env.indexes|, ToCoq(env0, e.source), env1.count, e.size, ToCoq(env1, e.sub), Printed(e.ty))
  }

  function AllToCoq(env: Env, es: seq<Expr>): (cs: seq<CExpr>)
    ensures |cs| == |es|
    decreases es, 0
  {
    if es == [] then [] else [ToCoq(env, es[0])] + AllToCoq(Past(env, es[0]), es[1..])
  }

  /** A whole expression. */
  function TopToCoq(e: Expr): CExpr {
    ToCoq(NO_NAMES, e)
  }

  function OptToCoq(e: Option<Expr>): Option<CExpr> {
    if e.Some? then Some(TopToCoq(e.value)) else None
  }

  // ---- Declarations --------------------------------------------------------------------------

  /** The name that a decomposition declares. */
  const ANONYMOUS := "$0"

  /** Bindings may refer to the decomposition that declares them. */
  function BindingsToCoq(env: Env, ty: QualType, bs: seq<Binding>): seq<CDecl>
    decreases |bs|
  {
    if bs == [] then []
    else
      [Dvar(bs[0].name, Printed(ty), Some(ToCoq(env, bs[0].expr)))]
      + BindingsToCoq(Past(env, bs[0].expr), ty, bs[1..])
  }

  /** What a declaration is printed as; some are skipped. */
  function DeclToCoq(d: LocalDecl): Option<CDecl> {
    match d
    case VarDecl(name, Automatic, ty, init) => Some(Dvar(name, Printed(ty), OptToCoq(init)))
    case VarDecl(name, StaticLocal(safe), ty, init) => Some(Dinit(safe, name, Printed(ty), OptToCoq(init)))
    case Decomposition(id, source, ty, bs) =>
      Some(Ddecompose(TopToCoq(source), ANONYMOUS, BindingsToCoq(Env(Bound(source), [id], -1), ty, bs)))
    case Unprinted => None
  }

  function DeclsToCoq(ds: seq<LocalDecl>): seq<CDecl> {
    if ds == [] then []
    else
      (match DeclToCoq(ds[0])
       case Some(d) => [d]
       case None => [])
      + DeclsToCoq(ds[1..])
  }

  function CondVarToCoq(v: Option<ConditionVar>): Option<CDecl> {
    if v.Some? then DeclToCoq(v.value) else None
  }
}

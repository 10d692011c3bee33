/** The documents that src/PrintExpr.cpp writes for expressions. Opaque values are replaced by
    their numbers, so the document of an expression depends on the binder environment and
    extends it. */
module ExprDocs {
  import opened Text
  import opened Names
  import opened ClangAst
  import opened CoqTypes
  import opened Docs

  function ArithName(op: ArithOp): string {
    match op
    case Add => "Badd"
    case And => "Band"
    case Cmp => "Bcmp"
    case Div => "Bdiv"
    case EQ => "Beq"
    case GE => "Bge"
    case GT => "Bgt"
    case LE => "Ble"
    case LT => "Blt"
    case Mul => "Bmul"
    case NE => "Bneq"
    case Or => "Bor"
    case Rem => "Bmod"
    case Shl => "Bshl"
    case Shr => "Bshr"
    case Sub => "Bsub"
    case Xor => "Bxor"
  }

  function ValCatName(vc: ValCat): string {
    match vc
    case Lvalue => "Lvalue"
    case Prvalue => "Prvalue"
    case Xvalue => "Xvalue"
  }

  function VcDoc(vc: ValCat): Doc {
    DWord(ValCatName(vc))
  }

  function QualDoc(qt: QualType): Doc {
    TypeDoc(Printed(qt))
  }

  function NatDoc(n: nat): Doc {
    DWord(Decimal(n))
  }

  function TypeArg(ty: QualType): Args {
    Arg(QualDoc(ty), END)
  }

  function VcTypeArgs(vc: ValCat, ty: QualType): Args {
    Arg(VcDoc(vc), TypeArg(ty))
  }

  /** `nil` for an empty range, and otherwise a parenthesised list. */
  function ListDoc(items: seq<Doc>): Doc {
    if items == [] then DWord("nil") else DList(items)
  }

  function SomeDoc(d: Doc): Doc {
    DCtor(true, "Some", Arg0(d, END))
  }

  const NONE_DOC := DWord("None")

  function RefDoc(env: Env, decl: ValueDecl): Doc {
    var t := IndexOf(env.anonymous, decl.id);
    if t != -1 then DCtor(false, "Lname", Arg0(DAnon(t), END))
    else if decl.local then DCtor(false, "Lname", Arg0(DQuoted(decl.name), END))
    else DCtor(false, "Gname", Arg0(DQuoted(decl.name), END))
  }

  /** The code units of a string literal, least significant byte first. */
  function Unit(bytes: seq<int>, width: nat): nat
    requires width <= |bytes|
  {
    if width == 0 then 0 else Unit(bytes[1..], width - 1) * 256 + bytes[0] % 256
  }

  function Units(bytes: seq<int>, width: nat): seq<nat>
    decreases |bytes|
  {
    if width == 0 || |bytes| < width then []
    else [Unit(bytes, width)] + Units(bytes[width..], width)
  }

  function UnitDocs(units: seq<nat>): seq<Doc> {
    seq(|units|, i requires 0 <= i < |units| => DScoped(Decimal(units[i]), "N"))
  }

  function UnaryHead(op: UnaryOp): string {
    match op
    case AddrOf => "Eaddrof"
    case Deref => "Ederef"
    case PostInc => "Epostinc"
    case PreInc => "Epreinc"
    case PostDec => "Epostdec"
    case PreDec => "Epredec"
    case _ => "Eunop"
  }

  function UnopName(op: UnaryOp): string
    requires UnaryHead(op) == "Eunop"
  {
    match op
    case Plus => "Uplus"
    case Minus => "Uminus"
    case Not => "Ubnot"
    case LNot => "Unot"
  }

  predicate IsUnop(op: UnaryOp) {
    op.Plus? || op.Minus? || op.Not? || op.LNot?
  }

  /** Operators whose operands are printed in a fresh environment. */
  predicate Restarts(op: BinaryOp) {
    op.Comma? || op.LAnd? || op.LOr?
  }

  function LogicHead(op: BinaryOp): string
    requires Restarts(op)
  {
    match op
    case Comma => "Ecomma"
    case LAnd => "Eseqand"
    case LOr => "Eseqor"
  }

  function CalleeDoc(name: string, virtually: bool, ty: QualType): Doc {
    DCtor(true, "inl",
      Arg0(DTuple(DQuoted(name), [DWord(if virtually then "Virtual" else "Direct"), QualDoc(ty)]), END))
  }

  function FieldDoc(record: string, field: string): Doc {
    DCtor(false, "Build_field", Arg0(DQuoted(record), Arg(DQuoted(field), END)))
  }

  /** The document of an expression and the environment after it. */
  function ExprDoc(env: Env, e: Expr): (Doc, Env)
    decreases e, 1
  {
    match e
    case NullPtr => (DWord("Enull"), env)
    case BoolLiteral(b) => (DRaw("Ebool", if b then "true" else "false"), env)
    case This(ty) => (DCtor(false, "Ethis", TypeArg(ty)), env)
    case Transparent(sub) => ExprDoc(env, sub)
    case Binary(op, _, _, _) => if Restarts(op) then SequencedDoc(env, e) else BinaryDoc(env, e)
    case IntegerLiteral(_, _) => IntegerDoc(env, e)
    case CharacterLiteral(_, _) => CharacterDoc(env, e)
    case StringLiteral(_, _) => StringDoc(env, e)
    case DeclRef(_, _) => DeclRefDoc(env, e)
    case Unary(_, _, _) => UnaryDoc(env, e)
    case Subscript(_, _, _) => SubscriptDoc(env, e)
    case Call(_, _, _) => CallDoc(env, e)
    case MemberCall(_, _, _, _, _, _) => MemberCallDoc(env, e)
    case Construct(_, _, _) => ConstructDoc(env, e)
    case Cast(_, _, _, _) => CastDoc(env, e)
    case Member(_, _, _, _, _) => MemberDoc(env, e)
    case Conditional(_, _, _, _, _) => ConditionalDoc(env, e)
    case BinaryConditional(_, _, _, _, _, _, _) => BinaryConditionalDoc(env, e)
    case InitList(_, _, _) => InitListDoc(env, e)
    case WithCleanups(_) => CleanupsDoc(env, e)
    case MaterializeTemporary(_, _) => TemporaryDoc(env, e)
    case DefaultArg(_) => DefaultArgDoc(env, e)
    case OpaqueValue(_, _, _) => OpaqueDoc(env, e)
    case ArrayInitLoop(_, _, _, _, _) => ArrayLoopDoc(env, e)
    case ArrayInitIndex(_) => ArrayIndexDoc(env, e)
  }

  function IntegerDoc(env: Env, e: Expr): (Doc, Env)
    requires e.IntegerLiteral?
    decreases e, 0
  {
    (DCtor(false, "Eint", Arg0(DScoped(Decimal(e.num), "Z"), TypeArg(e.ty))), env)
  }

  function CharacterDoc(env: Env, e: Expr): (Doc, Env)
    requires e.CharacterLiteral?
    decreases e, 0
  {
    (DCtor(false, "Echar", Arg0(DScoped(Decimal(e.num), "N"), TypeArg(e.ty))), env)
  }

  function StringDoc(env: Env, e: Expr): (Doc, Env)
    requires e.StringLiteral?
    decreases e, 0
  {
    (DCtor(false, "Estring",
      Arg0(DList(UnitDocs(Units(e.str.bytes, e.str.width))), Arg(TypeDoc(PrintedType(e.elem)), END))), env)
  }

  function DeclRefDoc(env: Env, e: Expr): (Doc, Env)
    requires e.DeclRef?
    decreases e, 0
  {
    var v := DCtor(false, "Evar", Arg0(RefDoc(env, e.decl), TypeArg(e.ty)));
    (if e.decl.reference then DCtor(true, "Eread_ref", Arg0(v, END)) else v, env)
  }

  function UnaryDoc(env: Env, e: Expr): (Doc, Env)
    requires e.Unary?
    decreases e, 0
  {
    var (s, env1) := ExprDoc(env, e.sub);
    (DCtor(true, UnaryHead(e.uop),
      if e.uop.AddrOf? then Arg0(s, END)
      else if IsUnop(e.uop) then Arg0(DWord(UnopName(e.uop)), Arg(s, TypeArg(e.ty)))
      else Arg0(s, TypeArg(e.ty))), env1)
  }

  function SequencedDoc(env: Env, e: Expr): (Doc, Env)
    requires e.Binary? && Restarts(e.bop)
    decreases e, 0
  {
    (DCtor(true, LogicHead(e.bop),
      Arg0(ExprDoc(NO_NAMES, e.lhs).0, Arg(ExprDoc(NO_NAMES, e.rhs).0, END))), env)
  }

  function BinaryDoc(env: Env, e: Expr): (Doc, Env)
    requires e.Binary? && !Restarts(e.bop)
    decreases e, 0
  {
    var (l, env1) := ExprDoc(env, e.lhs);
    var (r, env2) := ExprDoc(env1, e.rhs);
    var operands := Arg(r, TypeArg(e.ty));
    (match e.bop
     case Assign => DCtor(true, "Eassign", Arg0(l, operands))
     case CompoundAssign(op) => DCtor(true, "Eassign_op", Arg0(DWord(ArithName(op)), Arg(l, operands)))
     case Arith(op) => DCtor(true, "Ebinop", Arg0(DWord(ArithName(op)), Arg(l, operands))), env2)
  }

  function SubscriptDoc(env: Env, e: Expr): (Doc, Env)
    requires e.Subscript?
    decreases e, 0
  {
    var (l, env1) := ExprDoc(env, e.lhs);
    var (r, env2) := ExprDoc(env1, e.rhs);
    (DCtor(true, "Esubscript", Arg0(l, Arg(r, TypeArg(e.ty)))), env2)
  }

  function CallDoc(env: Env, e: Expr): (Doc, Env)
    requires e.Call?
    decreases e, 0
  {
    var (f, env1) := ExprDoc(env, e.callee);
    var (xs, env2) := ArgDocs(env1, e.args);
    (DCtor(true, "Ecall", Arg0(f, More(Broken, ListDoc(xs), TypeArg(e.ty)))), env2)
  }

  function MemberCallDoc(env: Env, e: Expr): (Doc, Env)
    requires e.MemberCall?
    decreases e, 0
  {
    var (o, env1) := ExprDoc(env, e.receiver);
    var (xs, env2) := ArgDocs(env1, e.args);
    (DCtor(true, "Emember_call",
      Arg0(CalleeDoc(e.name, e.virtually, e.methodTy), Arg(o, Arg(ListDoc(xs), TypeArg(e.ty))))), env2)
  }

  function ConstructDoc(env: Env, e: Expr): (Doc, Env)
    requires e.Construct?
    decreases e, 0
  {
    var (xs, env1) := ArgDocs(env, e.args);
    (DCtor(true, "Econstructor", Arg0(DQuoted(e.name), Arg(ListDoc(xs), TypeArg(e.ty)))), env1)
  }

  function CastDoc(env: Env, e: Expr): (Doc, Env)
    requires e.Cast?
    decreases e, 0
  {
    var (s, env1) := ExprDoc(env, e.sub);
    (DCtor(true, "Ecast", Arg0(DWord(e.kind), Arg(s, VcTypeArgs(e.vc, e.ty)))), env1)
  }

  function MemberDoc(env: Env, e: Expr): (Doc, Env)
    requires e.Member?
    decreases e, 0
  {
    var (s, env1) := ExprDoc(env, e.sub);
    var m := DCtor(true, "Emember", Arg0(s, Arg(FieldDoc(e.record, e.field), TypeArg(e.ty))));
    (if e.reference then DCtor(true, "Eread_ref", Arg0(m, END)) else m, env1)
  }

  function ConditionalDoc(env: Env, e: Expr): (Doc, Env)
    requires e.Conditional?
    decreases e, 0
  {
    var (c, env1) := ExprDoc(env, e.cond);
    var (t, env2) := ExprDoc(env1, e.thn);
    var (f, env3) := ExprDoc(env2, e.els);
    (DCtor(true, "Eif", Arg0(c, Arg(t, Arg(f, VcTypeArgs(e.vc, e.ty))))), env3)
  }

  function BinaryConditionalDoc(env: Env, e: Expr): (Doc, Env)
    requires e.BinaryConditional?
    decreases e, 0
  {
    var (m, env1) := ExprDoc(env.(indexes := env.indexes + [e.opaque_]), e.common);
    var (c, env2) := ExprDoc(env1.(count := env1.count + 1), e.cond);
    var (t, env3) := ExprDoc(env2, e.thn);
    var (f, env4) := ExprDoc(env3, e.els);
    (DCtor(true, "Eif2",
      Arg0(NatDoc(|env.indexes|), Arg(m, Arg(c, Arg(t, Arg(f, VcTypeArgs(e.vc, e.ty))))))),
     env4.(count := env4.count - 1))
  }

  function InitListDoc(env: Env, e: Expr): (Doc, Env)
    requires e.InitList?
    decreases e, 0
  {
    var (xs, env1) := ArgDocs(env, e.args);
    match e.filler
    case Some(x) =>
      var (f, env2) := ExprDoc(env1, x);
      (DCtor(true, "Einitlist", Arg0(ListDoc(xs), Arg(SomeDoc(f), TypeArg(e.ty)))), env2)
    case None =>
      (DCtor(true, "Einitlist", Arg0(ListDoc(xs), Arg(NONE_DOC, TypeArg(e.ty)))), env1)
  }

  function CleanupsDoc(env: Env, e: Expr): (Doc, Env)
    requires e.WithCleanups?
    decreases e, 0
  {
    var (s, env1) := ExprDoc(env, e.sub);
    (DCtor(true, "Eandclean", Arg0(s, END)), env1)
  }

  function TemporaryDoc(env: Env, e: Expr): (Doc, Env)
    requires e.MaterializeTemporary?
    decreases e, 0
  {
    var (s, env1) := ExprDoc(env, e.sub);
    (DCtor(true, "Ematerialize_temp", Arg0(s, Arg(VcDoc(e.vc), END))), env1)
  }

  function DefaultArgDoc(env: Env, e: Expr): (Doc, Env)
    requires e.DefaultArg?
    decreases e, 0
  {
    var (s, env1) := ExprDoc(env, e.sub);
    (DCtor(true, "Eimplicit", Arg0(s, END)), env1)
  }

  function OpaqueDoc(env: Env, e: Expr): (Doc, Env)
    requires e.OpaqueValue?
    decreases e, 0
  {
    (DCtor(true, "Eopaque_ref",
      Arg0(DWord(Signed(IndexOf(env.indexes, e.opaque_))), VcTypeArgs(e.vc, e.ty))), env)
  }

  function ArrayLoopDoc(env: Env, e: Expr): (Doc, Env)
    requires e.ArrayInitLoop?
    decreases e, 0
  {
    var (s, env1) := ExprDoc(env.(indexes := env.indexes + [e.opaque_]), e.source);
    var (b, env2) := ExprDoc(env1.(count := env1.count + 1), e.sub);
    (DCtor(true, "Earrayloop_init",
      Arg0(NatDoc(|env.indexes|), Arg(s, Arg0(DWord(Signed(env1.count + 1)),
        Arg(NatDoc(e.size), Arg(b, TypeArg(e.ty))))))),
     env2.(count := env2.count - 1))
  }

  function ArrayIndexDoc(env: Env, e: Expr): (Doc, Env)
    requires e.ArrayInitIndex?
    decreases e, 0
  {
    (DCtor(true, "Earrayloop_index",
      Arg0(DWord(Signed(env.count)), More(Nbsps(2), QualDoc(e.ty), END))), env)
  }

  /** Argument lists, left to right. */
  function ArgDocs(env: Env, es: seq<Expr>): (r: (seq<Doc>, Env))
    ensures |r.0| == |es|
    decreases es, 0
  {
    if es == [] then ([], env)
    else
      var (d, env1) := ExprDoc(env, es[0]);
      var (ds, env2) := ArgDocs(env1, es[1..]);
      ([d] + ds, env2)
  }

  // ---- One node at a time: the document by kind, for proofs that hide the rest ---------------

  lemma IntegerNode(env: Env, e: Expr)
    requires e.IntegerLiteral?
    ensures ExprDoc(env, e) == IntegerDoc(env, e)
  {
  }

  lemma CharacterNode(env: Env, e: Expr)
    requires e.CharacterLiteral?
    ensures ExprDoc(env, e) == CharacterDoc(env, e)
  {
  }

  lemma StringNode(env: Env, e: Expr)
    requires e.StringLiteral?
    ensures ExprDoc(env, e) == StringDoc(env, e)
  {
  }

  lemma DeclRefNode(env: Env, e: Expr)
    requires e.DeclRef?
    ensures ExprDoc(env, e) == DeclRefDoc(env, e)
  {
  }

  lemma UnaryNode(env: Env, e: Expr)
    requires e.Unary?
    ensures ExprDoc(env, e) == UnaryDoc(env, e)
  {
  }

  lemma SequencedNode(env: Env, e: Expr)
    requires e.Binary? && Restarts(e.bop)
    ensures ExprDoc(env, e) == SequencedDoc(env, e)
  {
  }

  lemma BinaryNode(env: Env, e: Expr)
    requires e.Binary? && !Restarts(e.bop)
    ensures ExprDoc(env, e) == BinaryDoc(env, e)
  {
  }

  lemma SubscriptNode(env: Env, e: Expr)
    requires e.Subscript?
    ensures ExprDoc(env, e) == SubscriptDoc(env, e)
  {
  }

  lemma CallNode(env: Env, e: Expr)
    requires e.Call?
    ensures ExprDoc(env, e) == CallDoc(env, e)
  {
  }

  lemma MemberCallNode(env: Env, e: Expr)
    requires e.MemberCall?
    ensures ExprDoc(env, e) == MemberCallDoc(env, e)
  {
  }

  lemma ConstructNode(env: Env, e: Expr)
    requires e.Construct?
    ensures ExprDoc(env, e) == ConstructDoc(env, e)
  {
  }

  lemma CastNode(env: Env, e: Expr)
    requires e.Cast?
    ensures ExprDoc(env, e) == CastDoc(env, e)
  {
  }

  lemma MemberNode(env: Env, e: Expr)
    requires e.Member?
    ensures ExprDoc(env, e) == MemberDoc(env, e)
  {
  }

  lemma ConditionalNode(env: Env, e: Expr)
    requires e.Conditional?
    ensures ExprDoc(env, e) == ConditionalDoc(env, e)
  {
  }

  lemma BinaryConditionalNode(env: Env, e: Expr)
    requires e.BinaryConditional?
    ensures ExprDoc(env, e) == BinaryConditionalDoc(env, e)
  {
  }

  lemma InitListNode(env: Env, e: Expr)
    requires e.InitList?
    ensures ExprDoc(env, e) == InitListDoc(env, e)
  {
  }

  lemma CleanupsNode(env: Env, e: Expr)
    requires e.WithCleanups?
    ensures ExprDoc(env, e) == CleanupsDoc(env, e)
  {
  }

  lemma TemporaryNode(env: Env, e: Expr)
    requires e.MaterializeTemporary?
    ensures ExprDoc(env, e) == TemporaryDoc(env, e)
  {
  }

  lemma DefaultArgNode(env: Env, e: Expr)
    requires e.DefaultArg?
    ensures ExprDoc(env, e) == DefaultArgDoc(env, e)
  {
  }

  lemma OpaqueNode(env: Env, e: Expr)
    requires e.OpaqueValue?
    ensures ExprDoc(env, e) == OpaqueDoc(env, e)
  {
  }

  lemma ArrayLoopNode(env: Env, e: Expr)
    requires e.ArrayInitLoop?
    ensures ExprDoc(env, e) == ArrayLoopDoc(env, e)
  {
  }

  lemma ArrayIndexNode(env: Env, e: Expr)
    requires e.ArrayInitIndex?
    ensures ExprDoc(env, e) == ArrayIndexDoc(env, e)
  {
  }
}

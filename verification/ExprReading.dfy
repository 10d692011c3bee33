/** Expressions read back: which expressions print as documents that Coq's grammar accepts, and
    when their tokens stay apart. */
module ExprReading {
  import opened Text
  import opened Names
  import opened ClangAst
  import opened CoqTypes
  import opened Lexing
  import opened Docs
  import opened DocReading
  import opened ExprDocs
  import opened Binders

  /** Every name in the type can stand in Coq text. */
  predicate TypeOk(t: CoqType) {
    match t
    case Tatom(name) => IsWord(name)
    case Tnamed(name) => IsPlain(name)
    case Tenum(name) => IsPlain(name)
    case Tqualified(_, _, p) => TypeOk(p)
    case Tptr(p) => TypeOk(p)
    case Tref(p) => TypeOk(p)
    case TrvRef(p) => TypeOk(p)
  }

  lemma OneArg(line: bool, head: string, d: Doc)
    requires IsWord(head) && Spelled(d)
    ensures Spelled(DCtor(line, head, More(Tight, d, END)))
    ensures Fusions(DCtor(line, head, More(Tight, d, END))) == Fusions(d)
  {
    assert FusionsArgs(Last(d), END) == 0;
    assert FusionsArgs(Free, More(Tight, d, END)) == Fusions(d);
    assert SpelledArgs(More(Tight, d, END));
  }

  lemma {:induction false} TypeDocWf(t: CoqType)
    requires TypeOk(t)
    ensures Spelled(TypeDoc(t)) && !TypeDoc(t).DJoin? && Fusions(TypeDoc(t)) == 0
  {
    match t
    case Tatom(_) =>
    case Tnamed(name) => OneArg(false, "Tnamed", DQuoted(name));
    case Tenum(name) => OneArg(false, "Tenum", DQuoted(name));
    case Tqualified(c, v, p) => TypeDocWf(p); OneArg(false, QualifierHead(c, v), TypeDoc(p));
    case Tptr(p) => TypeDocWf(p); OneArg(false, "Tptr", TypeDoc(p));
    case Tref(p) => TypeDocWf(p); OneArg(false, "Tref", TypeDoc(p));
    case TrvRef(p) => TypeDocWf(p); OneArg(false, "Trv_ref", TypeDoc(p));
  }

  /** Names in types can stand in Coq text. */
  predicate QualOk(qt: QualType) {
    TyOk(qt.ty)
  }

  predicate TyOk(ty: Type) {
    match ty
    case Builtin(name) => IsWord(name)
    case PointerTo(p) => QualOk(p)
    case LvalueRef(p) => QualOk(p)
    case RvalueRef(p) => QualOk(p)
    case RecordTy(name) => IsPlain(name)
    case EnumTy(name) => IsPlain(name)
    case TypedefTy(u) => QualOk(u)
    case ParenTy(i) => QualOk(i)
    case ElaboratedTy(n) => QualOk(n)
  }

  lemma {:induction false} PrintedOk(ty: Type)
    requires TyOk(ty)
    ensures TypeOk(PrintedType(ty))
    ensures forall qt: QualType :: qt.ty == ty ==> TypeOk(Printed(qt))
  {
    match ty
    case PointerTo(p) => PrintedOk(p.ty);
    case LvalueRef(p) => PrintedOk(p.ty);
    case RvalueRef(p) => PrintedOk(p.ty);
    case TypedefTy(u) => PrintedOk(u.ty);
    case ParenTy(i) => PrintedOk(i.ty);
    case ElaboratedTy(n) => PrintedOk(n.ty);
    case _ =>
  }

  /** Expressions that print as a bare word. */
  predicate Bare(e: Expr) {
    e.NullPtr? || (e.Transparent? && Bare(e.sub))
  }

  /** The source of an array loop is followed at once by the level of the loop, so it must not
      be a bare word. */
  predicate Apart(e: Expr) {
    match e
    case Unary(_, sub, _) => Apart(sub)
    case Binary(_, l, r, _) => Apart(l) && Apart(r)
    case Subscript(l, r, _) => Apart(l) && Apart(r)
    case Call(f, xs, _) => Apart(f) && AllApart(xs)
    case MemberCall(_, _, _, o, xs, _) => Apart(o) && AllApart(xs)
    case Construct(_, xs, _) => AllApart(xs)
    case Cast(_, sub, _, _) => Apart(sub)
    case Member(sub, _, _, _, _) => Apart(sub)
    case Conditional(c, t, f, _, _) => Apart(c) && Apart(t) && Apart(f)
    case BinaryConditional(_, m, c, t, f, _, _) => Apart(m) && Apart(c) && Apart(t) && Apart(f)
    case Transparent(sub) => Apart(sub)
    case InitList(xs, filler, _) => AllApart(xs) && (filler.Some? ==> Apart(filler.value))
    case WithCleanups(sub) => Apart(sub)
    case MaterializeTemporary(sub, _) => Apart(sub)
    case DefaultArg(sub) => Apart(sub)
    case ArrayInitLoop(_, src, _, sub, _) => !Bare(src) && Apart(src) && Apart(sub)
    case _ => true
  }

  predicate AllApart(es: seq<Expr>) {
    es == [] || (Apart(es[0]) && AllApart(es[1..]))
  }

  /** Opaque values are used inside the node that binds them, array indices inside a loop, and
      names can stand in Coq text. Operands of sequenced operators start afresh. */
  predicate ExprOk(bound: set<nat>, level: int, e: Expr)
    decreases e
  {
    match e
    case NullPtr => true
    case BoolLiteral(_) => true
    case IntegerLiteral(_, ty) => QualOk(ty)
    case CharacterLiteral(_, ty) => QualOk(ty)
    case StringLiteral(_, elem) => TyOk(elem)
    case This(ty) => QualOk(ty)
    case DeclRef(decl, ty) => IsPlain(decl.name) && QualOk(ty)
    case Unary(_, sub, ty) => ExprOk(bound, level, sub) && QualOk(ty)
    case Binary(op, l, r, ty) =>
      if Restarts(op) then ExprOk({}, -1, l) && ExprOk({}, -1, r)
      else ExprOk(bound, level, l) && ExprOk(bound, level, r) && QualOk(ty)
    case Subscript(l, r, ty) => ExprOk(bound, level, l) && ExprOk(bound, level, r) && QualOk(ty)
    case Call(f, xs, ty) => ExprOk(bound, level, f) && ExprsOk(bound, level, xs) && QualOk(ty)
    case MemberCall(name, _, mty, o, xs, ty) =>
      IsPlain(name) && QualOk(mty) && ExprOk(bound, level, o) && ExprsOk(bound, level, xs) && QualOk(ty)
    case Construct(name, xs, ty) => IsPlain(name) && ExprsOk(bound, level, xs) && QualOk(ty)
    case Cast(kind, sub, _, ty) => IsWord(kind) && ExprOk(bound, level, sub) && QualOk(ty)
    case Member(sub, record, field, _, ty) =>
      ExprOk(bound, level, sub) && IsPlain(record) && IsPlain(field) && QualOk(ty)
    case Conditional(c, t, f, _, ty) =>
      ExprOk(bound, level, c) && ExprOk(bound, level, t) && ExprOk(bound, level, f) && QualOk(ty)
    case BinaryConditional(o, m, c, t, f, _, ty) =>
      && ExprOk(bound, level, m)
      && ExprOk(bound + {o}, level + 1, c)
      && ExprOk(bound + {o}, level + 1, t)
      && ExprOk(bound + {o}, level + 1, f)
      && QualOk(ty)
    case Transparent(sub) => ExprOk(bound, level, sub)
    case InitList(xs, filler, ty) =>
      && ExprsOk(bound, level, xs)
      && (filler.Some? ==> ExprOk(bound, level, filler.value))
      && QualOk(ty)
    case WithCleanups(sub) => ExprOk(bound, level, sub)
    case MaterializeTemporary(sub, _) => ExprOk(bound, level, sub)
    case DefaultArg(sub) => ExprOk(bound, level, sub)
    case OpaqueValue(o, _, ty) => o in bound && QualOk(ty)
    case ArrayInitLoop(o, src, _, sub, ty) =>
      ExprOk(bound, level, src) && ExprOk(bound + {o}, level + 1, sub) && QualOk(ty)
    case ArrayInitIndex(ty) => level >= 0 && QualOk(ty)
  }

  predicate ExprsOk(bound: set<nat>, level: int, es: seq<Expr>)
    decreases es
  {
    es == [] || (ExprOk(bound, level, es[0]) && ExprsOk(bound, level, es[1..]))
  }

  // ---- Shapes ------------------------------------------------------------------------------

  /** A well-formed argument that prints as a bare word iff `bare`, and whose tokens stay apart
      iff `apart`. */
  predicate Shaped(d: Doc, bare: bool, apart: bool) {
    && Spelled(d) && !d.DJoin?
    && First(d) != Quote && Last(d) != Quote
    && (bare <==> First(d) == Solid && Last(d) == Solid)
    && (!bare ==> First(d) == Free && Last(d) == Free)
    && (apart <==> Fusions(d) == 0)
  }

  /** A well-formed argument with no fusions of its own. */
  predicate Atomic(d: Doc) {
    Spelled(d) && !d.DJoin? && Fusions(d) == 0
  }

  /** Arguments that neither fuse among themselves nor with what precedes them. */
  predicate Quiet(args: Args) {
    SpelledArgs(args) && forall p: Edge :: FusionsArgs(p, args) == 0
  }

  lemma QuietArg(d: Doc, rest: Args)
    requires Atomic(d) && Quiet(rest)
    ensures Quiet(Arg(d, rest))
  {
    forall p: Edge
      ensures FusionsArgs(p, Arg(d, rest)) == 0
    {
      assert FusionsArgs(Last(d), rest) == 0;
    }
  }

  lemma QuietEnd()
    ensures Quiet(END)
  {
  }

  lemma QualAtomic(ty: QualType)
    requires QualOk(ty)
    ensures Atomic(QualDoc(ty))
    ensures Quiet(TypeArg(ty))
  {
    PrintedOk(ty.ty);
    TypeDocWf(Printed(ty));
    QuietEnd();
    QuietArg(QualDoc(ty), END);
  }

  lemma VcQuiet(vc: ValCat, ty: QualType)
    requires QualOk(ty)
    ensures Quiet(VcTypeArgs(vc, ty))
  {
    QualAtomic(ty);
    QuietArg(VcDoc(vc), TypeArg(ty));
  }

  /** The fusions of a constructor are those of its spaced arguments. */
  lemma Args1(line: bool, head: string, a: Doc, rest: Args)
    requires IsWord(head) && Spelled(a) && SpelledArgs(rest)
    ensures var d := DCtor(line, head, Arg0(a, rest));
            && Spelled(d) && First(d) == Free && Last(d) == Free
            && Fusions(d) == Fusions(a) + FusionsArgs(Last(a), rest)
  {
    assert SpelledArgs(Arg0(a, rest));
    assert FusionsArgs(Free, Arg0(a, rest)) == Fusions(a) + FusionsArgs(Last(a), rest);
  }

  lemma ArgsMore(p: Edge, a: Doc, rest: Args)
    requires Spelled(a) && SpelledArgs(rest)
    ensures SpelledArgs(Arg(a, rest))
    ensures FusionsArgs(p, Arg(a, rest)) == Fusions(a) + FusionsArgs(Last(a), rest)
  {
  }

  lemma Shape1(line: bool, head: string, a: Doc, rest: Args, p: bool)
    requires IsWord(head) && Spelled(a) && Quiet(rest) && (p <==> Fusions(a) == 0)
    ensures Shaped(DCtor(line, head, Arg0(a, rest)), false, p)
  {
    Args1(line, head, a, rest);
  }

  lemma Shape2(line: bool, head: string, a: Doc, b: Doc, rest: Args, p: bool, q: bool)
    requires IsWord(head) && Spelled(a) && Spelled(b) && Quiet(rest)
    requires (p <==> Fusions(a) == 0) && (q <==> Fusions(b) == 0)
    ensures Shaped(DCtor(line, head, Arg0(a, Arg(b, rest))), false, p && q)
  {
    ArgsMore(Last(a), b, rest);
    Args1(line, head, a, Arg(b, rest));
  }

  lemma Shape3(line: bool, head: string, a: Doc, b: Doc, c: Doc, rest: Args, p: bool, q: bool, r: bool)
    requires IsWord(head) && Spelled(a) && Spelled(b) && Spelled(c) && Quiet(rest)
    requires (p <==> Fusions(a) == 0) && (q <==> Fusions(b) == 0) && (r <==> Fusions(c) == 0)
    ensures Shaped(DCtor(line, head, Arg0(a, Arg(b, Arg(c, rest)))), false, p && q && r)
  {
    ArgsMore(Last(b), c, rest);
    ArgsMore(Last(a), b, Arg(c, rest));
    Args1(line, head, a, Arg(b, Arg(c, rest)));
  }

  /** Numerals and operator names are words. */
  lemma DecimalWord(n: nat)
    ensures IsWord(Decimal(n))
    ensures Signed(n) == Decimal(n)
  {
    forall i | 0 <= i < |Decimal(n)|
      ensures IsWordChar(Decimal(n)[i])
    {
      assert IsDigit(Decimal(n)[i]);
    }
  }

  predicate InScope(env: Env, bound: set<nat>) {
    env.count >= -1 && forall x :: x in bound ==> x in env.indexes
  }

  lemma StepInto(env: Env, e: Expr, bound: set<nat>)
    requires InScope(env, bound)
    ensures InScope(ExprDoc(env, e).1, bound) && ExprDoc(env, e).1.count == env.count
  {
    EnvRestored(env, e);
  }

  /** The document of a list of arguments. */
  lemma ListShaped(docs: seq<Doc>, p: bool)
    requires forall i :: 0 <= i < |docs| ==> Spelled(docs[i])
    requires p <==> FusionsItems(docs) == 0
    ensures Spelled(ListDoc(docs)) && !ListDoc(docs).DJoin?
    ensures p <==> Fusions(ListDoc(docs)) == 0
  {
  }

  lemma LeafShape(env: Env, bound: set<nat>, e: Expr)
    requires e.IntegerLiteral? || e.CharacterLiteral? || e.This?
    requires ExprOk(bound, env.count, e)
    ensures Shaped(ExprDoc(env, e).0, Bare(e), Apart(e))
  {
    QualAtomic(e.ty);
    match e
    case IntegerLiteral(n, ty) =>
      DecimalWord(n);
      Shape1(false, "Eint", DScoped(Decimal(n), "Z"), TypeArg(ty), true);
    case CharacterLiteral(n, ty) =>
      DecimalWord(n);
      Shape1(false, "Echar", DScoped(Decimal(n), "N"), TypeArg(ty), true);
    case This(ty) =>
      assert FusionsArgs(Free, TypeArg(ty)) == 0;
  }

  lemma {:induction false} UnitsShape(units: seq<nat>)
    ensures Spelled(DList(UnitDocs(units))) && FusionsItems(UnitDocs(units)) == 0
    decreases |units|
  {
    var docs := UnitDocs(units);
    forall i | 0 <= i < |docs|
      ensures Spelled(docs[i])
    {
      DecimalWord(units[i]);
    }
    if units == [] {
    } else {
      assert docs[1..] == UnitDocs(units[1..]);
      UnitsShape(units[1..]);
    }
  }

  lemma StringShape(env: Env, bound: set<nat>, e: Expr)
    requires e.StringLiteral? && ExprOk(bound, env.count, e)
    ensures Shaped(ExprDoc(env, e).0, Bare(e), Apart(e))
  {
    var units := Units(e.str.bytes, e.str.width);
    UnitsShape(units);
    PrintedOk(e.elem);
    TypeDocWf(PrintedType(e.elem));
    QuietEnd();
    Shape2(false, "Estring", DList(UnitDocs(units)), TypeDoc(PrintedType(e.elem)), END, true, true);
  }

  lemma DeclRefShape(env: Env, bound: set<nat>, e: Expr)
    requires e.DeclRef? && ExprOk(bound, env.count, e)
    ensures Shaped(ExprDoc(env, e).0, Bare(e), Apart(e))
  {
    QualAtomic(e.ty);
    QuietEnd();
    var t := IndexOf(env.anonymous, e.decl.id);
    var r := RefDoc(env, e.decl);
    if t != -1 {
      Shape1(false, "Lname", DAnon(t), END, true);
    } else {
      Shape1(false, if e.decl.local then "Lname" else "Gname", DQuoted(e.decl.name), END, true);
    }
    var v := DCtor(false, "Evar", Arg0(r, TypeArg(e.ty)));
    Shape1(false, "Evar", r, TypeArg(e.ty), true);
    Shape1(true, "Eread_ref", v, END, true);
  }

  lemma Use(d: Doc, bare: bool, apart: bool)
    requires Shaped(d, bare, apart)
    ensures Spelled(d) && !d.DJoin? && (apart <==> Fusions(d) == 0)
    ensures Last(d) == if bare then Solid else Free
  {
  }

  lemma ArithWord(op: ArithOp)
    ensures Atomic(DWord(ArithName(op)))
  {
  }

  lemma {:induction false} UnaryShape(env: Env, bound: set<nat>, e: Expr)
    requires e.Unary?
    requires InScope(env, bound) && ExprOk(bound, env.count, e)
    ensures Shaped(ExprDoc(env, e).0, Bare(e), Apart(e))
    decreases e, 1
  {
    hide Shaped, Quiet, ExprDoc;
    UnaryNode(env, e);
    QuietEnd();
    QualAtomic(e.ty);
    ExprShape(env, bound, e.sub);
    var s := ExprDoc(env, e.sub).0;
    Use(s, Bare(e.sub), Apart(e.sub));
    if e.uop.AddrOf? {
      Shape1(true, "Eaddrof", s, END, Apart(e.sub));
    } else if IsUnop(e.uop) {
      Shape2(true, "Eunop", DWord(UnopName(e.uop)), s, TypeArg(e.ty), true, Apart(e.sub));
    } else {
      Shape1(true, UnaryHead(e.uop), s, TypeArg(e.ty), Apart(e.sub));
    }
  }

  lemma {:induction false} SequencedShape(env: Env, bound: set<nat>, e: Expr)
    requires e.Binary? && Restarts(e.bop)
    requires InScope(env, bound) && ExprOk(bound, env.count, e)
    ensures Shaped(ExprDoc(env, e).0, Bare(e), Apart(e))
    decreases e, 1
  {
    hide Shaped, Quiet, ExprDoc;
    SequencedNode(env, e);
    QuietEnd();
    ExprShape(NO_NAMES, {}, e.lhs);
    ExprShape(NO_NAMES, {}, e.rhs);
    var l, r := ExprDoc(NO_NAMES, e.lhs).0, ExprDoc(NO_NAMES, e.rhs).0;
    Use(l, Bare(e.lhs), Apart(e.lhs));
    Use(r, Bare(e.rhs), Apart(e.rhs));
    Shape2(true, LogicHead(e.bop), l, r, END, Apart(e.lhs), Apart(e.rhs));
  }

  lemma {:induction false} BinaryShape(env: Env, bound: set<nat>, e: Expr)
    requires e.Binary? && !Restarts(e.bop)
    requires InScope(env, bound) && ExprOk(bound, env.count, e)
    ensures Shaped(ExprDoc(env, e).0, Bare(e), Apart(e))
    decreases e, 1
  {
    hide Shaped, Quiet, ExprDoc;
    BinaryNode(env, e);
    QualAtomic(e.ty);
    StepInto(env, e.lhs, bound);
    var (l, env1) := ExprDoc(env, e.lhs);
    ExprShape(env, bound, e.lhs);
    ExprShape(env1, bound, e.rhs);
    var r := ExprDoc(env1, e.rhs).0;
    Use(l, Bare(e.lhs), Apart(e.lhs));
    Use(r, Bare(e.rhs), Apart(e.rhs));
    var p, q := Apart(e.lhs), Apart(e.rhs);
    match e.bop
    case Assign => Shape2(true, "Eassign", l, r, TypeArg(e.ty), p, q);
    case CompoundAssign(op) =>
      ArithWord(op);
      Shape3(true, "Eassign_op", DWord(ArithName(op)), l, r, TypeArg(e.ty), true, p, q);
    case Arith(op) =>
      ArithWord(op);
      Shape3(true, "Ebinop", DWord(ArithName(op)), l, r, TypeArg(e.ty), true, p, q);
  }

  lemma {:induction false} SubscriptShape(env: Env, bound: set<nat>, e: Expr)
    requires e.Subscript?
    requires InScope(env, bound) && ExprOk(bound, env.count, e)
    ensures Shaped(ExprDoc(env, e).0, Bare(e), Apart(e))
    decreases e, 1
  {
    hide Shaped, Quiet, ExprDoc;
    SubscriptNode(env, e);
    QualAtomic(e.ty);
    StepInto(env, e.lhs, bound);
    var (l, env1) := ExprDoc(env, e.lhs);
    ExprShape(env, bound, e.lhs);
    ExprShape(env1, bound, e.rhs);
    var r := ExprDoc(env1, e.rhs).0;
    Use(l, Bare(e.lhs), Apart(e.lhs));
    Use(r, Bare(e.rhs), Apart(e.rhs));
    Shape2(true, "Esubscript", l, r, TypeArg(e.ty), Apart(e.lhs), Apart(e.rhs));
  }

  lemma BrokenShape(head: string, a: Doc, b: Doc, rest: Args, p: bool, q: bool)
    requires IsWord(head) && Spelled(a) && Spelled(b) && Quiet(rest)
    requires (p <==> Fusions(a) == 0) && (q <==> Fusions(b) == 0)
    ensures Shaped(DCtor(true, head, Arg0(a, More(Broken, b, rest))), false, p && q)
  {
    var more := More(Broken, b, rest);
    assert SpelledArgs(more);
    assert FusionsArgs(Last(a), more) == Fusions(b) + FusionsArgs(Last(b), rest);
    Args1(true, head, a, more);
  }

  lemma {:induction false} CallShape(env: Env, bound: set<nat>, e: Expr)
    requires e.Call?
    requires InScope(env, bound) && ExprOk(bound, env.count, e)
    ensures Shaped(ExprDoc(env, e).0, Bare(e), Apart(e))
    decreases e, 1
  {
    hide Shaped, Quiet, ExprDoc;
    CallNode(env, e);
    QualAtomic(e.ty);
    StepInto(env, e.callee, bound);
    var (f, env1) := ExprDoc(env, e.callee);
    ExprShape(env, bound, e.callee);
    ExprsShape(env1, bound, e.args);
    var xs := ListDoc(ArgDocs(env1, e.args).0);
    Use(f, Bare(e.callee), Apart(e.callee));
    BrokenShape("Ecall", f, xs, TypeArg(e.ty), Apart(e.callee), AllApart(e.args));
  }

  lemma CalleeShape(name: string, virtually: bool, ty: QualType)
    requires IsPlain(name) && QualOk(ty)
    ensures Atomic(CalleeDoc(name, virtually, ty))
  {
    QualAtomic(ty);
    QuietEnd();
    var how := DWord(if virtually then "Virtual" else "Direct");
    var more := [how, QualDoc(ty)];
    var t := DTuple(DQuoted(name), more);
    assert more[1..] == [QualDoc(ty)] && more[1..][1..] == [];
    assert FusionsItems(more[1..]) == Fusions(QualDoc(ty)) + FusionsItems([]);
    assert FusionsItems(more) == Fusions(how) + FusionsItems(more[1..]);
    assert Spelled(how);
    assert Spelled(t);
    Shape1(true, "inl", t, END, true);
  }

  lemma {:induction false} MemberCallShape(env: Env, bound: set<nat>, e: Expr)
    requires e.MemberCall?
    requires InScope(env, bound) && ExprOk(bound, env.count, e)
    ensures Shaped(ExprDoc(env, e).0, Bare(e), Apart(e))
    decreases e, 1
  {
    hide Shaped, Quiet, ExprDoc;
    MemberCallNode(env, e);
    QualAtomic(e.ty);
    StepInto(env, e.receiver, bound);
    var (r, env1) := ExprDoc(env, e.receiver);
    ExprShape(env, bound, e.receiver);
    ExprsShape(env1, bound, e.args);
    var xs := ListDoc(ArgDocs(env1, e.args).0);
    var m := CalleeDoc(e.name, e.virtually, e.methodTy);
    CalleeShape(e.name, e.virtually, e.methodTy);
    Use(r, Bare(e.receiver), Apart(e.receiver));
    Shape3(true, "Emember_call", m, r, xs, TypeArg(e.ty), true, Apart(e.receiver), AllApart(e.args));
  }

  lemma {:induction false} ConstructShape(env: Env, bound: set<nat>, e: Expr)
    requires e.Construct?
    requires InScope(env, bound) && ExprOk(bound, env.count, e)
    ensures Shaped(ExprDoc(env, e).0, Bare(e), Apart(e))
    decreases e, 1
  {
    hide Shaped, Quiet, ExprDoc;
    ConstructNode(env, e);
    QualAtomic(e.ty);
    ExprsShape(env, bound, e.args);
    Shape2(true, "Econstructor", DQuoted(e.name), ListDoc(ArgDocs(env, e.args).0), TypeArg(e.ty),
           true, AllApart(e.args));
  }

  lemma {:induction false} CastShape(env: Env, bound: set<nat>, e: Expr)
    requires e.Cast?
    requires InScope(env, bound) && ExprOk(bound, env.count, e)
    ensures Shaped(ExprDoc(env, e).0, Bare(e), Apart(e))
    decreases e, 1
  {
    hide Shaped, Quiet, ExprDoc;
    CastNode(env, e);
    VcQuiet(e.vc, e.ty);
    ExprShape(env, bound, e.sub);
    Use(ExprDoc(env, e.sub).0, Bare(e.sub), Apart(e.sub));
    Shape2(true, "Ecast", DWord(e.kind), ExprDoc(env, e.sub).0, VcTypeArgs(e.vc, e.ty), true, Apart(e.sub));
  }

  lemma {:induction false} MemberShape(env: Env, bound: set<nat>, e: Expr)
    requires e.Member?
    requires InScope(env, bound) && ExprOk(bound, env.count, e)
    ensures Shaped(ExprDoc(env, e).0, Bare(e), Apart(e))
    decreases e, 1
  {
    hide Shaped, Quiet, ExprDoc;
    MemberNode(env, e);
    QuietEnd();
    QualAtomic(e.ty);
    ExprShape(env, bound, e.sub);
    var s := ExprDoc(env, e.sub).0;
    Use(s, Bare(e.sub), Apart(e.sub));
    var f := FieldDoc(e.record, e.field);
    Shape2(false, "Build_field", DQuoted(e.record), DQuoted(e.field), END, true, true);
    Use(f, false, true);
    Shape2(true, "Emember", s, f, TypeArg(e.ty), Apart(e.sub), true);
    var m := DCtor(true, "Emember", Arg0(s, Arg(f, TypeArg(e.ty))));
    Use(m, false, Apart(e.sub));
    Shape1(true, "Eread_ref", m, END, Apart(e.sub));
  }

  lemma {:induction false} ConditionalShape(env: Env, bound: set<nat>, e: Expr)
    requires e.Conditional?
    requires InScope(env, bound) && ExprOk(bound, env.count, e)
    ensures Shaped(ExprDoc(env, e).0, Bare(e), Apart(e))
    decreases e, 1
  {
    hide Shaped, Quiet, ExprDoc;
    ConditionalNode(env, e);
    VcQuiet(e.vc, e.ty);
    StepInto(env, e.cond, bound);
    var (c, env1) := ExprDoc(env, e.cond);
    StepInto(env1, e.thn, bound);
    var (t, env2) := ExprDoc(env1, e.thn);
    var f := ExprDoc(env2, e.els).0;
    ExprShape(env, bound, e.cond);
    ExprShape(env1, bound, e.thn);
    ExprShape(env2, bound, e.els);
    Use(c, Bare(e.cond), Apart(e.cond));
    Use(t, Bare(e.thn), Apart(e.thn));
    Use(f, Bare(e.els), Apart(e.els));
    Shape3(true, "Eif", c, t, f, VcTypeArgs(e.vc, e.ty), Apart(e.cond), Apart(e.thn), Apart(e.els));
  }

  lemma Eif2Args(n: nat, m: Doc, c: Doc, t: Doc, f: Doc, rest: Args, e: Expr)
    requires e.BinaryConditional? && Quiet(rest)
    requires Shaped(m, Bare(e.common), Apart(e.common)) && Shaped(c, Bare(e.cond), Apart(e.cond))
    requires Shaped(t, Bare(e.thn), Apart(e.thn)) && Shaped(f, Bare(e.els), Apart(e.els))
    ensures Shaped(DCtor(true, "Eif2", Arg0(NatDoc(n), Arg(m, Arg(c, Arg(t, Arg(f, rest)))))),
                   false, Apart(e))
  {
    DecimalWord(n);
    ArgsMore(Last(t), f, rest);
    ArgsMore(Last(c), t, Arg(f, rest));
    ArgsMore(Last(m), c, Arg(t, Arg(f, rest)));
    ArgsMore(Solid, m, Arg(c, Arg(t, Arg(f, rest))));
    Args1(true, "Eif2", NatDoc(n), Arg(m, Arg(c, Arg(t, Arg(f, rest)))));
  }

  lemma {:induction false} Eif2Shape(env: Env, bound: set<nat>, e: Expr)
    requires e.BinaryConditional?
    requires InScope(env, bound) && ExprOk(bound, env.count, e)
    ensures Shaped(ExprDoc(env, e).0, Bare(e), Apart(e))
    decreases e, 1
  {
    hide Shaped, Quiet, ExprDoc;
    BinaryConditionalNode(env, e);
    VcQuiet(e.vc, e.ty);
    var inner := bound + {e.opaque_};
    var env0 := env.(indexes := env.indexes + [e.opaque_]);
    StepInto(env0, e.common, inner);
    var (m, env1) := ExprDoc(env0, e.common);
    ExprShape(env0, bound, e.common);
    var env1' := env1.(count := env1.count + 1);
    StepInto(env1', e.cond, inner);
    var (c, env2) := ExprDoc(env1', e.cond);
    ExprShape(env1', inner, e.cond);
    StepInto(env2, e.thn, inner);
    var (t, env3) := ExprDoc(env2, e.thn);
    ExprShape(env2, inner, e.thn);
    ExprShape(env3, inner, e.els);
    Eif2Args(|env.indexes|, m, c, t, ExprDoc(env3, e.els).0, VcTypeArgs(e.vc, e.ty), e);
  }

  lemma {:induction false} InitListShape(env: Env, bound: set<nat>, e: Expr)
    requires e.InitList?
    requires InScope(env, bound) && ExprOk(bound, env.count, e)
    ensures Shaped(ExprDoc(env, e).0, Bare(e), Apart(e))
    decreases e, 1
  {
    hide Shaped, Quiet, ExprDoc;
    InitListNode(env, e);
    QuietEnd();
    QualAtomic(e.ty);
    ExprsShape(env, bound, e.args);
    var (docs, env1) := ArgDocs(env, e.args);
    EnvsRestored(env, e.args);
    match e.filler
    case Some(x) =>
      ExprShape(env1, bound, x);
      var f := ExprDoc(env1, x).0;
      Use(f, Bare(x), Apart(x));
      Shape1(true, "Some", f, END, Apart(x));
      Use(SomeDoc(f), false, Apart(x));
      Shape2(true, "Einitlist", ListDoc(docs), SomeDoc(f), TypeArg(e.ty), AllApart(e.args), Apart(x));
    case None =>
      Shape2(true, "Einitlist", ListDoc(docs), NONE_DOC, TypeArg(e.ty), AllApart(e.args), true);
  }

  lemma {:induction false} CleanupsShape(env: Env, bound: set<nat>, e: Expr)
    requires e.WithCleanups?
    requires InScope(env, bound) && ExprOk(bound, env.count, e)
    ensures Shaped(ExprDoc(env, e).0, Bare(e), Apart(e))
    decreases e, 1
  {
    hide Shaped, Quiet, ExprDoc;
    CleanupsNode(env, e);
    QuietEnd();
    ExprShape(env, bound, e.sub);
    Use(ExprDoc(env, e.sub).0, Bare(e.sub), Apart(e.sub));
    Shape1(true, "Eandclean", ExprDoc(env, e.sub).0, END, Apart(e.sub));
  }

  lemma {:induction false} DefaultArgShape(env: Env, bound: set<nat>, e: Expr)
    requires e.DefaultArg?
    requires InScope(env, bound) && ExprOk(bound, env.count, e)
    ensures Shaped(ExprDoc(env, e).0, Bare(e), Apart(e))
    decreases e, 1
  {
    hide Shaped, Quiet, ExprDoc;
    DefaultArgNode(env, e);
    QuietEnd();
    ExprShape(env, bound, e.sub);
    Use(ExprDoc(env, e.sub).0, Bare(e.sub), Apart(e.sub));
    Shape1(true, "Eimplicit", ExprDoc(env, e.sub).0, END, Apart(e.sub));
  }

  lemma {:induction false} TemporaryShape(env: Env, bound: set<nat>, e: Expr)
    requires e.MaterializeTemporary?
    requires InScope(env, bound) && ExprOk(bound, env.count, e)
    ensures Shaped(ExprDoc(env, e).0, Bare(e), Apart(e))
    decreases e, 1
  {
    hide Shaped, Quiet, ExprDoc;
    TemporaryNode(env, e);
    QuietEnd();
    QuietArg(VcDoc(e.vc), END);
    ExprShape(env, bound, e.sub);
    Use(ExprDoc(env, e.sub).0, Bare(e.sub), Apart(e.sub));
    Shape1(true, "Ematerialize_temp", ExprDoc(env, e.sub).0, Arg(VcDoc(e.vc), END), Apart(e.sub));
  }

  lemma {:induction false} OpaqueShape(env: Env, bound: set<nat>, e: Expr)
    requires e.OpaqueValue?
    requires InScope(env, bound) && ExprOk(bound, env.count, e)
    ensures Shaped(ExprDoc(env, e).0, Bare(e), Apart(e))
    decreases e, 1
  {
    hide Shaped, Quiet, ExprDoc;
    OpaqueNode(env, e);
    VcQuiet(e.vc, e.ty);
    var n := IndexOf(env.indexes, e.opaque_);
    DecimalWord(n);
    Shape1(true, "Eopaque_ref", DWord(Signed(n)), VcTypeArgs(e.vc, e.ty), true);
  }

  lemma TightArg(p: Edge, a: Doc, rest: Args)
    requires Spelled(a) && SpelledArgs(rest)
    ensures SpelledArgs(Arg0(a, rest))
    ensures FusionsArgs(p, Arg0(a, rest)) == Fuse(p, First(a)) + Fusions(a) + FusionsArgs(Last(a), rest)
  {
  }

  /** The level follows the source without a gap. */
  lemma LoopArgs(n: nat, s: Doc, level: nat, b: Doc, rest: Args, e: Expr)
    requires e.ArrayInitLoop? && Quiet(rest)
    requires Shaped(s, Bare(e.source), Apart(e.source)) && Shaped(b, Bare(e.sub), Apart(e.sub))
    ensures Shaped(DCtor(true, "Earrayloop_init",
                     Arg0(NatDoc(n), Arg(s, Arg0(DWord(Signed(level)), Arg(NatDoc(e.size), Arg(b, rest)))))),
                   false, Apart(e))
  {
    DecimalWord(n);
    DecimalWord(level);
    DecimalWord(e.size);
    var l := DWord(Signed(level));
    var tail := Arg(NatDoc(e.size), Arg(b, rest));
    ArgsMore(Solid, b, rest);
    ArgsMore(Solid, NatDoc(e.size), Arg(b, rest));
    TightArg(Last(s), l, tail);
    ArgsMore(Solid, s, Arg0(l, tail));
    Args1(true, "Earrayloop_init", NatDoc(n), Arg(s, Arg0(l, tail)));
  }

  lemma {:induction false} LoopShape(env: Env, bound: set<nat>, e: Expr)
    requires e.ArrayInitLoop?
    requires InScope(env, bound) && ExprOk(bound, env.count, e)
    ensures Shaped(ExprDoc(env, e).0, Bare(e), Apart(e))
    decreases e, 1
  {
    hide Shaped, Quiet, ExprDoc;
    ArrayLoopNode(env, e);
    QualAtomic(e.ty);
    var inner := bound + {e.opaque_};
    var env0 := env.(indexes := env.indexes + [e.opaque_]);
    StepInto(env0, e.source, inner);
    var (s, env1) := ExprDoc(env0, e.source);
    ExprShape(env0, bound, e.source);
    var env1' := env1.(count := env1.count + 1);
    ExprShape(env1', inner, e.sub);
    LoopArgs(|env.indexes|, s, env1.count + 1, ExprDoc(env1', e.sub).0, TypeArg(e.ty), e);
  }

  lemma IndexShape(env: Env, bound: set<nat>, e: Expr)
    requires e.ArrayInitIndex? && ExprOk(bound, env.count, e)
    ensures Shaped(ExprDoc(env, e).0, Bare(e), Apart(e))
  {
    QualAtomic(e.ty);
    DecimalWord(env.count);
    var rest := More(Nbsps(2), QualDoc(e.ty), END);
    assert SpelledArgs(rest);
    assert forall p: Edge :: FusionsArgs(p, rest) == 0;
    Shape1(true, "Earrayloop_index", DWord(Signed(env.count)), rest, true);
  }

  /** Expressions in scope print as well-formed documents, whose tokens stay apart exactly when
      no array loop has a bare source. */
  lemma {:induction false} ExprShape(env: Env, bound: set<nat>, e: Expr)
    requires InScope(env, bound) && ExprOk(bound, env.count, e)
    ensures Shaped(ExprDoc(env, e).0, Bare(e), Apart(e))
    decreases e, 2
  {
    hide Shaped, ExprDoc, ExprOk, Apart, Bare;
    match e
    case NullPtr => WordShape(env, e);
    case BoolLiteral(_) => WordShape(env, e);
    case IntegerLiteral(_, _) => LeafShape(env, bound, e);
    case CharacterLiteral(_, _) => LeafShape(env, bound, e);
    case StringLiteral(_, _) => StringShape(env, bound, e);
    case This(_) => LeafShape(env, bound, e);
    case DeclRef(_, _) => DeclRefShape(env, bound, e);
    case Unary(_, _, _) => UnaryShape(env, bound, e);
    case Binary(op, _, _, _) =>
      if Restarts(op) {
        SequencedShape(env, bound, e);
      } else {
        BinaryShape(env, bound, e);
      }
    case Subscript(_, _, _) => SubscriptShape(env, bound, e);
    case Call(_, _, _) => CallShape(env, bound, e);
    case MemberCall(_, _, _, _, _, _) => MemberCallShape(env, bound, e);
    case Construct(_, _, _) => ConstructShape(env, bound, e);
    case Cast(_, _, _, _) => CastShape(env, bound, e);
    case Member(_, _, _, _, _) => MemberShape(env, bound, e);
    case Conditional(_, _, _, _, _) => ConditionalShape(env, bound, e);
    case BinaryConditional(_, _, _, _, _, _, _) => Eif2Shape(env, bound, e);
    case Transparent(_) => TransparentShape(env, bound, e);
    case InitList(_, _, _) => InitListShape(env, bound, e);
    case WithCleanups(_) => CleanupsShape(env, bound, e);
    case MaterializeTemporary(_, _) => TemporaryShape(env, bound, e);
    case DefaultArg(_) => DefaultArgShape(env, bound, e);
    case OpaqueValue(_, _, _) => OpaqueShape(env, bound, e);
    case ArrayInitLoop(_, _, _, _, _) => LoopShape(env, bound, e);
    case ArrayInitIndex(_) => IndexShape(env, bound, e);
  }

  lemma WordShape(env: Env, e: Expr)
    requires e.NullPtr? || e.BoolLiteral?
    ensures Shaped(ExprDoc(env, e).0, Bare(e), Apart(e))
  {
  }

  lemma {:induction false} TransparentShape(env: Env, bound: set<nat>, e: Expr)
    requires e.Transparent? && InScope(env, bound) && ExprOk(bound, env.count, e)
    ensures Shaped(ExprDoc(env, e).0, Bare(e), Apart(e))
    decreases e, 1
  {
    hide Shaped;
    ExprShape(env, bound, e.sub);
  }

  lemma {:induction false} ExprsShape(env: Env, bound: set<nat>, es: seq<Expr>)
    requires InScope(env, bound) && ExprsOk(bound, env.count, es)
    ensures var docs := ArgDocs(env, es).0;
            && (forall i :: 0 <= i < |docs| ==> Spelled(docs[i]))
            && (AllApart(es) <==> FusionsItems(docs) == 0)
            && Spelled(ListDoc(docs)) && !ListDoc(docs).DJoin?
            && (AllApart(es) <==> Fusions(ListDoc(docs)) == 0)
    decreases es, 0
  {
    hide ExprDoc, Shaped;
    if es == [] {
    } else {
      StepInto(env, es[0], bound);
      var (d, env1) := ExprDoc(env, es[0]);
      ExprShape(env, bound, es[0]);
      Use(d, Bare(es[0]), Apart(es[0]));
      ExprsShape(env1, bound, es[1..]);
      var ds := ArgDocs(env1, es[1..]).0;
      assert ([d] + ds)[1..] == ds;
    }
    ListShaped(ArgDocs(env, es).0, AllApart(es));
  }
}

/** Expressions read back: the term of a printed expression spells the Coq expression for which
    the expression stands, with its operators, operands, names, numbers and types in place. */
module ExprTerms {
  import opened Text
  import opened Names
  import opened ClangAst
  import opened CoqTerms
  import opened CoqTypes
  import opened Docs
  import opened DocTerms
  import opened CoqTypeReading
  import opened ExprDocs
  import opened Binders
  import opened ExprReading
  import opened CoqExprs
  import opened Translation

  // ---- Words, numbers and names --------------------------------------------------------------

  lemma ArithRead(op: ArithOp)
    ensures ReadBinOp(Ident(ArithName(op))) == Some(BinOpOf(op))
  {
  }

  lemma VcRead(vc: ValCat)
    ensures ReadVc(TermOf(VcDoc(vc))) == Some(vc)
  {
    WordTerm(ValCatName(vc));
  }

  lemma NatRead(n: nat)
    ensures ReadNat(Ident(Decimal(n))) == Some(n)
    ensures TermOf(NatDoc(n)) == Ident(Decimal(n))
  {
    DecimalRoundTrip(n);
    WordTerm(Decimal(n));
  }

  lemma ScopedRead(n: nat, scope: string)
    ensures ReadScoped(TermOf(DScoped(Decimal(n), scope)), scope) == Some(n)
  {
    NatRead(n);
  }

  lemma {:induction false} UnitsRead(units: seq<nat>)
    ensures ReadUnits(TermOf(DList(UnitDocs(units)))) == Some(units)
    decreases |units|
  {
    hide ReadScoped;
    var docs := UnitDocs(units);
    ListTerm(docs);
    if units == [] {
      assert docs == [];
    } else {
      UnitsRead(units[1..]);
      assert docs[1..] == UnitDocs(units[1..]);
      ListTerm(docs[1..]);
      assert docs[0] == DScoped(Decimal(units[0]), "N");
      ScopedRead(units[0], "N");
      FirstItem(docs);
      assert [units[0]] + units[1..] == units;
    }
  }

  /** A list is its first element in front of the rest. */
  lemma FirstItem(docs: seq<Doc>)
    requires docs != [] && !docs[0].DJoin?
    ensures TermOf(DList(docs)) == Infix("::", TermOf(docs[0]), TermOf(DList(docs[1..])))
  {
    hide TermOf;
    ListTerm(docs);
    ListTerm(docs[1..]);
    OneElement(docs);
    assert ItemTerms(docs)[0] == TermOf(docs[0]) && ItemTerms(docs)[1..] == ItemTerms(docs[1..]);
  }

  lemma OneElement(docs: seq<Doc>)
    requires docs != [] && !docs[0].DJoin?
    ensures ItemTerms(docs) == [TermOf(docs[0])] + ItemTerms(docs[1..])
  {
  }

  lemma RefRead(env: Env, decl: ValueDecl)
    ensures ReadName(TermOf(RefDoc(env, decl))) == Some(NameOf(env, decl)) && !RefDoc(env, decl).DJoin?
  {
    hide TermOf;
    var t := IndexOf(env.anonymous, decl.id);
    if t != -1 {
      Terms1(false, "Lname", Tight, DAnon(t), Tight);
      AnonTerm(t);
    } else {
      Terms1(false, if decl.local then "Lname" else "Gname", Tight, DQuoted(decl.name), Tight);
      QuotedTerm(decl.name);
    }
  }

  lemma AnonTerm(n: nat)
    ensures TermOf(DAnon(n)) == Lit("$" + Decimal(n))
  {
  }

  lemma CalleeRead(name: string, virtually: bool, ty: QualType)
    ensures ReadCallee(TermOf(CalleeDoc(name, virtually, ty)))
         == Some((name, if virtually then Virtual else CallKind.Direct, Printed(ty)))
    ensures !CalleeDoc(name, virtually, ty).DJoin?
  {
    hide TermOf;
    var how := if virtually then "Virtual" else "Direct";
    var d := DTuple(DQuoted(name), [DWord(how), QualDoc(ty)]);
    Terms1(true, "inl", Tight, d, Tight);
    QualTermRead(ty);
    QuotedTerm(name);
    WordTerm(how);
    TupleTerm(DQuoted(name), DWord(how), QualDoc(ty));
  }

  lemma TupleTerm(a: Doc, b: Doc, c: Doc)
    ensures TermOf(DTuple(a, [b, c])) == Tuple([TermOf(a), TermOf(b), TermOf(c)])
  {
    assert [b, c][1..] == [c];
    assert [c][1..] == [];
    assert PartTerms([c]) == [TermOf(c)];
    assert PartTerms([b, c]) == [TermOf(b)] + PartTerms([c]);
    assert [TermOf(a)] + ([TermOf(b)] + [TermOf(c)]) == [TermOf(a), TermOf(b), TermOf(c)];
  }

  lemma FieldRead(record: string, field: string)
    ensures ReadField(TermOf(FieldDoc(record, field))) == Some((record, field)) && !FieldDoc(record, field).DJoin?
  {
    hide TermOf;
    Terms2(false, "Build_field", Tight, DQuoted(record), SP, DQuoted(field));
    QuotedTerm(record);
    QuotedTerm(field);
  }

  // ---- Expressions ---------------------------------------------------------------------------

  /** The document reads as the expression. */
  predicate Reads(d: Doc, c: CExpr) {
    !d.DJoin? && ReadExpr(TermOf(d)) == Some(c)
  }

  /** An expression by its head and arguments. */
  lemma HeadRead(head: string, args: seq<Term>)
    ensures var t := Apply(Ident(head), args);
            && (|args| == 1 ==> ReadExpr(t) == ReadExpr1(head, t))
            && (|args| == 2 ==> ReadExpr(t) == ReadExpr2(head, t))
            && (|args| == 3 ==> ReadExpr(t) == ReadExpr3(head, t))
            && (|args| == 4 ==> ReadExpr(t) == ReadExpr4(head, t))
            && (|args| > 4 ==> ReadExpr(t) == ReadLong(head, t))
  {
    hide ReadExpr1, ReadExpr2, ReadExpr3, ReadExpr4, ReadLong;
  }

  lemma LeafRead(env: Env, e: Expr)
    requires e.NullPtr? || e.BoolLiteral? || e.This?
    ensures Reads(ExprDoc(env, e).0, ToCoq(env, e))
  {
    match e
    case NullPtr => WordTerm("Enull");
    case BoolLiteral(_) =>
    case This(ty) =>
      QualTermRead(ty);
      Terms1(false, "Ethis", SP, QualDoc(ty), Tight);
      assert ExprDoc(env, e).0 == DCtor(false, "Ethis", More(SP, QualDoc(ty), Done(Tight)));
  }

  lemma NumberRead(env: Env, e: Expr)
    requires e.IntegerLiteral? || e.CharacterLiteral?
    ensures Reads(ExprDoc(env, e).0, ToCoq(env, e))
  {
    hide ExprDoc, TermOf, ReadExpr, ReadScoped, ReadType;
    QualTermRead(e.ty);
    var head, scope := if e.IntegerLiteral? then "Eint" else "Echar", if e.IntegerLiteral? then "Z" else "N";
    if e.IntegerLiteral? {
      IntegerNode(env, e);
    } else {
      CharacterNode(env, e);
    }
    ScopedRead(e.num, scope);
    Terms2(false, head, Tight, DScoped(Decimal(e.num), scope), SP, QualDoc(e.ty));
    HeadRead(head, [TermOf(DScoped(Decimal(e.num), scope)), TermOf(QualDoc(e.ty))]);
  }

  lemma StringRead(env: Env, e: Expr)
    requires e.StringLiteral?
    ensures Reads(ExprDoc(env, e).0, ToCoq(env, e))
  {
    hide ExprDoc, TermOf, ReadExpr, ReadUnits, ReadType, Units, UnitDocs;
    StringNode(env, e);
    var units := Units(e.str.bytes, e.str.width);
    var (a, b) := (DList(UnitDocs(units)), TypeDoc(PrintedType(e.elem)));
    UnitsRead(units);
    TypeTermRead(e.elem);
    Terms2(false, "Estring", Tight, a, SP, b);
    HeadRead("Estring", [TermOf(a), TermOf(b)]);
  }

  /** A node that is read through when it is a reference. */
  lemma ThroughRead(d: Doc, c: CExpr, reference: bool)
    requires Reads(d, c)
    ensures Reads(if reference then DCtor(true, "Eread_ref", Arg0(d, END)) else d, ReadThrough(reference, c))
  {
    hide TermOf, ReadExpr;
    Terms1(true, "Eread_ref", Tight, d, Tight);
    HeadRead("Eread_ref", [TermOf(d)]);
  }

  lemma DeclRefRead(env: Env, e: Expr)
    requires e.DeclRef?
    ensures Reads(ExprDoc(env, e).0, ToCoq(env, e))
  {
    hide ExprDoc, TermOf, ReadExpr, ReadName, ReadType, NameOf;
    DeclRefNode(env, e);
    var (a, b) := (RefDoc(env, e.decl), QualDoc(e.ty));
    RefRead(env, e.decl);
    QualTermRead(e.ty);
    Terms2(false, "Evar", Tight, a, SP, b);
    HeadRead("Evar", [TermOf(a), TermOf(b)]);
    ThroughRead(DCtor(false, "Evar", Arg0(a, TypeArg(e.ty))), Evar(NameOf(env, e.decl), Printed(e.ty)),
                e.decl.reference);
  }

  /** One operand and the type. */
  lemma TypedHead(a: Term, b: Term, x: CExpr, ty: CoqType)
    requires ReadExpr(a) == Some(x) && ReadType(b) == Some(ty)
    ensures ReadExpr(Apply(Ident("Ederef"), [a, b])) == Some(Ederef(x, ty))
    ensures ReadExpr(Apply(Ident("Epostinc"), [a, b])) == Some(Epostinc(x, ty))
    ensures ReadExpr(Apply(Ident("Epostdec"), [a, b])) == Some(Epostdec(x, ty))
    ensures ReadExpr(Apply(Ident("Epreinc"), [a, b])) == Some(Epreinc(x, ty))
    ensures ReadExpr(Apply(Ident("Epredec"), [a, b])) == Some(Epredec(x, ty))
  {
    hide ReadExpr, ReadType;
    HeadRead("Ederef", [a, b]);
    HeadRead("Epostinc", [a, b]);
    HeadRead("Epostdec", [a, b]);
    HeadRead("Epreinc", [a, b]);
    HeadRead("Epredec", [a, b]);
  }

  lemma UnopHead(w: Term, op: CUnOp, a: Term, b: Term, x: CExpr, ty: CoqType)
    requires ReadUnOp(w) == Some(op) && ReadExpr(a) == Some(x) && ReadType(b) == Some(ty)
    ensures ReadExpr(Apply(Ident("Eunop"), [w, a, b])) == Some(Eunop(op, x, ty))
  {
    hide ReadUnOp, ReadExpr, ReadType;
    HeadRead("Eunop", [w, a, b]);
  }

  function UnOpOf(op: UnaryOp): CUnOp
    requires IsUnop(op)
  {
    match op
    case Plus => Uplus
    case Minus => Uminus
    case Not => Ubnot
    case LNot => Unot
  }

  lemma UnopRead(op: UnaryOp)
    requires IsUnop(op)
    ensures ReadUnOp(Ident(UnopName(op))) == Some(UnOpOf(op))
    ensures TermOf(DWord(UnopName(op))) == Ident(UnopName(op))
  {
    WordTerm(UnopName(op));
  }

  lemma VcPlain(vc: ValCat)
    ensures !VcDoc(vc).DJoin?
  {
  }

  lemma SomeRead(d: Doc, c: CExpr)
    requires Reads(d, c)
    ensures ReadOptExpr(TermOf(SomeDoc(d))) == Some(Some(c)) && !SomeDoc(d).DJoin?
  {
    hide TermOf, ReadExpr;
    Terms1(true, "Some", Tight, d, Tight);
  }

  lemma NoneRead()
    ensures ReadOptExpr(TermOf(NONE_DOC)) == Some(None) && !NONE_DOC.DJoin?
  {
    hide ReadExpr;
    WordTerm("None");
  }

  lemma Eif2Head(n: nat, m: Doc, c: Doc, t: Doc, f: Doc, vc: ValCat, ty: QualType,
                 xm: CExpr, xc: CExpr, xt: CExpr, xf: CExpr)
    requires Reads(m, xm) && Reads(c, xc) && Reads(t, xt) && Reads(f, xf)
    ensures Reads(DCtor(true, "Eif2", Arg0(NatDoc(n), Arg(m, Arg(c, Arg(t, Arg(f, VcTypeArgs(vc, ty))))))),
                  Eif2(n, xm, xc, xt, xf, vc, Printed(ty)))
  {
    hide TermOf, ReadExpr, ReadType, ReadVc, ReadNat, VcDoc, Decimal;
    NatRead(n);
    VcRead(vc);
    VcPlain(vc);
    QualTermRead(ty);
    Terms7("Eif2", NatDoc(n), m, c, t, f, VcDoc(vc), QualDoc(ty));
    HeadRead("Eif2", [TermOf(NatDoc(n)), TermOf(m), TermOf(c), TermOf(t), TermOf(f), TermOf(VcDoc(vc)),
                      TermOf(QualDoc(ty))]);
  }

  lemma LoopHead(n: nat, s: Doc, level: nat, size: nat, b: Doc, ty: QualType, xs: CExpr, xb: CExpr)
    requires Reads(s, xs) && Reads(b, xb)
    ensures Reads(DCtor(true, "Earrayloop_init",
                    Arg0(NatDoc(n), Arg(s, Arg0(DWord(Signed(level)), Arg(NatDoc(size), Arg(b, TypeArg(ty))))))),
                  EarrayloopInit(n, xs, level, size, xb, Printed(ty)))
  {
    hide TermOf, ReadExpr, ReadType, ReadNat, Decimal;
    NatRead(n);
    NatRead(level);
    NatRead(size);
    QualTermRead(ty);
    Terms6("Earrayloop_init", NatDoc(n), s, DWord(Signed(level)), NatDoc(size), b, QualDoc(ty));
    HeadRead("Earrayloop_init", [TermOf(NatDoc(n)), TermOf(s), TermOf(NatDoc(level)), TermOf(NatDoc(size)), TermOf(b),
                                 TermOf(QualDoc(ty))]);
  }

  lemma {:induction false} UnaryRead(env: Env, bound: set<nat>, e: Expr)
    requires e.Unary? && InScope(env, bound) && ExprOk(bound, env.count, e)
    ensures Reads(ExprDoc(env, e).0, ToCoq(env, e))
    decreases e, 1
  {
    hide ExprDoc, TermOf, ReadExpr, ReadType;
    UnaryNode(env, e);
    ExprRead(env, bound, e.sub);
    QualTermRead(e.ty);
    var (a, ty, x) := (ExprDoc(env, e.sub).0, QualDoc(e.ty), ToCoq(env, e.sub));
    if e.uop.AddrOf? {
      Terms1(true, "Eaddrof", Tight, a, Tight);
      HeadRead("Eaddrof", [TermOf(a)]);
    } else if IsUnop(e.uop) {
      UnopRead(e.uop);
      Terms3(true, "Eunop", Tight, DWord(UnopName(e.uop)), SP, a, SP, ty);
      UnopHead(Ident(UnopName(e.uop)), UnOpOf(e.uop), TermOf(a), TermOf(ty), x, Printed(e.ty));
    } else {
      Terms2(true, UnaryHead(e.uop), Tight, a, SP, ty);
      TypedHead(TermOf(a), TermOf(ty), x, Printed(e.ty));
    }
  }

  lemma {:induction false} SequencedRead(env: Env, bound: set<nat>, e: Expr)
    requires e.Binary? && Restarts(e.bop) && InScope(env, bound) && ExprOk(bound, env.count, e)
    ensures Reads(ExprDoc(env, e).0, ToCoq(env, e))
    decreases e, 1
  {
    hide ExprDoc, TermOf, ReadExpr, ReadType;
    SequencedNode(env, e);
    ExprRead(NO_NAMES, {}, e.lhs);
    ExprRead(NO_NAMES, {}, e.rhs);
    var (a, b) := (ExprDoc(NO_NAMES, e.lhs).0, ExprDoc(NO_NAMES, e.rhs).0);
    Terms2(true, LogicHead(e.bop), Tight, a, SP, b);
    HeadRead(LogicHead(e.bop), [TermOf(a), TermOf(b)]);
  }

  lemma {:induction false} BinaryRead(env: Env, bound: set<nat>, e: Expr)
    requires e.Binary? && !Restarts(e.bop) && InScope(env, bound) && ExprOk(bound, env.count, e)
    ensures Reads(ExprDoc(env, e).0, ToCoq(env, e))
    decreases e, 1
  {
    hide ExprDoc, TermOf, ReadExpr, ReadType, ReadBinOp, ArithName;
    BinaryNode(env, e);
    ExprRead(env, bound, e.lhs);
    StepInto(env, e.lhs, bound);
    Appends(env, e.lhs);
    var env1 := Past(env, e.lhs);
    ExprRead(env1, bound, e.rhs);
    QualTermRead(e.ty);
    var (a, b, ty) := (ExprDoc(env, e.lhs).0, ExprDoc(env1, e.rhs).0, QualDoc(e.ty));
    if e.bop.Assign? {
      Terms3(true, "Eassign", Tight, a, SP, b, SP, ty);
      HeadRead("Eassign", [TermOf(a), TermOf(b), TermOf(ty)]);
    } else {
      var op := ArithName(e.bop.op);
      var head := if e.bop.Arith? then "Ebinop" else "Eassign_op";
      ArithRead(e.bop.op);
      WordTerm(op);
      Terms4(head, DWord(op), a, b, ty);
      HeadRead(head, [Ident(op), TermOf(a), TermOf(b), TermOf(ty)]);
    }
  }

  lemma {:induction false} SubscriptRead(env: Env, bound: set<nat>, e: Expr)
    requires e.Subscript? && InScope(env, bound) && ExprOk(bound, env.count, e)
    ensures Reads(ExprDoc(env, e).0, ToCoq(env, e))
    decreases e, 1
  {
    hide ExprDoc, TermOf, ReadExpr, ReadType;
    SubscriptNode(env, e);
    ExprRead(env, bound, e.lhs);
    StepInto(env, e.lhs, bound);
    Appends(env, e.lhs);
    var env1 := Past(env, e.lhs);
    ExprRead(env1, bound, e.rhs);
    QualTermRead(e.ty);
    var (a, b, ty) := (ExprDoc(env, e.lhs).0, ExprDoc(env1, e.rhs).0, QualDoc(e.ty));
    Terms3(true, "Esubscript", Tight, a, SP, b, SP, ty);
    HeadRead("Esubscript", [TermOf(a), TermOf(b), TermOf(ty)]);
  }

  lemma {:induction false} CallRead(env: Env, bound: set<nat>, e: Expr)
    requires e.Call? && InScope(env, bound) && ExprOk(bound, env.count, e)
    ensures Reads(ExprDoc(env, e).0, ToCoq(env, e))
    decreases e, 1
  {
    hide ExprDoc, TermOf, ReadExpr, ReadExprs, ReadType, ListDoc;
    CallNode(env, e);
    ExprRead(env, bound, e.callee);
    StepInto(env, e.callee, bound);
    Appends(env, e.callee);
    var env1 := Past(env, e.callee);
    ExprsRead(env1, bound, e.args);
    QualTermRead(e.ty);
    var (a, b, ty) := (ExprDoc(env, e.callee).0, ListDoc(ArgDocs(env1, e.args).0), QualDoc(e.ty));
    Terms3(true, "Ecall", Tight, a, Broken, b, SP, ty);
    HeadRead("Ecall", [TermOf(a), TermOf(b), TermOf(ty)]);
  }

  lemma {:induction false} MemberCallRead(env: Env, bound: set<nat>, e: Expr)
    requires e.MemberCall? && InScope(env, bound) && ExprOk(bound, env.count, e)
    ensures Reads(ExprDoc(env, e).0, ToCoq(env, e))
    decreases e, 1
  {
    hide ExprDoc, TermOf, ReadExpr, ReadExprs, ReadType, ReadCallee, CalleeDoc, ListDoc;
    MemberCallNode(env, e);
    ExprRead(env, bound, e.receiver);
    StepInto(env, e.receiver, bound);
    Appends(env, e.receiver);
    var env1 := Past(env, e.receiver);
    ExprsRead(env1, bound, e.args);
    CalleeRead(e.name, e.virtually, e.methodTy);
    QualTermRead(e.ty);
    var (m, a) := (CalleeDoc(e.name, e.virtually, e.methodTy), ExprDoc(env, e.receiver).0);
    var (b, ty) := (ListDoc(ArgDocs(env1, e.args).0), QualDoc(e.ty));
    Terms4("Emember_call", m, a, b, ty);
    HeadRead("Emember_call", [TermOf(m), TermOf(a), TermOf(b), TermOf(ty)]);
  }

  lemma {:induction false} ConstructRead(env: Env, bound: set<nat>, e: Expr)
    requires e.Construct? && InScope(env, bound) && ExprOk(bound, env.count, e)
    ensures Reads(ExprDoc(env, e).0, ToCoq(env, e))
    decreases e, 1
  {
    hide ExprDoc, TermOf, ReadExpr, ReadExprs, ReadType, ListDoc;
    ConstructNode(env, e);
    ExprsRead(env, bound, e.args);
    QualTermRead(e.ty);
    QuotedTerm(e.name);
    var (b, ty) := (ListDoc(ArgDocs(env, e.args).0), QualDoc(e.ty));
    Terms3(true, "Econstructor", Tight, DQuoted(e.name), SP, b, SP, ty);
    HeadRead("Econstructor", [Lit(e.name), TermOf(b), TermOf(ty)]);
  }

  lemma {:induction false} CastRead(env: Env, bound: set<nat>, e: Expr)
    requires e.Cast? && InScope(env, bound) && ExprOk(bound, env.count, e)
    ensures Reads(ExprDoc(env, e).0, ToCoq(env, e))
    decreases e, 1
  {
    hide ExprDoc, TermOf, ReadExpr, ReadType, ReadVc, VcDoc;
    CastNode(env, e);
    ExprRead(env, bound, e.sub);
    VcRead(e.vc);
    VcPlain(e.vc);
    QualTermRead(e.ty);
    WordTerm(e.kind);
    var (a, vc, ty) := (ExprDoc(env, e.sub).0, VcDoc(e.vc), QualDoc(e.ty));
    Terms4("Ecast", DWord(e.kind), a, vc, ty);
    HeadRead("Ecast", [Ident(e.kind), TermOf(a), TermOf(vc), TermOf(ty)]);
  }

  lemma {:induction false} MemberRead(env: Env, bound: set<nat>, e: Expr)
    requires e.Member? && InScope(env, bound) && ExprOk(bound, env.count, e)
    ensures Reads(ExprDoc(env, e).0, ToCoq(env, e))
    decreases e, 1
  {
    hide ExprDoc, TermOf, ReadExpr, ReadType, ReadField, FieldDoc;
    MemberNode(env, e);
    ExprRead(env, bound, e.sub);
    FieldRead(e.record, e.field);
    QualTermRead(e.ty);
    var (a, f, ty) := (ExprDoc(env, e.sub).0, FieldDoc(e.record, e.field), QualDoc(e.ty));
    Terms3(true, "Emember", Tight, a, SP, f, SP, ty);
    HeadRead("Emember", [TermOf(a), TermOf(f), TermOf(ty)]);
    ThroughRead(DCtor(true, "Emember", Arg0(a, Arg(f, TypeArg(e.ty)))),
                Emember(ToCoq(env, e.sub), e.record, e.field, Printed(e.ty)), e.reference);
  }

  lemma {:induction false} ConditionalRead(env: Env, bound: set<nat>, e: Expr)
    requires e.Conditional? && InScope(env, bound) && ExprOk(bound, env.count, e)
    ensures Reads(ExprDoc(env, e).0, ToCoq(env, e))
    decreases e, 1
  {
    hide ExprDoc, TermOf, ReadExpr, ReadType, ReadVc, VcDoc;
    ConditionalNode(env, e);
    ExprRead(env, bound, e.cond);
    StepInto(env, e.cond, bound);
    Appends(env, e.cond);
    var env1 := Past(env, e.cond);
    ExprRead(env1, bound, e.thn);
    StepInto(env1, e.thn, bound);
    Appends(env1, e.thn);
    var env2 := Past(env1, e.thn);
    ExprRead(env2, bound, e.els);
    VcRead(e.vc);
    VcPlain(e.vc);
    QualTermRead(e.ty);
    var (c, t, f) := (ExprDoc(env, e.cond).0, ExprDoc(env1, e.thn).0, ExprDoc(env2, e.els).0);
    var (vc, ty) := (VcDoc(e.vc), QualDoc(e.ty));
    Terms5("Eif", c, t, f, vc, ty);
    HeadRead("Eif", [TermOf(c), TermOf(t), TermOf(f), TermOf(vc), TermOf(ty)]);
  }

  lemma {:induction false} BinaryConditionalRead(env: Env, bound: set<nat>, e: Expr)
    requires e.BinaryConditional? && InScope(env, bound) && ExprOk(bound, env.count, e)
    ensures Reads(ExprDoc(env, e).0, ToCoq(env, e))
    decreases e, 1
  {
    hide ExprDoc, TermOf, ReadExpr, ReadType, ReadVc, ReadNat, VcDoc, NatDoc;
    BinaryConditionalNode(env, e);
    var inner := bound + {e.opaque_};
    var env0 := WithNumbers(env, [e.opaque_]);
    ExprRead(env0, bound, e.common);
    StepInto(env0, e.common, inner);
    Appends(env0, e.common);
    var env1 := Inside(Past(env0, e.common));
    ExprRead(env1, inner, e.cond);
    StepInto(env1, e.cond, inner);
    Appends(env1, e.cond);
    var env2 := Past(env1, e.cond);
    ExprRead(env2, inner, e.thn);
    StepInto(env2, e.thn, inner);
    Appends(env2, e.thn);
    var env3 := Past(env2, e.thn);
    ExprRead(env3, inner, e.els);
    Eif2Head(|env.indexes|, ExprDoc(env0, e.common).0, ExprDoc(env1, e.cond).0, ExprDoc(env2, e.thn).0,
             ExprDoc(env3, e.els).0, e.vc, e.ty, ToCoq(env0, e.common), ToCoq(env1, e.cond),
             ToCoq(env2, e.thn), ToCoq(env3, e.els));
  }

  lemma {:induction false} InitListRead(env: Env, bound: set<nat>, e: Expr)
    requires e.InitList? && InScope(env, bound) && ExprOk(bound, env.count, e)
    ensures Reads(ExprDoc(env, e).0, ToCoq(env, e))
    decreases e, 1
  {
    hide ExprDoc, TermOf, ReadExpr, ReadExprs, ReadOptExpr, ReadType, ListDoc;
    InitListNode(env, e);
    ExprsRead(env, bound, e.args);
    AppendsAll(env, e.args);
    EnvsRestored(env, e.args);
    QualTermRead(e.ty);
    var env1 := WithNumbers(env, BoundAll(e.args));
    if e.filler.Some? {
      ExprRead(env1, bound, e.filler.value);
      SomeRead(ExprDoc(env1, e.filler.value).0, ToCoq(env1, e.filler.value));
    }
    NoneRead();
    var f := if e.filler.Some? then SomeDoc(ExprDoc(env1, e.filler.value).0) else NONE_DOC;
    var (b, ty) := (ListDoc(ArgDocs(env, e.args).0), QualDoc(e.ty));
    Terms3(true, "Einitlist", Tight, b, SP, f, SP, ty);
    HeadRead("Einitlist", [TermOf(b), TermOf(f), TermOf(ty)]);
  }

  lemma {:induction false} WrapperRead(env: Env, bound: set<nat>, e: Expr)
    requires (e.WithCleanups? || e.DefaultArg?) && InScope(env, bound) && ExprOk(bound, env.count, e)
    ensures Reads(ExprDoc(env, e).0, ToCoq(env, e))
    decreases e, 1
  {
    hide ExprDoc, TermOf, ReadExpr, ReadType;
    if e.WithCleanups? {
      CleanupsNode(env, e);
    } else {
      DefaultArgNode(env, e);
    }
    ExprRead(env, bound, e.sub);
    var (head, a) := (if e.WithCleanups? then "Eandclean" else "Eimplicit", ExprDoc(env, e.sub).0);
    Terms1(true, head, Tight, a, Tight);
    HeadRead(head, [TermOf(a)]);
  }

  lemma {:induction false} TemporaryRead(env: Env, bound: set<nat>, e: Expr)
    requires e.MaterializeTemporary? && InScope(env, bound) && ExprOk(bound, env.count, e)
    ensures Reads(ExprDoc(env, e).0, ToCoq(env, e))
    decreases e, 1
  {
    hide ExprDoc, TermOf, ReadExpr, ReadType, ReadVc, VcDoc;
    TemporaryNode(env, e);
    ExprRead(env, bound, e.sub);
    VcRead(e.vc);
    VcPlain(e.vc);
    var (a, vc) := (ExprDoc(env, e.sub).0, VcDoc(e.vc));
    Terms2(true, "Ematerialize_temp", Tight, a, SP, vc);
    HeadRead("Ematerialize_temp", [TermOf(a), TermOf(vc)]);
  }

  lemma {:induction false} OpaqueRead(env: Env, bound: set<nat>, e: Expr)
    requires e.OpaqueValue? && InScope(env, bound) && ExprOk(bound, env.count, e)
    ensures Reads(ExprDoc(env, e).0, ToCoq(env, e))
    decreases e, 1
  {
    hide ExprDoc, TermOf, ReadExpr, ReadType, ReadVc, ReadNat, VcDoc, IndexOf;
    OpaqueNode(env, e);
    var n := IndexOf(env.indexes, e.opaque_);
    NatRead(n);
    DecimalWord(n);
    WordTerm(Decimal(n));
    VcRead(e.vc);
    VcPlain(e.vc);
    QualTermRead(e.ty);
    var (vc, ty) := (VcDoc(e.vc), QualDoc(e.ty));
    Terms3(true, "Eopaque_ref", Tight, DWord(Decimal(n)), SP, vc, SP, ty);
    HeadRead("Eopaque_ref", [Ident(Decimal(n)), TermOf(vc), TermOf(ty)]);
  }

  lemma {:induction false} LoopRead(env: Env, bound: set<nat>, e: Expr)
    requires e.ArrayInitLoop? && InScope(env, bound) && ExprOk(bound, env.count, e)
    ensures Reads(ExprDoc(env, e).0, ToCoq(env, e))
    decreases e, 1
  {
    hide ExprDoc, TermOf, ReadExpr, ReadType, ReadNat, NatDoc, Decimal;
    ArrayLoopNode(env, e);
    var inner := bound + {e.opaque_};
    var env0 := WithNumbers(env, [e.opaque_]);
    ExprRead(env0, bound, e.source);
    StepInto(env0, e.source, inner);
    Appends(env0, e.source);
    var env1 := Inside(Past(env0, e.source));
    ExprRead(env1, inner, e.sub);
    LoopHead(|env.indexes|, ExprDoc(env0, e.source).0, env1.count, e.size, ExprDoc(env1, e.sub).0, e.ty,
             ToCoq(env0, e.source), ToCoq(env1, e.sub));
  }

  lemma {:induction false} IndexRead(env: Env, bound: set<nat>, e: Expr)
    requires e.ArrayInitIndex? && InScope(env, bound) && ExprOk(bound, env.count, e)
    ensures Reads(ExprDoc(env, e).0, ToCoq(env, e))
    decreases e, 1
  {
    hide ExprDoc, TermOf, ReadExpr, ReadType, ReadNat;
    ArrayIndexNode(env, e);
    NatRead(env.count);
    DecimalWord(env.count);
    WordTerm(Decimal(env.count));
    QualTermRead(e.ty);
    Terms2(true, "Earrayloop_index", Tight, DWord(Decimal(env.count)), Nbsps(2), QualDoc(e.ty));
    HeadRead("Earrayloop_index", [Ident(Decimal(env.count)), TermOf(QualDoc(e.ty))]);
  }

  /** The term of an expression in scope spells the Coq expression for which it stands. */
  lemma {:induction false} ExprRead(env: Env, bound: set<nat>, e: Expr)
    requires InScope(env, bound) && ExprOk(bound, env.count, e)
    ensures Reads(ExprDoc(env, e).0, ToCoq(env, e))
    decreases e, 2
  {
    hide Reads, ExprDoc, ExprOk, ToCoq;
    match e
    case NullPtr => LeafRead(env, e);
    case BoolLiteral(_) => LeafRead(env, e);
    case This(_) => LeafRead(env, e);
    case IntegerLiteral(_, _) => NumberRead(env, e);
    case CharacterLiteral(_, _) => NumberRead(env, e);
    case StringLiteral(_, _) => StringRead(env, e);
    case DeclRef(_, _) => DeclRefRead(env, e);
    case Unary(_, _, _) => UnaryRead(env, bound, e);
    case Binary(op, _, _, _) =>
      if Restarts(op) {
        SequencedRead(env, bound, e);
      } else {
        BinaryRead(env, bound, e);
      }
    case Subscript(_, _, _) => SubscriptRead(env, bound, e);
    case Call(_, _, _) => CallRead(env, bound, e);
    case MemberCall(_, _, _, _, _, _) => MemberCallRead(env, bound, e);
    case Construct(_, _, _) => ConstructRead(env, bound, e);
    case Cast(_, _, _, _) => CastRead(env, bound, e);
    case Member(_, _, _, _, _) => MemberRead(env, bound, e);
    case Conditional(_, _, _, _, _) => ConditionalRead(env, bound, e);
    case BinaryConditional(_, _, _, _, _, _, _) => BinaryConditionalRead(env, bound, e);
    case Transparent(_) => TransparentRead(env, bound, e);
    case InitList(_, _, _) => InitListRead(env, bound, e);
    case WithCleanups(_) => WrapperRead(env, bound, e);
    case MaterializeTemporary(_, _) => TemporaryRead(env, bound, e);
    case DefaultArg(_) => WrapperRead(env, bound, e);
    case OpaqueValue(_, _, _) => OpaqueRead(env, bound, e);
    case ArrayInitLoop(_, _, _, _, _) => LoopRead(env, bound, e);
    case ArrayInitIndex(_) => IndexRead(env, bound, e);
  }

  lemma {:induction false} TransparentRead(env: Env, bound: set<nat>, e: Expr)
    requires e.Transparent? && InScope(env, bound) && ExprOk(bound, env.count, e)
    ensures Reads(ExprDoc(env, e).0, ToCoq(env, e))
    decreases e, 1
  {
    hide Reads;
    ExprRead(env, bound, e.sub);
  }

  /** Argument lists. */
  lemma {:induction false} ExprsRead(env: Env, bound: set<nat>, es: seq<Expr>)
    requires InScope(env, bound) && ExprsOk(bound, env.count, es)
    ensures var d := ListDoc(ArgDocs(env, es).0);
            !d.DJoin? && ReadExprs(TermOf(d)) == Some(AllToCoq(env, es))
    decreases es, 0
  {
    hide ExprDoc, ToCoq, TermOf, ReadExpr, Bound;
    WordTerm("nil");
    if es == [] {
    } else {
      ExprRead(env, bound, es[0]);
      StepInto(env, es[0], bound);
      Appends(env, es[0]);
      var env1 := Past(env, es[0]);
      ExprsRead(env1, bound, es[1..]);
      var (docs, rest) := (ArgDocs(env, es).0, ArgDocs(env1, es[1..]).0);
      assert docs == [ExprDoc(env, es[0]).0] + rest;
      assert docs[1..] == rest;
      FirstItem(docs);
      EmptyList();
    }
  }

  lemma EmptyList()
    ensures TermOf(DList([])) == TermOf(DWord("nil"))
  {
    WordTerm("nil");
  }
}

/** The expression visitors of src/PrintExpr.cpp. */
module PrintExprs {
  import opened Text
  import opened Formatters
  import opened Names
  import opened ClangAst
  import opened CoqTypes
  import opened Docs
  import opened ExprDocs
  import opened CodeUnits
  import opened CoqPrinters
  import opened PrintTypes

  /** Closes a constructor after the type of the expression. */
  method DoneT(ty: QualType, coq: CoqPrinter)
    requires coq.output.depth >= 2
    modifies coq.output
    ensures coq.output.St() == Rparen(PutArgs(old(coq.output.St()), TypeArg(ty)))
    ensures coq.output.depth == old(coq.output.depth) - 2
  {
    ghost var st := coq.output.St();
    coq.output.AddNbsp();
    PrintQualType(ty, coq);
    PutEnd(coq.output.St());
    coq.EndCtor();
    PutArg(st, QualDoc(ty), END);
  }

  method PrintValCat(vc: ValCat, coq: CoqPrinter)
    modifies coq.output
    ensures coq.output.St() == Put(old(coq.output.St()), VcDoc(vc))
    ensures coq.output.depth == old(coq.output.depth)
  {
    match vc
    case Lvalue => coq.output.Put("Lvalue");
    case Prvalue => coq.output.Put("Prvalue");
    case Xvalue => coq.output.Put("Xvalue");
  }

  /** Closes a constructor after the value category and the type of the expression. */
  method DoneVT(vc: ValCat, ty: QualType, coq: CoqPrinter)
    requires coq.output.depth >= 2
    modifies coq.output
    ensures coq.output.St() == Rparen(PutArgs(old(coq.output.St()), VcTypeArgs(vc, ty)))
    ensures coq.output.depth == old(coq.output.depth) - 2
  {
    ghost var st := coq.output.St();
    coq.output.AddNbsp();
    PrintValCat(vc, coq);
    DoneT(ty, coq);
    PutArg(st, VcDoc(vc), TypeArg(ty));
  }

  /** Closes a constructor after the value category. */
  method DoneV(vc: ValCat, coq: CoqPrinter)
    requires coq.output.depth >= 2
    modifies coq.output
    ensures coq.output.St() == Rparen(PutArgs(old(coq.output.St()), Arg(VcDoc(vc), END)))
    ensures coq.output.depth == old(coq.output.depth) - 2
  {
    ghost var st := coq.output.St();
    coq.output.AddNbsp();
    PrintValCat(vc, coq);
    PutEnd(coq.output.St());
    coq.EndCtor();
    PutArg(st, VcDoc(vc), END);
  }

  method VisitIntegerLiteral(e: Expr, coq: CoqPrinter, names: OpaqueNames)
    requires e.IntegerLiteral?
    modifies coq.output, names
    ensures coq.output.St() == Put(old(coq.output.St()), ExprDoc(old(names.View()), e).0)
    ensures names.View() == ExprDoc(old(names.View()), e).1
    ensures coq.output.depth == old(coq.output.depth)
    decreases e, 0
  {
    hide ExprDoc;
    IntegerNode(names.View(), e);
    ghost var st := coq.output.St();
    coq.Ctor("Eint", false);
    PrintScoped(e.num, "Z", coq);
    DoneT(e.ty, coq);
    PutCtor1(st, false, "Eint", DScoped(Decimal(e.num), "Z"), TypeArg(e.ty));
  }

  method VisitCharacterLiteral(e: Expr, coq: CoqPrinter, names: OpaqueNames)
    requires e.CharacterLiteral?
    modifies coq.output, names
    ensures coq.output.St() == Put(old(coq.output.St()), ExprDoc(old(names.View()), e).0)
    ensures names.View() == ExprDoc(old(names.View()), e).1
    ensures coq.output.depth == old(coq.output.depth)
    decreases e, 0
  {
    hide ExprDoc;
    CharacterNode(names.View(), e);
    ghost var st := coq.output.St();
    coq.Ctor("Echar", false);
    PrintScoped(e.num, "N", coq);
    DoneT(e.ty, coq);
    PutCtor1(st, false, "Echar", DScoped(Decimal(e.num), "N"), TypeArg(e.ty));
  }

  /** A numeral with a scope delimiter. */
  method PrintScoped(n: nat, scope: string, coq: CoqPrinter)
    modifies coq.output
    ensures coq.output.St() == Put(old(coq.output.St()), DScoped(Decimal(n), scope))
    ensures coq.output.depth == old(coq.output.depth)
  {
    coq.output.Put(Decimal(n));
    coq.output.Put("%" + scope);
  }

  lemma PutItemsStep(st: State, d: Doc, rest: seq<Doc>)
    ensures PutItems(st, [d] + rest) == PutItems(Consed(Put(st, d)), rest)
  {
    assert ([d] + rest)[1..] == rest;
  }

  /** Combines `width` bytes on a little-endian host, most significant first. */
  method CodeUnit(bytes: seq<int>, i: nat, width: nat) returns (byte: nat)
    requires i + width <= |bytes|
    ensures byte < Pow256(width) && forall k: nat :: k < width ==> ByteOf(byte, k) == bytes[i + k] % 256
    ensures byte == Unit(bytes[i..], width)
  {
    UnitSpells(bytes[i..], width);
    byte := 0;
    var j := 0;
    assert bytes[i..][width..] == bytes[i + width..];
    while j < width
      invariant 0 <= j <= width
      invariant byte == Unit(bytes[i + width - j..], j)
    {
      byte := byte * 256 + bytes[i + width - j - 1] % 256;
      assert bytes[i + width - j - 1..][1..] == bytes[i + width - j..];
      j := j + 1;
    }
  }

  lemma StepFits(k: nat, length: nat, width: nat)
    requires k * width < length * width
    ensures (k + 1) * width == k * width + width <= length * width
  {
    if k < length {
    } else {
    }
  }

  /** The code units of a string as a list. */
  method PrintUnits(str: StringBytes, coq: CoqPrinter)
    modifies coq.output
    ensures Encodes(Units(str.bytes, str.width), str)
    ensures coq.output.St() == Put(old(coq.output.St()), DList(UnitDocs(Units(str.bytes, str.width))))
    ensures coq.output.depth == old(coq.output.depth)
  {
    hide UnitDocs, Unit, Encodes;
    UnitsEncode(str);
    var bytes, width := str.bytes, str.width;
    ghost var st := coq.output.St();
    ghost var docs := UnitDocs(Units(bytes, width));
    coq.BeginList();
    ghost var st1 := coq.output.St();
    var i := 0;
    ghost var k := 0;
    assert bytes[0..] == bytes;
    while i < |bytes|
      invariant 0 <= i == k * width <= |bytes|
      invariant PutItems(coq.output.St(), UnitDocs(Units(bytes[i..], width))) == PutItems(st1, docs)
      invariant coq.output.depth == st1.depth
    {
      ghost var cur := coq.output.St();
      StepFits(k, str.length, width);
      var byte := CodeUnit(bytes, i, width);
      PrintScoped(byte, "N", coq);
      coq.Cons();
      UnitsStep(bytes[i..], width);
      assert bytes[i..][width..] == bytes[i + width..];
      PutItemsStep(cur, DScoped(Decimal(byte), "N"), UnitDocs(Units(bytes[i + width..], width)));
      i := i + width;
      k := k + 1;
    }
    assert bytes[i..] == [];
    assert UnitDocs([]) == [] by { UnitDocsEmpty(); }
    coq.EndList();
    PutDList(st, docs);
  }

  lemma UnitDocsEmpty()
    ensures UnitDocs([]) == []
  {
  }

  lemma UnitsStep(bytes: seq<int>, width: nat)
    requires 0 < width <= |bytes|
    ensures UnitDocs(Units(bytes, width))
         == [DScoped(Decimal(Unit(bytes, width)), "N")] + UnitDocs(Units(bytes[width..], width))
  {
  }

  method VisitStringLiteral(e: Expr, coq: CoqPrinter, names: OpaqueNames)
    requires e.StringLiteral?
    modifies coq.output, names
    ensures coq.output.St() == Put(old(coq.output.St()), ExprDoc(old(names.View()), e).0)
    ensures names.View() == ExprDoc(old(names.View()), e).1
    ensures coq.output.depth == old(coq.output.depth)
    decreases e, 0
  {
    hide ExprDoc;
    StringNode(names.View(), e);
    ghost var st := coq.output.St();
    ghost var docs := UnitDocs(Units(e.str.bytes, e.str.width));
    coq.Ctor("Estring", false);
    PrintUnits(e.str, coq);
    coq.output.AddNbsp();
    PrintType(e.elem, coq);
    PutEnd(coq.output.St());
    coq.EndCtor();
    PutCtor2(st, false, "Estring", DList(docs), TypeDoc(PrintedType(e.elem)), END);
  }

  method VisitCXXThisExpr(e: Expr, coq: CoqPrinter, names: OpaqueNames)
    requires e.This?
    modifies coq.output, names
    ensures coq.output.St() == Put(old(coq.output.St()), ExprDoc(old(names.View()), e).0)
    ensures names.View() == ExprDoc(old(names.View()), e).1
    ensures coq.output.depth == old(coq.output.depth)
    decreases e, 0
  {
    ghost var st := coq.output.St();
    coq.Ctor("Ethis", false);
    DoneT(e.ty, coq);
    PutCtor(st, false, "Ethis", TypeArg(e.ty));
  }

  lemma PutDList(st: State, docs: seq<Doc>)
    ensures Put(st, DList(docs)) == Rparen(Written(PutItems(Lparen(st), docs), "nil"))
  {
  }

  /** A reference to a declaration: an enclosing decomposition by its number, and otherwise a
      local or a global name. */
  method PrintVarRef(decl: ValueDecl, coq: CoqPrinter, names: OpaqueNames)
    modifies coq.output
    ensures coq.output.St() == Put(old(coq.output.St()), RefDoc(names.View(), decl))
    ensures coq.output.depth == old(coq.output.depth)
  {
    ghost var st := coq.output.St();
    var t := names.FindAnon(decl.id);
    if t != -1 {
      coq.Ctor("Lname", false);
      coq.output.Put("\"$");
      coq.output.Put(Decimal(t));
      coq.output.Put("\"");
      PutEnd(coq.output.St());
      coq.EndCtor();
      PutCtor1(st, false, "Lname", DAnon(t), END);
    } else if decl.local {
      PrintNamed("Lname", decl.name, coq);
    } else {
      PrintNamed("Gname", decl.name, coq);
    }
  }

  method VisitDeclRefExpr(e: Expr, coq: CoqPrinter, names: OpaqueNames)
    requires e.DeclRef?
    modifies coq.output, names
    ensures coq.output.St() == Put(old(coq.output.St()), ExprDoc(old(names.View()), e).0)
    ensures names.View() == ExprDoc(old(names.View()), e).1
    ensures coq.output.depth == old(coq.output.depth)
    decreases e, 0
  {
    hide ExprDoc;
    DeclRefNode(names.View(), e);
    ghost var env := names.View();
    ghost var st := coq.output.St();
    if e.decl.reference {
      coq.Ctor("Eread_ref", true);
    }
    ghost var st1 := coq.output.St();
    coq.Ctor("Evar", false);
    PrintVarRef(e.decl, coq, names);
    DoneT(e.ty, coq);
    ghost var v := DCtor(false, "Evar", Arg0(RefDoc(env, e.decl), TypeArg(e.ty)));
    PutCtor1(st1, false, "Evar", RefDoc(env, e.decl), TypeArg(e.ty));
    if e.decl.reference {
      PutEnd(coq.output.St());
      coq.EndCtor();
      PutCtor1(st, true, "Eread_ref", v, END);
    }
  }

  method VisitUnaryOperator(e: Expr, coq: CoqPrinter, names: OpaqueNames)
    requires e.Unary?
    modifies coq.output, names
    ensures coq.output.St() == Put(old(coq.output.St()), ExprDoc(old(names.View()), e).0)
    ensures names.View() == ExprDoc(old(names.View()), e).1
    ensures coq.output.depth == old(coq.output.depth)
    decreases e, 0
  {
    hide ExprDoc;
    UnaryNode(names.View(), e);
    ghost var env := names.View();
    ghost var st := coq.output.St();
    ghost var s := ExprDoc(env, e.sub).0;
    coq.Ctor(UnaryHead(e.uop), true);
    if e.uop.AddrOf? {
      PrintExpr(e.sub, coq, names);
      PutEnd(coq.output.St());
      coq.EndCtor();
      PutCtor1(st, true, "Eaddrof", s, END);
      return;
    }
    if IsUnop(e.uop) {
      coq.output.Put(UnopName(e.uop));
      coq.output.AddNbsp();
      PrintExpr(e.sub, coq, names);
      DoneT(e.ty, coq);
      PutWord(Opened(st, "Eunop", true), UnopName(e.uop));
      PutCtor2(st, true, "Eunop", DWord(UnopName(e.uop)), s, TypeArg(e.ty));
    } else {
      PrintExpr(e.sub, coq, names);
      DoneT(e.ty, coq);
      PutCtor1(st, true, UnaryHead(e.uop), s, TypeArg(e.ty));
    }
  }

  lemma PutWord(st: State, text: string)
    ensures Put(st, DWord(text)) == Written(st, text)
  {
  }

  /** Operands in a fresh environment: comma and the short-circuit operators. */
  method VisitSequencedOperator(e: Expr, coq: CoqPrinter, names: OpaqueNames)
    requires e.Binary? && Restarts(e.bop)
    modifies coq.output, names
    ensures coq.output.St() == Put(old(coq.output.St()), ExprDoc(old(names.View()), e).0)
    ensures names.View() == ExprDoc(old(names.View()), e).1
    ensures coq.output.depth == old(coq.output.depth)
    decreases e, 0
  {
    hide ExprDoc;
    SequencedNode(names.View(), e);
    ghost var st := coq.output.St();
    coq.Ctor(LogicHead(e.bop), true);
    var left := new OpaqueNames();
    PrintExpr(e.lhs, coq, left);
    coq.output.AddNbsp();
    var right := new OpaqueNames();
    PrintExpr(e.rhs, coq, right);
    PutEnd(coq.output.St());
    coq.EndCtor();
    PutCtor2(st, true, LogicHead(e.bop), ExprDoc(NO_NAMES, e.lhs).0, ExprDoc(NO_NAMES, e.rhs).0, END);
  }

  method VisitCXXNullPtrLiteralExpr(e: Expr, coq: CoqPrinter, names: OpaqueNames)
    requires e.NullPtr?
    modifies coq.output, names
    ensures coq.output.St() == Put(old(coq.output.St()), ExprDoc(old(names.View()), e).0)
    ensures names.View() == ExprDoc(old(names.View()), e).1
    ensures coq.output.depth == old(coq.output.depth)
    decreases e, 0
  {
    ghost var st := coq.output.St();
    coq.output.Put("Enull");
    PutWord(st, "Enull");
  }

  method VisitCXXBoolLiteralExpr(e: Expr, coq: CoqPrinter, names: OpaqueNames)
    requires e.BoolLiteral?
    modifies coq.output, names
    ensures coq.output.St() == Put(old(coq.output.St()), ExprDoc(old(names.View()), e).0)
    ensures names.View() == ExprDoc(old(names.View()), e).1
    ensures coq.output.depth == old(coq.output.depth)
    decreases e, 0
  {
    if e.val {
      coq.output.Put("(Ebool true)");
      assert "(" + "Ebool" + " " + "true" + ")" == "(Ebool true)";
    } else {
      coq.output.Put("(Ebool false)");
      assert "(" + "Ebool" + " " + "false" + ")" == "(Ebool false)";
    }
  }

  method VisitParenExpr(e: Expr, coq: CoqPrinter, names: OpaqueNames)
    requires e.Transparent?
    modifies coq.output, names
    ensures coq.output.St() == Put(old(coq.output.St()), ExprDoc(old(names.View()), e).0)
    ensures names.View() == ExprDoc(old(names.View()), e).1
    ensures coq.output.depth == old(coq.output.depth)
    decreases e, 0
  {
    PrintExpr(e.sub, coq, names);
  }

  method VisitBinaryOperator(e: Expr, coq: CoqPrinter, names: OpaqueNames)
    requires e.Binary? && !Restarts(e.bop)
    modifies coq.output, names
    ensures coq.output.St() == Put(old(coq.output.St()), ExprDoc(old(names.View()), e).0)
    ensures names.View() == ExprDoc(old(names.View()), e).1
    ensures coq.output.depth == old(coq.output.depth)
    decreases e, 0
  {
    hide Written, TypeArg, ExprDoc;
    BinaryNode(names.View(), e);
    ghost var env := names.View();
    ghost var st := coq.output.St();
    ghost var (l, env1) := ExprDoc(env, e.lhs);
    ghost var (r, env2) := ExprDoc(env1, e.rhs);
    if e.bop.Assign? {
      coq.Ctor("Eassign", true);
    } else {
      coq.Ctor(if e.bop.CompoundAssign? then "Eassign_op" else "Ebinop", true);
      PutWord(coq.output.St(), ArithName(e.bop.op));
      coq.output.Put(ArithName(e.bop.op));
      coq.output.AddNbsp();
    }
    PrintExpr(e.lhs, coq, names);
    coq.output.AddNbsp();
    PrintExpr(e.rhs, coq, names);
    DoneT(e.ty, coq);
    match e.bop {
      case Assign => PutCtor2(st, true, "Eassign", l, r, TypeArg(e.ty));
      case CompoundAssign(op) =>
        PutCtor3(st, true, "Eassign_op", DWord(ArithName(op)), l, r, TypeArg(e.ty));
      case Arith(op) => PutCtor3(st, true, "Ebinop", DWord(ArithName(op)), l, r, TypeArg(e.ty));
    }
  }

  method VisitArraySubscriptExpr(e: Expr, coq: CoqPrinter, names: OpaqueNames)
    requires e.Subscript?
    modifies coq.output, names
    ensures coq.output.St() == Put(old(coq.output.St()), ExprDoc(old(names.View()), e).0)
    ensures names.View() == ExprDoc(old(names.View()), e).1
    ensures coq.output.depth == old(coq.output.depth)
    decreases e, 0
  {
    hide ExprDoc;
    SubscriptNode(names.View(), e);
    ghost var env := names.View();
    ghost var st := coq.output.St();
    ghost var (l, env1) := ExprDoc(env, e.lhs);
    ghost var (r, env2) := ExprDoc(env1, e.rhs);
    coq.Ctor("Esubscript", true);
    PrintExpr(e.lhs, coq, names);
    coq.output.AddNbsp();
    PrintExpr(e.rhs, coq, names);
    DoneT(e.ty, coq);
    PutCtor2(st, true, "Esubscript", l, r, TypeArg(e.ty));
  }

  /** Expressions in a list: `nil` for an empty range, and otherwise a parenthesised list. */
  method PrintExprs(es: seq<Expr>, coq: CoqPrinter, names: OpaqueNames)
    modifies coq.output, names
    ensures coq.output.St() == Put(old(coq.output.St()), ListDoc(ArgDocs(old(names.View()), es).0))
    ensures names.View() == ArgDocs(old(names.View()), es).1
    ensures coq.output.depth == old(coq.output.depth)
    decreases es, 0
  {
    hide ExprDoc;
    ghost var env := names.View();
    ghost var st := coq.output.St();
    ghost var docs := ArgDocs(env, es).0;
    if |es| == 0 {
      PutWord(st, "nil");
      coq.output.Put("nil");
      return;
    }
    coq.BeginList();
    ghost var st1 := coq.output.St();
    var i := 0;
    assert es[0..] == es;
    while i < |es|
      invariant 0 <= i <= |es|
      invariant PutItems(coq.output.St(), ArgDocs(names.View(), es[i..]).0) == PutItems(st1, docs)
      invariant ArgDocs(names.View(), es[i..]).1 == ArgDocs(env, es).1
      invariant coq.output.depth == st1.depth
    {
      ghost var cur := coq.output.St();
      ghost var curEnv := names.View();
      PrintExpr(es[i], coq, names);
      coq.Cons();
      assert es[i..][1..] == es[i + 1..];
      ghost var (d, next) := ExprDoc(curEnv, es[i]);
      PutItemsStep(cur, d, ArgDocs(next, es[i + 1..]).0);
      i := i + 1;
    }
    coq.EndList();
    PutDList(st, docs);
  }

  lemma PutBroken(st: State, line: bool, head: string, a: Doc, b: Doc, rest: Args)
    ensures Put(st, DCtor(line, head, Arg0(a, More(Broken, b, rest))))
         == Rparen(PutArgs(Put(Step(Put(Opened(st, head, line), a), Line), b), rest))
  {
    PutCtor1(st, line, head, a, More(Broken, b, rest));
  }

  method VisitCallExpr(e: Expr, coq: CoqPrinter, names: OpaqueNames)
    requires e.Call?
    modifies coq.output, names
    ensures coq.output.St() == Put(old(coq.output.St()), ExprDoc(old(names.View()), e).0)
    ensures names.View() == ExprDoc(old(names.View()), e).1
    ensures coq.output.depth == old(coq.output.depth)
    decreases e, 0
  {
    hide ExprDoc;
    CallNode(names.View(), e);
    ghost var env := names.View();
    ghost var st := coq.output.St();
    ghost var (f, env1) := ExprDoc(env, e.callee);
    ghost var xs := ArgDocs(env1, e.args).0;
    coq.Ctor("Ecall", true);
    PrintExpr(e.callee, coq, names);
    coq.output.NewLine();
    PrintExprs(e.args, coq, names);
    DoneT(e.ty, coq);
    PutBroken(st, true, "Ecall", f, ListDoc(xs), TypeArg(e.ty));
  }

  /** The method of a member call, with its dispatch and its type. */
  method PrintCallee(name: string, virtually: bool, ty: QualType, coq: CoqPrinter)
    modifies coq.output
    ensures coq.output.St() == Put(old(coq.output.St()), CalleeDoc(name, virtually, ty))
    ensures coq.output.depth == old(coq.output.depth)
  {
    ghost var st := coq.output.St();
    coq.Ctor("inl", true);
    ghost var st1 := coq.output.St();
    coq.output.OpenParen();
    coq.Str(name);
    coq.output.Put(",");
    coq.output.AddNbsp();
    coq.output.Put(if virtually then "Virtual" else "Direct");
    coq.output.Put(",");
    coq.output.AddNbsp();
    PrintQualType(ty, coq);
    coq.output.CloseParen();
    ghost var how := DWord(if virtually then "Virtual" else "Direct");
    PutTriple(st1, DQuoted(name), how, QualDoc(ty));
    PutQuoted(Lparen(st1), name);
    PutWord(Step(Written(Quotation(Lparen(st1), name), ","), Nbsp), how.text);
    PutEnd(coq.output.St());
    coq.EndCtor();
    PutCtor1(st, true, "inl", DTuple(DQuoted(name), [how, QualDoc(ty)]), END);
  }

  lemma PutTriple(st: State, a: Doc, b: Doc, c: Doc)
    ensures Put(st, DTuple(a, [b, c]))
         == Rparen(Put(Step(Written(Put(Step(Written(Put(Lparen(st), a), ","), Nbsp), b), ","), Nbsp), c))
  {
    hide Lparen;
    var s1 := Put(Lparen(st), a);
    var s2 := Put(Step(Written(s1, ","), Nbsp), b);
    assert [b, c][1..] == [c];
    assert [c][1..] == [];
    assert PutMore(s1, [b, c]) == PutMore(s2, [c]);
    assert PutMore(s2, [c]) == PutMore(Put(Step(Written(s2, ","), Nbsp), c), []);
  }

  method VisitCXXMemberCallExpr(e: Expr, coq: CoqPrinter, names: OpaqueNames)
    requires e.MemberCall?
    modifies coq.output, names
    ensures coq.output.St() == Put(old(coq.output.St()), ExprDoc(old(names.View()), e).0)
    ensures names.View() == ExprDoc(old(names.View()), e).1
    ensures coq.output.depth == old(coq.output.depth)
    decreases e, 0
  {
    hide ExprDoc;
    MemberCallNode(names.View(), e);
    ghost var env := names.View();
    ghost var st := coq.output.St();
    ghost var (o, env1) := ExprDoc(env, e.receiver);
    ghost var xs := ArgDocs(env1, e.args).0;
    coq.Ctor("Emember_call", true);
    PrintCallee(e.name, e.virtually, e.methodTy, coq);
    coq.output.AddNbsp();
    PrintExpr(e.receiver, coq, names);
    coq.output.AddNbsp();
    PrintExprs(e.args, coq, names);
    DoneT(e.ty, coq);
    PutCtor3(st, true, "Emember_call", CalleeDoc(e.name, e.virtually, e.methodTy), o, ListDoc(xs),
             TypeArg(e.ty));
  }

  method VisitCXXConstructExpr(e: Expr, coq: CoqPrinter, names: OpaqueNames)
    requires e.Construct?
    modifies coq.output, names
    ensures coq.output.St() == Put(old(coq.output.St()), ExprDoc(old(names.View()), e).0)
    ensures names.View() == ExprDoc(old(names.View()), e).1
    ensures coq.output.depth == old(coq.output.depth)
    decreases e, 0
  {
    hide ExprDoc;
    ConstructNode(names.View(), e);
    ghost var env := names.View();
    ghost var st := coq.output.St();
    ghost var xs := ArgDocs(env, e.args).0;
    coq.Ctor("Econstructor", true);
    PutQuoted(coq.output.St(), e.name);
    coq.Str(e.name);
    coq.output.AddNbsp();
    PrintExprs(e.args, coq, names);
    DoneT(e.ty, coq);
    PutCtor2(st, true, "Econstructor", DQuoted(e.name), ListDoc(xs), TypeArg(e.ty));
  }

  lemma PutQuoted(st: State, text: string)
    ensures Put(st, DQuoted(text)) == Quotation(st, text)
  {
  }

  method VisitCastExpr(e: Expr, coq: CoqPrinter, names: OpaqueNames)
    requires e.Cast?
    modifies coq.output, names
    ensures coq.output.St() == Put(old(coq.output.St()), ExprDoc(old(names.View()), e).0)
    ensures names.View() == ExprDoc(old(names.View()), e).1
    ensures coq.output.depth == old(coq.output.depth)
    decreases e, 0
  {
    hide ExprDoc;
    CastNode(names.View(), e);
    ghost var env := names.View();
    ghost var st := coq.output.St();
    ghost var s := ExprDoc(env, e.sub).0;
    coq.Ctor("Ecast", true);
    PutWord(coq.output.St(), e.kind);
    coq.output.Put(e.kind);
    coq.output.AddNbsp();
    PrintExpr(e.sub, coq, names);
    DoneVT(e.vc, e.ty, coq);
    PutCtor2(st, true, "Ecast", DWord(e.kind), s, VcTypeArgs(e.vc, e.ty));
  }

  method PrintField(record: string, field: string, coq: CoqPrinter)
    modifies coq.output
    ensures coq.output.St() == Put(old(coq.output.St()), FieldDoc(record, field))
    ensures coq.output.depth == old(coq.output.depth)
  {
    ghost var st := coq.output.St();
    coq.Ctor("Build_field", false);
    coq.Str(record);
    coq.output.AddNbsp();
    coq.Str(field);
    PutEnd(coq.output.St());
    coq.EndCtor();
    PutCtor2(st, false, "Build_field", DQuoted(record), DQuoted(field), END);
  }

  method VisitMemberExpr(e: Expr, coq: CoqPrinter, names: OpaqueNames)
    requires e.Member?
    modifies coq.output, names
    ensures coq.output.St() == Put(old(coq.output.St()), ExprDoc(old(names.View()), e).0)
    ensures names.View() == ExprDoc(old(names.View()), e).1
    ensures coq.output.depth == old(coq.output.depth)
    decreases e, 0
  {
    hide ExprDoc;
    MemberNode(names.View(), e);
    ghost var env := names.View();
    ghost var st := coq.output.St();
    ghost var s := ExprDoc(env, e.sub).0;
    ghost var f := FieldDoc(e.record, e.field);
    if e.reference {
      coq.Ctor("Eread_ref", true);
    }
    ghost var st1 := coq.output.St();
    coq.Ctor("Emember", true);
    PrintExpr(e.sub, coq, names);
    coq.output.AddNbsp();
    PrintField(e.record, e.field, coq);
    DoneT(e.ty, coq);
    PutCtor2(st1, true, "Emember", s, f, TypeArg(e.ty));
    if e.reference {
      PutEnd(coq.output.St());
      coq.EndCtor();
      PutCtor1(st, true, "Eread_ref", DCtor(true, "Emember", Arg0(s, Arg(f, TypeArg(e.ty)))), END);
    }
  }

  method VisitConditionalOperator(e: Expr, coq: CoqPrinter, names: OpaqueNames)
    requires e.Conditional?
    modifies coq.output, names
    ensures coq.output.St() == Put(old(coq.output.St()), ExprDoc(old(names.View()), e).0)
    ensures names.View() == ExprDoc(old(names.View()), e).1
    ensures coq.output.depth == old(coq.output.depth)
    decreases e, 0
  {
    hide ExprDoc;
    ConditionalNode(names.View(), e);
    ghost var env := names.View();
    ghost var st := coq.output.St();
    ghost var (c, env1) := ExprDoc(env, e.cond);
    ghost var (t, env2) := ExprDoc(env1, e.thn);
    ghost var (f, env3) := ExprDoc(env2, e.els);
    coq.Ctor("Eif", true);
    PrintExpr(e.cond, coq, names);
    coq.output.AddNbsp();
    PrintExpr(e.thn, coq, names);
    coq.output.AddNbsp();
    PrintExpr(e.els, coq, names);
    DoneVT(e.vc, e.ty, coq);
    PutCtor3(st, true, "Eif", c, t, f, VcTypeArgs(e.vc, e.ty));
  }

  /** The calls for a conditional with an omitted operand, in the order in which they number. */
  lemma PutEif2(st: State, env: Env, e: Expr)
    requires e.BinaryConditional?
    ensures var (m, env1) := ExprDoc(env.(indexes := env.indexes + [e.opaque_]), e.common);
            var (c, env2) := ExprDoc(env1.(count := env1.count + 1), e.cond);
            var (t, env3) := ExprDoc(env2, e.thn);
            var (f, env4) := ExprDoc(env3, e.els);
            var st1 := Put(Step(Put(Opened(st, "Eif2", true), NatDoc(|env.indexes|)), Nbsp), m);
            var st2 := Put(Step(Put(Step(Put(Step(st1, Nbsp), c), Nbsp), t), Nbsp), f);
            && Put(st, ExprDoc(env, e).0) == Rparen(PutArgs(st2, VcTypeArgs(e.vc, e.ty)))
            && ExprDoc(env, e).1 == env4.(count := env4.count - 1)
  {
    hide Put, NatDoc, ExprDoc;
    BinaryConditionalNode(env, e);
    var (m, env1) := ExprDoc(env.(indexes := env.indexes + [e.opaque_]), e.common);
    var (c, env2) := ExprDoc(env1.(count := env1.count + 1), e.cond);
    var (t, env3) := ExprDoc(env2, e.thn);
    var (f, env4) := ExprDoc(env3, e.els);
    PutCtor5(st, true, "Eif2", NatDoc(|env.indexes|), m, c, t, f, VcTypeArgs(e.vc, e.ty));
  }

  /** The parts of a conditional with an omitted operand that may refer to its common value. */
  method PrintBranches(e: Expr, coq: CoqPrinter, names: OpaqueNames)
    requires e.BinaryConditional?
    modifies coq.output, names
    ensures var (c, env1) := ExprDoc(old(names.View()), e.cond);
            var (t, env2) := ExprDoc(env1, e.thn);
            var (f, env3) := ExprDoc(env2, e.els);
            var st1 := Put(Step(old(coq.output.St()), Nbsp), c);
            && coq.output.St() == Put(Step(Put(Step(st1, Nbsp), t), Nbsp), f)
            && names.View() == env3
    ensures coq.output.depth == old(coq.output.depth)
    decreases e, 0
  {
    hide ExprDoc, Put;
    coq.output.AddNbsp();
    PrintExpr(e.cond, coq, names);
    coq.output.AddNbsp();
    PrintExpr(e.thn, coq, names);
    coq.output.AddNbsp();
    PrintExpr(e.els, coq, names);
  }

  method VisitBinaryConditionalOperator(e: Expr, coq: CoqPrinter, names: OpaqueNames)
    requires e.BinaryConditional?
    modifies coq.output, names
    ensures coq.output.St() == Put(old(coq.output.St()), ExprDoc(old(names.View()), e).0)
    ensures names.View() == ExprDoc(old(names.View()), e).1
    ensures coq.output.depth == old(coq.output.depth)
    decreases e, 1
  {
    hide ExprDoc, Step, VcTypeArgs;
    PutEif2(coq.output.St(), names.View(), e);
    coq.Ctor("Eif2", true);
    var index := names.Fresh(e.opaque_);
    PutWord(coq.output.St(), Decimal(index));
    coq.output.Put(Decimal(index));
    coq.output.AddNbsp();
    PrintExpr(e.common, coq, names);
    names.IncIndexCount();
    PrintBranches(e, coq, names);
    names.DecIndexCount();
    DoneVT(e.vc, e.ty, coq);
  }

  method VisitInitListExpr(e: Expr, coq: CoqPrinter, names: OpaqueNames)
    requires e.InitList?
    modifies coq.output, names
    ensures coq.output.St() == Put(old(coq.output.St()), ExprDoc(old(names.View()), e).0)
    ensures names.View() == ExprDoc(old(names.View()), e).1
    ensures coq.output.depth == old(coq.output.depth)
    decreases e, 0
  {
    hide ExprDoc;
    InitListNode(names.View(), e);
    ghost var env := names.View();
    ghost var st := coq.output.St();
    ghost var (xs, env1) := ArgDocs(env, e.args);
    coq.Ctor("Einitlist", true);
    PrintExprs(e.args, coq, names);
    coq.output.AddNbsp();
    match e.filler {
      case Some(x) =>
        ghost var st1 := coq.output.St();
        coq.Ctor("Some", true);
        PrintExpr(x, coq, names);
        PutEnd(coq.output.St());
        coq.EndCtor();
        ghost var f := ExprDoc(env1, x).0;
        PutCtor1(st1, true, "Some", f, END);
        DoneT(e.ty, coq);
        PutCtor2(st, true, "Einitlist", ListDoc(xs), SomeDoc(f), TypeArg(e.ty));
      case None =>
        PutWord(coq.output.St(), "None");
        coq.output.Put("None");
        DoneT(e.ty, coq);
        PutCtor2(st, true, "Einitlist", ListDoc(xs), NONE_DOC, TypeArg(e.ty));
    }
  }

  method VisitExprWithCleanups(e: Expr, coq: CoqPrinter, names: OpaqueNames)
    requires e.WithCleanups?
    modifies coq.output, names
    ensures coq.output.St() == Put(old(coq.output.St()), ExprDoc(old(names.View()), e).0)
    ensures names.View() == ExprDoc(old(names.View()), e).1
    ensures coq.output.depth == old(coq.output.depth)
    decreases e, 0
  {
    hide ExprDoc;
    CleanupsNode(names.View(), e);
    ghost var env := names.View();
    ghost var st := coq.output.St();
    ghost var s := ExprDoc(env, e.sub).0;
    coq.Ctor("Eandclean", true);
    PrintExpr(e.sub, coq, names);
    PutEnd(coq.output.St());
    coq.EndCtor();
    PutCtor1(st, true, "Eandclean", s, END);
  }

  method VisitCXXDefaultArgExpr(e: Expr, coq: CoqPrinter, names: OpaqueNames)
    requires e.DefaultArg?
    modifies coq.output, names
    ensures coq.output.St() == Put(old(coq.output.St()), ExprDoc(old(names.View()), e).0)
    ensures names.View() == ExprDoc(old(names.View()), e).1
    ensures coq.output.depth == old(coq.output.depth)
    decreases e, 0
  {
    hide ExprDoc;
    DefaultArgNode(names.View(), e);
    ghost var env := names.View();
    ghost var st := coq.output.St();
    ghost var s := ExprDoc(env, e.sub).0;
    coq.Ctor("Eimplicit", true);
    PrintExpr(e.sub, coq, names);
    PutEnd(coq.output.St());
    coq.EndCtor();
    PutCtor1(st, true, "Eimplicit", s, END);
  }

  method VisitMaterializeTemporaryExpr(e: Expr, coq: CoqPrinter, names: OpaqueNames)
    requires e.MaterializeTemporary?
    modifies coq.output, names
    ensures coq.output.St() == Put(old(coq.output.St()), ExprDoc(old(names.View()), e).0)
    ensures names.View() == ExprDoc(old(names.View()), e).1
    ensures coq.output.depth == old(coq.output.depth)
    decreases e, 0
  {
    hide ExprDoc;
    TemporaryNode(names.View(), e);
    ghost var env := names.View();
    ghost var st := coq.output.St();
    ghost var s := ExprDoc(env, e.sub).0;
    coq.Ctor("Ematerialize_temp", true);
    PrintExpr(e.sub, coq, names);
    DoneV(e.vc, coq);
    PutCtor1(st, true, "Ematerialize_temp", s, Arg(VcDoc(e.vc), END));
  }

  method VisitOpaqueValueExpr(e: Expr, coq: CoqPrinter, names: OpaqueNames)
    requires e.OpaqueValue?
    modifies coq.output, names
    ensures coq.output.St() == Put(old(coq.output.St()), ExprDoc(old(names.View()), e).0)
    ensures names.View() == ExprDoc(old(names.View()), e).1
    ensures coq.output.depth == old(coq.output.depth)
    decreases e, 0
  {
    hide ExprDoc;
    OpaqueNode(names.View(), e);
    ghost var st := coq.output.St();
    coq.Ctor("Eopaque_ref", true);
    var index := names.Find(e.opaque_);
    PutWord(coq.output.St(), Signed(index));
    coq.output.Put(Signed(index));
    DoneVT(e.vc, e.ty, coq);
    PutCtor1(st, true, "Eopaque_ref", DWord(Signed(index)), VcTypeArgs(e.vc, e.ty));
  }

  method VisitArrayInitLoopExpr(e: Expr, coq: CoqPrinter, names: OpaqueNames)
    requires e.ArrayInitLoop?
    modifies coq.output, names
    ensures coq.output.St() == Put(old(coq.output.St()), ExprDoc(old(names.View()), e).0)
    ensures names.View() == ExprDoc(old(names.View()), e).1
    ensures coq.output.depth == old(coq.output.depth)
    decreases e, 0
  {
    hide PutArgs, TypeArg, ExprDoc;
    ArrayLoopNode(names.View(), e);
    ghost var env := names.View();
    ghost var st := coq.output.St();
    ghost var (s, env1) := ExprDoc(env.(indexes := env.indexes + [e.opaque_]), e.source);
    ghost var (b, env2) := ExprDoc(env1.(count := env1.count + 1), e.sub);
    ghost var level := DWord(Signed(env1.count + 1));
    ghost var tail := Arg(b, TypeArg(e.ty));
    coq.Ctor("Earrayloop_init", true);
    var index := names.Fresh(e.opaque_);
    PutWord(coq.output.St(), Decimal(index));
    coq.output.Put(Decimal(index));
    coq.output.AddNbsp();
    PrintExpr(e.source, coq, names);
    ghost var st2 := coq.output.St();
    names.IncIndexCount();
    PutWord(st2, Signed(names.indexCount));
    coq.output.Put(Signed(names.indexCount));
    ghost var st3 := coq.output.St();
    coq.output.AddNbsp();
    PutWord(coq.output.St(), Decimal(e.size));
    coq.output.Put(Decimal(e.size));
    ghost var st4 := coq.output.St();
    coq.output.AddNbsp();
    PrintExpr(e.sub, coq, names);
    names.DecIndexCount();
    DoneT(e.ty, coq);
    PutCtor2(st, true, "Earrayloop_init", NatDoc(|env.indexes|), s, Arg0(level, Arg(NatDoc(e.size), tail)));
    PutTight(st2, level, Arg(NatDoc(e.size), tail));
    PutArg(st3, NatDoc(e.size), tail);
    PutArg(st4, b, TypeArg(e.ty));
  }

  method VisitArrayInitIndexExpr(e: Expr, coq: CoqPrinter, names: OpaqueNames)
    requires e.ArrayInitIndex?
    modifies coq.output, names
    ensures coq.output.St() == Put(old(coq.output.St()), ExprDoc(old(names.View()), e).0)
    ensures names.View() == ExprDoc(old(names.View()), e).1
    ensures coq.output.depth == old(coq.output.depth)
    decreases e, 0
  {
    hide ExprDoc;
    ArrayIndexNode(names.View(), e);
    ghost var env := names.View();
    ghost var st := coq.output.St();
    coq.Ctor("Earrayloop_index", true);
    PutWord(coq.output.St(), Signed(names.indexCount));
    coq.output.Put(Signed(names.indexCount));
    ghost var st1 := coq.output.St();
    coq.output.AddNbsp();
    DoneT(e.ty, coq);
    PutCtor1(st, true, "Earrayloop_index", DWord(Signed(env.count)), More(Nbsps(2), QualDoc(e.ty), END));
    PutTwoSpaces(st1, QualDoc(e.ty), END);
  }

  lemma PutTight(st: State, d: Doc, rest: Args)
    ensures PutArgs(st, Arg0(d, rest)) == PutArgs(Put(st, d), rest)
  {
  }

  lemma PutTwoSpaces(st: State, d: Doc, rest: Args)
    ensures PutArgs(Step(st, Nbsp), Arg(d, rest)) == PutArgs(st, More(Nbsps(2), d, rest))
  {
    assert Nbspd(st, 2) == Nbspd(Step(st, Nbsp), 1);
  }

  method PrintExpr(e: Expr, coq: CoqPrinter, names: OpaqueNames)
    modifies coq.output, names
    ensures coq.output.St() == Put(old(coq.output.St()), ExprDoc(old(names.View()), e).0)
    ensures names.View() == ExprDoc(old(names.View()), e).1
    ensures coq.output.depth == old(coq.output.depth)
    decreases e, 2
  {
    match e
    case NullPtr => VisitCXXNullPtrLiteralExpr(e, coq, names);
    case BoolLiteral(_) => VisitCXXBoolLiteralExpr(e, coq, names);
    case IntegerLiteral(_, _) => VisitIntegerLiteral(e, coq, names);
    case CharacterLiteral(_, _) => VisitCharacterLiteral(e, coq, names);
    case StringLiteral(_, _) => VisitStringLiteral(e, coq, names);
    case This(_) => VisitCXXThisExpr(e, coq, names);
    case DeclRef(_, _) => VisitDeclRefExpr(e, coq, names);
    case Unary(_, _, _) => VisitUnaryOperator(e, coq, names);
    case Binary(op, _, _, _) =>
      if Restarts(op) {
        VisitSequencedOperator(e, coq, names);
      } else {
        VisitBinaryOperator(e, coq, names);
      }
    case Subscript(_, _, _) => VisitArraySubscriptExpr(e, coq, names);
    case Cast(_, _, _, _) => VisitCastExpr(e, coq, names);
    case Transparent(_) => VisitParenExpr(e, coq, names);
    case Call(_, _, _) => VisitCallExpr(e, coq, names);
    case MemberCall(_, _, _, _, _, _) => VisitCXXMemberCallExpr(e, coq, names);
    case Construct(_, _, _) => VisitCXXConstructExpr(e, coq, names);
    case Member(_, _, _, _, _) => VisitMemberExpr(e, coq, names);
    case Conditional(_, _, _, _, _) => VisitConditionalOperator(e, coq, names);
    case BinaryConditional(_, _, _, _, _, _, _) => VisitBinaryConditionalOperator(e, coq, names);
    case InitList(_, _, _) => VisitInitListExpr(e, coq, names);
    case WithCleanups(_) => VisitExprWithCleanups(e, coq, names);
    case MaterializeTemporary(_, _) => VisitMaterializeTemporaryExpr(e, coq, names);
    case DefaultArg(_) => VisitCXXDefaultArgExpr(e, coq, names);
    case OpaqueValue(_, _, _) => VisitOpaqueValueExpr(e, coq, names);
    case ArrayInitLoop(_, _, _, _, _) => VisitArrayInitLoopExpr(e, coq, names);
    case ArrayInitIndex(_) => VisitArrayInitIndexExpr(e, coq, names);
  }
}

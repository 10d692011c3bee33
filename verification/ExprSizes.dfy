/** How many tokens an expression or a declaration is read from: the number is determined by what
    is read. */
module ExprSizes {
  import opened Text
  import opened ClangAst
  import opened CoqTerms
  import opened CoqTypes
  import opened CoqTypeReading
  import opened CoqExprs

  function TypeSize(t: CoqType): nat {
    match t
    case Tatom(_) => 1
    case Tnamed(_) => 2
    case Tenum(_) => 2
    case Tqualified(_, _, p) => 1 + TypeSize(p)
    case Tptr(p) => 1 + TypeSize(p)
    case Tref(p) => 1 + TypeSize(p)
    case TrvRef(p) => 1 + TypeSize(p)
  }

  function ESize(c: CExpr): nat
    decreases c
  {
    match c
    case Enull => 1
    case Ebool(_) => 2
    case Eint(_, ty) => 4 + TypeSize(ty)
    case Echar(_, ty) => 4 + TypeSize(ty)
    case Estring(units, ty) => 2 + 4 * |units| + TypeSize(ty)
    case Ethis(ty) => 1 + TypeSize(ty)
    case Evar(_, ty) => 3 + TypeSize(ty)
    case EreadRef(x) => 1 + ESize(x)
    case Eunop(_, x, ty) => 2 + ESize(x) + TypeSize(ty)
    case Ederef(x, ty) => 1 + ESize(x) + TypeSize(ty)
    case Eaddrof(x) => 1 + ESize(x)
    case Epreinc(x, ty) => 1 + ESize(x) + TypeSize(ty)
    case Epostinc(x, ty) => 1 + ESize(x) + TypeSize(ty)
    case Epredec(x, ty) => 1 + ESize(x) + TypeSize(ty)
    case Epostdec(x, ty) => 1 + ESize(x) + TypeSize(ty)
    case Ebinop(_, l, r, ty) => 2 + ESize(l) + ESize(r) + TypeSize(ty)
    case Eassign(l, r, ty) => 1 + ESize(l) + ESize(r) + TypeSize(ty)
    case EassignOp(_, l, r, ty) => 2 + ESize(l) + ESize(r) + TypeSize(ty)
    case Ecomma(l, r) => 1 + ESize(l) + ESize(r)
    case Eseqand(l, r) => 1 + ESize(l) + ESize(r)
    case Eseqor(l, r) => 1 + ESize(l) + ESize(r)
    case Esubscript(l, r, ty) => 1 + ESize(l) + ESize(r) + TypeSize(ty)
    case Ecall(f, xs, ty) => 1 + ESize(f) + ESizes(xs) + TypeSize(ty)
    case EmemberCall(_, _, mty, x, xs, ty) => 6 + TypeSize(mty) + ESize(x) + ESizes(xs) + TypeSize(ty)
    case Econstructor(_, xs, ty) => 2 + ESizes(xs) + TypeSize(ty)
    case Ecast(_, x, _, ty) => 3 + ESize(x) + TypeSize(ty)
    case Emember(x, _, _, ty) => 4 + ESize(x) + TypeSize(ty)
    case Eif(c, x, y, _, ty) => 2 + ESize(c) + ESize(x) + ESize(y) + TypeSize(ty)
    case Eif2(_, m, c, x, y, _, ty) => 3 + ESize(m) + ESize(c) + ESize(x) + ESize(y) + TypeSize(ty)
    case Einitlist(xs, filler, ty) =>
      1 + ESizes(xs) + (if filler.Some? then 1 + ESize(filler.value) else 1) + TypeSize(ty)
    case Eandclean(x) => 1 + ESize(x)
    case EmaterializeTemp(x, _) => 2 + ESize(x)
    case Eimplicit(x) => 1 + ESize(x)
    case EopaqueRef(_, _, ty) => 3 + TypeSize(ty)
    case EarrayloopInit(_, s, _, _, x, ty) => 4 + ESize(s) + ESize(x) + TypeSize(ty)
    case EarrayloopIndex(_, ty) => 2 + TypeSize(ty)
  }

  /** A list, its end included. */
  function ESizes(cs: seq<CExpr>): nat
    decreases cs
  {
    if cs == [] then 1 else ESize(cs[0]) + 1 + ESizes(cs[1..])
  }

  function OptESize(c: Option<CExpr>): nat {
    if c.Some? then 1 + ESize(c.value) else 1
  }

  function DSize(d: CDecl): nat
    decreases d
  {
    match d
    case Dvar(_, ty, init) => 2 + TypeSize(ty) + OptESize(init)
    case Dinit(_, _, ty, init) => 3 + TypeSize(ty) + OptESize(init)
    case Ddecompose(x, _, bs) => 2 + ESize(x) + DSizes(bs)
  }

  function DSizes(ds: seq<CDecl>): nat
    decreases ds
  {
    if ds == [] then 1 else DSize(ds[0]) + 1 + DSizes(ds[1..])
  }

  function OptDSize(d: Option<CDecl>): nat {
    if d.Some? then 1 + DSize(d.value) else 1
  }

  // ---- Arguments -----------------------------------------------------------------------------

  lemma Sizes1(a: Term)
    ensures Sizes([a]) == Size(a)
  {
    assert [a][1..] == [];
  }

  lemma Sizes2(a: Term, b: Term)
    ensures Sizes([a, b]) == Size(a) + Size(b)
  {
    assert [a, b][1..] == [b];
    Sizes1(b);
  }

  lemma Sizes3(a: Term, b: Term, c: Term)
    ensures Sizes([a, b, c]) == Size(a) + Size(b) + Size(c)
  {
    assert [a, b, c][1..] == [b, c];
    Sizes2(b, c);
  }

  lemma Sizes4(a: Term, b: Term, c: Term, d: Term)
    ensures Sizes([a, b, c, d]) == Size(a) + Size(b) + Size(c) + Size(d)
  {
    assert [a, b, c, d][1..] == [b, c, d];
    Sizes3(b, c, d);
  }

  /** The arguments of a head, one by one. */
  lemma ArgsTake(t: Term)
    requires t.Apply? && t.fn.Ident?
    ensures |t.args| == 1 ==> Size(t) == 1 + Size(t.args[0])
    ensures |t.args| == 2 ==> Size(t) == 1 + Size(t.args[0]) + Size(t.args[1])
    ensures |t.args| == 3 ==> Size(t) == 1 + Size(t.args[0]) + Size(t.args[1]) + Size(t.args[2])
    ensures |t.args| == 4 ==>
      Size(t) == 1 + Size(t.args[0]) + Size(t.args[1]) + Size(t.args[2]) + Size(t.args[3])
  {
    var a := t.args;
    if |a| == 1 {
      assert a == [a[0]];
      Sizes1(a[0]);
    } else if |a| == 2 {
      assert a == [a[0], a[1]];
      Sizes2(a[0], a[1]);
    } else if |a| == 3 {
      assert a == [a[0], a[1], a[2]];
      Sizes3(a[0], a[1], a[2]);
    } else if |a| == 4 {
      assert a == [a[0], a[1], a[2], a[3]];
      Sizes4(a[0], a[1], a[2], a[3]);
    }
  }

  /** The same for longer lists, of which the first three come apart. */
  lemma LongArgsTake(t: Term)
    requires t.Apply? && t.fn.Ident? && |t.args| > 4
    ensures var a := t.args;
            Size(t) == 1 + Size(a[0]) + Size(a[1]) + Size(a[2]) + Sizes(a[3..])
  {
    var a := t.args;
    assert a == [a[0]] + ([a[1]] + ([a[2]] + a[3..]));
    SizesCons(a[0], [a[1]] + ([a[2]] + a[3..]));
    SizesCons(a[1], [a[2]] + a[3..]);
    SizesCons(a[2], a[3..]);
  }

  lemma FewTake(a: seq<Term>)
    ensures |a| == 2 ==> Sizes(a) == Size(a[0]) + Size(a[1])
    ensures |a| == 3 ==> Sizes(a) == Size(a[0]) + Size(a[1]) + Size(a[2])
    ensures |a| == 4 ==> Sizes(a) == Size(a[0]) + Size(a[1]) + Size(a[2]) + Size(a[3])
  {
    hide Size, Sizes;
    if |a| == 2 {
      assert a == [a[0], a[1]];
      Sizes2(a[0], a[1]);
    } else if |a| == 3 {
      assert a == [a[0], a[1], a[2]];
      Sizes3(a[0], a[1], a[2]);
    } else if |a| == 4 {
      assert a == [a[0], a[1], a[2], a[3]];
      Sizes4(a[0], a[1], a[2], a[3]);
    }
  }

  // ---- What reading takes --------------------------------------------------------------------

  lemma {:induction false} TypeTakes(t: Term)
    requires ReadType(t).Some?
    ensures Size(t) == TypeSize(ReadType(t).value)
  {
    if t.Apply? {
      ArgsTake(t);
      var (head, a) := (t.fn.w, t.args[0]);
      if head != "Tnamed" && head != "Tenum" {
        TypeTakes(a);
      }
    }
  }

  lemma WordsTake(t: Term)
    ensures ReadBool(t).Some? || ReadVc(t).Some? || ReadUnOp(t).Some? || ReadBinOp(t).Some? || ReadNat(t).Some?
            ==> Size(t) == 1
  {
  }

  lemma PartsTake(t: Term)
    ensures ReadName(t).Some? ==> Size(t) == 2
    ensures ReadField(t).Some? ==> Size(t) == 3
    ensures ReadScoped(t, "Z").Some? || ReadScoped(t, "N").Some? ==> Size(t) == 3
  {
    if ReadName(t).Some? || ReadField(t).Some? {
      ArgsTake(t);
    }
  }

  lemma {:induction false} UnitsTake(t: Term)
    requires ReadUnits(t).Some?
    ensures Size(t) == 4 * |ReadUnits(t).value| + 1
  {
    if t.Infix? {
      hide ReadScoped;
      PartsTake(t.l);
      UnitsTake(t.r);
    }
  }

  lemma CalleeTakes(t: Term)
    requires ReadCallee(t).Some?
    ensures Size(t) == 5 + TypeSize(ReadCallee(t).value.2)
  {
    ArgsTake(t);
    var parts := t.args[0].parts;
    assert parts == [parts[0], parts[1], parts[2]];
    Sizes3(parts[0], parts[1], parts[2]);
    TypeTakes(parts[2]);
  }

  lemma OptionTakes(t: Term)
    requires ReadOption(t).Some?
    ensures Size(t) == if ReadOption(t).value.Some? then 1 + Size(ReadOption(t).value.value) else 1
  {
    if t != Ident("None") {
      ArgsTake(t);
    }
  }

  /** An expression is read from as many tokens as it has. */
  lemma {:induction false} ExprTakes(t: Term)
    requires ReadExpr(t).Some?
    ensures Size(t) == ESize(ReadExpr(t).value)
    decreases t, 3
  {
    hide ReadExpr1, ReadExpr2, ReadExpr3, ReadExpr4, ReadLong;
    if t != Ident("Enull") {
      if |t.args| == 1 {
        Expr1Takes(t.fn.w, t);
      } else if |t.args| == 2 {
        Expr2Takes(t.fn.w, t);
      } else if |t.args| == 3 {
        Expr3Takes(t.fn.w, t);
      } else if |t.args| == 4 {
        Expr4Takes(t.fn.w, t);
      } else {
        LongTakes(t.fn.w, t);
      }
    }
  }

  // ---- One head at a time --------------------------------------------------------------------

  lemma {:induction false} Expr1Takes(head: string, t: Term)
    requires t.Apply? && t.fn.Ident? && |t.args| == 1 && ReadExpr1(head, t).Some?
    ensures Size(t) == ESize(ReadExpr1(head, t).value)
    decreases t, 1
  {
    hide Size, TypeSize, ReadExpr, ReadType, ReadBool, Around;
    ArgsTake(t);
    var a := t.args[0];
    if head == "Ethis" {
      TypeTakes(a);
    } else if head == "Ebool" {
      WordsTake(a);
    } else {
      ExprTakes(a);
      AroundSize(head, ReadExpr(a).value);
    }
  }

  lemma {:induction false} Expr2Takes(head: string, t: Term)
    requires t.Apply? && t.fn.Ident? && |t.args| == 2 && ReadExpr2(head, t).Some?
    ensures Size(t) == ESize(ReadExpr2(head, t).value)
    decreases t, 2
  {
    hide Size, TypeSize, ReadExpr, ReadTyped, ReadType, ReadVc;
    ArgsTake(t);
    var (a, b) := (t.args[0], t.args[1]);
    if head == "Ecomma" || head == "Eseqand" || head == "Eseqor" {
      ExprTakes(a);
      ExprTakes(b);
    } else if head == "Ematerialize_temp" {
      ExprTakes(a);
      WordsTake(b);
    } else {
      TypeTakes(b);
      TypedTakes(head, t, ReadType(b).value);
    }
  }

  lemma AroundSize(head: string, x: CExpr)
    requires Around(head, x).Some?
    ensures ESize(Around(head, x).value) == 1 + ESize(x)
  {
    hide ESize;
    AroundSizes(x);
  }

  lemma AroundSizes(x: CExpr)
    ensures ESize(EreadRef(x)) == ESize(Eaddrof(x)) == ESize(Eandclean(x)) == ESize(Eimplicit(x)) == 1 + ESize(x)
  {
  }

  lemma OperatedSize(head: string, x: CExpr, ty: CoqType)
    requires Operated(head, x, ty).Some?
    ensures ESize(Operated(head, x, ty).value) == 1 + ESize(x) + TypeSize(ty)
  {
    hide ESize, TypeSize;
    OperatedSizes(x, ty);
  }

  lemma OperatedSizes(x: CExpr, ty: CoqType)
    ensures ESize(Ederef(x, ty)) == 1 + ESize(x) + TypeSize(ty)
    ensures ESize(Epreinc(x, ty)) == ESize(Epostinc(x, ty)) == 1 + ESize(x) + TypeSize(ty)
    ensures ESize(Epredec(x, ty)) == ESize(Epostdec(x, ty)) == 1 + ESize(x) + TypeSize(ty)
  {
    hide ESize, TypeSize;
    DerefSize(x, ty);
    IncSizes(x, ty);
    DecSizes(x, ty);
  }

  lemma DerefSize(x: CExpr, ty: CoqType)
    ensures ESize(Ederef(x, ty)) == 1 + ESize(x) + TypeSize(ty)
  {
    hide TypeSize;
  }

  lemma IncSizes(x: CExpr, ty: CoqType)
    ensures ESize(Epreinc(x, ty)) == ESize(Epostinc(x, ty)) == 1 + ESize(x) + TypeSize(ty)
  {
    hide TypeSize;
  }

  lemma DecSizes(x: CExpr, ty: CoqType)
    ensures ESize(Epredec(x, ty)) == ESize(Epostdec(x, ty)) == 1 + ESize(x) + TypeSize(ty)
  {
    hide TypeSize;
  }

  lemma {:induction false} TypedTakes(head: string, t: Term, ty: CoqType)
    requires t.Apply? && t.fn.Ident? && |t.args| == 2 && ReadTyped(head, t, ty).Some?
    ensures 1 + Size(t.args[0]) + TypeSize(ty) == ESize(ReadTyped(head, t, ty).value)
    decreases t, 1
  {
    hide Size, TypeSize, ReadExpr, ReadScoped, ReadUnits, ReadName, ReadNat, Operated, ESize;
    var a := t.args[0];
    if head == "Eint" || head == "Echar" || head == "Evar" || head == "Estring" || head == "Earrayloop_index" {
      LeafTakes(head, t, ty);
    } else {
      ExprTakes(a);
      OperatedSize(head, ReadExpr(a).value, ty);
    }
  }

  lemma LeafTakes(head: string, t: Term, ty: CoqType)
    requires t.Apply? && t.fn.Ident? && |t.args| == 2 && ReadTyped(head, t, ty).Some?
    requires head == "Eint" || head == "Echar" || head == "Evar" || head == "Estring" || head == "Earrayloop_index"
    ensures 1 + Size(t.args[0]) + TypeSize(ty) == ESize(ReadTyped(head, t, ty).value)
  {
    hide Size, TypeSize, ReadExpr, ReadScoped, ReadUnits, ReadName, ReadNat, Operated;
    var a := t.args[0];
    if head == "Estring" {
      UnitsTake(a);
    } else if head == "Earrayloop_index" {
      WordsTake(a);
    } else {
      PartsTake(a);
    }
  }

  lemma {:induction false} Expr3Takes(head: string, t: Term)
    requires t.Apply? && t.fn.Ident? && |t.args| == 3 && ReadExpr3(head, t).Some?
    ensures Size(t) == ESize(ReadExpr3(head, t).value)
    decreases t, 2
  {
    hide ReadExpr3, ESize, Size;
    if head == "Eunop" {
      UnopTakes(t);
    } else if head == "Eassign" || head == "Esubscript" {
      PairTakes(head, t);
    } else if head == "Ecall" {
      CallTakes(t);
    } else if head == "Econstructor" {
      ConstructorTakes(t);
    } else if head == "Emember" {
      MemberTakes(t);
    } else if head == "Einitlist" {
      InitlistTakes(t);
    } else {
      OpaqueTakes(head, t);
    }
  }

  lemma {:induction false} UnopTakes(t: Term)
    requires t.Apply? && t.fn.Ident? && |t.args| == 3 && ReadExpr3("Eunop", t).Some?
    ensures Size(t) == ESize(ReadExpr3("Eunop", t).value)
    decreases t, 1
  {
    hide Size, TypeSize, ReadExpr, ReadType, ReadUnOp;
    ArgsTake(t);
    TypeTakes(t.args[2]);
    WordsTake(t.args[0]);
    ExprTakes(t.args[1]);
  }

  lemma {:induction false} PairTakes(head: string, t: Term)
    requires t.Apply? && t.fn.Ident? && |t.args| == 3 && ReadExpr3(head, t).Some?
    requires head == "Eassign" || head == "Esubscript"
    ensures Size(t) == ESize(ReadExpr3(head, t).value)
    decreases t, 1
  {
    hide Size, TypeSize, ReadExpr, ReadType;
    ArgsTake(t);
    TypeTakes(t.args[2]);
    ExprTakes(t.args[0]);
    ExprTakes(t.args[1]);
  }

  lemma {:induction false} CallTakes(t: Term)
    requires t.Apply? && t.fn.Ident? && |t.args| == 3 && ReadExpr3("Ecall", t).Some?
    ensures Size(t) == ESize(ReadExpr3("Ecall", t).value)
    decreases t, 1
  {
    hide Size, TypeSize, ReadExpr, ReadType, ReadExprs;
    ArgsTake(t);
    TypeTakes(t.args[2]);
    ExprTakes(t.args[0]);
    ExprsTake(t.args[1]);
  }

  lemma {:induction false} ConstructorTakes(t: Term)
    requires t.Apply? && t.fn.Ident? && |t.args| == 3 && ReadExpr3("Econstructor", t).Some?
    ensures Size(t) == ESize(ReadExpr3("Econstructor", t).value)
    decreases t, 1
  {
    hide Size, TypeSize, ReadExpr, ReadType, ReadExprs;
    ArgsTake(t);
    TypeTakes(t.args[2]);
    LitTakes(t.args[0]);
    ExprsTake(t.args[1]);
  }

  lemma {:induction false} MemberTakes(t: Term)
    requires t.Apply? && t.fn.Ident? && |t.args| == 3 && ReadExpr3("Emember", t).Some?
    ensures Size(t) == ESize(ReadExpr3("Emember", t).value)
    decreases t, 1
  {
    hide Size, TypeSize, ReadExpr, ReadType, ReadField;
    ArgsTake(t);
    TypeTakes(t.args[2]);
    ExprTakes(t.args[0]);
    PartsTake(t.args[1]);
  }

  lemma {:induction false} InitlistTakes(t: Term)
    requires t.Apply? && t.fn.Ident? && |t.args| == 3 && ReadExpr3("Einitlist", t).Some?
    ensures Size(t) == ESize(ReadExpr3("Einitlist", t).value)
    decreases t, 1
  {
    hide Size, TypeSize, ReadExpr, ReadType, ReadExprs, ReadOptExpr;
    ArgsTake(t);
    TypeTakes(t.args[2]);
    ExprsTake(t.args[0]);
    OptExprTakes(t.args[1]);
  }

  lemma {:induction false} OpaqueTakes(head: string, t: Term)
    requires t.Apply? && t.fn.Ident? && |t.args| == 3 && ReadExpr3(head, t).Some?
    requires head != "Eunop" && head != "Eassign" && head != "Esubscript" && head != "Ecall"
    requires head != "Econstructor" && head != "Emember" && head != "Einitlist"
    ensures Size(t) == ESize(ReadExpr3(head, t).value)
    decreases t, 1
  {
    hide Size, TypeSize, ReadExpr, ReadType, ReadExprs, ReadOptExpr, ReadUnOp, ReadField, ReadNat, ReadVc;
    ArgsTake(t);
    TypeTakes(t.args[2]);
    WordsTake(t.args[0]);
    WordsTake(t.args[1]);
  }

  lemma LitTakes(t: Term)
    requires t.Lit? || t.Ident?
    ensures Size(t) == 1
  {
  }

  lemma {:induction false} Expr4Takes(head: string, t: Term)
    requires t.Apply? && t.fn.Ident? && |t.args| == 4 && ReadExpr4(head, t).Some?
    ensures Size(t) == ESize(ReadExpr4(head, t).value)
    decreases t, 2
  {
    hide ReadExpr4, ESize, Size;
    if head == "Ebinop" || head == "Eassign_op" {
      BinopTakes(head, t);
    } else if head == "Emember_call" {
      MemberCallTakes(t);
    } else {
      CastTakes(head, t);
    }
  }

  lemma {:induction false} BinopTakes(head: string, t: Term)
    requires t.Apply? && t.fn.Ident? && |t.args| == 4 && ReadExpr4(head, t).Some?
    requires head == "Ebinop" || head == "Eassign_op"
    ensures Size(t) == ESize(ReadExpr4(head, t).value)
    decreases t, 1
  {
    hide Size, TypeSize, ReadExpr, ReadType, ReadBinOp;
    ArgsTake(t);
    TypeTakes(t.args[3]);
    WordsTake(t.args[0]);
    ExprTakes(t.args[1]);
    ExprTakes(t.args[2]);
  }

  lemma {:induction false} MemberCallTakes(t: Term)
    requires t.Apply? && t.fn.Ident? && |t.args| == 4 && ReadExpr4("Emember_call", t).Some?
    ensures Size(t) == ESize(ReadExpr4("Emember_call", t).value)
    decreases t, 1
  {
    hide Size, TypeSize, ReadExpr, ReadType, ReadCallee, ReadExprs;
    ArgsTake(t);
    TypeTakes(t.args[3]);
    CalleeTakes(t.args[0]);
    ExprTakes(t.args[1]);
    ExprsTake(t.args[2]);
  }

  lemma {:induction false} CastTakes(head: string, t: Term)
    requires t.Apply? && t.fn.Ident? && |t.args| == 4 && ReadExpr4(head, t).Some?
    requires head != "Ebinop" && head != "Eassign_op" && head != "Emember_call"
    ensures Size(t) == ESize(ReadExpr4(head, t).value)
    decreases t, 1
  {
    hide Size, TypeSize, ReadExpr, ReadType, ReadBinOp, ReadCallee, ReadExprs, ReadVc;
    ArgsTake(t);
    TypeTakes(t.args[3]);
    LitTakes(t.args[0]);
    ExprTakes(t.args[1]);
    WordsTake(t.args[2]);
  }

  lemma {:induction false} LongTakes(head: string, t: Term)
    requires t.Apply? && t.fn.Ident? && |t.args| > 4 && ReadLong(head, t).Some?
    ensures Size(t) == ESize(ReadLong(head, t).value)
    decreases t, 2
  {
    hide ReadLong, ESize, Size;
    if head == "Eif" && |t.args| == 5 {
      IfTakes(t);
    } else if head == "Earrayloop_init" && |t.args| == 6 {
      LoopTakes(t);
    } else {
      Eif2Takes(head, t);
    }
  }

  lemma {:induction false} IfTakes(t: Term)
    requires t.Apply? && t.fn.Ident? && |t.args| == 5 && ReadLong("Eif", t).Some?
    ensures Size(t) == ESize(ReadLong("Eif", t).value)
    decreases t, 1
  {
    hide Size, TypeSize, ReadExpr, ReadType, Sizes, ReadVc;
    LongArgsTake(t);
    var args := t.args;
    FewTake(args[3..]);
    ExprTakes(args[0]);
    ExprTakes(args[1]);
    ExprTakes(args[2]);
    WordsTake(args[3]);
    TypeTakes(args[4]);
  }

  lemma LoopParts(t: Term)
    requires t.Apply? && |t.args| == 6 && ReadLong("Earrayloop_init", t).Some?
    ensures var a := t.args;
            && ReadNat(a[0]).Some? && ReadExpr(a[1]).Some? && ReadNat(a[2]).Some? && ReadNat(a[3]).Some?
            && ReadExpr(a[4]).Some? && ReadType(a[5]).Some?
            && ESize(ReadLong("Earrayloop_init", t).value)
               == 4 + ESize(ReadExpr(a[1]).value) + ESize(ReadExpr(a[4]).value) + TypeSize(ReadType(a[5]).value)
  {
    hide TypeSize, ReadExpr, ReadType, ReadNat;
  }

  lemma {:induction false} LoopTakes(t: Term)
    requires t.Apply? && t.fn.Ident? && |t.args| == 6 && ReadLong("Earrayloop_init", t).Some?
    ensures Size(t) == ESize(ReadLong("Earrayloop_init", t).value)
    decreases t, 1
  {
    hide Size, Sizes, TypeSize, ESize, ReadExpr, ReadType, ReadNat, ReadLong;
    LoopParts(t);
    LongArgsTake(t);
    var args := t.args;
    FewTake(args[3..]);
    WordsTake(args[0]);
    ExprTakes(args[1]);
    WordsTake(args[2]);
    WordsTake(args[3]);
    ExprTakes(args[4]);
    TypeTakes(args[5]);
  }

  lemma {:induction false} Eif2Takes(head: string, t: Term)
    requires t.Apply? && t.fn.Ident? && |t.args| > 4 && ReadLong(head, t).Some?
    requires !(head == "Eif" && |t.args| == 5) && !(head == "Earrayloop_init" && |t.args| == 6)
    ensures Size(t) == ESize(ReadLong(head, t).value)
    decreases t, 1
  {
    hide Size, TypeSize, ReadExpr, ReadType, Sizes, ReadNat, ReadVc;
    LongArgsTake(t);
    var args := t.args;
    FewTake(args[3..]);
    WordsTake(args[0]);
    ExprTakes(args[1]);
    ExprTakes(args[2]);
    ExprTakes(args[3]);
    ExprTakes(args[4]);
    WordsTake(args[5]);
    TypeTakes(args[6]);
  }

  lemma {:induction false} ExprsTake(t: Term)
    requires ReadExprs(t).Some?
    ensures Size(t) == ESizes(ReadExprs(t).value)
    decreases t, 4
  {
    hide ReadExpr, ESize;
    if t.Infix? {
      ExprTakes(t.l);
      ExprsTake(t.r);
      var (x, rest) := (ReadExpr(t.l).value, ReadExprs(t.r).value);
      assert ([x] + rest)[1..] == rest;
    }
  }

  lemma {:induction false} OptExprTakes(t: Term)
    requires ReadOptExpr(t).Some?
    ensures Size(t) == OptESize(ReadOptExpr(t).value)
    decreases t, 4
  {
    hide ReadExpr, ESize, Size;
    OptionTakes(t);
    var o := ReadOption(t).value;
    if o.Some? {
      ExprTakes(o.value);
    }
  }

  lemma {:induction false} DeclTakes(t: Term)
    requires ReadDecl(t).Some?
    ensures Size(t) == DSize(ReadDecl(t).value)
    decreases t, 1
  {
    hide Size, TypeSize, ReadExpr, ReadOptExpr, ReadType, ReadDecls, ReadBool, OptESize;
    ArgsTake(t);
    var args := t.args;
    if t.fn.w == "Dvar" {
      LitTakes(args[0]);
      TypeTakes(args[1]);
      OptExprTakes(args[2]);
    } else if t.fn.w == "Dinit" {
      WordsTake(args[0]);
      LitTakes(args[1]);
      TypeTakes(args[2]);
      OptExprTakes(args[3]);
    } else {
      ExprTakes(args[0]);
      LitTakes(args[1]);
      DeclsTake(args[2]);
    }
  }

  lemma {:induction false} DeclsTake(t: Term)
    requires ReadDecls(t).Some?
    ensures Size(t) == DSizes(ReadDecls(t).value)
    decreases t, 2
  {
    hide ReadDecl, DSize;
    if t.Infix? {
      DeclTakes(t.l);
      DeclsTake(t.r);
      var (x, rest) := (ReadDecl(t.l).value, ReadDecls(t.r).value);
      assert ([x] + rest)[1..] == rest;
    }
  }

  lemma OptDeclTakes(t: Term)
    requires ReadOptDecl(t).Some?
    ensures Size(t) == OptDSize(ReadOptDecl(t).value)
  {
    hide ReadDecl, DSize, Size;
    OptionTakes(t);
    var o := ReadOption(t).value;
    if o.Some? {
      DeclTakes(o.value);
    }
  }
}

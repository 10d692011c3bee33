/** What C++ asks of the two places where words may run together: the condition of a `switch` is
    integral or an enumeration, and what an array loop copies is an array. Under these rules the
    words of every statement stay apart. */
module Typing {
  import opened Text
  import opened ClangAst
  import opened CoqTypes
  import opened CoqTerms
  import opened Docs
  import opened DocTerms
  import opened ExprDocs
  import opened ExprReading
  import opened StmtDocs
  import opened CoqExprs
  import opened Translation
  import opened ExprTerms
  import opened DeclTerms
  import opened CoqStmts
  import opened CoqReading
  import opened StmtReading
  import opened StmtTerms
  import opened RoundTrips

  function Plainly(name: string): QualType {
    QualType(false, false, Builtin(name))
  }

  /** The type of an expression, where the tree shows it; there are no array types in it. */
  function TypeOf(e: Expr): Option<QualType> {
    match e
    case NullPtr => Some(Plainly("Tnullptr"))
    case BoolLiteral(_) => Some(Plainly("Tbool"))
    case StringLiteral(_, _) => None
    case Binary(op, _, r, ty) =>
      if op.Comma? then TypeOf(r) else if Restarts(op) then Some(Plainly("Tbool")) else Some(ty)
    case Transparent(sub) => TypeOf(sub)
    case WithCleanups(sub) => TypeOf(sub)
    case MaterializeTemporary(sub, _) => TypeOf(sub)
    case DefaultArg(sub) => TypeOf(sub)
    case _ => Some(e.ty)
  }

  const INTEGRAL: set<string> := {
    "Tbool", "Tchar", "Tschar", "Tuchar", "Twchar", "Tchar8", "Tchar16", "Tchar32", "Tshort", "Tushort",
    "Tint", "Tuint", "Tlong", "Tulong", "Tlonglong", "Tulonglong", "Ti128", "Tu128"
  }

  /** Integral and enumeration types, under any sugar. */
  predicate IsIntegral(qt: QualType) {
    var ty := Canonical(qt).ty;
    ty.EnumTy? || (ty.Builtin? && ty.name in INTEGRAL)
  }

  predicate IsNullptrT(qt: QualType) {
    Canonical(qt).ty == Builtin("Tnullptr")
  }

  /** The condition of a `switch`, after its conversion. */
  predicate SwitchTyped(cond: Expr) {
    TypeOf(cond).Some? && IsIntegral(TypeOf(cond).value)
  }

  /** The source of an array loop has array type; it is no null pointer. */
  predicate SourceTyped(src: Expr) {
    TypeOf(src).Some? ==> !IsNullptrT(TypeOf(src).value)
  }

  predicate Typed(e: Expr) {
    match e
    case Unary(_, sub, _) => Typed(sub)
    case Binary(_, l, r, _) => Typed(l) && Typed(r)
    case Subscript(l, r, _) => Typed(l) && Typed(r)
    case Call(f, xs, _) => Typed(f) && AllTyped(xs)
    case MemberCall(_, _, _, o, xs, _) => Typed(o) && AllTyped(xs)
    case Construct(_, xs, _) => AllTyped(xs)
    case Cast(_, sub, _, _) => Typed(sub)
    case Member(sub, _, _, _, _) => Typed(sub)
    case Conditional(c, t, f, _, _) => Typed(c) && Typed(t) && Typed(f)
    case BinaryConditional(_, m, c, t, f, _, _) => Typed(m) && Typed(c) && Typed(t) && Typed(f)
    case Transparent(sub) => Typed(sub)
    case InitList(xs, filler, _) => AllTyped(xs) && (filler.Some? ==> Typed(filler.value))
    case WithCleanups(sub) => Typed(sub)
    case MaterializeTemporary(sub, _) => Typed(sub)
    case DefaultArg(sub) => Typed(sub)
    case ArrayInitLoop(_, src, _, sub, _) => SourceTyped(src) && Typed(src) && Typed(sub)
    case _ => true
  }

  predicate AllTyped(es: seq<Expr>) {
    es == [] || (Typed(es[0]) && AllTyped(es[1..]))
  }

  predicate DeclTyped(d: LocalDecl) {
    match d
    case VarDecl(_, _, _, init) => init.Some? ==> Typed(init.value)
    case Decomposition(_, source, _, bs) => Typed(source) && BindingsTyped(bs)
    case Unprinted => true
  }

  predicate BindingsTyped(bs: seq<Binding>) {
    bs == [] || (Typed(bs[0].expr) && BindingsTyped(bs[1..]))
  }

  predicate DeclsTyped(ds: seq<LocalDecl>) {
    ds == [] || (DeclTyped(ds[0]) && DeclsTyped(ds[1..]))
  }

  predicate OptTyped(e: Option<Expr>) {
    e.Some? ==> Typed(e.value)
  }

  predicate StmtTyped(s: Stmt) {
    match s
    case DeclStmt(ds) => DeclsTyped(ds)
    case While(v, c, b) => (v.Some? ==> DeclTyped(v.value)) && Typed(c) && StmtTyped(b)
    case For(i, t, n, b) => (i.Some? ==> StmtTyped(i.value)) && OptTyped(t) && OptTyped(n) && StmtTyped(b)
    case Do(b, c) => StmtTyped(b) && Typed(c)
    case If(v, c, t, e) =>
      (v.Some? ==> DeclTyped(v.value)) && Typed(c) && StmtTyped(t) && (e.Some? ==> StmtTyped(e.value))
    case Case(_, _, sub) => StmtTyped(sub)
    case Default(sub) => sub.Some? ==> StmtTyped(sub.value)
    case Switch(v, c, b) => (v.Some? ==> DeclTyped(v.value)) && SwitchTyped(c) && Typed(c) && StmtTyped(b)
    case ExprStmt(e) => Typed(e)
    case Return(e) => OptTyped(e)
    case Compound(items) => ItemsTyped(items)
    case Attributed(_, sub) => StmtTyped(sub)
    case LabelStmt(_, sub) => StmtTyped(sub)
    case _ => true
  }

  predicate ItemsTyped(items: seq<Stmt>) {
    items == [] || (StmtTyped(items[0]) && ItemsTyped(items[1..]))
  }

  /** A bare word has the type of the null pointer literal. */
  lemma {:induction false} BareIsNull(e: Expr)
    requires Bare(e)
    ensures TypeOf(e) == Some(Plainly("Tnullptr"))
    ensures !SwitchTyped(e) && !SourceTyped(e)
  {
    if e.Transparent? {
      BareIsNull(e.sub);
    } else {
      assert Canonical(Plainly("Tnullptr")) == Plainly("Tnullptr");
    }
  }

  lemma {:induction false} TypedApart(e: Expr)
    requires Typed(e)
    ensures Apart(e)
    decreases e, 1
  {
    hide TypeOf, SourceTyped, Bare;
    match e
    case Unary(_, sub, _) => TypedApart(sub);
    case Binary(_, l, r, _) => TypedApart(l); TypedApart(r);
    case Subscript(l, r, _) => TypedApart(l); TypedApart(r);
    case Call(f, xs, _) => TypedApart(f); AllTypedApart(xs);
    case MemberCall(_, _, _, o, xs, _) => TypedApart(o); AllTypedApart(xs);
    case Construct(_, xs, _) => AllTypedApart(xs);
    case Cast(_, sub, _, _) => TypedApart(sub);
    case Member(sub, _, _, _, _) => TypedApart(sub);
    case Conditional(c, t, f, _, _) => TypedApart(c); TypedApart(t); TypedApart(f);
    case BinaryConditional(_, m, c, t, f, _, _) =>
      TypedApart(m); TypedApart(c); TypedApart(t); TypedApart(f);
    case Transparent(sub) => TypedApart(sub);
    case InitList(xs, filler, _) =>
      AllTypedApart(xs);
      if filler.Some? {
        TypedApart(filler.value);
      }
    case WithCleanups(sub) => TypedApart(sub);
    case MaterializeTemporary(sub, _) => TypedApart(sub);
    case DefaultArg(sub) => TypedApart(sub);
    case ArrayInitLoop(_, src, _, sub, _) =>
      if Bare(src) {
        BareIsNull(src);
      }
      TypedApart(src);
      TypedApart(sub);
    case _ =>
  }

  lemma {:induction false} AllTypedApart(es: seq<Expr>)
    requires AllTyped(es)
    ensures AllApart(es)
    decreases es, 0
  {
    if es == [] {
    } else {
      TypedApart(es[0]);
      AllTypedApart(es[1..]);
    }
  }

  lemma {:induction false} BindingsTypedApart(bs: seq<Binding>)
    requires BindingsTyped(bs)
    ensures BindingsApart(bs)
    decreases |bs|
  {
    if bs == [] {
    } else {
      TypedApart(bs[0].expr);
      BindingsTypedApart(bs[1..]);
    }
  }

  lemma DeclTypedApart(d: LocalDecl)
    requires DeclTyped(d)
    ensures DeclApart(d)
  {
    match d
    case VarDecl(_, _, _, init) =>
      if init.Some? {
        TypedApart(init.value);
      }
    case Decomposition(_, source, _, bs) =>
      TypedApart(source);
      BindingsTypedApart(bs);
    case Unprinted =>
  }

  lemma {:induction false} DeclsTypedApart(ds: seq<LocalDecl>)
    requires DeclsTyped(ds)
    ensures DeclsApart(ds)
    decreases |ds|
  {
    if ds == [] {
    } else {
      DeclTypedApart(ds[0]);
      DeclsTypedApart(ds[1..]);
    }
  }

  lemma OptTypedApart(e: Option<Expr>)
    requires OptTyped(e)
    ensures e.Some? ==> Apart(e.value)
  {
    if e.Some? {
      TypedApart(e.value);
    }
  }

  lemma CondVarTypedApart(v: Option<ConditionVar>)
    requires v.Some? ==> DeclTyped(v.value)
    ensures v.Some? ==> DeclApart(v.value)
  {
    if v.Some? {
      DeclTypedApart(v.value);
    }
  }

  /** The words of a well-typed statement stay apart. */
  lemma {:induction false} TypedSeparated(s: Stmt)
    requires StmtTyped(s)
    ensures Separated(s)
    decreases s, 1
  {
    hide Typed, Apart, DeclTyped, DeclApart, OptTyped, SwitchTyped, Bare;
    match s
    case DeclStmt(ds) => DeclsTypedApart(ds);
    case While(v, c, b) => CondVarTypedApart(v); TypedApart(c); TypedSeparated(b);
    case For(i, t, n, b) =>
      if i.Some? {
        TypedSeparated(i.value);
      }
      OptTypedApart(t); OptTypedApart(n); TypedSeparated(b);
    case Do(b, c) => TypedSeparated(b); TypedApart(c);
    case If(v, c, t, e) =>
      CondVarTypedApart(v); TypedApart(c); TypedSeparated(t);
      if e.Some? {
        TypedSeparated(e.value);
      }
    case Case(_, _, sub) => TypedSeparated(sub);
    case Default(sub) =>
      if sub.Some? {
        TypedSeparated(sub.value);
      }
    case Switch(v, c, b) =>
      CondVarTypedApart(v); TypedApart(c); TypedSeparated(b);
      if Bare(c) {
        BareIsNull(c);
      }
    case ExprStmt(e) => TypedApart(e);
    case Return(e) => OptTypedApart(e);
    case Compound(items) => ItemsTypedSeparated(items);
    case Attributed(_, sub) => TypedSeparated(sub);
    case LabelStmt(_, sub) => TypedSeparated(sub);
    case _ =>
  }

  lemma {:induction false} ItemsTypedSeparated(items: seq<Stmt>)
    requires ItemsTyped(items)
    ensures AllSeparated(items)
    decreases items, 0
  {
    if items == [] {
    } else {
      TypedSeparated(items[0]);
      ItemsTypedSeparated(items[1..]);
    }
  }

  // ---- Corollaries ---------------------------------------------------------------------------

  /** The text of a well-typed statement reads back as the flattened statement when its labels
      are placed, and as no statement otherwise. */
  lemma TypedRoundTrip(s: Stmt)
    requires StmtOk(s) && StmtTyped(s)
    ensures ReadProgram(TextOf(s)) == if Placed(s, false) then Some(One(s)) else None
  {
    hide StmtOk, StmtTyped, Placed, Separated, TextOf, One, ReadProgram;
    TypedSeparated(s);
    TextRead(s);
  }

  /** The text of a well-typed expression reads back as the Coq expression for which it stands. */
  lemma TypedExprRoundTrip(e: Expr)
    requires TopOk(e) && Typed(e)
    ensures ReadText(ExprText(e)) == Some(TopTerm(e))
    ensures ReadExprText(ExprText(e)) == Some(TopToCoq(e))
  {
    hide TopOk, Typed, Apart, ReadText, Put, TopDoc, TopTerm, ReadExpr, TopToCoq;
    TypedApart(e);
    ExprRoundTrip(e);
    ExprReadsBack(e);
  }

  /** The layout alone does not keep words apart: on an ill-typed tree, `None` and `Enull` become
      one word. */
  lemma FusedSwitch()
    ensures var s := Switch(None, NullPtr, Break);
            && StmtOk(s) && Placed(s, false) && !StmtTyped(s)
            && ReadProgram(TextOf(s)) != Some(One(s))
  {
    hide TextOf, ReadProgram, One;
    var s := Switch(None, NullPtr, Break);
    BareIsNull(NullPtr);
    assert !Separated(s);
    RoundTrip(s);
  }

  const X_VALUE := Cast("Cl2r", DeclRef(ValueDecl(0, "x", true, false), Plainly("Tint")), Prvalue, Plainly("Tint"))
  const F_CALL := Call(DeclRef(ValueDecl(1, "f", false, false), Plainly("Tvoid")), [], Plainly("Tvoid"))

  /** `switch (x) case 1: f();` */
  const LONE_CASE := Switch(None, X_VALUE, Case(1, None, ExprStmt(F_CALL)))

  lemma ConditionOk()
    ensures TopOk(X_VALUE) && Typed(X_VALUE) && SwitchTyped(X_VALUE)
  {
    assert Canonical(Plainly("Tint")) == Plainly("Tint");
    assert ExprOk({}, -1, X_VALUE.sub);
  }

  lemma CallOk()
    ensures TopOk(F_CALL) && Typed(F_CALL)
  {
    assert ExprOk({}, -1, F_CALL.callee);
    assert ExprsOk({}, -1, []);
    assert AllTyped([]);
  }

  lemma ExprStmtOk(e: Expr)
    requires TopOk(e) && Typed(e)
    ensures StmtOk(ExprStmt(e)) && StmtTyped(ExprStmt(e))
  {
    hide TopOk, Typed;
  }

  lemma LoneCaseOk(c: Expr, sub: Stmt)
    requires TopOk(c) && Typed(c) && SwitchTyped(c) && StmtOk(sub) && StmtTyped(sub)
    ensures var s := Switch(None, c, Case(1, None, sub));
            StmtOk(s) && StmtTyped(s) && !Placed(s, false)
  {
    hide TopOk, Typed, SwitchTyped;
    assert StmtOk(Case(1, None, sub)) && StmtTyped(Case(1, None, sub));
  }

  /** Valid C++ whose text is not read back: the label carries the `switch` into a list cell. */
  lemma LoneCaseLost()
    ensures StmtOk(LONE_CASE) && StmtTyped(LONE_CASE) && !Placed(LONE_CASE, false)
    ensures ReadProgram(TextOf(LONE_CASE)) == None
  {
    hide TextOf, ReadProgram, StmtOk, StmtTyped, Placed, TopOk, Typed, SwitchTyped;
    ConditionOk();
    CallOk();
    ExprStmtOk(F_CALL);
    LoneCaseOk(X_VALUE, ExprStmt(F_CALL));
    TypedRoundTrip(LONE_CASE);
  }
}

/** The visitors for local declarations of src/PrintLocalDecl.cpp. */
module PrintLocalDecls {
  import opened Text
  import opened Formatters
  import opened Names
  import opened ClangAst
  import opened CoqTypes
  import opened Docs
  import opened ExprDocs
  import opened StmtDocs
  import opened CoqPrinters
  import opened PrintTypes
  import opened PrintExprs
  import opened Binders

  /** An expression printed in an environment of its own. */
  method PrintTop(e: Expr, coq: CoqPrinter)
    modifies coq.output
    ensures coq.output.St() == Put(old(coq.output.St()), TopDoc(e))
    ensures coq.output.depth == old(coq.output.depth)
  {
    var names := new OpaqueNames();
    PrintExpr(e, coq, names);
  }

  method PrintSome(e: Expr, coq: CoqPrinter, names: OpaqueNames)
    modifies coq.output, names
    ensures coq.output.St() == Put(old(coq.output.St()), SomeDoc(ExprDoc(old(names.View()), e).0))
    ensures names.View() == ExprDoc(old(names.View()), e).1
    ensures coq.output.depth == old(coq.output.depth)
  {
    hide ExprDoc;
    ghost var st := coq.output.St();
    ghost var d := ExprDoc(names.View(), e).0;
    coq.Ctor("Some", true);
    PrintExpr(e, coq, names);
    PutEnd(coq.output.St());
    coq.EndCtor();
    PutCtor1(st, true, "Some", d, END);
  }

  method PrintNone(coq: CoqPrinter)
    modifies coq.output
    ensures coq.output.St() == Put(old(coq.output.St()), NONE_DOC)
    ensures coq.output.depth == old(coq.output.depth)
  {
    coq.output.Put("None");
  }

  lemma PutTrailing(st: State)
    ensures PutArgs(st, Done(SP)) == Step(st, Nbsp)
  {
    assert Nbspd(Step(st, Nbsp), 0) == Step(st, Nbsp);
  }

  method VisitVarDecl(d: LocalDecl, coq: CoqPrinter)
    requires d.VarDecl?
    modifies coq.output
    ensures coq.output.St() == Put(old(coq.output.St()), VarDoc(d))
    ensures coq.output.depth == old(coq.output.depth)
  {
    hide ExprDoc, Step, Written, SomeDoc;
    ghost var st := coq.output.St();
    var names := new OpaqueNames();
    match d.storage {
      case StaticLocal(safe) =>
        coq.Ctor("Dinit", true);
        PutWord(coq.output.St(), if safe then "true" else "false");
        coq.Boolean(safe);
        coq.output.AddNbsp();
        PutQuoted(coq.output.St(), d.name);
        coq.Str(d.name);
        coq.output.AddNbsp();
      case Automatic =>
        coq.Ctor("Dvar", true);
        PutQuoted(coq.output.St(), d.name);
        coq.Str(d.name);
        coq.output.AddNbsp();
    }
    PrintQualType(d.ty, coq);
    ghost var st1 := coq.output.St();
    coq.output.AddNbsp();
    match d.init {
      case Some(init) =>
        PrintSome(init, coq, names);
        PutEnd(coq.output.St());
        PutArg(st1, SomeDoc(ExprDoc(NO_NAMES, init).0), END);
      case None =>
        PrintNone(coq);
        PutTrailing(coq.output.St());
        coq.output.AddNbsp();
        PutArg(st1, NONE_DOC, Done(SP));
    }
    coq.EndCtor();
    VarDocPut(st, d);
  }

  /** The variable's document, argument by argument up to its initializer. */
  lemma VarDocPut(st: State, d: LocalDecl)
    requires d.VarDecl?
    ensures Put(st, VarDoc(d)) ==
      match d.storage
      case Automatic =>
        Rparen(PutArgs(Put(Step(Put(Opened(st, "Dvar", true), DQuoted(d.name)), Nbsp),
          TypeDoc(Printed(d.ty))), InitArgs(NO_NAMES, d.init)))
      case StaticLocal(safe) =>
        Rparen(PutArgs(Put(Step(Put(Step(Put(Opened(st, "Dinit", true),
          DWord(if safe then "true" else "false")), Nbsp), DQuoted(d.name)), Nbsp),
          TypeDoc(Printed(d.ty))), InitArgs(NO_NAMES, d.init)))
  {
    hide InitArgs;
    var rest := InitArgs(NO_NAMES, d.init);
    match d.storage
    case Automatic => PutCtor2(st, true, "Dvar", DQuoted(d.name), QualDoc(d.ty), rest);
    case StaticLocal(safe) =>
      PutCtor3(st, true, "Dinit", DWord(if safe then "true" else "false"), DQuoted(d.name),
               QualDoc(d.ty), rest);
  }

  method PrintBindings(d: LocalDecl, coq: CoqPrinter, names: OpaqueNames)
    requires d.Decomposition?
    modifies coq.output, names
    ensures coq.output.St()
         == Put(old(coq.output.St()), ListDoc(BindingDocs(old(names.View()), d.ty, d.bindings)))
    ensures names.anonymous == old(names.anonymous)
    ensures coq.output.depth == old(coq.output.depth)
  {
    hide ExprDoc, Lparen, SomeDoc;
    ghost var st := coq.output.St();
    var bs := d.bindings;
    ghost var docs := BindingDocs(names.View(), d.ty, bs);
    if |bs| == 0 {
      PutWord(st, "nil");
      coq.output.Put("nil");
      return;
    }
    coq.BeginList();
    ghost var st1 := coq.output.St();
    var i := 0;
    assert bs[0..] == bs;
    while i < |bs|
      invariant 0 <= i <= |bs|
      invariant PutItems(coq.output.St(), BindingDocs(names.View(), d.ty, bs[i..])) == PutItems(st1, docs)
      invariant names.anonymous == old(names.anonymous)
      invariant coq.output.depth == st1.depth
    {
      ghost var cur := coq.output.St();
      ghost var env := names.View();
      PrintBinding(bs[i], d.ty, coq, names);
      coq.Cons();
      assert bs[i..][1..] == bs[i + 1..];
      ghost var (x, next) := ExprDoc(env, bs[i].expr);
      PutItemsStep(cur, BindingDoc(x, d.ty, bs[i].name), BindingDocs(next, d.ty, bs[i + 1..]));
      i := i + 1;
    }
    coq.EndList();
    PutDList(st, docs);
  }

  method PrintBinding(b: Binding, ty: QualType, coq: CoqPrinter, names: OpaqueNames)
    modifies coq.output, names
    ensures coq.output.St()
         == Put(old(coq.output.St()), BindingDoc(ExprDoc(old(names.View()), b.expr).0, ty, b.name))
    ensures names.View() == ExprDoc(old(names.View()), b.expr).1
    ensures names.anonymous == old(names.anonymous)
    ensures coq.output.depth == old(coq.output.depth)
  {
    hide ExprDoc;
    ghost var st := coq.output.St();
    ghost var x := ExprDoc(names.View(), b.expr).0;
    EnvRestored(names.View(), b.expr);
    coq.Ctor("Dvar", true);
    PutQuoted(coq.output.St(), b.name);
    coq.Str(b.name);
    coq.output.AddNbsp();
    PrintQualType(ty, coq);
    coq.output.AddNbsp();
    PrintSome(b.expr, coq, names);
    PutEnd(coq.output.St());
    coq.EndCtor();
    PutCtor3(st, true, "Dvar", DQuoted(b.name), QualDoc(ty), SomeDoc(x), END);
  }

  method VisitDecompositionDecl(d: LocalDecl, coq: CoqPrinter)
    requires d.Decomposition?
    modifies coq.output
    ensures coq.output.St() == Put(old(coq.output.St()), DecompositionDoc(d))
    ensures coq.output.depth == old(coq.output.depth)
  {
    hide ExprDoc, Written;
    ghost var st := coq.output.St();
    var names := new OpaqueNames();
    EnvRestored(NO_NAMES, d.source);
    coq.Ctor("Ddecompose", true);
    PrintExpr(d.source, coq, names);
    var index := names.PushAnon(d.id);
    coq.output.AddNbsp();
    PutAnon(coq.output.St(), index);
    coq.output.Put("\"$");
    coq.output.Put(Decimal(index));
    coq.output.Put("\"");
    coq.output.AddNbsp();
    ghost var docs := BindingDocs(names.View(), d.ty, d.bindings);
    PrintBindings(d, coq, names);
    names.PopAnon(d.id);
    PutEnd(coq.output.St());
    coq.EndCtor();
    PutCtor3(st, true, "Ddecompose", ExprDoc(NO_NAMES, d.source).0, DAnon(index), ListDoc(docs), END);
  }

  lemma PutAnon(st: State, n: nat)
    ensures Put(st, DAnon(n)) == Written(Written(Written(st, "\"$"), Decimal(n)), "\"")
  {
  }

  /** Whether anything was printed. */
  method PrintLocalDecl(d: LocalDecl, coq: CoqPrinter) returns (printed: bool)
    modifies coq.output
    ensures printed == LocalDoc(d).Some?
    ensures coq.output.St() == if printed then Put(old(coq.output.St()), LocalDoc(d).value)
                               else old(coq.output.St())
    ensures coq.output.depth == old(coq.output.depth)
  {
    hide VarDoc, DecompositionDoc;
    match d
    case VarDecl(_, _, _, _) =>
      VisitVarDecl(d, coq);
      return true;
    case Decomposition(_, _, _, _) =>
      VisitDecompositionDecl(d, coq);
      return true;
    case Unprinted =>
      return false;
  }
}

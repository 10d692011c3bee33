/** Whole expressions and local declarations read back. */
module DeclTerms {
  import opened Text
  import opened Names
  import opened ClangAst
  import opened CoqTerms
  import opened CoqTypes
  import opened Docs
  import opened DocTerms
  import opened CoqTypeReading
  import opened ExprDocs
  import opened Binders
  import opened ExprReading
  import opened StmtDocs
  import opened StmtReading
  import opened CoqExprs
  import opened Translation
  import opened ExprTerms

  function TopTerm(e: Expr): Term {
    TermOf(TopDoc(e))
  }

  lemma TopRead(e: Expr)
    requires TopOk(e)
    ensures Reads(TopDoc(e), TopToCoq(e))
  {
    hide Reads, ExprDoc, ToCoq, ExprOk;
    ExprRead(NO_NAMES, {}, e);
  }

  lemma OptExprRead(e: Option<Expr>)
    requires e.Some? ==> TopOk(e.value)
    ensures ReadOptExpr(TermOf(OptExprDoc(e))) == Some(OptToCoq(e)) && !OptExprDoc(e).DJoin?
  {
    hide ReadOptExpr, TermOf, ReadExpr, TopDoc, TopToCoq, TopOk;
    NoneRead();
    if e.Some? {
      TopRead(e.value);
      SomeRead(TopDoc(e.value), TopToCoq(e.value));
    }
  }

  lemma VarHead(a: Term, b: Term, c: Term, ty: CoqType, init: Option<CExpr>, safe: bool)
    requires a.Lit? && ReadType(b) == Some(ty) && ReadOptExpr(c) == Some(init)
    ensures ReadDecl(Apply(Ident("Dvar"), [a, b, c])) == Some(Dvar(a.s, ty, init))
    ensures ReadDecl(Apply(Ident("Dinit"), [Ident(if safe then "true" else "false"), a, b, c]))
         == Some(Dinit(safe, a.s, ty, init))
  {
    hide ReadType, ReadOptExpr, ReadExpr;
  }

  lemma VarRead(d: LocalDecl)
    requires d.VarDecl? && DeclOk(d)
    ensures ReadDecl(TermOf(VarDoc(d))) == DeclToCoq(d) && !VarDoc(d).DJoin?
  {
    hide TermOf, ReadDecl, ReadType, ReadOptExpr, ReadExpr, OptToCoq, TopDoc, TopOk;
    var x := OptExprDoc(d.init);
    OptExprRead(d.init);
    QualTermRead(d.ty);
    QuotedTerm(d.name);
    var safe := d.storage.StaticLocal? && d.storage.threadSafe;
    var w := if safe then "true" else "false";
    WordTerm(w);
    VarHead(Lit(d.name), TermOf(QualDoc(d.ty)), TermOf(x), Printed(d.ty), OptToCoq(d.init), safe);
    VarTerms(DQuoted(d.name), QualDoc(d.ty), x, DWord(w), if d.init.Some? then Tight else SP);
    InitIs(d.init);
  }

  lemma InitIs(init: Option<Expr>)
    ensures InitArgs(NO_NAMES, init) == Arg(OptExprDoc(init), Done(if init.Some? then Tight else SP))
  {
  }

  lemma VarTerms(a: Doc, b: Doc, c: Doc, w: Doc, g: Gap)
    requires !a.DJoin? && !b.DJoin? && !c.DJoin? && !w.DJoin?
    ensures TermOf(DCtor(true, "Dvar", Arg0(a, Arg(b, Arg(c, Done(g))))))
         == Apply(Ident("Dvar"), [TermOf(a), TermOf(b), TermOf(c)])
    ensures TermOf(DCtor(true, "Dinit", Arg0(w, Arg(a, Arg(b, Arg(c, Done(g)))))))
         == Apply(Ident("Dinit"), [TermOf(w), TermOf(a), TermOf(b), TermOf(c)])
  {
    hide TermOf, Group, Behind;
    var rest := Arg(b, Arg(c, Done(g)));
    NoMore(g);
    OneMore(SP, c, Done(g));
    OneMore(SP, b, Arg(c, Done(g)));
    assert [TermOf(b)] + ([TermOf(c)] + []) == [TermOf(b), TermOf(c)];
    OneMore(Tight, a, rest);
    OneMore(SP, a, rest);
    assert [TermOf(a)] + [TermOf(b), TermOf(c)] == [TermOf(a), TermOf(b), TermOf(c)];
    OneMore(Tight, w, Arg(a, rest));
    assert [TermOf(w)] + [TermOf(a), TermOf(b), TermOf(c)] == [TermOf(w), TermOf(a), TermOf(b), TermOf(c)];
    CtorTerm(true, "Dvar", Arg0(a, rest));
    CtorTerm(true, "Dinit", Arg0(w, Arg(a, rest)));
  }

  lemma BindingRead(env: Env, ty: QualType, b: Binding)
    requires InScope(env, {}) && env.count == -1 && TopOk(b.expr)
    ensures var d := BindingDoc(ExprDoc(env, b.expr).0, ty, b.name);
            ReadDecl(TermOf(d)) == Some(Dvar(b.name, Printed(ty), Some(ToCoq(env, b.expr)))) && !d.DJoin?
  {
    hide TermOf, ReadDecl, ReadType, ReadOptExpr, ReadExpr, ExprDoc, ToCoq;
    var x := ExprDoc(env, b.expr).0;
    ExprRead(env, {}, b.expr);
    SomeRead(x, ToCoq(env, b.expr));
    QualTermRead(ty);
    QuotedTerm(b.name);
    VarHead(Lit(b.name), TermOf(QualDoc(ty)), TermOf(SomeDoc(x)), Printed(ty), Some(ToCoq(env, b.expr)), false);
    Terms3(true, "Dvar", Tight, DQuoted(b.name), SP, QualDoc(ty), SP, SomeDoc(x));
  }

  lemma {:induction false} BindingsRead(env: Env, ty: QualType, bs: seq<Binding>)
    requires InScope(env, {}) && env.count == -1
    requires forall i :: 0 <= i < |bs| ==> TopOk(bs[i].expr)
    ensures var d := ListDoc(BindingDocs(env, ty, bs));
            !d.DJoin? && ReadDecls(TermOf(d)) == Some(BindingsToCoq(env, ty, bs))
    decreases |bs|
  {
    hide ExprDoc, ToCoq, TermOf, ReadDecl, TopOk, BindingDoc, Bound;
    WordTerm("nil");
    if bs == [] {
    } else {
      BindingRead(env, ty, bs[0]);
      StepInto(env, bs[0].expr, {});
      Appends(env, bs[0].expr);
      var env1 := Past(env, bs[0].expr);
      BindingsRead(env1, ty, bs[1..]);
      var (docs, rest) := (BindingDocs(env, ty, bs), BindingDocs(env1, ty, bs[1..]));
      assert docs[1..] == rest;
      FirstItem(docs);
      EmptyList();
    }
  }

  lemma DecompositionRead(d: LocalDecl)
    requires d.Decomposition? && DeclOk(d)
    ensures ReadDecl(TermOf(DecompositionDoc(d))) == DeclToCoq(d) && !DecompositionDoc(d).DJoin?
  {
    hide TermOf, ReadDecls, ReadExpr, ExprDoc, ToCoq, ListDoc, Bound;
    TopRead(d.source);
    Appends(NO_NAMES, d.source);
    assert [] + Bound(d.source) == Bound(d.source);
    var bound := Env(Bound(d.source), [d.id], -1);
    assert NO_NAMES.anonymous + [d.id] == [d.id];
    BindingsRead(bound, d.ty, d.bindings);
    AnonTerm(0);
    assert "$" + Decimal(0) == ANONYMOUS;
    var (a, b) := (TopDoc(d.source), ListDoc(BindingDocs(bound, d.ty, d.bindings)));
    Terms3(true, "Ddecompose", Tight, a, SP, DAnon(0), SP, b);
  }

  lemma LocalRead(d: LocalDecl)
    requires DeclOk(d)
    ensures DeclToCoq(d).Some? <==> LocalDoc(d).Some?
    ensures LocalDoc(d).Some? ==> ReadDecl(TermOf(LocalDoc(d).value)) == DeclToCoq(d) && !LocalDoc(d).value.DJoin?
  {
    hide TermOf, ReadDecl, VarDoc, DecompositionDoc;
    match d
    case VarDecl(_, _, _, _) => VarRead(d);
    case Decomposition(_, _, _, _) => DecompositionRead(d);
    case Unprinted =>
  }

  /** The declarations of a statement, in their order and without those that are skipped. */
  lemma {:induction false} LocalsRead(ds: seq<LocalDecl>)
    requires forall i :: 0 <= i < |ds| ==> DeclOk(ds[i])
    ensures ReadDecls(TermOf(DList(LocalDocs(ds)))) == Some(DeclsToCoq(ds))
    decreases |ds|
  {
    hide TermOf, ReadDecl, LocalDoc, DeclToCoq, DeclOk;
    if ds == [] {
      EmptyList();
      WordTerm("nil");
    } else {
      LocalsRead(ds[1..]);
      LocalRead(ds[0]);
      var rest := LocalDocs(ds[1..]);
      if LocalDoc(ds[0]).Some? {
        var docs := LocalDocs(ds);
        assert docs == [LocalDoc(ds[0]).value] + rest;
        assert docs[1..] == rest;
        FirstItem(docs);
      } else {
        assert LocalDocs(ds) == rest;
        assert [] + DeclsToCoq(ds[1..]) == DeclsToCoq(ds[1..]);
      }
    }
  }

  lemma CondVarRead(v: Option<ConditionVar>)
    requires v.Some? ==> DeclOk(v.value)
    ensures ReadOptDecl(TermOf(CondVarDoc(v))) == Some(CondVarToCoq(v)) && !CondVarDoc(v).DJoin?
  {
    hide TermOf, ReadDecl, VarDoc, DeclOk;
    WordTerm("None");
    if v.Some? {
      VarRead(v.value);
      Terms1(true, "Some", Tight, VarDoc(v.value), Tight);
    }
  }
}

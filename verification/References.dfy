/** Which name every reference carries. References are taken in the order in which they are
    written; one below a comma, `&&` or `||` is printed in an environment of its own. */
module References {
  import opened Text
  import opened Names
  import opened ClangAst
  import opened CoqTerms
  import opened CoqTypes
  import opened Docs
  import opened DocTerms
  import opened ExprDocs
  import opened Binders
  import opened StmtDocs
  import opened StmtReading
  import opened CoqExprs
  import opened Translation
  import opened DeclTerms

  /** A reference, and whether it is printed in an environment of its own. */
  datatype Ref = Ref(decl: ValueDecl, restarted: bool)

  function Refs(e: Expr, restarted: bool): seq<Ref>
    decreases e, 1
  {
    match e
    case DeclRef(decl, _) => [Ref(decl, restarted)]
    case Unary(_, sub, _) => Refs(sub, restarted)
    case Binary(op, l, r, _) =>
      var within := restarted || op.Comma? || op.LAnd? || op.LOr?;
      Refs(l, within) + Refs(r, within)
    case Subscript(l, r, _) => Refs(l, restarted) + Refs(r, restarted)
    case Call(f, xs, _) => Refs(f, restarted) + AllRefs(xs, restarted)
    case MemberCall(_, _, _, o, xs, _) => Refs(o, restarted) + AllRefs(xs, restarted)
    case Construct(_, xs, _) => AllRefs(xs, restarted)
    case Cast(_, sub, _, _) => Refs(sub, restarted)
    case Member(sub, _, _, _, _) => Refs(sub, restarted)
    case Conditional(c, t, f, _, _) => Refs(c, restarted) + (Refs(t, restarted) + Refs(f, restarted))
    case BinaryConditional(_, m, c, t, f, _, _) =>
      Refs(m, restarted) + (Refs(c, restarted) + (Refs(t, restarted) + Refs(f, restarted)))
    case Transparent(sub) => Refs(sub, restarted)
    case InitList(xs, filler, _) =>
      AllRefs(xs, restarted) + (if filler.Some? then Refs(filler.value, restarted) else [])
    case WithCleanups(sub) => Refs(sub, restarted)
    case MaterializeTemporary(sub, _) => Refs(sub, restarted)
    case DefaultArg(sub) => Refs(sub, restarted)
    case ArrayInitLoop(_, source, _, sub, _) => Refs(source, restarted) + Refs(sub, restarted)
    case _ => []
  }

  function AllRefs(es: seq<Expr>, restarted: bool): seq<Ref>
    decreases es, 0
  {
    if es == [] then [] else Refs(es[0], restarted) + AllRefs(es[1..], restarted)
  }

  /** The names in a Coq expression, from left to right. */
  function NamesIn(c: CExpr): seq<CName>
    decreases c, 1
  {
    match c
    case Evar(name, _) => [name]
    case EreadRef(x) => NamesIn(x)
    case Eunop(_, x, _) => NamesIn(x)
    case Ederef(x, _) => NamesIn(x)
    case Eaddrof(x) => NamesIn(x)
    case Epreinc(x, _) => NamesIn(x)
    case Epostinc(x, _) => NamesIn(x)
    case Epredec(x, _) => NamesIn(x)
    case Epostdec(x, _) => NamesIn(x)
    case Ebinop(_, l, r, _) => NamesIn(l) + NamesIn(r)
    case Eassign(l, r, _) => NamesIn(l) + NamesIn(r)
    case EassignOp(_, l, r, _) => NamesIn(l) + NamesIn(r)
    case Ecomma(l, r) => NamesIn(l) + NamesIn(r)
    case Eseqand(l, r) => NamesIn(l) + NamesIn(r)
    case Eseqor(l, r) => NamesIn(l) + NamesIn(r)
    case Esubscript(l, r, _) => NamesIn(l) + NamesIn(r)
    case Ecall(f, xs, _) => NamesIn(f) + AllNamesIn(xs)
    case EmemberCall(_, _, _, x, xs, _) => NamesIn(x) + AllNamesIn(xs)
    case Econstructor(_, xs, _) => AllNamesIn(xs)
    case Ecast(_, x, _, _) => NamesIn(x)
    case Emember(x, _, _, _) => NamesIn(x)
    case Eif(c, x, y, _, _) => NamesIn(c) + (NamesIn(x) + NamesIn(y))
    case Eif2(_, m, c, x, y, _, _) => NamesIn(m) + (NamesIn(c) + (NamesIn(x) + NamesIn(y)))
    case Einitlist(xs, filler, _) => AllNamesIn(xs) + (if filler.Some? then NamesIn(filler.value) else [])
    case Eandclean(x) => NamesIn(x)
    case EmaterializeTemp(x, _) => NamesIn(x)
    case Eimplicit(x) => NamesIn(x)
    case EarrayloopInit(_, s, _, _, x, _) => NamesIn(s) + NamesIn(x)
    case _ => []
  }

  function AllNamesIn(cs: seq<CExpr>): seq<CName>
    decreases cs, 0
  {
    if cs == [] then [] else NamesIn(cs[0]) + AllNamesIn(cs[1..])
  }

  /** The name that a reference carries below declarations on the anonymous stack. */
  function NameOfRef(stack: seq<nat>, r: Ref): CName {
    NameOf(Env([], if r.restarted then [] else stack, -1), r.decl)
  }

  function NamesOf(stack: seq<nat>, refs: seq<Ref>): seq<CName> {
    seq(|refs|, i requires 0 <= i < |refs| => NameOfRef(stack, refs[i]))
  }

  lemma NamesAppend(stack: seq<nat>, a: seq<Ref>, b: seq<Ref>)
    ensures NamesOf(stack, a + b) == NamesOf(stack, a) + NamesOf(stack, b)
  {
  }

  lemma NoNames(stack: seq<nat>)
    ensures NamesOf(stack, []) == []
  {
  }

  /** The environment is the one in which references are printed. */
  predicate Stacked(env: Env, stack: seq<nat>, restarted: bool) {
    env.anonymous == if restarted then [] else stack
  }

  // ---- One node at a time, for proofs that hide the rest -------------------------------------

  lemma Eif2Coq(env: Env, e: Expr)
    requires e.BinaryConditional?
    ensures ToCoq(env, e) == Eif2ToCoq(env, e)
  {
    hide Eif2ToCoq;
  }

  lemma Eif2Names(n: int, m: CExpr, c: CExpr, x: CExpr, y: CExpr, vc: ValCat, ty: CoqType)
    ensures NamesIn(Eif2(n, m, c, x, y, vc, ty)) == NamesIn(m) + (NamesIn(c) + (NamesIn(x) + NamesIn(y)))
  {
  }

  lemma Eif2Refs(e: Expr, restarted: bool)
    requires e.BinaryConditional?
    ensures Refs(e, restarted) ==
            Refs(e.common, restarted) + (Refs(e.cond, restarted) + (Refs(e.thn, restarted) + Refs(e.els, restarted)))
  {
  }

  lemma LoopCoq(env: Env, e: Expr)
    requires e.ArrayInitLoop?
    ensures ToCoq(env, e) == LoopToCoq(env, e)
  {
    hide LoopToCoq;
  }

  lemma InitListCoq(env: Env, e: Expr)
    requires e.InitList?
    ensures var env1 := WithNumbers(env, BoundAll(e.args));
            var filler := if e.filler.Some? then Some(ToCoq(env1, e.filler.value)) else None;
            ToCoq(env, e) == Einitlist(AllToCoq(env, e.args), filler, Printed(e.ty))
  {
    hide WithNumbers, Printed;
  }

  lemma WrapperCoq(env: Env, e: Expr)
    requires IsWrapper(e)
    ensures NamesIn(ToCoq(env, e)) == NamesIn(ToCoq(env, e.sub))
  {
    hide Printed, UnaryOf, ReadThrough, ToCoq;
    WrapperIs(env, e);
    match e
    case Unary(op, sub, ty) => UnaryNames(op, ToCoq(env, sub), Printed(ty));
    case Member(sub, record, field, reference, ty) =>
      ThroughNames(reference, Emember(ToCoq(env, sub), record, field, Printed(ty)));
    case _ =>
  }

  lemma WrapperIs(env: Env, e: Expr)
    requires IsWrapper(e)
    ensures var x := ToCoq(env, e.sub);
            match e
            case Unary(op, _, ty) => ToCoq(env, e) == UnaryOf(op, x, Printed(ty))
            case Cast(kind, _, vc, ty) => ToCoq(env, e) == Ecast(kind, x, vc, Printed(ty))
            case Member(_, record, field, reference, ty) =>
              ToCoq(env, e) == ReadThrough(reference, Emember(x, record, field, Printed(ty)))
            case WithCleanups(_) => ToCoq(env, e) == Eandclean(x)
            case MaterializeTemporary(_, vc) => ToCoq(env, e) == EmaterializeTemp(x, vc)
            case DefaultArg(_) => ToCoq(env, e) == Eimplicit(x)
            case _ => ToCoq(env, e) == x
  {
    hide Printed, UnaryOf, ReadThrough;
  }

  lemma UnaryNames(op: UnaryOp, x: CExpr, ty: CoqType)
    ensures NamesIn(UnaryOf(op, x, ty)) == NamesIn(x)
  {
  }

  lemma ThroughNames(reference: bool, x: CExpr)
    ensures NamesIn(ReadThrough(reference, x)) == NamesIn(x)
  {
  }

  lemma WrapperRefs(e: Expr, restarted: bool)
    requires IsWrapper(e)
    ensures Refs(e, restarted) == Refs(e.sub, restarted)
  {
  }

  // ---- Names of references -------------------------------------------------------------------

  lemma NamesOne(stack: seq<nat>, r: Ref)
    ensures NamesOf(stack, [r]) == [NameOfRef(stack, r)]
  {
  }

  lemma DeclRefNamed(env: Env, stack: seq<nat>, restarted: bool, e: Expr)
    requires e.DeclRef? && Stacked(env, stack, restarted)
    ensures NamesIn(ToCoq(env, e)) == NamesOf(stack, Refs(e, restarted))
  {
    hide NamesOf, ReadThrough, Printed;
    var v := Evar(NameOf(env, e.decl), Printed(e.ty));
    assert ToCoq(env, e) == ReadThrough(e.decl.reference, v);
    ThroughNames(e.decl.reference, v);
    NamesOne(stack, Ref(e.decl, restarted));
    assert NameOf(env, e.decl) == NameOfRef(stack, Ref(e.decl, restarted));
  }

  /** Nodes without references. */
  lemma LeafNamed(env: Env, stack: seq<nat>, restarted: bool, e: Expr)
    requires IsLeaf(e) && !e.Binary? && !e.DeclRef?
    ensures NamesIn(ToCoq(env, e)) == NamesOf(stack, Refs(e, restarted))
  {
    hide NamesOf, Printed;
    NoNames(stack);
  }

  lemma {:induction false} WrapperNamed(env: Env, stack: seq<nat>, restarted: bool, e: Expr)
    requires IsWrapper(e) && Stacked(env, stack, restarted)
    ensures NamesIn(ToCoq(env, e)) == NamesOf(stack, Refs(e, restarted))
    decreases e, 0
  {
    hide NamesOf, NamesIn, Refs, ToCoq;
    RefsNamed(env, stack, restarted, e.sub);
    WrapperCoq(env, e);
    WrapperRefs(e, restarted);
  }

  lemma {:induction false} RestartedNamed(env: Env, stack: seq<nat>, restarted: bool, e: Expr)
    requires e.Binary? && Restarts(e.bop) && Stacked(env, stack, restarted)
    ensures NamesIn(ToCoq(env, e)) == NamesOf(stack, Refs(e, restarted))
    decreases e, 0
  {
    hide NamesOf, NameOf, Bound;
    RefsNamed(NO_NAMES, stack, true, e.lhs);
    RefsNamed(NO_NAMES, stack, true, e.rhs);
    NamesAppend(stack, Refs(e.lhs, true), Refs(e.rhs, true));
  }

  lemma {:induction false} BinaryNamed(env: Env, stack: seq<nat>, restarted: bool, e: Expr)
    requires e.Binary? && !Restarts(e.bop) && Stacked(env, stack, restarted)
    ensures NamesIn(ToCoq(env, e)) == NamesOf(stack, Refs(e, restarted))
    decreases e, 0
  {
    hide NamesOf, NameOf, Bound;
    RefsNamed(env, stack, restarted, e.lhs);
    RefsNamed(Past(env, e.lhs), stack, restarted, e.rhs);
    NamesAppend(stack, Refs(e.lhs, restarted), Refs(e.rhs, restarted));
  }

  lemma {:induction false} SubscriptNamed(env: Env, stack: seq<nat>, restarted: bool, e: Expr)
    requires e.Subscript? && Stacked(env, stack, restarted)
    ensures NamesIn(ToCoq(env, e)) == NamesOf(stack, Refs(e, restarted))
    decreases e, 0
  {
    hide NamesOf, NameOf, Bound;
    RefsNamed(env, stack, restarted, e.lhs);
    RefsNamed(Past(env, e.lhs), stack, restarted, e.rhs);
    NamesAppend(stack, Refs(e.lhs, restarted), Refs(e.rhs, restarted));
  }

  lemma {:induction false} CallNamed(env: Env, stack: seq<nat>, restarted: bool, e: Expr)
    requires e.Call? && Stacked(env, stack, restarted)
    ensures NamesIn(ToCoq(env, e)) == NamesOf(stack, Refs(e, restarted))
    decreases e, 0
  {
    hide NamesOf, NameOf, Bound;
    RefsNamed(env, stack, restarted, e.callee);
    AllRefsNamed(Past(env, e.callee), stack, restarted, e.args);
    NamesAppend(stack, Refs(e.callee, restarted), AllRefs(e.args, restarted));
  }

  lemma {:induction false} MemberCallNamed(env: Env, stack: seq<nat>, restarted: bool, e: Expr)
    requires e.MemberCall? && Stacked(env, stack, restarted)
    ensures NamesIn(ToCoq(env, e)) == NamesOf(stack, Refs(e, restarted))
    decreases e, 0
  {
    hide NamesOf, NameOf, Bound;
    RefsNamed(env, stack, restarted, e.receiver);
    AllRefsNamed(Past(env, e.receiver), stack, restarted, e.args);
    NamesAppend(stack, Refs(e.receiver, restarted), AllRefs(e.args, restarted));
  }

  lemma {:induction false} ConditionalNamed(env: Env, stack: seq<nat>, restarted: bool, e: Expr)
    requires e.Conditional? && Stacked(env, stack, restarted)
    ensures NamesIn(ToCoq(env, e)) == NamesOf(stack, Refs(e, restarted))
    decreases e, 0
  {
    hide NamesOf, NameOf, Bound;
    var env1 := Past(env, e.cond);
    RefsNamed(env, stack, restarted, e.cond);
    RefsNamed(env1, stack, restarted, e.thn);
    RefsNamed(Past(env1, e.thn), stack, restarted, e.els);
    NamesAppend(stack, Refs(e.thn, restarted), Refs(e.els, restarted));
    NamesAppend(stack, Refs(e.cond, restarted), Refs(e.thn, restarted) + Refs(e.els, restarted));
  }

  lemma {:induction false} Eif2Named(env: Env, stack: seq<nat>, restarted: bool, e: Expr)
    requires e.BinaryConditional? && Stacked(env, stack, restarted)
    ensures NamesIn(ToCoq(env, e)) == NamesOf(stack, Refs(e, restarted))
    decreases e, 0
  {
    hide NamesOf, NameOf, Bound, ToCoq, NamesIn, Refs;
    Eif2Coq(env, e);
    Eif2Refs(e, restarted);
    var env0 := WithNumbers(env, [e.opaque_]);
    var env1 := Inside(Past(env0, e.common));
    var env2 := Past(env1, e.cond);
    RefsNamed(env0, stack, restarted, e.common);
    RefsNamed(env1, stack, restarted, e.cond);
    RefsNamed(env2, stack, restarted, e.thn);
    RefsNamed(Past(env2, e.thn), stack, restarted, e.els);
    var (m, c) := (Refs(e.common, restarted), Refs(e.cond, restarted));
    var (t, f) := (Refs(e.thn, restarted), Refs(e.els, restarted));
    NamesAppend(stack, t, f);
    NamesAppend(stack, c, t + f);
    NamesAppend(stack, m, c + (t + f));
    Eif2Names(|env.indexes|, ToCoq(env0, e.common), ToCoq(env1, e.cond), ToCoq(env2, e.thn),
              ToCoq(Past(env2, e.thn), e.els), e.vc, Printed(e.ty));
  }

  lemma {:induction false} InitListNamed(env: Env, stack: seq<nat>, restarted: bool, e: Expr)
    requires e.InitList? && Stacked(env, stack, restarted)
    ensures NamesIn(ToCoq(env, e)) == NamesOf(stack, Refs(e, restarted))
    decreases e, 0
  {
    hide NamesOf, NameOf, Bound, ToCoq;
    InitListCoq(env, e);
    AllRefsNamed(env, stack, restarted, e.args);
    NoNames(stack);
    var rest := if e.filler.Some? then Refs(e.filler.value, restarted) else [];
    if e.filler.Some? {
      RefsNamed(WithNumbers(env, BoundAll(e.args)), stack, restarted, e.filler.value);
    }
    NamesAppend(stack, AllRefs(e.args, restarted), rest);
  }

  lemma {:induction false} LoopNamed(env: Env, stack: seq<nat>, restarted: bool, e: Expr)
    requires e.ArrayInitLoop? && Stacked(env, stack, restarted)
    ensures NamesIn(ToCoq(env, e)) == NamesOf(stack, Refs(e, restarted))
    decreases e, 0
  {
    hide NamesOf, NameOf, Bound, ToCoq;
    LoopCoq(env, e);
    var env0 := WithNumbers(env, [e.opaque_]);
    RefsNamed(env0, stack, restarted, e.source);
    RefsNamed(Inside(Past(env0, e.source)), stack, restarted, e.sub);
    NamesAppend(stack, Refs(e.source, restarted), Refs(e.sub, restarted));
  }

  /** Every reference carries the name that its declaration has at that place. */
  lemma {:induction false} RefsNamed(env: Env, stack: seq<nat>, restarted: bool, e: Expr)
    requires Stacked(env, stack, restarted)
    ensures NamesIn(ToCoq(env, e)) == NamesOf(stack, Refs(e, restarted))
    decreases e, 1
  {
    hide NamesIn, ToCoq, NamesOf, Refs;
    if IsWrapper(e) {
      WrapperNamed(env, stack, restarted, e);
      return;
    }
    match e
    case Binary(op, _, _, _) =>
      if Restarts(op) {
        RestartedNamed(env, stack, restarted, e);
      } else {
        BinaryNamed(env, stack, restarted, e);
      }
    case Subscript(_, _, _) => SubscriptNamed(env, stack, restarted, e);
    case Call(_, _, _) => CallNamed(env, stack, restarted, e);
    case MemberCall(_, _, _, _, _, _) => MemberCallNamed(env, stack, restarted, e);
    case Construct(_, _, _) => ConstructNamed(env, stack, restarted, e);
    case Conditional(_, _, _, _, _) => ConditionalNamed(env, stack, restarted, e);
    case BinaryConditional(_, _, _, _, _, _, _) => Eif2Named(env, stack, restarted, e);
    case InitList(_, _, _) => InitListNamed(env, stack, restarted, e);
    case ArrayInitLoop(_, _, _, _, _) => LoopNamed(env, stack, restarted, e);
    case DeclRef(_, _) => DeclRefNamed(env, stack, restarted, e);
    case _ => LeafNamed(env, stack, restarted, e);
  }

  lemma {:induction false} ConstructNamed(env: Env, stack: seq<nat>, restarted: bool, e: Expr)
    requires e.Construct? && Stacked(env, stack, restarted)
    ensures NamesIn(ToCoq(env, e)) == NamesOf(stack, Refs(e, restarted))
    decreases e, 0
  {
    hide NamesOf, NameOf, Bound;
    AllRefsNamed(env, stack, restarted, e.args);
  }

  lemma {:induction false} AllRefsNamed(env: Env, stack: seq<nat>, restarted: bool, es: seq<Expr>)
    requires Stacked(env, stack, restarted)
    ensures AllNamesIn(AllToCoq(env, es)) == NamesOf(stack, AllRefs(es, restarted))
    decreases es, 0
  {
    hide NamesIn, ToCoq, NamesOf, Refs, Bound;
    NoNames(stack);
    if es == [] {
    } else {
      var env1 := Past(env, es[0]);
      RefsNamed(env, stack, restarted, es[0]);
      AllRefsNamed(env1, stack, restarted, es[1..]);
      NamesAppend(stack, Refs(es[0], restarted), AllRefs(es[1..], restarted));
      assert AllToCoq(env, es)[1..] == AllToCoq(env1, es[1..]);
    }
  }

  // ---- Decompositions ------------------------------------------------------------------------

  /** The names in the initializer of a binding. */
  function InitNames(d: CDecl): seq<CName> {
    if !d.Ddecompose? && d.init.Some? then NamesIn(d.init.value) else []
  }

  /** References to a local variable that happens to have the name. */
  predicate Clashes(r: Ref, name: string) {
    r.decl.local && r.decl.name == name
  }

  lemma {:induction false} BindingsNamed(env: Env, stack: seq<nat>, ty: QualType, bs: seq<Binding>)
    requires env.anonymous == stack
    ensures var ds := BindingsToCoq(env, ty, bs);
            |ds| == |bs| && forall j :: 0 <= j < |bs| ==> InitNames(ds[j]) == NamesOf(stack, Refs(bs[j].expr, false))
    decreases |bs|
  {
    hide NamesIn, ToCoq, NamesOf, Refs, Bound;
    if bs == [] {
    } else {
      RefsNamed(env, stack, false, bs[0].expr);
      BindingsNamed(Past(env, bs[0].expr), stack, ty, bs[1..]);
      assert BindingsToCoq(env, ty, bs)[1..] == BindingsToCoq(Past(env, bs[0].expr), ty, bs[1..]);
    }
  }

  lemma AnonymousIff(id: nat, r: Ref)
    ensures NameOfRef([id], r) == Lname(ANONYMOUS) <==>
            (r.decl.id == id && !r.restarted) || Clashes(r, ANONYMOUS)
    ensures NameOfRef([], r) == Lname(ANONYMOUS) <==> Clashes(r, ANONYMOUS)
  {
    assert "$" + Decimal(0) == ANONYMOUS;
    if r.decl.id == id && !r.restarted {
      assert IndexOf([id], id) == 0;
    }
  }

  /** A decomposition reads back as a declaration whose name is carried by the references to the
      decomposition among its bindings and by no others, local variables of the same name and
      operands of comma, `&&` and `||` aside. */
  lemma DecompositionNamed(d: LocalDecl)
    requires d.Decomposition? && DeclOk(d)
    ensures var c := ReadDecl(TermOf(DecompositionDoc(d)));
            && c.Some? && c.value.Ddecompose? && |c.value.bindings| == |d.bindings|
            && (forall j, i :: 0 <= j < |d.bindings| && 0 <= i < |Refs(d.bindings[j].expr, false)| ==>
                  var (names, r) := (InitNames(c.value.bindings[j]), Refs(d.bindings[j].expr, false)[i]);
                  && |names| == |Refs(d.bindings[j].expr, false)|
                  && (names[i] == Lname(c.value.name) <==>
                      (r.decl.id == d.id && !r.restarted) || Clashes(r, c.value.name)))
            && |NamesIn(c.value.source)| == |Refs(d.source, false)|
            && (forall i :: 0 <= i < |Refs(d.source, false)| ==>
                  (NamesIn(c.value.source)[i] == Lname(c.value.name) <==>
                   Clashes(Refs(d.source, false)[i], c.value.name)))
  {
    hide TermOf, DecompositionDoc, ReadDecl, NamesIn, Refs, NameOfRef, ToCoq, Bound, DeclOk, Clashes;
    DecompositionRead(d);
    RefsNamed(NO_NAMES, [], false, d.source);
    BindingsNamed(Env(Bound(d.source), [d.id], -1), [d.id], d.ty, d.bindings);
    forall r: Ref
      ensures NameOfRef([d.id], r) == Lname(ANONYMOUS) <==>
              (r.decl.id == d.id && !r.restarted) || Clashes(r, ANONYMOUS)
      ensures NameOfRef([], r) == Lname(ANONYMOUS) <==> Clashes(r, ANONYMOUS)
    {
      AnonymousIff(d.id, r);
    }
  }
}

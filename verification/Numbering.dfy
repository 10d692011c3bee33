/** Binder numbering: an expression is printed, with numbers handed out on the way, exactly as it
    would be if every binder knew its number, and every loop its level, in advance. */
module Numbering {
  import opened Text
  import opened Names
  import opened ClangAst
  import opened CoqTypes
  import opened Docs
  import opened ExprDocs
  import opened Binders

  /** References are to opaque values in scope. Operands that are printed in a fresh environment
      are not looked into. */
  predicate Scoped(scope: set<nat>, e: Expr)
    decreases e, 1
  {
    match e
    case Transparent(sub) => Scoped(scope, sub)
    case Unary(_, sub, _) => Scoped(scope, sub)
    case Binary(op, l, r, _) => Restarts(op) || (Scoped(scope, l) && Scoped(scope, r))
    case Subscript(l, r, _) => Scoped(scope, l) && Scoped(scope, r)
    case Call(f, xs, _) => Scoped(scope, f) && ScopedAll(scope, xs)
    case MemberCall(_, _, _, o, xs, _) => Scoped(scope, o) && ScopedAll(scope, xs)
    case Construct(_, xs, _) => ScopedAll(scope, xs)
    case Cast(_, sub, _, _) => Scoped(scope, sub)
    case Member(sub, _, _, _, _) => Scoped(scope, sub)
    case Conditional(c, t, f, _, _) => Scoped(scope, c) && Scoped(scope, t) && Scoped(scope, f)
    case BinaryConditional(o, m, c, t, f, _, _) =>
      Scoped(scope, m) && Scoped(scope + {o}, c) && Scoped(scope + {o}, t) && Scoped(scope + {o}, f)
    case InitList(xs, filler, _) => ScopedAll(scope, xs) && (filler.Some? ==> Scoped(scope, filler.value))
    case WithCleanups(sub) => Scoped(scope, sub)
    case MaterializeTemporary(sub, _) => Scoped(scope, sub)
    case DefaultArg(sub) => Scoped(scope, sub)
    case ArrayInitLoop(o, source, _, sub, _) => Scoped(scope, source) && Scoped(scope + {o}, sub)
    case OpaqueValue(o, _, _) => o in scope
    case _ => true
  }

  predicate ScopedAll(scope: set<nat>, es: seq<Expr>)
    decreases es, 0
  {
    es == [] || (Scoped(scope, es[0]) && ScopedAll(scope, es[1..]))
  }

  /** No part of an `Eif2` other than the common one lies between an index and its innermost
      loop; `clear` says that none has been entered since that loop. */
  predicate Straight(e: Expr, clear: bool)
    decreases e, 1
  {
    match e
    case Transparent(sub) => Straight(sub, clear)
    case Unary(_, sub, _) => Straight(sub, clear)
    case Binary(op, l, r, _) => Restarts(op) || (Straight(l, clear) && Straight(r, clear))
    case Subscript(l, r, _) => Straight(l, clear) && Straight(r, clear)
    case Call(f, xs, _) => Straight(f, clear) && StraightAll(xs, clear)
    case MemberCall(_, _, _, o, xs, _) => Straight(o, clear) && StraightAll(xs, clear)
    case Construct(_, xs, _) => StraightAll(xs, clear)
    case Cast(_, sub, _, _) => Straight(sub, clear)
    case Member(sub, _, _, _, _) => Straight(sub, clear)
    case Conditional(c, t, f, _, _) => Straight(c, clear) && Straight(t, clear) && Straight(f, clear)
    case BinaryConditional(_, m, c, t, f, _, _) =>
      Straight(m, clear) && Straight(c, false) && Straight(t, false) && Straight(f, false)
    case InitList(xs, filler, _) => StraightAll(xs, clear) && (filler.Some? ==> Straight(filler.value, clear))
    case WithCleanups(sub) => Straight(sub, clear)
    case MaterializeTemporary(sub, _) => Straight(sub, clear)
    case DefaultArg(sub) => Straight(sub, clear)
    case ArrayInitLoop(_, source, _, sub, _) => Straight(source, clear) && Straight(sub, true)
    case ArrayInitIndex(_) => clear
    case _ => true
  }

  predicate StraightAll(es: seq<Expr>, clear: bool)
    decreases es, 0
  {
    es == [] || (Straight(es[0], clear) && StraightAll(es[1..], clear))
  }

  /** Everything that is known in advance: the number of every opaque value, the stack of
      anonymous declarations, how many loops and conditionals are around, and the level of the
      innermost loop, -1 outside loops. */
  datatype Known = Known(numbers: seq<nat>, anonymous: seq<nat>, depth: int, loop: int)

  function Number(k: Known, id: nat): int {
    IndexOf(k.numbers, id)
  }

  /** One level further in, under a conditional or in a loop. */
  function Deeper(k: Known): Known {
    k.(depth := k.depth + 1)
  }

  function InLoop(k: Known): Known {
    k.(depth := k.depth + 1, loop := k.depth + 1)
  }

  /** The document of an expression when numbers and levels are known. */
  function Ideal(k: Known, e: Expr): Doc
    decreases e, 1
  {
    match e
    case Transparent(sub) => Ideal(k, sub)
    case Unary(op, sub, ty) =>
      DCtor(true, UnaryHead(op),
        if op.AddrOf? then Arg0(Ideal(k, sub), END)
        else if IsUnop(op) then Arg0(DWord(UnopName(op)), Arg(Ideal(k, sub), TypeArg(ty)))
        else Arg0(Ideal(k, sub), TypeArg(ty)))
    case Binary(op, l, r, ty) =>
      if Restarts(op) then SequencedDoc(NO_NAMES, e).0
      else
        var (a, b) := (Ideal(k, l), Arg(Ideal(k, r), TypeArg(ty)));
        (match op
         case Assign => DCtor(true, "Eassign", Arg0(a, b))
         case CompoundAssign(x) => DCtor(true, "Eassign_op", Arg0(DWord(ArithName(x)), Arg(a, b)))
         case Arith(x) => DCtor(true, "Ebinop", Arg0(DWord(ArithName(x)), Arg(a, b))))
    case Subscript(l, r, ty) => DCtor(true, "Esubscript", Arg0(Ideal(k, l), Arg(Ideal(k, r), TypeArg(ty))))
    case Call(f, xs, ty) =>
      DCtor(true, "Ecall", Arg0(Ideal(k, f), More(Broken, ListDoc(IdealAll(k, xs)), TypeArg(ty))))
    case MemberCall(name, virtually, mty, o, xs, ty) =>
      DCtor(true, "Emember_call",
        Arg0(CalleeDoc(name, virtually, mty), Arg(Ideal(k, o), Arg(ListDoc(IdealAll(k, xs)), TypeArg(ty)))))
    case Construct(name, xs, ty) =>
      DCtor(true, "Econstructor", Arg0(DQuoted(name), Arg(ListDoc(IdealAll(k, xs)), TypeArg(ty))))
    case Cast(kind, sub, vc, ty) => DCtor(true, "Ecast", Arg0(DWord(kind), Arg(Ideal(k, sub), VcTypeArgs(vc, ty))))
    case Member(sub, record, field, reference, ty) =>
      var m := DCtor(true, "Emember", Arg0(Ideal(k, sub), Arg(FieldDoc(record, field), TypeArg(ty))));
      if reference then DCtor(true, "Eread_ref", Arg0(m, END)) else m
    case Conditional(c, t, f, vc, ty) =>
      DCtor(true, "Eif", Arg0(Ideal(k, c), Arg(Ideal(k, t), Arg(Ideal(k, f), VcTypeArgs(vc, ty)))))
    case BinaryConditional(o, m, c, t, f, vc, ty) =>
      DCtor(true, "Eif2", Arg0(DWord(Signed(Number(k, o))), Arg(Ideal(k, m),
        Arg(Ideal(Deeper(k), c), Arg(Ideal(Deeper(k), t), Arg(Ideal(Deeper(k), f), VcTypeArgs(vc, ty)))))))
    case InitList(xs, filler, ty) =>
      DCtor(true, "Einitlist", Arg0(ListDoc(IdealAll(k, xs)),
        Arg(match filler { case Some(x) => SomeDoc(Ideal(k, x)) case None => NONE_DOC }, TypeArg(ty))))
    case WithCleanups(sub) => DCtor(true, "Eandclean", Arg0(Ideal(k, sub), END))
    case MaterializeTemporary(sub, vc) => DCtor(true, "Ematerialize_temp", Arg0(Ideal(k, sub), Arg(VcDoc(vc), END)))
    case DefaultArg(sub) => DCtor(true, "Eimplicit", Arg0(Ideal(k, sub), END))
    case ArrayInitLoop(o, source, size, sub, ty) =>
      DCtor(true, "Earrayloop_init", Arg0(DWord(Signed(Number(k, o))), Arg(Ideal(k, source),
        Arg0(DWord(Signed(InLoop(k).loop)), Arg(NatDoc(size), Arg(Ideal(InLoop(k), sub), TypeArg(ty)))))))
    case OpaqueValue(o, vc, ty) => DCtor(true, "Eopaque_ref", Arg0(DWord(Signed(Number(k, o))), VcTypeArgs(vc, ty)))
    case ArrayInitIndex(ty) =>
      DCtor(true, "Earrayloop_index", Arg0(DWord(Signed(k.loop)), More(Nbsps(2), QualDoc(ty), END)))
    case _ => ExprDoc(Env([], k.anonymous, -1), e).0
  }

  function IdealAll(k: Known, es: seq<Expr>): (ds: seq<Doc>)
    ensures |ds| == |es|
    decreases es, 0
  {
    if es == [] then [] else [Ideal(k, es[0])] + IdealAll(k, es[1..])
  }

  // ---- Numbers and levels ----------------------------------------------------------------------

  ghost predicate Distinct(s: seq<nat>) {
    forall i, j :: 0 <= i < j < |s| ==> s[i] != s[j]
  }

  /** What is known agrees with the environment, and `more` is numbered next. */
  ghost predicate Agrees(k: Known, env: Env, more: seq<nat>) {
    && env.indexes + more <= k.numbers
    && k.anonymous == env.anonymous && k.depth == env.count && k.loop <= k.depth
  }

  /** Opaque values numbered from `from` on, each for the first time. */
  ghost predicate FirstUses(numbers: seq<nat>, from: nat, more: seq<nat>) {
    forall i :: 0 <= i < |more| ==> IndexOf(numbers, more[i]) == from + i
  }

  ghost predicate Fresh(k: Known, env: Env, more: seq<nat>) {
    FirstUses(k.numbers, |env.indexes|, more)
  }

  lemma FirstUsesSplit(numbers: seq<nat>, from: nat, a: seq<nat>, b: seq<nat>)
    ensures FirstUses(numbers, from, a + b) <==>
            FirstUses(numbers, from, a) && FirstUses(numbers, from + |a|, b)
  {
    var ab := a + b;
    assert forall i :: 0 <= i < |a| ==> ab[i] == a[i];
    assert forall i :: 0 <= i < |b| ==> ab[|a| + i] == b[i];
    if FirstUses(numbers, from, ab) {
      forall i | 0 <= i < |b|
        ensures IndexOf(numbers, b[i]) == from + |a| + i
      {
        assert IndexOf(numbers, ab[|a| + i]) == from + |a| + i;
      }
    }
    if FirstUses(numbers, from, a) && FirstUses(numbers, from + |a|, b) {
      forall i | 0 <= i < |ab|
        ensures IndexOf(numbers, ab[i]) == from + i
      {
        if i >= |a| {
          assert ab[i] == b[i - |a|];
        }
      }
    }
  }

  lemma NoneFresh(k: Known, env: Env)
    ensures Fresh(k, env, [])
  {
  }

  /** All are numbered for the first time exactly when they are distinct. */
  lemma FirstUsesIff(numbers: seq<nat>)
    ensures FirstUses(numbers, 0, numbers) <==> Distinct(numbers)
  {
    if Distinct(numbers) {
      forall i | 0 <= i < |numbers|
        ensures IndexOf(numbers, numbers[i]) == i
      {
        forall j | 0 <= j < i
          ensures numbers[..i][j] != numbers[i]
        {
        }
        IndexOfUnique(numbers, numbers[i], i);
      }
    }
  }

  ghost predicate Covers(env: Env, scope: set<nat>) {
    forall o <- scope :: o in env.indexes
  }

  lemma FirstOf(k: Known, env: Env, a: seq<nat>, b: seq<nat>)
    requires Agrees(k, env, a + b)
    ensures Agrees(k, env, a)
  {
    Regroup(env.indexes, a, b);
    assert env.indexes + a <= env.indexes + a + b;
  }

  /** After an expression what is known still agrees, and what was in scope is. */
  lemma After(k: Known, env: Env, e: Expr, rest: seq<nat>, scope: set<nat>)
    requires Agrees(k, env, Bound(e) + rest) && Covers(env, scope)
    ensures Agrees(k, ExprDoc(env, e).1, rest) && Covers(ExprDoc(env, e).1, scope)
    ensures Fresh(k, env, Bound(e) + rest) <==> Fresh(k, env, Bound(e)) && Fresh(k, ExprDoc(env, e).1, rest)
  {
    hide ExprDoc, Bound, FirstUses;
    FirstUsesSplit(k.numbers, |env.indexes|, Bound(e), rest);
    Appends(env, e);
    Regroup(env.indexes, Bound(e), rest);
  }

  lemma AfterAll(k: Known, env: Env, es: seq<Expr>, rest: seq<nat>, scope: set<nat>)
    requires Agrees(k, env, BoundAll(es) + rest) && Covers(env, scope)
    ensures Agrees(k, ArgDocs(env, es).1, rest) && Covers(ArgDocs(env, es).1, scope)
    ensures Fresh(k, env, BoundAll(es) + rest) <==> Fresh(k, env, BoundAll(es)) && Fresh(k, ArgDocs(env, es).1, rest)
  {
    hide ArgDocs, BoundAll, FirstUses;
    FirstUsesSplit(k.numbers, |env.indexes|, BoundAll(es), rest);
    AppendsAll(env, es);
    Regroup(env.indexes, BoundAll(es), rest);
  }

  /** A binder is numbered by its position. */
  lemma BinderNumber(k: Known, env: Env, id: nat, rest: seq<nat>)
    requires Agrees(k, env, [id] + rest)
    ensures Agrees(k, env.(indexes := env.indexes + [id]), rest)
    ensures Fresh(k, env, [id] + rest) <==>
            Number(k, id) == |env.indexes| && Fresh(k, env.(indexes := env.indexes + [id]), rest)
  {
    Regroup(env.indexes, [id], rest);
    FirstUsesSplit(k.numbers, |env.indexes|, [id], rest);
  }

  lemma BinderScope(env: Env, id: nat, scope: set<nat>)
    requires Covers(env, scope)
    ensures var env' := env.(indexes := env.indexes + [id]);
            Covers(env', scope) && Covers(env', scope + {id})
  {
  }

  lemma OneDeeper(k: Known, env: Env, more: seq<nat>)
    requires Agrees(k, env, more)
    ensures var env' := env.(count := env.count + 1);
            && Agrees(Deeper(k), env', more) && Agrees(InLoop(k), env', more)
            && k.loop <= k.depth == env.count
  {
  }

  lemma SameScope(env: Env, scope: set<nat>)
    requires Covers(env, scope)
    ensures Covers(env.(count := env.count + 1), scope)
  {
  }

  lemma ReferenceNumber(k: Known, env: Env, id: nat)
    requires Agrees(k, env, []) && id in env.indexes
    ensures Number(k, id) == IndexOf(env.indexes, id)
  {
    assert env.indexes + [] == env.indexes;
    var rest := k.numbers[|env.indexes|..];
    assert env.indexes + rest == k.numbers;
    IndexOfAppend(env.indexes, rest, id);
  }

  lemma SignedHead(a: int)
    ensures Signed(a) != "" && (Signed(a)[0] == '-' <==> a < 0)
  {
  }

  lemma SignedNat(n: nat)
    ensures NatDoc(n) == DWord(Signed(n))
  {
  }

  lemma SignedCases(a: int)
    ensures a < 0 ==> Signed(a) == "-" + Decimal(-a) && Signed(a)[1..] == Decimal(-a)
    ensures a >= 0 ==> Signed(a) == Decimal(a)
  {
    hide Decimal;
  }

  lemma SignedInjective(a: int, b: int)
    ensures Signed(a) == Signed(b) <==> a == b
  {
    SignedHead(a);
    SignedHead(b);
    SignedCases(a);
    SignedCases(b);
    hide Signed, Decimal;
    if Signed(a) == Signed(b) {
      if a < 0 {
        DecimalInjective(-a, -b);
      } else {
        DecimalInjective(a, b);
      }
    }
  }

  /** Printing with numbers handed out on the way gives the document in which every binder and
      every reference carries its own number and every index the level of its innermost loop,
      exactly when no conditional lies between an index and its loop and no binder occurs twice. */
  lemma {:induction false} Numbered(k: Known, env: Env, scope: set<nat>, e: Expr)
    requires Agrees(k, env, Bound(e)) && Covers(env, scope) && Scoped(scope, e)
    ensures ExprDoc(env, e).0 == Ideal(k, e) <==> Straight(e, k.loop == k.depth) && Fresh(k, env, Bound(e))
    decreases e, 2
  {
    hide ExprDoc, Bound, Scoped, Straight, Ideal, Agrees, FirstUses;
    if IsWrapper(e) {
      WrapperNumbered(k, env, scope, e);
      return;
    }
    match e
    case Binary(op, _, _, _) =>
      if Restarts(op) {
        LeafNumbered(k, env, scope, e);
      } else {
        BinaryNumbered(k, env, scope, e);
      }
    case Subscript(_, _, _) => SubscriptNumbered(k, env, scope, e);
    case Call(_, _, _) => CallNumbered(k, env, scope, e);
    case MemberCall(_, _, _, _, _, _) => MemberCallNumbered(k, env, scope, e);
    case Construct(_, _, _) => ConstructNumbered(k, env, scope, e);
    case Conditional(_, _, _, _, _) => ConditionalNumbered(k, env, scope, e);
    case BinaryConditional(_, _, _, _, _, _, _) => Eif2Numbered(k, env, scope, e);
    case InitList(_, _, _) => InitListNumbered(k, env, scope, e);
    case ArrayInitLoop(_, _, _, _, _) => LoopNumbered(k, env, scope, e);
    case _ => LeafNumbered(k, env, scope, e);
  }

  lemma OpaqueNumbered(k: Known, env: Env, scope: set<nat>, e: Expr)
    requires e.OpaqueValue? && Agrees(k, env, Bound(e)) && Covers(env, scope) && Scoped(scope, e)
    ensures ExprDoc(env, e).0 == Ideal(k, e)
  {
    hide ExprDoc, Signed;
    OpaqueNode(env, e);
    ReferenceNumber(k, env, e.opaque_);
  }

  lemma IndexNumbered(k: Known, env: Env, e: Expr)
    requires e.ArrayInitIndex? && k.depth == env.count
    ensures ExprDoc(env, e).0 == Ideal(k, e) <==> k.loop == k.depth
  {
    hide ExprDoc, Signed;
    ArrayIndexNode(env, e);
    SignedInjective(k.loop, k.depth);
  }

  lemma SequencedNumbered(k: Known, env: Env, e: Expr)
    requires e.Binary? && Restarts(e.bop)
    ensures ExprDoc(env, e).0 == Ideal(k, e)
  {
    hide ExprDoc;
    SequencedNode(env, e);
  }

  /** These do not depend on numbers and levels at all. */
  lemma FixedNumbered(k: Known, env: Env, e: Expr)
    requires e.NullPtr? || e.BoolLiteral? || e.IntegerLiteral? || e.CharacterLiteral? || e.StringLiteral?
          || e.This? || e.DeclRef?
    requires k.anonymous == env.anonymous
    ensures ExprDoc(env, e).0 == Ideal(k, e)
  {
  }

  lemma LeafNumbered(k: Known, env: Env, scope: set<nat>, e: Expr)
    requires IsLeaf(e) && Agrees(k, env, Bound(e)) && Covers(env, scope) && Scoped(scope, e)
    ensures ExprDoc(env, e).0 == Ideal(k, e) <==> Straight(e, k.loop == k.depth) && Fresh(k, env, Bound(e))
  {
    hide ExprDoc, Ideal;
    if e.OpaqueValue? {
      OpaqueNumbered(k, env, scope, e);
    } else if e.ArrayInitIndex? {
      IndexNumbered(k, env, e);
    } else if e.Binary? {
      SequencedNumbered(k, env, e);
    } else {
      FixedNumbered(k, env, e);
    }
  }

  lemma {:induction false} WrapperNumbered(k: Known, env: Env, scope: set<nat>, e: Expr)
    requires IsWrapper(e)
    requires Agrees(k, env, Bound(e)) && Covers(env, scope) && Scoped(scope, e)
    ensures ExprDoc(env, e).0 == Ideal(k, e) <==> Straight(e, k.loop == k.depth) && Fresh(k, env, Bound(e))
    decreases e, 1
  {
    hide Agrees, Covers, FirstUses, ExprDoc;
    WrapperNode(env, e);
    Numbered(k, env, scope, e.sub);
  }

  lemma {:induction false} BinaryNumbered(k: Known, env: Env, scope: set<nat>, e: Expr)
    requires e.Binary? && !Restarts(e.bop)
    requires Agrees(k, env, Bound(e)) && Covers(env, scope) && Scoped(scope, e)
    ensures ExprDoc(env, e).0 == Ideal(k, e) <==> Straight(e, k.loop == k.depth) && Fresh(k, env, Bound(e))
    decreases e, 1
  {
    hide Agrees, Covers, FirstUses, ExprDoc;
    BinaryNode(env, e);
    FirstOf(k, env, Bound(e.lhs), Bound(e.rhs));
    Numbered(k, env, scope, e.lhs);
    After(k, env, e.lhs, Bound(e.rhs), scope);
    var env1 := ExprDoc(env, e.lhs).1;
    Numbered(k, env1, scope, e.rhs);
  }

  lemma {:induction false} SubscriptNumbered(k: Known, env: Env, scope: set<nat>, e: Expr)
    requires e.Subscript?
    requires Agrees(k, env, Bound(e)) && Covers(env, scope) && Scoped(scope, e)
    ensures ExprDoc(env, e).0 == Ideal(k, e) <==> Straight(e, k.loop == k.depth) && Fresh(k, env, Bound(e))
    decreases e, 1
  {
    hide Agrees, Covers, FirstUses, ExprDoc;
    SubscriptNode(env, e);
    FirstOf(k, env, Bound(e.lhs), Bound(e.rhs));
    Numbered(k, env, scope, e.lhs);
    After(k, env, e.lhs, Bound(e.rhs), scope);
    var env1 := ExprDoc(env, e.lhs).1;
    Numbered(k, env1, scope, e.rhs);
  }

  lemma {:induction false} CallNumbered(k: Known, env: Env, scope: set<nat>, e: Expr)
    requires e.Call?
    requires Agrees(k, env, Bound(e)) && Covers(env, scope) && Scoped(scope, e)
    ensures ExprDoc(env, e).0 == Ideal(k, e) <==> Straight(e, k.loop == k.depth) && Fresh(k, env, Bound(e))
    decreases e, 1
  {
    hide Agrees, Covers, FirstUses, ExprDoc;
    CallNode(env, e);
    FirstOf(k, env, Bound(e.callee), BoundAll(e.args));
    Numbered(k, env, scope, e.callee);
    After(k, env, e.callee, BoundAll(e.args), scope);
    var env1 := ExprDoc(env, e.callee).1;
    NumberedAll(k, env1, scope, e.args);
  }

  lemma {:induction false} MemberCallNumbered(k: Known, env: Env, scope: set<nat>, e: Expr)
    requires e.MemberCall?
    requires Agrees(k, env, Bound(e)) && Covers(env, scope) && Scoped(scope, e)
    ensures ExprDoc(env, e).0 == Ideal(k, e) <==> Straight(e, k.loop == k.depth) && Fresh(k, env, Bound(e))
    decreases e, 1
  {
    hide Agrees, Covers, FirstUses, ExprDoc;
    MemberCallNode(env, e);
    FirstOf(k, env, Bound(e.receiver), BoundAll(e.args));
    Numbered(k, env, scope, e.receiver);
    After(k, env, e.receiver, BoundAll(e.args), scope);
    var env1 := ExprDoc(env, e.receiver).1;
    NumberedAll(k, env1, scope, e.args);
  }

  lemma {:induction false} ConstructNumbered(k: Known, env: Env, scope: set<nat>, e: Expr)
    requires e.Construct?
    requires Agrees(k, env, Bound(e)) && Covers(env, scope) && Scoped(scope, e)
    ensures ExprDoc(env, e).0 == Ideal(k, e) <==> Straight(e, k.loop == k.depth) && Fresh(k, env, Bound(e))
    decreases e, 1
  {
    hide Agrees, Covers, FirstUses, ExprDoc;
    ConstructNode(env, e);
    NumberedAll(k, env, scope, e.args);
  }

  lemma {:induction false} ConditionalNumbered(k: Known, env: Env, scope: set<nat>, e: Expr)
    requires e.Conditional?
    requires Agrees(k, env, Bound(e)) && Covers(env, scope) && Scoped(scope, e)
    ensures ExprDoc(env, e).0 == Ideal(k, e) <==> Straight(e, k.loop == k.depth) && Fresh(k, env, Bound(e))
    decreases e, 1
  {
    hide Agrees, Covers, FirstUses, ExprDoc;
    ConditionalNode(env, e);
    FirstOf(k, env, Bound(e.cond), Bound(e.thn) + Bound(e.els));
    Numbered(k, env, scope, e.cond);
    After(k, env, e.cond, Bound(e.thn) + Bound(e.els), scope);
    var env1 := ExprDoc(env, e.cond).1;
    FirstOf(k, env1, Bound(e.thn), Bound(e.els));
    Numbered(k, env1, scope, e.thn);
    After(k, env1, e.thn, Bound(e.els), scope);
    var env2 := ExprDoc(env1, e.thn).1;
    Numbered(k, env2, scope, e.els);
  }

  /** The shape of a conditional with a common part. */
  function Eif2Of(n: Doc, m: Doc, c: Doc, t: Doc, f: Doc, rest: Args): Doc {
    DCtor(true, "Eif2", Arg0(n, Arg(m, Arg(c, Arg(t, Arg(f, rest))))))
  }

  lemma Eif2Printed(env: Env, e: Expr)
    requires e.BinaryConditional?
    ensures var (m, env1) := ExprDoc(env.(indexes := env.indexes + [e.opaque_]), e.common);
            var (c, env2) := ExprDoc(env1.(count := env1.count + 1), e.cond);
            var (t, env3) := ExprDoc(env2, e.thn);
            var f := ExprDoc(env3, e.els).0;
            ExprDoc(env, e).0 == Eif2Of(NatDoc(|env.indexes|), m, c, t, f, VcTypeArgs(e.vc, e.ty))
  {
    hide NatDoc, VcTypeArgs, ExprDoc;
    BinaryConditionalNode(env, e);
  }

  lemma Eif2Ideal(k: Known, e: Expr)
    requires e.BinaryConditional?
    ensures Ideal(k, e) == Eif2Of(DWord(Signed(Number(k, e.opaque_))), Ideal(k, e.common),
                                  Ideal(Deeper(k), e.cond), Ideal(Deeper(k), e.thn), Ideal(Deeper(k), e.els),
                                  VcTypeArgs(e.vc, e.ty))
  {
    hide Signed, Number, VcTypeArgs;
  }

  /** The shape of an array loop. */
  function LoopOf(n: Doc, s: Doc, level: int, size: nat, b: Doc, rest: Args): Doc {
    DCtor(true, "Earrayloop_init", Arg0(n, Arg(s, Arg0(DWord(Signed(level)), Arg(NatDoc(size), Arg(b, rest))))))
  }

  lemma LoopPrinted(env: Env, e: Expr)
    requires e.ArrayInitLoop?
    ensures var (s, env1) := ExprDoc(env.(indexes := env.indexes + [e.opaque_]), e.source);
            var b := ExprDoc(env1.(count := env1.count + 1), e.sub).0;
            ExprDoc(env, e).0 == LoopOf(NatDoc(|env.indexes|), s, env1.count + 1, e.size, b, TypeArg(e.ty))
  {
    hide NatDoc, TypeArg, Signed, ExprDoc;
    ArrayLoopNode(env, e);
  }

  lemma LoopIdeal(k: Known, e: Expr)
    requires e.ArrayInitLoop?
    ensures Ideal(k, e) == LoopOf(DWord(Signed(Number(k, e.opaque_))), Ideal(k, e.source), InLoop(k).loop, e.size,
                                  Ideal(InLoop(k), e.sub), TypeArg(e.ty))
  {
    hide Number, NatDoc, TypeArg, Signed;
  }

  lemma {:induction false} Eif2Numbered(k: Known, env: Env, scope: set<nat>, e: Expr)
    requires e.BinaryConditional?
    requires Agrees(k, env, Bound(e)) && Covers(env, scope) && Scoped(scope, e)
    ensures ExprDoc(env, e).0 == Ideal(k, e) <==> Straight(e, k.loop == k.depth) && Fresh(k, env, Bound(e))
    decreases e, 1
  {
    hide ExprDoc, Ideal, Signed, NatDoc, Number, Agrees, Covers, FirstUses;
    Eif2Printed(env, e);
    Eif2Ideal(k, e);
    var (m, c, t, f) := (Bound(e.common), Bound(e.cond), Bound(e.thn), Bound(e.els));
    BinderNumber(k, env, e.opaque_, m + (c + (t + f)));
    BinderScope(env, e.opaque_, scope);
    SignedNat(|env.indexes|);
    SignedInjective(|env.indexes|, Number(k, e.opaque_));
    var env0 := env.(indexes := env.indexes + [e.opaque_]);
    FirstOf(k, env0, m, c + (t + f));
    Numbered(k, env0, scope, e.common);
    After(k, env0, e.common, c + (t + f), scope + {e.opaque_});
    var env1 := ExprDoc(env0, e.common).1;
    OneDeeper(k, env1, c + (t + f));
    SameScope(env1, scope + {e.opaque_});
    Eif2Parts(Deeper(k), env1.(count := env1.count + 1), scope + {e.opaque_}, e);
  }

  /** The parts of a conditional that are printed one level further in. */
  lemma {:induction false} Eif2Parts(k: Known, env: Env, scope: set<nat>, e: Expr)
    requires e.BinaryConditional? && k.loop < k.depth
    requires Agrees(k, env, Bound(e.cond) + (Bound(e.thn) + Bound(e.els))) && Covers(env, scope)
    requires Scoped(scope, e.cond) && Scoped(scope, e.thn) && Scoped(scope, e.els)
    ensures var env1 := ExprDoc(env, e.cond).1;
            var env2 := ExprDoc(env1, e.thn).1;
            && (ExprDoc(env, e.cond).0 == Ideal(k, e.cond) <==> Straight(e.cond, false) && Fresh(k, env, Bound(e.cond)))
            && (ExprDoc(env1, e.thn).0 == Ideal(k, e.thn) <==> Straight(e.thn, false) && Fresh(k, env1, Bound(e.thn)))
            && (ExprDoc(env2, e.els).0 == Ideal(k, e.els) <==> Straight(e.els, false) && Fresh(k, env2, Bound(e.els)))
            && (Fresh(k, env, Bound(e.cond) + (Bound(e.thn) + Bound(e.els))) <==>
                Fresh(k, env, Bound(e.cond)) && Fresh(k, env1, Bound(e.thn)) && Fresh(k, env2, Bound(e.els)))
    decreases e, 0
  {
    hide ExprDoc, Bound, Scoped, Straight, Ideal, Agrees, Covers, FirstUses;
    var (c, t, f) := (Bound(e.cond), Bound(e.thn), Bound(e.els));
    FirstOf(k, env, c, t + f);
    Numbered(k, env, scope, e.cond);
    After(k, env, e.cond, t + f, scope);
    var env1 := ExprDoc(env, e.cond).1;
    FirstOf(k, env1, t, f);
    Numbered(k, env1, scope, e.thn);
    After(k, env1, e.thn, f, scope);
    Numbered(k, ExprDoc(env1, e.thn).1, scope, e.els);
  }

  lemma {:induction false} InitListNumbered(k: Known, env: Env, scope: set<nat>, e: Expr)
    requires e.InitList?
    requires Agrees(k, env, Bound(e)) && Covers(env, scope) && Scoped(scope, e)
    ensures ExprDoc(env, e).0 == Ideal(k, e) <==> Straight(e, k.loop == k.depth) && Fresh(k, env, Bound(e))
    decreases e, 1
  {
    hide Agrees, Covers, ExprDoc;
    InitListNode(env, e);
    var rest := if e.filler.Some? then Bound(e.filler.value) else [];
    FirstOf(k, env, BoundAll(e.args), rest);
    NumberedAll(k, env, scope, e.args);
    AfterAll(k, env, e.args, rest, scope);
    if e.filler.Some? {
      Numbered(k, ArgDocs(env, e.args).1, scope, e.filler.value);
    }
  }

  lemma {:induction false} LoopNumbered(k: Known, env: Env, scope: set<nat>, e: Expr)
    requires e.ArrayInitLoop?
    requires Agrees(k, env, Bound(e)) && Covers(env, scope) && Scoped(scope, e)
    ensures ExprDoc(env, e).0 == Ideal(k, e) <==> Straight(e, k.loop == k.depth) && Fresh(k, env, Bound(e))
    decreases e, 1
  {
    hide ExprDoc, Ideal, Signed, NatDoc, Number, Agrees, Covers, FirstUses;
    LoopPrinted(env, e);
    LoopIdeal(k, e);
    var (s, b) := (Bound(e.source), Bound(e.sub));
    BinderNumber(k, env, e.opaque_, s + b);
    BinderScope(env, e.opaque_, scope);
    SignedNat(|env.indexes|);
    SignedInjective(|env.indexes|, Number(k, e.opaque_));
    var env0 := env.(indexes := env.indexes + [e.opaque_]);
    FirstOf(k, env0, s, b);
    Numbered(k, env0, scope, e.source);
    After(k, env0, e.source, b, scope + {e.opaque_});
    var env1 := ExprDoc(env0, e.source).1;
    OneDeeper(k, env1, b);
    SameScope(env1, scope + {e.opaque_});
    Numbered(InLoop(k), env1.(count := env1.count + 1), scope + {e.opaque_}, e.sub);
  }

  lemma {:induction false} NumberedAll(k: Known, env: Env, scope: set<nat>, es: seq<Expr>)
    requires Agrees(k, env, BoundAll(es)) && Covers(env, scope) && ScopedAll(scope, es)
    ensures ArgDocs(env, es).0 == IdealAll(k, es) <==> StraightAll(es, k.loop == k.depth) && Fresh(k, env, BoundAll(es))
    decreases es, 0
  {
    hide ExprDoc, Bound, Scoped, Straight, Ideal, Agrees, Covers, FirstUses;
    if es == [] {
      NoneFresh(k, env);
    } else {
      FirstOf(k, env, Bound(es[0]), BoundAll(es[1..]));
      Numbered(k, env, scope, es[0]);
      After(k, env, es[0], BoundAll(es[1..]), scope);
      NumberedAll(k, ExprDoc(env, es[0]).1, scope, es[1..]);
      ConsEqual(ExprDoc(env, es[0]).0, ArgDocs(ExprDoc(env, es[0]).1, es[1..]).0,
                Ideal(k, es[0]), IdealAll(k, es[1..]));
    }
  }

  lemma ConsEqual(a: Doc, as': seq<Doc>, b: Doc, bs: seq<Doc>)
    ensures [a] + as' == [b] + bs <==> a == b && as' == bs
  {
    assert ([a] + as')[0] == a && ([b] + bs)[0] == b;
    assert ([a] + as')[1..] == as' && ([b] + bs)[1..] == bs;
  }

  /** A whole expression, printed in a fresh environment. */
  lemma TopNumbered(e: Expr)
    requires Scoped({}, e)
    ensures ExprDoc(NO_NAMES, e).1 == Env(Bound(e), [], -1)
    ensures ExprDoc(NO_NAMES, e).0 == Ideal(Known(Bound(e), [], -1, -1), e) <==>
            Straight(e, true) && Distinct(Bound(e))
  {
    hide ExprDoc, Bound, Scoped, Straight, Ideal, FirstUses, Distinct;
    Appends(NO_NAMES, e);
    assert [] + Bound(e) == Bound(e);
    Numbered(Known(Bound(e), [], -1, -1), NO_NAMES, {}, e);
    FirstUsesIff(Bound(e));
  }

  /** A default argument that binds opaque values, used twice in one expression, is not numbered
      correctly: its binders are numbered again, while its references find the first numbers. */
  lemma DefaultTwice(d: Expr, op: ArithOp, ty: QualType)
    requires Scoped({}, d) && Bound(d) != []
    ensures var e := Binary(Arith(op), DefaultArg(d), DefaultArg(d), ty);
            Scoped({}, e) && ExprDoc(NO_NAMES, e).0 != Ideal(Known(Bound(e), [], -1, -1), e)
  {
    hide ExprDoc, Ideal;
    var e := Binary(Arith(op), DefaultArg(d), DefaultArg(d), ty);
    assert Bound(DefaultArg(d)) == Bound(d);
    assert Bound(e) == Bound(d) + Bound(d);
    assert Bound(e)[0] == Bound(e)[|Bound(d)|];
    TopNumbered(e);
  }

  const ELSE_Y := DeclRef(ValueDecl(2, "y", false, false), INT)
  const X_OR_Y := BinaryConditional(0, DeclRef(ValueDecl(1, "x", false, false), INT), OpaqueValue(0, Lvalue, INT),
                                    OpaqueValue(0, Lvalue, INT), ELSE_Y, Lvalue, INT)
  const CALL_G := Call(DeclRef(ValueDecl(3, "g", false, false), INT), [DefaultArg(X_OR_Y)], INT)

  /** `g() + g()` with `int g(int a = x ?: y)`. */
  const G_PLUS_G := Binary(Arith(Add), CALL_G, CALL_G, INT)

  lemma DefaultFacts()
    ensures Bound(X_OR_Y) == [0] && Scoped({}, X_OR_Y) && Straight(X_OR_Y, true)
  {
    assert {} + {0} == {0};
  }

  lemma CallFacts(d: Expr, decl: ValueDecl, ty: QualType)
    requires Scoped({}, d) && Straight(d, true)
    ensures var e := Call(DeclRef(decl, ty), [DefaultArg(d)], ty);
            Bound(e) == Bound(d) && Scoped({}, e) && Straight(e, true)
  {
    var xs := [DefaultArg(d)];
    assert xs[0] == DefaultArg(d) && xs[1..] == [];
    assert Bound(xs[0]) == Bound(d) && BoundAll([]) == [];
    assert BoundAll(xs) == Bound(d);
    assert [] + Bound(d) == Bound(d);
    assert Scoped({}, xs[0]) && ScopedAll({}, []);
    assert ScopedAll({}, xs);
    assert Straight(xs[0], true) && StraightAll([], true);
    assert StraightAll(xs, true);
  }

  lemma CallsTwice()
    ensures Scoped({}, G_PLUS_G) && Straight(G_PLUS_G, true) && Bound(G_PLUS_G) == [0, 0]
    ensures ExprDoc(NO_NAMES, G_PLUS_G).0 != Ideal(Known([0, 0], [], -1, -1), G_PLUS_G)
  {
    hide ExprDoc, Ideal;
    DefaultFacts();
    CallFacts(X_OR_Y, ValueDecl(3, "g", false, false), INT);
    BothSides(CALL_G);
    assert Bound(G_PLUS_G)[0] == Bound(G_PLUS_G)[1];
    TopNumbered(G_PLUS_G);
  }

  lemma BothSides(e: Expr)
    requires Scoped({}, e) && Straight(e, true)
    ensures var b := Binary(Arith(Add), e, e, INT);
            Bound(b) == Bound(e) + Bound(e) && Scoped({}, b) && Straight(b, true)
  {
  }

  /** The second time a conditional is printed its number is new, and the reference in its
      condition carries the old one. */
  lemma SecondUse(env: Env, o: nat, m: Expr, t: Expr, f: Expr, vc: ValCat, ty: QualType)
    requires o in env.indexes
    ensures var e := BinaryConditional(o, m, OpaqueValue(o, vc, ty), t, f, vc, ty);
            var i := IndexOf(env.indexes, o);
            && 0 <= i < |env.indexes|
            && exists m', t', f' :: ExprDoc(env, e).0 ==
                 Eif2Of(DWord(Signed(|env.indexes|)), m',
                        DCtor(true, "Eopaque_ref", Arg0(DWord(Signed(i)), VcTypeArgs(vc, ty))),
                        t', f', VcTypeArgs(vc, ty))
  {
    hide Eif2Of, Signed, VcTypeArgs, NatDoc, Bound, ExprDoc, IndexOf;
    var r := OpaqueValue(o, vc, ty);
    var e := BinaryConditional(o, m, r, t, f, vc, ty);
    Eif2Printed(env, e);
    SignedNat(|env.indexes|);
    var env0 := env.(indexes := env.indexes + [o]);
    Appends(env0, m);
    var more := [o] + Bound(m);
    assert env0.indexes + Bound(m) == env.indexes + more;
    IndexOfAppend(env.indexes, more, o);
    var (m', env1) := ExprDoc(env0, m);
    var env2 := env1.(count := env1.count + 1);
    OpaquePrinted(env2, r);
    var (t', env3) := ExprDoc(env2, t);
    var f' := ExprDoc(env3, f).0;
    assert ExprDoc(env, e).0 ==
           Eif2Of(DWord(Signed(|env.indexes|)), m', ExprDoc(env2, r).0, t', f', VcTypeArgs(vc, ty));
  }

  lemma OpaquePrinted(env: Env, e: Expr)
    requires e.OpaqueValue?
    ensures ExprDoc(env, e) ==
            (DCtor(true, "Eopaque_ref",
                   Arg0(DWord(Signed(IndexOf(env.indexes, e.opaque_))), VcTypeArgs(e.vc, e.ty))), env)
  {
    hide Signed, VcTypeArgs;
  }

  /** An array loop whose body has an index inside a conditional: the index carries the level of
      the conditional and not that of its loop. */
  lemma IndexInEif2(e: Expr)
    requires Scoped({}, e) && e.ArrayInitLoop? && e.sub.BinaryConditional? && e.sub.els.ArrayInitIndex?
    ensures ExprDoc(NO_NAMES, e).0 != Ideal(Known(Bound(e), [], -1, -1), e)
  {
    hide ExprDoc, Ideal, Bound, Scoped;
    assert !Straight(e.sub, true);
    TopNumbered(e);
  }

  const INT := QualType(false, false, Builtin("Tint"))
  const CHOICE := BinaryConditional(1, OpaqueValue(0, Lvalue, INT), OpaqueValue(1, Prvalue, INT), This(INT),
                                    ArrayInitIndex(INT), Prvalue, INT)

  const LOOP := ArrayInitLoop(0, This(INT), 1, CHOICE, INT)

  lemma ChoiceScoped()
    ensures Scoped({0}, CHOICE)
  {
    assert {0} + {1} == {0, 1};
  }

  lemma LoopScoped(sub: Expr)
    requires Scoped({0}, sub)
    ensures Scoped({}, ArrayInitLoop(0, This(INT), 1, sub, INT))
  {
    assert {} + {0} == {0};
  }

  lemma IndexExample()
    ensures Scoped({}, LOOP) && ExprDoc(NO_NAMES, LOOP).0 != Ideal(Known(Bound(LOOP), [], -1, -1), LOOP)
  {
    hide ExprDoc, Ideal, Bound, Scoped;
    ChoiceScoped();
    LoopScoped(CHOICE);
    IndexInEif2(LOOP);
  }

  /** Different opaque values never share a number. */
  lemma NumbersDiffer(k: Known, x: nat, y: nat)
    requires x in k.numbers && y in k.numbers && x != y
    ensures Number(k, x) != Number(k, y)
  {
    assert Number(k, x) >= 0 && Number(k, y) >= 0;
  }
}

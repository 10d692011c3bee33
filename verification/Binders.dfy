/** What printing an expression does to the environment of opaque values. */
module Binders {
  import opened Text
  import opened Names
  import opened ClangAst
  import opened Docs
  import opened ExprDocs

  /** The opaque values that an expression binds, in the order in which they are numbered. */
  function Bound(e: Expr): seq<nat>
    decreases e, 1
  {
    match e
    case Transparent(sub) => Bound(sub)
    case Unary(_, sub, _) => Bound(sub)
    case Binary(op, l, r, _) => if Restarts(op) then [] else Bound(l) + Bound(r)
    case Subscript(l, r, _) => Bound(l) + Bound(r)
    case Call(f, xs, _) => Bound(f) + BoundAll(xs)
    case MemberCall(_, _, _, o, xs, _) => Bound(o) + BoundAll(xs)
    case Construct(_, xs, _) => BoundAll(xs)
    case Cast(_, sub, _, _) => Bound(sub)
    case Member(sub, _, _, _, _) => Bound(sub)
    case Conditional(c, t, f, _, _) => Bound(c) + (Bound(t) + Bound(f))
    case BinaryConditional(o, m, c, t, f, _, _) => [o] + (Bound(m) + (Bound(c) + (Bound(t) + Bound(f))))
    case InitList(xs, filler, _) => BoundAll(xs) + (if filler.Some? then Bound(filler.value) else [])
    case WithCleanups(sub) => Bound(sub)
    case MaterializeTemporary(sub, _) => Bound(sub)
    case DefaultArg(sub) => Bound(sub)
    case ArrayInitLoop(o, source, _, sub, _) => [o] + (Bound(source) + Bound(sub))
    case _ => []
  }

  function BoundAll(es: seq<Expr>): seq<nat>
    decreases es, 0
  {
    if es == [] then [] else Bound(es[0]) + BoundAll(es[1..])
  }

  /** An environment in which more opaque values are numbered. */
  function WithNumbers(env: Env, more: seq<nat>): Env {
    env.(indexes := env.indexes + more)
  }

  lemma Regroup(a: seq<nat>, b: seq<nat>, c: seq<nat>)
    ensures (a + b) + c == a + (b + c)
  {
  }

  /** Printing an expression numbers what it binds, behind what is numbered already, and leaves
      the loop level and the anonymous stack as they were. */
  lemma {:induction false} Appends(env: Env, e: Expr)
    ensures ExprDoc(env, e).1 == WithNumbers(env, Bound(e))
    decreases e, 2
  {
    hide ExprDoc, Bound;
    if IsWrapper(e) {
      WrapperAppends(env, e);
      return;
    }
    match e
    case Binary(op, _, _, _) =>
      if Restarts(op) {
        LeafAppends(env, e);
      } else {
        BinaryAppends(env, e);
      }
    case Subscript(_, _, _) => SubscriptAppends(env, e);
    case Call(_, _, _) => CallAppends(env, e);
    case MemberCall(_, _, _, _, _, _) => MemberCallAppends(env, e);
    case Construct(_, _, _) => ConstructAppends(env, e);
    case Conditional(_, _, _, _, _) => ConditionalAppends(env, e);
    case BinaryConditional(_, _, _, _, _, _, _) => Eif2Appends(env, e);
    case InitList(_, _, _) => InitListAppends(env, e);
    case ArrayInitLoop(_, _, _, _, _) => LoopAppends(env, e);
    case _ => LeafAppends(env, e);
  }

  predicate IsLeaf(e: Expr) {
    e.NullPtr? || e.BoolLiteral? || e.IntegerLiteral? || e.CharacterLiteral? || e.StringLiteral?
    || e.This? || e.DeclRef? || e.OpaqueValue? || e.ArrayInitIndex? || (e.Binary? && Restarts(e.bop))
  }

  lemma LeafAppends(env: Env, e: Expr)
    requires IsLeaf(e)
    ensures ExprDoc(env, e).1 == WithNumbers(env, Bound(e))
  {
    assert env.indexes + [] == env.indexes;
  }

  /** The nodes with a single operand. */
  predicate IsWrapper(e: Expr) {
    e.Transparent? || e.Unary? || e.Cast? || e.Member? || e.WithCleanups? || e.MaterializeTemporary? || e.DefaultArg?
  }

  lemma WrapperNode(env: Env, e: Expr)
    requires IsWrapper(e)
    ensures e.Transparent? ==> ExprDoc(env, e) == ExprDoc(env, e.sub)
    ensures e.Unary? ==> ExprDoc(env, e) == UnaryDoc(env, e)
    ensures e.Cast? ==> ExprDoc(env, e) == CastDoc(env, e)
    ensures e.Member? ==> ExprDoc(env, e) == MemberDoc(env, e)
    ensures e.WithCleanups? ==> ExprDoc(env, e) == CleanupsDoc(env, e)
    ensures e.MaterializeTemporary? ==> ExprDoc(env, e) == TemporaryDoc(env, e)
    ensures e.DefaultArg? ==> ExprDoc(env, e) == DefaultArgDoc(env, e)
  {
    hide UnaryDoc, CastDoc, MemberDoc, CleanupsDoc, TemporaryDoc, DefaultArgDoc;
  }

  lemma {:induction false} WrapperAppends(env: Env, e: Expr)
    requires IsWrapper(e)
    ensures ExprDoc(env, e).1 == WithNumbers(env, Bound(e))
    decreases e, 1
  {
    hide ExprDoc;
    WrapperNode(env, e);
    Appends(env, e.sub);
  }

  lemma {:induction false} BinaryAppends(env: Env, e: Expr)
    requires e.Binary? && !Restarts(e.bop)
    ensures ExprDoc(env, e).1 == WithNumbers(env, Bound(e))
    decreases e, 1
  {
    hide ExprDoc;
    BinaryNode(env, e);
    Appends(env, e.lhs);
    var env1 := ExprDoc(env, e.lhs).1;
    Appends(env1, e.rhs);
    Regroup(env.indexes, Bound(e.lhs), Bound(e.rhs));
  }

  lemma {:induction false} SubscriptAppends(env: Env, e: Expr)
    requires e.Subscript?
    ensures ExprDoc(env, e).1 == WithNumbers(env, Bound(e))
    decreases e, 1
  {
    hide ExprDoc;
    SubscriptNode(env, e);
    Appends(env, e.lhs);
    var env1 := ExprDoc(env, e.lhs).1;
    Appends(env1, e.rhs);
    Regroup(env.indexes, Bound(e.lhs), Bound(e.rhs));
  }

  lemma {:induction false} CallAppends(env: Env, e: Expr)
    requires e.Call?
    ensures ExprDoc(env, e).1 == WithNumbers(env, Bound(e))
    decreases e, 1
  {
    hide ExprDoc;
    CallNode(env, e);
    Appends(env, e.callee);
    var env1 := ExprDoc(env, e.callee).1;
    AppendsAll(env1, e.args);
    Regroup(env.indexes, Bound(e.callee), BoundAll(e.args));
  }

  lemma {:induction false} MemberCallAppends(env: Env, e: Expr)
    requires e.MemberCall?
    ensures ExprDoc(env, e).1 == WithNumbers(env, Bound(e))
    decreases e, 1
  {
    hide ExprDoc;
    MemberCallNode(env, e);
    Appends(env, e.receiver);
    var env1 := ExprDoc(env, e.receiver).1;
    AppendsAll(env1, e.args);
    Regroup(env.indexes, Bound(e.receiver), BoundAll(e.args));
  }

  lemma {:induction false} ConstructAppends(env: Env, e: Expr)
    requires e.Construct?
    ensures ExprDoc(env, e).1 == WithNumbers(env, Bound(e))
    decreases e, 1
  {
    hide ExprDoc;
    ConstructNode(env, e);
    AppendsAll(env, e.args);
  }

  lemma {:induction false} ConditionalAppends(env: Env, e: Expr)
    requires e.Conditional?
    ensures ExprDoc(env, e).1 == WithNumbers(env, Bound(e))
    decreases e, 1
  {
    hide ExprDoc;
    ConditionalNode(env, e);
    Appends(env, e.cond);
    var env1 := ExprDoc(env, e.cond).1;
    Appends(env1, e.thn);
    var env2 := ExprDoc(env1, e.thn).1;
    Appends(env2, e.els);
    Regroup(env.indexes + Bound(e.cond), Bound(e.thn), Bound(e.els));
    Regroup(env.indexes, Bound(e.cond), Bound(e.thn) + Bound(e.els));
  }

  lemma {:induction false} Eif2Appends(env: Env, e: Expr)
    requires e.BinaryConditional?
    ensures ExprDoc(env, e).1 == WithNumbers(env, Bound(e))
    decreases e, 1
  {
    hide ExprDoc;
    BinaryConditionalNode(env, e);
    var env0 := env.(indexes := env.indexes + [e.opaque_]);
    Appends(env0, e.common);
    var env1 := ExprDoc(env0, e.common).1;
    var env2 := env1.(count := env1.count + 1);
    Appends(env2, e.cond);
    var env3 := ExprDoc(env2, e.cond).1;
    Appends(env3, e.thn);
    Appends(ExprDoc(env3, e.thn).1, e.els);
    var (m, c, t, f) := (Bound(e.common), Bound(e.cond), Bound(e.thn), Bound(e.els));
    Regroup(env0.indexes + m + c, t, f);
    Regroup(env0.indexes + m, c, t + f);
    Regroup(env0.indexes, m, c + (t + f));
    Regroup(env.indexes, [e.opaque_], m + (c + (t + f)));
  }

  lemma {:induction false} InitListAppends(env: Env, e: Expr)
    requires e.InitList?
    ensures ExprDoc(env, e).1 == WithNumbers(env, Bound(e))
    decreases e, 1
  {
    hide ExprDoc;
    InitListNode(env, e);
    AppendsAll(env, e.args);
    if e.filler.Some? {
      Appends(ArgDocs(env, e.args).1, e.filler.value);
      Regroup(env.indexes, BoundAll(e.args), Bound(e.filler.value));
    } else {
      assert BoundAll(e.args) + [] == BoundAll(e.args);
    }
  }

  lemma {:induction false} LoopAppends(env: Env, e: Expr)
    requires e.ArrayInitLoop?
    ensures ExprDoc(env, e).1 == WithNumbers(env, Bound(e))
    decreases e, 1
  {
    hide ExprDoc;
    ArrayLoopNode(env, e);
    var env0 := env.(indexes := env.indexes + [e.opaque_]);
    Appends(env0, e.source);
    var env1 := ExprDoc(env0, e.source).1;
    Appends(env1.(count := env1.count + 1), e.sub);
    Regroup(env0.indexes, Bound(e.source), Bound(e.sub));
    Regroup(env.indexes, [e.opaque_], Bound(e.source) + Bound(e.sub));
  }

  lemma {:induction false} AppendsAll(env: Env, es: seq<Expr>)
    ensures ArgDocs(env, es).1 == WithNumbers(env, BoundAll(es))
    decreases es, 0
  {
    hide ExprDoc, Bound;
    if es == [] {
      assert env.indexes + [] == env.indexes;
    } else {
      Appends(env, es[0]);
      AppendsAll(ExprDoc(env, es[0]).1, es[1..]);
      Regroup(env.indexes, Bound(es[0]), BoundAll(es[1..]));
    }
  }

  /** The loop level and the anonymous stack are as before, and numbers have only been added. */
  predicate Restored(env: Env, env': Env) {
    env'.anonymous == env.anonymous && env'.count == env.count && env.indexes <= env'.indexes
  }

  lemma EnvRestored(env: Env, e: Expr)
    ensures Restored(env, ExprDoc(env, e).1)
  {
    Appends(env, e);
  }

  lemma EnvsRestored(env: Env, es: seq<Expr>)
    ensures Restored(env, ArgDocs(env, es).1)
  {
    AppendsAll(env, es);
  }
}

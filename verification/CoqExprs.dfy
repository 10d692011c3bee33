/** Expressions and local declarations on the Coq side, and their reading from terms. */
module CoqExprs {
  import opened Text
  import opened ClangAst
  import opened CoqTerms
  import opened CoqTypes
  import opened CoqTypeReading

  datatype CName = Lname(name: string) | Gname(name: string)

  datatype CUnOp = Uplus | Uminus | Ubnot | Unot

  datatype CBinOp =
    | Badd | Band | Bcmp | Bdiv | Beq | Bge | Bgt | Ble | Blt | Bmul | Bneq | Bor | Bmod | Bshl | Bshr | Bsub | Bxor

  datatype CallKind = Virtual | Direct

  /** `Expr` of theories/lang/cpp/syntax/expr.v. */
  datatype CExpr =
    | Enull
    | Ebool(b: bool)
    | Eint(value: int, ty: CoqType)
    | Echar(value: int, ty: CoqType)
    | Estring(units: seq<nat>, ty: CoqType)
    | Ethis(ty: CoqType)
    | Evar(name: CName, ty: CoqType)
    | EreadRef(sub: CExpr)
    | Eunop(uop: CUnOp, sub: CExpr, ty: CoqType)
    | Ederef(sub: CExpr, ty: CoqType)
    | Eaddrof(sub: CExpr)
    | Epreinc(sub: CExpr, ty: CoqType)
    | Epostinc(sub: CExpr, ty: CoqType)
    | Epredec(sub: CExpr, ty: CoqType)
    | Epostdec(sub: CExpr, ty: CoqType)
    | Ebinop(bop: CBinOp, l: CExpr, r: CExpr, ty: CoqType)
    | Eassign(l: CExpr, r: CExpr, ty: CoqType)
    | EassignOp(bop: CBinOp, l: CExpr, r: CExpr, ty: CoqType)
    | Ecomma(l: CExpr, r: CExpr)
    | Eseqand(l: CExpr, r: CExpr)
    | Eseqor(l: CExpr, r: CExpr)
    | Esubscript(l: CExpr, r: CExpr, ty: CoqType)
    | Ecall(fn: CExpr, args: seq<CExpr>, ty: CoqType)
    | EmemberCall(callee: string, kind: CallKind, calleeTy: CoqType, sub: CExpr, args: seq<CExpr>, ty: CoqType)
    | Econstructor(ctor: string, args: seq<CExpr>, ty: CoqType)
    | Ecast(cast: string, sub: CExpr, vc: ValCat, ty: CoqType)
    | Emember(sub: CExpr, record: string, field: string, ty: CoqType)
    | Eif(c: CExpr, t: CExpr, f: CExpr, vc: ValCat, ty: CoqType)
    | Eif2(number: int, common: CExpr, c: CExpr, t: CExpr, f: CExpr, vc: ValCat, ty: CoqType)
    | Einitlist(args: seq<CExpr>, filler: Option<CExpr>, ty: CoqType)
    | Eandclean(sub: CExpr)
    | EmaterializeTemp(sub: CExpr, vc: ValCat)
    | Eimplicit(sub: CExpr)
    | EopaqueRef(number: int, vc: ValCat, ty: CoqType)
    | EarrayloopInit(number: int, source: CExpr, level: int, size: int, sub: CExpr, ty: CoqType)
    | EarrayloopIndex(level: int, ty: CoqType)

  /** `VarDecl` of theories/lang/cpp/syntax/stmt.v. */
  datatype CDecl =
    | Dvar(name: string, ty: CoqType, init: Option<CExpr>)
    | Dinit(threadSafe: bool, name: string, ty: CoqType, init: Option<CExpr>)
    | Ddecompose(source: CExpr, name: string, bindings: seq<CDecl>)

  // ---- Words and numbers ---------------------------------------------------------------------

  function ReadBool(t: Term): Option<bool> {
    if t == Ident("true") then Some(true) else if t == Ident("false") then Some(false) else None
  }

  function ReadVc(t: Term): Option<ValCat> {
    if t == Ident("Lvalue") then Some(Lvalue)
    else if t == Ident("Prvalue") then Some(Prvalue)
    else if t == Ident("Xvalue") then Some(Xvalue)
    else None
  }

  function ReadUnOp(t: Term): Option<CUnOp> {
    if t == Ident("Uplus") then Some(Uplus)
    else if t == Ident("Uminus") then Some(Uminus)
    else if t == Ident("Ubnot") then Some(Ubnot)
    else if t == Ident("Unot") then Some(Unot)
    else None
  }

  function ReadBinOp(t: Term): Option<CBinOp> {
    if !t.Ident? then None
    else if t.w == "Badd" then Some(Badd)
    else if t.w == "Band" then Some(Band)
    else if t.w == "Bcmp" then Some(Bcmp)
    else if t.w == "Bdiv" then Some(Bdiv)
    else if t.w == "Beq" then Some(Beq)
    else if t.w == "Bge" then Some(Bge)
    else if t.w == "Bgt" then Some(Bgt)
    else if t.w == "Ble" then Some(Ble)
    else if t.w == "Blt" then Some(Blt)
    else if t.w == "Bmul" then Some(Bmul)
    else if t.w == "Bneq" then Some(Bneq)
    else if t.w == "Bor" then Some(Bor)
    else if t.w == "Bmod" then Some(Bmod)
    else if t.w == "Bshl" then Some(Bshl)
    else if t.w == "Bshr" then Some(Bshr)
    else if t.w == "Bsub" then Some(Bsub)
    else if t.w == "Bxor" then Some(Bxor)
    else None
  }

  predicate Digits(w: string) {
    w != "" && forall i :: 0 <= i < |w| ==> IsDigit(w[i])
  }

  function ReadNat(t: Term): Option<nat> {
    if t.Ident? && Digits(t.w) then Some(DecimalValue(t.w)) else None
  }

  /** A numeral with a scope delimiter. */
  function ReadScoped(t: Term, scope: string): Option<nat> {
    if t.Scoped? && t.scope == scope then ReadNat(t.t) else None
  }

  function ReadUnits(t: Term): Option<seq<nat>> {
    match t
    case Ident(w) => if w == "nil" then Some([]) else None
    case Infix(op, l, r) =>
      if op != "::" then None
      else
        var n :- ReadScoped(l, "N");
        var rest :- ReadUnits(r);
        Some([n] + rest)
    case _ => None
  }

  function ReadName(t: Term): Option<CName> {
    if t.Apply? && |t.args| == 1 && t.args[0].Lit? then
      if t.fn == Ident("Lname") then Some(Lname(t.args[0].s))
      else if t.fn == Ident("Gname") then Some(Gname(t.args[0].s))
      else None
    else None
  }

  /** The method of a call: its name, how it is called, and its type. */
  function ReadCallee(t: Term): Option<(string, CallKind, CoqType)> {
    if t.Apply? && t.fn == Ident("inl") && |t.args| == 1 && t.args[0].Tuple? && |t.args[0].parts| == 3 then
      var parts := t.args[0].parts;
      var ty :- ReadType(parts[2]);
      if !parts[0].Lit? then None
      else if parts[1] == Ident("Virtual") then Some((parts[0].s, Virtual, ty))
      else if parts[1] == Ident("Direct") then Some((parts[0].s, Direct, ty))
      else None
    else None
  }

  function ReadField(t: Term): Option<(string, string)> {
    if t.Apply? && t.fn == Ident("Build_field") && |t.args| == 2 && t.args[0].Lit? && t.args[1].Lit?
    then Some((t.args[0].s, t.args[1].s))
    else None
  }

  function ReadOption(t: Term): (r: Option<Option<Term>>)
    ensures r.Some? && r.value.Some? ==> r.value.value < t
  {
    if t == Ident("None") then Some(None)
    else if t.Apply? && t.fn == Ident("Some") && |t.args| == 1 then Some(Some(t.args[0]))
    else None
  }

  // ---- Expressions ---------------------------------------------------------------------------

  /** The expression that a term spells. */
  function ReadExpr(t: Term): Option<CExpr>
    decreases t, 3
  {
    if t == Ident("Enull") then Some(Enull)
    else if t.Apply? && t.fn.Ident? then
      if |t.args| == 1 then ReadExpr1(t.fn.w, t)
      else if |t.args| == 2 then ReadExpr2(t.fn.w, t)
      else if |t.args| == 3 then ReadExpr3(t.fn.w, t)
      else if |t.args| == 4 then ReadExpr4(t.fn.w, t)
      else if |t.args| > 4 then ReadLong(t.fn.w, t)
      else None
    else None
  }

  function ReadExpr1(head: string, t: Term): Option<CExpr>
    requires t.Apply? && |t.args| == 1
    decreases t, 1
  {
    var a := t.args[0];
    if head == "Ebool" then
      var b :- ReadBool(a);
      Some(Ebool(b))
    else if head == "Ethis" then
      var ty :- ReadType(a);
      Some(Ethis(ty))
    else
      var x :- ReadExpr(a);
      Around(head, x)
  }

  function Around(head: string, x: CExpr): Option<CExpr> {
    if head == "Eread_ref" then Some(EreadRef(x))
    else if head == "Eaddrof" then Some(Eaddrof(x))
    else if head == "Eandclean" then Some(Eandclean(x))
    else if head == "Eimplicit" then Some(Eimplicit(x))
    else None
  }

  function ReadExpr2(head: string, t: Term): Option<CExpr>
    requires t.Apply? && |t.args| == 2
    decreases t, 2
  {
    var (a, b) := (t.args[0], t.args[1]);
    if head == "Ecomma" || head == "Eseqand" || head == "Eseqor" then
      var l :- ReadExpr(a);
      var r :- ReadExpr(b);
      Some(if head == "Ecomma" then Ecomma(l, r) else if head == "Eseqand" then Eseqand(l, r) else Eseqor(l, r))
    else if head == "Ematerialize_temp" then
      var x :- ReadExpr(a);
      var vc :- ReadVc(b);
      Some(EmaterializeTemp(x, vc))
    else
      var ty :- ReadType(b);
      ReadTyped(head, t, ty)
  }

  /** One argument ahead of the type. */
  function ReadTyped(head: string, t: Term, ty: CoqType): Option<CExpr>
    requires t.Apply? && |t.args| == 2
    decreases t, 1
  {
    var a := t.args[0];
    if head == "Eint" then
      var n :- ReadScoped(a, "Z");
      Some(Eint(n, ty))
    else if head == "Echar" then
      var n :- ReadScoped(a, "N");
      Some(Echar(n, ty))
    else if head == "Estring" then
      var units :- ReadUnits(a);
      Some(Estring(units, ty))
    else if head == "Evar" then
      var name :- ReadName(a);
      Some(Evar(name, ty))
    else if head == "Earrayloop_index" then
      var n :- ReadNat(a);
      Some(EarrayloopIndex(n, ty))
    else
      var x :- ReadExpr(a);
      Operated(head, x, ty)
  }

  function Operated(head: string, x: CExpr, ty: CoqType): Option<CExpr> {
    if head == "Ederef" then Some(Ederef(x, ty))
    else if head == "Epreinc" then Some(Epreinc(x, ty))
    else if head == "Epostinc" then Some(Epostinc(x, ty))
    else if head == "Epredec" then Some(Epredec(x, ty))
    else if head == "Epostdec" then Some(Epostdec(x, ty))
    else None
  }

  function ReadExpr3(head: string, t: Term): Option<CExpr>
    requires t.Apply? && |t.args| == 3
    decreases t, 1
  {
    var (a, b) := (t.args[0], t.args[1]);
    var ty :- ReadType(t.args[2]);
    if head == "Eunop" then
      var op :- ReadUnOp(a);
      var x :- ReadExpr(b);
      Some(Eunop(op, x, ty))
    else if head == "Eassign" || head == "Esubscript" then
      var l :- ReadExpr(a);
      var r :- ReadExpr(b);
      Some(if head == "Eassign" then Eassign(l, r, ty) else Esubscript(l, r, ty))
    else if head == "Ecall" then
      var f :- ReadExpr(a);
      var xs :- ReadExprs(b);
      Some(Ecall(f, xs, ty))
    else if head == "Econstructor" then
      var xs :- ReadExprs(b);
      if a.Lit? then Some(Econstructor(a.s, xs, ty)) else None
    else if head == "Emember" then
      var x :- ReadExpr(a);
      var f :- ReadField(b);
      Some(Emember(x, f.0, f.1, ty))
    else if head == "Einitlist" then
      var xs :- ReadExprs(a);
      var filler :- ReadOptExpr(b);
      Some(Einitlist(xs, filler, ty))
    else if head == "Eopaque_ref" then
      var n :- ReadNat(a);
      var vc :- ReadVc(b);
      Some(EopaqueRef(n, vc, ty))
    else None
  }

  function ReadExpr4(head: string, t: Term): Option<CExpr>
    requires t.Apply? && |t.args| == 4
    decreases t, 1
  {
    var (a, b, c) := (t.args[0], t.args[1], t.args[2]);
    var ty :- ReadType(t.args[3]);
    if head == "Ebinop" || head == "Eassign_op" then
      var op :- ReadBinOp(a);
      var l :- ReadExpr(b);
      var r :- ReadExpr(c);
      Some(if head == "Ebinop" then Ebinop(op, l, r, ty) else EassignOp(op, l, r, ty))
    else if head == "Emember_call" then
      var m :- ReadCallee(a);
      var x :- ReadExpr(b);
      var xs :- ReadExprs(c);
      Some(EmemberCall(m.0, m.1, m.2, x, xs, ty))
    else if head == "Ecast" then
      var x :- ReadExpr(b);
      var vc :- ReadVc(c);
      if a.Ident? then Some(Ecast(a.w, x, vc, ty)) else None
    else None
  }

  /** Five, six and seven arguments. */
  function ReadLong(head: string, t: Term): Option<CExpr>
    requires t.Apply? && |t.args| > 4
    decreases t, 1
  {
    var args := t.args;
    if head == "Eif" && |args| == 5 then
      var c :- ReadExpr(args[0]);
      var x :- ReadExpr(args[1]);
      var y :- ReadExpr(args[2]);
      var vc :- ReadVc(args[3]);
      var ty :- ReadType(args[4]);
      Some(Eif(c, x, y, vc, ty))
    else if head == "Earrayloop_init" && |args| == 6 then
      var n :- ReadNat(args[0]);
      var s :- ReadExpr(args[1]);
      var level :- ReadNat(args[2]);
      var size :- ReadNat(args[3]);
      var x :- ReadExpr(args[4]);
      var ty :- ReadType(args[5]);
      Some(EarrayloopInit(n, s, level, size, x, ty))
    else if head == "Eif2" && |args| == 7 then
      var n :- ReadNat(args[0]);
      var m :- ReadExpr(args[1]);
      var c :- ReadExpr(args[2]);
      var x :- ReadExpr(args[3]);
      var y :- ReadExpr(args[4]);
      var vc :- ReadVc(args[5]);
      var ty :- ReadType(args[6]);
      Some(Eif2(n, m, c, x, y, vc, ty))
    else None
  }

  function ReadExprs(t: Term): Option<seq<CExpr>>
    decreases t, 4
  {
    match t
    case Ident(w) => if w == "nil" then Some([]) else None
    case Infix(op, l, r) =>
      if op != "::" then None
      else
        var x :- ReadExpr(l);
        var rest :- ReadExprs(r);
        Some([x] + rest)
    case _ => None
  }

  function ReadOptExpr(t: Term): Option<Option<CExpr>>
    decreases t, 4
  {
    var o :- ReadOption(t);
    match o
    case Some(u) =>
      var x :- ReadExpr(u);
      Some(Some(x))
    case None => Some(None)
  }

  // ---- Declarations --------------------------------------------------------------------------

  /** The declaration that a term spells. */
  function ReadDecl(t: Term): Option<CDecl>
    decreases t, 1
  {
    if !(t.Apply? && t.fn.Ident?) then None
    else if t.fn.w == "Dvar" && |t.args| == 3 then
      var ty :- ReadType(t.args[1]);
      var init :- ReadOptExpr(t.args[2]);
      if t.args[0].Lit? then Some(Dvar(t.args[0].s, ty, init)) else None
    else if t.fn.w == "Dinit" && |t.args| == 4 then
      var safe :- ReadBool(t.args[0]);
      var ty :- ReadType(t.args[2]);
      var init :- ReadOptExpr(t.args[3]);
      if t.args[1].Lit? then Some(Dinit(safe, t.args[1].s, ty, init)) else None
    else if t.fn.w == "Ddecompose" && |t.args| == 3 then
      var source :- ReadExpr(t.args[0]);
      var bindings :- ReadDecls(t.args[2]);
      if t.args[1].Lit? then Some(Ddecompose(source, t.args[1].s, bindings)) else None
    else None
  }

  function ReadDecls(t: Term): Option<seq<CDecl>>
    decreases t, 2
  {
    match t
    case Ident(w) => if w == "nil" then Some([]) else None
    case Infix(op, l, r) =>
      if op != "::" then None
      else
        var x :- ReadDecl(l);
        var rest :- ReadDecls(r);
        Some([x] + rest)
    case _ => None
  }

  function ReadOptDecl(t: Term): Option<Option<CDecl>> {
    var o :- ReadOption(t);
    match o
    case Some(u) =>
      var x :- ReadDecl(u);
      Some(Some(x))
    case None => Some(None)
  }
}

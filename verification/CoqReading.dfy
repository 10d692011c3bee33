/** Reading statements back from terms and from text. */
module CoqReading {
  import opened Text
  import opened CoqTerms
  import opened CoqExprs
  import opened CoqStmts

  datatype Head =
    | HSeq | HDecl | HIf | HWhile | HFor | HDo | HSwitch | HCase | HExpr | HReturn | HAttr
    | HLabeled | HGoto

  function HeadName(h: Head): string {
    match h
    case HSeq => "Sseq"
    case HDecl => "Sdecl"
    case HIf => "Sif"
    case HWhile => "Swhile"
    case HFor => "Sfor"
    case HDo => "Sdo"
    case HSwitch => "Sswitch"
    case HCase => "Scase"
    case HExpr => "Sexpr"
    case HReturn => "Sreturn_val"
    case HAttr => "Sattr"
    case HLabeled => "Slabeled"
    case HGoto => "Sgoto"
  }

  /** The only constructor that can have this name, judging by its length and second letter. */
  function Candidate(w: string): Option<Head> {
    if |w| == 3 then Some(if w[1] == 'i' then HIf else HDo)
    else if |w| == 4 then Some(if w[1] == 's' then HSeq else HFor)
    else if |w| == 5 then
      Some(if w[1] == 'd' then HDecl else if w[1] == 'e' then HExpr
           else if w[1] == 'a' then HAttr else if w[1] == 'c' then HCase else HGoto)
    else if |w| == 6 then Some(HWhile)
    else if |w| == 7 then Some(HSwitch)
    else if |w| == 8 then Some(HLabeled)
    else if |w| == 11 then Some(HReturn)
    else None
  }

  function HeadOf(w: string): (r: Option<Head>)
    ensures r.Some? ==> HeadName(r.value) == w
  {
    var h := Candidate(w);
    if h.Some? && HeadName(h.value) == w then h else None
  }

  lemma HeadKnown(h: Head)
    ensures HeadOf(HeadName(h)) == Some(h)
  {
  }

  function ReadTerms(t: Term): Option<seq<Term>> {
    match t
    case Ident(w) => if w == "nil" then Some([]) else None
    case Infix(op, l, r) =>
      var rest := ReadTerms(r);
      if op == "::" && rest.Some? then Some([l] + rest.value) else None
    case _ => None
  }

  function ReadNames(ts: seq<Term>): Option<seq<string>> {
    if ts == [] then Some([])
    else
      var rest := ReadNames(ts[1..]);
      if ts[0].Lit? && rest.Some? then Some([ts[0].s] + rest.value) else None
  }

  function ReadNumeral(t: Term): Option<int> {
    match t
    case Ident(w) =>
      if forall i :: 0 <= i < |w| ==> IsDigit(w[i]) then Some(DecimalValue(w)) else None
    case Minus(u) =>
      (match u
       case Ident(w) =>
         if forall i :: 0 <= i < |w| ==> IsDigit(w[i]) then (var n: int := DecimalValue(w); Some(-n)) else None
       case _ => None)
    case _ => None
  }

  /** A constant delimited twice, as `case` labels are. */
  function ReadConstant(t: Term): Option<int> {
    if t.Scoped? && t.scope == "Z" && t.t.Scoped? && t.t.scope == "Z" then ReadNumeral(t.t.t) else None
  }

  function ReadBranch(t: Term): Option<Branch> {
    if t.Apply? && t.fn == Ident("Exact") && |t.args| == 1 then
      var v := ReadConstant(t.args[0]);
      if v.Some? then Some(Exact(v.value)) else None
    else if t.Apply? && t.fn == Ident("Range") && |t.args| == 2 then
      var lo, hi := ReadConstant(t.args[0]), ReadConstant(t.args[1]);
      if lo.Some? && hi.Some? then Some(Range(lo.value, hi.value)) else None
    else None
  }

  function ReadWord(w: string): Option<CStmt> {
    if w == "Sbreak" then Some(Sbreak)
    else if w == "Scontinue" then Some(Scontinue)
    else if w == "Sdefault" then Some(Sdefault)
    else if w == "Sreturn_void" then Some(SreturnVoid)
    else if w == "Sskip" then Some(Sskip)
    else None
  }

  function ReadStmt(t: Term): Option<CStmt>
    decreases t, 2
  {
    if t.Ident? then ReadWord(t.w)
    else if t.Apply? && t.fn.Ident? && HeadOf(t.fn.w).Some? then ReadNode(HeadOf(t.fn.w).value, t)
    else None
  }

  function ReadNode(h: Head, t: Term): Option<CStmt>
    requires t.Apply?
    decreases t, 1
  {
    var args := t.args;
    match h
    case HSeq => if |args| != 1 then None else
      var items :- ReadStmts(args[0]);
      Some(Sseq(items))
    case HDecl => if |args| != 1 then None else
      var decls :- ReadDecls(args[0]);
      Some(Sdecl(decls))
    case HIf => if |args| != 4 then None else ReadIf(t)
    case HWhile => if |args| != 3 then None else
      var v :- ReadOptDecl(args[0]);
      var c :- ReadExpr(args[1]);
      var b :- ReadStmt(args[2]);
      Some(Swhile(v, c, b))
    case HFor => if |args| != 4 then None else ReadFor(t)
    case HDo => if |args| != 2 then None else
      var b :- ReadStmt(args[0]);
      var c :- ReadExpr(args[1]);
      Some(Sdo(b, c))
    case HSwitch => if |args| != 3 then None else
      var v :- ReadOptDecl(args[0]);
      var c :- ReadExpr(args[1]);
      var b :- ReadStmt(args[2]);
      Some(Sswitch(v, c, b))
    case HCase => if |args| != 1 then None else
      var b :- ReadBranch(args[0]);
      Some(Scase(b))
    case HExpr => if |args| != 1 then None else
      var e :- ReadExpr(args[0]);
      Some(Sexpr(e))
    case HReturn => if |args| != 1 then None else
      var e :- ReadExpr(args[0]);
      Some(SreturnVal(e))
    case HAttr => if |args| != 2 then None else ReadAttr(t)
    case HLabeled => if |args| != 2 || !args[0].Lit? then None else
      var b :- ReadStmt(args[1]);
      Some(Slabeled(args[0].s, b))
    case HGoto => if |args| != 1 || !args[0].Lit? then None else Some(Sgoto(args[0].s))
  }

  function ReadIf(t: Term): Option<CStmt>
    requires t.Apply? && |t.args| == 4
    decreases t, 0
  {
    var v :- ReadOptDecl(t.args[0]);
    var c :- ReadExpr(t.args[1]);
    var thn :- ReadStmt(t.args[2]);
    var els :- ReadStmt(t.args[3]);
    Some(Sif(v, c, thn, els))
  }

  function ReadFor(t: Term): Option<CStmt>
    requires t.Apply? && |t.args| == 4
    decreases t, 0
  {
    var init :- ReadOption(t.args[0]);
    var test :- ReadOptExpr(t.args[1]);
    var inc :- ReadOptExpr(t.args[2]);
    var b :- ReadStmt(t.args[3]);
    match init
    case Some(u) =>
      var i :- ReadStmt(u);
      Some(Sfor(Some(i), test, inc, b))
    case None => Some(Sfor(None, test, inc, b))
  }

  function ReadAttr(t: Term): Option<CStmt>
    requires t.Apply? && |t.args| == 2
    decreases t, 0
  {
    var ts :- ReadTerms(t.args[0]);
    var names :- ReadNames(ts);
    var b :- ReadStmt(t.args[1]);
    Some(Sattr(names, b))
  }

  function ReadStmts(t: Term): Option<seq<CStmt>>
    decreases t, 3
  {
    match t
    case Ident(w) => if w == "nil" then Some([]) else None
    case Infix(op, l, r) =>
      if op != "::" then None
      else
        var x :- ReadStmt(l);
        var rest :- ReadStmts(r);
        Some([x] + rest)
    case _ => None
  }

  /** The statement that a text spells. */
  function ReadProgram(text: string): Option<CStmt> {
    var t :- ReadText(text);
    ReadStmt(t)
  }
}

/** Types read back from terms, and what the text of a type denotes. */
module CoqTypeReading {
  import opened Text
  import opened ClangAst
  import opened Formatters
  import opened CoqTerms
  import opened Docs
  import opened DocReading
  import opened DocTerms
  import opened DocParsing
  import opened CoqTypes
  import opened ExprDocs
  import opened ExprReading

  /** The type that a term spells: `type` of theories/lang/cpp/syntax/types.v. */
  function ReadType(t: Term): Option<CoqType>
    decreases t, 1
  {
    match t
    case Ident(w) => Some(Tatom(w))
    case Apply(fn, args) => if fn.Ident? && |args| == 1 then ReadHead(fn.w, t) else None
    case _ => None
  }

  function ReadHead(head: string, t: Term): Option<CoqType>
    requires t.Apply? && |t.args| == 1
    decreases t, 0
  {
    var a := t.args[0];
    if head == "Tnamed" then if a.Lit? then Some(Tnamed(a.s)) else None
    else if head == "Tenum" then if a.Lit? then Some(Tenum(a.s)) else None
    else
      var p :- ReadType(a);
      if head == "Tptr" then Some(Tptr(p))
      else if head == "Tref" then Some(Tref(p))
      else if head == "Trv_ref" then Some(TrvRef(p))
      else if head == "Qconst" then Some(Tqualified(true, false, p))
      else if head == "Qmut_volatile" then Some(Tqualified(false, true, p))
      else if head == "Qconst_volatile" then Some(Tqualified(true, true, p))
      else None
  }

  /** No qualifier without a flag. */
  predicate Qualifies(t: CoqType) {
    match t
    case Tqualified(c, v, p) => (c || v) && Qualifies(p)
    case Tptr(p) => Qualifies(p)
    case Tref(p) => Qualifies(p)
    case TrvRef(p) => Qualifies(p)
    case _ => true
  }

  lemma {:induction false} PrintedQualifies(ty: Type)
    ensures Qualifies(PrintedType(ty))
    ensures forall qt: QualType :: qt.ty == ty ==> Qualifies(Printed(qt))
  {
    match ty
    case PointerTo(p) => PrintedQualifies(p.ty);
    case LvalueRef(p) => PrintedQualifies(p.ty);
    case RvalueRef(p) => PrintedQualifies(p.ty);
    case TypedefTy(u) => PrintedQualifies(u.ty);
    case ParenTy(i) => PrintedQualifies(i.ty);
    case ElaboratedTy(n) => PrintedQualifies(n.ty);
    case _ =>
  }

  lemma TypePlain(t: CoqType)
    ensures !TypeDoc(t).DJoin?
  {
  }

  /** The term of a type reads as that type. */
  lemma {:induction false} TypeRead(t: CoqType)
    requires Qualifies(t)
    ensures ReadType(TermOf(TypeDoc(t))) == Some(t)
  {
    hide TermOf;
    match t
    case Tatom(name) => WordTerm(name);
    case Tnamed(name) =>
      Terms1(false, "Tnamed", Tight, DQuoted(name), Tight);
      QuotedTerm(name);
    case Tenum(name) =>
      Terms1(false, "Tenum", Tight, DQuoted(name), Tight);
      QuotedTerm(name);
    case Tqualified(c, v, p) =>
      TypeRead(p);
      TypePlain(p);
      Terms1(false, QualifierHead(c, v), Tight, TypeDoc(p), Tight);
    case Tptr(p) =>
      TypeRead(p);
      TypePlain(p);
      Terms1(false, "Tptr", Tight, TypeDoc(p), Tight);
    case Tref(p) =>
      TypeRead(p);
      TypePlain(p);
      Terms1(false, "Tref", Tight, TypeDoc(p), Tight);
    case TrvRef(p) =>
      TypeRead(p);
      TypePlain(p);
      Terms1(false, "Trv_ref", Tight, TypeDoc(p), Tight);
  }

  /** The text of a qualified type spells a type, and merging its nested qualifiers gives the
      canonical type, at every level of pointers and references. */
  lemma SugarText(qt: QualType)
    requires QualOk(qt)
    ensures ReadText(Put(INITIAL, QualDoc(qt)).out).Some?
    ensures var t := ReadType(ReadText(Put(INITIAL, QualDoc(qt)).out).value);
            t.Some? && Merge(t.value) == Direct(Canonical(qt))
  {
    hide ReadType, ReadText, Put, TermOf, Merge, Direct, Canonical;
    QualAtomic(qt);
    ReadBack(QualDoc(qt));
    QualTermRead(qt);
    SugarErasure(qt);
  }

  lemma QualTermRead(qt: QualType)
    ensures ReadType(TermOf(QualDoc(qt))) == Some(Printed(qt)) && !QualDoc(qt).DJoin?
  {
    hide ReadType, TermOf;
    PrintedQualifies(qt.ty);
    TypeRead(Printed(qt));
    TypePlain(Printed(qt));
  }

  lemma TypeTermRead(ty: Type)
    ensures ReadType(TermOf(TypeDoc(PrintedType(ty)))) == Some(PrintedType(ty)) && !TypeDoc(PrintedType(ty)).DJoin?
  {
    hide ReadType, TermOf;
    PrintedQualifies(ty);
    TypeRead(PrintedType(ty));
    TypePlain(PrintedType(ty));
  }
}

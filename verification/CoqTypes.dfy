/** Printing of types (src/PrintType.cpp): sugar is dropped and qualifiers are written where
    they occur, so that the nested qualifiers have to add up to those of the canonical type. */
module CoqTypes {
  import opened Text
  import opened ClangAst
  import opened Docs
  import opened Lexing

  /** Types as the printed text shows them. */
  datatype CoqType =
    | Tatom(name: string)
    | Tptr(t: CoqType)
    | Tref(t: CoqType)
    | TrvRef(t: CoqType)
    | Tnamed(name: string)
    | Tenum(name: string)
    | Tqualified(isConst: bool, isVolatile: bool, t: CoqType)

  predicate IsSugar(ty: Type) {
    ty.TypedefTy? || ty.ParenTy? || ty.ElaboratedTy?
  }

  /** What a sugared type stands for. */
  function Desugar(ty: Type): (qt: QualType)
    requires IsSugar(ty)
    ensures qt < ty
  {
    match ty
    case TypedefTy(u) => u
    case ParenTy(i) => i
    case ElaboratedTy(n) => n
  }

  /** No sugar at any level. */
  predicate IsCanonical(qt: QualType) {
    && !IsSugar(qt.ty)
    && (qt.ty.PointerTo? || qt.ty.LvalueRef? || qt.ty.RvalueRef? ==> IsCanonical(qt.ty.pointee))
  }

  /** Clang's canonical type: no sugar at any level, qualifiers accumulated. */
  function Canonical(qt: QualType): (r: QualType)
    ensures IsCanonical(r)
    decreases qt
  {
    if IsSugar(qt.ty) then
      var c := Canonical(Desugar(qt.ty));
      QualType(qt.isConst || c.isConst, qt.isVolatile || c.isVolatile, c.ty)
    else
      match qt.ty
      case PointerTo(p) => QualType(qt.isConst, qt.isVolatile, PointerTo(Canonical(p)))
      case LvalueRef(p) => QualType(qt.isConst, qt.isVolatile, LvalueRef(Canonical(p)))
      case RvalueRef(p) => QualType(qt.isConst, qt.isVolatile, RvalueRef(Canonical(p)))
      case _ => qt
  }

  /** Clang's `isVolatileQualified`: the local qualifier or that of the canonical type. */
  predicate IsVolatileQualified(qt: QualType) {
    qt.isVolatile || Canonical(QualType(false, false, qt.ty)).isVolatile
  }

  /** The type as `printQualType` writes it. */
  function Printed(qt: QualType): CoqType
    decreases qt, 1
  {
    if qt.isConst then Tqualified(true, IsVolatileQualified(qt), PrintedType(qt.ty))
    else if qt.isVolatile then Tqualified(false, true, PrintedType(qt.ty))
    else PrintedType(qt.ty)
  }

  function PrintedType(ty: Type): CoqType
    decreases ty, 0
  {
    match ty
    case Builtin(name) => Tatom(name)
    case PointerTo(p) => Tptr(Printed(p))
    case LvalueRef(p) => Tref(Printed(p))
    case RvalueRef(p) => TrvRef(Printed(p))
    case RecordTy(name) => Tnamed(name)
    case EnumTy(name) => Tenum(name)
    case _ => Printed(Desugar(ty))
  }

  /** The layout of a type. */
  function TypeDoc(t: CoqType): Doc {
    match t
    case Tatom(name) => DWord(name)
    case Tptr(p) => DCtor(false, "Tptr", More(Tight, TypeDoc(p), END))
    case Tref(p) => DCtor(false, "Tref", More(Tight, TypeDoc(p), END))
    case TrvRef(p) => DCtor(false, "Trv_ref", More(Tight, TypeDoc(p), END))
    case Tnamed(name) => DCtor(false, "Tnamed", More(Tight, DQuoted(name), END))
    case Tenum(name) => DCtor(false, "Tenum", More(Tight, DQuoted(name), END))
    case Tqualified(c, v, p) => DCtor(false, QualifierHead(c, v), More(Tight, TypeDoc(p), END))
  }

  function QualifierHead(isConst: bool, isVolatile: bool): string {
    if isConst then (if isVolatile then "Qconst_volatile" else "Qconst") else "Qmut_volatile"
  }

  /** Nested qualifiers merge, as Coq's `tqualified` merges them; unqualified types carry
      explicit empty qualifiers. */
  function Merge(t: CoqType): (r: CoqType)
    ensures r.Tqualified? && !r.t.Tqualified?
  {
    match t
    case Tqualified(c, v, p) =>
      var m := Merge(p);
      Tqualified(c || m.isConst, v || m.isVolatile, m.t)
    case Tptr(p) => Tqualified(false, false, Tptr(Merge(p)))
    case Tref(p) => Tqualified(false, false, Tref(Merge(p)))
    case TrvRef(p) => Tqualified(false, false, TrvRef(Merge(p)))
    case _ => Tqualified(false, false, t)
  }

  /** A canonical type in Coq's terms, every level with its qualifiers. */
  function Direct(qt: QualType): CoqType
    requires IsCanonical(qt)
    decreases qt
  {
    Tqualified(qt.isConst, qt.isVolatile,
      match qt.ty
      case Builtin(name) => Tatom(name)
      case PointerTo(p) => Tptr(Direct(p))
      case LvalueRef(p) => Tref(Direct(p))
      case RvalueRef(p) => TrvRef(Direct(p))
      case RecordTy(name) => Tnamed(name)
      case EnumTy(name) => Tenum(name))
  }

  /** Erasing sugar loses no qualifier: merging what is printed gives the canonical type,
      at every level of pointers and references. */
  lemma {:induction false} SugarErasure(qt: QualType)
    ensures Merge(Printed(qt)) == Direct(Canonical(qt))
    decreases qt, 1
  {
    TypeErasure(qt.ty);
    assert Canonical(qt).ty == Canonical(QualType(false, false, qt.ty)).ty;
  }

  lemma {:induction false} TypeErasure(ty: Type)
    ensures Merge(PrintedType(ty)) == Direct(Canonical(QualType(false, false, ty)))
    decreases ty, 0
  {
    match ty
    case PointerTo(p) => SugarErasure(p);
    case LvalueRef(p) => SugarErasure(p);
    case RvalueRef(p) => SugarErasure(p);
    case TypedefTy(_) => SugarErasure(Desugar(ty));
    case ParenTy(_) => SugarErasure(Desugar(ty));
    case ElaboratedTy(_) => SugarErasure(Desugar(ty));
    case _ =>
  }

  /** A `const` type is printed with the volatility of the canonical type, whatever sugar hides
      it; otherwise only a qualifier of the type itself is written. */
  lemma OwnQualifiers(qt: QualType)
    ensures qt.isConst ==> Printed(qt) == Tqualified(true, Canonical(qt).isVolatile, PrintedType(qt.ty))
    ensures !qt.isConst && qt.isVolatile ==> Printed(qt) == Tqualified(false, true, PrintedType(qt.ty))
    ensures !qt.isConst && !qt.isVolatile ==> Printed(qt) == PrintedType(qt.ty)
  {
    assert Canonical(qt).isVolatile == IsVolatileQualified(qt);
  }
}

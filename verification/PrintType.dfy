/** The type visitors of src/PrintType.cpp. */
module PrintTypes {
  import opened ClangAst
  import opened CoqTypes
  import opened Docs
  import opened CoqPrinters

  method PrintQualType(qt: QualType, coq: CoqPrinter)
    modifies coq.output
    ensures coq.output.St() == Put(old(coq.output.St()), TypeDoc(Printed(qt)))
    ensures coq.output.depth == old(coq.output.depth)
    decreases qt, 1
  {
    hide Put, PutArgs;
    ghost var st := coq.output.St();
    ghost var d := TypeDoc(PrintedType(qt.ty));
    if qt.isConst {
      if IsVolatileQualified(qt) {
        coq.Ctor("Qconst_volatile", false);
      } else {
        coq.Ctor("Qconst", false);
      }
      PrintType(qt.ty, coq);
      PutEnd(coq.output.St());
      coq.EndCtor();
      PutCtor1(st, false, QualifierHead(true, IsVolatileQualified(qt)), d, END);
    } else if qt.isVolatile {
      coq.Ctor("Qmut_volatile", false);
      PrintType(qt.ty, coq);
      PutEnd(coq.output.St());
      coq.EndCtor();
      PutCtor1(st, false, "Qmut_volatile", d, END);
    } else {
      PrintType(qt.ty, coq);
    }
  }

  method PrintPointer(head: string, pointee: QualType, coq: CoqPrinter)
    modifies coq.output
    ensures coq.output.St()
         == Put(old(coq.output.St()), DCtor(false, head, Arg0(TypeDoc(Printed(pointee)), END)))
    ensures coq.output.depth == old(coq.output.depth)
    decreases pointee, 2
  {
    hide Put, PutArgs, Printed, TypeDoc;
    ghost var st := coq.output.St();
    coq.Ctor(head, false);
    PrintQualType(pointee, coq);
    PutEnd(coq.output.St());
    coq.EndCtor();
    PutCtor1(st, false, head, TypeDoc(Printed(pointee)), END);
  }

  /** A type known by its name alone. */
  method PrintNamed(head: string, name: string, coq: CoqPrinter)
    modifies coq.output
    ensures coq.output.St() == Put(old(coq.output.St()), DCtor(false, head, Arg0(DQuoted(name), END)))
    ensures coq.output.depth == old(coq.output.depth)
  {
    ghost var st := coq.output.St();
    coq.Ctor(head, false);
    coq.Str(name);
    PutEnd(coq.output.St());
    coq.EndCtor();
    PutCtor1(st, false, head, DQuoted(name), END);
  }

  method PrintType(ty: Type, coq: CoqPrinter)
    modifies coq.output
    ensures coq.output.St() == Put(old(coq.output.St()), TypeDoc(PrintedType(ty)))
    ensures coq.output.depth == old(coq.output.depth)
    decreases ty, 0
  {
    match ty
    case Builtin(name) => coq.output.Put(name);
    case PointerTo(pointee) => PrintPointer("Tptr", pointee, coq);
    case LvalueRef(pointee) => PrintPointer("Tref", pointee, coq);
    case RvalueRef(pointee) => PrintPointer("Trv_ref", pointee, coq);
    case RecordTy(name) => PrintNamed("Tnamed", name, coq);
    case EnumTy(name) => PrintNamed("Tenum", name, coq);
    case TypedefTy(underlying) => PrintQualType(underlying, coq);
    case ParenTy(inner) => PrintQualType(inner, coq);
    case ElaboratedTy(named) => PrintQualType(named, coq);
  }
}

/** The parts of Clang's syntax trees that the printers inspect, as plain values. */
module ClangAst {
  import opened Text

  datatype QualType = QualType(isConst: bool, isVolatile: bool, ty: Type)

  /** `Builtin` carries the Coq name of the type; the last three constructors are sugar. */
  datatype Type =
    | Builtin(name: string)
    | PointerTo(pointee: QualType)
    | LvalueRef(pointee: QualType)
    | RvalueRef(pointee: QualType)
    | RecordTy(name: string)
    | EnumTy(name: string)
    | TypedefTy(underlying: QualType)
    | ParenTy(inner: QualType)
    | ElaboratedTy(named: QualType)

  datatype ValCat = Lvalue | Prvalue | Xvalue

  /** A value declaration that an expression refers to. `local` declarations live in a function
      and are neither functions nor static; the name is the one Clang prints for it. */
  datatype ValueDecl = ValueDecl(id: nat, name: string, local: bool, reference: bool)

  datatype UnaryOp =
    | Plus | Minus | Not | LNot | AddrOf | Deref | PostInc | PostDec | PreInc | PreDec

  datatype BinaryOp =
    | Arith(op: ArithOp) | Assign | CompoundAssign(op: ArithOp) | Comma | LAnd | LOr

  datatype ArithOp =
    | Add | And | Cmp | Div | EQ | GE | GT | LE | LT | Mul | NE | Or | Rem | Shl | Shr | Sub | Xor

  datatype StringData = StringData(bytes: seq<int>, width: nat, length: nat)

  /** The bytes of a string literal: `length` code units of `width` bytes each. */
  type StringBytes = s: StringData | s.width > 0 && |s.bytes| == s.length * s.width
    witness StringData([], 1, 0)

  /** Opaque values are identified by a number, as Clang's nodes are by their address. The operand
      of an access or a call through `->` is the dereferenced pointer. */
  datatype Expr =
    | NullPtr
    | BoolLiteral(val: bool)
    | IntegerLiteral(num: nat, ty: QualType)
    | CharacterLiteral(num: nat, ty: QualType)
    | StringLiteral(str: StringBytes, elem: Type)
    | This(ty: QualType)
    | DeclRef(decl: ValueDecl, ty: QualType)
    | Unary(uop: UnaryOp, sub: Expr, ty: QualType)
    | Binary(bop: BinaryOp, lhs: Expr, rhs: Expr, ty: QualType)
    | Subscript(lhs: Expr, rhs: Expr, ty: QualType)
    | Call(callee: Expr, args: seq<Expr>, ty: QualType)
    | MemberCall(name: string, virtually: bool, methodTy: QualType, receiver: Expr,
                 args: seq<Expr>, ty: QualType)
    | Construct(name: string, args: seq<Expr>, ty: QualType)
    | Cast(kind: string, sub: Expr, vc: ValCat, ty: QualType)
    | Member(sub: Expr, record: string, field: string, reference: bool, ty: QualType)
    | Conditional(cond: Expr, thn: Expr, els: Expr, vc: ValCat, ty: QualType)
    | BinaryConditional(opaque_: nat, common: Expr, cond: Expr, thn: Expr, els: Expr,
                        vc: ValCat, ty: QualType)
    | Transparent(sub: Expr)
    | InitList(args: seq<Expr>, filler: Option<Expr>, ty: QualType)
    | WithCleanups(sub: Expr)
    | MaterializeTemporary(sub: Expr, vc: ValCat)
    | DefaultArg(sub: Expr)
    | OpaqueValue(opaque_: nat, vc: ValCat, ty: QualType)
    | ArrayInitLoop(opaque_: nat, source: Expr, size: nat, sub: Expr, ty: QualType)
    | ArrayInitIndex(ty: QualType)

  datatype Binding = Binding(name: string, expr: Expr)

  /** Static locals record whether the language asks for thread-safe initialization. */
  datatype Storage = Automatic | StaticLocal(threadSafe: bool)

  /** `Unprinted` stands for local types and static assertions, which are skipped. */
  datatype LocalDecl =
    | VarDecl(name: string, storage: Storage, ty: QualType, init: Option<Expr>)
    | Decomposition(id: nat, source: Expr, ty: QualType, bindings: seq<Binding>)
    | Unprinted

  /** The declaration in a condition is always a variable. */
  type ConditionVar = d: LocalDecl | d.VarDecl?
    witness VarDecl("", Automatic, QualType(false, false, Builtin("")), None)

  datatype Stmt =
    | DeclStmt(decls: seq<LocalDecl>)
    | While(condVar: Option<ConditionVar>, cond: Expr, body: Stmt)
    | For(init: Option<Stmt>, test: Option<Expr>, inc: Option<Expr>, body: Stmt)
    | Do(body: Stmt, cond: Expr)
    | Break
    | Continue
    | If(condVar: Option<ConditionVar>, cond: Expr, thn: Stmt, els: Option<Stmt>)
    | Case(lo: int, hi: Option<int>, sub: Stmt)
    | Default(defaulted: Option<Stmt>)
    | Switch(condVar: Option<ConditionVar>, cond: Expr, body: Stmt)
    | ExprStmt(expr: Expr)
    | Return(val: Option<Expr>)
    | Compound(items: seq<Stmt>)
    | Null
    | Attributed(attrs: seq<string>, sub: Stmt)
    | LabelStmt(name: string, sub: Stmt)
    | Goto(name: string)
}

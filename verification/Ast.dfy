/** Syntax trees of Subset C, without source positions. */
module Ast {
  import opened Words

  datatype BinOp =
    | Mul | Div | Mod
    | Add | Sub
    | Shl | Shr
    | Lt | Gt | Le | Ge
    | Eq | Ne
    | BitAnd
    | BitXor
    | BitOr
    | LogAnd
    | LogOr

  datatype UnOp = Neg | Not | Deref | AddrOf

  datatype Expr =
    | Identifier(name: string)
    | IntegerLiteral(value: nat)
    | CharLiteral(ch: char)
    | StringLiteral(text: string)
    | BinaryOp(op: BinOp, left: Expr, right: Expr)
    | UnaryOp(uop: UnOp, operand: Expr)
    | Assignment(target: Expr, source: Expr)
    | FunctionCall(callee: string, arguments: seq<Expr>)
    | ArrayAccess(base: Expr, index: Expr)

  datatype Stmt =
    | VarDecl(name: string, arraySize: Option<nat>, initializer: Option<Expr>)
    | CompoundStmt(statements: seq<Stmt>)
    | ExprStmt(expression: Option<Expr>)
    | IfStmt(condition: Expr, thenStmt: Stmt, elseStmt: Option<Stmt>)
    | WhileStmt(condition: Expr, body: Stmt)
    | ForStmt(init: Option<Expr>, test: Option<Expr>, increment: Option<Expr>, body: Stmt)
    | ReturnStmt(value: Option<Expr>)

  datatype Function = Function(name: string, body: seq<Stmt>)

  /** What the operators compute on 32-bit words. Both operands of && and || are values here:
      short-circuiting is the business of whoever evaluates them. C gives shifts by less than 0 or
      more than 31 no meaning; they are taken as the processor takes them, by their low byte. */
  function EvalBin(op: BinOp, a: word, b: word): word {
    match op
    case Add => Wrap(a + b)
    case Sub => Wrap(a - b)
    case Mul => Wrap(a * b)
    case Div => Wrap(TruncDiv(a, b))
    case Mod => Wrap(TruncRem(a, b))
    case Shl => if LowByte(b) < 32 then Wrap(a * Pow2(LowByte(b))) else 0
    case Shr => if LowByte(b) < 32 then Wrap(a / Pow2(LowByte(b))) else if a < 0 then -1 else 0
    case Lt => Truth(a < b)
    case Gt => Truth(a > b)
    case Le => Truth(a <= b)
    case Ge => Truth(a >= b)
    case Eq => Truth(a == b)
    case Ne => Truth(a != b)
    case BitAnd => BitsW(And, a, b)
    case BitXor => BitsW(Xor, a, b)
    case BitOr => BitsW(Or, a, b)
    case LogAnd => Truth(a != 0 && b != 0)
    case LogOr => Truth(a != 0 || b != 0)
  }

  function LowByte(b: word): nat {
    Unsigned(b) % 256
  }

  function Truth(b: bool): word {
    if b then 1 else 0
  }

  /** Unary minus and logical not; the address operators have no meaning on words. */
  function EvalUn(op: UnOp, a: word): Option<word> {
    match op
    case Neg => Some(Wrap(0 - a))
    case Not => Some(Truth(a == 0))
    case Deref => None
    case AddrOf => None
  }
}

/**
  The expression parser: precedence climbing that evaluates as it goes, and the linear scan that
  passes over the unused operand of a short-circuit. Both are functions of the token list and
  the position before the operand.
 */
module Pratt {
  import opened Phrases

  datatype Oper =
    | Plus | Minus | Multiply | Divide | Percent | Pow | Range
    | Eq | Ne | Lt | Gt | Le | Ge | Tilde | ITilde | FTilde | In
    | BitAnd | BitOr | BitXor | ShiftLeft | ShiftRight
    | LogicAnd | LogicOr | WordOr
    | MapOp | Filter | OutFile
    | Not | Sqr | Sqrt | InFile | Slc | Suc | Sst | Slt | Srt | PathBase | PathAbs | PathName | PathExt | PathParent

  datatype Token = Literal(value: Val) | Op(oper: Oper) | LParen | RParen | Comma | Colon | Eof

  datatype Val = Nil | Num(n: int) | Truth(b: bool) | Text(s: string)

  /** What the operators do to values. */
  datatype Sem = Sem(binary: (Oper, Val, Val) -> Val, prefix: (Oper, Val) -> Val, asBool: Val -> bool)

  /** The precedence table: a level for every operator. */
  type Table = Oper -> int

  const INVALID := -100

  function Level(tab: Table, t: Token): int {
    match t
    case Literal(_) => 1
    case Op(o) => tab(o)
    case LParen => 100
    case Eof => -1
    case _ => INVALID
  }

  /** How tightly an operator holds the operand to its right when it stands before it. */
  function Bind(o: Oper): Option<nat> {
    match o
    case Plus => Some(38)
    case Minus => Some(38)
    case Not => Some(24)
    case Sqr => Some(38)
    case Sqrt => Some(38)
    case InFile => Some(70)
    case Slc => Some(38)
    case Suc => Some(38)
    case Sst => Some(38)
    case Slt => Some(38)
    case Srt => Some(38)
    case PathBase => Some(10)
    case PathAbs => Some(10)
    case PathName => Some(10)
    case PathExt => Some(10)
    case PathParent => Some(10)
    case _ => None
  }

  /** The operators that join two operands. */
  predicate Binary(o: Oper) {
    match o
    case Not => false
    case Sqr => false
    case Sqrt => false
    case InFile => false
    case Slc => false
    case Suc => false
    case Sst => false
    case Slt => false
    case Srt => false
    case PathBase => false
    case PathAbs => false
    case PathName => false
    case PathExt => false
    case PathParent => false
    case _ => true
  }

  datatype Env = Env(toks: seq<Token>, tab: Table, sem: Sem) {
    /** The next token, or Eof after the last. */
    function Peek(pos: int): Token
      requires -1 <= pos
    {
      if pos + 1 < |toks| then toks[pos + 1] else Eof
    }
  }

  /** Where a parse got to, or that the source panics. */
  datatype Parsed = Done(value: Val, pos: int) | Panic

  // ---------------------------------------------------------------- the operators && and ||

  /** The value a left operand settles on its own, if it does. */
  function Settles(sem: Sem, o: Oper, left: Val): Option<Val> {
    match o
    case LogicAnd => if sem.asBool(left) then None else Some(Truth(false))
    case LogicOr => OrSettles(sem, left)
    case WordOr => OrSettles(sem, left)
    case _ => None
  }

  function OrSettles(sem: Sem, left: Val): Option<Val> {
    if left.Text? then (if left.s != "" then Some(left) else None)
    else if sem.asBool(left) then Some(Truth(true)) else None
  }

  /** The value of a binary operator once both operands are known. */
  function Apply(sem: Sem, o: Oper, left: Val, right: Val): Val {
    match o
    case LogicAnd => Truth(sem.asBool(right))
    case LogicOr => if left.Text? then right else Truth(sem.asBool(right))
    case WordOr => if left.Text? then right else Truth(sem.asBool(right))
    case _ => sem.binary(o, left, right)
  }

  // ---------------------------------------------------------------- the skip scan

  /** The position the skip scan stops at: the token after it is the first it does not pass. */
  function Skip(e: Env, pos: int, prec: int, braces: nat): (q: int)
    requires -1 <= pos < |e.toks|
    ensures pos <= q < |e.toks|
    decreases |e.toks| - pos
  {
    match e.Peek(pos)
    case LParen => Skip(e, pos + 1, prec, braces + 1)
    case RParen => if braces == 0 then pos else Skip(e, pos + 1, prec, braces - 1)
    case Comma => if braces == 0 then pos else Skip(e, pos + 1, prec, braces)
    case Colon => pos
    case Eof => pos
    case t =>
      if braces == 0 && Level(e.tab, t) > 1 && prec >= Level(e.tab, t) then pos
      else Skip(e, pos + 1, prec, braces)
  }

  // ---------------------------------------------------------------- precedence climbing

  /** dparse(prec, false), entered with the position before the operand. */
  function Parse(e: Env, pos: int, prec: nat): (r: Parsed)
    requires -1 <= pos < |e.toks|
    ensures r.Done? ==> pos < r.pos
    decreases |e.toks| - pos, 1
  {
    if pos + 1 >= |e.toks| then Done(Nil, pos + 1)
    else
      match Operand(e, pos)
      case Panic => Panic
      case Done(left, pos1) => if pos1 >= |e.toks| then Panic else Climb(e, pos1, prec, left)
  }

  /** The switch on the first token of an operand. */
  function Operand(e: Env, pos: int): (r: Parsed)
    requires -1 <= pos && pos + 1 < |e.toks|
    ensures r.Done? ==> pos < r.pos
    decreases |e.toks| - pos, 0
  {
    match e.toks[pos + 1]
    case Literal(v) => Done(v, pos + 1)
    case Op(o) =>
      (match Bind(o)
       case None => if o == BitOr then Panic else Done(Nil, pos + 1)   // | before an operand runs a shell command
       case Some(u) =>
         match Parse(e, pos + 1, u)
         case Panic => Panic
         case Done(v, pos1) => Done(e.sem.prefix(o, v), pos1))
    case LParen =>
      (match Parse(e, pos + 1, 0)
       case Panic => Panic
       case Done(v, pos1) => if pos1 + 1 < |e.toks| then Done(v, pos1 + 1) else Panic)
    case Eof => Done(Nil, pos + 1)
    case _ => Panic
  }

  /** The loop over binary operators. */
  function Climb(e: Env, pos: int, prec: nat, left: Val): (r: Parsed)
    requires -1 <= pos < |e.toks|
    ensures r.Done? ==> pos <= r.pos
    decreases |e.toks| - pos, 0
  {
    var t := e.Peek(pos);
    if prec >= Level(e.tab, t) then Done(left, pos)
    else if !(t.Op? && Binary(t.oper) && pos + 1 < |e.toks|) then Panic
    else
      var next := NextLevel(e, t.oper);
      match Settles(e.sem, t.oper, left)
      case Some(v) => Climb(e, Skip(e, pos + 1, next, 0), prec, v)
      case None =>
        match Parse(e, pos + 1, next)
        case Panic => Panic
        case Done(right, pos1) =>
          if pos1 >= |e.toks| then Panic
          else Climb(e, pos1, prec, Apply(e.sem, t.oper, left, right))
  }

  /** The precedence at which a right operand is parsed. */
  function NextLevel(e: Env, o: Oper): nat { if e.tab(o) + 1 < 0 then 0 else e.tab(o) + 1 }
}

/**
  Structured Za programs, how they flatten to phrases, and their exact meaning: the meaning the
  statement loop gives them, including the two places where the interpreter's bookkeeping shows
  (the IF stack and the FOR counter that is not rewritten).
 */
module Structured {
  import opened Phrases
  import opened Machine

  datatype Stmt =
    | Skip
    | Seq(first: Stmt, rest: Stmt)
    | Act(run: Action, words: seq<Word>)
    | If(cond: Cond, words: seq<Word>, thn: Stmt, tail: Tail)
    | While(cond: Cond, words: seq<Word>, body: Stmt)
    | For(v: string, start: IntExpr, end: IntExpr, step: IntExpr, words: seq<Word>, body: Stmt)
    | Foreach(v: string, list: ListExpr, words: seq<Word>, body: Stmt)
    | Case(value: ValueExpr, words: seq<Word>, clauses: Clauses)
    | Break(guard: Option<Cond>, words: seq<Word>)
    | Continue(guard: Option<Cond>, words: seq<Word>)
    | Return(ret: Ret, words: seq<Word>)

  /** What follows the body of an IF or of an ELSE IF. */
  datatype Tail =
    | EndIf
    | ElseBlock(els: Stmt)
    | ElseIf(cond: Cond, words: seq<Word>, thn: Stmt, tail: Tail)

  datatype Clauses =
    | EndCase
    | Clause(guard: Guard, words: seq<Word>, body: Stmt, rest: Clauses)

  // ---------------------------------------------------------------- flattening

  /** The words of a phrase that is only a keyword. */
  function Keyword(k: Kind): seq<Word> {
    match k
    case KElse => [Word(false, "else")]
    case KEndif => [Word(false, "endif")]
    case KEndwhile => [Word(false, "endwhile")]
    case KEndfor => [Word(false, "endfor")]
    case KEndcase => [Word(false, "endcase")]
    case _ => []
  }

  function Flatten(s: Stmt): seq<Phrase>
    decreases s
  {
    match s
    case Skip => []
    case Seq(a, b) => Flatten(a) + Flatten(b)
    case Act(run, w) => [PAct(run, w)]
    case If(c, w, thn, tail) => [PIf(c, w)] + (Flatten(thn) + FlattenTail(tail))
    case While(c, w, body) => [PWhile(c, w)] + (Flatten(body) + [PEndwhile(Keyword(KEndwhile))])
    case For(v, a, b, d, w, body) => [PFor(v, a, b, d, w)] + (Flatten(body) + [PEndfor(Keyword(KEndfor))])
    case Foreach(v, l, w, body) => [PForeach(v, l, w)] + (Flatten(body) + [PEndfor(Keyword(KEndfor))])
    case Case(e, w, cls) => [PCase(e, w)] + FlattenClauses(cls)
    case Break(g, w) => [PBreak(g, w)]
    case Continue(g, w) => [PContinue(g, w)]
    case Return(ret, w) => [PReturn(ret, w)]
  }

  function FlattenTail(t: Tail): (code: seq<Phrase>)
    ensures |code| > 0
    decreases t
  {
    match t
    case EndIf => [PEndif(Keyword(KEndif))]
    case ElseBlock(els) => [PElse(Keyword(KElse))] + (Flatten(els) + [PEndif(Keyword(KEndif))])
    case ElseIf(c, w, thn, tail) => [PElseIf(c, w)] + (Flatten(thn) + FlattenTail(tail))
  }

  function FlattenClauses(cls: Clauses): (code: seq<Phrase>)
    ensures |code| > 0
    decreases cls
  {
    match cls
    case EndCase => [PEndcase(Keyword(KEndcase))]
    case Clause(g, w, body, rest) => [PClause(g, w)] + (Flatten(body) + FlattenClauses(rest))
  }

  // ---------------------------------------------------------------- exact meaning

  /** The variables, and the stack of "this IF has had a true branch" flags. */
  datatype State = State(store: Store, ifm: seq<bool>)

  /** at: the constructs a RETURN was inside of. */
  datatype Result =
    | Normal(s: State)
    | Broken(s: State)
    | Continued(s: State)
    | Failure(error: Error)
    | OutOfFuel
    | Returned(exit: Exit, s: State, at: seq<Construct>)

  /** The statement ended in a way that no loop or CASE around it catches. */
  predicate Quits(r: Result) { r.Failure? || r.OutOfFuel? || r.Returned? }

  function CountCases(last: seq<Construct>): nat {
    if last == [] then 0
    else CountCases(last[..|last| - 1]) + (if last[|last| - 1] == CCase then 1 else 0)
  }

  function Push(st: State, b: bool): State { st.(ifm := st.ifm + [b]) }

  /** ENDIF. */
  function Leave(st: State): Result {
    if |st.ifm| == 0 then Failure(WrongEnd) else Normal(st.(ifm := st.ifm[..|st.ifm| - 1]))
  }

  predicate TopMatched(st: State) { |st.ifm| > 0 && st.ifm[|st.ifm| - 1] }

  function Test(guard: Option<Cond>, store: Store): Option<bool> {
    if guard.None? then Some(true) else guard.value(store)
  }

  /** Passes a FOR can still make, as a bound. */
  function ForLeft(loop: Loop): nat {
    var d := if loop.step < 0 then loop.counter - loop.condEnd else loop.condEnd - loop.counter;
    if d < 0 then 1 else d + 1
  }

  function ForeachLeft(loop: Loop): nat {
    if loop.counter < |loop.items| then |loop.items| - loop.counter + 1 else 1
  }

  /**
    last: the enclosing constructs, outermost first. Only a WHILE going round again uses fuel.
   */
  function Exec(fuel: nat, last: seq<Construct>, s: Stmt, st: State): (r: Result)
    ensures r.Broken? ==> 0 < |last| < MAX_LOOPS
    ensures r.Continued? ==> 0 < |last| && last[|last| - 1] != CCase
    decreases fuel, s, 0
  {
    match s
    case Skip => Normal(st)
    case Seq(a, b) =>
      (match Exec(fuel, last, a, st)
       case Normal(st1) => Exec(fuel, last, b, st1)
       case r => r)
    case Act(run, _) =>
      (match run(st.store)
       case None => Failure(EvalFault)
       case Some(store) => Normal(st.(store := store)))
    case If(cond, _, thn, tail) =>
      (match cond(st.store)
       case None => Failure(EvalFault)
       case Some(true) =>
         (match Exec(fuel, last, thn, Push(st, true))
          case Normal(st1) => ReachTail(fuel, last, tail, st1)
          case r => r)
       case Some(false) => JumpTail(fuel, last, tail, Push(st, false)))
    case While(cond, _, body) =>
      (match cond(st.store)
       case None => Failure(EvalFault)
       case Some(false) => Normal(st)
       case Some(true) =>
         if |last| + 1 >= MAX_LOOPS then Failure(IndexPanic)
         else WhileLoop(fuel, last + [CWhile], cond, body, st))
    case For(v, start, end, step, _, body) =>
      (match (start(st.store), end(st.store), step(st.store))
       case (Some(a), Some(b), Some(d)) =>
         if d == 0 then Failure(StepZero)
         else if |last| + 1 >= MAX_LOOPS then Failure(IndexPanic)
         else
           var loop := EmptyLoop().(loopType := LT_FOR, loopVar := v, counter := a, condEnd := b, step := d);
           var st1 := st.(store := st.store[v := IntV(a)]);
           if Beyond(a, b, d) then Normal(st1.(store := ForPass(loop, st1.store, Mentions(Flatten(body), v)).1))
           else ForLoop(fuel, last + [CFor], loop, body, st1)
       case _ => Failure(EvalFault))
    case Foreach(v, list, _, body) =>
      (match list(st.store)
       case None => Failure(EvalFault)
       case Some(items) =>
         if |items| == 0 then Normal(st)
         else if |last| + 1 >= MAX_LOOPS then Failure(IndexPanic)
         else
           var loop := EmptyLoop().(loopType := LT_FOREACH, loopVar := v, condEnd := |items| - 1, items := items);
           ForeachLoop(fuel, last + [CForeach], loop, body,
                       st.(store := st.store[KeyVar(v) := IntV(0)][v := items[0]])))
    case Case(value, _, cls) =>
      if CountCases(last) == CASE_CAP then Failure(CaseNesting)
      else
        (match value(st.store)
         case None => Failure(EvalFault)
         case Some(x) =>
           if CountCases(last) + 1 >= CASE_CAP then Failure(IndexPanic)
           else ExecClauses(fuel, last + [CCase], x, false, cls, st))
    case Break(guard, _) =>
      (match Test(guard, st.store)
       case None => Failure(EvalFault)
       case Some(false) => Normal(st)
       case Some(true) => if 0 < |last| < MAX_LOOPS then Broken(st) else Failure(IndexPanic))
    case Continue(guard, _) =>
      if |last| == 0 then Failure(NothingToContinue)
      else
        (match Test(guard, st.store)
         case None => Failure(EvalFault)
         case Some(false) => Normal(st)
         case Some(true) => if last[|last| - 1] == CCase then Failure(ContinueInCase) else Continued(st))
    case Return(ret, _) =>
      (match ExitOf(ret, st.store)
       case None => Failure(EvalFault)
       case Some(None) => Normal(st)
       case Some(Some(x)) => Returned(x, st, last))
  }

  /** The previous branch ran to its end and control falls onto the tail. */
  function ReachTail(fuel: nat, last: seq<Construct>, t: Tail, st: State): (r: Result)
    ensures r.Broken? ==> 0 < |last| < MAX_LOOPS
    ensures r.Continued? ==> 0 < |last| && last[|last| - 1] != CCase
    decreases fuel, t, 1
  {
    match t
    case EndIf => Leave(st)
    case ElseBlock(_) =>
      if |st.ifm| == 0 then Failure(IndexPanic)
      else if TopMatched(st) then Leave(st)
      else Normal(st)
    case ElseIf(cond, _, thn, tail) =>
      if |st.ifm| == 0 then Failure(IndexPanic)
      else if TopMatched(st) then Leave(st)
      else match cond(st.store)
        case None => Failure(EvalFault)
        case Some(true) =>
          (match Exec(fuel, last, thn, st.(ifm := st.ifm[|st.ifm| - 1 := true]))
           case Normal(st1) => ReachTail(fuel, last, tail, st1)
           case r => r)
        case Some(false) => JumpTail(fuel, last, tail, st)
  }

  /** A condition was false and control jumps to the tail; with no tail it lands past ENDIF. */
  function JumpTail(fuel: nat, last: seq<Construct>, t: Tail, st: State): (r: Result)
    ensures r.Broken? ==> 0 < |last| < MAX_LOOPS
    ensures r.Continued? ==> 0 < |last| && last[|last| - 1] != CCase
    decreases fuel, t, 2
  {
    match t
    case EndIf => Normal(st)
    case ElseBlock(els) =>
      (match Exec(fuel, last, els, st)
       case Normal(st1) => Leave(st1)
       case r => r)
    case ElseIf(_, _, _, _) => ReachTail(fuel, last, t, st)
  }

  function WhileLoop(fuel: nat, last: seq<Construct>, cond: Cond, body: Stmt, st: State): (r: Result)
    ensures !r.Broken? && !r.Continued?
    decreases fuel, body, 1
  {
    match Exec(fuel, last, body, st)
    case Broken(st1) => Normal(st1)
    case Failure(e) => Failure(e)
    case OutOfFuel => OutOfFuel
    case Returned(x, st1, at) => Returned(x, st1, at)
    case r =>
      match cond(r.s.store)
      case None => Failure(EvalFault)
      case Some(false) => Normal(r.s)
      case Some(true) => if fuel == 0 then OutOfFuel else WhileLoop(fuel - 1, last, cond, body, r.s)
  }

  function ForLoop(fuel: nat, last: seq<Construct>, loop: Loop, body: Stmt, st: State): (r: Result)
    requires loop.step != 0
    ensures !r.Broken? && !r.Continued?
    decreases fuel, body, ForLeft(loop)
  {
    match Exec(fuel, last, body, st)
    case Broken(st1) => Normal(st1)
    case Failure(e) => Failure(e)
    case OutOfFuel => OutOfFuel
    case Returned(x, st1, at) => Returned(x, st1, at)
    case r =>
      var (loop1, store1, ended) := ForPass(loop, r.s.store, Mentions(Flatten(body), loop.loopVar));
      var st1 := r.s.(store := store1);
      if ended then Normal(st1) else ForLoop(fuel, last, loop1, body, st1)
  }

  function ForeachLoop(fuel: nat, last: seq<Construct>, loop: Loop, body: Stmt, st: State): (r: Result)
    ensures !r.Broken? && !r.Continued?
    decreases fuel, body, ForeachLeft(loop)
  {
    match Exec(fuel, last, body, st)
    case Broken(st1) => Normal(st1)
    case Failure(e) => Failure(e)
    case OutOfFuel => OutOfFuel
    case Returned(x, st1, at) => Returned(x, st1, at)
    case r =>
      var (loop1, store1, ended) := ForeachPass(loop, r.s.store);
      var st1 := r.s.(store := store1);
      if ended then Normal(st1) else ForeachLoop(fuel, last, loop1, body, st1)
  }

  /** Control is on the first of the remaining clauses; performed: an earlier one has matched. */
  function ExecClauses(fuel: nat, last: seq<Construct>, value: Value, performed: bool, cls: Clauses,
                       st: State): (r: Result)
    requires 0 < |last| && last[|last| - 1] == CCase
    ensures !r.Broken? && !r.Continued?
    decreases fuel, cls, 1
  {
    match cls
    case EndCase => Normal(st)
    case Clause(guard, _, body, rest) =>
      if performed then Normal(st)
      else match Matches(guard, value, st.store)
        case None => Failure(EvalFault)
        case Some(false) => ExecClauses(fuel, last, value, false, rest, st)
        case Some(true) =>
          match Exec(fuel, last, body, st)
          case Normal(st1) => ExecClauses(fuel, last, value, !guard.Or?, rest, st1)
          case Broken(st1) => Normal(st1)
          case Failure(e) => Failure(e)
          case OutOfFuel => OutOfFuel
          case Returned(x, st1, at) => Returned(x, st1, at)
  }
}

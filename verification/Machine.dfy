/**
  The statement loop of `Call`: one program counter over a flat list of phrases, with block
  structure kept in a hand-made stack. Step is one turn of that loop, as a function of the
  whole state of the call.
 */
module Machine {
  import opened Phrases

  const MAX_LOOPS := 16
  const CASE_CAP := 8

  datatype Construct = CFor | CForeach | CWhile | CCase

  datatype LoopType = LT_NONE | LT_FOR | LT_FOREACH | LT_WHILE

  /** Whether the FOR variable has to follow the counter on every pass. */
  datatype Opt = LoopStart | LoopSet | LoopIgnore

  /** One entry of `loops`. */
  datatype Loop = Loop(
    loopType: LoopType, loopVar: string, counter: int, condEnd: int, step: int, opt: Opt,
    forEndPos: int, whileContinueAt: int, repeatFrom: int, cond: Cond, items: seq<Value>)

  function EmptyLoop(): Loop { Loop(LT_NONE, "", 0, 0, 0, LoopStart, 0, 0, 0, (s: Store) => None, []) }

  /** One entry of `wc`. */
  datatype Carton = Carton(endLine: int, value: Value, performed: bool, dodefault: bool)

  function EmptyCarton(): Carton { Carton(0, BoolV(false), false, false) }

  datatype Error =
    | EvalFault          // an expression could not be evaluated
    | StepZero           // FOR with STEP 0
    | NoEnd              // no closer for an opener
    | IndexPanic         // a fixed table or the construct stack was indexed out of range
    | CaseNesting        // the reported CASE limit
    | WrongEnd           // a closer or clause outside its construct
    | NothingToContinue  // CONTINUE outside every construct
    | ContinueInCase     // CONTINUE directly inside a CASE

  datatype Status = Running | Done | Failed(error: Error) | Exited(exit: Exit)

  datatype Config = Config(
    status: Status, pc: int, store: Store,
    depth: int, loops: seq<Loop>, lastConstruct: seq<Construct>,
    wc: seq<Carton>, wccount: int, breakIn: Option<Construct>,
    ifDepth: int, ifMatched: seq<bool>)

  function Fail(c: Config, e: Error): Config { c.(status := Failed(e)) }

  function Initial(store: Store): Config {
    Config(Running, -1, store, 0, seq(MAX_LOOPS, _ => EmptyLoop()), [], seq(CASE_CAP, _ => EmptyCarton()), 0, None, 0,
           [])
  }

  // What each statement searches for.
  const ENDWHILE_SEARCH := Search(0, KEndwhile, Whiles)
  const ENDFOR_SEARCH := Search(0, KEndfor, Fors)
  const ENDCASE_SEARCH := Search(0, KEndcase, Cases)
  const ENDIF_SEARCH := Search(0, KEndif, Ifs)
  const ELSE_SEARCH := Search(1, KElse, Ifs)
  function ClauseSearch(k: Kind): Search { Search(0, k, Cases) }

  /** Statements passed over while a BREAK is looking for the end of its construct. */
  predicate Skipped(breakIn: Option<Construct>, k: Kind) {
    match breakIn
    case None => false
    case Some(CFor) => k != KEndfor
    case Some(CForeach) => k != KEndfor
    case Some(CWhile) => k != KEndwhile
    case Some(CCase) => k != KEndcase
  }

  /** depth += 1; loops[depth] = loop; lastConstruct = append(lastConstruct, k) */
  function PushLoop(c: Config, loop: Loop, k: Construct): Config {
    if 0 <= c.depth + 1 < |c.loops| then
      c.(depth := c.depth + 1, loops := c.loops[c.depth + 1 := loop], lastConstruct := c.lastConstruct + [k])
    else Fail(c, IndexPanic)
  }

  /** depth -= 1; lastConstruct = lastConstruct[:depth] */
  function Pop(c: Config): Config {
    if 0 <= c.depth - 1 <= |c.lastConstruct| then
      c.(depth := c.depth - 1, lastConstruct := c.lastConstruct[..c.depth - 1])
    else Fail(c, IndexPanic)
  }

  // ------------------------------------------------- WHILE

  function StepWhile(prog: seq<Phrase>, c: Config, cond: Cond): Config
    requires 0 <= c.pc < |prog|
  {
    match Scan(prog, c.pc, 0, ENDWHILE_SEARCH)
    case At(end) =>
      (match cond(c.store)
       case None => Fail(c, EvalFault)
       case Some(true) => PushLoop(c, EmptyLoop().(loopType := LT_WHILE, repeatFrom := c.pc, whileContinueAt := end,
                                                   cond := cond), CWhile)
       case Some(false) => c.(pc := end))
    case _ => Fail(c, NoEnd)
  }

  function StepEndwhile(c: Config): Config {
    if !(0 <= c.depth < |c.loops|) then Fail(c, IndexPanic)
    else
      var loop := c.loops[c.depth];
      if loop.loopType != LT_WHILE then Fail(c, WrongEnd)
      else if c.breakIn == Some(CWhile) then Pop(c).(breakIn := None)
      else match loop.cond(c.store)
        case None => Fail(c, EvalFault)
        case Some(true) => c.(pc := loop.repeatFrom)
        case Some(false) => Pop(c)
  }

  // ------------------------------------------------- FOR, FOREACH

  /** The range is exhausted: strictly past the end in the direction of the step. */
  predicate Beyond(counter: int, end: int, step: int) {
    if step < 0 then counter < end else counter > end
  }

  function StepFor(prog: seq<Phrase>, c: Config, v: string, start: IntExpr, end: IntExpr, step: IntExpr): Config
    requires 0 <= c.pc < |prog|
  {
    match (start(c.store), end(c.store), step(c.store))
    case (Some(fstart), Some(fend), Some(fstep)) =>
      if fstep == 0 then Fail(c, StepZero)
      else (match Scan(prog, c.pc, 0, ENDFOR_SEARCH)
        case At(e) =>
          var loop := EmptyLoop().(loopType := LT_FOR, loopVar := v, counter := fstart, condEnd := fend, step := fstep,
                                   forEndPos := e, repeatFrom := c.pc + 1);
          var c1 := PushLoop(c, loop, CFor);
          if c1.status != Running then c1
          else c1.(store := c.store[v := IntV(fstart)], pc := if Beyond(fstart, fend, fstep) then e - 1 else c.pc)
        case _ => Fail(c, NoEnd))
    case _ => Fail(c, EvalFault)
  }

  function KeyVar(v: string): string { "key_" + v }

  function StepForeach(prog: seq<Phrase>, c: Config, v: string, list: ListExpr): Config
    requires 0 <= c.pc < |prog|
  {
    match list(c.store)
    case None => Fail(c, EvalFault)
    case Some(items) =>
      match Scan(prog, c.pc, 0, ENDFOR_SEARCH)
      case At(e) =>
        if |items| == 0 then c.(pc := e)
        else
          var loop := EmptyLoop().(loopType := LT_FOREACH, loopVar := v, counter := 0, condEnd := |items| - 1,
                                   forEndPos := e, repeatFrom := c.pc + 1, items := items);
          var c1 := PushLoop(c, loop, CForeach);
          if c1.status != Running then c1
          else c1.(store := c.store[KeyVar(v) := IntV(0)][v := items[0]])
      case _ => Fail(c, NoEnd)
  }

  /** The end-of-pass work of a numeric FOR: (new record, new store, leave the loop?). */
  function ForPass(loop: Loop, store: Store, used: bool): (Loop, Store, bool) {
    var next := loop.counter + loop.step;
    var ended := Beyond(next, loop.condEnd, loop.step);
    var counter := if ended then loop.counter else next;
    var store1 := if ended && loop.opt == LoopIgnore then store[loop.loopVar := IntV(counter)] else store;
    var opt := if loop.opt == LoopStart then (if used then LoopSet else LoopIgnore) else loop.opt;
    var store2 := if opt == LoopSet then store1[loop.loopVar := IntV(counter)] else store1;
    (loop.(counter := counter, opt := opt), store2, ended)
  }

  /** The end-of-pass work of a FOREACH over a list. */
  function ForeachPass(loop: Loop, store: Store): (Loop, Store, bool) {
    var loop1 := loop.(counter := loop.counter + 1, opt := if loop.opt == LoopStart then LoopSet else loop.opt);
    if loop1.counter > loop1.condEnd || !(0 <= loop1.counter < |loop1.items|) then (loop1, store, true)
    else (loop1, store[KeyVar(loop.loopVar) := IntV(loop1.counter)][loop.loopVar := loop1.items[loop1.counter]], false)
  }

  predicate UsedInside(prog: seq<Phrase>, loop: Loop, pc: int) {
    0 <= loop.repeatFrom <= pc <= |prog| && Mentions(prog[loop.repeatFrom..pc], loop.loopVar)
  }

  function StepEndfor(prog: seq<Phrase>, c: Config): Config {
    if !(0 <= c.depth < |c.loops|) then Fail(c, IndexPanic)
    else
      var loop := c.loops[c.depth];
      if loop.opt == LoopStart && !(0 <= c.depth - 1 < |c.lastConstruct|) then Fail(c, IndexPanic)
      else if && loop.opt == LoopStart
              && c.lastConstruct[c.depth - 1] != CForeach && c.lastConstruct[c.depth - 1] != CFor
      then Fail(c, WrongEnd)
      else
        var (loop1, store1, ended) :=
          if c.breakIn != Some(CFor) && c.breakIn != Some(CForeach) then
            (match loop.loopType
             case LT_FOREACH => ForeachPass(loop, c.store)
             case LT_FOR => ForPass(loop, c.store, UsedInside(prog, loop, c.pc))
             case _ => (loop, c.store, false))
          else
            var caught :=
              || (loop.loopType == LT_FOR && c.breakIn == Some(CFor))
              || (loop.loopType == LT_FOREACH && c.breakIn == Some(CForeach));
            (loop, c.store, caught);
        var c1 := c.(loops := c.loops[c.depth := loop1], store := store1);
        if ended then Pop(c1).(breakIn := None)
        else c1.(pc := loop1.repeatFrom - 1)
  }

  // ------------------------------------------------- CONTINUE, BREAK

  function StepContinue(c: Config, guard: Option<Cond>): Config {
    if c.depth == 0 then Fail(c, NothingToContinue)
    else
      match (if guard.None? then Some(true) else guard.value(c.store))
      case None => Fail(c, EvalFault)
      case Some(false) => c
      case Some(true) =>
        if !(0 <= c.depth - 1 < |c.lastConstruct|) then Fail(c, IndexPanic)
        else match c.lastConstruct[c.depth - 1]
          case CCase => Fail(c, ContinueInCase)
          case k =>
            if !(0 <= c.depth < |c.loops|) then Fail(c, IndexPanic)
            else if k == CWhile then c.(pc := c.loops[c.depth].whileContinueAt - 1)
            else c.(pc := c.loops[c.depth].forEndPos - 1)
  }

  function StepBreak(c: Config, guard: Option<Cond>): Config {
    match (if guard.None? then Some(true) else guard.value(c.store))
    case None => Fail(c, EvalFault)
    case Some(false) => c
    case Some(true) =>
      if !(0 <= c.depth < |c.loops|) || !(0 <= c.depth - 1 < |c.lastConstruct|) then Fail(c, IndexPanic)
      else
        var k := c.lastConstruct[c.depth - 1];
        match k
        case CCase => if !(0 <= c.wccount < |c.wc|) then Fail(c, IndexPanic) else c.(pc := c.wc[c.wccount].endLine - 1,
            breakIn := Some(k))
        case CWhile => c.(pc := c.loops[c.depth].whileContinueAt - 1, breakIn := Some(k))
        case _ => c.(pc := c.loops[c.depth].forEndPos - 1, breakIn := Some(k))
  }

  // ------------------------------------------------- CASE

  function StepCase(prog: seq<Phrase>, c: Config, value: ValueExpr): Config
    requires 0 <= c.pc < |prog|
  {
    if c.wccount == CASE_CAP then Fail(c, CaseNesting)
    else match Scan(prog, c.pc, 0, ENDCASE_SEARCH)
      case At(end) =>
        (match value(c.store)
         case None => Fail(c, EvalFault)
         case Some(x) =>
           if !(0 <= c.wccount + 1 < |c.wc|) then Fail(c, IndexPanic)
           else c.(wccount := c.wccount + 1, wc := c.wc[c.wccount + 1 := Carton(end, x, false, true)],
                   depth := c.depth + 1, lastConstruct := c.lastConstruct + [CCase]))
      case _ => Fail(c, NoEnd)
  }

  /** Go's `==` on two interface values; comparing two lists is a run-time panic. */
  function SameValue(a: Value, b: Value): Option<bool> {
    if a.ListV? && b.ListV? then None else Some(a == b)
  }

  /** Does a clause match the CASE value? OR always does. */
  function Matches(guard: Guard, value: Value, store: Store): Option<bool> {
    match guard
    case Is(e) => (match e(store) case None => None case Some(x) => SameValue(x, value))
    case Has(cond) => cond(store)
    case Contains(pattern) => pattern(value, store)
    case Or => Some(true)
  }

  /** The nearer of two scan results. */
  function Nearer(a: Option<nat>, f: Found): Option<nat> {
    match f
    case At(j) => if a.None? || j < a.value then Some(j) else a
    case _ => a
  }

  /** The first clause of the enclosing CASE at or after line i. */
  function NextClause(prog: seq<Phrase>, i: nat): Option<nat>
    requires i <= |prog|
  {
    Nearer(Nearer(Nearer(Nearer(None,
      Scan(prog, i, 0, ClauseSearch(KContains))),
      Scan(prog, i, 0, ClauseSearch(KHas))),
      Scan(prog, i, 0, ClauseSearch(KIs))),
      Scan(prog, i, 0, ClauseSearch(KOr)))
  }

  function StepClause(prog: seq<Phrase>, c: Config, guard: Guard): Config
    requires 0 <= c.pc < |prog|
  {
    if |c.lastConstruct| == 0 then Fail(c, IndexPanic)
    else if c.lastConstruct[|c.lastConstruct| - 1] != CCase then Fail(c, WrongEnd)
    else if !(0 <= c.wccount < |c.wc|) then Fail(c, IndexPanic)
    else
      var carton := c.wc[c.wccount];
      if carton.performed then c.(pc := carton.endLine - 1)
      else match Matches(guard, carton.value, c.store)
        case None => Fail(c, EvalFault)
        case Some(matched) =>
          if matched && !guard.Or? then
            c.(wc := c.wc[c.wccount := carton.(performed := true, dodefault := false)])
          else if matched && carton.dodefault then c
          else
            // an OR that is no longer the default looks for a clause from ENDCASE on
            var from := if guard.Or? then carton.endLine else c.pc + 1;
            if !(0 <= from <= |prog|) then Fail(c, IndexPanic)
            else match NextClause(prog, from)
              case Some(j) => c.(pc := j - 1)
              case None => c.(pc := carton.endLine - 1)
  }

  function StepEndcase(c: Config): Config {
    if |c.lastConstruct| == 0 then Fail(c, IndexPanic)
    else if c.lastConstruct[|c.lastConstruct| - 1] != CCase then Fail(c, WrongEnd)
    else if !(0 <= c.wccount < |c.wc|) then Fail(c, IndexPanic)
    else Pop(c.(breakIn := None, wc := c.wc[c.wccount := EmptyCarton()], wccount := c.wccount - 1))
  }

  // ------------------------------------------------- IF, ELSE, ELSE IF, ENDIF

  /** ifMatchedStack, grown with false up to the given length. */
  function PadTo(m: seq<bool>, depth: int): seq<bool> {
    if depth > |m| then m + seq(depth - |m|, _ => false) else m
  }

  function SetMatched(c: Config, b: bool): Config {
    var m := PadTo(c.ifMatched, c.ifDepth);
    if 0 <= c.ifDepth - 1 < |m| then c.(ifMatched := m[c.ifDepth - 1 := b]) else Fail(c, IndexPanic)
  }

  function StepIf(prog: seq<Phrase>, c0: Config, cond: Cond): Config
    requires 0 <= c0.pc < |prog|
  {
    var c := SetMatched(c0.(ifDepth := c0.ifDepth + 1), false);
    if c.status != Running then c else IfTest(prog, c, cond)
  }

  /** The test of an IF: into the first branch, or to what Scan finds next. */
  function IfTest(prog: seq<Phrase>, c: Config, cond: Cond): Config
    requires 0 <= c.pc < |prog|
  {
    match Scan(prog, c.pc, 0, ENDIF_SEARCH)
    case At(end) =>
      (match cond(c.store)
       case None => Fail(c, EvalFault)
       case Some(true) => SetMatched(c, true)
       case Some(false) =>
         (match Scan(prog, c.pc, 0, ELSE_SEARCH)
          case At(els) =>
            if els < end then c.(pc := if prog[els].PElseIf? then els - 1 else els)
            else c.(pc := end)
          case _ => c.(pc := end)))
    case _ => Fail(c, NoEnd)
  }

  /** A previous branch of the innermost IF has run, as far as the stack tells. */
  predicate AlreadyMatched(c: Config) {
    0 < c.ifDepth <= |c.ifMatched| && c.ifMatched[c.ifDepth - 1]
  }

  function StepElseIf(prog: seq<Phrase>, c: Config, cond: Cond): Config
    requires 0 <= c.pc < |prog|
  {
    if c.ifDepth <= 0 then Fail(c, IndexPanic)
    else if AlreadyMatched(c) then
      (match Scan(prog, c.pc + 1, 1, ENDIF_SEARCH)
       case At(end) => c.(pc := end - 1)
       case Missing => c.(pc := c.pc - 1)
       case Dedent(_) => c)
    else match cond(c.store)
      case None => Fail(c, EvalFault)
      case Some(true) => SetMatched(c, true)
      case Some(false) => NextBranch(prog, c)
  }

  /** A false ELSE IF: on to the next ELSE or ELSE IF of its chain, or past its ENDIF. */
  function NextBranch(prog: seq<Phrase>, c: Config): Config
    requires 0 <= c.pc < |prog|
  {
    match (Scan(prog, c.pc + 1, 1, ELSE_SEARCH), Scan(prog, c.pc + 1, 1, ENDIF_SEARCH))
    case (At(els), At(end)) =>
      if els < end then c.(pc := if prog[els].PElseIf? then els - 1 else els)
      else c.(pc := end)
    case (At(els), _) => c.(pc := if prog[els].PElseIf? then els - 1 else els)
    case (_, At(end)) => c.(pc := end)
    case _ => Fail(c, NoEnd)
  }

  function StepElse(prog: seq<Phrase>, c: Config): Config
    requires 0 <= c.pc < |prog|
  {
    if c.ifDepth <= 0 then Fail(c, IndexPanic)
    else match Scan(prog, c.pc, 1, ENDIF_SEARCH)
      case At(end) => c.(pc := if AlreadyMatched(c) then end - 1 else end)
      case _ => Fail(c, NoEnd)
  }

  function StepEndif(c: Config): Config {
    if c.ifDepth <= 0 then Fail(c, WrongEnd)
    else
      var d := c.ifDepth - 1;
      c.(ifDepth := d, ifMatched := if |c.ifMatched| > d then c.ifMatched[..d] else c.ifMatched)
  }

  // ------------------------------------------------- RETURN

  /** The pass over the body ends here: for good, or to start over. */
  function StepReturn(c: Config, ret: Ret): Config {
    match ExitOf(ret, c.store)
    case None => Fail(c, EvalFault)
    case Some(None) => c
    case Some(Some(exit)) => c.(status := Exited(exit))
  }

  // ------------------------------------------------- the loop

  /** The switch on the statement's first token; pc is already on the statement. */
  function Dispatch(prog: seq<Phrase>, c: Config): Config
    requires 0 <= c.pc < |prog|
  {
    match prog[c.pc]
    case PAct(run, _) => (match run(c.store) case None => Fail(c, EvalFault) case Some(s) => c.(store := s))
    case PIf(cond, _) => StepIf(prog, c, cond)
    case PElse(_) => StepElse(prog, c)
    case PElseIf(cond, _) => StepElseIf(prog, c, cond)
    case PEndif(_) => StepEndif(c)
    case PWhile(cond, _) => StepWhile(prog, c, cond)
    case PEndwhile(_) => StepEndwhile(c)
    case PFor(v, a, b, s, _) => StepFor(prog, c, v, a, b, s)
    case PForeach(v, list, _) => StepForeach(prog, c, v, list)
    case PEndfor(_) => StepEndfor(prog, c)
    case PCase(e, _) => StepCase(prog, c, e)
    case PClause(g, _) => StepClause(prog, c, g)
    case PEndcase(_) => StepEndcase(c)
    case PBreak(g, _) => StepBreak(c, g)
    case PContinue(g, _) => StepContinue(c, g)
    case PReturn(ret, _) => StepReturn(c, ret)
  }

  /** One turn of the statement loop. A finished call stays as it is. */
  function Step(prog: seq<Phrase>, c: Config): Config {
    if c.status != Running then c
    else
      var c1 := c.(pc := c.pc + 1);
      if c1.pc >= |prog| then c1.(status := Done)
      else if c1.pc < 0 then Fail(c1, IndexPanic)
      else if Skipped(c.breakIn, prog[c1.pc].Kind()) then c1
      else Dispatch(prog, c1)
  }

  function Run(prog: seq<Phrase>, c: Config, n: nat): Config
    decreases n
  {
    if n == 0 then c else Run(prog, Step(prog, c), n - 1)
  }

  lemma {:induction false} RunAdd(prog: seq<Phrase>, c: Config, a: nat, b: nat)
    ensures Run(prog, c, a + b) == Run(prog, Run(prog, c, a), b)
    decreases a
  {
    if a > 0 {
      RunAdd(prog, Step(prog, c), a - 1, b);
    }
  }

  lemma {:induction false} RunHalted(prog: seq<Phrase>, c: Config, n: nat)
    requires c.status != Running
    ensures Run(prog, c, n) == c
    decreases n
  {
    if n > 0 {
      RunHalted(prog, c, n - 1);
    }
  }
}

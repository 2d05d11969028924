/**
  The meaning a reader of Za's documentation expects: variables and what is returned only, the first true branch of
  an IF chain, the first matching clause of a CASE, and a FOR variable that is set on every pass.
  Below it, the shapes of programs on which the interpreter is known to give that meaning.
 */
module Textbook {
  import opened Phrases
  import opened Machine
  import opened Structured

  datatype Outcome =
    | Ok(store: Store)
    | Brk(store: Store)
    | Cnt(store: Store)
    | Err(error: Error)
    | Out
    | Ret(exit: Exit)

  /** How often FOR start TO end STEP step runs its body. */
  function Trips(start: int, end: int, step: int): nat
    requires step != 0
  {
    if Beyond(start, end, step) then 0
    else if step > 0 then (end - start) / step + 1
    else (start - end) / -step + 1
  }

  function Eval(fuel: nat, s: Stmt, store: Store): Outcome
    decreases fuel, s, 0
  {
    match s
    case Skip => Ok(store)
    case Seq(a, b) =>
      (match Eval(fuel, a, store)
       case Ok(store1) => Eval(fuel, b, store1)
       case r => r)
    case Act(run, _) => (match run(store) case None => Err(EvalFault) case Some(store1) => Ok(store1))
    case If(cond, _, thn, tail) =>
      (match cond(store)
       case None => Err(EvalFault)
       case Some(b) => if b then Eval(fuel, thn, store) else EvalTail(fuel, tail, store))
    case While(cond, _, body) =>
      (match cond(store)
       case None => Err(EvalFault)
       case Some(b) => if b then EvalWhile(fuel, cond, body, store) else Ok(store))
    case For(v, start, end, step, _, body) =>
      (match (start(store), end(store), step(store))
       case (Some(a), Some(b), Some(d)) =>
         if d == 0 then Err(StepZero) else EvalFor(fuel, v, a, d, 0, Trips(a, b, d), body, store)
       case _ => Err(EvalFault))
    case Foreach(v, list, _, body) =>
      (match list(store)
       case None => Err(EvalFault)
       case Some(items) => EvalForeach(fuel, v, items, 0, body, store))
    case Case(value, _, cls) =>
      (match value(store)
       case None => Err(EvalFault)
       case Some(x) => EvalClauses(fuel, x, cls, store))
    case Break(None, _) => Brk(store)
    case Break(Some(cond), _) =>
      (match cond(store)
       case None => Err(EvalFault)
       case Some(b) => if b then Brk(store) else Ok(store))
    case Continue(None, _) => Cnt(store)
    case Continue(Some(cond), _) =>
      (match cond(store)
       case None => Err(EvalFault)
       case Some(b) => if b then Cnt(store) else Ok(store))
    case Return(Values(list), _) =>
      (match list(store)
       case None => Err(EvalFault)
       case Some(vals) => Ret(Answer(vals)))
    case Return(ValuesIf(cond, list), _) =>
      (match cond(store)
       case None => Err(EvalFault)
       case Some(false) => Ok(store)
       case Some(true) => match list(store) case None => Err(EvalFault) case Some(vals) => Ret(Answer(vals)))
    case Return(CallSelf(args), _) =>
      (match args(store)
       case None => Err(EvalFault)
       case Some(vals) => Ret(Again(vals)))
  }

  function EvalTail(fuel: nat, t: Tail, store: Store): Outcome
    decreases fuel, t, 0
  {
    match t
    case EndIf => Ok(store)
    case ElseBlock(els) => Eval(fuel, els, store)
    case ElseIf(cond, _, thn, tail) =>
      match cond(store)
      case None => Err(EvalFault)
      case Some(b) => if b then Eval(fuel, thn, store) else EvalTail(fuel, tail, store)
  }

  function EvalWhile(fuel: nat, cond: Cond, body: Stmt, store: Store): Outcome
    decreases fuel, body, 1
  {
    match Eval(fuel, body, store)
    case Brk(store1) => Ok(store1)
    case Err(e) => Err(e)
    case Out => Out
    case Ret(x) => Ret(x)
    case r =>
      match cond(r.store)
      case None => Err(EvalFault)
      case Some(b) =>
        if !b then Ok(r.store)
        else if fuel == 0 then Out
        else EvalWhile(fuel - 1, cond, body, r.store)
  }

  /** The value the FOR variable is left with after n full passes. */
  function LastValue(start: int, step: int, n: nat): int { if n == 0 then start else start + (n - 1) * step }

  /** Passes k, k + 1, ..., n - 1, with v set to start + k * step at the top of pass k. */
  function EvalFor(fuel: nat, v: string, start: int, step: int, k: nat, n: nat, body: Stmt, store: Store): Outcome
    requires k <= n
    decreases fuel, body, n - k + 1
  {
    if k == n then Ok(store[v := IntV(LastValue(start, step, n))])
    else match Eval(fuel, body, store[v := IntV(start + k * step)])
      case Brk(store1) => Ok(store1)
      case Err(e) => Err(e)
      case Out => Out
      case Ret(x) => Ret(x)
      case r => EvalFor(fuel, v, start, step, k + 1, n, body, r.store)
  }

  function EvalForeach(fuel: nat, v: string, items: seq<Value>, k: nat, body: Stmt, store: Store): Outcome
    requires k <= |items|
    decreases fuel, body, |items| - k + 1
  {
    if k == |items| then Ok(store)
    else match Eval(fuel, body, store["key_" + v := IntV(k)][v := items[k]])
      case Brk(store1) => Ok(store1)
      case Err(e) => Err(e)
      case Out => Out
      case Ret(x) => Ret(x)
      case r => EvalForeach(fuel, v, items, k + 1, body, r.store)
  }

  lemma KeyNamed(v: string)
    ensures KeyVar(v) == "key_" + v
  {
  }

  function EvalClauses(fuel: nat, value: Value, cls: Clauses, store: Store): Outcome
    decreases fuel, cls, 0
  {
    match cls
    case EndCase => Ok(store)
    case Clause(guard, _, body, rest) =>
      match Matches(guard, value, store)
      case None => Err(EvalFault)
      case Some(b) =>
        if !b then EvalClauses(fuel, value, rest, store)
        else match Eval(fuel, body, store)
          case Brk(store1) => Ok(store1)
          case r => r
  }

  // ---------------------------------------------------------------- program shapes

  /**
    Within the interpreter's fixed tables, and with BREAK and CONTINUE where it accepts them:
    fewer than 16 nested constructs around a loop or a BREAK, at most 7 nested CASEs, no BREAK
    outside every construct, no CONTINUE whose innermost construct is not a loop.
   */
  predicate Fits(s: Stmt, last: seq<Construct>)
    decreases s
  {
    match s
    case Skip => true
    case Seq(a, b) => Fits(a, last) && Fits(b, last)
    case Act(_, _) => true
    case If(_, _, thn, tail) => Fits(thn, last) && FitsTail(tail, last)
    case While(_, _, body) => |last| + 1 < MAX_LOOPS && Fits(body, last + [CWhile])
    case For(_, _, _, _, _, body) => |last| + 1 < MAX_LOOPS && Fits(body, last + [CFor])
    case Foreach(_, _, _, body) => |last| + 1 < MAX_LOOPS && Fits(body, last + [CForeach])
    case Case(_, _, cls) => CountCases(last) + 1 < CASE_CAP && FitsClauses(cls, last + [CCase])
    case Break(_, _) => 0 < |last| < MAX_LOOPS
    case Continue(_, _) => 0 < |last| && last[|last| - 1] != CCase
    case Return(_, _) => true
  }

  predicate FitsTail(t: Tail, last: seq<Construct>)
    decreases t
  {
    match t
    case EndIf => true
    case ElseBlock(els) => Fits(els, last)
    case ElseIf(_, _, thn, tail) => Fits(thn, last) && FitsTail(tail, last)
  }

  predicate FitsClauses(cls: Clauses, last: seq<Construct>)
    decreases cls
  {
    match cls
    case EndCase => true
    case Clause(_, _, body, rest) => Fits(body, last) && FitsClauses(rest, last)
  }

  /** A BREAK or CONTINUE in s that leaves an enclosing construct. */
  predicate Escapes(s: Stmt)
    decreases s
  {
    match s
    case Seq(a, b) => Escapes(a) || Escapes(b)
    case If(_, _, thn, tail) => Escapes(thn) || EscapesTail(tail)
    case Break(_, _) => true
    case Continue(_, _) => true
    case Case(_, _, cls) => EscapesClauses(cls)
    case _ => false
  }

  predicate EscapesTail(t: Tail)
    decreases t
  {
    match t
    case EndIf => false
    case ElseBlock(els) => Escapes(els)
    case ElseIf(_, _, thn, tail) => Escapes(thn) || EscapesTail(tail)
  }

  predicate EscapesClauses(cls: Clauses)
    decreases cls
  {
    match cls
    case EndCase => false
    case Clause(_, _, body, rest) => Escapes(body) || EscapesClauses(rest)
  }

  /** A BREAK in s that leaves an enclosing construct. */
  predicate Breaks(s: Stmt)
    decreases s
  {
    match s
    case Seq(a, b) => Breaks(a) || Breaks(b)
    case If(_, _, thn, tail) => Breaks(thn) || BreaksTail(tail)
    case Break(_, _) => true
    case _ => false
  }

  predicate BreaksTail(t: Tail)
    decreases t
  {
    match t
    case EndIf => false
    case ElseBlock(els) => Breaks(els)
    case ElseIf(_, _, thn, tail) => Breaks(thn) || BreaksTail(tail)
  }

  /**
    However s is left, the IF stack is as s found it: every IF inside has a plain ELSE, and no
    IF is left by BREAK or CONTINUE.
   */
  predicate Level(s: Stmt)
    decreases s
  {
    match s
    case Seq(a, b) => Level(a) && Level(b)
    case If(_, _, thn, tail) => Level(thn) && !Escapes(thn) && LevelTail(tail)
    case While(_, _, body) => Level(body)
    case For(_, _, _, _, _, body) => Level(body)
    case Foreach(_, _, _, body) => Level(body)
    case Case(_, _, cls) => LevelClauses(cls)
    case _ => true
  }

  predicate LevelTail(t: Tail)
    decreases t
  {
    match t
    case EndIf => false
    case ElseBlock(els) => Level(els) && !Escapes(els)
    case ElseIf(_, _, thn, tail) => Level(thn) && !Escapes(thn) && LevelTail(tail)
  }

  predicate LevelClauses(cls: Clauses)
    decreases cls
  {
    match cls
    case EndCase => true
    case Clause(_, _, body, rest) => Level(body) && LevelClauses(rest)
  }

  /** No FOREACH in s writes v through its key variable. */
  predicate KeyFree(s: Stmt, v: string)
    decreases s
  {
    match s
    case Seq(a, b) => KeyFree(a, v) && KeyFree(b, v)
    case If(_, _, thn, tail) => KeyFree(thn, v) && KeyFreeTail(tail, v)
    case While(_, _, body) => KeyFree(body, v)
    case For(_, _, _, _, _, body) => KeyFree(body, v)
    case Foreach(w, _, _, body) => v != KeyVar(w) && KeyFree(body, v)
    case Case(_, _, cls) => KeyFreeClauses(cls, v)
    case _ => true
  }

  predicate KeyFreeTail(t: Tail, v: string)
    decreases t
  {
    match t
    case EndIf => true
    case ElseBlock(els) => KeyFree(els, v)
    case ElseIf(_, _, thn, tail) => KeyFree(thn, v) && KeyFreeTail(tail, v)
  }

  predicate KeyFreeClauses(cls: Clauses, v: string)
    decreases cls
  {
    match cls
    case EndCase => true
    case Clause(_, _, body, rest) => KeyFree(body, v) && KeyFreeClauses(rest, v)
  }

  /**
    The interpreter agrees with the textbook on s: a branch followed by ELSE IF leaves the IF
    stack level, OR is the last clause of its CASE, and a FOR whose body never mentions the
    variable has no BREAK (and no FOREACH that writes the variable as its key).
   */
  predicate Tidy(s: Stmt)
    decreases s
  {
    match s
    case Seq(a, b) => Tidy(a) && Tidy(b)
    case If(_, _, thn, tail) => Tidy(thn) && (tail.ElseIf? ==> Level(thn)) && TidyTail(tail)
    case While(_, _, body) => Tidy(body)
    case For(v, _, _, _, _, body) =>
      Tidy(body) && v != "" && (Mentions(Flatten(body), v) || (!Breaks(body) && KeyFree(body, v)))
    case Foreach(v, _, _, body) => Tidy(body) && v != ""
    case Case(_, _, cls) => TidyClauses(cls)
    case _ => true
  }

  predicate TidyTail(t: Tail)
    decreases t
  {
    match t
    case EndIf => true
    case ElseBlock(els) => Tidy(els)
    case ElseIf(_, _, thn, tail) => Tidy(thn) && (tail.ElseIf? ==> Level(thn)) && TidyTail(tail)
  }

  predicate TidyClauses(cls: Clauses)
    decreases cls
  {
    match cls
    case EndCase => true
    case Clause(guard, _, body, rest) => Tidy(body) && (guard.Or? ==> rest.EndCase?) && TidyClauses(rest)
  }

  // ---------------------------------------------------------------- honest text

  /** The two stores differ at most at v. */
  ghost predicate AgreeOff(a: Store, b: Store, v: string) { a - {v} == b - {v} }

  /** v is bound in b as it is in a. */
  ghost predicate SameAt(a: Store, b: Store, v: string) { (v in a <==> v in b) && (v in a ==> a[v] == b[v]) }

  ghost predicate Ignores<T(!new)>(e: Store -> T, v: string) {
    forall a: Store, b: Store :: AgreeOff(a, b, v) ==> e(a) == e(b)
  }

  ghost predicate ActIgnores(run: Action, v: string) {
    && (forall a: Store, b: Store :: AgreeOff(a, b, v) ==>
          match (run(a), run(b))
          case (None, None) => true
          case (Some(a'), Some(b')) => AgreeOff(a', b', v)
          case _ => false)
    && (forall a: Store :: run(a).Some? ==> SameAt(a, run(a).value, v))
  }

  ghost predicate GuardIgnores(g: Guard, v: string) {
    match g
    case Is(e) => Ignores(e, v)
    case Has(e) => Ignores(e, v)
    case Contains(p) => forall x: Value, a: Store, b: Store :: AgreeOff(a, b, v) ==> p(x, a) == p(x, b)
    case Or => true
  }

  ghost predicate RetIgnores(ret: Ret, v: string) {
    match ret
    case Values(list) => Ignores(list, v)
    case ValuesIf(cond, list) => Ignores(cond, v) && Ignores(list, v)
    case CallSelf(args) => Ignores(args, v)
  }

  ghost predicate TestIgnores(g: Option<Cond>, v: string) { g.Some? ==> Ignores(g.value, v) }

  /**
    The words of each phrase tell the truth about v: a phrase in which searchToken does not find
    v neither reads nor writes it. A loop's own variable is among its words.
   */
  ghost predicate Honest(s: Stmt, v: string)
    decreases s
  {
    match s
    case Skip => true
    case Seq(a, b) => Honest(a, v) && Honest(b, v)
    case Act(run, w) => WordsMention(w, v) || ActIgnores(run, v)
    case If(c, w, thn, tail) => (WordsMention(w, v) || Ignores(c, v)) && Honest(thn, v) && HonestTail(tail, v)
    case While(c, w, body) => (WordsMention(w, v) || Ignores(c, v)) && Honest(body, v)
    case For(x, a, b, d, w, body) =>
      (WordsMention(w, v) || (x != v && Ignores(a, v) && Ignores(b, v) && Ignores(d, v))) && Honest(body, v)
    case Foreach(x, l, w, body) => (WordsMention(w, v) || (x != v && Ignores(l, v))) && Honest(body, v)
    case Case(e, w, cls) => (WordsMention(w, v) || Ignores(e, v)) && HonestClauses(cls, v)
    case Break(g, w) => WordsMention(w, v) || TestIgnores(g, v)
    case Continue(g, w) => WordsMention(w, v) || TestIgnores(g, v)
    case Return(ret, w) => WordsMention(w, v) || RetIgnores(ret, v)
  }

  ghost predicate HonestTail(t: Tail, v: string)
    decreases t
  {
    match t
    case EndIf => true
    case ElseBlock(els) => Honest(els, v)
    case ElseIf(c, w, thn, tail) => (WordsMention(w, v) || Ignores(c, v)) && Honest(thn, v) && HonestTail(tail, v)
  }

  ghost predicate HonestClauses(cls: Clauses, v: string)
    decreases cls
  {
    match cls
    case EndCase => true
    case Clause(g, w, body, rest) =>
      (WordsMention(w, v) || GuardIgnores(g, v)) && Honest(body, v) && HonestClauses(rest, v)
  }

  /** Every FOR in s can trust the words of its body about its own variable. */
  ghost predicate HonestLoops(s: Stmt)
    decreases s
  {
    match s
    case Seq(a, b) => HonestLoops(a) && HonestLoops(b)
    case If(_, _, thn, tail) => HonestLoops(thn) && HonestLoopsTail(tail)
    case While(_, _, body) => HonestLoops(body)
    case For(v, _, _, _, _, body) => Honest(body, v) && HonestLoops(body)
    case Foreach(_, _, _, body) => HonestLoops(body)
    case Case(_, _, cls) => HonestLoopsClauses(cls)
    case _ => true
  }

  ghost predicate HonestLoopsTail(t: Tail)
    decreases t
  {
    match t
    case EndIf => true
    case ElseBlock(els) => HonestLoops(els)
    case ElseIf(_, _, thn, tail) => HonestLoops(thn) && HonestLoopsTail(tail)
  }

  ghost predicate HonestLoopsClauses(cls: Clauses)
    decreases cls
  {
    match cls
    case EndCase => true
    case Clause(_, _, body, rest) => HonestLoops(body) && HonestLoopsClauses(rest)
  }
}

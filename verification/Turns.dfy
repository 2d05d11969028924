/**
  What one turn of the loop does at each opener, closer and jump of a laid-out program, in
  terms of the simulation relation.
 */
module Turns {
  import opened Phrases
  import opened Machine
  import opened Structured
  import opened Layout
  import opened Relation

  // ---------------------------------------------------------------- finding closers

  lemma FindEndwhile(prog: seq<Phrase>, i: int, body: Stmt)
    requires 0 <= i < |prog| && prog[i].PWhile? && LoopAt(prog, i, body, PEndwhile(Keyword(KEndwhile)))
    ensures Scan(prog, i, 0, ENDWHILE_SEARCH) == At(i + 1 + Len(body))
  {
    hide StmtAt, Len;
    SkipStmt(prog, i + 1, body, 1, ENDWHILE_SEARCH);
  }

  lemma FindEndfor(prog: seq<Phrase>, i: int, body: Stmt)
    requires 0 <= i < |prog| && (prog[i].PFor? || prog[i].PForeach?) && LoopAt(prog, i, body, PEndfor(Keyword(KEndfor)))
    ensures Scan(prog, i, 0, ENDFOR_SEARCH) == At(i + 1 + Len(body))
  {
    hide StmtAt, Len;
    SkipStmt(prog, i + 1, body, 1, ENDFOR_SEARCH);
  }

  // ---------------------------------------------------------------- pushing and popping

  lemma OpenPush(prog: seq<Phrase>, last: seq<Construct>, k: Construct, loops: seq<Loop>, wc: seq<Carton>)
    ensures OpenAll(prog, last + [k], loops, wc) <==>
      OpenAll(prog, last, loops, wc) && OpenTop(prog, last + [k], loops, wc)
  {
    hide OpenTop;
    assert (last + [k])[..|last|] == last;
  }

  lemma PushTurn(prog: seq<Phrase>, c: Config, last: seq<Construct>, k: Construct, st: State, i: int)
    requires Good(prog, c) && OpenAll(prog, last, c.loops, c.wc)
    requires Ready(Step(prog, c), last + [k], st, i, None) && 0 <= i <= |prog| && Keeps(c, Step(prog, c), last)
    requires OpenTop(prog, last + [k], Step(prog, c).loops, Step(prog, c).wc)
    ensures Path(prog, c, 1, Step(prog, c))
    ensures OpenAll(prog, last + [k], Step(prog, c).loops, Step(prog, c).wc)
  {
    hide Step, OpenAll, OpenTop, Stands, Holds, Sound, Path, LoopsKept, CartonsKept;
    var c1 := Step(prog, c);
    OpenKeeps(prog, last, c, c1);
    OpenPush(prog, last, k, c1.loops, c1.wc);
    GoodReady(prog, c1, last + [k], st, i, None);
    PathOne(prog, c);
  }

  lemma PopTurn(prog: seq<Phrase>, c: Config, last: seq<Construct>, k: Construct, st: State, i: int)
    requires Good(prog, c) && OpenAll(prog, last + [k], c.loops, c.wc)
    requires Ready(Step(prog, c), last, st, i, None) && 0 <= i <= |prog| && Keeps(c, Step(prog, c), last)
    ensures Path(prog, c, 1, Step(prog, c))
  {
    hide Step, OpenAll, OpenTop, Stands, Holds, Sound, Path, LoopsKept, CartonsKept;
    OpenPush(prog, last, k, c.loops, c.wc);
    OneTurn(prog, c, last, st, i, None);
  }

  // ---------------------------------------------------------------- WHILE

  ghost function WhileRecord(i: int, end: int, cond: Cond): Loop {
    EmptyLoop().(loopType := LT_WHILE, repeatFrom := i, whileContinueAt := end, cond := cond)
  }

  lemma TurnWhile(prog: seq<Phrase>, i: int, cond: Cond, w: seq<Word>, body: Stmt, last: seq<Construct>, st: State,
                  c: Config)
    requires PhraseAt(prog, i, PWhile(cond, w)) && LoopAt(prog, i, body, PEndwhile(Keyword(KEndwhile)))
    requires Ready(c, last, st, i, None)
    ensures var c1 := Step(prog, c);
      var end := i + 1 + Len(body);
      match cond(st.store)
      case None => c1.status == Failed(EvalFault)
      case Some(false) => Ready(c1, last, st, end + 1, None) && Keeps(c, c1, last)
      case Some(true) =>
        if |last| + 1 >= MAX_LOOPS then c1.status == Failed(IndexPanic)
        else
          && Ready(c1, last + [CWhile], st, i + 1, None) && Keeps(c, c1, last)
          && c1.loops[|last| + 1] == WhileRecord(i, end, cond)
          && OpenTop(prog, last + [CWhile], c1.loops, c1.wc)
  {
    hide StmtAt, Len, Scan, LoopAt, CountCases;
    FindEndwhile(prog, i, body);
    Turn(prog, c, i, PWhile(cond, w));
    CountPush(last, CWhile);
    assert Opened(prog, i, i + 1 + Len(body), ENDWHILE_SEARCH) by {
      hide Step, Dispatch;
      LoopEnd(prog, i, body, PEndwhile(Keyword(KEndwhile)));
    }
  }

  lemma LoopEnd(prog: seq<Phrase>, i: int, body: Stmt, close: Phrase)
    requires LoopAt(prog, i, body, close)
    ensures i + 1 + Len(body) < |prog|
  {
    hide StmtAt, Len;
  }

  lemma TurnEndwhile(prog: seq<Phrase>, i: int, end: int, cond: Cond, last: seq<Construct>, st: State, c: Config,
                     breakIn: Option<Construct>)
    requires PhraseAt(prog, end, PEndwhile(Keyword(KEndwhile)))
    requires Ready(c, last + [CWhile], st, end, breakIn) && (breakIn == None || breakIn == Some(CWhile))
    requires |last| + 1 < MAX_LOOPS && c.loops[|last| + 1] == WhileRecord(i, end, cond)
    ensures var c1 := Step(prog, c);
      match (if breakIn.Some? then Some(false) else cond(st.store))
        case None => c1.status == Failed(EvalFault)
        case Some(false) => Ready(c1, last, st, end + 1, None) && Keeps(c, c1, last)
        case Some(true) => Ready(c1, last + [CWhile], st, i + 1, None) && Keeps(c, c1, last + [CWhile])
  {
    hide CountCases;
    Turn(prog, c, end, PEndwhile(Keyword(KEndwhile)));
    CountPush(last, CWhile);
    assert (last + [CWhile])[..|last|] == last;
  }

  // ---------------------------------------------------------------- FOR

  /** The structured loop record with the machine's positions. */
  ghost function Placed(loop: Loop, i: int, end: int): Loop {
    loop.(forEndPos := end, repeatFrom := i + 1)
  }

  ghost function ForStart(v: string, a: int, b: int, d: int): Loop {
    EmptyLoop().(loopType := LT_FOR, loopVar := v, counter := a, condEnd := b, step := d)
  }

  lemma TurnFor(prog: seq<Phrase>, i: int, s: Stmt, last: seq<Construct>, st: State, c: Config)
    requires s.For? && PhraseAt(prog, i, PFor(s.v, s.start, s.end, s.step, s.words))
    requires LoopAt(prog, i, s.body, PEndfor(Keyword(KEndfor)))
    requires Ready(c, last, st, i, None)
    ensures var c1 := Step(prog, c);
      var end := i + 1 + Len(s.body);
      match (s.start(st.store), s.end(st.store), s.step(st.store))
      case (Some(a), Some(b), Some(d)) =>
        if d == 0 then c1.status == Failed(StepZero)
        else if |last| + 1 >= MAX_LOOPS then c1.status == Failed(IndexPanic)
        else
          && Ready(c1, last + [CFor], st.(store := st.store[s.v := IntV(a)]), if Beyond(a, b, d) then end else i + 1,
                   None)
          && Keeps(c, c1, last) && c1.loops[|last| + 1] == Placed(ForStart(s.v, a, b, d), i, end)
          && OpenTop(prog, last + [CFor], c1.loops, c1.wc)
      case _ => c1.status == Failed(EvalFault)
  {
    hide StmtAt, Len, Scan, Beyond, LoopAt, CountCases;
    FindEndfor(prog, i, s.body);
    Turn(prog, c, i, PFor(s.v, s.start, s.end, s.step, s.words));
    CountPush(last, CFor);
    assert Opened(prog, i, i + 1 + Len(s.body), ENDFOR_SEARCH) by {
      hide Step, Dispatch;
      LoopEnd(prog, i, s.body, PEndfor(Keyword(KEndfor)));
    }
  }

  /** The phrases between FOR and its ENDFOR are the flattened body. */
  lemma BodyBetween(prog: seq<Phrase>, i: int, body: Stmt, loop: Loop)
    requires LoopAt(prog, i, body, PEndfor(Keyword(KEndfor))) && 0 <= i
    requires loop.repeatFrom == i + 1
    ensures UsedInside(prog, loop, i + 1 + Len(body)) == Mentions(Flatten(body), loop.loopVar)
  {
    hide StmtAt, Len, Mentions;
    FlattenLaidOut(prog, i + 1, body);
  }

  /** A pass does not depend on where the loop is placed. */
  lemma PassPlaced(loop: Loop, i: int, end: int, store: Store, used: bool)
    ensures var (loop1, store1, ended) := ForPass(loop, store, used);
      ForPass(Placed(loop, i, end), store, used) == (Placed(loop1, i, end), store1, ended)
    ensures var (loop1, store1, ended) := ForeachPass(loop, store);
      ForeachPass(Placed(loop, i, end), store) == (Placed(loop1, i, end), store1, ended)
  {
    hide Beyond, KeyVar;
  }

  lemma DispatchEndfor(prog: seq<Phrase>, c: Config)
    requires 0 <= c.pc < |prog| && prog[c.pc].PEndfor?
    ensures Dispatch(prog, c) == StepEndfor(prog, c)
  {
    hide StepEndfor;
  }

  /** ENDFOR, once the record on top is known. */
  lemma EndforStep(prog: seq<Phrase>, c: Config, k: Construct, loop: Loop)
    requires 0 <= c.depth < |c.loops| && c.loops[c.depth] == loop
    requires 0 < c.depth <= |c.lastConstruct| && c.lastConstruct[c.depth - 1] == k
    requires (k == CFor && loop.loopType == LT_FOR) || (k == CForeach && loop.loopType == LT_FOREACH)
    requires c.breakIn == None || c.breakIn == Some(k)
    ensures StepEndfor(prog, c) ==
      var (loop1, store1, ended) :=
        if c.breakIn.Some? then (loop, c.store, true)
        else if k == CFor then ForPass(loop, c.store, UsedInside(prog, loop, c.pc))
        else ForeachPass(loop, c.store);
      if ended then
        c.(loops := c.loops[c.depth := loop1], store := store1, breakIn := None,
           depth := c.depth - 1, lastConstruct := c.lastConstruct[..c.depth - 1])
      else c.(loops := c.loops[c.depth := loop1], store := store1, pc := loop1.repeatFrom - 1)
  {
    hide ForPass, ForeachPass, UsedInside;
  }

  lemma TurnEndforNumeric(prog: seq<Phrase>, i: int, body: Stmt, loop: Loop, last: seq<Construct>, st: State,
                          c: Config, breakIn: Option<Construct>)
    requires 0 <= i && LoopAt(prog, i, body, PEndfor(Keyword(KEndfor)))
    requires Ready(c, last + [CFor], st, i + 1 + Len(body), breakIn) && (breakIn == None || breakIn == Some(CFor))
    requires |last| + 1 < MAX_LOOPS && loop.loopType == LT_FOR
    requires c.loops[|last| + 1] == Placed(loop, i, i + 1 + Len(body))
    ensures var c1 := Step(prog, c);
      var end := i + 1 + Len(body);
      var (loop1, store1, ended) := ForPass(loop, st.store, Mentions(Flatten(body), loop.loopVar));
      Keeps(c, c1, last) &&
      if breakIn.Some? then Ready(c1, last, st, end + 1, None)
      else if ended then Ready(c1, last, st.(store := store1), end + 1, None)
      else Ready(c1, last + [CFor], st.(store := store1), i + 1, None) && c1.loops[|last| + 1] == Placed(loop1, i, end)
  {
    hide StmtAt, Len, Mentions, Beyond, CountCases, UsedInside, LoopAt, StepEndfor, Step, Dispatch, ForPass;
    var end := i + 1 + Len(body);
    BodyBetween(prog, i, body, Placed(loop, i, end));
    LoopParts(prog, i, body, PEndfor(Keyword(KEndfor)));
    Turn(prog, c, end, PEndfor(Keyword(KEndfor)));
    DispatchEndfor(prog, c.(pc := end));
    EndforStep(prog, c.(pc := end), CFor, Placed(loop, i, end));
    PassPlaced(loop, i, end, st.store, Mentions(Flatten(body), loop.loopVar));
    CountPush(last, CFor);
    assert (last + [CFor])[..|last|] == last;
  }

  // ---------------------------------------------------------------- FOREACH

  ghost function ForeachStart(v: string, items: seq<Value>): Loop {
    EmptyLoop().(loopType := LT_FOREACH, loopVar := v, condEnd := |items| - 1, items := items)
  }

  lemma TurnForeach(prog: seq<Phrase>, i: int, s: Stmt, last: seq<Construct>, st: State, c: Config)
    requires s.Foreach? && PhraseAt(prog, i, PForeach(s.v, s.list, s.words))
    requires LoopAt(prog, i, s.body, PEndfor(Keyword(KEndfor)))
    requires Ready(c, last, st, i, None)
    ensures var c1 := Step(prog, c);
      var end := i + 1 + Len(s.body);
      match s.list(st.store)
      case None => c1.status == Failed(EvalFault)
      case Some(items) =>
        if |items| == 0 then Ready(c1, last, st, end + 1, None) && Keeps(c, c1, last)
        else if |last| + 1 >= MAX_LOOPS then c1.status == Failed(IndexPanic)
        else
          && Ready(c1, last + [CForeach], st.(store := st.store[KeyVar(s.v) := IntV(0)][s.v := items[0]]), i + 1, None)
          && Keeps(c, c1, last) && c1.loops[|last| + 1] == Placed(ForeachStart(s.v, items), i, end)
          && OpenTop(prog, last + [CForeach], c1.loops, c1.wc)
  {
    hide StmtAt, Len, Scan, LoopAt, CountCases, KeyVar;
    FindEndfor(prog, i, s.body);
    Turn(prog, c, i, PForeach(s.v, s.list, s.words));
    CountPush(last, CForeach);
    assert Opened(prog, i, i + 1 + Len(s.body), ENDFOR_SEARCH) by {
      hide Step, Dispatch;
      LoopEnd(prog, i, s.body, PEndfor(Keyword(KEndfor)));
    }
  }

  lemma TurnEndforList(prog: seq<Phrase>, i: int, body: Stmt, loop: Loop, last: seq<Construct>, st: State, c: Config,
                       breakIn: Option<Construct>)
    requires 0 <= i && LoopAt(prog, i, body, PEndfor(Keyword(KEndfor)))
    requires Ready(c, last + [CForeach], st, i + 1 + Len(body),
                   breakIn) && (breakIn == None || breakIn == Some(CForeach))
    requires |last| + 1 < MAX_LOOPS && loop.loopType == LT_FOREACH
    requires c.loops[|last| + 1] == Placed(loop, i, i + 1 + Len(body))
    ensures var c1 := Step(prog, c);
      var end := i + 1 + Len(body);
      var (loop1, store1, ended) := ForeachPass(loop, st.store);
      Keeps(c, c1, last) &&
      if breakIn.Some? then Ready(c1, last, st, end + 1, None)
      else if ended then Ready(c1, last, st.(store := store1), end + 1, None)
      else Ready(c1, last + [CForeach], st.(store := store1), i + 1, None) && c1.loops[|last| + 1] == Placed(loop1, i,
          end)
  {
    hide StmtAt, Len, KeyVar, CountCases, LoopAt, UsedInside, StepEndfor, Step, Dispatch, ForeachPass;
    var end := i + 1 + Len(body);
    LoopParts(prog, i, body, PEndfor(Keyword(KEndfor)));
    Turn(prog, c, end, PEndfor(Keyword(KEndfor)));
    DispatchEndfor(prog, c.(pc := end));
    EndforStep(prog, c.(pc := end), CForeach, Placed(loop, i, end));
    PassPlaced(loop, i, end, st.store, false);
    CountPush(last, CForeach);
    assert (last + [CForeach])[..|last|] == last;
  }

  // ---------------------------------------------------------------- BREAK, CONTINUE

  lemma TurnBreak(prog: seq<Phrase>, i: int, guard: Option<Cond>, w: seq<Word>, last: seq<Construct>, st: State,
                  c: Config)
    requires PhraseAt(prog, i, PBreak(guard, w)) && Ready(c, last, st, i, None)
    ensures var c1 := Step(prog, c);
      match Test(guard, st.store)
      case None => c1.status == Failed(EvalFault)
      case Some(false) => Ready(c1, last, st, i + 1, None) && Keeps(c, c1, last)
      case Some(true) =>
        if 0 < |last| < MAX_LOOPS then
          Ready(c1, last, st, Target(c, last), Some(last[|last| - 1])) && Keeps(c, c1, last)
        else c1.status == Failed(IndexPanic)
  {
    hide CountCases;
    Turn(prog, c, i, PBreak(guard, w));
  }

  lemma TurnContinue(prog: seq<Phrase>, i: int, guard: Option<Cond>, w: seq<Word>, last: seq<Construct>, st: State,
                     c: Config)
    requires PhraseAt(prog, i, PContinue(guard, w)) && Ready(c, last, st, i, None)
    requires |last| > 0 && last[|last| - 1] != CCase ==> |last| < MAX_LOOPS
    ensures var c1 := Step(prog, c);
      if |last| == 0 then c1.status == Failed(NothingToContinue)
      else match Test(guard, st.store)
      case None => c1.status == Failed(EvalFault)
      case Some(false) => Ready(c1, last, st, i + 1, None) && Keeps(c, c1, last)
      case Some(true) =>
        if last[|last| - 1] == CCase then c1.status == Failed(ContinueInCase)
        else Ready(c1, last, st, Target(c, last), None) && Keeps(c, c1, last)
  {
    hide CountCases;
    Turn(prog, c, i, PContinue(guard, w));
  }

  lemma TurnAct(prog: seq<Phrase>, i: int, run: Action, w: seq<Word>, last: seq<Construct>, st: State, c: Config)
    requires PhraseAt(prog, i, PAct(run, w)) && Ready(c, last, st, i, None)
    ensures var c1 := Step(prog, c);
      match run(st.store)
      case None => c1.status == Failed(EvalFault)
      case Some(store) => Ready(c1, last, st.(store := store), i + 1, None) && Keeps(c, c1, last)
  {
    hide CountCases;
    Turn(prog, c, i, PAct(run, w));
  }

  lemma TurnReturn(prog: seq<Phrase>, i: int, ret: Ret, w: seq<Word>, last: seq<Construct>, st: State, c: Config)
    requires PhraseAt(prog, i, PReturn(ret, w)) && Ready(c, last, st, i, None)
    ensures var c1 := Step(prog, c);
      match ExitOf(ret, st.store)
      case None => c1.status == Failed(EvalFault)
      case Some(None) => Ready(c1, last, st, i + 1, None) && Keeps(c, c1, last)
      case Some(Some(x)) => Arrived(Returned(x, st, last), c, c1, last, i + 1)
  {
    hide CountCases;
    Turn(prog, c, i, PReturn(ret, w));
  }

  // ---------------------------------------------------------------- CASE

  ghost function CaseRecord(end: int, value: Value, performed: bool): Carton {
    Carton(end, value, performed, !performed)
  }

  /** The last phrase of the clauses is the ENDCASE that a scan from inside the CASE finds. */
  lemma {:induction false} FindEndcase(prog: seq<Phrase>, i: nat, cls: Clauses)
    requires ClausesAt(prog, i, cls)
    ensures Scan(prog, i, 1, ENDCASE_SEARCH) == At(i + LenClauses(cls) - 1)
    ensures PhraseAt(prog, i + LenClauses(cls) - 1, PEndcase(Keyword(KEndcase)))
    decreases cls
  {
    hide StmtAt, Scan, ClausesAt, LenClauses, Len;
    LenClausesParts(cls);
    ClausesParts(prog, i, cls);
    match cls
    case EndCase =>
      ScanHere(prog, i, 1, ENDCASE_SEARCH);
    case Clause(g, w, body, rest) =>
      ScanPast(prog, i, 1, ENDCASE_SEARCH);
      SkipStmt(prog, i + 1, body, 1, ENDCASE_SEARCH);
      FindEndcase(prog, i + 1 + Len(body), rest);
  }

  lemma TurnCase(prog: seq<Phrase>, i: int, s: Stmt, last: seq<Construct>, st: State, c: Config)
    requires s.Case? && PhraseAt(prog, i, PCase(s.value, s.words)) && ClausesAt(prog, i + 1, s.clauses)
    requires Ready(c, last, st, i, None)
    ensures var c1 := Step(prog, c);
      var end := i + LenClauses(s.clauses);
      match s.value(st.store)
      case None => c1.status == Failed(EvalFault)
      case Some(x) =>
        if CountCases(last) + 1 >= CASE_CAP then c1.status == Failed(IndexPanic)
        else
          && Ready(c1, last + [CCase], st, i + 1, None) && Keeps(c, c1, last)
          && c1.wc[CountCases(last) + 1] == CaseRecord(end, x, false)
          && OpenTop(prog, last + [CCase], c1.loops, c1.wc)
  {
    hide ClausesAt, LenClauses, Scan, CountCases;
    FindEndcase(prog, i + 1, s.clauses);
    ScanPast(prog, i, 0, ENDCASE_SEARCH);
    var end := i + LenClauses(s.clauses);
    Turn(prog, c, i, PCase(s.value, s.words));
    CountPush(last, CCase);
    assert i < end by { LenClausesParts(s.clauses); }
    assert Opened(prog, i, end, ENDCASE_SEARCH);
  }

  /** A scan for one kind of clause, started after a clause guard, first stops at the next clause line. */
  lemma NextClauseScan(prog: seq<Phrase>, i: int, body: Stmt, rest: Clauses, k: Kind)
    requires 0 <= i && StmtAt(prog, i, body) && ClausesAt(prog, i + Len(body), rest)
    requires k == KIs || k == KHas || k == KContains || k == KOr
    ensures var r := Scan(prog, i, 0, ClauseSearch(k));
      var j := i + Len(body);
      match rest
      case EndCase => !r.At?
      case Clause(g, w, _, _) =>
        if PClause(g, w).Kind() == k then r == At(j) else r.At? ==> r.line > j
  {
    hide StmtAt, Scan, ClausesAt, LenClauses, Len;
    ClausesParts(prog, i + Len(body), rest);
    SkipStmt(prog, i, body, 0, ClauseSearch(k));
    var j := i + Len(body);
    match rest
    case EndCase =>
      ScanHere(prog, j, 0, ClauseSearch(k));
    case Clause(g, w, b, r) =>
      if PClause(g, w).Kind() == k {
        ScanHere(prog, j, 0, ClauseSearch(k));
      } else {
        ScanPast(prog, j, 0, ClauseSearch(k));
      }
  }

  lemma FindNextClause(prog: seq<Phrase>, i: int, body: Stmt, rest: Clauses)
    requires 0 <= i && StmtAt(prog, i, body) && ClausesAt(prog, i + Len(body), rest)
    ensures i <= |prog|
    ensures NextClause(prog, i) == if rest.EndCase? then None else Some(i + Len(body))
  {
    hide StmtAt, ClausesAt, Scan, Len, Phrase.Kind;
    assert i <= |prog| by { StmtParts(prog, i, body); }
    NextClauseScan(prog, i, body, rest, KIs);
    NextClauseScan(prog, i, body, rest, KHas);
    NextClauseScan(prog, i, body, rest, KContains);
    NextClauseScan(prog, i, body, rest, KOr);
    match rest
    case EndCase =>
    case Clause(g, w, _, _) => ClauseKind(g, w);
  }

  lemma ClauseKind(g: Guard, w: seq<Word>)
    ensures var k := PClause(g, w).Kind(); k == KIs || k == KHas || k == KContains || k == KOr
  {
    hide NextClause;
  }

  /** The clause test, once the next clause line is known. */
  lemma ClauseStep(prog: seq<Phrase>, c: Config, guard: Guard, last: seq<Construct>, carton: Carton, next: Option<nat>)
    requires 0 <= c.pc && c.pc + 1 <= |prog| && NextClause(prog, c.pc + 1) == next
    requires c.lastConstruct == last + [CCase] && 0 <= c.wccount < |c.wc| && c.wc[c.wccount] == carton
    requires !carton.performed && carton.dodefault
    ensures StepClause(prog, c, guard) ==
      match Matches(guard, carton.value, c.store)
      case None => Fail(c, EvalFault)
      case Some(true) =>
        if guard.Or? then c else c.(wc := c.wc[c.wccount := carton.(performed := true, dodefault := false)])
      case Some(false) => c.(pc := if next.Some? then next.value - 1 else carton.endLine - 1)
  {
  }

  /** Control on a clause. */
  lemma TurnClause(prog: seq<Phrase>, i: int, cls: Clauses, value: Value, performed: bool, last: seq<Construct>,
                   st: State, c: Config)
    requires cls.Clause? && ClausesAt(prog, i, cls) && Ready(c, last + [CCase], st, i, None)
    requires c.wc[CountCases(last + [CCase])] == CaseRecord(i + LenClauses(cls) - 1, value, performed)
    ensures var c1 := Step(prog, c);
      var end := i + LenClauses(cls) - 1;
      var at := CountCases(last + [CCase]);
      if performed then Ready(c1, last + [CCase], st, end, None) && Keeps(c, c1, last + [CCase])
      else match Matches(cls.guard, value, st.store)
        case None => c1.status == Failed(EvalFault)
        case Some(true) =>
          && Ready(c1, last + [CCase], st, i + 1, None) && Keeps(c, c1, last)
          && c1.wc[at] == CaseRecord(end, value, !cls.guard.Or?)
          && c1.loops == c.loops
        case Some(false) => Ready(c1, last + [CCase], st, i + 1 + Len(cls.body), None) && Keeps(c, c1, last + [CCase])
  {
    hide ClausesAt, StmtAt, Len, LenClauses, NextClause, Matches, Dispatch, CountCases;
    var Clause(g, w, body, rest) := cls;
    LenClausesParts(cls);
    LenClausesParts(rest);
    ClausesParts(prog, i, cls);
    ClausesParts(prog, i + 1 + Len(body), rest);
    Turn(prog, c, i, PClause(g, w));
    DispatchClause(prog, c.(pc := i), g, w);
    CountPush(last, CCase);
    if !performed {
      FindNextClause(prog, i + 1, body, rest);
      ClauseStep(prog, c.(pc := i), g, last, c.wc[c.wccount], if rest.EndCase? then None else Some(i + 1 + Len(body)));
      hide StepClause, Step;
    }
  }

  lemma DispatchClause(prog: seq<Phrase>, c: Config, g: Guard, w: seq<Word>)
    requires 0 <= c.pc < |prog| && prog[c.pc] == PClause(g, w)
    ensures Dispatch(prog, c) == StepClause(prog, c, g)
  {
    hide StepClause;
  }

  lemma TurnEndcase(prog: seq<Phrase>, i: int, last: seq<Construct>, st: State, c: Config, breakIn: Option<Construct>)
    requires PhraseAt(prog, i, PEndcase(Keyword(KEndcase)))
    requires Ready(c, last + [CCase], st, i, breakIn) && (breakIn == None || breakIn == Some(CCase))
    ensures var c1 := Step(prog, c);
      Ready(c1, last, st, i + 1, None) && Keeps(c, c1, last)
  {
    hide CountCases;
    Turn(prog, c, i, PEndcase(Keyword(KEndcase)));
    CountPush(last, CCase);
    assert (last + [CCase])[..|last|] == last;
  }

  // ---------------------------------------------------------------- IF

  /** The last phrase of a tail is the ENDIF that a scan from inside the IF finds. */
  lemma {:induction false} FindEndif(prog: seq<Phrase>, i: nat, t: Tail)
    requires TailAt(prog, i, t)
    ensures LenTail(t) > 0 && i + LenTail(t) <= |prog|
    ensures Scan(prog, i, 1, ENDIF_SEARCH) == At(i + LenTail(t) - 1)
    ensures PhraseAt(prog, i + LenTail(t) - 1, PEndif(Keyword(KEndif)))
    decreases t
  {
    hide StmtAt, Scan, TailAt, LenTail, Len;
    LenTailParts(t);
    TailParts(prog, i, t);
    match t
    case EndIf =>
      ScanHere(prog, i, 1, ENDIF_SEARCH);
    case ElseBlock(els) =>
      ScanPast(prog, i, 1, ENDIF_SEARCH);
      SkipStmt(prog, i + 1, els, 1, ENDIF_SEARCH);
      ScanHere(prog, i + 1 + Len(els), 1, ENDIF_SEARCH);
    case ElseIf(c, w, thn, tail) =>
      ScanPast(prog, i, 1, ENDIF_SEARCH);
      SkipStmt(prog, i + 1, thn, 1, ENDIF_SEARCH);
      FindEndif(prog, i + 1 + Len(thn), tail);
  }

  /** From the end of a branch, the next ELSE of this IF is the very next phrase, if there is one. */
  lemma FindElse(prog: seq<Phrase>, i: nat, t: Tail)
    requires TailAt(prog, i, t)
    ensures Scan(prog, i, 1, ELSE_SEARCH) == if t.EndIf? then Dedent(i) else At(i)
    ensures !t.EndIf? ==> LenTail(t) > 1 && i < |prog| && (prog[i].PElseIf? <==> t.ElseIf?)
  {
    hide StmtAt, Scan, TailAt, LenTail, Len;
    LenTailParts(t);
    TailParts(prog, i, t);
    ScanHere(prog, i, 1, ELSE_SEARCH);
  }

  /** Where a false condition lands: on an ELSE IF, past a plain ELSE, or past the ENDIF. */
  ghost function JumpLine(i: int, t: Tail): int { if t.ElseIf? then i else i + 1 }

  /** What the scans of an IF or ELSE IF whose body starts at line i find. */
  lemma BranchScans(prog: seq<Phrase>, i: nat, thn: Stmt, tail: Tail)
    requires StmtAt(prog, i, thn) && TailAt(prog, i + Len(thn), tail)
    ensures var j := i + Len(thn);
      && i <= |prog| && LenTail(tail) > 0 && j + LenTail(tail) <= |prog|
      && Scan(prog, i, 1, ENDIF_SEARCH) == At(j + LenTail(tail) - 1)
      && Scan(prog, i, 1, ELSE_SEARCH) == (if tail.EndIf? then Dedent(j) else At(j))
      && (!tail.EndIf? ==> LenTail(tail) > 1 && (prog[j].PElseIf? <==> tail.ElseIf?))
      && (tail.EndIf? ==> LenTail(tail) == 1)
  {
    hide StmtAt, Scan, TailAt, LenTail, Len;
    assert i <= |prog| by { StmtParts(prog, i, thn); }
    SkipStmt(prog, i, thn, 1, ENDIF_SEARCH);
    SkipStmt(prog, i, thn, 1, ELSE_SEARCH);
    LenTailParts(tail);
    FindEndif(prog, i + Len(thn), tail);
    FindElse(prog, i + Len(thn), tail);
  }

  /** IF, once its scans are known. */
  lemma IfStep(prog: seq<Phrase>, c: Config, cond: Cond, end: nat, els: Found, st: State)
    requires 0 <= c.pc < |prog| && c.status == Running
    requires c.store == st.store && c.ifMatched == st.ifm && c.ifDepth == |st.ifm|
    requires Scan(prog, c.pc, 0, ENDIF_SEARCH) == At(end) && Scan(prog, c.pc, 0, ELSE_SEARCH) == els
    ensures StepIf(prog, c, cond) ==
      match cond(st.store)
      case None => Fail(c.(ifDepth := |st.ifm| + 1, ifMatched := st.ifm + [false]), EvalFault)
      case Some(true) => c.(ifDepth := |st.ifm| + 1, ifMatched := st.ifm + [true])
      case Some(false) =>
        c.(ifDepth := |st.ifm| + 1, ifMatched := st.ifm + [false],
           pc :=
             if !(els.At? && els.line < end) then end else if prog[els.line].PElseIf? then els.line - 1 else els.line)
  {
    hide Scan;
    assert seq(1, _ => false) == [false];
    assert PadTo(st.ifm, |st.ifm| + 1) == st.ifm + [false];
    assert (st.ifm + [false])[|st.ifm| := false] == st.ifm + [false];
    assert (st.ifm + [false])[|st.ifm| := true] == st.ifm + [true];
  }

  lemma TurnIf(prog: seq<Phrase>, i: int, s: Stmt, last: seq<Construct>, st: State, c: Config)
    requires s.If? && PhraseAt(prog, i, PIf(s.cond, s.words)) && StmtAt(prog, i + 1, s.thn)
    requires TailAt(prog, i + 1 + Len(s.thn), s.tail)
    requires Ready(c, last, st, i, None)
    ensures var c1 := Step(prog, c);
      Keeps(c, c1, last) &&
      match s.cond(st.store)
      case None => c1.status == Failed(EvalFault)
      case Some(true) => Ready(c1, last, Push(st, true), i + 1, None)
      case Some(false) => Ready(c1, last, Push(st, false), JumpLine(i + 1 + Len(s.thn), s.tail), None)
  {
    hide StmtAt, Scan, TailAt, LenTail, Len, CountCases, StepIf, Dispatch, Step;
    BranchScans(prog, i + 1, s.thn, s.tail);
    ScanPast(prog, i, 0, ENDIF_SEARCH);
    ScanPast(prog, i, 0, ELSE_SEARCH);
    Turn(prog, c, i, PIf(s.cond, s.words));
    DispatchIf(prog, c.(pc := i), s.cond, s.words);
    IfStep(prog, c.(pc := i), s.cond, i + 1 + Len(s.thn) + LenTail(s.tail) - 1, Scan(prog, i, 0, ELSE_SEARCH), st);
  }

  lemma DispatchIf(prog: seq<Phrase>, c: Config, cond: Cond, w: seq<Word>)
    requires 0 <= c.pc < |prog| && prog[c.pc] == PIf(cond, w)
    ensures Dispatch(prog, c) == StepIf(prog, c, cond)
  {
    hide StepIf;
  }

  /** Control falls onto a plain ELSE. */
  lemma TurnElse(prog: seq<Phrase>, i: int, els: Stmt, last: seq<Construct>, st: State, c: Config)
    requires TailAt(prog, i, ElseBlock(els)) && Ready(c, last, st, i, None)
    ensures var c1 := Step(prog, c);
      var end := i + 1 + Len(els);
      Keeps(c, c1, last) &&
      if |st.ifm| == 0 then c1.status == Failed(IndexPanic)
      else Ready(c1, last, st, if TopMatched(st) then end else end + 1, None)
  {
    hide StmtAt, Scan, TailAt, LenTail, Len, CountCases;
    LenTailParts(ElseBlock(els));
    TailParts(prog, i, ElseBlock(els));
    FindEndif(prog, i, ElseBlock(els));
    Turn(prog, c, i, PElse(Keyword(KElse)));
  }

  /** ELSE IF, once its scans are known. */
  lemma ElseIfStep(prog: seq<Phrase>, c: Config, cond: Cond, end: nat, els: Found, st: State)
    requires 0 <= c.pc < |prog| && c.status == Running && |st.ifm| > 0
    requires c.store == st.store && c.ifMatched == st.ifm && c.ifDepth == |st.ifm|
    requires Scan(prog, c.pc + 1, 1, ENDIF_SEARCH) == At(end) && Scan(prog, c.pc + 1, 1, ELSE_SEARCH) == els
    ensures StepElseIf(prog, c, cond) ==
      if TopMatched(st) then c.(pc := end - 1)
      else match cond(st.store)
      case None => Fail(c, EvalFault)
      case Some(true) => c.(ifMatched := st.ifm[|st.ifm| - 1 := true])
      case Some(false) =>
        c.(pc :=
             if !(els.At? && els.line < end) then end else if prog[els.line].PElseIf? then els.line - 1 else els.line)
  {
    hide Scan;
  }

  lemma DispatchElseIf(prog: seq<Phrase>, c: Config, cond: Cond, w: seq<Word>)
    requires 0 <= c.pc < |prog| && prog[c.pc] == PElseIf(cond, w)
    ensures Dispatch(prog, c) == StepElseIf(prog, c, cond)
  {
    hide StepElseIf;
  }

  /** Control reaches an ELSE IF, whether it falls onto it or is sent there. */
  lemma TurnElseIf(prog: seq<Phrase>, i: int, t: Tail, last: seq<Construct>, st: State, c: Config)
    requires t.ElseIf? && TailAt(prog, i, t) && Ready(c, last, st, i, None)
    ensures var c1 := Step(prog, c);
      Keeps(c, c1, last) &&
      if |st.ifm| == 0 then c1.status == Failed(IndexPanic)
      else if TopMatched(st) then Ready(c1, last, st, i + LenTail(t) - 1, None)
      else match t.cond(st.store)
      case None => c1.status == Failed(EvalFault)
      case Some(true) => Ready(c1, last, st.(ifm := st.ifm[|st.ifm| - 1 := true]), i + 1, None)
      case Some(false) => Ready(c1, last, st, JumpLine(i + 1 + Len(t.thn), t.tail), None)
  {
    hide StmtAt, Scan, TailAt, LenTail, Len, CountCases;
    LenTailParts(t);
    TailParts(prog, i, t);
    BranchScans(prog, i + 1, t.thn, t.tail);
    Turn(prog, c, i, PElseIf(t.cond, t.words));
    DispatchElseIf(prog, c.(pc := i), t.cond, t.words);
    if |st.ifm| > 0 {
      ElseIfStep(prog, c.(pc := i), t.cond, i + LenTail(t) - 1, Scan(prog, i + 1, 1, ELSE_SEARCH), st);
      hide StepElseIf, Dispatch, Step;
    }
  }

  lemma TurnEndif(prog: seq<Phrase>, i: int, last: seq<Construct>, st: State, c: Config)
    requires PhraseAt(prog, i, PEndif(Keyword(KEndif))) && Ready(c, last, st, i, None)
    ensures var c1 := Step(prog, c);
      Keeps(c, c1, last) &&
      if |st.ifm| == 0 then c1.status == Failed(WrongEnd)
      else Ready(c1, last, st.(ifm := st.ifm[..|st.ifm| - 1]), i + 1, None)
  {
    hide CountCases;
    Turn(prog, c, i, PEndif(Keyword(KEndif)));
  }
}

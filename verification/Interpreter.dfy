/**
  The statement loop as the source writes it: an object whose fields each turn updates in place.
  Every method is proved against the corresponding step of Machine.
 */
module Interpreter {
  import opened Phrases
  import opened Machine
  import opened Structured
  import opened Relation
  import opened WholeRuns

  /** What an IF remembers of its first lookahead: is there an ELSE, and how far off are that and its ENDIF. */
  datatype Ahead = Ahead(hasElse: bool, elseDistance: int, endDistance: int)

  function DistanceOf(f: Found, startLine: nat): int {
    match f case At(j) => j - startLine case Missing => -1 case Dedent(_) => 0
  }

  /** What it would find by looking again. */
  function LookAgain(prog: seq<Phrase>, p: nat): Ahead
    requires p <= |prog|
  {
    var els := Scan(prog, p, 0, ELSE_SEARCH);
    Ahead(els.At?, DistanceOf(els, p), DistanceOf(Scan(prog, p, 0, ENDIF_SEARCH), p))
  }

  /** The results of lookahead kept with the IF phrases of a program. */
  class Lookaheads {
    const prog: seq<Phrase>
    var done: map<nat, Ahead>

    /** Whatever is kept is what looking again would find. */
    ghost predicate Valid()
      reads this
    {
      forall p :: p in done ==> p < |prog| && done[p] == LookAgain(prog, p)
    }

    /** Every IF with a result has its ENDIF. */
    ghost predicate Closed()
      requires Valid()
      reads this
    {
      forall p :: p in done ==> Scan(prog, p, 0, ENDIF_SEARCH).At?
    }

    constructor (prog: seq<Phrase>)
      ensures this.prog == prog && done == map[] && Valid() && Closed()
    {
      this.prog, done := prog, map[];
    }

    /** An IF looks ahead the first time only; after that its ENDIF is taken to be there. */
    method IfDistances(pc: nat) returns (elsefound: bool, elsedistance: int, endfound: bool, enddistance: int)
      requires pc < |prog| && Valid()
      modifies this
      ensures Valid() && done == old(done)[pc := LookAgain(prog, pc)]
      ensures Ahead(elsefound, elsedistance, enddistance) == LookAgain(prog, pc)
      ensures endfound <==> pc in old(done) || Scan(prog, pc, 0, ENDIF_SEARCH).At?
    {
      hide Scan;
      if pc !in done {
        var er;
        elsefound, elsedistance, er := Lookahead(prog, pc, 0, ELSE_SEARCH);
        endfound, enddistance, er := Lookahead(prog, pc, 0, ENDIF_SEARCH);
        done := done[pc := Ahead(elsefound, elsedistance, enddistance)];
      } else {
        elsefound, elsedistance := done[pc].hasElse, done[pc].elseDistance;
        endfound, enddistance := true, done[pc].endDistance;
      }
    }
  }

  class Call {
    const prog: seq<Phrase>
    const ahead: Lookaheads
    var status: Status
    var pc: int
    var ident: Store
    var depth: int
    const loops: array<Loop>
    var lastConstruct: seq<Construct>
    const wc: array<Carton>
    var wccount: int
    var breakIn: Option<Construct>
    var ifDepth: int
    var ifMatchedStack: seq<bool>

    /** The whole state of the call as a value. */
    ghost function State(): Config
      reads this, loops, wc
    {
      Config(status, pc, ident, depth, loops[..], lastConstruct, wc[..], wccount, breakIn, ifDepth, ifMatchedStack)
    }

    /** The lookaheads kept for the program can be relied on while the call runs. */
    ghost predicate Trusted()
      reads this, ahead
    {
      ahead.prog == prog && ahead.Valid() && (status == Running ==> ahead.Closed())
    }

    constructor (prog: seq<Phrase>, ident: Store, ahead: Lookaheads)
      requires ahead.prog == prog && ahead.Valid() && ahead.Closed()
      ensures this.prog == prog && this.ahead == ahead && State() == Initial(ident) && Trusted()
      ensures fresh(loops) && fresh(wc)
    {
      this.prog, this.ahead := prog, ahead;
      status, pc, this.ident := Running, -1, ident;
      depth, lastConstruct, wccount, breakIn := 0, [], 0, None;
      ifDepth, ifMatchedStack := 0, [];
      loops := new Loop[MAX_LOOPS](_ => EmptyLoop());
      wc := new Carton[CASE_CAP](_ => EmptyCarton());
      new;
      assert loops[..] == seq(MAX_LOOPS, _ => EmptyLoop());
      assert wc[..] == seq(CASE_CAP, _ => EmptyCarton());
    }

    /** Report a fault and stop. */
    method Finish(e: Error)
      modifies this`status
      ensures State() == Fail(old(State()), e)
    {
      status := Failed(e);
    }

    method Enter(loop: Loop, k: Construct)
      modifies this, loops
      ensures State() == PushLoop(old(State()), loop, k)
    {
      if 0 <= depth + 1 < loops.Length {
        depth := depth + 1;
        loops[depth] := loop;
        lastConstruct := lastConstruct + [k];
      } else {
        Finish(IndexPanic);
      }
    }

    method Leave()
      modifies this
      ensures State() == Pop(old(State()))
    {
      if 0 <= depth - 1 <= |lastConstruct| {
        depth := depth - 1;
        lastConstruct := lastConstruct[..depth];
      } else {
        Finish(IndexPanic);
      }
    }

    method While(cond: Cond)
      requires 0 <= pc < |prog|
      modifies this, loops
      ensures State() == StepWhile(prog, old(State()), cond)
    {
      hide Scan, Phrase.Kind;
      var found, distance, _ := Lookahead(prog, pc, 0, ENDWHILE_SEARCH);
      if !found {
        Finish(NoEnd);
        return;
      }
      match cond(ident)
      case None => Finish(EvalFault);
      case Some(res) =>
        if res {
          Enter(EmptyLoop().(loopType := LT_WHILE, repeatFrom := pc, whileContinueAt := pc + distance, cond := cond),
                CWhile);
        } else {
          pc := pc + distance;
        }
    }

    method Endwhile()
      modifies this
      ensures State() == StepEndwhile(old(State()))
    {
      if !(0 <= depth < loops.Length) {
        Finish(IndexPanic);
        return;
      }
      var loop := loops[depth];
      if loop.loopType != LT_WHILE {
        Finish(WrongEnd);
      } else if breakIn == Some(CWhile) {
        Leave();
        breakIn := None;
      } else {
        match loop.cond(ident)
        case None => Finish(EvalFault);
        case Some(res) =>
          if res {
            pc := loop.repeatFrom;
          } else {
            Leave();
          }
      }
    }

    method For(v: string, start: IntExpr, end: IntExpr, step: IntExpr)
      requires 0 <= pc < |prog|
      modifies this, loops
      ensures State() == StepFor(prog, old(State()), v, start, end, step)
    {
      hide Scan, Phrase.Kind, Beyond;
      var fstart, fend, fstep := start(ident), end(ident), step(ident);
      if fstart.None? || fend.None? || fstep.None? {
        Finish(EvalFault);
        return;
      }
      if fstep.value == 0 {
        Finish(StepZero);
        return;
      }
      var found, distance, _ := Lookahead(prog, pc, 0, ENDFOR_SEARCH);
      if !found {
        Finish(NoEnd);
        return;
      }
      Enter(EmptyLoop().(loopType := LT_FOR, loopVar := v, counter := fstart.value, condEnd := fend.value,
                         step := fstep.value,
                         forEndPos := pc + distance, repeatFrom := pc + 1), CFor);
      if status == Running {
        ident := ident[v := IntV(fstart.value)];
        if Beyond(fstart.value, fend.value, fstep.value) {
          pc := pc + distance - 1;
        }
      }
    }

    method Foreach(v: string, list: ListExpr)
      requires 0 <= pc < |prog|
      modifies this, loops
      ensures State() == StepForeach(prog, old(State()), v, list)
    {
      hide Scan, Phrase.Kind, KeyVar;
      var items := list(ident);
      if items.None? {
        Finish(EvalFault);
        return;
      }
      var found, distance, _ := Lookahead(prog, pc, 0, ENDFOR_SEARCH);
      if !found {
        Finish(NoEnd);
        return;
      }
      if |items.value| == 0 {
        pc := pc + distance;
        return;
      }
      Enter(EmptyLoop().(loopType := LT_FOREACH, loopVar := v, counter := 0, condEnd := |items.value| - 1,
                         forEndPos := pc + distance, repeatFrom := pc + 1, items := items.value), CForeach);
      if status == Running {
        ident := ident[KeyVar(v) := IntV(0)];
        ident := ident[v := items.value[0]];
      }
    }

    /** The counter update of ENDFOR for a numeric FOR, on the record at the current depth. */
    method NextCount() returns (ended: bool)
      requires 0 <= depth < loops.Length && 0 <= pc <= |prog|
      modifies this`ident, loops
      ensures var (loop1, store1, e) := ForPass(old(loops[depth]), old(ident), UsedInside(prog, old(loops[depth]), pc));
        ended == e && State() == old(State()).(loops := old(loops[..])[depth := loop1], store := store1)
    {
      var loop := loops[depth];
      loop := loop.(counter := loop.counter + loop.step);
      ended := false;
      if Beyond(loop.counter, loop.condEnd, loop.step) {
        loop := loop.(counter := loop.counter - loop.step);
        if loop.opt == LoopIgnore {
          ident := ident[loop.loopVar := IntV(loop.counter)];
        }
        ended := true;
      }
      if loop.opt == LoopStart {
        loop := loop.(opt := LoopIgnore);
        if 0 <= loop.repeatFrom <= pc {
          var used := SearchToken(prog, loop.repeatFrom, pc, loop.loopVar);
          if used {
            loop := loop.(opt := LoopSet);
          }
        }
      }
      if loop.opt == LoopSet {
        ident := ident[loop.loopVar := IntV(loop.counter)];
      }
      loops[depth] := loop;
    }

    /** The item update of ENDFOR for a FOREACH over a list. */
    method NextItem() returns (ended: bool)
      requires 0 <= depth < loops.Length
      modifies this`ident, loops
      ensures var (loop1, store1, e) := ForeachPass(old(loops[depth]), old(ident));
        ended == e && State() == old(State()).(loops := old(loops[..])[depth := loop1], store := store1)
    {
      var loop := loops[depth];
      loop := loop.(counter := loop.counter + 1);
      if loop.opt == LoopStart {
        loop := loop.(opt := LoopSet);
      }
      ended := loop.counter > loop.condEnd || !(0 <= loop.counter < |loop.items|);
      if !ended {
        ident := ident[KeyVar(loop.loopVar) := IntV(loop.counter)];
        ident := ident[loop.loopVar := loop.items[loop.counter]];
      }
      loops[depth] := loop;
    }

    method Endfor()
      requires 0 <= pc < |prog|
      modifies this, loops
      ensures State() == StepEndfor(prog, old(State()))
    {
      hide ForPass, ForeachPass, UsedInside;
      if !(0 <= depth < loops.Length) {
        Finish(IndexPanic);
        return;
      }
      var loop := loops[depth];
      if loop.opt == LoopStart {
        if !(0 <= depth - 1 < |lastConstruct|) {
          Finish(IndexPanic);
          return;
        }
        if lastConstruct[depth - 1] != CForeach && lastConstruct[depth - 1] != CFor {
          Finish(WrongEnd);
          return;
        }
      }
      var loopEnd := false;
      if breakIn != Some(CFor) && breakIn != Some(CForeach) {
        if loop.loopType == LT_FOREACH {
          loopEnd := NextItem();
        } else if loop.loopType == LT_FOR {
          loopEnd := NextCount();
        } else {
          assert loops[..] == old(loops[..])[depth := loop];
        }
      } else {
        assert loops[..] == old(loops[..])[depth := loop];
        if || (loop.loopType == LT_FOR && breakIn == Some(CFor))
           || (loop.loopType == LT_FOREACH && breakIn == Some(CForeach))
        {
          loopEnd := true;
        }
      }
      if loopEnd {
        Leave();
        breakIn := None;
      } else {
        pc := loops[depth].repeatFrom - 1;
      }
    }

    method Continue(guard: Option<Cond>)
      modifies this
      ensures State() == StepContinue(old(State()), guard)
    {
      if depth == 0 {
        Finish(NothingToContinue);
        return;
      }
      if guard.Some? {
        var res := guard.value(ident);
        if res == None {
          Finish(EvalFault);
          return;
        }
        if res == Some(false) {
          return;
        }
      }
      if !(0 <= depth - 1 < |lastConstruct|) {
        Finish(IndexPanic);
      } else if lastConstruct[depth - 1] == CCase {
        Finish(ContinueInCase);
      } else if !(0 <= depth < loops.Length) {
        Finish(IndexPanic);
      } else if lastConstruct[depth - 1] == CWhile {
        pc := loops[depth].whileContinueAt - 1;
      } else {
        pc := loops[depth].forEndPos - 1;
      }
    }

    method Break(guard: Option<Cond>)
      modifies this
      ensures State() == StepBreak(old(State()), guard)
    {
      if guard.Some? {
        var res := guard.value(ident);
        if res == None {
          Finish(EvalFault);
          return;
        }
        if res == Some(false) {
          return;
        }
      }
      if !(0 <= depth < loops.Length) || !(0 <= depth - 1 < |lastConstruct|) {
        Finish(IndexPanic);
        return;
      }
      var thisLoop := loops[depth];
      match lastConstruct[depth - 1]
      case CFor =>
        pc := thisLoop.forEndPos - 1;
        breakIn := Some(CFor);
      case CForeach =>
        pc := thisLoop.forEndPos - 1;
        breakIn := Some(CForeach);
      case CWhile =>
        pc := thisLoop.whileContinueAt - 1;
        breakIn := Some(CWhile);
      case CCase =>
        if 0 <= wccount < wc.Length {
          pc := wc[wccount].endLine - 1;
          breakIn := Some(CCase);
        } else {
          Finish(IndexPanic);
        }
    }

    method Case(value: ValueExpr)
      requires 0 <= pc < |prog|
      modifies this, wc
      ensures State() == StepCase(prog, old(State()), value)
    {
      hide Scan, Phrase.Kind;
      if wccount == CASE_CAP {
        Finish(CaseNesting);
        return;
      }
      var found, distance, _ := Lookahead(prog, pc, 0, ENDCASE_SEARCH);
      if !found {
        Finish(NoEnd);
        return;
      }
      match value(ident)
      case None => Finish(EvalFault);
      case Some(x) =>
        if 0 <= wccount + 1 < wc.Length {
          wccount := wccount + 1;
          wc[wccount] := Carton(pc + distance, x, false, true);
          depth := depth + 1;
          lastConstruct := lastConstruct + [CCase];
        } else {
          Finish(IndexPanic);
        }
    }

    /** The nearest clause at or after a line, by four lookaheads. */
    method FindClause(from: nat) returns (line: Option<nat>)
      requires from <= |prog|
      ensures line == NextClause(prog, from)
    {
      line := None;
      var kinds := [KContains, KHas, KIs, KOr];
      ghost var found1 := Nearer(None, Scan(prog, from, 0, ClauseSearch(KContains)));
      ghost var found2 := Nearer(found1, Scan(prog, from, 0, ClauseSearch(KHas)));
      ghost var found3 := Nearer(found2, Scan(prog, from, 0, ClauseSearch(KIs)));
      for k := 0 to 4
        invariant line == [None, found1, found2, found3, NextClause(prog, from)][k]
      {
        var found, distance, _ := Lookahead(prog, from, 0, ClauseSearch(kinds[k]));
        if found && (line == None || from + distance < line.value) {
          line := Some(from + distance);
        }
      }
    }

    method ClauseOf(guard: Guard)
      requires 0 <= pc < |prog|
      modifies this, wc
      ensures State() == StepClause(prog, old(State()), guard)
    {
      hide Scan, Phrase.Kind, NextClause, Matches;
      if |lastConstruct| == 0 || !(lastConstruct[|lastConstruct| - 1] == CCase) || !(0 <= wccount < wc.Length) {
        Finish(if |lastConstruct| == 0 || lastConstruct[|lastConstruct| - 1] == CCase then IndexPanic else WrongEnd);
        return;
      }
      var carton := wc[wccount];
      if carton.performed {
        pc := carton.endLine - 1;
        return;
      }
      var matched := Matches(guard, carton.value, ident);
      if matched == None {
        Finish(EvalFault);
        return;
      }
      if matched == Some(true) && !guard.Or? {
        wc[wccount] := carton.(performed := true, dodefault := false);
      } else if matched == Some(true) && carton.dodefault {
        // the default clause runs on
      } else {
        var from := if guard.Or? then carton.endLine else pc + 1;
        if !(0 <= from <= |prog|) {
          Finish(IndexPanic);
          return;
        }
        var line := FindClause(from);
        pc := if line == None then carton.endLine - 1 else line.value - 1;
      }
    }

    method Endcase()
      modifies this, wc
      ensures State() == StepEndcase(old(State()))
    {
      if |lastConstruct| == 0 {
        Finish(IndexPanic);
      } else if lastConstruct[|lastConstruct| - 1] != CCase {
        Finish(WrongEnd);
      } else if !(0 <= wccount < wc.Length) {
        Finish(IndexPanic);
      } else {
        breakIn := None;
        wc[wccount] := EmptyCarton();
        wccount := wccount - 1;
        Leave();
      }
    }

    method MarkMatched(b: bool)
      modifies this
      ensures State() == SetMatched(old(State()), b)
    {
      var m := PadTo(ifMatchedStack, ifDepth);
      if 0 <= ifDepth - 1 < |m| {
        ifMatchedStack := m[ifDepth - 1 := b];
      } else {
        Finish(IndexPanic);
      }
    }

    method If(cond: Cond)
      requires 0 <= pc < |prog| && status == Running && Trusted()
      modifies this, ahead
      ensures State() == StepIf(prog, old(State()), cond) && Trusted()
    {
      hide Scan, IfTest, LookAgain;
      ifDepth := ifDepth + 1;
      MarkMatched(false);
      if status == Running {
        Test(cond);
      }
    }

    /** The test of an IF, with the distances it looks up or remembers. */
    method Test(cond: Cond)
      requires 0 <= pc < |prog| && status == Running && Trusted()
      modifies this, ahead
      ensures State() == IfTest(prog, old(State()), cond) && Trusted()
    {
      hide Scan, SetMatched, LookAgain;
      var elsefound, elsedistance, endfound, enddistance := ahead.IfDistances(pc);
      ScanAhead(prog, pc);
      if !endfound {
        Finish(NoEnd);
        return;
      }
      match cond(ident)
      case None => Finish(EvalFault);
      case Some(res) =>
        if res {
          MarkMatched(true);
        } else if elsefound && elsedistance < enddistance {
          pc := if prog[pc + elsedistance].PElseIf? then pc + elsedistance - 1 else pc + elsedistance;
        } else {
          pc := pc + enddistance;
        }
    }

    method ElseIf(cond: Cond)
      requires 0 <= pc < |prog|
      modifies this
      ensures State() == StepElseIf(prog, old(State()), cond)
    {
      hide Scan, SetMatched, NextBranch;
      if ifDepth <= 0 {
        Finish(IndexPanic);
        return;
      }
      if ifDepth <= |ifMatchedStack| && ifMatchedStack[ifDepth - 1] {
        var _, endDist, _ := Lookahead(prog, pc + 1, 1, ENDIF_SEARCH);
        pc := pc + endDist;
        return;
      }
      match cond(ident)
      case None => Finish(EvalFault);
      case Some(res) =>
        if res {
          MarkMatched(true);
          return;
        }
        JumpToNext();
    }

    method JumpToNext()
      requires 0 <= pc < |prog|
      modifies this
      ensures State() == NextBranch(prog, old(State()))
    {
      hide Scan;
      var elseFound, elseDist, _ := Lookahead(prog, pc + 1, 1, ELSE_SEARCH);
      var endFound, endDist, _ := Lookahead(prog, pc + 1, 1, ENDIF_SEARCH);
      if elseFound && (!endFound || elseDist < endDist) {
        pc := if prog[pc + 1 + elseDist].PElseIf? then pc + elseDist else pc + elseDist + 1;
      } else if endFound {
        pc := pc + endDist + 1;
      } else {
        Finish(NoEnd);
      }
    }

    method Else()
      requires 0 <= pc < |prog|
      modifies this
      ensures State() == StepElse(prog, old(State()))
    {
      hide Scan;
      if ifDepth <= 0 {
        Finish(IndexPanic);
        return;
      }
      var endfound, enddistance, _ := Lookahead(prog, pc, 1, ENDIF_SEARCH);
      if !endfound {
        Finish(NoEnd);
      } else if ifDepth <= |ifMatchedStack| && ifMatchedStack[ifDepth - 1] {
        pc := pc + enddistance - 1;
      } else {
        pc := pc + enddistance;
      }
    }

    method Endif()
      modifies this
      ensures State() == StepEndif(old(State()))
    {
      if ifDepth <= 0 {
        Finish(WrongEnd);
        return;
      }
      ifDepth := ifDepth - 1;
      if |ifMatchedStack| > ifDepth {
        ifMatchedStack := ifMatchedStack[..ifDepth];
      }
    }

    method Act(run: Action)
      modifies this
      ensures State() ==
        match run(old(ident)) { case None => Fail(old(State()), EvalFault) case Some(s) => old(State()).(store := s) }
    {
      match run(ident)
      case None => Finish(EvalFault);
      case Some(s) => ident := s;
    }

    method Return(ret: Ret)
      modifies this
      ensures State() == StepReturn(old(State()), ret)
      ensures match ret
        case Values(list) => list(old(ident)).Some? ==> status == Exited(Answer(list(old(ident)).value))
        case CallSelf(args) => args(old(ident)).Some? ==> status == Exited(Again(args(old(ident)).value))
        case ValuesIf(cond, list) =>
          && (cond(old(ident)) == Some(false) ==> status == old(status))
          && (cond(old(ident)) == Some(true) && list(old(ident)).Some? ==>
                status == Exited(Answer(list(old(ident)).value)))
    {
      match ExitOf(ret, ident)
      case None => Finish(EvalFault);
      case Some(None) =>
      case Some(Some(exit)) => status := Exited(exit);
    }

    /** The switch on the statement's first token. */
    method Statement()
      requires 0 <= pc < |prog| && status == Running && Trusted()
      modifies this, loops, wc, ahead
      ensures State() == Dispatch(prog, old(State())) && Trusted()
    {
      hide StepIf, StepElse, StepElseIf, StepEndif, StepWhile, StepEndwhile, StepFor, StepForeach, StepEndfor,
        StepCase, StepClause, StepEndcase, StepBreak, StepContinue, StepReturn, Scan, LookAgain;
      match prog[pc]
      case PAct(run, _) => Act(run);
      case PIf(cond, _) => If(cond);
      case PElse(_) => Else();
      case PElseIf(cond, _) => ElseIf(cond);
      case PEndif(_) => Endif();
      case PWhile(cond, _) => While(cond);
      case PEndwhile(_) => Endwhile();
      case PFor(v, a, b, s, _) => For(v, a, b, s);
      case PForeach(v, list, _) => Foreach(v, list);
      case PEndfor(_) => Endfor();
      case PCase(e, _) => Case(e);
      case PClause(g, _) => ClauseOf(g);
      case PEndcase(_) => Endcase();
      case PBreak(g, _) => Break(g);
      case PContinue(g, _) => Continue(g);
      case PReturn(ret, _) => Return(ret);
    }

    /** One turn of the loop. */
    method Turn()
      requires status == Running && Trusted()
      modifies this, loops, wc, ahead
      ensures State() == Step(prog, old(State())) && Trusted()
    {
      hide LookAgain, Scan;
      pc := pc + 1;
      if pc >= |prog| {
        status := Done;
      } else if pc < 0 {
        Finish(IndexPanic);
      } else if !Skipped(breakIn, prog[pc].Kind()) {
        Statement();
      }
    }

    /** The loop itself, cut off after a number of turns. */
    method Execute(turns: nat)
      requires Trusted()
      modifies this, loops, wc, ahead
      ensures State() == Run(prog, old(State()), turns) && Trusted()
    {
      hide LookAgain, Scan;
      var t := 0;
      while t < turns && status == Running
        invariant 0 <= t <= turns && Trusted()
        invariant Run(prog, State(), turns - t) == Run(prog, old(State()), turns)
      {
        Turn();
        t := t + 1;
      }
      if t < turns {
        RunHalted(prog, State(), turns - t);
      }
    }
  }

  /** The distances kept say where the ELSE and the ENDIF are, if they are there. */
  lemma ScanAhead(prog: seq<Phrase>, p: nat)
    requires p < |prog|
    ensures var els := Scan(prog, p, 0, ELSE_SEARCH);
      && (els.At? <==> LookAgain(prog, p).hasElse)
      && (els.At? ==> p <= els.line < |prog| && els.line == p + LookAgain(prog, p).elseDistance)
    ensures var end := Scan(prog, p, 0, ENDIF_SEARCH);
      end.At? ==> p <= end.line < |prog| && end.line == p + LookAgain(prog, p).endDistance
  {
  }

  /**
    Running a fresh call over a flattened program: if the structured program ends normally
    within the fuel, enough turns leave its variables in ident; if it fails, the same fault is
    reported; and if it returns, it leaves with the same exit.
   */
  method CallProgram(s: Stmt, ident: Store, ghost fuel: nat, turns: nat) returns (c: Call)
    ensures fresh(c) && Good(Flatten(s), c.State())
    ensures c.status != Running && !Meaning(fuel, s, ident).OutOfFuel? ==>
      match Meaning(fuel, s, ident)
      case Normal(st) => c.status == Done && c.ident == st.store
      case Failure(e) => c.status == Failed(e)
      case Returned(x, _, _) => c.status == Exited(x)
      case _ => false
  {
    var ahead := new Lookaheads(Flatten(s));
    c := new Call(Flatten(s), ident, ahead);
    c.Execute(turns);
    EveryReachableStateIsGood(s, ident, turns);
    ghost var n := RunFollowsMeaning(s, ident, fuel);
    if c.status != Running && !Meaning(fuel, s, ident).OutOfFuel? {
      OneEnd(Flatten(s), Initial(ident), turns, n);
    }
  }
}

/**
  Where the interpreter departs from the textbook meaning, and exactly when.
 */
module Untidy {
  import opened Phrases
  import opened Machine
  import opened Structured
  import opened Relation
  import opened WholeRuns
  import opened Textbook
  import opened Framing
  import opened Refinement
  import opened Unwritten

  // ---------------------------------------------------------------- ELSE IF

  function Always(b: bool): Cond { (s: Store) => Some(b) }

  function SetTo(x: string, v: Value): Action { (s: Store) => Some(s[x := v]) }

  /** IF true / IF false / ENDIF / ELSE IF true / x = 1 / ENDIF */
  function TwoBranches(): Stmt {
    If(Always(true), [], If(Always(false), [], Skip, EndIf),
       ElseIf(Always(true), [], Act(SetTo("x", IntV(1)), []), EndIf))
  }

  /** Both branches of this chain run: the inner IF leaves its own flag on the stack. */
  lemma ChainRunsTwoBranches(store: Store)
    ensures Eval(0, TwoBranches(), store) == Ok(store)
    ensures var r := Meaning(0, TwoBranches(), store); r.Normal? && r.s.store == store["x" := IntV(1)]
  {
    hide Eval, Exec;
    ChainShouldRunFirstOnly(store);
    ChainRunsSecond(store);
  }

  lemma ChainShouldRunFirstOnly(store: Store)
    ensures Eval(0, TwoBranches(), store) == Ok(store)
  {
  }

  lemma ChainRunsSecond(store: Store)
    ensures var r := Meaning(0, TwoBranches(), store); r.Normal? && r.s.store == store["x" := IntV(1)]
  {
    hide Eval, EvalTail;
    var inner := If(Always(false), [], Skip, EndIf);
    var tail := ElseIf(Always(true), [], Act(SetTo("x", IntV(1)), []), EndIf);
    var st2 := State(store, [true, false]);
    InnerLeavesFlag(store);
    TailRuns(store);
    assert Push(State(store, []), true) == State(store, [true]);
    assert Exec(0, [], TwoBranches(), State(store, [])) == ReachTail(0, [], tail, st2);
  }

  lemma InnerLeavesFlag(store: Store)
    ensures Exec(0, [], If(Always(false), [], Skip, EndIf), State(store, [true])) == Normal(State(store, [true, false]))
  {
  }

  lemma TailRuns(store: Store)
    ensures ReachTail(0, [], ElseIf(Always(true), [], Act(SetTo("x", IntV(1)), []), EndIf), State(store, [true, false]))
         == Normal(State(store["x" := IntV(1)], [true]))
  {
    var st := State(store, [true, true]);
    assert [true, false][1 := true] == [true, true];
    assert Exec(0, [], Act(SetTo("x", IntV(1)), []), st) == Normal(State(store["x" := IntV(1)], [true, true]));
    assert [true, true][..1] == [true];
    assert Leave(State(store["x" := IntV(1)], [true, true])) == Normal(State(store["x" := IntV(1)], [true]));
  }

  /** Nothing more of the chain runs, whatever follows the branch that has just ended in st. */
  ghost predicate ChainCloses(fuel: nat, last: seq<Construct>, st: State) {
    forall t: Tail :: ReachTail(fuel, last, t, st).Normal? && ReachTail(fuel, last, t, st).s.store == st.store
  }

  /**
    Exactly when an IF chain runs only its first true branch: when the flag on top of the stack
    is set as that branch ends, which is the guard of the ELSE IF statement itself.
   */
  lemma ChainClosesIffMatched(fuel: nat, last: seq<Construct>, st: State)
    requires |st.ifm| > 0
    ensures ChainCloses(fuel, last, st) <==> TopMatched(st)
  {
    if !TopMatched(st) {
      var t := ElseIf(Always(true), [], Act((s: Store) => None, []), EndIf);
      assert ReachTail(fuel, last, t, st) == Failure(EvalFault);
    }
  }

  // ---------------------------------------------------------------- FOR left unwritten

  /** That the interpreter left the variable of the FOR statement unwritten shows afterwards. */
  predicate ForShows(fuel: nat, s: Stmt, store: Store)
    requires s.For?
  {
    match (s.start(store), s.end(store), s.step(store))
    case (Some(a), Some(b), Some(d)) => d != 0 && Shows(fuel, s.v, a, d, 0, Trips(a, b, d), s.body, IntV(a), store)
    case _ => false
  }

  /**
    A whole FOR whose body never mentions its variable, BREAKs and key writes and all: the
    interpreter and the textbook agree on it if and only if the unwritten variable does not show.
   */
  lemma ForAgreesIffHidden(fuel: nat, last: seq<Construct>, s: Stmt, st: State)
    requires s.For? && Tidy(s.body) && HonestLoops(s) && Fits(s, last) && !Mentions(Flatten(s.body), s.v)
    ensures Agrees(Exec(fuel, last, s, st), Eval(fuel, s, st.store)) <==> !ForShows(fuel, s, st.store)
  {
    hide ForLoop, EvalFor, Shows, Mentions, Flatten, Trips, Honest, Tidy;
    var v, body := s.v, s.body;
    match (s.start(st.store), s.end(st.store), s.step(st.store))
    case (Some(a), Some(b), Some(d)) =>
      if d != 0 {
        var loop := EmptyLoop().(loopType := LT_FOR, loopVar := v, counter := a, condEnd := b, step := d);
        var st1 := st.(store := st.store[v := IntV(a)]);
        var n := Trips(a, b, d);
        TripsCount(a, b, d, 0);
        if Beyond(a, b, d) {
          ForNone(fuel, s, a, d, st.store);
          NonePass(fuel, v, a, d, body, st.store);
        } else {
          assert AtPass(loop, a, 0, n);
          UnmentionedIsBlind(body, v);
          AgreeSet(st.store, v, IntV(a));
          RefForUnused(fuel, last + [CFor], loop, a, 0, n, body, st1, st.store);
        }
      }
    case _ =>
  }

  lemma NonePass(fuel: nat, v: string, start: int, step: int, body: Stmt, store: Store)
    ensures !Shows(fuel, v, start, step, 0, 0, body, IntV(start), store)
  {
    hide Eval, KeyWritten;
  }

  /** FOR key_a = 5 TO 5 / FOREACH a IN [10] / ENDFOR / ENDFOR: the FOREACH writes key_a. */
  function KeyIsTheVariable(): Stmt {
    For("key_a", (s: Store) => Some(5), (s: Store) => Some(5), (s: Store) => Some(1), [],
        Foreach("a", (s: Store) => Some([IntV(10)]), [], Skip))
  }

  lemma NotWithin(hay: string, needle: string)
    requires needle != "" && needle[0] !in hay
    ensures !TextContains(hay, needle)
  {
    forall i | 0 <= i <= |hay|
      ensures !(needle <= hay[i..])
    {
      assert i < |hay| ==> hay[i..][0] in hay;
    }
  }

  lemma OnlyLoopWords(body: Stmt)
    requires body.Foreach? && body.words == [] && body.body.Skip?
    ensures !Mentions(Flatten(body), "key_a")
  {
    NotWithin("endfor", "key_a");
    NotWithin("endfor", "{{");
  }

  /** There is no BREAK here, and the words are honest; still the interpreter leaves the key, 0, in the variable. */
  lemma KeyLeftInVariable()
    ensures Meaning(0, KeyIsTheVariable(), map[]) == Normal(State(map["key_a" := IntV(0), "a" := IntV(10)], []))
  {
    hide Eval;
    var body := KeyIsTheVariable().body;
    var s1: Store := map["key_a" := IntV(5)];
    var s2: Store := map["key_a" := IntV(0), "a" := IntV(10)];
    assert KeyVar("a") == "key_a";
    assert s1["key_a" := IntV(0)]["a" := IntV(10)] == s2;
    assert !Mentions(Flatten(body), "key_a") by { OnlyLoopWords(body); }
    assert Exec(0, [CFor], body, State(s1, [])) == Normal(State(s2, []));
  }

  /** The textbook leaves 5, the last value of the FOR. */
  lemma KeyShouldNotBeLeft()
    ensures Eval(0, KeyIsTheVariable(), map[]) == Ok(map["key_a" := IntV(5), "a" := IntV(10)])
  {
    hide Exec;
    var body := KeyIsTheVariable().body;
    var s1: Store := map["key_a" := IntV(5)];
    var s2: Store := map["key_a" := IntV(0), "a" := IntV(10)];
    assert KeyVar("a") == "key_a";
    assert s1["key_a" := IntV(0)]["a" := IntV(10)] == s2;
    assert EvalForeach(0, "a", [IntV(10)], 1, Skip, s2) == Ok(s2);
    assert Eval(0, Skip, s2) == Ok(s2);
    assert EvalForeach(0, "a", [IntV(10)], 0, Skip, s1) == Ok(s2);
    assert Eval(0, body, s1) == Ok(s2);
    assert s2["key_a" := IntV(5)] == map["key_a" := IntV(5), "a" := IntV(10)];
  }

  /** FOR i = 1 TO 3 / note each pass / BREAK IF on the second / ENDFOR */
  function BreakSecond(): Stmt {
    var note: Action := (s: Store) => Some(if "a" in s then s["b" := IntV(0)] else s["a" := IntV(0)]);
    var second: Cond := (s: Store) => Some("b" in s);
    For("i", (s: Store) => Some(1), (s: Store) => Some(3), (s: Store) => Some(1), [],
        Seq(Act(note, []), Break(Some(second), [])))
  }

  /** The machine leaves the loop on its second pass with i still 1. */
  lemma BreakSecondLeavesOne()
    ensures Meaning(0, BreakSecond(), map[]) == Normal(State(map["i" := IntV(1), "a" := IntV(0), "b" := IntV(0)], []))
  {
    var body := BreakSecond().body;
    var s1: Store := map["i" := IntV(1)];
    var s2: Store := map["i" := IntV(1), "a" := IntV(0)];
    var s3: Store := map["i" := IntV(1), "a" := IntV(0), "b" := IntV(0)];
    assert !Mentions(Flatten(body), "i");
    assert Exec(0, [CFor], body, State(s1, [])) == Normal(State(s2, []));
    assert Exec(0, [CFor], body, State(s2, [])) == Broken(State(s3, []));
  }

  /** The textbook leaves i at 2. */
  lemma BreakSecondShouldLeaveTwo()
    ensures Eval(0, BreakSecond(), map[]) == Ok(map["i" := IntV(2), "a" := IntV(0), "b" := IntV(0)])
  {
    var body := BreakSecond().body;
    var s1: Store := map["i" := IntV(1)];
    var s2: Store := map["i" := IntV(1), "a" := IntV(0)];
    var s2': Store := map["i" := IntV(2), "a" := IntV(0)];
    var s3: Store := map["i" := IntV(2), "a" := IntV(0), "b" := IntV(0)];
    assert Eval(0, body, s1) == Ok(s2);
    assert s2["i" := IntV(2)] == s2';
    assert Eval(0, body, s2') == Brk(s3);
  }

  // ---------------------------------------------------------------- CASE

  /** CASE 1 / OR / IS 1 / x = 1 / ENDCASE: the default clause does not stop the search. */
  function OrFirst(): Stmt {
    Case((s: Store) => Some(IntV(1)), [],
         Clause(Or, [], Skip, Clause(Is((s: Store) => Some(IntV(1))), [], Act(SetTo("x", IntV(1)), []), EndCase)))
  }

  lemma OrRunsOnIntoLaterClause(store: Store)
    ensures Eval(0, OrFirst(), store) == Ok(store)
    ensures Meaning(0, OrFirst(), store) == Normal(State(store["x" := IntV(1)], []))
  {
    var last := [CCase];
    assert [] + [CCase] == last;
    var cls := OrFirst().clauses;
    assert Exec(0, last, cls.rest.body, State(store, [])) == Normal(State(store["x" := IntV(1)], []));
    assert ExecClauses(0, last, IntV(1), false, cls.rest, State(store, [])) == Normal(State(store["x" := IntV(1)], []));
    assert ExecClauses(0, last, IntV(1), false, cls, State(store, [])) == Normal(State(store["x" := IntV(1)], []));
  }

  // ---------------------------------------------------------------- CASE nesting

  /**
    The reported limit on CASE nesting is never reached: the table is indexed one past its end
    first, when the eighth CASE is opened.
   */
  lemma CaseLimitIsNeverReported(prog: seq<Phrase>, c: Config, value: ValueExpr)
    requires Good(prog, c) && c.status == Running && 0 <= c.pc
    ensures StepCase(prog, c, value).status != Failed(CaseNesting)
    ensures c.wccount == CASE_CAP - 1 && value(c.store).Some? && Scan(prog, c.pc, 0, ENDCASE_SEARCH).At? ==>
      StepCase(prog, c, value).status == Failed(IndexPanic)
  {
    hide Scan, CountCases, OpenAll;
  }
}

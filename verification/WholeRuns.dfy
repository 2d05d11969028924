/**
  Whole runs of the statement loop over a flattened program: they end exactly as the structured
  program does, diverge exactly when it does, and stay well formed throughout.
 */
module WholeRuns {
  import opened Phrases
  import opened Machine
  import opened Structured
  import opened Layout
  import opened Relation
  import opened Simulation

  /** The exact meaning of a whole program, started with the given variables. */
  function Meaning(fuel: nat, s: Stmt, store: Store): Result {
    Exec(fuel, [], s, State(store, []))
  }

  lemma Start(s: Stmt, store: Store)
    ensures StmtAt(Flatten(s), 0, s) && |Flatten(s)| == Len(s)
    ensures Ready(Initial(store), [], State(store, []), 0, None)
    ensures Good(Flatten(s), Initial(store))
  {
    FlattenLaidOut(Flatten(s), 0, s);
    assert CodeAt(Flatten(s), 0, Flatten(s));
    hide Flatten, StmtAt, Len;
  }

  lemma {:induction false} StillRunning(prog: seq<Phrase>, c: Config, k: nat, n: nat)
    requires k <= n && Run(prog, c, n).status == Running
    ensures Run(prog, c, k).status == Running
  {
    hide Step;
    RunAdd(prog, c, k, n - k);
    if Run(prog, c, k).status != Running {
      RunHalted(prog, Run(prog, c, k), n - k);
    }
  }

  /** The turn after the last phrase ends the call. */
  lemma EndTurn(prog: seq<Phrase>, c: Config, last: seq<Construct>, st: State)
    requires Ready(c, last, st, |prog|, None)
    ensures Step(prog, c) == c.(pc := |prog|, status := Done)
  {
    hide Dispatch;
  }

  /** One fuel bound: what the run does. */
  lemma RunFollowsMeaning(s: Stmt, store: Store, fuel: nat) returns (n: nat)
    ensures var final, r := Run(Flatten(s), Initial(store), n), Meaning(fuel, s, store);
      match r
      case Normal(st) => final.status == Done && final.store == st.store && final.lastConstruct == []
      case Failure(e) => final.status == Failed(e)
      case OutOfFuel => final.status == Running && n >= fuel
      case Returned(x, st, at) => final.status == Exited(x) && final.store == st.store && final.lastConstruct == at
      case _ => false
    ensures forall k :: 0 <= k <= n ==> Good(Flatten(s), Run(Flatten(s), Initial(store), k))
  {
    hide Sound, StmtAt, Flatten, Len, Step, CountCases, LoopsKept, CartonsKept;
    var prog, c := Flatten(s), Initial(store);
    Start(s, store);
    var r := Exec(fuel, [], s, State(store, []));
    var m, c1 := SimStmt(prog, fuel, 0, s, [], State(store, []), c);
    PathRun(prog, c, m, c1);
    n := m;
    if r.Normal? {
      EndTurn(prog, c1, [], r.s);
      n := m + 1;
      RunAdd(prog, c, m, 1);
      assert Run(prog, c1, 1) == Run(prog, Step(prog, c1), 0);
    }
  }

  /**
    Every state the loop can reach over a flattened program is well formed: stack and depth
    agree, wccount counts the open CASEs, every open construct's record is of its kind and ends
    at its own closer, and pc stays inside the program (so an int16 never wraps).
   */
  lemma EveryReachableStateIsGood(s: Stmt, store: Store, k: nat)
    ensures var prog := Flatten(s);
      var c := Run(prog, Initial(store), k);
      && Good(prog, c)
      && (c.status == Running ==> -1 <= c.pc < |prog| && |c.loops| == 16 && |c.wc| == 8 && c.wccount < 8)
  {
    hide Flatten, Step, CountCases, OpenAll;
    var prog, c := Flatten(s), Initial(store);
    var n := RunFollowsMeaning(s, store, k);
    if k > n {
      RunAdd(prog, c, n, k - n);
      RunHalted(prog, Run(prog, c, n), k - n);
    }
  }

  ghost predicate EndsWith(prog: seq<Phrase>, store: Store, n: nat, status: Status, store': Store) {
    var c := Run(prog, Initial(store), n);
    c.status == status && c.store == store'
  }

  /** Two halted states of one run are the same state. */
  lemma OneEnd(prog: seq<Phrase>, c: Config, a: nat, b: nat)
    requires Run(prog, c, a).status != Running && Run(prog, c, b).status != Running
    ensures Run(prog, c, a) == Run(prog, c, b)
  {
    hide Step;
    if a <= b {
      RunAdd(prog, c, a, b - a);
      RunHalted(prog, Run(prog, c, a), b - a);
    } else {
      RunAdd(prog, c, b, a - b);
      RunHalted(prog, Run(prog, c, b), a - b);
    }
  }

  /**
    Simulation, both ways: the flat program finishes with variables store' exactly when the
    structured program does, and it stops with an error exactly when the structured program
    does. So it runs for ever exactly when the structured program does.
   */
  lemma FlatRunIffMeaning(s: Stmt, store: Store, store': Store)
    ensures (exists n: nat :: EndsWith(Flatten(s), store, n, Done, store'))
       <==> (exists fuel: nat :: Meaning(fuel, s, store).Normal? && Meaning(fuel, s, store).s.store == store')
  {
    hide Flatten, Step, Meaning, Run, Good;
    var prog := Flatten(s);
    if n: nat :| EndsWith(prog, store, n, Done, store') {
      var m := RunFollowsMeaning(s, store, n + 1);
      var r := Meaning(n + 1, s, store);
      if r.OutOfFuel? {
        StillRunning(prog, Initial(store), n, m);
      } else {
        OneEnd(prog, Initial(store), n, m);
      }
      assert r.Normal? && r.s.store == store';
    }
    if fuel: nat :| Meaning(fuel, s, store).Normal? && Meaning(fuel, s, store).s.store == store' {
      var m := RunFollowsMeaning(s, store, fuel);
      assert EndsWith(prog, store, m, Done, store');
    }
  }

  ghost predicate HaltsWith(prog: seq<Phrase>, store: Store, n: nat, status: Status) {
    Run(prog, Initial(store), n).status == status
  }

  lemma FlatRunFailsIffMeaning(s: Stmt, store: Store, e: Error)
    ensures (exists n: nat :: HaltsWith(Flatten(s), store, n, Failed(e)))
       <==> (exists fuel: nat :: Meaning(fuel, s, store) == Failure(e))
  {
    hide Flatten, Step, Meaning, Run, Good;
    var prog := Flatten(s);
    if n: nat :| HaltsWith(prog, store, n, Failed(e)) {
      var m := RunFollowsMeaning(s, store, n + 1);
      var r := Meaning(n + 1, s, store);
      if r.OutOfFuel? {
        StillRunning(prog, Initial(store), n, m);
      } else {
        OneEnd(prog, Initial(store), n, m);
      }
      assert r == Failure(e);
    }
    if fuel: nat :| Meaning(fuel, s, store) == Failure(e) {
      var m := RunFollowsMeaning(s, store, fuel);
      assert HaltsWith(prog, store, m, Failed(e));
    }
  }

  /** And it returns with a given exit exactly when the structured program does. */
  lemma FlatRunReturnsIffMeaning(s: Stmt, store: Store, x: Exit)
    ensures (exists n: nat :: HaltsWith(Flatten(s), store, n, Exited(x)))
       <==> (exists fuel: nat :: Meaning(fuel, s, store).Returned? && Meaning(fuel, s, store).exit == x)
  {
    hide Flatten, Step, Meaning, Run, Good;
    var prog := Flatten(s);
    if n: nat :| HaltsWith(prog, store, n, Exited(x)) {
      var m := RunFollowsMeaning(s, store, n + 1);
      var r := Meaning(n + 1, s, store);
      if r.OutOfFuel? {
        StillRunning(prog, Initial(store), n, m);
      } else {
        OneEnd(prog, Initial(store), n, m);
      }
      assert r.Returned? && r.exit == x;
    }
    if fuel: nat :| Meaning(fuel, s, store).Returned? && Meaning(fuel, s, store).exit == x {
      var m := RunFollowsMeaning(s, store, fuel);
      assert HaltsWith(prog, store, m, Exited(x));
    }
  }
}

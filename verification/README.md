# Za, modelled and verified

Za is an interpreter. It keeps a function body as a flat list of phrases and runs it with a program
counter; it evaluates expressions with a Pratt parser; calls live in slots handed out by an
allocator; assignments reach into nested data; and a bundler collects the modules a script needs.
This project models those parts and proves what they promise, and where the code does not keep a
promise it proves exactly when it does and shows an input for which it does not.

`dafny verify dfyconfig.toml` checks everything.

## How the parts fit

**The statement loop.** `Phrases` holds phrases and the two scans over them, `Machine` one turn of
the loop as a function of the state, and `Interpreter` the same as a class with the loop's own
variables, method by method proved equal to `Machine`. `Structured` gives programs as trees,
`Flatten`s them, and says exactly what the interpreter makes of them, its IF stack included.
`Layout`, `Relation`, `Turns` and `Simulation` prove that running the flat list is that meaning, and
`WholeRuns` states it for whole programs, finite or endless. `TailCalls` compares a function that
starts over in its own call with one that is called again, `Definite` says of which bodies that can
be told from the text, and `Reentry` and `LostAnswers` what is lost when a call starts over from
inside a loop or CASE. `Branches` says which branch of an IF chain or clause of a
CASE runs, and when it is the only one. `Textbook` is the meaning a reader of
the language expects: variables and what is returned. `IfStack`, `Framing`, `Unwritten` and
`Refinement` prove that the flat run has the textbook meaning on tidy programs; `Untidy` shows where
it does not, and exactly when. `ReturnsAndCases` says of the flat run, without any of the functions the
other parts share, what a RETURN leaves with and which clause of a CASE runs.

Expressions are total functions of the variables that may fault. A phrase also carries its words,
because the loop decides by text search whether a FOR body can see its own counter.

**Expressions.** `Pratt` has the climbing parser and the skip scan as functions, `PrattParser` as a
class moving a cursor. `PrattTrees` says which operator trees the parser reads and when the scan
stops where the parser stops, and that passing over an operand is never seen in the value. `PrattGrammar` gives the parser's grammar (exactly which tokens are
read as which tree) and `PrattTables` says for which precedence tables printing with the fewest
parentheses and parsing are inverse, and what follows for the table Za ships.

**Call slots.** `CallSpace` has the allocator's moves as relations on values, `CallSafety` their
runs in any order, `SlotReuse` how long a marked slot rests in them, `Allocator` the maps, the table and the cursor as classes. A call keeps the name
and the slot it looked up as it started, and ends by giving those up.

**Data.** Maps and arrays are references: `SharedData` is assignment to a path over a heap, where a map
on the way is changed in place, an array indexed is copied and a struct is copied before it is
entered; `Assigner` has its loops and the variable updated in place. `NestedData` is the same
assignment on trees, with its laws in `NestedLaws`, `NestedOrder` and `TypedWrites`; `SharedTrees` and
`SharedMeaning` prove that where nothing is shared the two are one, so that the laws carry over.
`SharedApart` and `SharedLaws` say what a write does where things are shared, `FirstWrites` what the
first write to a variable leaves. `GrowingArray` is an []int variable written at any index, `ArrayOps` arithmetic on nested arrays, `CommaSplit` the splitting of argument lists.

**Modules.** `Bundler` is the recursive search for MODULE dependencies.

## What the code does that a reader may not expect

Each of these is a lemma below.

- An IF inside a branch that ends without an ELSE leaves its own flag on the IF stack, so an ELSE IF
  of the outer chain may run although an earlier branch did. It runs no second branch exactly when
  the flag on top of the stack is set as the first branch ends.
- A FOR whose body never mentions its variable does not write it on each pass, nor after a single
  pass. That can be seen exactly when a BREAK ends a pass that has not written the variable while it
  holds another value than that of the pass, or when the only pass leaves another value in it, which
  a FOREACH does whose key variable it is. So with no such FOREACH it is seen exactly when a BREAK ends
  a pass other than the first, and with no BREAK exactly when a single pass changes the variable.
- A CASE stops at its first matching clause exactly when that clause is not OR; after OR it goes on to
  the clauses written below.
- The limit on CASE nesting is never reported: the eighth CASE runs off the end of the table.
- A function that returns a call to itself from inside a loop or CASE starts over with that construct
  still on the stack, and a BREAK in the next pass takes it for its own: the call can end without the
  answer recursion gives, or fail. Every body keeps its meaning exactly when the stack is empty.
- Two binary operators one level apart lose a grouping to the left: `a | b & c` is `(a | b) & c`.
- A path operator in the right operand of `&&` takes more tokens when it is evaluated than when it
  is skipped, so how `x && $pb a || b` groups depends on the value of `x`.
- The results of a call that has ended stay in its slot only until the slot is handed out, which can
  be before the caller has read them: exactly when no entry is due for reuse and the slot is the first
  free one from the cursor on.
- A name that is defined twice leaves its first slot named in one lookup only; a plain name keeps the
  lookups inverse exactly when no slot holds it yet.
- A call believes itself in its own slot exactly when its name has been neither given out again nor
  dropped between its allocation and its start. Under a plain name it can take another call's slot for
  its own, and free it while that call runs.
- Where nothing is shared, writes to disjoint paths depend on their order exactly where an array has to
  be made and the two values call for different types of it.
- A map stored in two places is one map: `a["x"]["k"] = 1` changes `a["y"]["k"]`. A number or text
  written through maps is seen at exactly the paths, of any variable, that meet the same entry of the
  same map, and two such writes commute exactly when their entries differ or their values are the same.
- A write whose path goes through the very entry it ends in is lost: with `m["s"]` being `m`,
  `m["s"]["s"] = n` changes nothing.
- A write that fails can have changed a map: `v[0]["k"] = 1` fails on a []any that also holds a nil, with
  the map already changed.
- A slot whose results have been taken is passed over by the next 99 looks for reusable entries that
  come to it, and the hundredth takes it; it can be handed out before only as the first free one from
  the cursor on.
- Nil written through maps takes the entry away, and cannot be written over a number, a text or a struct.
- A copy of a struct shares the maps its interface fields hold, and has maps of its own in fields of map
  type.
- An index can never grow a []any, nor write to one that holds a nil, so a variable first written
  through an index and a further path is an error.
- A scalar added to a slice of texts is appended, not prepended.
- A token list with unbalanced parentheses loses its last argument.

## Model

| member | source | states |
|---|---|---|
| Phrases.ScanFindsFirst | actor.go:853-886 | the look-ahead answers with the first line whose running depth is below the target, or is at it with the sought token; over-dedent is reported exactly when the depth drops first |
| Phrases.Lookahead | actor.go:853-886 | the loop returns found, distance and over-dedent as the scan says, for every list and start |
| Phrases.InSlice | actor.go:803-810 | membership in a list of token types |
| Phrases.SearchToken | actor.go:818-846 | answers yes exactly when some word of the stretch has the name in it or has an interpolation in it |
| Phrases.MentionsMeans | actor.go:818-846 | the search finds a name in code exactly when it is not empty and some word of the code is it, has it as a stretch of its text, or has two opening braces there |
| Phrases.MentionsConcat | actor.go:818-846 | a name is mentioned in two stretches of code joined exactly when it is in one of them |
| Interpreter.Lookaheads.IfDistances | actor.go:7779-7797 | an IF looks ahead the first time only, and what it keeps is what looking again would find; after the first time its ENDIF is taken to be there |
| Interpreter.Call.constructor | actor.go:1769-1782 | a call starts with empty stacks, no open loop and pc before the first phrase |
| Interpreter.Call.While | actor.go:2775-2819 | WHILE opens its loop or jumps past its own ENDWHILE, whole new state |
| Interpreter.Call.Endwhile | actor.go:2821-2865 | ENDWHILE ends a BREAK, loops back on true, pops on false, whole new state |
| Interpreter.Call.For | actor.go:3681-3817 | FOR opens its loop record, sets the variable to the start, and goes straight to ENDFOR when start is beyond end; STEP 0 is an error |
| Interpreter.Call.Foreach | actor.go:2899-3600 | FOREACH over a list opens its loop record with the first item and key, or skips an empty list |
| Interpreter.Call.NextCount | actor.go:4001-4064 | the counter moves by the step, stops at the last value in range, and is written back as the use of the variable decides |
| Interpreter.Call.NextItem | actor.go:3842-4000 | the next item and key, or the end of the list |
| Interpreter.Call.Endfor | actor.go:3821-4096 | ENDFOR ends a BREAK, jumps back or pops, whole new state |
| Interpreter.Call.Continue | actor.go:4098-4161 | CONTINUE jumps to before the closer of the innermost loop, and is an error in a CASE |
| Interpreter.Call.Break | actor.go:4163-4338 | BREAK aims at the closer of the innermost construct and sets the kind being broken out of |
| Interpreter.Call.Return | actor.go:5546-5730 | RETURN ends the pass with exactly the values its list has, RETURN IF only when its condition is true, and a call of the function to itself with its arguments; it fails exactly when one of these cannot be evaluated |
| Interpreter.Call.Case | actor.go:6493-6564 | CASE evaluates its value and opens its record; no room is a panic |
| Interpreter.Call.ClauseOf | actor.go:6566-6751 | a clause runs its body, or moves to the next clause at its own level, or to ENDCASE once one has run |
| Interpreter.Call.FindClause | actor.go:6711-6746 | the nearest of the four searches for a next clause is the next clause of this CASE |
| Interpreter.Call.Endcase | actor.go:6753-6813 | ENDCASE closes the innermost CASE, whole new state |
| Interpreter.Call.If | actor.go:7767-7777 | IF opens a level of the IF stack with its flag clear, then tests |
| Interpreter.Call.Test | actor.go:7779-7835 | into the branch on true; on false to the next ELSE, ELSE IF or past ENDIF; with distances looked up or kept alike |
| Interpreter.Call.ElseIf | actor.go:7837-7901 | skips to ENDIF when the level is matched, else tests and goes on |
| Interpreter.Call.JumpToNext | actor.go:7868-7899 | a false ELSE IF goes on to the next ELSE or ELSE IF of its chain, or past its ENDIF |
| Interpreter.Call.Else | actor.go:7904-7927 | skips the ELSE body |
| Interpreter.Call.Endif | actor.go:7929-7943 | closes one level of the IF stack |
| Interpreter.Call.Turn | actor.go:1895-1963 | one turn of the loop, with the phrases passed over on the way out of a BREAK |
| Interpreter.Call.Execute | actor.go:1895-1963 | any number of turns is the run of the machine |
| Interpreter.CallProgram | actor.go:1895-1963 | running a flattened program with the class ends in the variables, fails with the error, or leaves with the exit of the structured program |
| Simulation.SimStmt | actor.go:1895-1963 | for every statement, laid out anywhere and nested in anything, the flat run from its first phrase reaches its end with its meaning, its exits included, and leaves the enclosing records alone |
| Simulation.SimWhile | actor.go:2775-2865 | the same for WHILE |
| Simulation.SimFor | actor.go:3681-4096 | the same for FOR |
| Simulation.SimForeach | actor.go:2899-4096 | the same for FOREACH over a list |
| Simulation.SimIf | actor.go:7767-7943 | the same for IF chains |
| Simulation.SimCase | actor.go:6493-6813 | the same for CASE |
| Simulation.SimBreak | actor.go:4310-4338 | the same for BREAK, from inside any nesting |
| Simulation.SimContinue | actor.go:4098-4161 | the same for CONTINUE |
| Simulation.SimReturn | actor.go:5546-5730 | the same for RETURN, from inside any nesting |
| WholeRuns.RunFollowsMeaning | actor.go:1895-1963 | whole programs: the run ends with the variables, returns the values, or stops with the error, of the structured meaning, or outlasts any bound with it |
| WholeRuns.FlatRunIffMeaning | actor.go:1895-1963 | the flat program can end with given variables if and only if the structured program does |
| WholeRuns.FlatRunFailsIffMeaning | actor.go:1895-1963 | and it fails with a given error if and only if the structured program does |
| WholeRuns.FlatRunReturnsIffMeaning | actor.go:1895-1963 | and it returns with given values, or starts over with given arguments, if and only if the structured program does |
| WholeRuns.EveryReachableStateIsGood | actor.go:1855-1863 | in every reachable state depth, stack and CASE count agree, the tables have 16 and 8 entries, every open record is of its kind and ends at its own closer, and pc is inside the program |
| WholeRuns.OneEnd | actor.go:1895-1963 | a run has one end |
| TailCalls.StepStale | actor.go:7769-7777 | no turn of the loop looks at an IF flag above the IF depth, so flags left by an earlier pass cannot be seen |
| TailCalls.TailPlace | actor.go:5640-5682 | a statement whose tail calls are written outside its loops and CASEs starts over only from the constructs it stands in itself |
| TailCalls.PassFollowsMeaning | actor.go:5640-5682 | a pass started over from outside every loop and CASE has the meaning of the body started afresh, whatever the passes before left in the tables and IF flags |
| TailCalls.PassVerdict | actor.go:5585-5682 | such a pass answers, calls itself again, falls off the end or fails as a real call would |
| TailCalls.PassEndsCall | actor.go:5640-5688 | how a pass that ends settles the call: its values are the answer, a self-call with as many arguments as parameters goes on, with fewer it is no tail call and with more it panics |
| TailCalls.MeaningEndsCall | actor.go:5640-5688 | the same of a real recursive call |
| TailCalls.BindsEach | actor.go:5640-5682 | every parameter gets its own argument and no other variable changes |
| TailCalls.TailCallIsRecursion | actor.go:1796-1853 | for every function whose tail RETURNs are outside loops and CASEs, inside IFs or before later phrases or not, with locals written before they are read, a self-call by re-entry comes to a result if and only if recursion does |
| Reentry.ReentryKeepsMeaningIff | actor.go:5674-5682 | every body keeps its meaning when it is started over if and only if the construct stack is empty; for each kind of construct at the bottom a body that loses it |
| Reentry.CounterNotKept | actor.go:4312-4331 | the body lost for a given bottom of the stack: a BREAK one construct deep takes the stale construct for its own |
| LostAnswers.LoopReturnLosesAnswer | actor.go:5674-5682 | for every kind of construct a function that returns a call to itself from inside one, run from a fresh call: recursion answers 1; the call re-entered from a loop answers nothing, and from a CASE fails |
| LostAnswers.FirstPass | actor.go:5674-5682 | the first pass of such a function, from a fresh call, ends asking to start over with the loop still on the stack |
| LostAnswers.SecondPass | actor.go:4312-4331 | the second pass leaves by the stale loop's closer and has ended |
| LostAnswers.SecondCasePass | actor.go:6753-6775 | with a stale CASE the second pass comes to an ENDCASE with its own loop on top of the stack |
| ReturnsAndCases.ReturnTurn | actor.go:5546-5730 | a turn on RETURN leaves with given values if and only if its list has these values, fails if and only if it has none, and never goes on |
| ReturnsAndCases.ReturnIfTurn | actor.go:5546-5730 | the same of RETURN IF when its condition is true; it goes on, changing nothing, if and only if it is false |
| ReturnsAndCases.SelfCallTurn | actor.go:5585-5682 | a call of the function to itself starts over with given arguments if and only if its arguments have these values |
| ReturnsAndCases.RunReturnsList | actor.go:5685-5688 | a flat run that comes to a RETURN halts with exactly the values of its list |
| ReturnsAndCases.RunCallsAgain | actor.go:5585-5682 | one that comes to a call of the function to itself halts asking for exactly its arguments |
| ReturnsAndCases.ClauseEntered | actor.go:6640-6751 | the turn goes into the body of a clause if and only if its guard is true of the CASE value: an IS value equal to it and no list, a true HAS, a matching CONTAINS |
| ReturnsAndCases.FirstTrueRuns | actor.go:6566-6751 | the clause that runs is the first whose guard is true of the value, by the interpreter's meaning and by the textbook's |
| ReturnsAndCases.NoneTrueRunsNone | actor.go:6566-6751 | with no guard true of it none runs |
| ReturnsAndCases.FlatCaseRunsFirstTrue | actor.go:6566-6751 | the flat run of a CASE ends with given variables if and only if the body of the first clause whose guard is true leaves them |
| ReturnsAndCases.FlatCaseRunsNone | actor.go:6566-6751 | with no guard true the flat run ends with the variables as they were |
| Definite.RunsAlike | actor.go:1895-1963 | a statement that reads only names assigned before it runs alike from variables that agree on those, and agrees on what it assigns after |
| Definite.AssignedIsOblivious | actor.go:5640-5682 | a body that reads only its parameters and what it has assigned comes to the same whatever variables an earlier pass has left |
| Branches.ChainRunsPicked | actor.go:7769-7943 | an IF / ELSE IF / ELSE chain runs the branch of its first true condition only, whenever that branch as it runs leaves the IF depth as it found it |
| Branches.CaseByFirstHit | actor.go:6566-6751 | what a CASE comes to, said by its first matching clause |
| Branches.CaseStopsIffNotOr | actor.go:6694-6751 | a CASE stops at its first matching clause, whatever is written after it, if and only if the clause is not OR |
| Branches.ThisCaseStopsIff | actor.go:6694-6751 | and over the clauses that are written, if and only if it is not OR or they do nothing |
| Refinement.TripsCount | actor.go:3758-3817 | a counter is in range exactly for the first floor((end-start)/step)+1 passes, for either sign of the step |
| Refinement.PassEnds | actor.go:4028-4064 | the end of a pass moves the counter by one step and stops exactly after the last trip, whatever the body did to the variable |
| Refinement.PassesCounted | actor.go:4001-4064 | whatever its body, a FOR makes every pass there is unless one is left by BREAK, RETURN or an error, and comes to what its last pass does |
| Refinement.RefForUsed | actor.go:4032-4062 | a FOR whose body mentions its variable sets it on each pass, as the textbook says |
| Refinement.RefForUnused | actor.go:4001-4064 | a FOR whose body never mentions its variable, from any pass on and with any value held in the variable: it agrees with setting the variable on each pass if and only if the difference does not show |
| Unwritten.PassPair | actor.go:4001-4064 | one pass, run with two different values in the variable, differs nowhere else, and alike there if a FOREACH in it writes the variable as its key |
| Unwritten.ShowsIffBreaksLate | actor.go:4001-4064 | with no FOREACH that writes the variable as its key it shows if and only if a BREAK ends a pass other than the first |
| Unwritten.ShowsIffOnePass | actor.go:4032-4041 | with no BREAK it shows if and only if there is a single pass and that leaves another value in the variable |
| Refinement.RefIf | actor.go:7767-7943 | a tidy IF chain runs the first true branch and no other |
| Refinement.RefClauses | actor.go:6566-6751 | with OR last, a CASE runs its first matching clause and no other |
| Refinement.RefStmt | actor.go:1895-1963 | on every tidy statement within the tables the exact meaning is the textbook meaning |
| Refinement.FlatRunIsTextbook | actor.go:1895-1963 | a tidy program, flattened and run, ends with given variables if and only if the textbook program does |
| Refinement.FlatRunFailsIffTextbook | actor.go:1895-1963 | and it stops with a given error if and only if the textbook program does |
| Refinement.FlatRunReturnsIffTextbook | actor.go:1895-1963 | and it returns what the textbook program returns, if and only if that returns |
| IfStack.StmtGrows | actor.go:7767-7943 | a statement keeps every IF level below its own; one whose IFs all have a plain ELSE and are not left by BREAK or CONTINUE keeps the whole stack |
| Framing.UnmentionedIsBlind | actor.go:818-846 | when the text search does not find a name in a body, no phrase of the body reads it, and none writes it but a FOREACH whose key variable it is |
| Framing.EvalFrame | actor.go:818-846 | such a body runs alike from stores that differ only at the name, and either leaves the name alone in both or writes it alike |
| Untidy.ChainRunsTwoBranches | actor.go:7833-7848 | an IF chain of which two branches run |
| Untidy.ChainClosesIffMatched | actor.go:7840-7849 | a chain runs no further branch if and only if the top flag is set when a branch ends |
| Untidy.ForAgreesIffHidden | actor.go:4001-4064 | a whole FOR whose body never mentions its variable, BREAKs and key writes and all: the interpreter and the textbook agree on it if and only if the unwritten variable does not show |
| Untidy.KeyLeftInVariable | actor.go:4032-4041 | FOR key_a = 5 TO 5 around a FOREACH over a leaves the key, 0, in its variable |
| Untidy.KeyShouldNotBeLeft | actor.go:4032-4041 | what that loop would leave, 5, if its variable were set at its end |
| Untidy.BreakSecondLeavesOne | actor.go:4032-4062 | a loop left by BREAK on its second pass with its variable still at the start |
| Untidy.BreakSecondShouldLeaveTwo | actor.go:4032-4062 | what that loop would leave if its variable were set on each pass |
| Untidy.OrRunsOnIntoLaterClause | actor.go:6694-6701 | a CASE with OR before a matching clause runs both |
| Untidy.CaseLimitIsNeverReported | actor.go:6498-6502 | the reported nesting limit is unreachable; the eighth CASE indexes past the table |
| PrattTrees.SkipTree | eval.go:234-268 | the skip scan passes every tree inside parentheses, and outside them every tree with no operator it stops at |
| PrattTrees.SkipAgreesIffClear | eval.go:234-268 | the skip scan and the parser end an operand at the same token if and only if no operator of it outside parentheses is one the scan stops at |
| PrattTrees.CanonIsClear | eval.go:379-382 | an operand as parsed has no such operator unless a prefix operator in it binds more loosely than the short-circuit |
| PrattTrees.ShortCircuitUnseen | eval.go:427-485 | the value of every tree is the one it has with every operand evaluated |
| PrattTrees.AndIsBoth | eval.go:431-444 | && is the truth of both operands |
| PrattTrees.OrIsEither | eval.go:446-485 | the or operators are the truth of either; a text on the left stands for itself, or if empty for the right operand |
| PrattTrees.ParseReaches | eval.go:296-485 | parsing from before a canonical tree arrives after it with its value, whichever short-circuits are taken |
| PrattGrammar.EvaluatesPrinted | eval.go:231-300 | a printed expression is read to its end and evaluates to its tree's value |
| PrattGrammar.BuildIffReads | eval.go:376-385 | for every table and token list, a tree is read if and only if it is canonical, its tokens come next and the token after it stops the climb |
| PrattGrammar.CanonicalTreeIsUnique | eval.go:376-385 | no token list reads as two trees |
| PrattGrammar.ParseEvaluatesBuild | eval.go:270-485 | the evaluating parser stops where the grammar does, with the value of the tree it reads |
| PrattTables.ShowKeepsMeaning | eval.go:2139-2149 | parentheses change nothing but the grouping |
| PrattTables.RoundTripsIffCanon | eval.go:376-385 | a minimally parenthesised expression is read back if and only if its print is canonical |
| PrattTables.RoundTripIffSpaced | eval.go:376-385 | every expression over a table is read back from its minimally parenthesised print if and only if no two binary operators are one level apart |
| PrattTables.NeighboursCollide | eval.go:379-382 | for operators one level apart, what groups to the right is read as grouping to the left |
| PrattTables.ShippedNeighbours | main.go:550-597 | exactly which pairs of operators the shipped table puts one level apart |
| PrattTables.ShippedTableIsNotSpaced | main.go:562-566 | a or (b and c), bitwise, is read as (a or b) and c |
| PrattTables.ShippedGroupsByTier | main.go:550-597 | with the shipped table `a o b q c` groups to the right if and only if q is of a tighter tier than o and no neighbour of it |
| PrattTables.ShippedPrefixGroups | eval.go:1737-1803 | with the shipped table a prefix operator takes the operator after its operand exactly if that binds tighter than the prefix does |
| PrattTables.GuardedPathsAreSkipSafe | main.go:516-597 | with the shipped table every prefix operator but the path operators can be skipped past |
| PrattTables.ShippedEvaluatesAsRead | eval.go:427-485 | with the shipped table an expression whose short-circuited operands have no bare path operator evaluates to what its tree comes to with every operand evaluated |
| PrattTables.PathGroupingDependsOnValues | eval.go:338-343 | an expression whose grouping depends on the value of its left operand |
| PrattParser.Leparser.constructor | eval.go:43-47 | the cursor starts before the first token |
| PrattParser.Leparser.Eval | eval.go:25-51 | a token list the grammar reads whole evaluates to what its tree comes to with every operand evaluated, and every other to what the climb makes of it |
| PrattParser.Leparser.Next | eval.go:103-110 | moves on one token, keeping the two tokens before it |
| PrattParser.Leparser.SkipOperand | eval.go:234-268 | the skip loop stops where the scan does |
| PrattParser.Leparser.DParse | eval.go:270-485 | the binary loop computes the climb, in value, position and panics |
| PrattParser.Leparser.Combine | eval.go:427-485 | one binary operator: settled and skipped, or both operands evaluated |
| PrattParser.Leparser.CombineAnd | eval.go:431-444 | && is false on a false left operand, else the truth of the right one |
| PrattParser.Leparser.CombineOr | eval.go:446-485 | a non-empty text on the left stands for itself, an empty one for the right operand, any other left operand makes the truth of either |
| PrattParser.Leparser.FirstOperand | eval.go:288-370 | the switch on the first token of an operand |
| PrattParser.Leparser.Prefixed | eval.go:1737-1803 | a prefix operator takes the operand its own level allows |
| PrattParser.Leparser.Grouping | eval.go:2139-2149 | a parenthesised expression and one token after it |
| CallSpace.DigitsInjective | actor.go:940-944 | two slot numbers never print alike |
| CallSpace.InstanceOfOne | actor.go:940-944 | an instance name says one slot only, so names of different slots differ |
| CallSpace.TaggedIsNamedFor | actor.go:940-944 | the name given begins with the name asked for; if that ends in @ the rest is the slot's number in decimal, else there is none |
| CallSpace.NthReaches | actor.go:914-920 | the search comes past every slot from 2 up, from anywhere |
| CallSpace.SearchEndsIffFree | actor.go:914-920 | the free-slot search ends if and only if some slot from 2 up is free |
| CallSpace.Grown | actor.go:922-934 | growth keeps every entry, covers the slot, fills with empty entries and at most doubles |
| CallSafety.HandsOutFree | actor.go:897-944 | an allocation hands out a slot that has no name, whether it is reused or found, under the name asked for, with the slot's number behind it if that ends in @ |
| CallSafety.TableAfter | actor.go:936-958 | it changes no other entry but for how long it has waited, and the table stays within bounds |
| CallSafety.AllocateKeeps | actor.go:892-965 | allocation keeps the invariant |
| CallSafety.ExitKeeps | actor.go:8918-8943 | the end of a call that believes itself in its own slot keeps the invariant, even if its name has been given out again since it started |
| CallSafety.TaggedOwnsName | actor.go:1703-1718 | a call under an instance name looks its own slot up |
| CallSafety.BelievesOwnIff | actor.go:1703-1718 | a call that starts believes itself in its own slot if and only if since its allocation nobody has been given its name and no call of that name has ended |
| CallSafety.PlainNameFreesAnother | actor.go:1716-1718 | a run from start-up in which a call under a plain name takes another's slot for its own and frees it while the other runs there |
| CallSafety.MoveKeepsSafe | actor.go:892-965 | every move keeps what every reachable state keeps, if a call that starts does so while its name stands for its slot |
| CallSafety.RunStaysSafe | actor.go:892-965 | every state reached by allocating, starting, exiting and marking in any order is safe, if each call starts while its name stands for its slot |
| CallSafety.InstanceRunsAreOwned | actor.go:940-944 | calls under instance names always do |
| CallSafety.RunningSlotIsNeverHandedOut | actor.go:897-912 | in such a run the slot of a running call is never handed out again, and a running call ends by giving up its own slot |
| CallSafety.LookupsStayInverse | actor.go:951-952 | in every reachable state the two lookups are inverse on instance names |
| CallSafety.ResultsLast | eval_ops.go:2741-2745 | results stay in a slot for as long as it is not handed out |
| CallSafety.ResultsLostIff | actor.go:897-958 | the results left in a released slot are lost to the next allocation if and only if its entry is the first due for reuse, or none is due and it is the first free slot from the cursor on |
| CallSafety.ResultsLostFromStartUp | actor.go:914-958 | a run from start-up that hands a slot out again before its results have been read |
| CallSafety.PlainNamesDiverge | actor.go:951-952 | a plain name asked for twice breaks the inverse |
| CallSafety.PlainNameKeepsInverseIff | actor.go:951-952 | giving out a plain name leaves the lookups inverse at it if and only if no slot holds the name before |
| CallSafety.AllocateIsDetermined | actor.go:892-965 | an allocation has one outcome |
| SlotReuse.SparedByLooks | actor.go:897-912 | as long as a marked entry is left alone fewer allocations have looked at it than it was marked to wait for, and each has brought its count down by one |
| SlotReuse.ReusedAtLastLook | actor.go:897-912 | in every run, of the allocations that look at an entry marked with n after its call has ended, the first n - 1 pass it over and the one after them takes it, unless its slot was handed out as the first free one |
| SlotReuse.HandedOutEntry | actor.go:946-958 | the entry handed out is the one prepared for it, or else waits for nothing |
| Allocator.Nmap.Set | nummap.go:25-27 | stores a name under a slot |
| Allocator.Nmap.Get | nummap.go:29-34 | the name of a slot, or none |
| Allocator.Nmap.Exists | nummap.go:20-23 | whether a slot has a name |
| Allocator.Nmap.Delete | nummap.go:36-39 | removes a slot's name and says whether it had one |
| Allocator.Lmap.Set | stringmap.go:24-26 | stores a slot under a name |
| Allocator.Lmap.Get | stringmap.go:28-33 | the slot of a name, or 0 |
| Allocator.Lmap.Exists | stringmap.go:19-22 | whether a name has a slot |
| Allocator.Lmap.Delete | stringmap.go:35-38 | removes a name and says whether it was there |
| Allocator.FnSpaces.constructor | main.go:633-637 | the space at start-up |
| Allocator.FnSpaces.Reusable | actor.go:897-912 | the look for reusable entries finds the first that is due and ages the ones before it |
| Allocator.FnSpaces.FindReservation | actor.go:914-920 | the cursor stops at the first unnamed slot in cyclic order |
| Allocator.FnSpaces.Resize | actor.go:922-934 | doubles the table until it covers the cursor; the overgrown branch is never taken |
| Allocator.FnSpaces.Register | actor.go:940-958 | the name given, and the entry and both lookups of the slot handed out |
| Allocator.FnSpaces.GetNextFnSpace | actor.go:892-965 | the whole of an allocation is one move of the call space, and the name given is the one asked for |
| Allocator.FnSpaces.Start | actor.go:1703-1718 | a call takes the name in its entry, and the slot that is looked up to, for its own |
| Allocator.FnSpaces.Exit | actor.go:8918-8943 | the end of a call leaves its results in the slot it took for its own and drops that slot and its name, whole new state |
| Allocator.FnSpaces.TakeResults | eval_ops.go:2741-2745 | the caller takes the results and marks the slot |
| Bundler.Discovery.DiscoverModules | bundler.go:525-603 | the search ends on any graph; what it lists is what it newly visited, once each, all readable, all reached, closed under imports; it fails only if something reached is not readable or resolvable |
| Bundler.BundleModules | bundler.go:525-603 | succeeds if and only if the script and all it reaches can be read and every MODULE statement in them means a file, and then lists exactly the files reached by one or more MODULE statements, each once and after an importer of it |
| Bundler.WholeSearch | bundler.go:546-600 | a search from nothing visits exactly what is reached |
| NestedLaws.ReadsBackIffKeysFit | assigner.go:1024-1221 | on unshared data, as in the rows to NestedOrder.AnyElementWritableIff: what was assigned at a path is read back there if and only if every key on the way was used on a map |
| NestedLaws.LastWriteWins | assigner.go:1024-1221 | of two writes of one type to one path only the last counts |
| NestedLaws.DisjointUndisturbed | assigner.go:1024-1221 | where nothing is shared a write leaves what is found at disjoint paths, and adds only the fresh elements a grown array is filled with |
| NestedLaws.GrowKeeps | assigner.go:190-204 | a grown array keeps its elements and is filled with fresh ones |
| NestedOrder.DisjointWritesCommute | assigner.go:1024-1221 | writes to disjoint paths of unshared data commute, unless an array made for one would be of another type when made for the other |
| NestedOrder.CommuteIffAlike | assigner.go:1024-1221 | of two disjoint writes to unshared data that succeed in both orders, the orders agree if and only if no array to be made on the shared part would be of different types for the two values |
| NestedOrder.MakingShowsOrder | assigner.go:157-169 | but where an array has to be made, the first write decides its type, and both orders can succeed with different data |
| NestedOrder.AssignKeepsTypes | assigner.go:1024-1221 | assignment keeps every element and field of its static type |
| NestedOrder.AnyArrayNeverGrows | assigner.go:1058-1089 | a []any too short, or with a nil in it, cannot be written by index, at any path below |
| NestedOrder.AnyElementWritableIff | assigner.go:1058-1089 | an element of a []any can be written if and only if it is there and no element is nil |
| TypedWrites.TypedWriteSucceedsIff | assigner.go:1024-1221 | along typed arrays and structs an assignment succeeds if and only if no index is negative, every field is there and the value is of the type at the end, whether or not arrays have to grow; it keeps the variable's type and is read back |
| TypedWrites.ArrayAfterWrite | assigner.go:151-206 | a typed array written through an index reaches to it, keeps its other elements and is filled up with fresh ones |
| TypedWrites.ZeroIsFresh | assigner.go:151-206 | what an array is filled up with: zero, the empty text, nil, an empty array, no map, or a struct of such fields |
| SharedTrees.CopyTree | assigner.go:1317-1415 | a copy, as deep as static types go, unfolds to the same data and is made of new objects and of what interfaces hold |
| SharedTrees.TreeKept | assigner.go:1024-1221 | data is unchanged by changes to objects it does not reach |
| SharedMeaning.WriteMirrors | assigner.go:1024-1221 | on data in which nothing is met twice a write over the heap gives what the assignment on trees gives, again with nothing shared, fails exactly when that does, and changes no object from outside |
| SharedApart.WriteExtends | assigner.go:1024-1221 | a write sets nothing there is but the entries its own path works in, whether it succeeds or breaks off |
| SharedApart.CopyReads | assigner.go:1317-1415 | a copy shows what was copied, for as long as nothing is set that is met in reading that |
| SharedApart.ElsewhereUndisturbed | assigner.go:1145-1172 | a path of any variable that meets no entry a write works in reads the same after it |
| SharedApart.SharedUndisturbed | assigner.go:1024-1221 | a number or text at a disjoint path is left as it was, through maps, arrays and structs, shared or not, if after the paths part they meet no entry in common |
| SharedLaws.MapWrite | assigner.go:1091-1172 | a write through maps sets one entry of one map and nothing else, unless its path goes through that entry: then nothing changes |
| SharedLaws.SetSeen | assigner.go:1145-1172 | what any path of any value reads after an entry is set: what it read, or if it meets the entry, what the rest of it reads in the new value |
| SharedLaws.ScalarSeenIffMet | assigner.go:1091-1172 | a number or text written through maps is seen at exactly the paths, of this variable or any other, that meet the same entry of the same map |
| SharedLaws.ReadsBackIffNotPassed | assigner.go:1091-1172 | what was written through maps is read back if and only if the path does not go through the entry it ends in |
| SharedLaws.MapWritesCommuteIff | assigner.go:1091-1172 | two writes through maps, of any variables, neither going through the entry the other ends in: the orders leave the same heap if and only if the entries differ or the values are the same |
| SharedLaws.ScalarWritesCommuteIff | assigner.go:1091-1172 | for numbers and texts that holds of all paths through maps |
| SharedLaws.UnsharedCommuteIffAlike | assigner.go:1024-1221 | two disjoint writes to unshared data leave the same data in both orders if and only if no array to be made on the shared part would be of different types for the two values |
| SharedLaws.UnsharedTypedWriteIff | assigner.go:1024-1221 | the same on the heap where nothing is shared: a write along typed arrays and structs succeeds if and only if its path leads somewhere and the value is of the type there |
| SharedLaws.NilTakesEntryAway | assigner.go:1091-1174 | nil written through maps is refused over a number, a text or a struct; else every path that met the entry finds nothing any more and every other path reads as before |
| SharedLaws.OtherFieldAfterWrite | assigner.go:1176-1215 | of another field the copy of a struct shares what an interface holds, and has a map of its own where the field is of map type |
| SharedLaws.SharedMapDisturbs | assigner.go:1145-1172 | with one map under x and y, a write at x, k changes what is at y, k |
| SharedLaws.SharedMapShowsOrder | assigner.go:1145-1172 | and two writes at these paths do not commute |
| SharedLaws.SelfMapLosesWrite | assigner.go:1169-1172 | a map that holds itself loses a write through itself to itself |
| SharedLaws.FailedWriteLeavesTrace | assigner.go:1079-1089 | a write that fails in copying a nil element has already changed the map below |
| Assigner.Memory.Rcopy | assigner.go:1317-1346 | the recursive copy, in value and in the objects made |
| Assigner.Memory.RcopySlice | assigner.go:1351-1361 | an array copied element by element |
| Assigner.Memory.RcopyStruct | assigner.go:1404-1415 | a struct copied field by field |
| Assigner.Memory.CopyItems | assigner.go:1079-1084 | the copy loop of an indexed array, failing exactly on a nil element |
| Assigner.Memory.GrowSlice | assigner.go:151-206 | the growth loop, its errors included |
| Assigner.Memory.RecursiveAssign | assigner.go:1024-1221 | the recursion, in value, errors and the whole heap |
| Assigner.Memory.AssignElement | assigner.go:1058-1089 | an element, in a copy of its array |
| Assigner.Memory.AssignEntry | assigner.go:1091-1172 | an entry of a map, set in place; nil takes it out |
| Assigner.Memory.AssignFirst | assigner.go:1145-1174 | a key used on an array sets its first element in place |
| Assigner.Memory.AssignField | assigner.go:1176-1217 | a field, in a copy of its struct |
| Assigner.Memory.ProcessAssignment | assigner.go:971-1022 | the heap and the variable after an assignment at a path, a variable keeping its value if it fails; the first write to a variable through keys succeeds and makes a new map in which the value is found at its path and nothing off it, one through an index fails, and one through a field fails |
| FirstWrites.FirstKeyedWrite | assigner.go:992-1001 | the first write of a value other than nil at a path of keys succeeds; the variable is a new map and the path written is the only one found in it |
| Assigner.FirstIndexedWriteFails | assigner.go:993-1001 | a variable not declared before cannot be given its first value through an index |
| CommaSplit.SplitCommaArray | actor.go:9422-9456 | the listing of any arguments, with lists in parentheses nested to any depth in them, is split into just these arguments; of any tokens each piece is balanced without a top-level comma, there is one more than there are top-level commas, and joining them gives the list back if and only if its parentheses balance; otherwise the last piece is lost |
| CommaSplit.JoinedOneWay | actor.go:9422-9456 | arguments joined by commas can be split in one way only |
| CommaSplit.WrittenIsArgument | actor.go:9422-9456 | an argument is not cut at the commas of the lists in parentheses in it, at any depth |
| ArrayOps.ZippedPointwise | array_ops.go:75-148 | the result of an elementwise operation has the operands' shape and at every index path the operation of what they hold there |
| ArrayOps.ScalarAfterMeansFilled | eval_ops.go:278-283 | a scalar after a slice acts as a slice of that shape filled with it |
| ArrayOps.ScalarBeforeMeansFilledIff | eval_ops.go:285-290 | a scalar before a slice does so if and only if the operator keeps the order of its operands or the scalar commutes with every element |
| ArrayOps.TextAddedBehind | eval_ops.go:285-290 | a text added in front of a slice of texts lands behind each |
| ArrayOps.CheckShape | array_ops.go:11-37 | accepts exactly equal dimensions at every depth |
| ArrayOps.ApplyElementwiseBinaryOp | array_ops.go:75-124 | the elementwise recursion: two operands combine, element by element, if and only if their shapes agree or one is a scalar |
| ArrayOps.BroadcastScalarToSlice | array_ops.go:127-148 | the scalar meets every element on the given side |
| ArrayOps.Evaluate | eval_ops.go:271-290 | which operand goes where in addition, subtraction and multiplication |
| GrowingArray.WritesAgreeWithIndexMap | eval.go:3003-3021 | after any writes the array is as long as it was or as the highest index asks, and holds the last write at each index, else what was there, else zero |
| GrowingArray.IntVariable.constructor | eval.go:3003-3021 | a slice with given contents |
| GrowingArray.IntVariable.CopyOf | eval.go:3017-3018 | a longer zeroed slice with the contents copied in |
| GrowingArray.IntVariable.VsetElement | eval.go:3003-3021 | one write, the slice remade when too short; capacity never falls, nor below the length |

## Left out

- Interpreter.Call.For: the three-part form, with its own condition and update, is not modelled.
- Interpreter.Call.Foreach: lists only; maps come in random order, and strings and typed iterators repeat the list code.
- Interpreter.Call.NextItem: lists only, for the same reason.
- Interpreter.Call.Break: BREAK with a count or a construct name is not modelled.
- Interpreter.Call.Return: the check of declared return types and the packing of results inside a try block are not modelled.
- Interpreter.Call.constructor: a call is given a program whose kept lookaheads all have their ENDIF; the source also keeps one for an IF it has just reported as having none.
- Interpreter.Call.Case: the full modifier is not modelled.
- Interpreter.Call.ClauseOf: the enum members a full CASE keeps track of are not modelled.
- Interpreter.Call.Endcase: the check a full CASE makes at its end is not modelled.
- Refinement.RefIf: asks for a plain ELSE in every IF of a branch before an ELSE IF; Branches.ChainRunsPicked asks only what the branch does as it runs.
- PrattTables.ShippedNeighbours: the is and ?? operators of the shipped table are not modelled.
- PrattParser.Leparser.DParse: ternary, indexing, namespaces, increments and the ?? operator are not modelled.
- PrattParser.Leparser.FirstOperand: field, array, map, reference and command operands are not modelled.
- Allocator.FnSpaces.Exit: the mode that keeps a call's names at its end, used interactively, is not modelled.
- Assigner.Memory.RecursiveAssign: a value of another type than the place counts as an error; the source converts some.
- Expressions in statements are functions of the variables: their side effects, and function calls inside them, are not part of the statement loop.
- The ON .. DO form of a statement.
- BREAK IF and CONTINUE IF are modelled as the guarded phrase they are; the count of levels still to break is always at most one in these forms and is not kept.
- CASE with the full modifier, WITH ENUM, and phrases between CASE and its first clause.
- Wrap-around of the int32 IF depth and of the int16 program counter; the latter is shown to stay inside the program.
- TRY, CATCH and THROW, TEST and WITH blocks, definitions, profiling and the debugger; the checks of declared return types.
- TailCalls.TailCallIsRecursion: that locals are written before they are read is asked of what a pass comes to; Definite.AssignedIsOblivious gives it for bodies that show it statement by statement. Methods, defaulted parameters and calls with another number of arguments are not tail calls in this sense.
- Programs past the fixed tables: they stop with the panic of the table they overrun, and the textbook theorem asks that they stay within.
- Refinement.FlatRunIsTextbook: asks that the words of a phrase are honest about the FOR variable, because the source trusts a text search for it; a program that reaches the variable by other means is not covered.
- In expressions: ternary, indexing, ranges inside brackets, field and namespace access, increments, macros, shell commands and the ?? operator; evaluation errors of single operators; the int8 type of precedence levels.
- PrattTrees.SkipAgreesIffClear: is about trees of literals, binary and prefix operators and parentheses; an operand with ?: or [ ] is not modelled.
- Interactive mode, where a call is entered again in its slot without giving up its name.
- Anything finer than one step for the end of a call: the source releases the entry under the lock and drops the names after it.
- SlotReuse.ReusedAtLastLook: is about the same runs as CallSafety.RunningSlotIsNeverHandedOut.
- CallSafety.RunningSlotIsNeverHandedOut: is about runs in which each call starts while its name stands for its slot, as under instance names it always does; CallSafety.PlainNameFreesAnother is a run in which one does not.
- Allocator.FnSpaces.FindReservation: asks for a free slot, since with none the source goes round for ever holding the lock.
- Paths, the file system and tar output of the bundler: a resolution function and a map of files stand for them, and files do not change while they are read.
- Conversion of a value to the type of the place it is assigned to: a value of another type counts as an error.
- NestedLaws.DisjointUndisturbed: is about trees, so about data in which nothing is shared; SharedApart.SharedUndisturbed and SharedLaws.ScalarSeenIffMet are about the rest.
- NestedOrder.CommuteIffAlike: likewise; SharedLaws.MapWritesCommuteIff is about shared maps.
- TypedWrites.TypedWriteSucceedsIff: is about paths on which no key and no interface is met before the end; NestedOrder.AnyElementWritableIff is about []any and SharedLaws.MapWrite about keys.
- FirstWrites.FirstKeyedWrite: is about paths of keys alone; a first path that goes on from a key by an index or a field is only tied to the write on the heap.
- SharedLaws.OtherFieldAfterWrite: says what a copy shares for fields that are interfaces or maps; for arrays and structs inside one another SharedTrees.CopyTree and SharedApart.CopyReads do.
- SharedApart.SharedUndisturbed: says when a path is left alone, not that it is disturbed otherwise; through maps SharedLaws.ScalarSeenIffMet says both.
- SharedLaws.MapWritesCommuteIff: the order of two writes through shared arrays and structs is not settled, nor that of two containers one of whose paths goes through the entry the other ends in.
- Arrays that are parts of one another, and capacities in nested assignment: an array is kept whole.
- Maps with element types other than any, struct fields set through reflection, and fixed-size arrays.
- NestedOrder.DisjointWritesCommute: asks that a container that has to be made on the shared part of two paths is made alike by both values, since the source makes it from the type of the value.
- Big numbers, floats and arrays of mixed types; element writes to strings and the other slice types, which repeat the []int code.
- Consoles, line editors, logging, networking, the bytecode VM, FFI and the standard library.

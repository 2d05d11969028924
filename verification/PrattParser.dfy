/** The parser as it runs: a cursor over the tokens that every routine moves in place. */
module PrattParser {
  import opened Phrases
  import opened Pratt
  import PrattTrees
  import PrattGrammar

  class Leparser {
    const tokens: seq<Token>
    const prectable: Table
    const sem: Sem
    var pos: int
    var prev: Option<Token>
    var prev2: Option<Token>

    constructor (tokens: seq<Token>, prectable: Table, sem: Sem)
      ensures Valid() && pos == -1 && this.tokens == tokens && this.prectable == prectable && this.sem == sem
    {
      this.tokens, this.prectable, this.sem := tokens, prectable, sem;
      pos, prev, prev2 := -1, None, None;
    }

    function Input(): Env { Env(tokens, prectable, sem) }

    /** prev and prev2 are the two tokens before the current one. */
    ghost predicate Valid()
      reads this
    {
      && -1 <= pos <= |tokens|
      && (pos >= 1 ==> prev == Some(tokens[pos - 1]))
      && (pos >= 2 ==> prev2 == Some(tokens[pos - 2]))
    }

    /**
      Evaluates the whole token list: it is worth what the tree the grammar reads in it is, every operand of
      that evaluated.
     */
    method Eval() returns (ok: bool, v: Val)
      requires Valid() && pos == -1
      modifies this
      ensures var r := PrattGrammar.Build(tokens, prectable, -1, 0);
        r.Some? && r.value.1 == |tokens| - 1 && PrattTrees.SkipSafe(prectable, r.value.0)
        ==> ok && v == PrattTrees.Full(sem, r.value.0)
      ensures match Parse(Input(), -1, 0)
        case Panic => !ok
        case Done(w, _) => ok && v == w
    {
      hide Parse, PrattTrees.SkipSafe;
      if |tokens| == 1 && tokens[0].Literal? {
        LiteralAlone(Input(), tokens[0].value);
        return true, tokens[0].value;
      }
      PrattGrammar.ParseEvaluatesBuild(Input(), -1, 0);
      ghost var r := PrattGrammar.Build(tokens, prectable, -1, 0);
      if r.Some? {
        PrattTrees.ShortCircuitUnseen(sem, r.value.0);
      }
      ok, v := DParse(0);
    }

    /** Moves to the next token; false where the source reads past its tokens. */
    method Next() returns (ok: bool)
      requires Valid() && pos < |tokens|
      modifies this
      ensures Valid() && pos == old(pos) + 1 && (ok <==> pos < |tokens|)
    {
      prev2 := prev;
      if pos >= 0 {
        prev := Some(tokens[pos]);
      }
      pos := pos + 1;
      ok := pos < |tokens|;
    }

    function Peek(): (t: Token)
      requires -1 <= pos < |tokens|
      reads this
    {
      if pos + 1 == |tokens| then Eof else tokens[pos + 1]
    }

    /** Passes over an operand without evaluating it. */
    method SkipOperand(prec: nat)
      requires Valid() && pos < |tokens|
      modifies this
      ensures Valid() && pos == Skip(Input(), old(pos), prec, 0)
    {
      hide Bind, Binary;
      var braceLevel: nat := 0;
      while true
        invariant Valid() && pos < |tokens|
        invariant Skip(Input(), pos, prec, braceLevel) == Skip(Input(), old(pos), prec, 0)
        decreases |tokens| - pos
      {
        match Peek() {
          case LParen => braceLevel := braceLevel + 1;
          case RParen =>
            if braceLevel == 0 {
              break;
            }
            braceLevel := braceLevel - 1;
          case Comma =>
            if braceLevel == 0 {
              break;
            }
          case Colon => break;
          case Eof => break;
          case t =>
            if braceLevel == 0 {
              var pp := Level(prectable, t);
              if pp > 1 && prec >= pp {
                break;
              }
            }
        }
        var _ := Next();
      }
    }

    /** One operand and the operators after it that bind tighter than prec. */
    method DParse(prec: nat) returns (ok: bool, left: Val)
      requires Valid() && pos < |tokens|
      modifies this
      ensures (if ok then Done(left, pos) else Panic) == Parse(Input(), old(pos), prec)
      ensures ok ==> Valid()
      decreases |tokens| - pos, 2
    {
      hide Bind, Binary, Skip, Settles, Apply, Operand;
      ghost var start := pos;
      if pos + 1 >= |tokens| {
        var _ := Next();
        return true, Nil;
      }
      ok, left := FirstOperand();
      if !ok || pos >= |tokens| {
        return false, left;
      }
      while prec < Level(prectable, Peek())
        invariant Valid() && start < pos < |tokens|
        invariant Parse(Input(), start, prec) == Climb(Input(), pos, prec, left)
        decreases |tokens| - pos
      {
        var t := Peek();
        var more := Next();
        if !more || !t.Op? || !Binary(t.oper) {
          return false, left;
        }
        ok, left := Combine(t.oper, left);
        if !ok || pos >= |tokens| {
          return false, left;
        }
      }
      ok := true;
    }

    /** The value of a binary operator standing at the cursor, its left operand known. */
    method Combine(o: Oper, left: Val) returns (ok: bool, v: Val)
      requires Valid() && 0 <= pos < |tokens|
      modifies this
      ensures Combined(Input(), old(pos), o, left, if ok then Done(v, pos) else Panic)
      ensures ok ==> Valid() && pos >= old(pos)
      decreases |tokens| - pos, 4
    {
      hide Bind, Binary, Skip, Parse, Climb, Settles, Apply, NextLevel;
      var next := NextLevel(Input(), o);
      if o == LogicAnd {
        AndOperator(sem, left);
        ok, v := CombineAnd(next, left);
      } else if o == LogicOr || o == WordOr {
        OrOperator(sem, o, left);
        ok, v := CombineOr(next, left);
      } else {
        PlainOperator(sem, o, left);
        var right: Val;
        ok, right := DParse(next);
        v := sem.binary(o, left, right);
      }
    }

    /** && is false on a false left operand, else the truth of the right one. */
    method CombineAnd(next: nat, left: Val) returns (ok: bool, v: Val)
      requires Valid() && 0 <= pos < |tokens|
      modifies this
      ensures ok ==> Valid() && pos >= old(pos)
      ensures !sem.asBool(left) ==> ok && v == Truth(false) && pos == Skip(Input(), old(pos), next, 0)
      ensures sem.asBool(left) ==>
        match Parse(Input(), old(pos), next)
        case Panic => !ok
        case Done(w, q) => ok && pos == q && v == Truth(sem.asBool(w))
      decreases |tokens| - pos, 3
    {
      hide Bind, Binary, Skip, Parse, Climb;
      var right: Val;
      if !sem.asBool(left) {
        SkipOperand(next);
        return true, Truth(false);
      }
      ok, right := DParse(next);
      v := Truth(sem.asBool(right));
    }

    /** || and or: a text stands for itself when not empty, anything else for its truth. */
    method CombineOr(next: nat, left: Val) returns (ok: bool, v: Val)
      requires Valid() && 0 <= pos < |tokens|
      modifies this
      ensures ok ==> Valid() && pos >= old(pos)
      ensures left.Text? && left != Text("") ==> ok && v == left && pos == Skip(Input(), old(pos), next, 0)
      ensures !left.Text? && sem.asBool(left) ==> ok && v == Truth(true) && pos == Skip(Input(), old(pos), next, 0)
      ensures left == Text("") || (!left.Text? && !sem.asBool(left)) ==>
        match Parse(Input(), old(pos), next)
        case Panic => !ok
        case Done(w, q) => ok && pos == q && v == if left.Text? then w else Truth(sem.asBool(w))
      decreases |tokens| - pos, 3
    {
      hide Bind, Binary, Skip, Parse, Climb;
      var right: Val;
      if left.Text? {
        if left.s != "" {
          SkipOperand(next);
          return true, left;
        }
        ok, v := DParse(next);
        return;
      }
      if sem.asBool(left) {
        SkipOperand(next);
        return true, Truth(true);
      }
      ok, right := DParse(next);
      v := Truth(sem.asBool(right));
    }

    /** The operand the next token begins. */
    method FirstOperand() returns (ok: bool, left: Val)
      requires Valid() && pos + 1 < |tokens|
      modifies this
      ensures (if ok then Done(left, pos) else Panic) == Operand(Input(), old(pos))
      ensures ok ==> Valid()
      decreases |tokens| - pos, 1
    {
      hide Binary, Skip, Settles, Apply, Parse, Climb, Bind;
      var _ := Next();
      match tokens[pos] {
        case Literal(v) => return true, v;
        case LParen =>
          ok, left := Grouping();
        case Eof => return true, Nil;
        case Op(o) =>
          if Bind(o).None? {
            return o != BitOr, Nil;
          }
          ok, left := Prefixed(o);
        case _ => return false, Nil;
      }
    }

    /** A prefix operator and the operand it binds. */
    method Prefixed(o: Oper) returns (ok: bool, left: Val)
      requires Valid() && 0 <= pos < |tokens| && Bind(o).Some?
      modifies this
      ensures match Parse(Input(), old(pos), Bind(o).value)
        case Panic => !ok
        case Done(v, q) => ok && left == sem.prefix(o, v) && pos == q
      ensures ok ==> Valid()
      decreases |tokens| - pos, 3
    {
      hide Binary, Skip, Settles, Apply, Parse, Climb, Bind;
      var right: Val;
      ok, right := DParse(Bind(o).value);
      left := sem.prefix(o, right);
    }

    /** An expression in parentheses, and whatever one token follows it. */
    method Grouping() returns (ok: bool, left: Val)
      requires Valid() && 0 <= pos < |tokens|
      modifies this
      ensures match Parse(Input(), old(pos), 0)
        case Panic => !ok
        case Done(v, q) => ok == (q + 1 < |tokens|) && (ok ==> left == v && pos == q + 1)
      ensures ok ==> Valid()
      decreases |tokens| - pos, 3
    {
      hide Binary, Skip, Settles, Apply, Parse, Climb;
      ok, left := DParse(0);
      if !ok || pos >= |tokens| {
        return false, left;
      }
      ok := Next();
    }
  }

  /** What combining a left operand with what follows the operator at pos must come to. */
  ghost predicate Combined(e: Env, pos: int, o: Oper, left: Val, r: Parsed)
    requires -1 <= pos < |e.toks|
  {
    match Settles(e.sem, o, left)
    case Some(v) => r == Done(v, Skip(e, pos, NextLevel(e, o), 0))
    case None =>
      match Parse(e, pos, NextLevel(e, o))
      case Panic => r == Panic
      case Done(right, q) => r == Done(Apply(e.sem, o, left, right), q)
  }

  /** A literal alone is parsed to its own value, so the shortcut for it cannot be seen. */
  lemma LiteralAlone(e: Env, v: Val)
    requires e.toks == [Literal(v)]
    ensures Parse(e, -1, 0) == Done(v, 0)
  {
    hide Parse, Climb;
    PrattTrees.ParseLeaf(e, -1, 0, v);
    PrattTrees.ClimbStops(e, 0, 0, v);
  }

  lemma AndOperator(sem: Sem, left: Val)
    ensures Settles(sem, LogicAnd, left) == if sem.asBool(left) then None else Some(Truth(false))
    ensures forall right :: Apply(sem, LogicAnd, left, right) == Truth(sem.asBool(right))
  {
  }

  lemma OrOperator(sem: Sem, o: Oper, left: Val)
    requires o == LogicOr || o == WordOr
    ensures Settles(sem, o, left) == OrSettles(sem, left)
    ensures forall right :: Apply(sem, o, left, right) == if left.Text? then right else Truth(sem.asBool(right))
  {
  }

  lemma PlainOperator(sem: Sem, o: Oper, left: Val)
    requires o != LogicAnd && o != LogicOr && o != WordOr
    ensures Settles(sem, o, left) == None
    ensures forall right :: Apply(sem, o, left, right) == sem.binary(o, left, right)
  {
  }
}

/**
  Where the phrases of a flattened program are, stated one statement at a time, and what a
  lookahead scan does when it meets a whole flattened block: it passes over it.
 */
module Layout {
  import opened Phrases
  import opened Structured

  function Len(s: Stmt): nat
    decreases s
  {
    match s
    case Skip => 0
    case Seq(a, b) => Len(a) + Len(b)
    case Act(_, _) => 1
    case If(_, _, thn, tail) => 1 + Len(thn) + LenTail(tail)
    case While(_, _, body) => Len(body) + 2
    case For(_, _, _, _, _, body) => Len(body) + 2
    case Foreach(_, _, _, body) => Len(body) + 2
    case Case(_, _, cls) => 1 + LenClauses(cls)
    case Break(_, _) => 1
    case Continue(_, _) => 1
    case Return(_, _) => 1
  }
  function LenTail(t: Tail): (n: nat)
    ensures n > 0
    decreases t
  {
    match t
    case EndIf => 1
    case ElseBlock(els) => Len(els) + 2
    case ElseIf(_, _, thn, tail) => 1 + Len(thn) + LenTail(tail)
  }
  function LenClauses(cls: Clauses): (n: nat)
    ensures n > 0
    decreases cls
  {
    match cls
    case EndCase => 1
    case Clause(_, _, body, rest) => 1 + Len(body) + LenClauses(rest)
  }

  ghost predicate PhraseAt(prog: seq<Phrase>, i: int, p: Phrase) {
    0 <= i < |prog| && prog[i] == p
  }

  ghost predicate StmtAt(prog: seq<Phrase>, i: int, s: Stmt)
    decreases s, 0
  {
    0 <= i && i + Len(s) <= |prog| &&
    match s
    case Skip => true
    case Seq(a, b) => StmtAt(prog, i, a) && StmtAt(prog, i + Len(a), b)
    case Act(run, w) => PhraseAt(prog, i, PAct(run, w))
    case If(c, w, thn, tail) =>
      PhraseAt(prog, i, PIf(c, w)) && StmtAt(prog, i + 1, thn) && TailAt(prog, i + 1 + Len(thn), tail)
    case While(c, w, body) => PhraseAt(prog, i, PWhile(c, w)) && LoopAt(prog, i, body, PEndwhile(Keyword(KEndwhile)))
    case For(v, a, b, d, w, body) =>
      PhraseAt(prog, i, PFor(v, a, b, d, w)) && LoopAt(prog, i, body, PEndfor(Keyword(KEndfor)))
    case Foreach(v, l, w, body) =>
      PhraseAt(prog, i, PForeach(v, l, w)) && LoopAt(prog, i, body, PEndfor(Keyword(KEndfor)))
    case Case(e, w, cls) => PhraseAt(prog, i, PCase(e, w)) && ClausesAt(prog, i + 1, cls)
    case Break(g, w) => PhraseAt(prog, i, PBreak(g, w))
    case Continue(g, w) => PhraseAt(prog, i, PContinue(g, w))
    case Return(ret, w) => PhraseAt(prog, i, PReturn(ret, w))
  }

  /** The body of the loop opened at line i, and its closer. */
  ghost predicate LoopAt(prog: seq<Phrase>, i: int, body: Stmt, close: Phrase)
    decreases body, 1
  {
    StmtAt(prog, i + 1, body) && PhraseAt(prog, i + 1 + Len(body), close)
  }

  ghost predicate TailAt(prog: seq<Phrase>, i: int, t: Tail)
    decreases t
  {
    0 <= i && i + LenTail(t) <= |prog| &&
    match t
    case EndIf => PhraseAt(prog, i, PEndif(Keyword(KEndif)))
    case ElseBlock(els) => PhraseAt(prog, i, PElse(Keyword(KElse))) && LoopAt(prog, i, els, PEndif(Keyword(KEndif)))
    case ElseIf(c, w, thn, tail) =>
      PhraseAt(prog, i, PElseIf(c, w)) && StmtAt(prog, i + 1, thn) && TailAt(prog, i + 1 + Len(thn), tail)
  }

  ghost predicate ClausesAt(prog: seq<Phrase>, i: int, cls: Clauses)
    decreases cls
  {
    0 <= i && i + LenClauses(cls) <= |prog| &&
    match cls
    case EndCase => PhraseAt(prog, i, PEndcase(Keyword(KEndcase)))
    case Clause(g, w, body, rest) =>
      PhraseAt(prog, i, PClause(g, w)) && StmtAt(prog, i + 1, body) && ClausesAt(prog, i + 1 + Len(body), rest)
  }

  /** One level of Len. */
  lemma LenParts(s: Stmt)
    ensures match s
      case Skip => Len(s) == 0
      case Seq(a, b) => Len(s) == Len(a) + Len(b)
      case If(_, _, thn, tail) => Len(s) == 1 + Len(thn) + LenTail(tail)
      case While(_, _, body) => Len(s) == Len(body) + 2
      case For(_, _, _, _, _, body) => Len(s) == Len(body) + 2
      case Foreach(_, _, _, body) => Len(s) == Len(body) + 2
      case Case(_, _, cls) => Len(s) == 1 + LenClauses(cls)
      case _ => Len(s) == 1
  {
  }

  /** One level of StmtAt, so that proofs can leave the rest folded. */
  lemma StmtParts(prog: seq<Phrase>, i: int, s: Stmt)
    ensures StmtAt(prog, i, s) <==>
      && 0 <= i && i + Len(s) <= |prog|
      && match s
         case Skip => true
         case Seq(a, b) => StmtAt(prog, i, a) && StmtAt(prog, i + Len(a), b)
         case Act(run, w) => PhraseAt(prog, i, PAct(run, w))
         case If(c, w, thn, tail) =>
           PhraseAt(prog, i, PIf(c, w)) && StmtAt(prog, i + 1, thn) && TailAt(prog, i + 1 + Len(thn), tail)
         case While(c, w, body) =>
           PhraseAt(prog, i, PWhile(c, w)) && LoopAt(prog, i, body, PEndwhile(Keyword(KEndwhile)))
         case For(v, a, b, d, w, body) =>
           PhraseAt(prog, i, PFor(v, a, b, d, w)) && LoopAt(prog, i, body, PEndfor(Keyword(KEndfor)))
         case Foreach(v, l, w, body) =>
           PhraseAt(prog, i, PForeach(v, l, w)) && LoopAt(prog, i, body, PEndfor(Keyword(KEndfor)))
         case Case(e, w, cls) => PhraseAt(prog, i, PCase(e, w)) && ClausesAt(prog, i + 1, cls)
         case Break(g, w) => PhraseAt(prog, i, PBreak(g, w))
         case Continue(g, w) => PhraseAt(prog, i, PContinue(g, w))
         case Return(ret, w) => PhraseAt(prog, i, PReturn(ret, w))
    ensures StmtAt(prog, i, s) ==> 0 <= i && i + Len(s) <= |prog|
  {
  }

  /** One level of LenTail. */
  lemma LenTailParts(t: Tail)
    ensures match t
      case EndIf => LenTail(t) == 1
      case ElseBlock(els) => LenTail(t) == Len(els) + 2
      case ElseIf(_, _, thn, tail) => LenTail(t) == 1 + Len(thn) + LenTail(tail)
  {
  }

  lemma LoopParts(prog: seq<Phrase>, i: int, body: Stmt, close: Phrase)
    requires LoopAt(prog, i, body, close)
    ensures StmtAt(prog, i + 1, body) && PhraseAt(prog, i + 1 + Len(body), close)
  {
    hide StmtAt, Len, PhraseAt;
  }

  /** One level of TailAt. */
  lemma TailParts(prog: seq<Phrase>, i: int, t: Tail)
    ensures TailAt(prog, i, t) <==>
      && 0 <= i && i + LenTail(t) <= |prog|
      && match t
         case EndIf => PhraseAt(prog, i, PEndif(Keyword(KEndif)))
         case ElseBlock(els) =>
           PhraseAt(prog, i, PElse(Keyword(KElse))) && LoopAt(prog, i, els, PEndif(Keyword(KEndif)))
         case ElseIf(c, w, thn, tail) =>
           PhraseAt(prog, i, PElseIf(c, w)) && StmtAt(prog, i + 1, thn) && TailAt(prog, i + 1 + Len(thn), tail)
    ensures TailAt(prog, i, t) ==> 0 <= i && i + LenTail(t) <= |prog|
  {
    hide StmtAt, LoopAt, ClausesAt, Len, LenTail, Keyword;
  }

  /** One level of LenClauses. */
  lemma LenClausesParts(cls: Clauses)
    ensures match cls
      case EndCase => LenClauses(cls) == 1
      case Clause(_, _, body, rest) => LenClauses(cls) == 1 + Len(body) + LenClauses(rest)
  {
  }

  /** One level of ClausesAt. */
  lemma ClausesParts(prog: seq<Phrase>, i: int, cls: Clauses)
    ensures ClausesAt(prog, i, cls) <==>
      && 0 <= i && i + LenClauses(cls) <= |prog|
      && match cls
         case EndCase => PhraseAt(prog, i, PEndcase(Keyword(KEndcase)))
         case Clause(g, w, body, rest) =>
           PhraseAt(prog, i, PClause(g, w)) && StmtAt(prog, i + 1, body) && ClausesAt(prog, i + 1 + Len(body), rest)
    ensures ClausesAt(prog, i, cls) ==> 0 <= i && i + LenClauses(cls) <= |prog|
  {
  }

  ghost predicate Passes(q: Search, indent: int) {
    indent >= q.endlevel &&
    match q.family
    case Ifs => q.term == KElse || (q.term == KEndif && indent > q.endlevel)
    case Whiles => q.term == KEndwhile && indent > q.endlevel
    case Fors => q.term == KEndfor && indent > q.endlevel
    case Cases =>
      q.term == KIs || q.term == KHas || q.term == KContains || q.term == KOr
      || (q.term == KEndcase && indent > q.endlevel)
  }

  /** One phrase the scan does not stop at. */
  lemma ScanPast(prog: seq<Phrase>, i: nat, indent: int, q: Search)
    requires i < |prog|
    requires var d := indent + q.family.Delta(prog[i].Kind());
      d > q.endlevel || (d == q.endlevel && prog[i].Kind() != q.term)
    ensures Scan(prog, i, indent, q) == Scan(prog, i + 1, indent + q.family.Delta(prog[i].Kind()), q)
  {
  }

  /** A phrase the scan stops at. */
  lemma ScanHere(prog: seq<Phrase>, i: nat, indent: int, q: Search)
    requires i < |prog|
    ensures var d := indent + q.family.Delta(prog[i].Kind());
      && (d < q.endlevel ==> Scan(prog, i, indent, q) == Dedent(i))
      && (d == q.endlevel && prog[i].Kind() == q.term ==> Scan(prog, i, indent, q) == At(i))
  {
  }

  lemma {:induction false} SkipStmt(prog: seq<Phrase>, i: nat, s: Stmt, indent: int, q: Search)
    requires StmtAt(prog, i, s) && Passes(q, indent)
    ensures Scan(prog, i, indent, q) == Scan(prog, i + Len(s), indent, q)
    decreases s, 2
  {
    hide Scan, Phrase.Kind, Family.Delta, Passes, StmtAt, TailAt, ClausesAt, Len, LenTail, LenClauses;
    LenParts(s);
    StmtParts(prog, i, s);
    match s
    case Skip =>
    case Seq(a, b) =>
      SkipStmt(prog, i, a, indent, q);
      SkipStmt(prog, i + Len(a), b, indent, q);
    case If(c, w, thn, tail) =>
      SkipIf(prog, i, s, indent, q);
    case While(c, w, body) =>
      SkipLoop(prog, i, body, indent, q);
    case For(v, a, b, d, w, body) =>
      SkipLoop(prog, i, body, indent, q);
    case Foreach(v, l, w, body) =>
      SkipLoop(prog, i, body, indent, q);
    case Case(e, w, cls) =>
      SkipCase(prog, i, cls, indent, q);
    case _ =>
      SkipPlain(prog, i, indent, q);
  }

  /** A phrase that neither opens nor closes anything. */
  lemma SkipPlain(prog: seq<Phrase>, i: nat, indent: int, q: Search)
    requires i < |prog| && (prog[i].PAct? || prog[i].PBreak? || prog[i].PContinue? || prog[i].PReturn?) && Passes(q,
        indent)
    ensures Scan(prog, i, indent, q) == Scan(prog, i + 1, indent, q)
  {
    hide Scan;
    ScanPast(prog, i, indent, q);
  }

  lemma {:induction false} SkipIf(prog: seq<Phrase>, i: nat, s: Stmt, indent: int, q: Search)
    requires i < |prog| && prog[i].PIf? && s.If? && Passes(q, indent)
    requires StmtAt(prog, i + 1, s.thn) && TailAt(prog, i + 1 + Len(s.thn), s.tail)
    ensures Scan(prog, i, indent, q) == Scan(prog, i + 1 + Len(s.thn) + LenTail(s.tail), indent, q)
    decreases s, 1
  {
    hide Scan, StmtAt, TailAt, Len, LenTail;
    ScanPast(prog, i, indent, q);
    SkipStmt(prog, i + 1, s.thn, indent + q.family.Delta(KIf), q);
    SkipTail(prog, i + 1 + Len(s.thn), s.tail, indent, q);
  }

  lemma {:induction false} SkipCase(prog: seq<Phrase>, i: nat, cls: Clauses, indent: int, q: Search)
    requires i < |prog| && prog[i].PCase? && Passes(q, indent)
    requires ClausesAt(prog, i + 1, cls)
    ensures Scan(prog, i, indent, q) == Scan(prog, i + 1 + LenClauses(cls), indent, q)
    decreases cls, 1
  {
    hide Scan, ClausesAt, LenClauses;
    ScanPast(prog, i, indent, q);
    SkipClauses(prog, i + 1, cls, indent, q);
  }

  /** A loop: an opener, a body and its closer. */
  lemma {:induction false} SkipLoop(prog: seq<Phrase>, i: nat, body: Stmt, indent: int, q: Search)
    requires i + Len(body) + 2 <= |prog| && StmtAt(prog, i + 1, body) && Passes(q, indent)
    requires var open, close := prog[i], prog[i + 1 + Len(body)];
      (open.PWhile? && close.PEndwhile?) || ((open.PFor? || open.PForeach?) && close.PEndfor?)
    ensures Scan(prog, i, indent, q) == Scan(prog, i + Len(body) + 2, indent, q)
    decreases body, 3
  {
    hide Scan, StmtAt, Len;
    ScanPast(prog, i, indent, q);
    var inner := indent + q.family.Delta(prog[i].Kind());
    SkipStmt(prog, i + 1, body, inner, q);
    ScanPast(prog, i + 1 + Len(body), inner, q);
  }

  lemma {:induction false} SkipTail(prog: seq<Phrase>, i: nat, t: Tail, indent: int, q: Search)
    requires TailAt(prog, i, t) && Passes(q, indent)
    ensures Scan(prog, i, indent + q.family.Delta(KIf), q) == Scan(prog, i + LenTail(t), indent, q)
    decreases t, 0
  {
    hide Scan, StmtAt, TailAt, Len, LenTail;
    LenTailParts(t);
    TailParts(prog, i, t);
    var inner := indent + q.family.Delta(KIf);
    ScanPast(prog, i, inner, q);
    match t
    case EndIf =>
    case ElseBlock(els) =>
      SkipStmt(prog, i + 1, els, inner, q);
      ScanPast(prog, i + 1 + Len(els), inner, q);
    case ElseIf(c, w, thn, tail) =>
      SkipStmt(prog, i + 1, thn, inner, q);
      SkipTail(prog, i + 1 + Len(thn), tail, indent, q);
  }

  lemma {:induction false} SkipClauses(prog: seq<Phrase>, i: nat, cls: Clauses, indent: int, q: Search)
    requires ClausesAt(prog, i, cls) && Passes(q, indent)
    ensures Scan(prog, i, indent + q.family.Delta(KCase), q) == Scan(prog, i + LenClauses(cls), indent, q)
    decreases cls, 0
  {
    hide Scan, StmtAt, ClausesAt, Len, LenClauses;
    LenClausesParts(cls);
    ClausesParts(prog, i, cls);
    var inner := indent + q.family.Delta(KCase);
    ScanPast(prog, i, inner, q);
    match cls
    case EndCase =>
    case Clause(g, w, body, rest) =>
      SkipStmt(prog, i + 1, body, inner, q);
      SkipClauses(prog, i + 1 + Len(body), rest, indent, q);
  }

  // ---------------------------------------------------------------- Layout and Flatten agree

  ghost predicate CodeAt(prog: seq<Phrase>, i: int, code: seq<Phrase>) {
    0 <= i && i + |code| <= |prog| && prog[i..i + |code|] == code
  }

  lemma CodeSplit(prog: seq<Phrase>, i: int, a: seq<Phrase>, b: seq<Phrase>)
    ensures CodeAt(prog, i, a + b) <==> CodeAt(prog, i, a) && CodeAt(prog, i + |a|, b)
  {
    if CodeAt(prog, i, a + b) {
      var whole := prog[i..i + |a + b|];
      assert whole[..|a|] == a && whole[|a|..] == b;
      assert prog[i..i + |a|] == whole[..|a|];
      assert prog[i + |a|..i + |a| + |b|] == whole[|a|..];
    }
    if CodeAt(prog, i, a) && CodeAt(prog, i + |a|, b) {
      assert prog[i..i + |a + b|] == prog[i..i + |a|] + prog[i + |a|..i + |a| + |b|];
    }
  }

  lemma CodeOne(prog: seq<Phrase>, i: int, p: Phrase)
    ensures CodeAt(prog, i, [p]) <==> PhraseAt(prog, i, p)
  {
    if 0 <= i < |prog| {
      assert prog[i..i + 1] == [prog[i]];
    }
  }

  lemma CodeHead(prog: seq<Phrase>, i: int, p: Phrase, rest: seq<Phrase>)
    ensures CodeAt(prog, i, [p] + rest) <==> PhraseAt(prog, i, p) && CodeAt(prog, i + 1, rest)
  {
    CodeSplit(prog, i, [p], rest);
    CodeOne(prog, i, p);
  }

  lemma CodeBlock(prog: seq<Phrase>, i: int, p: Phrase, body: seq<Phrase>, q: Phrase)
    ensures CodeAt(prog, i, [p] + (body + [q])) <==>
            PhraseAt(prog, i, p) && CodeAt(prog, i + 1, body) && PhraseAt(prog, i + 1 + |body|, q)
  {
    CodeHead(prog, i, p, body + [q]);
    CodeSplit(prog, i + 1, body, [q]);
    CodeOne(prog, i + 1 + |body|, q);
  }

  /** Flatten puts the statement's phrases exactly where StmtAt looks for them. */
  lemma {:induction false} FlattenLaidOut(prog: seq<Phrase>, i: int, s: Stmt)
    ensures |Flatten(s)| == Len(s)
    ensures StmtAt(prog, i, s) <==> CodeAt(prog, i, Flatten(s))
    decreases s
  {
    hide CodeAt, PhraseAt, StmtAt, TailAt, ClausesAt, Len, LenTail, LenClauses;
    CodeBounds(prog, i, Flatten(s));
    LenParts(s);
    StmtParts(prog, i, s);
    match s
    case Skip =>
      CodeNone(prog, i);
    case Seq(a, b) =>
      FlattenLaidOut(prog, i, a);
      FlattenLaidOut(prog, i + Len(a), b);
      CodeSplit(prog, i, Flatten(a), Flatten(b));
    case Act(run, w) =>
      CodeOne(prog, i, PAct(run, w));
    case If(c, w, thn, tail) =>
      FlattenLaidOut(prog, i + 1, thn);
      TailLaidOut(prog, i + 1 + Len(thn), tail);
      CodeHead(prog, i, PIf(c, w), Flatten(thn) + FlattenTail(tail));
      CodeSplit(prog, i + 1, Flatten(thn), FlattenTail(tail));
    case While(c, w, body) =>
      FlattenLaidOut(prog, i + 1, body);
      CodeBlock(prog, i, PWhile(c, w), Flatten(body), PEndwhile(Keyword(KEndwhile)));
    case For(v, a, b, d, w, body) =>
      FlattenLaidOut(prog, i + 1, body);
      CodeBlock(prog, i, PFor(v, a, b, d, w), Flatten(body), PEndfor(Keyword(KEndfor)));
    case Foreach(v, l, w, body) =>
      FlattenLaidOut(prog, i + 1, body);
      CodeBlock(prog, i, PForeach(v, l, w), Flatten(body), PEndfor(Keyword(KEndfor)));
    case Case(e, w, cls) =>
      ClausesLaidOut(prog, i + 1, cls);
      CodeHead(prog, i, PCase(e, w), FlattenClauses(cls));
    case Break(g, w) =>
      CodeOne(prog, i, PBreak(g, w));
    case Continue(g, w) =>
      CodeOne(prog, i, PContinue(g, w));
    case Return(ret, w) =>
      CodeOne(prog, i, PReturn(ret, w));
  }

  lemma CodeBounds(prog: seq<Phrase>, i: int, code: seq<Phrase>)
    ensures CodeAt(prog, i, code) ==> 0 <= i && i + |code| <= |prog|
  {
  }

  lemma CodeNone(prog: seq<Phrase>, i: int)
    ensures CodeAt(prog, i, []) <==> 0 <= i <= |prog|
  {
  }

  lemma {:induction false} TailLaidOut(prog: seq<Phrase>, i: int, t: Tail)
    ensures |FlattenTail(t)| == LenTail(t)
    ensures TailAt(prog, i, t) <==> CodeAt(prog, i, FlattenTail(t))
    decreases t
  {
    hide CodeAt, PhraseAt, StmtAt, TailAt, Len, LenTail;
    CodeBounds(prog, i, FlattenTail(t));
    LenTailParts(t);
    TailParts(prog, i, t);
    match t
    case EndIf =>
      CodeOne(prog, i, PEndif(Keyword(KEndif)));
    case ElseBlock(els) =>
      FlattenLaidOut(prog, i + 1, els);
      CodeBlock(prog, i, PElse(Keyword(KElse)), Flatten(els), PEndif(Keyword(KEndif)));
    case ElseIf(c, w, thn, tail) =>
      FlattenLaidOut(prog, i + 1, thn);
      TailLaidOut(prog, i + 1 + Len(thn), tail);
      CodeHead(prog, i, PElseIf(c, w), Flatten(thn) + FlattenTail(tail));
      CodeSplit(prog, i + 1, Flatten(thn), FlattenTail(tail));
  }

  lemma {:induction false} ClausesLaidOut(prog: seq<Phrase>, i: int, cls: Clauses)
    ensures |FlattenClauses(cls)| == LenClauses(cls)
    ensures ClausesAt(prog, i, cls) <==> CodeAt(prog, i, FlattenClauses(cls))
    decreases cls
  {
    hide CodeAt, PhraseAt, StmtAt, ClausesAt, Len, LenClauses;
    CodeBounds(prog, i, FlattenClauses(cls));
    LenClausesParts(cls);
    ClausesParts(prog, i, cls);
    match cls
    case EndCase =>
      CodeOne(prog, i, PEndcase(Keyword(KEndcase)));
    case Clause(g, w, body, rest) =>
      FlattenLaidOut(prog, i + 1, body);
      ClausesLaidOut(prog, i + 1 + Len(body), rest);
      CodeHead(prog, i, PClause(g, w), Flatten(body) + FlattenClauses(rest));
      CodeSplit(prog, i + 1, Flatten(body), FlattenClauses(rest));
  }
}

/**
  Phrases of a Za function body, and the two scans the interpreter makes over them:
  `lookahead`, which finds the closer of a block, and `searchToken`, which decides whether
  a FOR body can see its own counter.
 */
module Phrases {

  datatype Option<+T> = None | Some(value: T)

  datatype Value =
    | IntV(i: int)
    | BoolV(b: bool)
    | StrV(s: string)
    | ListV(items: seq<Value>)

  /** Local variables of one call. */
  type Store = map<string, Value>

  // Expressions are total functions of the store; None is an evaluation fault.
  type Action = Store -> Option<Store>
  type Cond = Store -> Option<bool>
  type IntExpr = Store -> Option<int>
  type ListExpr = Store -> Option<seq<Value>>
  type ValueExpr = Store -> Option<Value>
  /** A CONTAINS test: is the text matched by this clause's pattern found in the CASE value? */
  type MatchExpr = (Value, Store) -> Option<bool>

  /** What RETURN gives back: values, values if a condition holds, or a call of the function to itself. */
  datatype Ret = Values(list: ListExpr) | ValuesIf(cond: Cond, list: ListExpr) | CallSelf(args: ListExpr)

  /** How a RETURN leaves the function: with an answer, or to start over with new arguments. */
  datatype Exit = Answer(vals: seq<Value>) | Again(vals: seq<Value>)

  /** The exit a RETURN takes, if it takes one; None is an evaluation fault. */
  function ExitOf(ret: Ret, store: Store): Option<Option<Exit>> {
    match ret
    case Values(list) => (match list(store) case None => None case Some(vals) => Some(Some(Answer(vals))))
    case CallSelf(args) => (match args(store) case None => None case Some(vals) => Some(Some(Again(vals))))
    case ValuesIf(cond, list) =>
      match cond(store)
      case None => None
      case Some(false) => Some(None)
      case Some(true) => match list(store) case None => None case Some(vals) => Some(Some(Answer(vals)))
  }

  /** A token as `searchToken` sees it. */
  datatype Word = Word(isIdentifier: bool, text: string)

  datatype Kind =
    | KAct | KIf | KElse | KEndif | KWhile | KEndwhile | KFor | KForeach | KEndfor
    | KCase | KIs | KHas | KContains | KOr | KEndcase | KBreak | KContinue | KReturn

  /** The guard of one CASE clause. */
  datatype Guard = Is(expr: ValueExpr) | Has(cond: Cond) | Contains(pattern: MatchExpr) | Or

  datatype Phrase =
    | PAct(run: Action, words: seq<Word>)
    | PIf(cond: Cond, words: seq<Word>)
    | PElse(words: seq<Word>)
    | PElseIf(cond: Cond, words: seq<Word>)
    | PEndif(words: seq<Word>)
    | PWhile(cond: Cond, words: seq<Word>)
    | PEndwhile(words: seq<Word>)
    | PFor(v: string, start: IntExpr, end: IntExpr, step: IntExpr, words: seq<Word>)
    | PForeach(v: string, list: ListExpr, words: seq<Word>)
    | PEndfor(words: seq<Word>)
    | PCase(value: ValueExpr, words: seq<Word>)
    | PClause(guard: Guard, words: seq<Word>)
    | PEndcase(words: seq<Word>)
    | PBreak(unless: Option<Cond>, words: seq<Word>)
    | PContinue(unless: Option<Cond>, words: seq<Word>)
    | PReturn(ret: Ret, words: seq<Word>)
  {
    /** The type of the first token; ELSE and ELSE IF share theirs. */
    function Kind(): Kind {
      match this
      case PAct(_, _) => KAct
      case PIf(_, _) => KIf
      case PElse(_) => KElse
      case PElseIf(_, _) => KElse
      case PEndif(_) => KEndif
      case PWhile(_, _) => KWhile
      case PEndwhile(_) => KEndwhile
      case PFor(_, _, _, _, _) => KFor
      case PForeach(_, _, _) => KForeach
      case PEndfor(_) => KEndfor
      case PCase(_, _) => KCase
      case PClause(g, _) => (match g case Is(_) => KIs case Has(_) => KHas case Contains(_) => KContains case Or => KOr)
      case PEndcase(_) => KEndcase
      case PBreak(_, _) => KBreak
      case PContinue(_, _) => KContinue
      case PReturn(_, _) => KReturn
    }
  }

  // ---------------------------------------------------------------- lookahead

  /** The constructs whose openers and closers a scan counts. */
  datatype Family = Ifs | Whiles | Fors | Cases {
    function Indenters(): seq<Kind> {
      match this
      case Ifs => [KIf]
      case Whiles => [KWhile]
      case Fors => [KFor, KForeach]
      case Cases => [KCase]
    }

    function Dedenters(): seq<Kind> {
      match this
      case Ifs => [KEndif]
      case Whiles => [KEndwhile]
      case Fors => [KEndfor]
      case Cases => [KEndcase]
    }

    /** What a phrase of this kind adds to the nesting depth. */
    function Delta(k: Kind): int {
      match k
      case KIf => if Ifs? then 1 else 0
      case KEndif => if Ifs? then -1 else 0
      case KWhile => if Whiles? then 1 else 0
      case KEndwhile => if Whiles? then -1 else 0
      case KFor => if Fors? then 1 else 0
      case KForeach => if Fors? then 1 else 0
      case KEndfor => if Fors? then -1 else 0
      case KCase => if Cases? then 1 else 0
      case KEndcase => if Cases? then -1 else 0
      case _ => 0
    }

    /** Delta is what counting in the two lists gives. */
    lemma DeltaCounts(k: Kind)
      ensures Delta(k) == (if k in Indenters() then 1 else 0) - (if k in Dedenters() then 1 else 0)
    {
      match this {
        case Ifs =>
        case Whiles =>
        case Fors =>
        case Cases =>
      }
    }
  }

  /** What one scan looks for: a token type, at a nesting level of a family. */
  datatype Search = Search(endlevel: int, term: Kind, family: Family)

  datatype Found = At(line: nat) | Missing | Dedent(line: nat)

  /** The result of scanning forward from line i, as an absolute line. */
  function Scan(prog: seq<Phrase>, i: nat, indent: int, q: Search): (r: Found)
    requires i <= |prog|
    ensures r.At? ==> i <= r.line < |prog| && prog[r.line].Kind() == q.term
    decreases |prog| - i
  {
    if i == |prog| then Missing
    else
      var d := indent + q.family.Delta(prog[i].Kind());
      if d < q.endlevel then Dedent(i)
      else if d == q.endlevel && prog[i].Kind() == q.term then At(i)
      else Scan(prog, i + 1, d, q)
  }

  /** Nesting depth after the phrases of lines start..j inclusive. */
  function DepthAfter(prog: seq<Phrase>, start: nat, j: nat, indent: int, q: Search): int
    requires start <= j < |prog|
  {
    (if j == start then indent else DepthAfter(prog, start, j - 1, indent, q)) + q.family.Delta(prog[j].Kind())
  }

  /** Line j is over-dedented, or has the sought token type at the sought level. */
  ghost predicate Stops(prog: seq<Phrase>, start: nat, j: nat, indent: int, q: Search)
    requires start <= j < |prog|
  {
    var d := DepthAfter(prog, start, j, indent, q);
    d < q.endlevel || (d == q.endlevel && prog[j].Kind() == q.term)
  }

  /** Line j is the first one where the scan stops. */
  ghost predicate FirstStop(prog: seq<Phrase>, start: nat, j: nat, indent: int, q: Search) {
    && start <= j < |prog|
    && Stops(prog, start, j, indent, q)
    && forall k :: start <= k < j ==> !Stops(prog, start, k, indent, q)
  }

  lemma {:induction false} DepthAfterShift(prog: seq<Phrase>, start: nat, j: nat, indent: int, q: Search)
    requires start < j < |prog|
    ensures DepthAfter(prog, start, j, indent, q)
         == DepthAfter(prog, start + 1, j, indent + q.family.Delta(prog[start].Kind()), q)
  {
    if j > start + 1 {
      DepthAfterShift(prog, start, j - 1, indent, q);
    }
  }

  /**
    What lookahead finds, said without the scan: the first line whose running depth is below
    the target (over-dedent), or which has the sought kind at exactly the target depth. The
    three cases exclude each other, so each answer is given exactly when its case holds.
   */
  lemma {:induction false} ScanFindsFirst(prog: seq<Phrase>, start: nat, indent: int, q: Search)
    requires start <= |prog|
    ensures match Scan(prog, start, indent, q)
      case Missing => forall j :: start <= j < |prog| ==> !Stops(prog, start, j, indent, q)
      case At(j) =>
        && FirstStop(prog, start, j, indent, q)
        && DepthAfter(prog, start, j, indent, q) == q.endlevel
        && prog[j].Kind() == q.term
      case Dedent(j) =>
        && FirstStop(prog, start, j, indent, q)
        && DepthAfter(prog, start, j, indent, q) < q.endlevel
    decreases |prog| - start
  {
    if start < |prog| {
      var d := indent + q.family.Delta(prog[start].Kind());
      assert DepthAfter(prog, start, start, indent, q) == d;
      if !Stops(prog, start, start, indent, q) {
        ScanFindsFirst(prog, start + 1, d, q);
        forall j | start < j < |prog|
          ensures DepthAfter(prog, start, j, indent, q) == DepthAfter(prog, start + 1, j, d, q)
          ensures Stops(prog, start, j, indent, q) == Stops(prog, start + 1, j, d, q)
        {
          DepthAfterShift(prog, start, j, indent, q);
        }
      }
    }
  }

  /** The source's linear search in a list of token types. */
  method InSlice(a: Kind, list: seq<Kind>) returns (found: bool)
    ensures found <==> a in list
  {
    for k := 0 to |list|
      invariant a !in list[..k]
    {
      if list[k] == a {
        return true;
      }
    }
    return false;
  }

  /** (found, distance from startLine, over-dedented) */
  method Lookahead(prog: seq<Phrase>, startLine: nat, indent: int, q: Search) returns (found: bool, distance: int,
      fault: bool)
    requires startLine <= |prog|
    ensures match Scan(prog, startLine, indent, q)
      case At(j) => found && !fault && startLine <= j < |prog| && distance == j - startLine
      case Missing => !found && !fault && distance == -1
      case Dedent(_) => !found && fault && distance == 0
  {
    var level := indent;
    for i := startLine to |prog|
      invariant Scan(prog, i, level, q) == Scan(prog, startLine, indent, q)
    {
      q.family.DeltaCounts(prog[i].Kind());
      var opens := InSlice(prog[i].Kind(), q.family.Indenters());
      if opens {
        level := level + 1;
      }
      var closes := InSlice(prog[i].Kind(), q.family.Dedenters());
      if closes {
        level := level - 1;
      }
      if level < q.endlevel {
        return false, 0, true;
      }
      if level == q.endlevel && prog[i].Kind() == q.term {
        return true, i - startLine, false;
      }
    }
    return false, -1, false;
  }

  // ---------------------------------------------------------------- searchToken

  predicate TextContains(hay: string, needle: string) {
    exists i :: 0 <= i <= |hay| && needle <= hay[i..]
  }

  /** One token that makes searchToken answer yes. */
  predicate WordMentions(w: Word, name: string) {
    || (w.isIdentifier && w.text == name)
    || TextContains(w.text, name)
    || TextContains(w.text, "{{")
  }

  predicate WordsMention(words: seq<Word>, name: string) {
    name != "" && exists k :: 0 <= k < |words| && WordMentions(words[k], name)
  }

  predicate Mentions(code: seq<Phrase>, name: string) {
    exists i :: 0 <= i < |code| && WordsMention(code[i].words, name)
  }

  method SearchToken(prog: seq<Phrase>, start: nat, end: nat, name: string) returns (found: bool)
    requires start <= end <= |prog|
    ensures found <==> Mentions(prog[start..end], name)
    ensures found <==> name != "" && MayBeUsed(prog, start, end, name)
  {
    SearchMeans(prog, start, end, name);
    if name == "" {
      return false;
    }
    var code := prog[start..end];
    for i := 0 to |code|
      invariant forall k :: 0 <= k < i ==> !WordsMention(code[k].words, name)
    {
      var words := code[i].words;
      for r := 0 to |words|
        invariant forall k :: 0 <= k < r ==> !WordMentions(words[k], name)
      {
        if WordMentions(words[r], name) {
          assert WordsMention(words, name);
          return true;
        }
      }
    }
    return false;
  }

  lemma MentionsConcat(a: seq<Phrase>, b: seq<Phrase>, name: string)
    ensures Mentions(a + b, name) <==> Mentions(a, name) || Mentions(b, name)
  {
    if Mentions(a, name) {
      var i :| 0 <= i < |a| && WordsMention(a[i].words, name);
      assert (a + b)[i] == a[i];
    }
    if Mentions(b, name) {
      var i :| 0 <= i < |b| && WordsMention(b[i].words, name);
      assert (a + b)[|a| + i] == b[i];
    }
  }

  /** needle stands somewhere in hay. */
  ghost predicate Occurs(hay: string, needle: string) {
    exists before: string, after: string :: hay == before + needle + after
  }

  lemma ContainsMeans(hay: string, needle: string)
    ensures TextContains(hay, needle) <==> Occurs(hay, needle)
  {
    if i :| 0 <= i <= |hay| && needle <= hay[i..] {
      assert hay == hay[..i] + needle + hay[i + |needle|..];
    }
    if before: string, after: string :| hay == before + needle + after {
      assert needle <= hay[|before|..];
    }
  }

  /** The word is the name, or has it in it, or could be a text into which it is interpolated. */
  ghost predicate MayUse(w: Word, name: string) {
    (w.isIdentifier && w.text == name) || Occurs(w.text, name) || Occurs(w.text, "{{")
  }

  ghost predicate MayBeUsed(code: seq<Phrase>, start: nat, end: nat, name: string)
    requires start <= end <= |code|
  {
    exists i, k :: start <= i < end && 0 <= k < |code[i].words| && MayUse(code[i].words[k], name)
  }

  /** The search answers yes exactly when some word of the code may use the name. */
  lemma MentionsMeans(code: seq<Phrase>, name: string)
    ensures Mentions(code, name) <==> name != "" && MayBeUsed(code, 0, |code|, name)
  {
    hide TextContains, Occurs;
    forall i, k | 0 <= i < |code| && 0 <= k < |code[i].words|
      ensures WordMentions(code[i].words[k], name) <==> MayUse(code[i].words[k], name)
    {
      ContainsMeans(code[i].words[k].text, name);
      ContainsMeans(code[i].words[k].text, "{{");
    }
  }

  lemma SearchMeans(prog: seq<Phrase>, start: nat, end: nat, name: string)
    requires start <= end <= |prog|
    ensures Mentions(prog[start..end], name) <==> name != "" && MayBeUsed(prog, start, end, name)
  {
    hide Mentions, MayUse;
    var code := prog[start..end];
    MentionsMeans(code, name);
    if i, k :| 0 <= i < |code| && 0 <= k < |code[i].words| && MayUse(code[i].words[k], name) {
      assert code[i] == prog[start + i];
    }
    if i, k :| start <= i < end && 0 <= k < |prog[i].words| && MayUse(prog[i].words[k], name) {
      assert code[i - start] == prog[i];
    }
  }
}

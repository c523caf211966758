/** What the parser answers, told from the tokens alone.

    The two counters can be kept without any lists, and with the balance of the brackets they give the
    number of open lists.  Whether an input is accepted, and if not with which error it stops, follows
    from the neighbours of each token and from that number. */
module ConditionVerdict {
  import opened ConditionLogic
  import opened ConditionGrouping

  datatype Counters = Counters(nestAnd: nat, nestNestAnd: nat)

  function CountStep(c: Counters, tok: Token): Counters {
    match tok
    case Open => if c.nestAnd > 0 then Counters(c.nestAnd, c.nestNestAnd + 1) else c
    case Close =>
      if c.nestAnd > 0 && c.nestNestAnd > 0 && c.nestAnd == c.nestNestAnd
      then Counters(c.nestAnd - 1, c.nestNestAnd - 1) else c
    case Cond(_) => if c.nestAnd > c.nestNestAnd then Counters(c.nestAnd - 1, c.nestNestAnd) else c
    case Bool(op) => if op.And? then Counters(c.nestAnd + 1, c.nestNestAnd) else c
    case Junk => c
  }

  function Count(toks: seq<Token>): Counters {
    if toks == [] then Counters(0, 0) else CountStep(Count(toks[..|toks| - 1]), toks[|toks| - 1])
  }

  /** The lists open in front of token `k`. */
  function Lists(toks: seq<Token>, k: nat): int
    requires k <= |toks|
  {
    1 + Balance(toks[..k]) + Count(toks[..k]).nestAnd
  }

  /** An operand or an opening bracket comes first, and after a connective or an opening bracket. */
  predicate OperandAt(toks: seq<Token>, k: nat)
    requires k <= |toks|
  {
    k == 0 || toks[k - 1].Open? || toks[k - 1].Bool?
  }

  predicate InPlace(toks: seq<Token>, k: nat)
    requires k < |toks|
  {
    match toks[k]
    case Open => OperandAt(toks, k)
    case Cond(_) => OperandAt(toks, k)
    case Close => !OperandAt(toks, k)
    case Bool(_) => !OperandAt(toks, k) && k + 1 < |toks|
    case Junk => false
  }

  predicate KnownNumber(tok: Token, numCond: nat) {
    tok.Cond? ==> 0 < tok.num <= numCond
  }

  predicate Legal(toks: seq<Token>, k: nat, numCond: nat)
    requires k < |toks|
  {
    InPlace(toks, k) && KnownNumber(toks[k], numCond)
  }

  /** A closing bracket needs a list besides the root, every other token some list. */
  function Needed(tok: Token): int {
    if tok.Close? then 2 else 1
  }

  predicate Fits(toks: seq<Token>, k: nat, numCond: nat)
    requires k < |toks|
  {
    Legal(toks, k, numCond) && Lists(toks, k) >= Needed(toks[k])
  }

  predicate AllFit(toks: seq<Token>, n: nat, numCond: nat)
    requires n <= |toks|
  {
    forall k | 0 <= k < n :: Fits(toks, k, numCond)
  }

  /** The error at the first token that does not fit. */
  function Complaint(toks: seq<Token>, k: nat, numCond: nat): Error
    requires k < |toks|
  {
    if !InPlace(toks, k) then InvalidLogic
    else if !KnownNumber(toks[k], numCond) then InvalidNumber
    else if Lists(toks, k) == 0 then IndexError
    else OpeningMissing
  }

  // ----- the parser keeps to the count -----

  /** The state behind the first `k` tokens, as far as the tokens tell it. */
  ghost predicate Tells(toks: seq<Token>, k: nat, st: State, numCond: nat)
    requires k <= |toks|
  {
    && Sane(st, numCond)
    && Height(st.stack) == Lists(toks, k) && st.operandNext == OperandAt(toks, k)
    && Counters(st.nestAnd, st.nestNestAnd) == Count(toks[..k])
  }

  /** One step, by the height of the stack. */
  lemma {:induction false} StepByHeight(st: State, tok: Token, hasNext: bool, numCond: nat)
    requires Sane(st, numCond)
    ensures var st' := Step(st, tok, hasNext, numCond);
            var placed := match tok
                          case Open => st.operandNext
                          case Cond(_) => st.operandNext
                          case Close => !st.operandNext
                          case Bool(_) => !st.operandNext && hasNext
                          case Junk => false;
            if !placed then st' == Failed(InvalidLogic)
            else if !KnownNumber(tok, numCond) then st' == Failed(InvalidNumber)
            else if Height(st.stack) == 0 then st' == Failed(IndexError)
            else if Height(st.stack) < Needed(tok) then st' == Failed(OpeningMissing)
            else st'.Running? && st'.operandNext == (tok.Open? || tok.Bool?)
                 && Counters(st'.nestAnd, st'.nestNestAnd) == CountStep(Counters(st.nestAnd, st.nestNestAnd), tok)
  {
    HeightZero(st.stack);
    if st.stack.Frame? { HeightZero(st.stack.below); }
  }

  lemma {:induction false} HeightZero(s: Stack)
    ensures Height(s) == 0 <==> s.Empty?
    ensures s.Frame? ==> Height(s) == 1 + Height(s.below)
  {
  }

  lemma {:induction false} CountNext(toks: seq<Token>, k: nat)
    requires k < |toks|
    ensures Count(toks[..k + 1]) == CountStep(Count(toks[..k]), toks[k])
    ensures Balance(toks[..k + 1]) == Balance(toks[..k]) + Weight(toks[k])
  {
    assert toks[..k + 1][..k] == toks[..k];
  }

  lemma {:induction false} TellsNext(toks: seq<Token>, k: nat, st: State, numCond: nat)
    requires k < |toks| && Tells(toks, k, st, numCond)
    ensures var next := Step(st, toks[k], k + 1 < |toks|, numCond);
            if Fits(toks, k, numCond) then Tells(toks, k + 1, next, numCond)
            else next == Failed(Complaint(toks, k, numCond))
  {
    var tok := toks[k];
    StepByHeight(st, tok, k + 1 < |toks|, numCond);
    StepSane(st, tok, k + 1 < |toks|, numCond);
    CountNext(toks, k);
  }

  lemma {:induction false} RunPrefix(toks: seq<Token>, k: nat, numCond: nat)
    requires k < |toks|
    ensures Run(START, toks[..k + 1], k + 1 < |toks|, numCond)
         == Step(Run(START, toks[..k], k < |toks|, numCond), toks[k], k + 1 < |toks|, numCond)
  {
    assert toks[..k + 1][..k] == toks[..k];
  }

  /** The parser gets past the tokens that fit, and stops at the first that does not. */
  lemma {:induction false} RunTells(toks: seq<Token>, k: nat, numCond: nat)
    requires k <= |toks| && AllFit(toks, k, numCond)
    ensures Tells(toks, k, Run(START, toks[..k], k < |toks|, numCond), numCond)
  {
    if k == 0 {
      assert toks[..0] == [];
    } else {
      RunTells(toks, k - 1, numCond);
      RunPrefix(toks, k - 1, numCond);
      TellsNext(toks, k - 1, Run(START, toks[..k - 1], true, numCond), numCond);
    }
  }

  lemma {:induction false} StopsAt(toks: seq<Token>, k: nat, numCond: nat)
    requires k < |toks| && AllFit(toks, k, numCond) && !Fits(toks, k, numCond)
    ensures Parse(toks, numCond) == Err(Complaint(toks, k, numCond))
  {
    RunTells(toks, k, numCond);
    RunPrefix(toks, k, numCond);
    TellsNext(toks, k, Run(START, toks[..k], true, numCond), numCond);
    assert toks[..k + 1] + toks[k + 1..] == toks;
    RunSplit(START, toks[..k + 1], toks[k + 1..], false, numCond);
    RunFailed(Complaint(toks, k, numCond), toks[k + 1..], false, numCond);
  }

  lemma {:induction false} EndsWith(toks: seq<Token>, numCond: nat)
    requires AllFit(toks, |toks|, numCond)
    ensures Lists(toks, |toks|) >= 0
    ensures var n := Lists(toks, |toks|);
            if n == 0 then Parse(toks, numCond) == Err(IndexError)
            else if n == 1 then Parse(toks, numCond).Ok?
            else Parse(toks, numCond) == Err(ClosingMissing)
  {
    RunTells(toks, |toks|, numCond);
    assert toks[..|toks|] == toks;
    var st := Run(START, toks, false, numCond);
    HeightZero(st.stack);
    if st.stack.Frame? { HeightZero(st.stack.below); }
  }

  lemma {:induction false} FirstMisfit(toks: seq<Token>, n: nat, numCond: nat) returns (k: nat)
    requires n <= |toks| && !AllFit(toks, n, numCond)
    ensures k < n && AllFit(toks, k, numCond) && !Fits(toks, k, numCond)
  {
    if AllFit(toks, n - 1, numCond) { k := n - 1; } else { k := FirstMisfit(toks, n - 1, numCond); }
  }

  // ----- the verdicts -----

  /** An input is accepted exactly when every token fits and one list is left. */
  lemma {:induction false} AcceptedExact(toks: seq<Token>, numCond: nat)
    ensures Parse(toks, numCond).Ok? <==> AllFit(toks, |toks|, numCond) && Lists(toks, |toks|) == 1
  {
    if AllFit(toks, |toks|, numCond) {
      EndsWith(toks, numCond);
    } else {
      var k := FirstMisfit(toks, |toks|, numCond);
      StopsAt(toks, k, numCond);
    }
  }

  /** Among the accepted inputs those with unbalanced brackets are exactly those at whose end an `and`
      is still counted; they have one closing bracket too many for each. */
  lemma {:induction false} UnbalancedExact(toks: seq<Token>, numCond: nat)
    ensures Parse(toks, numCond).Ok? ==> Balance(toks) + Count(toks).nestAnd == 0
    ensures Parse(toks, numCond).Ok? && Balance(toks) != 0
       <==> AllFit(toks, |toks|, numCond) && Lists(toks, |toks|) == 1 && Count(toks).nestAnd > 0
  {
    AcceptedExact(toks, numCond);
    assert toks[..|toks|] == toks;
  }

  /** The parser stops with an IndexError exactly when the tokens so far fit and leave no list, and
      either nothing follows or the next token is one it would take. */
  lemma {:induction false} IndexErrorExact(toks: seq<Token>, numCond: nat)
    ensures Parse(toks, numCond) == Err(IndexError)
       <==> exists k :: 0 <= k <= |toks| && AllFit(toks, k, numCond) && Lists(toks, k) == 0
                        && (k < |toks| ==> Legal(toks, k, numCond))
  {
    if k :| 0 <= k <= |toks| && AllFit(toks, k, numCond) && Lists(toks, k) == 0
            && (k < |toks| ==> Legal(toks, k, numCond))
    {
      if k < |toks| { StopsAt(toks, k, numCond); } else { EndsWith(toks, numCond); }
    }
    if Parse(toks, numCond) == Err(IndexError) {
      if AllFit(toks, |toks|, numCond) {
        EndsWith(toks, numCond);
      } else {
        var k := FirstMisfit(toks, |toks|, numCond);
        StopsAt(toks, k, numCond);
      }
    }
  }

  // ----- well-formed expressions -----

  /** Over an expression the parser never runs short of lists: it stops for a number out of range, or
      comes out with as many lists per open bracket and counted `and` as before. */
  lemma {:induction false} ExprRuns(e: Expr, st: State, follow: bool, numCond: nat)
    requires Sane(st, numCond) && st.operandNext && Height(st.stack) > st.nestAnd
    ensures var r := Run(st, ExprTokens(e), follow, numCond);
            if InRange(e, numCond)
            then Sane(r, numCond) && !r.operandNext && Height(r.stack) - r.nestAnd == Height(st.stack) - st.nestAnd
            else r == Failed(InvalidNumber)
    decreases e
  {
    match e
    case One(t) => TermRuns(t, st, follow, numCond);
    case More(f, op, t) =>
      RunMore(st, f, op, t, follow, numCond);
      ExprRuns(f, st, true, numCond);
      var r := Run(st, ExprTokens(f), true, numCond);
      if InRange(f, numCond) {
        StepByHeight(r, Bool(op), true, numCond);
        StepSane(r, Bool(op), true, numCond);
        TermRuns(t, Step(r, Bool(op), true, numCond), follow, numCond);
      } else {
        RunFailed(InvalidNumber, TermTokens(t), follow, numCond);
      }
  }

  lemma {:induction false} TermRuns(t: Term, st: State, follow: bool, numCond: nat)
    requires Sane(st, numCond) && st.operandNext && Height(st.stack) > st.nestAnd
    ensures var r := Run(st, TermTokens(t), follow, numCond);
            if TermInRange(t, numCond)
            then Sane(r, numCond) && !r.operandNext && Height(r.stack) - r.nestAnd == Height(st.stack) - st.nestAnd
            else r == Failed(InvalidNumber)
    decreases t
  {
    match t
    case Single(n) =>
      RunOne(st, Cond(n), follow, numCond);
      StepByHeight(st, Cond(n), follow, numCond);
      StepSane(st, Cond(n), follow, numCond);
    case Paren(e) =>
      RunParen(st, e, follow, numCond);
      StepByHeight(st, Open, true, numCond);
      StepSane(st, Open, true, numCond);
      var inner := Step(st, Open, true, numCond);
      ExprRuns(e, inner, true, numCond);
      if InRange(e, numCond) {
        var r := Run(inner, ExprTokens(e), true, numCond);
        StepByHeight(r, Close, follow, numCond);
        StepSane(r, Close, follow, numCond);
      }
  }

  lemma {:induction false} RunCounts(toks: seq<Token>, follow: bool, numCond: nat)
    ensures var st := Run(START, toks, follow, numCond);
            st.Running? ==> Counters(st.nestAnd, st.nestNestAnd) == Count(toks)
    decreases |toks|
  {
    if toks != [] {
      RunCounts(toks[..|toks| - 1], true, numCond);
      RunSane(toks[..|toks| - 1], true, numCond);
      var before := Run(START, toks[..|toks| - 1], true, numCond);
      if before.Running? { StepByHeight(before, toks[|toks| - 1], follow, numCond); }
    }
  }

  /** A well-formed expression is accepted exactly when its numbers name conditions and no `and` is
      still counted behind it; otherwise the message is about a number or about a closing bracket,
      though none is missing. */
  lemma {:induction false} ExpressionVerdict(e: Expr, numCond: nat)
    ensures var toks := ExprTokens(e);
            if !InRange(e, numCond) then Parse(toks, numCond) == Err(InvalidNumber)
            else if Count(toks).nestAnd == 0 then Parse(toks, numCond).Ok?
            else Parse(toks, numCond) == Err(ClosingMissing)
  {
    ExprRuns(e, START, false, numCond);
    RunCounts(ExprTokens(e), false, numCond);
  }

  /** An expression is accepted with another grouping than the intended one exactly when its numbers
      name conditions, no `and` is still counted behind it, and it is not well nested. */
  lemma {:induction false} MisgroupedExact(e: Expr, numCond: nat)
    ensures var parsed := Parse(ExprTokens(e), numCond);
            parsed.Ok? && parsed != Ok(Canon(Nil, e))
            <==> InRange(e, numCond) && Count(ExprTokens(e)).nestAnd == 0 && !WellNested(e)
  {
    ExpressionVerdict(e, numCond);
    GroupingExact(e, numCond);
  }
}

/** The condition-logic parser and evaluator of notification agents.

    `Step` is one turn of the parser's loop over the tokens.  The parser keeps a stack of nested
    lists in which the last element of every list is the next list up; `Stack` stores that spine
    with each list lacking its still open last element.  The same loop over real, aliased list
    objects is in module ConditionLogicHeap, which is proved to compute `Parse`. */
module ConditionLogic {

  datatype Op = And | Or

  /** Junk is any token that is neither a bracket, a connective nor a `{n}` condition. */
  datatype Token = Open | Close | Cond(num: nat) | Bool(op: Op) | Junk

  datatype Node = Leaf(num: nat) | Conn(op: Op) | Group(nodes: Nodes)

  /** A list, built by appending. */
  datatype Nodes = Nil | Snoc(init: Nodes, last: Node)

  /** The four messages of the parser's ValueErrors, and the IndexError of an empty stack. */
  datatype Error = InvalidLogic | InvalidNumber | OpeningMissing | ClosingMissing | IndexError

  datatype Result<+T> = Ok(value: T) | Err(error: Error)

  datatype Stack = Empty | Frame(top: Nodes, below: Stack)

  datatype State =
    | Running(stack: Stack, nestAnd: nat, nestNestAnd: nat, operandNext: bool)
    | Failed(error: Error)

  // ----- the parser -----

  const START := Running(Frame(Nil, Empty), 0, 0, true)

  /** Dropping the top list makes it an ordinary last element of the list below; dropping the only
      list leaves nothing. */
  function Pop(s: Stack): Stack
    requires s.Frame?
  {
    match s.below
    case Empty => Empty
    case Frame(parent, rest) => Frame(Snoc(parent, Group(s.top)), rest)
  }

  function StepOpen(st: State): State
    requires st.Running?
  {
    if !st.operandNext then Failed(InvalidLogic)
    else if st.stack.Empty? then Failed(IndexError)
    else Running(Frame(Nil, st.stack), st.nestAnd, if st.nestAnd > 0 then st.nestNestAnd + 1 else st.nestNestAnd, true)
  }

  function StepClose(st: State): State
    requires st.Running?
  {
    if st.operandNext then Failed(InvalidLogic)
    else if st.stack.Empty? then Failed(IndexError)
    else if st.stack.below.Empty? then Failed(OpeningMissing)
    else if st.nestAnd > 0 && st.nestNestAnd > 0 && st.nestAnd == st.nestNestAnd then
      Running(Pop(Pop(st.stack)), st.nestAnd - 1, st.nestNestAnd - 1, false)
    else
      Running(Pop(st.stack), st.nestAnd, st.nestNestAnd, false)
  }

  function StepCond(st: State, num: nat, numCond: nat): State
    requires st.Running?
  {
    if !st.operandNext then Failed(InvalidLogic)
    else if !(0 < num <= numCond) then Failed(InvalidNumber)
    else if st.stack.Empty? then Failed(IndexError)
    else
      var grown := Frame(Snoc(st.stack.top, Leaf(num)), st.stack.below);
      if st.nestAnd > st.nestNestAnd then Running(Pop(grown), st.nestAnd - 1, st.nestNestAnd, false)
      else Running(grown, st.nestAnd, st.nestNestAnd, false)
  }

  function StepBool(st: State, op: Op, hasNext: bool): State
    requires st.Running?
  {
    if st.operandNext || !hasNext then Failed(InvalidLogic)
    else if st.stack.Empty? then Failed(IndexError)
    else
      match op
      case Or => Running(Frame(Snoc(st.stack.top, Conn(Or)), st.stack.below), st.nestAnd, st.nestNestAnd, true)
      case And =>
        match st.stack.top
        case Nil => Failed(IndexError)
        case Snoc(front, operand) =>
          Running(Frame(Snoc(Snoc(Nil, operand), Conn(And)), Frame(front, st.stack.below)),
                  st.nestAnd + 1, st.nestNestAnd, true)
  }

  function Step(st: State, tok: Token, hasNext: bool, numCond: nat): State {
    if st.Failed? then st
    else
      match tok
      case Open => StepOpen(st)
      case Close => StepClose(st)
      case Cond(num) => StepCond(st, num, numCond)
      case Bool(op) => StepBool(st, op, hasNext)
      case Junk => Failed(InvalidLogic)
  }

  /** All the tokens in turn; `follow` says whether more tokens come after these. */
  function Run(st: State, toks: seq<Token>, follow: bool, numCond: nat): State
    decreases |toks|
  {
    if toks == [] then st
    else Step(Run(st, toks[..|toks| - 1], true, numCond), toks[|toks| - 1], follow, numCond)
  }

  function Finish(st: State): Result<Nodes> {
    match st
    case Failed(e) => Err(e)
    case Running(Empty, _, _, _) => Err(IndexError)
    case Running(Frame(top, below), _, _, _) => if below.Empty? then Ok(top) else Err(ClosingMissing)
  }

  function Parse(toks: seq<Token>, numCond: nat): Result<Nodes> {
    Finish(Run(START, toks, false, numCond))
  }

  lemma {:induction false} RunSplit(st: State, a: seq<Token>, b: seq<Token>, follow: bool, numCond: nat)
    ensures Run(st, a + b, follow, numCond) == Run(Run(st, a, follow || b != [], numCond), b, follow, numCond)
    decreases |b|
  {
    if b == [] {
      assert a + b == a;
    } else {
      var b' := b[..|b| - 1];
      assert (a + b)[..|a + b| - 1] == a + b';
      RunSplit(st, a, b', true, numCond);
    }
  }

  lemma {:induction false} RunOne(st: State, tok: Token, follow: bool, numCond: nat)
    ensures Run(st, [tok], follow, numCond) == Step(st, tok, follow, numCond)
  {
    assert [tok][..0] == [];
    assert Run(st, [], true, numCond) == st;
  }

  lemma {:induction false} RunFailed(e: Error, toks: seq<Token>, follow: bool, numCond: nat)
    ensures Run(Failed(e), toks, follow, numCond) == Failed(e)
    decreases |toks|
  {
    if toks != [] { RunFailed(e, toks[..|toks| - 1], true, numCond); }
  }

  // ----- what holds throughout every run -----

  predicate Operand(n: Node, numCond: nat) {
    match n
    case Leaf(k) => 0 < k <= numCond
    case Conn(_) => false
    case Group(l) => Complete(l, numCond)
  }

  /** operand (connective operand)*, where every number names a condition */
  predicate Complete(l: Nodes, numCond: nat) {
    && l.Snoc? && Operand(l.last, numCond)
    && (l.init.Snoc? ==> l.init.last.Conn? && Complete(l.init.init, numCond))
  }

  /** (operand connective)* */
  predicate Waiting(l: Nodes, numCond: nat) {
    l.Snoc? ==> l.last.Conn? && Complete(l.init, numCond)
  }

  predicate AllWaiting(s: Stack, numCond: nat) {
    match s
    case Empty => true
    case Frame(top, below) => Waiting(top, numCond) && AllWaiting(below, numCond)
  }

  predicate Sane(st: State, numCond: nat) {
    st.Running? && (st.stack.Frame? ==>
      && (if st.operandNext then Waiting(st.stack.top, numCond) else Complete(st.stack.top, numCond))
      && AllWaiting(st.stack.below, numCond))
  }

  function Length(l: Nodes): nat {
    match l
    case Nil => 0
    case Snoc(l', _) => Length(l') + 1
  }

  function Height(s: Stack): nat {
    match s
    case Empty => 0
    case Frame(_, below) => 1 + Height(below)
  }

  function Weight(tok: Token): int {
    match tok
    case Open => 1
    case Close => -1
    case _ => 0
  }

  function Balance(toks: seq<Token>): int {
    if toks == [] then 0 else Balance(toks[..|toks| - 1]) + Weight(toks[|toks| - 1])
  }

  /** Tokens in order, each with the number of brackets open around it. */
  datatype Trail = Start | Then(before: Trail, token: Token, depth: nat)

  /** A list whose second element is `and` was made by `and`, not by a bracket. */
  predicate IsAnd(l: Nodes) {
    match l
    case Nil => false
    case Snoc(Snoc(Nil, _), n) => n == Conn(And)
    case Snoc(l', _) => IsAnd(l')
  }

  /** The leaves of a list in order, behind those seen before. */
  function Leaves(seen: Trail, l: Nodes, depth: nat): Trail
    decreases l
  {
    match l
    case Nil => seen
    case Snoc(l', n) => NodeLeaves(Leaves(seen, l', depth), n, depth)
  }

  function NodeLeaves(seen: Trail, n: Node, depth: nat): Trail
    decreases n
  {
    match n
    case Leaf(k) => Then(seen, Cond(k), depth)
    case Conn(op) => Then(seen, Bool(op), depth)
    case Group(l) => Leaves(seen, l, if IsAnd(l) then depth else depth + 1)
  }

  /** How many of the open lists, the root aside, were opened by a bracket. */
  function Brackets(s: Stack): nat {
    match s
    case Empty => 0
    case Frame(top, below) => if below.Empty? then 0 else Brackets(below) + (if IsAnd(top) then 0 else 1)
  }

  function StackLeaves(s: Stack): Trail {
    match s
    case Empty => Start
    case Frame(top, below) => Leaves(StackLeaves(below), top, Brackets(s))
  }

  function TrailTokens(t: Trail): seq<Token> {
    match t
    case Start => []
    case Then(before, token, _) => TrailTokens(before) + [token]
  }

  /** The tokens without the brackets. */
  function Unbracketed(toks: seq<Token>): seq<Token> {
    if toks == [] then []
    else
      var rest := Unbracketed(toks[..|toks| - 1]);
      var tok := toks[|toks| - 1];
      if tok.Open? || tok.Close? then rest else rest + [tok]
  }

  /** What one token adds to the leaves of the stack. */
  function Add(seen: Trail, tok: Token, depth: nat): Trail {
    if tok.Open? || tok.Close? then seen else Then(seen, tok, depth)
  }

  lemma {:induction false} PopLeaves(s: Stack, numCond: nat)
    requires s.Frame? && s.below.Frame? && Waiting(s.below.top, numCond)
    ensures StackLeaves(Pop(s)) == StackLeaves(s)
    ensures Brackets(Pop(s)) == Brackets(s.below)
  {
    var p, d := s.below.top, Brackets(s.below);
    assert IsAnd(Snoc(p, Group(s.top))) == IsAnd(p);
    assert Brackets(Pop(s)) == d;
    assert Leaves(StackLeaves(s.below.below), Snoc(p, Group(s.top)), d)
        == NodeLeaves(Leaves(StackLeaves(s.below.below), p, d), Group(s.top), d);
    assert StackLeaves(s.below) == Leaves(StackLeaves(s.below.below), p, d);
  }

  lemma {:induction false} AppendLeaves(s: Stack, n: Node)
    requires s.Frame? && n != Conn(And)
    ensures var s' := Frame(Snoc(s.top, n), s.below);
            Brackets(s') == Brackets(s) && StackLeaves(s') == NodeLeaves(StackLeaves(s), n, Brackets(s))
  {
    assert IsAnd(Snoc(s.top, n)) == IsAnd(s.top);
  }

  lemma {:induction false} PopSane(s: Stack, numCond: nat)
    requires s.Frame? && Complete(s.top, numCond) && AllWaiting(s.below, numCond)
    ensures Pop(s).Frame? ==> Complete(Pop(s).top, numCond) && AllWaiting(Pop(s).below, numCond)
    ensures Height(Pop(s)) == Height(s) - 1
  {
  }

  lemma {:induction false} StepSane(st: State, tok: Token, hasNext: bool, numCond: nat)
    requires Sane(st, numCond)
    ensures var st' := Step(st, tok, hasNext, numCond);
            st'.Failed? || (Sane(st', numCond)
                            && st.stack.Frame?
                            && Height(st'.stack) - st'.nestAnd == Height(st.stack) - st.nestAnd + Weight(tok))
  {
    if st.stack.Frame? {
      match tok
      case Close =>
        if !st.operandNext && st.stack.below.Frame? {
          PopSane(st.stack, numCond);
          PopSane(Pop(st.stack), numCond);
        }
      case Cond(num) =>
        if st.operandNext && 0 < num <= numCond {
          PopSane(Frame(Snoc(st.stack.top, Leaf(num)), st.stack.below), numCond);
        }
      case _ =>
    }
  }

  lemma {:induction false} StepLeaves(st: State, tok: Token, hasNext: bool, numCond: nat)
    requires Sane(st, numCond)
    ensures var st' := Step(st, tok, hasNext, numCond);
            st'.Running? && st'.stack.Frame? ==>
              StackLeaves(st'.stack) == Add(StackLeaves(st.stack), tok, Brackets(st.stack))
  {
    var st' := Step(st, tok, hasNext, numCond);
    if st'.Running? && st'.stack.Frame? {
      match tok
      case Open =>
      case Close =>
        PopLeaves(st.stack, numCond);
        PopSane(st.stack, numCond);
        if st'.nestAnd < st.nestAnd { PopLeaves(Pop(st.stack), numCond); }
      case Cond(num) =>
        var grown := Frame(Snoc(st.stack.top, Leaf(num)), st.stack.below);
        AppendLeaves(st.stack, Leaf(num));
        if st'.nestAnd < st.nestAnd { PopLeaves(grown, numCond); }
      case Bool(op) =>
        match op {
          case Or => AppendLeaves(st.stack, Conn(Or));
          case And => MoveLeaves(st.stack, numCond);
        }
    }
  }

  /** Moving the last operand into a list of its own keeps the leaves and their brackets. */
  lemma {:induction false} MoveLeaves(s: Stack, numCond: nat)
    requires s.Frame? && Complete(s.top, numCond)
    ensures var s' := Frame(Snoc(Snoc(Nil, s.top.last), Conn(And)), Frame(s.top.init, s.below));
            Brackets(s') == Brackets(s) && StackLeaves(s') == Then(StackLeaves(s), Bool(And), Brackets(s))
  {
    var x, d, lower := s.top.last, Brackets(s), Frame(s.top.init, s.below);
    assert IsAnd(s.top.init) == IsAnd(s.top);
    assert Brackets(lower) == d;
    assert NodeLeaves(StackLeaves(lower), x, d) == StackLeaves(s);
    assert Leaves(StackLeaves(lower), Snoc(Nil, x), d) == NodeLeaves(Leaves(StackLeaves(lower), Nil, d), x, d);
    assert Leaves(StackLeaves(lower), Snoc(Snoc(Nil, x), Conn(And)), d)
        == NodeLeaves(Leaves(StackLeaves(lower), Snoc(Nil, x), d), Conn(And), d);
  }

  lemma {:induction false} RunSane(toks: seq<Token>, follow: bool, numCond: nat)
    ensures var st := Run(START, toks, follow, numCond);
            st.Failed? || (Sane(st, numCond)
                           && Height(st.stack) == 1 + Balance(toks) + st.nestAnd
                           && (st.stack.Frame? ==> TrailTokens(StackLeaves(st.stack)) == Unbracketed(toks)))
    decreases |toks|
  {
    if toks != [] {
      var before := Run(START, toks[..|toks| - 1], true, numCond);
      var tok := toks[|toks| - 1];
      RunSane(toks[..|toks| - 1], true, numCond);
      if before.Running? {
        StepSane(before, tok, follow, numCond);
        StepLeaves(before, tok, follow, numCond);
      }
    }
  }

  lemma {:induction false} AcceptedRuns(toks: seq<Token>, i: nat, numCond: nat)
    requires i <= |toks| && Parse(toks, numCond).Ok?
    ensures Run(START, toks[..i], i < |toks|, numCond).Running?
  {
    var st := Run(START, toks[..i], i < |toks|, numCond);
    assert toks[..i] + toks[i..] == toks;
    RunSplit(START, toks[..i], toks[i..], false, numCond);
    if st.Failed? { RunFailed(st.error, toks[i..], false, numCond); }
  }

  /** Throughout every run that is going to be accepted the root is never popped, the number of open
      lists is one more than the brackets open plus `nestAnd`, and no token seen so far has been lost
      or reordered. */
  lemma {:induction false} AcceptedPrefix(toks: seq<Token>, i: nat, numCond: nat)
    requires i <= |toks|
    requires Parse(toks, numCond).Ok?
    ensures var st := Run(START, toks[..i], i < |toks|, numCond);
            && st.Running? && st.stack.Frame?
            && Height(st.stack) == 1 + Balance(toks[..i]) + st.nestAnd
            && TrailTokens(StackLeaves(st.stack)) == Unbracketed(toks[..i])
  {
    var st := Run(START, toks[..i], i < |toks|, numCond);
    AcceptedRuns(toks, i, numCond);
    RunSane(toks[..i], i < |toks|, numCond);
    if i < |toks| {
      AcceptedRuns(toks, i + 1, numCond);
      assert toks[..i + 1][..i] == toks[..i];
      StepSane(st, toks[i], i + 1 < |toks|, numCond);
    } else {
      assert toks[..i] == toks;
    }
  }

  /** Every accepted token list gives a tree whose leaves are the tokens with the brackets erased,
      in which connectives alternate with operands at every level and every number names a
      condition. */
  lemma {:induction false} AcceptedTree(toks: seq<Token>, numCond: nat)
    requires toks != []
    requires Parse(toks, numCond).Ok?
    ensures var tree := Parse(toks, numCond).value;
            Complete(tree, numCond) && TrailTokens(Leaves(Start, tree, 0)) == Unbracketed(toks)
  {
    RunSane(toks, false, numCond);
    var st := Run(START, toks, false, numCond);
    var before := Run(START, toks[..|toks| - 1], true, numCond);
    RunSane(toks[..|toks| - 1], true, numCond);
    if st.operandNext {
      // only an opening bracket could have come last, and it leaves two lists open
      assert false;
    }
  }

  // ----- the expressions the tokens are meant to spell -----

  datatype Term = Single(num: nat) | Paren(inner: Expr)

  /** A chain of terms, built from the left; nothing here says which connective binds tighter. */
  datatype Expr = One(term: Term) | More(front: Expr, op: Op, term: Term)

  function TermTokens(t: Term): seq<Token> {
    match t
    case Single(n) => [Cond(n)]
    case Paren(e) => [Open] + ExprTokens(e) + [Close]
  }

  function ExprTokens(e: Expr): seq<Token> {
    match e
    case One(t) => TermTokens(t)
    case More(f, op, t) => ExprTokens(f) + [Bool(op)] + TermTokens(t)
  }

  predicate TermInRange(t: Term, numCond: nat) {
    match t
    case Single(n) => 0 < n <= numCond
    case Paren(e) => InRange(e, numCond)
  }

  predicate InRange(e: Expr, numCond: nat) {
    match e
    case One(t) => TermInRange(t, numCond)
    case More(f, _, t) => InRange(f, numCond) && TermInRange(t, numCond)
  }

  /** The value of the last run of terms joined by `and`. */
  predicate LastRun(e: Expr, v: nat -> bool)
    decreases e, 0
  {
    match e
    case One(t) => TermMeaning(t, v)
    case More(f, Or, t) => TermMeaning(t, v)
    case More(f, And, t) => LastRun(f, v) && TermMeaning(t, v)
  }

  /** Whether one of the earlier runs holds. */
  predicate EarlierRuns(e: Expr, v: nat -> bool)
    decreases e, 0
  {
    match e
    case One(t) => false
    case More(f, Or, t) => EarlierRuns(f, v) || LastRun(f, v)
    case More(f, And, t) => EarlierRuns(f, v)
  }

  /** The standard meaning: some run of terms joined by `and` holds throughout. */
  predicate Meaning(e: Expr, v: nat -> bool)
    decreases e, 1
  {
    EarlierRuns(e, v) || LastRun(e, v)
  }

  predicate TermMeaning(t: Term, v: nat -> bool) {
    match t
    case Single(n) => v(n)
    case Paren(e) => Meaning(e, v)
  }

  // ----- the evaluator -----

  function Apply(op: Op, a: bool, b: bool): bool {
    match op
    case And => a && b
    case Or => a || b
  }

  /** The evaluator's left-to-right fold: it gives neither connective precedence. */
  function Eval(l: Nodes, v: nat -> bool, numCond: nat): bool
    requires Complete(l, numCond)
  {
    if l.init.Nil? then EvalNode(l.last, v, numCond)
    else Apply(l.init.last.op, Eval(l.init.init, v, numCond), EvalNode(l.last, v, numCond))
  }

  function EvalNode(n: Node, v: nat -> bool, numCond: nat): bool
    requires Operand(n, numCond)
  {
    match n
    case Leaf(k) => v(k)
    case Group(l) => Eval(l, v, numCond)
  }

  // ----- the grouping the parser aims at -----

  function Triple(a: Node, op: Op, b: Node): Nodes {
    Snoc(Snoc(Snoc(Nil, a), Conn(op)), b)
  }

  function CanonTerm(t: Term): Node {
    match t
    case Single(n) => Leaf(n)
    case Paren(e) => Group(Canon(Nil, e))
  }

  /** The elements of `e` behind those in `base`; `and` takes the operand before it into a list of its
      own. */
  function Canon(base: Nodes, e: Expr): (l: Nodes)
    ensures l.Snoc?
    decreases e
  {
    match e
    case One(t) => Snoc(base, CanonTerm(t))
    case More(f, Or, t) => Snoc(Snoc(Canon(base, f), Conn(Or)), CanonTerm(t))
    case More(f, And, t) => Snoc(Canon(base, f).init, Group(Triple(Canon(base, f).last, And, CanonTerm(t))))
  }

  lemma {:induction false} TripleOperand(a: Node, op: Op, b: Node, numCond: nat)
    ensures Complete(Triple(a, op, b), numCond) <==> Operand(a, numCond) && Operand(b, numCond)
  {
    assert Complete(Snoc(Nil, a), numCond) <==> Operand(a, numCond);
  }

  lemma {:induction false} CanonComplete(base: Nodes, e: Expr, numCond: nat)
    requires Waiting(base, numCond)
    ensures Complete(Canon(base, e), numCond) <==> InRange(e, numCond)
    decreases e
  {
    match e
    case One(t) => CanonTermOperand(t, numCond);
    case More(f, op, t) =>
      CanonTermOperand(t, numCond);
      CanonComplete(base, f, numCond);
      var l := Canon(base, f);
      match op {
        case Or =>
        case And => TripleOperand(l.last, And, CanonTerm(t), numCond);
      }
  }

  lemma {:induction false} CanonTermOperand(t: Term, numCond: nat)
    ensures Operand(CanonTerm(t), numCond) <==> TermInRange(t, numCond)
  {
    match t
    case Single(n) =>
    case Paren(e) => CanonComplete(Nil, e, numCond);
  }

  lemma {:induction false} TripleEval(a: Node, op: Op, b: Node, v: nat -> bool, numCond: nat)
    requires Operand(a, numCond) && Operand(b, numCond)
    ensures Complete(Triple(a, op, b), numCond)
    ensures Eval(Triple(a, op, b), v, numCond) == Apply(op, EvalNode(a, v, numCond), EvalNode(b, v, numCond))
  {
    TripleOperand(a, op, b, numCond);
    assert Eval(Snoc(Nil, a), v, numCond) == EvalNode(a, v, numCond);
  }

  /** The last element of the canonical list is the last `and` run, the elements before it the others:
      the evaluator gives the intended grouping the standard meaning. */
  lemma {:induction false} CanonMeaning(e: Expr, v: nat -> bool, numCond: nat)
    requires InRange(e, numCond)
    ensures var l := Canon(Nil, e);
            && Complete(l, numCond) && Eval(l, v, numCond) == Meaning(e, v)
            && EvalNode(l.last, v, numCond) == LastRun(e, v)
            && (if l.init.Nil? then !EarlierRuns(e, v)
                else l.init.last == Conn(Or) && Eval(l.init.init, v, numCond) == EarlierRuns(e, v))
  {
    CanonComplete(Nil, e, numCond);
    match e
    case One(t) =>
      CanonTermMeaning(t, v, numCond);
    case More(f, op, t) =>
      CanonTermMeaning(t, v, numCond);
      CanonMeaning(f, v, numCond);
      var l := Canon(Nil, f);
      match op {
        case Or =>
        case And =>
          TripleEval(l.last, And, CanonTerm(t), v, numCond);
      }
  }

  lemma {:induction false} CanonTermMeaning(t: Term, v: nat -> bool, numCond: nat)
    requires TermInRange(t, numCond)
    ensures Operand(CanonTerm(t), numCond)
    ensures EvalNode(CanonTerm(t), v, numCond) == TermMeaning(t, v)
  {
    match t
    case Single(n) =>
    case Paren(e) => CanonMeaning(e, v, numCond);
  }
}

/** Which well-formed condition logic the parser groups as intended.

    The parser counts the `and`s it has open and, while any is open, the brackets.  A bracket that
    does not directly follow an `and` is counted too, and nothing pairs it with an `and`; the counts
    then disagree until a later `and {n}` happens to make up for it.  `ExprSurplus` follows that
    excess through the syntax, and `GroupingExact` shows that it decides the matter. */
module ConditionGrouping {
  import opened ConditionLogic

  /** How the counters stand behind an expression: brackets counted without an `and` to match, and
      whether the last `and` list is still open where it should have been closed. */
  datatype Surplus = Clean(excess: nat) | Pending(excess: nat) | Off

  /** `counted` tells whether some `and` list was open in front of the expression. */
  function ExprSurplus(e: Expr, counted: bool, excess: nat): Surplus {
    match e
    case One(t) => TermSurplus(t, false, counted, excess)
    case More(f, op, t) =>
      match ExprSurplus(f, counted, excess)
      case Clean(x) => TermSurplus(t, op.And?, counted, x)
      case _ => Off
  }

  function TermSurplus(t: Term, afterAnd: bool, counted: bool, excess: nat): Surplus {
    match t
    case Single(_) =>
      if !afterAnd || excess == 0 then Clean(excess) else Pending(excess - 1)
    case Paren(e) =>
      if afterAnd then
        match ExprSurplus(e, true, excess)
        case Clean(x) => if x == 0 then Clean(0) else Pending(x)
        case Pending(x) => if x == 0 then Pending(0) else Off
        case Off => Off
      else
        match ExprSurplus(e, counted, if counted then excess + 1 else 0)
        case Clean(x) => Clean(x)
        case Pending(x) => if x == 0 then Clean(0) else Off
        case Off => Off
  }

  /** The counters are back in step at the end, and no `and` list was left open on the way. */
  predicate WellNested(e: Expr) {
    ExprSurplus(e, false, 0).Clean?
  }

  // ----- what an intended grouping looks like -----

  /** A list made by `and` has at most three elements, and the last is not such a list itself. */
  predicate GoodAnd(l: Nodes, andOnTop: bool) {
    !IsAnd(l) ||
    match l
    case Snoc(Snoc(Nil, _), _) => !andOnTop
    case Snoc(Snoc(Snoc(Nil, _), _), b) => !andOnTop && !(b.Group? && IsAnd(b.nodes))
    case _ => false
  }

  predicate GoodNodes(l: Nodes) {
    match l
    case Nil => true
    case Snoc(l', n) => GoodNodes(l') && (n.Group? ==> GoodNodes(n.nodes) && GoodAnd(n.nodes, false))
  }

  predicate GoodStack(s: Stack, andOnTop: bool) {
    match s
    case Empty => true
    case Frame(top, below) => GoodNodes(top) && GoodAnd(top, andOnTop) && GoodStack(below, IsAnd(top))
  }

  /** The tokens of an expression with the brackets around each, behind those seen before. */
  function ExprTrail(seen: Trail, e: Expr, depth: nat): Trail
    decreases e
  {
    match e
    case One(t) => TermTrail(seen, t, depth)
    case More(f, op, t) => TermTrail(Then(ExprTrail(seen, f, depth), Bool(op), depth), t, depth)
  }

  function TermTrail(seen: Trail, t: Term, depth: nat): Trail
    decreases t
  {
    match t
    case Single(n) => Then(seen, Cond(n), depth)
    case Paren(e) => ExprTrail(seen, e, depth + 1)
  }

  // ----- once a list is out of shape, or a token in the wrong place, nothing mends it -----

  lemma {:induction false} PopGood(s: Stack, numCond: nat)
    requires s.Frame? && AllWaiting(s.below, numCond)
    requires Pop(s).Frame? && GoodStack(Pop(s), false)
    ensures GoodStack(s, false)
  {
    ReopenGood(s.below.top, s.top, numCond);
    assert GoodStack(s.below, IsAnd(s.top));
  }

  lemma {:induction false} ReopenGood(p: Nodes, l: Nodes, numCond: nat)
    requires Waiting(p, numCond) && GoodNodes(Snoc(p, Group(l))) && GoodAnd(Snoc(p, Group(l)), false)
    ensures GoodNodes(p) && GoodNodes(l) && GoodAnd(l, false) && GoodAnd(p, IsAnd(l))
    ensures IsAnd(Snoc(p, Group(l))) == IsAnd(p)
  {
  }

  lemma {:induction false} CloseGood(st: State, numCond: nat)
    requires Sane(st, numCond)
    requires StepClose(st).Running? && StepClose(st).stack.Frame? && GoodStack(StepClose(st).stack, false)
    ensures GoodStack(st.stack, false)
  {
    PopSane(st.stack, numCond);
    if StepClose(st).nestAnd < st.nestAnd { PopGood(Pop(st.stack), numCond); }
    PopGood(st.stack, numCond);
  }

  lemma {:induction false} CondGood(st: State, num: nat, numCond: nat)
    requires Sane(st, numCond)
    requires var st' := StepCond(st, num, numCond);
             st'.Running? && st'.stack.Frame? && GoodStack(st'.stack, false)
    ensures GoodStack(st.stack, false)
  {
    var grown := Frame(Snoc(st.stack.top, Leaf(num)), st.stack.below);
    if StepCond(st, num, numCond).nestAnd < st.nestAnd { PopGood(grown, numCond); }
    assert IsAnd(grown.top) == IsAnd(st.stack.top);
  }

  lemma {:induction false} BoolGood(st: State, op: Op, hasNext: bool, numCond: nat)
    requires Sane(st, numCond)
    requires StepBool(st, op, hasNext).Running? && GoodStack(StepBool(st, op, hasNext).stack, false)
    ensures GoodStack(st.stack, false)
  {
    match op
    case Or => assert IsAnd(Snoc(st.stack.top, Conn(Or))) == IsAnd(st.stack.top);
    case And => MovedGood(st.stack.top, numCond);
  }

  lemma {:induction false} MovedGood(top: Nodes, numCond: nat)
    requires Complete(top, numCond) && GoodNodes(top.init) && GoodNodes(Snoc(Snoc(Nil, top.last), Conn(And)))
    requires GoodAnd(top.init, true)
    ensures GoodNodes(top) && !IsAnd(top) && !IsAnd(top.init)
  {
    assert IsAnd(top.init) == IsAnd(top);
    assert GoodNodes(Snoc(Nil, top.last));
  }

  lemma {:induction false} StepGood(st: State, tok: Token, hasNext: bool, numCond: nat)
    requires Sane(st, numCond)
    requires var st' := Step(st, tok, hasNext, numCond);
             st'.Running? && st'.stack.Frame? && GoodStack(st'.stack, false)
    ensures st.stack.Frame? && GoodStack(st.stack, false)
  {
    match tok
    case Open =>
    case Close => CloseGood(st, numCond);
    case Cond(num) => CondGood(st, num, numCond);
    case Bool(op) => BoolGood(st, op, hasNext, numCond);
  }

  /** The run is still on the way to a tree in the intended shape with exactly these leaves. */
  predicate OnTrack(st: State, trail: Trail) {
    st.Running? && st.stack.Frame? && GoodStack(st.stack, false) && StackLeaves(st.stack) == trail
  }

  lemma {:induction false} RunStaysSane(st: State, toks: seq<Token>, follow: bool, numCond: nat)
    requires st.Running? ==> Sane(st, numCond)
    ensures var r := Run(st, toks, follow, numCond); r.Running? ==> Sane(r, numCond)
    decreases |toks|
  {
    if toks != [] {
      var before := Run(st, toks[..|toks| - 1], true, numCond);
      RunStaysSane(st, toks[..|toks| - 1], true, numCond);
      if before.Running? { StepSane(before, toks[|toks| - 1], follow, numCond); }
    }
  }

  lemma {:induction false} BackStep(st: State, tok: Token, hasNext: bool, numCond: nat, trail: Trail)
    requires st.Running? ==> Sane(st, numCond)
    requires OnTrack(Step(st, tok, hasNext, numCond), trail)
    ensures tok.Open? || tok.Close? ==> OnTrack(st, trail)
    ensures !tok.Open? && !tok.Close? ==>
              trail.Then? && OnTrack(st, trail.before) && trail.depth == Brackets(st.stack)
  {
    StepGood(st, tok, hasNext, numCond);
    StepLeaves(st, tok, hasNext, numCond);
  }

  lemma {:induction false} RunMore(st: State, f: Expr, op: Op, t: Term, follow: bool, numCond: nat)
    ensures Run(st, ExprTokens(More(f, op, t)), follow, numCond)
         == Run(Step(Run(st, ExprTokens(f), true, numCond), Bool(op), true, numCond), TermTokens(t), follow, numCond)
  {
    RunSplit(st, ExprTokens(f) + [Bool(op)], TermTokens(t), follow, numCond);
    RunSplit(st, ExprTokens(f), [Bool(op)], true, numCond);
    RunOne(Run(st, ExprTokens(f), true, numCond), Bool(op), true, numCond);
  }

  lemma {:induction false} RunParen(st: State, e: Expr, follow: bool, numCond: nat)
    ensures Run(st, TermTokens(Paren(e)), follow, numCond)
         == Step(Run(Step(st, Open, true, numCond), ExprTokens(e), true, numCond), Close, follow, numCond)
  {
    RunSplit(st, [Open] + ExprTokens(e), [Close], follow, numCond);
    RunSplit(st, [Open], ExprTokens(e), true, numCond);
    RunOne(st, Open, true, numCond);
    RunOne(Run(Step(st, Open, true, numCond), ExprTokens(e), true, numCond), Close, follow, numCond);
  }

  /** A run on track behind an expression was on track in front of it. */
  lemma {:induction false} BackExpr(e: Expr, st: State, follow: bool, numCond: nat, seen: Trail, depth: nat)
    requires st.Running? ==> Sane(st, numCond)
    requires OnTrack(Run(st, ExprTokens(e), follow, numCond), ExprTrail(seen, e, depth))
    ensures OnTrack(st, seen)
    decreases e
  {
    match e
    case One(t) => BackTerm(t, st, follow, numCond, seen, depth);
    case More(f, op, t) =>
      var r := Run(st, ExprTokens(f), true, numCond);
      var r' := Step(r, Bool(op), true, numCond);
      RunMore(st, f, op, t, follow, numCond);
      RunStaysSane(st, ExprTokens(f), true, numCond);
      if r.Running? { StepSane(r, Bool(op), true, numCond); }
      BackTerm(t, r', follow, numCond, Then(ExprTrail(seen, f, depth), Bool(op), depth), depth);
      BackStep(r, Bool(op), true, numCond, Then(ExprTrail(seen, f, depth), Bool(op), depth));
      BackExpr(f, st, true, numCond, seen, depth);
  }

  lemma {:induction false} BackTerm(t: Term, st: State, follow: bool, numCond: nat, seen: Trail, depth: nat)
    requires st.Running? ==> Sane(st, numCond)
    requires OnTrack(Run(st, TermTokens(t), follow, numCond), TermTrail(seen, t, depth))
    ensures OnTrack(st, seen)
    decreases t
  {
    match t
    case Single(n) =>
      RunOne(st, Cond(n), follow, numCond);
      BackStep(st, Cond(n), follow, numCond, Then(seen, Cond(n), depth));
    case Paren(e) =>
      var st1 := Step(st, Open, true, numCond);
      var r1 := Run(st1, ExprTokens(e), true, numCond);
      RunParen(st, e, follow, numCond);
      if st.Running? { StepSane(st, Open, true, numCond); }
      RunStaysSane(st1, ExprTokens(e), true, numCond);
      BackStep(r1, Close, follow, numCond, ExprTrail(seen, e, depth + 1));
      BackExpr(e, st1, true, numCond, seen, depth + 1);
      BackStep(st, Open, true, numCond, seen);
  }

  // ----- following the counters: when they come out even -----

  /** The state behind an expression, by its surplus: `l` is the intended list and `below` the lists
      under it. */
  function Behind(below: Stack, k: nat, l: Nodes, sur: Surplus): State
    requires l.Snoc?
  {
    match sur
    case Clean(y) => Running(Frame(l, below), k, k + y, false)
    case Pending(y) =>
      if l.last.Group? then Running(Frame(l.last.nodes, Frame(l.init, below)), k + 1, k + 1 + y, false)
      else Failed(InvalidLogic)
    case Off => Failed(InvalidLogic)
  }

  /** No bracket is counted while no `and` list is open. */
  lemma {:induction false} UncountedHasNoExcess(e: Expr)
    ensures ExprSurplus(e, false, 0).Clean? ==> ExprSurplus(e, false, 0) == Clean(0)
  {
    match e
    case One(t) => if t.Paren? { UncountedHasNoExcess(t.inner); }
    case More(f, op, t) =>
      UncountedHasNoExcess(f);
      if t.Paren? && op.Or? { UncountedHasNoExcess(t.inner); }
  }

  /** Of the excess `x` at most one bracket is gone, and that only while an `and` list is left open. */
  predicate Keeps(sur: Surplus, x: nat) {
    (sur.Clean? ==> x <= sur.excess) && (sur.Pending? ==> x <= sur.excess + 1)
  }

  /** An excess bracket is only ever made up for by the `and` list that is then left open. */
  lemma {:induction false} ExcessStays(e: Expr, counted: bool, x: nat)
    requires !counted ==> x == 0
    ensures Keeps(ExprSurplus(e, counted, x), x)
  {
    match e
    case One(t) => TermExcessStays(t, false, counted, x);
    case More(f, op, t) =>
      ExcessStays(f, counted, x);
      if !counted { UncountedHasNoExcess(f); }
      match ExprSurplus(f, counted, x) {
        case Clean(y) => TermExcessStays(t, op.And?, counted, y);
        case _ =>
      }
  }

  lemma {:induction false} TermExcessStays(t: Term, afterAnd: bool, counted: bool, x: nat)
    requires !counted ==> x == 0
    ensures Keeps(TermSurplus(t, afterAnd, counted, x), x)
  {
    if t.Paren? {
      if afterAnd { ExcessStays(t.inner, true, x); }
      else { ExcessStays(t.inner, counted, if counted then x + 1 else 0); }
    }
  }

  lemma {:induction false} PendingEndsInAnd(base: Nodes, e: Expr, counted: bool, x: nat)
    requires ExprSurplus(e, counted, x).Pending?
    ensures e.More? && e.op == And && Canon(base, e).last.Group?
    ensures Canon(base, e).last.nodes == Triple(Canon(base, e.front).last, And, CanonTerm(e.term))
  {
  }

  lemma {:induction false} ExprExact(e: Expr, s: Stack, k: nat, x: nat, follow: bool, numCond: nat)
    requires InRange(e, numCond) && s.Frame? && (k == 0 ==> x == 0)
    requires !ExprSurplus(e, k > 0, x).Off?
    ensures Run(Running(s, k, k + x, true), ExprTokens(e), follow, numCond)
         == Behind(s.below, k, Canon(s.top, e), ExprSurplus(e, k > 0, x))
    decreases e, 0
  {
    match e
    case One(t) =>
      PlainExact(t, s, k, x, follow, numCond);
    case More(f, op, t) =>
      RunMore(Running(s, k, k + x, true), f, op, t, follow, numCond);
      ExprExact(f, s, k, x, true, numCond);
      if k == 0 { UncountedHasNoExcess(f); }
      TermExact(f, op, t, s, k, ExprSurplus(f, k > 0, x).excess, follow, numCond);
  }

  /** A connective and a term behind a part that came out even. */
  lemma {:induction false} TermExact(f: Expr, op: Op, t: Term, s: Stack, k: nat, y: nat, follow: bool, numCond: nat)
    requires TermInRange(t, numCond) && s.Frame? && (k == 0 ==> y == 0)
    requires !TermSurplus(t, op.And?, k > 0, y).Off?
    ensures Run(Step(Running(Frame(Canon(s.top, f), s.below), k, k + y, false), Bool(op), true, numCond),
                TermTokens(t), follow, numCond)
         == Behind(s.below, k, Canon(s.top, More(f, op, t)), TermSurplus(t, op.And?, k > 0, y))
    decreases t, 1
  {
    var l := Canon(s.top, f);
    match op
    case Or => PlainExact(t, Frame(Snoc(l, Conn(Or)), s.below), k, y, follow, numCond);
    case And => AfterAndExact(t, Frame(Snoc(Snoc(Nil, l.last), Conn(And)), Frame(l.init, s.below)), k, y, follow, numCond);
  }

  /** A term that does not follow an `and`. */
  lemma {:induction false} PlainExact(t: Term, s: Stack, k: nat, x: nat, follow: bool, numCond: nat)
    requires TermInRange(t, numCond) && s.Frame? && (k == 0 ==> x == 0)
    requires !TermSurplus(t, false, k > 0, x).Off?
    ensures var sur := TermSurplus(t, false, k > 0, x);
            sur.Clean? && Run(Running(s, k, k + x, true), TermTokens(t), follow, numCond)
                       == Behind(s.below, k, Snoc(s.top, CanonTerm(t)), sur)
    decreases t, 0
  {
    match t
    case Single(n) =>
      RunOne(Running(s, k, k + x, true), Cond(n), follow, numCond);
    case Paren(e) =>
      var x' := if k > 0 then x + 1 else 0;
      ExcessStays(e, k > 0, x');
      if k == 0 { UncountedHasNoExcess(e); }
      ParenExact(e, s, k, k + x, x', follow, numCond);
  }

  /** A term behind an `and`; the top of `s` is the list that the `and` has opened. */
  lemma {:induction false} AfterAndExact(t: Term, s: Stack, k: nat, x: nat, follow: bool, numCond: nat)
    requires TermInRange(t, numCond) && s.Frame? && s.below.Frame? && (k == 0 ==> x == 0)
    requires !TermSurplus(t, true, k > 0, x).Off?
    ensures Run(Running(s, k + 1, k + x, true), TermTokens(t), follow, numCond)
         == Behind(s.below.below, k, Snoc(s.below.top, Group(Snoc(s.top, CanonTerm(t)))), TermSurplus(t, true, k > 0, x))
    decreases t, 0
  {
    match t
    case Single(n) =>
      RunOne(Running(s, k + 1, k + x, true), Cond(n), follow, numCond);
    case Paren(e) =>
      ParenExact(e, s, k + 1, k + x, x, follow, numCond);
  }

  /** A last bracket closes one list, or two when the counters agree. */
  lemma {:induction false} ParenExact(e: Expr, s: Stack, na: nat, nn: nat, x: nat, follow: bool, numCond: nat)
    requires InRange(e, numCond) && s.Frame?
    requires na + x == (if na > 0 then nn + 1 else nn) && (na == 0 ==> x == 0)
    requires !ExprSurplus(e, na > 0, x).Off?
    ensures Run(Running(s, na, nn, true), TermTokens(Paren(e)), follow, numCond)
         == Closed(Canon(Nil, e), s, na, ExprSurplus(e, na > 0, x))
    decreases e, 1
  {
    RunParen(Running(s, na, nn, true), e, follow, numCond);
    ExprExact(e, Frame(Nil, s), na, x, true, numCond);
    if na == 0 { UncountedHasNoExcess(e); }
    if ExprSurplus(e, na > 0, x).Pending? { PendingEndsInAnd(Nil, e, na > 0, x); }
    CloseExact(Canon(Nil, e), s, na, ExprSurplus(e, na > 0, x), follow, numCond);
  }

  /** What a last bracket makes of the surplus it finds. */
  function Closed(l: Nodes, s: Stack, na: nat, inner: Surplus): State
    requires s.Frame?
  {
    var full := Frame(Snoc(s.top, Group(l)), s.below);
    match inner
    case Clean(y) => if y == 0 && na > 0 then Running(Pop(full), na - 1, na - 1, false) else Running(full, na, na + y, false)
    case Pending(y) => if y == 0 then Running(full, na, na, false) else Running(Frame(l, s), na + 1, na + 1 + y, false)
    case Off => Failed(InvalidLogic)
  }

  lemma {:induction false} CloseExact(l: Nodes, s: Stack, na: nat, inner: Surplus, follow: bool, numCond: nat)
    requires l.Snoc? && s.Frame? && !inner.Off? && (inner.Pending? ==> l.last.Group?)
    requires na == 0 && inner.Clean? ==> inner.excess == 0
    ensures Step(Behind(s, na, l, inner), Close, follow, numCond) == Closed(l, s, na, inner)
  {
  }

  // ----- following the counters: when they do not -----

  /** More lists opened by brackets are open than brackets are, and the counters will not close two
      lists at once. */
  predicate Slipped(st: State, depth: nat) {
    st.Running? && st.stack.Frame? && Brackets(st.stack) > depth && 1 <= st.nestAnd < st.nestNestAnd
  }

  /** The stack in front of an operand. */
  predicate Fits(s: Stack, numCond: nat) {
    s.Frame? && AllWaiting(s, numCond)
  }

  /** The stack behind an expression that came out even. */
  lemma {:induction false} FrontStack(f: Expr, s: Stack, numCond: nat)
    requires InRange(f, numCond) && Fits(s, numCond)
    ensures var both := Frame(Canon(s.top, f), s.below);
            && Complete(both.top, numCond) && AllWaiting(both.below, numCond)
            && Brackets(both) == Brackets(s) && StackLeaves(both) == ExprTrail(StackLeaves(s), f, Brackets(s))
  {
    CanonComplete(s.top, f, numCond);
    CanonNotAnd(s.top, f, numCond);
    CanonTrail(StackLeaves(s.below), s.top, f, Brackets(s));
  }

  lemma {:induction false} OrFits(both: Stack, numCond: nat)
    requires both.Frame? && Complete(both.top, numCond) && AllWaiting(both.below, numCond)
    ensures var s' := Frame(Snoc(both.top, Conn(Or)), both.below);
            && Fits(s', numCond) && Brackets(s') == Brackets(both)
            && StackLeaves(s') == Then(StackLeaves(both), Bool(Or), Brackets(both))
  {
    AppendLeaves(both, Conn(Or));
  }

  lemma {:induction false} AndFits(both: Stack, numCond: nat)
    requires both.Frame? && Complete(both.top, numCond) && AllWaiting(both.below, numCond)
    ensures var s' := Frame(Snoc(Snoc(Nil, both.top.last), Conn(And)), Frame(both.top.init, both.below));
            && Fits(s', numCond) && Brackets(s') == Brackets(both)
            && StackLeaves(s') == Then(StackLeaves(both), Bool(And), Brackets(both))
  {
    MoveLeaves(both, numCond);
    assert Complete(Snoc(Nil, both.top.last), numCond);
  }

  lemma {:induction false} ExprSlips(e: Expr, s: Stack, k: nat, x: nat, r: State, follow: bool, numCond: nat)
    requires InRange(e, numCond) && Fits(s, numCond) && (k == 0 ==> x == 0)
    requires ExprSurplus(e, k > 0, x).Off?
    requires r == Run(Running(s, k, k + x, true), ExprTokens(e), follow, numCond)
    requires OnTrack(r, ExprTrail(StackLeaves(s), e, Brackets(s)))
    ensures Slipped(r, Brackets(s))
    decreases e, 0
  {
    match e
    case One(t) =>
      assert t == Paren(t.inner) && ExprTokens(e) == TermTokens(t);
      assert ExprTrail(StackLeaves(s), e, Brackets(s)) == TermTrail(StackLeaves(s), t, Brackets(s));
      ParenSlips(t.inner, s, k, k + x, if k > 0 then x + 1 else 0, r, follow, numCond);
    case More(f, op, t) =>
      var st := Running(s, k, k + x, true);
      var r0 := Run(st, ExprTokens(f), true, numCond);
      RunMore(st, f, op, t, follow, numCond);
      RunStaysSane(st, ExprTokens(f), true, numCond);
      ConnectiveInPlace(f, op, t, s, r0, r, follow, numCond);
      match ExprSurplus(f, k > 0, x)
      case Clean(y) =>
        ExprExact(f, s, k, x, true, numCond);
        if k == 0 { UncountedHasNoExcess(f); }
        TermSlips(f, op, t, s, k, y, r, follow, numCond);
      case Pending(_) =>
        ExprExact(f, s, k, x, true, numCond);
        PendingEndsInAnd(s.top, f, k > 0, x);
        PendingRefusesConnective(r0, op, Canon(s.top, f.front).last, CanonTerm(f.term), numCond);
      case Off =>
        ExprSlips(f, s, k, x, r0, true, numCond);
  }

  /** The tokens of a bracket that comes after `f`. */
  lemma {:induction false} TermTrailAfter(f: Expr, op: Op, t: Term, s: Stack, numCond: nat)
    requires InRange(f, numCond) && Fits(s, numCond) && t.Paren?
    ensures ExprTrail(StackLeaves(s), More(f, op, t), Brackets(s))
         == ExprTrail(Then(StackLeaves(Frame(Canon(s.top, f), s.below)), Bool(op), Brackets(s)), t.inner, Brackets(s) + 1)
  {
    FrontStack(f, s, numCond);
    assert t == Paren(t.inner);
  }

  lemma {:induction false} TermSlips(f: Expr, op: Op, t: Term, s: Stack, k: nat, y: nat, r: State,
                                     follow: bool, numCond: nat)
    requires InRange(f, numCond) && TermInRange(t, numCond) && Fits(s, numCond) && (k == 0 ==> y == 0)
    requires TermSurplus(t, op.And?, k > 0, y).Off?
    requires r == Run(Step(Behind(s.below, k, Canon(s.top, f), Clean(y)), Bool(op), true, numCond),
                      TermTokens(t), follow, numCond)
    requires OnTrack(r, ExprTrail(StackLeaves(s), More(f, op, t), Brackets(s)))
    ensures Slipped(r, Brackets(s))
    decreases t, 0
  {
    var both := Frame(Canon(s.top, f), s.below);
    FrontStack(f, s, numCond);
    assert t == Paren(t.inner);
    TermTrailAfter(f, op, t, s, numCond);
    match op
    case Or =>
      OrFits(both, numCond);
      ParenSlips(t.inner, Frame(Snoc(both.top, Conn(Or)), s.below), k, k + y, if k > 0 then y + 1 else 0, r, follow, numCond);
    case And =>
      AndFits(both, numCond);
      ParenSlips(t.inner, Frame(Snoc(Snoc(Nil, both.top.last), Conn(And)), Frame(both.top.init, s.below)),
                 k + 1, k + y, y, r, follow, numCond);
  }

  /** On a run that stays on track, a connective arrives in the list it belongs to. */
  lemma {:induction false} ConnectiveInPlace(f: Expr, op: Op, t: Term, s: Stack, r0: State, r: State, follow: bool,
                                             numCond: nat)
    requires s.Frame? && (r0.Running? ==> Sane(r0, numCond))
    requires r == Run(Step(r0, Bool(op), true, numCond), TermTokens(t), follow, numCond)
    requires OnTrack(r, ExprTrail(StackLeaves(s), More(f, op, t), Brackets(s)))
    ensures OnTrack(r0, ExprTrail(StackLeaves(s), f, Brackets(s))) && Brackets(r0.stack) == Brackets(s)
    ensures Step(r0, Bool(op), true, numCond).Running? && GoodStack(Step(r0, Bool(op), true, numCond).stack, false)
  {
    var d := Brackets(s);
    var r' := Step(r0, Bool(op), true, numCond);
    var trail := Then(ExprTrail(StackLeaves(s), f, d), Bool(op), d);
    if r0.Running? { StepSane(r0, Bool(op), true, numCond); }
    BackTerm(t, r', follow, numCond, trail, d);
    BackStep(r0, Bool(op), true, numCond, trail);
  }

  /** A connective on top of a full `and` list puts it out of shape. */
  lemma {:induction false} PendingRefusesConnective(r: State, op: Op, a: Node, b: Node, numCond: nat)
    requires r.Running? && r.stack.Frame?
    requires r.stack.top == Triple(a, And, b)
    ensures var r' := Step(r, Bool(op), true, numCond);
            r'.Failed? || !GoodStack(r'.stack, false)
  {
    assert IsAnd(Snoc(Snoc(Nil, a), Conn(And))) && IsAnd(Triple(a, And, b));
    match op
    case Or => assert IsAnd(Snoc(Triple(a, And, b), Conn(Or)));
    case And => assert IsAnd(Snoc(Snoc(Nil, b), Conn(And)));
  }

  /** The bracket behind this surplus does not close what it should. */
  predicate CannotClose(sur: Surplus) {
    sur.Off? || (sur.Pending? && sur.excess > 0)
  }

  lemma {:induction false} ParenSlips(e: Expr, s: Stack, na: nat, nn: nat, x: nat, r: State,
                                      follow: bool, numCond: nat)
    requires InRange(e, numCond) && Fits(s, numCond)
    requires na + x == (if na > 0 then nn + 1 else nn) && (na == 0 ==> x == 0)
    requires CannotClose(ExprSurplus(e, na > 0, x))
    requires r == Run(Running(s, na, nn, true), TermTokens(Paren(e)), follow, numCond)
    requires OnTrack(r, ExprTrail(StackLeaves(s), e, Brackets(s) + 1))
    ensures Slipped(r, Brackets(s))
    decreases e, 2
  {
    if ExprSurplus(e, na > 0, x).Pending? {
      PendingSlips(e, s, na, nn, x, r, follow, numCond);
    } else {
      var r1 := Run(Running(Frame(Nil, s), na, na + x, true), ExprTokens(e), true, numCond);
      RunInside(e, s, na, nn, x, follow, numCond);
      InnerSlips(e, s, na, x, r1, r, follow, numCond);
    }
  }

  lemma {:induction false} RunInside(e: Expr, s: Stack, na: nat, nn: nat, x: nat, follow: bool, numCond: nat)
    requires Fits(s, numCond) && na + x == (if na > 0 then nn + 1 else nn)
    ensures var r1 := Run(Running(Frame(Nil, s), na, na + x, true), ExprTokens(e), true, numCond);
            && Run(Running(s, na, nn, true), TermTokens(Paren(e)), follow, numCond) == Step(r1, Close, follow, numCond)
            && (r1.Running? ==> Sane(r1, numCond))
  {
    var st := Running(Frame(Nil, s), na, na + x, true);
    RunParen(Running(s, na, nn, true), e, follow, numCond);
    assert Step(Running(s, na, nn, true), Open, true, numCond) == st;
    RunStaysSane(st, ExprTokens(e), true, numCond);
  }

  lemma {:induction false} PendingSlips(e: Expr, s: Stack, na: nat, nn: nat, x: nat, r: State, follow: bool,
                                        numCond: nat)
    requires InRange(e, numCond) && Fits(s, numCond)
    requires na + x == (if na > 0 then nn + 1 else nn) && (na == 0 ==> x == 0)
    requires ExprSurplus(e, na > 0, x).Pending? && CannotClose(ExprSurplus(e, na > 0, x))
    requires r == Run(Running(s, na, nn, true), TermTokens(Paren(e)), follow, numCond)
    ensures Slipped(r, Brackets(s))
  {
    ParenExact(e, s, na, nn, x, follow, numCond);
    StaysOpen(e, s, na, ExprSurplus(e, na > 0, x).excess);
  }

  lemma {:induction false} StaysOpen(e: Expr, s: Stack, na: nat, y: nat)
    requires s.Frame? && y > 0
    ensures Slipped(Running(Frame(Canon(Nil, e), s), na + 1, na + 1 + y, false), Brackets(s))
  {
    CanonNotAnd(Nil, e, 0);
  }

  lemma {:induction false} InnerSlips(e: Expr, s: Stack, na: nat, x: nat, r1: State, r: State, follow: bool,
                                      numCond: nat)
    requires InRange(e, numCond) && Fits(s, numCond) && (na == 0 ==> x == 0)
    requires ExprSurplus(e, na > 0, x).Off?
    requires r1 == Run(Running(Frame(Nil, s), na, na + x, true), ExprTokens(e), true, numCond)
    requires (r1.Running? ==> Sane(r1, numCond)) && r == Step(r1, Close, follow, numCond)
    requires OnTrack(r, ExprTrail(StackLeaves(s), e, Brackets(s) + 1))
    ensures Slipped(r, Brackets(s))
    decreases e, 1
  {
    BackStep(r1, Close, follow, numCond, ExprTrail(StackLeaves(s), e, Brackets(s) + 1));
    assert StackLeaves(Frame(Nil, s)) == StackLeaves(s) && Brackets(Frame(Nil, s)) == Brackets(s) + 1;
    ExprSlips(e, Frame(Nil, s), na, x, r1, true, numCond);
    PopLeaves(r1.stack, numCond);
  }

  // ----- the canonical grouping is in shape -----

  lemma {:induction false} CanonNotAnd(base: Nodes, e: Expr, numCond: nat)
    requires Waiting(base, numCond)
    ensures IsAnd(Canon(base, e)) == IsAnd(base)
    decreases e
  {
    match e
    case One(t) => assert base.Snoc? ==> base.init.Snoc?;
    case More(f, op, t) =>
      CanonNotAnd(base, f, numCond);
      CanonLength(base, f);
  }

  /** Canonical lists are as long as what is in front plus an odd number of elements. */
  lemma {:induction false} CanonLength(base: Nodes, e: Expr)
    ensures Length(Canon(base, e)) % 2 != Length(base) % 2 && Length(Canon(base, e)) > Length(base)
    decreases e
  {
    match e
    case One(t) =>
    case More(f, op, t) => CanonLength(base, f);
  }

  lemma {:induction false} CanonTrail(seen: Trail, base: Nodes, e: Expr, depth: nat)
    ensures Leaves(seen, Canon(base, e), depth) == ExprTrail(Leaves(seen, base, depth), e, depth)
    decreases e
  {
    match e
    case One(t) => CanonTermTrail(Leaves(seen, base, depth), t, depth);
    case More(f, op, t) =>
      var l := Canon(base, f);
      CanonTrail(seen, base, f, depth);
      CanonTermTrail(Then(Leaves(seen, l, depth), Bool(op), depth), t, depth);
      var x := CanonTerm(t);
      match op {
        case Or =>
          assert Leaves(seen, Snoc(l, Conn(Or)), depth) == NodeLeaves(Leaves(seen, l, depth), Conn(Or), depth);
          assert Leaves(seen, Snoc(Snoc(l, Conn(Or)), x), depth) == NodeLeaves(Leaves(seen, Snoc(l, Conn(Or)), depth), x, depth);
        case And =>
          var g := Group(Triple(l.last, And, x));
          TripleLeaves(Leaves(seen, l.init, depth), l.last, x, depth);
          assert Leaves(seen, l, depth) == NodeLeaves(Leaves(seen, l.init, depth), l.last, depth);
          assert Leaves(seen, Snoc(l.init, g), depth) == NodeLeaves(Leaves(seen, l.init, depth), g, depth);
      }
  }

  lemma {:induction false} TripleLeaves(seen: Trail, a: Node, b: Node, depth: nat)
    ensures NodeLeaves(seen, Group(Triple(a, And, b)), depth)
         == NodeLeaves(Then(NodeLeaves(seen, a, depth), Bool(And), depth), b, depth)
  {
    var two := Snoc(Snoc(Nil, a), Conn(And));
    assert IsAnd(two) && IsAnd(Snoc(two, b));
    assert Leaves(seen, Snoc(Nil, a), depth) == NodeLeaves(Leaves(seen, Nil, depth), a, depth);
    assert Leaves(seen, two, depth) == NodeLeaves(Leaves(seen, Snoc(Nil, a), depth), Conn(And), depth);
    assert Leaves(seen, Snoc(two, b), depth) == NodeLeaves(Leaves(seen, two, depth), b, depth);
  }

  lemma {:induction false} CanonTermTrail(seen: Trail, t: Term, depth: nat)
    ensures NodeLeaves(seen, CanonTerm(t), depth) == TermTrail(seen, t, depth)
    decreases t
  {
    match t
    case Single(n) =>
    case Paren(e) =>
      CanonTrail(seen, Nil, e, depth + 1);
      CanonNotAnd(Nil, e, 0);
  }

  lemma {:induction false} CanonGood(base: Nodes, e: Expr)
    requires GoodNodes(base)
    ensures GoodNodes(Canon(base, e))
    decreases e
  {
    match e
    case One(t) => CanonTermGood(t);
    case More(f, op, t) =>
      var l := Canon(base, f);
      CanonGood(base, f);
      CanonTermGood(t);
      if op == And {
        assert GoodNodes(Snoc(Nil, l.last));
        assert GoodNodes(Snoc(Snoc(Nil, l.last), Conn(And)));
        assert GoodNodes(Triple(l.last, And, CanonTerm(t)));
      }
  }

  lemma {:induction false} CanonTermGood(t: Term)
    ensures GoodNodes(Snoc(Nil, CanonTerm(t)))
    ensures !(CanonTerm(t).Group? && IsAnd(CanonTerm(t).nodes))
    ensures CanonTerm(t).Group? ==> GoodNodes(CanonTerm(t).nodes)
    decreases t
  {
    match t
    case Single(n) =>
    case Paren(e) =>
      CanonGood(Nil, e);
      CanonNotAnd(Nil, e, 0);
  }

  // ----- the results -----

  /** The parser accepts an expression and groups it as intended exactly when every number names a
      condition and the expression is well nested. */
  lemma {:induction false} GroupingExact(e: Expr, numCond: nat)
    ensures Parse(ExprTokens(e), numCond) == Ok(Canon(Nil, e)) <==> InRange(e, numCond) && WellNested(e)
  {
    var root := Frame(Nil, Empty);
    if InRange(e, numCond) && !ExprSurplus(e, false, 0).Off? {
      ExprExact(e, root, 0, 0, false, numCond);
    }
    if Parse(ExprTokens(e), numCond) == Ok(Canon(Nil, e)) {
      var r := Run(START, ExprTokens(e), false, numCond);
      TokensNotEmpty(e);
      AcceptedTree(ExprTokens(e), numCond);
      CanonComplete(Nil, e, numCond);
      if ExprSurplus(e, false, 0).Off? {
        CanonTrail(Start, Nil, e, 0);
        CanonGood(Nil, e);
        CanonNotAnd(Nil, e, numCond);
        assert r.stack == Frame(Canon(Nil, e), Empty);
        assert StackLeaves(r.stack) == Leaves(StackLeaves(Empty), Canon(Nil, e), 0);
        assert StackLeaves(root) == Start;
        ExprSlips(e, root, 0, 0, r, false, numCond);
      }
    }
  }

  lemma {:induction false} TokensNotEmpty(e: Expr)
    ensures ExprTokens(e) != []
  {
  }

  /** The value the evaluator gives an accepted, well nested expression is its standard meaning. */
  lemma {:induction false} WellNestedMeaning(e: Expr, v: nat -> bool, numCond: nat)
    requires InRange(e, numCond) && WellNested(e)
    ensures var parsed := Parse(ExprTokens(e), numCond);
            parsed.Ok? && Complete(parsed.value, numCond) && Eval(parsed.value, v, numCond) == Meaning(e, v)
  {
    GroupingExact(e, numCond);
    CanonMeaning(e, v, numCond);
  }

  /** Inside a bracketed right operand of `and`, brackets only directly behind an `and`. */
  predicate Plain(e: Expr, underAnd: bool) {
    match e
    case One(t) => PlainTerm(t, false, underAnd)
    case More(f, op, t) => Plain(f, underAnd) && PlainTerm(t, op.And?, underAnd)
  }

  predicate PlainTerm(t: Term, afterAnd: bool, underAnd: bool) {
    t.Paren? ==> (afterAnd || !underAnd) && Plain(t.inner, afterAnd || underAnd)
  }

  /** A sufficient rule that needs no counting. */
  lemma {:induction false} PlainIsClean(e: Expr, underAnd: bool)
    requires Plain(e, underAnd)
    ensures ExprSurplus(e, underAnd, 0) == Clean(0)
  {
    match e
    case One(t) => PlainTermIsClean(t, false, underAnd);
    case More(f, op, t) =>
      PlainIsClean(f, underAnd);
      PlainTermIsClean(t, op.And?, underAnd);
  }

  lemma {:induction false} PlainTermIsClean(t: Term, afterAnd: bool, underAnd: bool)
    requires PlainTerm(t, afterAnd, underAnd)
    ensures TermSurplus(t, afterAnd, underAnd, 0) == Clean(0)
  {
    if t.Paren? { PlainIsClean(t.inner, afterAnd || underAnd); }
  }

  lemma {:induction false} PlainMeaning(e: Expr, v: nat -> bool, numCond: nat)
    requires InRange(e, numCond) && Plain(e, false)
    ensures var parsed := Parse(ExprTokens(e), numCond);
            parsed.Ok? && Complete(parsed.value, numCond) && Eval(parsed.value, v, numCond) == Meaning(e, v)
  {
    PlainIsClean(e, false);
    WellNestedMeaning(e, v, numCond);
  }
}

/** Inputs that show where the condition-logic parser parts from the meaning of its input. */
module ConditionExamples {
  import opened ConditionLogic
  import opened ConditionGrouping

  /** A run given state by state. */
  lemma {:induction false} Trace(toks: seq<Token>, states: seq<State>, follow: bool, numCond: nat)
    requires |states| == |toks| + 1
    requires forall i | 0 <= i < |toks| :: Step(states[i], toks[i], follow || i + 1 < |toks|, numCond) == states[i + 1]
    ensures Run(states[0], toks, follow, numCond) == states[|toks|]
    decreases |toks|
  {
    if toks != [] {
      Trace(toks[..|toks| - 1], states[..|toks|], true, numCond);
    }
  }

  const AND := Bool(And)
  const OR := Bool(Or)

  function Conj(e: Expr, t: Term): Expr { More(e, And, t) }

  /** `{1} and (({2}))` is refused although its brackets match. */
  lemma {:induction false} BalancedIsRefused()
    ensures var e := Conj(One(Single(1)), Paren(One(Paren(One(Single(2))))));
            && ExprTokens(e) == [Cond(1), AND, Open, Open, Cond(2), Close, Close]
            && InRange(e, 2) && !WellNested(e)
            && Parse(ExprTokens(e), 2) == Err(ClosingMissing)
  {
    var e := Conj(One(Single(1)), Paren(One(Paren(One(Single(2))))));
    assert ExprTokens(One(Paren(One(Single(2))))) == [Open, Cond(2), Close];
    assert ExprTokens(e) == [Cond(1), AND, Open, Open, Cond(2), Close, Close];
    assert ExprSurplus(One(Paren(One(Single(2)))), true, 0) == Clean(1);
    var s1 := Step(START, Cond(1), true, 2);
    var s2 := Step(s1, AND, true, 2);
    var s3 := Step(s2, Open, true, 2);
    var s4 := Step(s3, Open, true, 2);
    var s5 := Step(s4, Cond(2), true, 2);
    var s6 := Step(s5, Close, true, 2);
    var s7 := Step(s6, Close, false, 2);
    Trace(ExprTokens(e), [START, s1, s2, s3, s4, s5, s6, s7], false, 2);
    assert s7.nestAnd == 1 && s7.nestNestAnd == 2;
    assert s7.stack.below.Frame?;
  }

  /** `({1} and (({2}))))` is accepted although it closes one bracket too many. */
  lemma {:induction false} UnbalancedIsAccepted()
    ensures var toks := [Open, Cond(1), AND, Open, Open, Cond(2), Close, Close, Close, Close];
            Balance(toks) == -1 && Parse(toks, 2).Ok?
  {
    var toks := [Open, Cond(1), AND, Open, Open, Cond(2), Close, Close, Close, Close];
    var s1 := Step(START, Open, true, 2);
    var s2 := Step(s1, Cond(1), true, 2);
    var s3 := Step(s2, AND, true, 2);
    var s4 := Step(s3, Open, true, 2);
    var s5 := Step(s4, Open, true, 2);
    var s6 := Step(s5, Cond(2), true, 2);
    var s7 := Step(s6, Close, true, 2);
    var s8 := Step(s7, Close, true, 2);
    var s9 := Step(s8, Close, true, 2);
    var s10 := Step(s9, Close, false, 2);
    Trace(toks, [START, s1, s2, s3, s4, s5, s6, s7, s8, s9, s10], false, 2);
    assert s10.stack.below.Empty?;
    // the same run counts the brackets
    RunSane(toks, false, 2);
  }

  const HEAD := Snoc(Snoc(Nil, Leaf(1)), Conn(And))
  const ROOT := Frame(Nil, Empty)
  const TWO_OPEN := Frame(Nil, Frame(Nil, Frame(HEAD, ROOT)))

  /** `{1} and (((` leaves three lists to be closed by brackets and one by the counters. */
  lemma {:induction false} ThreeOpen(numCond: nat)
    requires 1 <= numCond
    ensures Run(START, [Cond(1), AND, Open, Open, Open], true, numCond) == Running(Frame(Nil, TWO_OPEN), 1, 3, true)
  {
    Trace([Cond(1), AND, Open, Open, Open],
          [START,
           Running(Frame(Snoc(Nil, Leaf(1)), Empty), 0, 0, false),
           Running(Frame(HEAD, ROOT), 1, 0, true),
           Running(Frame(Nil, Frame(HEAD, ROOT)), 1, 1, true),
           Running(TWO_OPEN, 1, 2, true),
           Running(Frame(Nil, TWO_OPEN), 1, 3, true)], true, numCond);
  }

  /** `{1} and ((({2}))) and {3} and {4}))` empties the stack: the parser stops with an IndexError,
      not with one of its own messages. */
  lemma {:induction false} StackRunsOut()
    ensures Parse([Cond(1), AND, Open, Open, Open] + [Cond(2), Close, Close, Close]
                  + [AND, Cond(3), AND, Cond(4), Close, Close], 4) == Err(IndexError)
  {
    var t1, t2 := [Cond(1), AND, Open, Open, Open], [Cond(2), Close, Close, Close];
    var t3 := [AND, Cond(3), AND, Cond(4), Close, Close];
    ThreeOpen(4);
    var s5 := Running(Frame(Nil, TWO_OPEN), 1, 3, true);
    var s6 := Step(s5, Cond(2), true, 4);
    var s7 := Step(s6, Close, true, 4);
    var s8 := Step(s7, Close, true, 4);
    var s9 := Step(s8, Close, true, 4);
    Trace(t2, [s5, s6, s7, s8, s9], true, 4);
    var inner := Group(Snoc(Nil, Group(Snoc(Nil, Group(Snoc(Nil, Leaf(2)))))));
    assert s9 == Running(Frame(Snoc(HEAD, inner), ROOT), 1, 3, false);
    RunsOut(inner);
    RunSplit(START, t1, t2, true, 4);
    RunSplit(START, t1 + t2, t3, false, 4);
  }

  lemma {:induction false} RunsOut(inner: Node)
    ensures Finish(Run(Running(Frame(Snoc(HEAD, inner), ROOT), 1, 3, false),
                       [AND, Cond(3), AND, Cond(4), Close, Close], false, 4)) == Err(IndexError)
  {
    var s9 := Running(Frame(Snoc(HEAD, inner), ROOT), 1, 3, false);
    var s10 := Step(s9, AND, true, 4);
    var s11 := Step(s10, Cond(3), true, 4);
    var s12 := Step(s11, AND, true, 4);
    var s13 := Step(s12, Cond(4), true, 4);
    var s14 := Step(s13, Close, true, 4);
    var s15 := Step(s14, Close, false, 4);
    Trace([AND, Cond(3), AND, Cond(4), Close, Close], [s9, s10, s11, s12, s13, s14, s15], false, 4);
    assert s13.nestAnd == 3 == s13.nestNestAnd;
    assert s14.nestAnd == 2 == s14.nestNestAnd && s14.stack.below.Frame? && s14.stack.below.below.Empty?;
  }

  /** `{2} and {3} and {4} or {5}` */
  const INNER := More(More(More(One(Single(2)), And, Single(3)), And, Single(4)), Or, Single(5))

  const NESTED := Conj(One(Single(1)), Paren(One(Paren(One(Paren(INNER))))))

  lemma {:induction false} NestedTokens()
    ensures ExprTokens(NESTED) == [Cond(1), AND, Open, Open, Open] + [Cond(2), AND, Cond(3), AND, Cond(4), OR, Cond(5)]
                                  + [Close, Close, Close]
  {
    assert ExprTokens(INNER) == [Cond(2), AND, Cond(3), AND, Cond(4), OR, Cond(5)] by {
      assert ExprTokens(More(One(Single(2)), And, Single(3))) == [Cond(2), AND, Cond(3)];
    }
    var b3 := One(Paren(INNER));
    assert ExprTokens(b3) == [Open] + ExprTokens(INNER) + [Close];
    assert ExprTokens(One(Paren(b3))) == [Open] + ExprTokens(b3) + [Close];
    assert ExprTokens(NESTED) == [Cond(1)] + [AND] + ([Open] + ExprTokens(One(Paren(b3))) + [Close]);
  }

  const SECOND := Snoc(Snoc(Nil, Leaf(2)), Conn(And))
  const LATE := Snoc(Snoc(Triple(Leaf(3), And, Leaf(4)), Conn(Or)), Leaf(5))
  const WRONG := Triple(Leaf(2), And, Group(LATE))

  lemma {:induction false} NestedMiddle()
    ensures Run(Running(Frame(Nil, TWO_OPEN), 1, 3, true), [Cond(2), AND, Cond(3), AND, Cond(4), OR, Cond(5)], true, 5)
         == Running(Frame(LATE, Frame(SECOND, Frame(Nil, TWO_OPEN))), 3, 3, false)
  {
    var s5 := Frame(Nil, TWO_OPEN);
    var two := SECOND;
    var three := Snoc(Snoc(Nil, Leaf(3)), Conn(And));
    Trace([Cond(2), AND, Cond(3), AND, Cond(4), OR, Cond(5)],
          [Running(s5, 1, 3, true),
           Running(Frame(Snoc(Nil, Leaf(2)), TWO_OPEN), 1, 3, false),
           Running(Frame(two, s5), 2, 3, true),
           Running(Frame(Snoc(two, Leaf(3)), s5), 2, 3, false),
           Running(Frame(three, Frame(two, s5)), 3, 3, true),
           Running(Frame(Snoc(three, Leaf(4)), Frame(two, s5)), 3, 3, false),
           Running(Frame(Snoc(Snoc(three, Leaf(4)), Conn(Or)), Frame(two, s5)), 3, 3, true),
           Running(Frame(LATE, Frame(two, s5)), 3, 3, false)], true, 5);
  }

  lemma {:induction false} NestedEnd()
    ensures Finish(Run(Running(Frame(LATE, Frame(SECOND, Frame(Nil, TWO_OPEN))), 3, 3, false),
                       [Close, Close, Close], false, 5))
         == Ok(Solo(Group(Triple(Leaf(1), And, Group(Solo(Group(Solo(Group(Solo(Group(WRONG)))))))))))
  {
    var p1 := Solo(Group(Solo(Group(Solo(Group(WRONG))))));
    Trace([Close, Close, Close],
          [Running(Frame(LATE, Frame(SECOND, Frame(Nil, TWO_OPEN))), 3, 3, false),
           Running(Frame(Solo(Group(WRONG)), TWO_OPEN), 2, 2, false),
           Running(Frame(p1, Frame(HEAD, ROOT)), 1, 1, false),
           Running(Frame(Solo(Group(Triple(Leaf(1), And, Group(p1)))), Empty), 0, 0, false)], false, 5);
  }

  function Solo(n: Node): Nodes { Snoc(Nil, n) }

  lemma {:induction false} EvalSolo(n: Node, v: nat -> bool, numCond: nat)
    requires Operand(n, numCond)
    ensures Complete(Solo(n), numCond) && Eval(Solo(n), v, numCond) == EvalNode(n, v, numCond)
  {
  }

  const ONE_IN := Solo(Group(Solo(Group(Solo(Group(WRONG))))))

  lemma {:induction false} NestedParse()
    ensures Parse(ExprTokens(NESTED), 5) == Ok(Solo(Group(Triple(Leaf(1), And, Group(ONE_IN)))))
  {
    var t1, t3 := [Cond(1), AND, Open, Open, Open], [Close, Close, Close];
    var t2 := [Cond(2), AND, Cond(3), AND, Cond(4), OR, Cond(5)];
    NestedTokens();
    ThreeOpen(5);
    NestedMiddle();
    NestedEnd();
    RunSplit(START, t1, t2, true, 5);
    RunSplit(START, t1 + t2, t3, false, 5);
  }

  lemma {:induction false} NestedValue(v: nat -> bool)
    requires !v(2)
    ensures var nodes := Solo(Group(Triple(Leaf(1), And, Group(ONE_IN))));
            Complete(nodes, 5) && !Eval(nodes, v, 5)
  {
    TripleOperand(Leaf(3), And, Leaf(4), 5);
    TripleEval(Leaf(2), And, Group(LATE), v, 5);
    EvalSolo(Group(WRONG), v, 5);
    EvalSolo(Group(Solo(Group(WRONG))), v, 5);
    EvalSolo(Group(Solo(Group(Solo(Group(WRONG))))), v, 5);
    TripleEval(Leaf(1), And, Group(ONE_IN), v, 5);
    EvalSolo(Group(Triple(Leaf(1), And, Group(ONE_IN))), v, 5);
  }

  /** `{1} and ((({2} and {3} and {4} or {5})))` is accepted and means something else: with {1} and {5}
      holding it is true, and the evaluator says false. */
  lemma {:induction false} AcceptedWithAnotherMeaning()
    ensures var v := (n: nat) => n == 1 || n == 5;
            var parsed := Parse(ExprTokens(NESTED), 5);
            && InRange(NESTED, 5) && !WellNested(NESTED)
            && parsed.Ok? && Complete(parsed.value, 5)
            && Meaning(NESTED, v) && !Eval(parsed.value, v, 5)
  {
    var v := (n: nat) => n == 1 || n == 5;
    NestedParse();
    NestedValue(v);
    NestedInRange();
    if WellNested(NESTED) { WellNestedMeaning(NESTED, v, 5); }
  }

  lemma {:induction false} NestedInRange()
    ensures InRange(NESTED, 5) && Meaning(NESTED, (n: nat) => n == 1 || n == 5)
  {
    var v := (n: nat) => n == 1 || n == 5;
    assert InRange(INNER, 5) && Meaning(INNER, v);
    var b3 := One(Paren(INNER));
    assert InRange(b3, 5) && LastRun(b3, v) && Meaning(b3, v);
    assert InRange(One(Paren(b3)), 5) && LastRun(One(Paren(b3)), v) && Meaning(One(Paren(b3)), v);
    assert LastRun(One(Single(1)), v);
  }
}

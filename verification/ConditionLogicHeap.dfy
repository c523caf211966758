/** The parser and evaluator of condition logic over list objects, as the loops run them: the list
    being filled is also the last element of the list below it, `and` moves an element from one list
    to another, and the evaluator walks the objects it is handed. */
module ConditionLogicHeap {
  import opened ConditionLogic

  datatype Item = Number(num: nat) | Word(op: Op) | Sub(list: PyList)

  class PyList {
    var items: seq<Item>
    // what the list says once nothing will be added to it any more
    ghost var value: Nodes

    constructor ()
      ensures items == []
    {
      items := [];
      value := Nil;
    }
  }

  // ----- what the objects say -----

  ghost predicate Shows(it: Item, n: Node, done: set<PyList>)
    reads done
  {
    match it
    case Number(k) => n == Leaf(k)
    case Word(op) => n == Conn(op)
    case Sub(l) => l in done && n == Group(l.value)
  }

  ghost predicate Match(items: seq<Item>, l: Nodes, done: set<PyList>)
    reads done
    decreases l
  {
    match l
    case Nil => items == []
    case Snoc(l', n) => items != [] && Shows(items[|items| - 1], n, done) && Match(items[..|items| - 1], l', done)
  }

  /** The lists nothing will be added to any more. */
  ghost predicate Done(done: set<PyList>)
    reads done
  {
    forall l | l in done :: Match(l.items, l.value, done)
  }

  /** The stack of open lists: each ends in the list above it, and `s` says what is in front. */
  ghost predicate Spine(stack: seq<PyList>, s: Stack, child: PyList?, done: set<PyList>)
    reads stack, done
    decreases s
  {
    match s
    case Empty => stack == []
    case Frame(top, below) =>
      && stack != []
      && var l := stack[|stack| - 1];
      && l !in done && l !in stack[..|stack| - 1] && l != child
      && (if child == null then Match(l.items, top, done)
          else l.items != [] && l.items[|l.items| - 1] == Sub(child) && Match(l.items[..|l.items| - 1], top, done))
      && Spine(stack[..|stack| - 1], below, l, done)
  }

  lemma {:induction false} SpineFacts(stack: seq<PyList>, s: Stack, child: PyList?, done: set<PyList>)
    requires Spine(stack, s, child, done)
    ensures |stack| == Height(s)
    ensures forall l | l in stack :: l !in done
    decreases s
  {
    if s.Frame? {
      SpineFacts(stack[..|stack| - 1], s.below, stack[|stack| - 1], done);
    }
  }

  lemma {:induction false} MatchGrows(items: seq<Item>, l: Nodes, done: set<PyList>, more: set<PyList>)
    requires Match(items, l, done) && done <= more
    ensures Match(items, l, more)
    decreases l
  {
    if l.Snoc? { MatchGrows(items[..|items| - 1], l.init, done, more); }
  }

  lemma {:induction false} SpineGrows(stack: seq<PyList>, s: Stack, child: PyList?, done: set<PyList>,
                                      more: set<PyList>)
    requires Spine(stack, s, child, done)
    requires done <= more && forall l | l in stack :: l !in more
    ensures Spine(stack, s, child, more)
    decreases s
  {
    if s.Frame? {
      var l := stack[|stack| - 1];
      MatchGrows(if child == null then l.items else l.items[..|l.items| - 1], s.top, done, more);
      SpineGrows(stack[..|stack| - 1], s.below, stack[|stack| - 1], done, more);
    }
  }

  // ----- the list operations of the parser -----

  /** `stack[-1].append([]); stack.append(stack[-1][-1])` */
  method PushNew(stack: seq<PyList>, ghost s: Stack, ghost done: set<PyList>) returns (stack': seq<PyList>)
    requires Spine(stack, s, null, done) && Done(done) && s.Frame?
    modifies stack
    ensures Spine(stack', Frame(Nil, s), null, done) && Done(done)
    ensures forall k | 0 <= k < |stack'| :: stack'[k] in stack || fresh(stack'[k])
  {
    SpineFacts(stack, s, null, done);
    var top := stack[|stack| - 1];
    var l := new PyList();
    top.items := top.items + [Sub(l)];
    stack' := stack + [l];
    assert stack'[..|stack|] == stack;
    assert top.items[..|top.items| - 1] == old(top.items);
    assert Spine(stack[..|stack| - 1], s.below, top, done);
    assert Spine(stack, s, l, done);
  }

  /** `stack[-1].append(item)` for an item that is not a list */
  method AppendTo(stack: seq<PyList>, item: Item, ghost n: Node, ghost s: Stack, ghost done: set<PyList>)
    requires Spine(stack, s, null, done) && Done(done) && s.Frame? && Shows(item, n, done)
    modifies stack
    ensures Spine(stack, Frame(Snoc(s.top, n), s.below), null, done) && Done(done)
  {
    SpineFacts(stack, s, null, done);
    var top := stack[|stack| - 1];
    top.items := top.items + [item];
    assert top.items[..|top.items| - 1] == old(top.items);
    assert Spine(stack[..|stack| - 1], s.below, top, done);
  }

  /** `stack.pop()`: the list is finished; it stays the last element of the list below. */
  method PopTop(stack: seq<PyList>, ghost s: Stack, ghost done: set<PyList>)
    returns (stack': seq<PyList>, ghost done': set<PyList>)
    requires Spine(stack, s, null, done) && Done(done) && s.Frame?
    modifies stack
    ensures stack' == stack[..|stack| - 1]
    ensures done' == done + {stack[|stack| - 1]}
    ensures Spine(stack', Pop(s), null, done') && Done(done')
    ensures stack[|stack| - 1].value == s.top
    ensures forall l | l in done :: l.value == old(l.value)
  {
    SpineFacts(stack, s, null, done);
    var top := stack[|stack| - 1];
    stack' := stack[..|stack| - 1];
    top.value := s.top;
    done' := done + {top};
    assert Spine(stack', s.below, top, done);
    SpineGrows(stack', s.below, top, done, done');
    forall l | l in done' ensures Match(l.items, l.value, done') {
      MatchGrows(l.items, l.value, done, done');
    }
    if s.below.Frame? {
      var parent := stack'[|stack'| - 1];
      MatchGrows(parent.items[..|parent.items| - 1], s.below.top, done, done');
      assert Shows(Sub(top), Group(s.top), done');
      assert Spine(stack'[..|stack'| - 1], s.below.below, parent, done');
    }
  }

  /** The lines of the `and` branch: a new list is opened behind the last operand, and the operand is
      moved into it, followed by the word. */
  method OpenAnd(stack: seq<PyList>, ghost s: Stack, ghost done: set<PyList>) returns (stack': seq<PyList>)
    requires Spine(stack, s, null, done) && Done(done) && s.Frame? && s.top.Snoc?
    modifies stack
    ensures Spine(stack', Frame(Snoc(Snoc(Nil, s.top.last), Conn(And)), Frame(s.top.init, s.below)), null, done)
    ensures Done(done)
    ensures forall k | 0 <= k < |stack'| :: stack'[k] in stack || fresh(stack'[k])
  {
    stack' := PushNew(stack, s, done);
    MoveOperand(stack', s, done);
    AppendTo(stack', Word(And), Conn(And), Frame(Snoc(Nil, s.top.last), Frame(s.top.init, s.below)), done);
  }

  /** `stack[-1].append(stack[-2].pop(-2))` on a new list */
  method MoveOperand(stack: seq<PyList>, ghost s: Stack, ghost done: set<PyList>)
    requires Spine(stack, Frame(Nil, s), null, done) && Done(done) && s.Frame? && s.top.Snoc?
    modifies stack
    ensures Spine(stack, Frame(Snoc(Nil, s.top.last), Frame(s.top.init, s.below)), null, done) && Done(done)
  {
    OperandBelow(stack, s, done);
    var l, parent := stack[|stack| - 1], stack[|stack| - 2];
    ghost var lower := stack[..|stack| - 1][..|stack| - 2];
    var k := |parent.items| - 2;
    var moved := parent.items[k];
    parent.items := parent.items[..k] + parent.items[k + 1..];
    l.items := l.items + [moved];
    assert parent.items[..|parent.items| - 1] == old(parent.items[..k]);
    assert Spine(stack[..|stack| - 1], Frame(s.top.init, s.below), l, done) by {
      assert Spine(lower, s.below, parent, done);
    }
    assert l.items == [moved] && [moved][..0] == [];
  }

  /** Below a new list there is the list with the last operand in front of the new one. */
  lemma {:induction false} OperandBelow(stack: seq<PyList>, s: Stack, done: set<PyList>)
    requires Spine(stack, Frame(Nil, s), null, done) && s.Frame? && s.top.Snoc?
    ensures |stack| >= 2 && forall o | o in stack :: o !in done
    ensures var l, parent, lower := stack[|stack| - 1], stack[|stack| - 2], stack[..|stack| - 1][..|stack| - 2];
            var k := |parent.items| - 2;
            && l != parent && l !in lower && parent !in lower && l.items == []
            && k >= 0 && parent.items[k + 1] == Sub(l) && Shows(parent.items[k], s.top.last, done)
            && Match(parent.items[..k], s.top.init, done) && Spine(lower, s.below, parent, done)
  {
    SpineFacts(stack, Frame(Nil, s), null, done);
    SpineTop(stack, Frame(Nil, s), null, done);
    var rest, l := stack[..|stack| - 1], stack[|stack| - 1];
    SpineTop(rest, s, l, done);
    var parent := rest[|rest| - 1];
    assert parent in rest && forall o | o in rest[..|rest| - 1] :: o in rest;
    var k := |parent.items| - 2;
    assert parent.items[..|parent.items| - 1][..k] == parent.items[..k];
  }

  /** The top list, and what is below it. */
  lemma {:induction false} SpineTop(stack: seq<PyList>, s: Stack, child: PyList?, done: set<PyList>)
    requires Spine(stack, s, child, done) && s.Frame?
    ensures stack != []
    ensures var l := stack[|stack| - 1];
            && l !in done && l !in stack[..|stack| - 1] && l != child
            && (if child == null then Match(l.items, s.top, done)
                else l.items != [] && l.items[|l.items| - 1] == Sub(child)
                     && Match(l.items[..|l.items| - 1], s.top, done))
            && Spine(stack[..|stack| - 1], s.below, l, done)
  {
  }

  // ----- the parser's loop -----

  /** The closing-bracket branch; `missing` is its ValueError. */
  method TakeClose(stack: seq<PyList>, nestAnd: nat, nestNestAnd: nat, ghost s: Stack, ghost done: set<PyList>)
    returns (missing: bool, stack': seq<PyList>, nestAnd': nat, nestNestAnd': nat, ghost done': set<PyList>)
    requires Spine(stack, s, null, done) && Done(done) && s.Frame?
    modifies stack
    ensures missing == s.below.Empty?
    ensures !missing ==> var both := nestAnd > 0 && nestNestAnd > 0 && nestAnd == nestNestAnd;
                         && nestAnd' == (if both then nestAnd - 1 else nestAnd)
                         && nestNestAnd' == (if both then nestNestAnd - 1 else nestNestAnd)
                         && Spine(stack', if both then Pop(Pop(s)) else Pop(s), null, done') && Done(done')
    ensures forall k | 0 <= k < |stack'| :: stack'[k] in stack
  {
    SpineFacts(stack, s, null, done);
    nestAnd', nestNestAnd' := nestAnd, nestNestAnd;
    stack', done' := PopTop(stack, s, done);
    missing := stack' == [];
    if !missing && nestAnd > 0 && nestNestAnd > 0 && nestAnd == nestNestAnd {
      stack', done' := PopTop(stack', Pop(s), done');
      nestAnd', nestNestAnd' := nestAnd - 1, nestNestAnd - 1;
    }
  }

  /** The condition branch for a number in range. */
  method TakeCond(stack: seq<PyList>, num: nat, numCond: nat, nestAnd: nat, nestNestAnd: nat,
                  ghost s: Stack, ghost done: set<PyList>)
    returns (stack': seq<PyList>, nestAnd': nat, ghost done': set<PyList>)
    requires Spine(stack, s, null, done) && Done(done) && s.Frame? && 0 < num <= numCond
    modifies stack
    ensures var grown := Frame(Snoc(s.top, Leaf(num)), s.below);
            && nestAnd' == (if nestAnd > nestNestAnd then nestAnd - 1 else nestAnd)
            && Spine(stack', if nestAnd > nestNestAnd then Pop(grown) else grown, null, done') && Done(done')
    ensures forall k | 0 <= k < |stack'| :: stack'[k] in stack
  {
    stack', nestAnd', done' := stack, nestAnd, done;
    AppendTo(stack, Number(num), Leaf(num), s, done);
    if nestAnd > nestNestAnd {
      stack', done' := PopTop(stack, Frame(Snoc(s.top, Leaf(num)), s.below), done);
      nestAnd' := nestAnd - 1;
    }
  }

  /** The local variables of the loop. */
  datatype Locals = Locals(stack: seq<PyList>, condNext: bool, boolNext: bool, openBracketNext: bool,
                           closeBracketNext: bool, nestAnd: nat, nestNestAnd: nat)

  ghost predicate Agree(v: Locals, st: State, done: set<PyList>)
    reads v.stack, done
  {
    && st.Running? && st.nestAnd == v.nestAnd && st.nestNestAnd == v.nestNestAnd
    && v.condNext == v.openBracketNext == st.operandNext
    && v.boolNext == v.closeBracketNext == !st.operandNext
    && Spine(v.stack, st.stack, null, done) && Done(done)
  }

  /** One turn of the loop. */
  method TakeToken(x: Token, hasNext: bool, v: Locals, ghost st: State, ghost done: set<PyList>, numCond: nat)
    returns (r: Result<Locals>, ghost done': set<PyList>)
    requires Agree(v, st, done)
    modifies v.stack
    ensures match r
            case Err(e) => Step(st, x, hasNext, numCond) == Failed(e)
            case Ok(v') => Agree(v', Step(st, x, hasNext, numCond), done')
    ensures r.Ok? ==> forall k | 0 <= k < |r.value.stack| :: r.value.stack[k] in v.stack || fresh(r.value.stack[k])
  {
    done' := done;
    var stack, nestAnd, nestNestAnd := v.stack, v.nestAnd, v.nestNestAnd;
    ghost var s := st.stack;
    if v.openBracketNext && x == Open {
      if stack == [] { return Err(IndexError), done; }
      stack := PushNew(stack, s, done);
      if nestAnd > 0 { nestNestAnd := nestNestAnd + 1; }
      return Ok(Locals(stack, true, false, true, false, nestAnd, nestNestAnd)), done;
    } else if v.closeBracketNext && x == Close {
      if stack == [] { return Err(IndexError), done; }
      var missing;
      missing, stack, nestAnd, nestNestAnd, done' := TakeClose(stack, nestAnd, nestNestAnd, s, done);
      if missing { return Err(OpeningMissing), done; }
      return Ok(Locals(stack, false, true, false, true, nestAnd, nestNestAnd)), done';
    } else if v.condNext && x.Cond? {
      if !(0 < x.num <= numCond) { return Err(InvalidNumber), done; }
      if stack == [] { return Err(IndexError), done; }
      stack, nestAnd, done' := TakeCond(stack, x.num, numCond, nestAnd, nestNestAnd, s, done);
      return Ok(Locals(stack, false, true, false, true, nestAnd, nestNestAnd)), done';
    } else if v.boolNext && x == Bool(And) && hasNext {
      if stack == [] { return Err(IndexError), done; }
      if |stack[|stack| - 1].items| == 0 { return Err(IndexError), done; }
      stack := OpenAnd(stack, s, done);
      return Ok(Locals(stack, true, false, true, false, nestAnd + 1, nestNestAnd)), done;
    } else if v.boolNext && x == Bool(Or) && hasNext {
      if stack == [] { return Err(IndexError), done; }
      AppendTo(stack, Word(Or), Conn(Or), s, done);
      return Ok(Locals(stack, true, false, true, false, nestAnd, nestNestAnd)), done;
    } else {
      assert x.Bool? ==> x == Bool(x.op) && (x.op.And? || x.op.Or?);
      assert Step(st, x, hasNext, numCond) == Failed(InvalidLogic);
      return Err(InvalidLogic), done;
    }
  }

  /** The parser's state behind the first `i` tokens. */
  ghost function Behind(toks: seq<Token>, i: nat, numCond: nat): State
    requires i <= |toks|
  {
    Run(START, toks[..i], i < |toks|, numCond)
  }

  /** One turn of the loop, by its number. */
  method TakeNext(toks: seq<Token>, i: nat, v: Locals, ghost done: set<PyList>, numCond: nat)
    returns (r: Result<Locals>, ghost done': set<PyList>)
    requires i < |toks| && Agree(v, Behind(toks, i, numCond), done)
    modifies v.stack
    ensures match r
            case Err(e) => Parse(toks, numCond) == Err(e)
            case Ok(v') => Agree(v', Behind(toks, i + 1, numCond), done')
    ensures r.Ok? ==> forall k | 0 <= k < |r.value.stack| :: r.value.stack[k] in v.stack || fresh(r.value.stack[k])
  {
    BehindNext(toks, i, numCond);
    r, done' := TakeToken(toks[i], i < |toks| - 1, v, Behind(toks, i, numCond), done, numCond);
  }

  method ParseConditionLogic(toks: seq<Token>, numCond: nat) returns (r: Result<PyList>, ghost done: set<PyList>)
    ensures match r
            case Err(e) => Parse(toks, numCond) == Err(e)
            case Ok(l) => l in done && Done(done) && Parse(toks, numCond) == Ok(l.value)
  {
    var root := new PyList();
    var v := Locals([root], true, false, true, false, 0, 0);
    done := {};
    BehindAll(toks, numCond);
    var i := 0;
    while i < |toks|
      invariant 0 <= i <= |toks|
      invariant Agree(v, Behind(toks, i, numCond), done)
      invariant forall k | 0 <= k < |v.stack| :: fresh(v.stack[k])
    {
      var step;
      step, done := TakeNext(toks, i, v, done, numCond);
      if step.Err? { return Err(step.error), done; }
      v := step.value;
      i := i + 1;
    }
    r, done := TakeRoot(v, Behind(toks, i, numCond), done);
  }

  /** The end of the parser: one list must be left, and it is the result. */
  method TakeRoot(v: Locals, ghost st: State, ghost done: set<PyList>) returns (r: Result<PyList>, ghost done': set<PyList>)
    requires Agree(v, st, done)
    modifies v.stack
    ensures match r
            case Err(e) => Finish(st) == Err(e)
            case Ok(l) => l in done' && Done(done') && Finish(st) == Ok(l.value)
  {
    done' := done;
    SpineFacts(v.stack, st.stack, null, done);
    if |v.stack| > 1 { return Err(ClosingMissing), done; }
    if v.stack == [] { return Err(IndexError), done; }
    r := Ok(v.stack[|v.stack| - 1]);
    var rest;
    rest, done' := PopTop(v.stack, st.stack, done);
  }

  lemma {:induction false} BehindAll(toks: seq<Token>, numCond: nat)
    ensures Behind(toks, 0, numCond) == START
    ensures Parse(toks, numCond) == Finish(Behind(toks, |toks|, numCond))
  {
    assert toks[..0] == [] && toks[..|toks|] == toks;
  }

  /** One token on, or the error it ends with. */
  lemma {:induction false} BehindNext(toks: seq<Token>, i: nat, numCond: nat)
    requires i < |toks|
    ensures var next := Step(Behind(toks, i, numCond), toks[i], i < |toks| - 1, numCond);
            && Behind(toks, i + 1, numCond) == next
            && (next.Failed? ==> Parse(toks, numCond) == Err(next.error))
  {
    assert toks[..i + 1][..i] == toks[..i];
    var next := Behind(toks, i + 1, numCond);
    assert toks[..i + 1] + toks[i + 1..] == toks;
    RunSplit(START, toks[..i + 1], toks[i + 1..], false, numCond);
    if next.Failed? { RunFailed(next.error, toks[i + 1..], false, numCond); }
  }

  // ----- the evaluator's loop -----

  /** The evaluated conditions; the list starts with a None for the number 0. */
  function Values(conds: seq<bool>): nat -> bool {
    (n: nat) => n < |conds| && conds[n]
  }

  method EvalLogicGroups(l: PyList, conds: seq<bool>, ghost done: set<PyList>, ghost numCond: nat) returns (result: bool)
    requires Done(done) && l in done && Complete(l.value, numCond) && |conds| == numCond + 1
    ensures result == Eval(l.value, Values(conds), numCond)
    decreases l.value
  {
    ghost var v := Values(conds);
    Element(l.items, l.value, 0, done, numCond);
    assert Front(l.value, 1).init == Nil;
    result := EvalItem(l.items[0], Front(l.value, 1).last, conds, done, numCond);
    var i := 1;
    while i + 1 < |l.items|
      invariant 1 <= i <= |l.items| == Length(l.value) && i % 2 == 1
      invariant Complete(Front(l.value, i), numCond) && result == Eval(Front(l.value, i), v, numCond)
    {
      NextPair(l.items, l.value, i, v, done, numCond);
      var cond := EvalItem(l.items[i + 1], Front(l.value, i + 2).last, conds, done, numCond);
      if l.items[i] == Word(And) {
        result := result && cond;
      } else if l.items[i] == Word(Or) {
        result := result || cond;
      }
      i := i + 2;
    }
    assert Front(l.value, i) == l.value;
  }

  /** A word and an operand further on. */
  lemma {:induction false} NextPair(items: seq<Item>, l: Nodes, i: nat, v: nat -> bool, done: set<PyList>, numCond: nat)
    requires Match(items, l, done) && Complete(l, numCond) && i + 1 < |items| && i % 2 == 1
    requires Complete(Front(l, i), numCond)
    ensures |items| % 2 == 1
    ensures Complete(Front(l, i + 2), numCond) && Front(l, i + 2).last < l
    ensures Operand(Front(l, i + 2).last, numCond) && Shows(items[i + 1], Front(l, i + 2).last, done)
    ensures items[i].Word?
    ensures Eval(Front(l, i + 2), v, numCond)
         == Apply(items[i].op, Eval(Front(l, i), v, numCond), EvalNode(Front(l, i + 2).last, v, numCond))
  {
    Element(items, l, i, done, numCond);
    Element(items, l, i + 1, done, numCond);
  }

  method EvalItem(it: Item, ghost n: Node, conds: seq<bool>, ghost done: set<PyList>, ghost numCond: nat) returns (b: bool)
    requires Done(done) && Shows(it, n, done) && Operand(n, numCond) && |conds| == numCond + 1
    ensures b == EvalNode(n, Values(conds), numCond)
    decreases n
  {
    if it.Sub? {
      b := EvalLogicGroups(it.list, conds, done, numCond);
    } else {
      b := conds[it.num];
    }
  }

  /** The first elements of a list. */
  function Front(l: Nodes, n: nat): Nodes {
    if Length(l) <= n then l else Front(l.init, n)
  }

  /** What the loop finds at an index. */
  lemma {:induction false} Element(items: seq<Item>, l: Nodes, i: nat, done: set<PyList>, numCond: nat)
    requires Match(items, l, done) && Complete(l, numCond) && i < |items|
    ensures |items| == Length(l) && |items| % 2 == 1
    ensures Front(l, i + 1).Snoc? && Front(l, i + 1).init == Front(l, i) && Length(Front(l, i + 1)) == i + 1
    ensures Shows(items[i], Front(l, i + 1).last, done) && Front(l, i + 1).last < l
    ensures if i % 2 == 0 then Complete(Front(l, i + 1), numCond) else Front(l, i + 1).last.Conn?
    decreases l
  {
    var n := |items|;
    assert Match(items[..n - 1], l.init, done);
    if l.init.Snoc? {
      var two := items[..n - 1];
      assert Match(two[..n - 2], l.init.init, done);
      assert two[..n - 2] == items[..n - 2];
      if i < n - 2 {
        Element(items[..n - 2], l.init.init, i, done, numCond);
        assert Front(l, i + 1) == Front(l.init.init, i + 1) && Front(l, i) == Front(l.init.init, i);
      } else {
        Element(items[..n - 2], l.init.init, 0, done, numCond);
      }
    }
  }
}

/** The stable sort behind Python's `sorted`, as a function on sequences. */
module StableSort {

  /** `leq` compares any two elements, and comparing chains. */
  ghost predicate Comparable<T(!new)>(leq: (T, T) -> bool) {
    && (forall a, b :: leq(a, b) || leq(b, a))
    && (forall a, b, c :: leq(a, b) && leq(b, c) ==> leq(a, c))
  }

  /** Puts `x` in front of the first element that is not smaller. */
  function Insert<T>(x: T, s: seq<T>, leq: (T, T) -> bool): seq<T> {
    if s == [] || leq(x, s[0]) then [x] + s else [s[0]] + Insert(x, s[1..], leq)
  }

  function Sorted<T>(s: seq<T>, leq: (T, T) -> bool): seq<T> {
    if s == [] then [] else Insert(s[0], Sorted(s[1..], leq), leq)
  }

  ghost predicate InOrder<T(!new)>(s: seq<T>, leq: (T, T) -> bool) {
    forall i, j | 0 <= i < j < |s| :: leq(s[i], s[j])
  }

  lemma {:induction false} InsertContents<T>(x: T, s: seq<T>, leq: (T, T) -> bool)
    ensures multiset(Insert(x, s, leq)) == multiset{x} + multiset(s)
    ensures |Insert(x, s, leq)| == |s| + 1
  {
    if s == [] || leq(x, s[0]) {
    } else {
      InsertContents(x, s[1..], leq);
      assert s == [s[0]] + s[1..];
    }
  }

  lemma {:induction false} SortedContents<T>(s: seq<T>, leq: (T, T) -> bool)
    ensures multiset(Sorted(s, leq)) == multiset(s)
    ensures |Sorted(s, leq)| == |s|
  {
    if s != [] {
      SortedContents(s[1..], leq);
      InsertContents(s[0], Sorted(s[1..], leq), leq);
      assert s == [s[0]] + s[1..];
    }
  }

  /** `rel` holds between every element and every later one. */
  ghost predicate Chain<T(!new)>(s: seq<T>, rel: (T, T) -> bool) {
    forall i, j | 0 <= i < j < |s| :: rel(s[i], s[j])
  }

  /** What the sort makes of an order it finds: `leq` decides, and ties stay as they were. */
  function Refine<T>(leq: (T, T) -> bool, rel: (T, T) -> bool): (T, T) -> bool {
    (a, b) => !leq(b, a) || (leq(a, b) && rel(a, b))
  }

  /** A first element that stands in the relation to all others. */
  lemma {:induction false} ChainFrom<T(!new)>(x: T, s: seq<T>, rel: (T, T) -> bool)
    requires Chain(s, rel) && forall y | y in s :: rel(x, y)
    ensures Chain([x] + s, rel)
  {
    var r := [x] + s;
    forall i, j | 0 <= i < j < |r| ensures rel(r[i], r[j]) {
      assert r[j] == s[j - 1];
      if i > 0 { assert rel(s[i - 1], s[j - 1]); }
    }
  }

  lemma {:induction false} InsertChain<T(!new)>(x: T, s: seq<T>, leq: (T, T) -> bool, rel: (T, T) -> bool)
    requires Comparable(leq)
    requires Chain(s, Refine(leq, rel))
    requires forall y | y in s :: rel(x, y)
    ensures Chain(Insert(x, s, leq), Refine(leq, rel))
  {
    var both := Refine(leq, rel);
    if s == [] {
    } else if leq(x, s[0]) {
      forall y | y in s ensures both(x, y) {
        var j :| 0 <= j < |s| && s[j] == y;
        assert j > 0 ==> both(s[0], s[j]);
      }
      ChainFrom(x, s, both);
    } else {
      ChainTail(s, both);
      InsertChain(x, s[1..], leq, rel);
      var t := Insert(x, s[1..], leq);
      InsertContents(x, s[1..], leq);
      forall y | y in t ensures both(s[0], y) {
        assert y in multiset(t);
        if y != x {
          assert y in s[1..];
          var k :| 0 <= k < |s[1..]| && s[1..][k] == y;
          assert both(s[0], s[k + 1]);
        }
      }
      ChainFrom(s[0], t, both);
    }
  }

  /** Stability: whatever held between earlier and later elements still orders the ties. */
  lemma {:induction false} SortedChain<T(!new)>(s: seq<T>, leq: (T, T) -> bool, rel: (T, T) -> bool)
    requires Comparable(leq)
    requires Chain(s, rel)
    ensures Chain(Sorted(s, leq), Refine(leq, rel))
  {
    if s != [] {
      var t := s[1..];
      assert Chain(t, rel) by {
        forall i, j | 0 <= i < j < |t| ensures rel(t[i], t[j]) { assert rel(s[i + 1], s[j + 1]); }
      }
      SortedChain(t, leq, rel);
      SortedContents(t, leq);
      forall y | y in Sorted(t, leq) ensures rel(s[0], y) {
        assert y in multiset(Sorted(t, leq));
        assert y in t;
        var k :| 0 <= k < |t| && t[k] == y;
        assert rel(s[0], s[k + 1]);
      }
      InsertChain(s[0], Sorted(t, leq), leq, rel);
    }
  }

  lemma {:induction false} SortedInOrder<T(!new)>(s: seq<T>, leq: (T, T) -> bool)
    requires Comparable(leq)
    ensures InOrder(Sorted(s, leq), leq)
  {
    var any := (a: T, b: T) => true;
    SortedChain(s, leq, any);
    var r := Sorted(s, leq);
    forall i, j | 0 <= i < j < |r| ensures leq(r[i], r[j]) {
      assert Refine(leq, any)(r[i], r[j]);
    }
  }

  lemma {:induction false} FirstIsElement<T>(s: seq<T>)
    ensures s != [] ==> s[0] in multiset(s)
  {
  }

  /** At most one arrangement of the elements is a chain of a strict order. */
  lemma {:induction false} ChainIsUnique<T(!new)>(s: seq<T>, t: seq<T>, rel: (T, T) -> bool)
    requires multiset(s) == multiset(t) && Chain(s, rel) && Chain(t, rel)
    requires forall a, b :: rel(a, b) ==> !rel(b, a)
    ensures s == t
  {
    if s == [] {
      FirstIsElement(t);
    } else {
      assert s[0] in multiset(t);
      ChainHead(s, t, rel);
      TailContents(s);
      TailContents(t);
      ChainTail(s, rel);
      ChainTail(t, rel);
      ChainIsUnique(s[1..], t[1..], rel);
    }
  }

  lemma {:induction false} TailContents<T>(s: seq<T>)
    requires s != []
    ensures multiset(s[1..]) == multiset(s) - multiset{s[0]}
  {
    assert s == [s[0]] + s[1..];
  }

  lemma {:induction false} ChainHead<T(!new)>(s: seq<T>, t: seq<T>, rel: (T, T) -> bool)
    requires s != [] && t != [] && multiset(s) == multiset(t) && Chain(s, rel) && Chain(t, rel)
    requires forall a, b :: rel(a, b) ==> !rel(b, a)
    ensures s[0] == t[0]
  {
    assert s[0] in multiset(t) && t[0] in multiset(s);
    var i :| 0 <= i < |t| && t[i] == s[0];
    var j :| 0 <= j < |s| && s[j] == t[0];
    assert j > 0 ==> rel(s[0], s[j]);
    assert i > 0 ==> rel(t[0], t[i]);
  }

  lemma {:induction false} ChainTail<T(!new)>(s: seq<T>, rel: (T, T) -> bool)
    requires s != [] && Chain(s, rel)
    ensures Chain(s[1..], rel)
  {
    forall i, j | 0 <= i < j < |s[1..]| ensures rel(s[1..][i], s[1..][j]) { assert rel(s[i + 1], s[j + 1]); }
  }
}

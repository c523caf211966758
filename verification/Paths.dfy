/** Dotted paths into nested dictionaries. */
module Paths {

  type Key = string

  /** A dotted path, last key outermost. */
  datatype Path = Root | Down(parent: Path, key: Key)

  /** `q` is `p` or below it. */
  predicate Extends(q: Path, p: Path) {
    q == p || (q.Down? && Extends(q.parent, p))
  }

  predicate Comparable(q: Path, p: Path) {
    Extends(q, p) || Extends(p, q)
  }

  /** The key with which `q` leaves `p`. */
  function StepBelow(q: Path, p: Path): Key
    requires Extends(q, p) && q != p
  {
    if q.parent == p then q.key else StepBelow(q.parent, p)
  }

  function Length(p: Path): nat {
    if p == Root then 0 else 1 + Length(p.parent)
  }

  lemma {:induction false} ExtendsLength(q: Path, p: Path)
    requires Extends(q, p)
    ensures Length(q) >= Length(p)
    ensures Length(q) == Length(p) ==> q == p
  {
    if q != p { ExtendsLength(q.parent, p); }
  }

  lemma {:induction false} ExtendsTransitive(r: Path, q: Path, p: Path)
    requires Extends(r, q) && Extends(q, p)
    ensures Extends(r, p)
  {
    if r != q { ExtendsTransitive(r.parent, q, p); }
  }

  lemma {:induction false} AboveItsItems(p: Path, k: Key)
    ensures !Extends(p, Down(p, k))
  {
    if Extends(p, Down(p, k)) { ExtendsLength(p, Down(p, k)); }
  }

  /** Below `p` a path goes on with exactly one key. */
  lemma {:induction false} StepBelowIs(q: Path, p: Path, k: Key)
    ensures Extends(q, Down(p, k)) <==> Extends(q, p) && q != p && StepBelow(q, p) == k
  {
    AboveItsItems(p, k);
    if q.Down? {
      StepBelowIs(q.parent, p, k);
      AboveItsItems(q.parent, q.key);
    }
  }

  lemma {:induction false} StepSame(r: Path, q: Path, p: Path)
    requires Extends(r, q) && Extends(q, p) && q != p
    ensures Extends(r, p) && r != p && StepBelow(r, p) == StepBelow(q, p)
  {
    ExtendsTransitive(r, q, p);
    if r != q {
      StepSame(r.parent, q, p);
      AboveItsItems(r.parent, r.key);
      ExtendsLength(r.parent, p);
    }
  }

  lemma {:induction false} SamePath(q: Path, p: Path)
    requires Extends(q, p) && Extends(p, q)
    ensures q == p
  {
    ExtendsLength(q, p);
    ExtendsLength(p, q);
  }

  lemma {:induction false} AllExtendRoot(q: Path)
    ensures Extends(q, Root)
  {
    if q != Root { AllExtendRoot(q.parent); }
  }
}

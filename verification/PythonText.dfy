/** Numbers as text, and the order and the lower case of text. */
module PythonText {

  function Digit(d: nat): char
    requires d < 10
  {
    "0123456789"[d]
  }

  /** `str` of a number */
  function Text(n: nat): (s: string)
    ensures s != []
  {
    if n < 10 then [Digit(n)] else Text(n / 10) + [Digit(n % 10)]
  }

  /** The order of strings: the first difference decides, and a prefix comes first. */
  predicate TextBefore(a: string, b: string) {
    b != [] && (a == [] || a[0] < b[0] || (a[0] == b[0] && TextBefore(a[1..], b[1..])))
  }

  /** `lower()`, for the letters A to Z */
  function Lower(s: string): string {
    if s == [] then [] else [if 'A' <= s[0] <= 'Z' then s[0] - 'A' + 'a' else s[0]] + Lower(s[1..])
  }

  lemma {:induction false} TextTotal(a: string, b: string)
    ensures a == b || TextBefore(a, b) || TextBefore(b, a)
    ensures !(TextBefore(a, b) && (a == b || TextBefore(b, a)))
  {
    if a != [] && b != [] {
      TextTotal(a[1..], b[1..]);
      assert a == [a[0]] + a[1..] && b == [b[0]] + b[1..];
    }
  }

  lemma {:induction false} TextTransitive(a: string, b: string, c: string)
    requires TextBefore(a, b) && TextBefore(b, c)
    ensures TextBefore(a, c)
  {
    if a != [] && a[0] == b[0] == c[0] {
      TextTransitive(a[1..], b[1..], c[1..]);
    }
  }

  /** Every letter becomes its small one, and all else stays. */
  lemma {:induction false} LowerAt(s: string, i: nat)
    requires i < |s|
    ensures |Lower(s)| == |s|
    ensures Lower(s)[i] == if 'A' <= s[i] <= 'Z' then (s[i] as int + 32) as char else s[i]
  {
    if i > 0 { LowerAt(s[1..], i - 1); } else if |s| > 1 { LowerAt(s[1..], 0); }
  }

  /** The texts agree up to a place at which the first one ends or has the smaller character. */
  predicate Differs(a: string, b: string, n: nat) {
    n <= |a| && n < |b| && a[..n] == b[..n] && (n == |a| || a[n] < b[n])
  }

  lemma {:induction false} TextBeforeAt(a: string, b: string) returns (n: nat)
    requires TextBefore(a, b)
    ensures Differs(a, b, n)
  {
    if a == [] || a[0] < b[0] {
      n := 0;
    } else {
      n := TextBeforeAt(a[1..], b[1..]);
      assert a[..n + 1] == [a[0]] + a[1..][..n] && b[..n + 1] == [b[0]] + b[1..][..n];
      n := n + 1;
    }
  }

  lemma {:induction false} DiffersIsBefore(a: string, b: string, n: nat)
    requires Differs(a, b, n)
    ensures TextBefore(a, b)
  {
    if n > 0 {
      assert a[0] == a[..n][0] == b[..n][0] == b[0];
      assert a[1..][..n - 1] == a[..n][1..] && b[1..][..n - 1] == b[..n][1..];
      DiffersIsBefore(a[1..], b[1..], n - 1);
    }
  }

  /** The order of texts, by the first difference. */
  lemma {:induction false} TextBeforeMeans(a: string, b: string)
    ensures TextBefore(a, b) <==> exists n: nat :: Differs(a, b, n)
  {
    if TextBefore(a, b) { var n := TextBeforeAt(a, b); }
    if n: nat :| Differs(a, b, n) { DiffersIsBefore(a, b, n); }
  }
}

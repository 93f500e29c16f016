/** Facts about sequences that the solver has to be told. */
module Sequences {

  lemma Regroup<T>(a: seq<T>, b: seq<T>, c: seq<T>)
    ensures a + b + c == a + (b + c)
  {
  }

  lemma RegroupFour<T>(a: seq<T>, b: seq<T>, c: seq<T>, d: seq<T>)
    ensures a + b + c + d == a + (b + (c + d))
  {
  }

  lemma RegroupSix<T>(a: seq<T>, b: seq<T>, c: seq<T>, d: seq<T>, e: seq<T>, f: seq<T>)
    ensures a + b + c + d + e + f == a + (b + (c + (d + (e + f))))
  {
    RegroupFour(a + b, c, d, e + f);
    RegroupFour(a, b, c, d + (e + f));
    RegroupFour(a + b + c, d, e, f);
  }

  /** Moving on by one element and then by n - 1 more. */
  lemma OneByOne<T>(done: seq<T>, s: seq<T>, n: nat)
    requires 1 <= n <= |s|
    ensures done + [s[0]] + s[1..][..n - 1] == done + s[..n]
    ensures s[1..][n - 1..] == s[n..] && s[..n] == [s[0]] + s[1..][..n - 1]
  {
  }
}

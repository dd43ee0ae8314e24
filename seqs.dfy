/** Facts about sequence slicing and concatenation used by the in-place insertions. */
module Seqs {
  lemma SplitConcat<T>(a: seq<T>, b: seq<T>)
    ensures (a + b)[..|a|] == a && (a + b)[|a|..] == b
  {
  }

  /** Inserting `x` at the seam between `p + q` and `s` extends `q`. */
  lemma InsertAtSeam<T>(p: seq<T>, q: seq<T>, s: seq<T>, x: T)
    ensures var b := p + q + s; b[..|p| + |q|] + [x] + b[|p| + |q|..] == p + (q + [x]) + s
  {
    SplitConcat(p + q, s);
  }

  lemma TakeSnoc<T>(s: seq<T>, i: nat)
    requires i < |s|
    ensures s[..i + 1] == s[..i] + [s[i]]
  {
  }

  lemma TakeAll<T>(s: seq<T>)
    ensures s[..|s|] == s
  {
  }

  lemma Assoc<T>(a: seq<T>, b: seq<T>, c: seq<T>)
    ensures a + (b + c) == (a + b) + c
  {
  }

  lemma Regroup<T>(a: seq<T>, b: seq<T>, c: seq<T>, d: seq<T>)
    ensures a + b + c + d == a + (b + c) + d
  {
  }

  /** Overwriting the element just after the seam between `p + q` and `s`. */
  lemma ReplaceAtSeam<T>(p: seq<T>, q: seq<T>, s: seq<T>, x: T)
    requires s != []
    ensures (p + q + s)[|p| + |q| := x] == p + (q + [x]) + s[1..]
  {
  }

  /** A sequence of length `j + k + 1` as a head of `j`, a middle of `k` and its last element. */
  lemma SplitThree<T>(cs: seq<T>, j: nat, k: nat)
    requires j + k < |cs|
    ensures j + k + 1 == |cs| ==> cs == cs[..j] + cs[j..j + k] + [cs[j + k]]
    ensures j == 1 ==> cs[..j] == [cs[0]]
    ensures j == 0 ==> cs[..j] == [] && cs == [cs[0]] + cs[1..]
  {
  }
}

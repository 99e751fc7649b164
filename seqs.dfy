/** Small facts about sequences, stated once for every element type. */
module Seqs {
  /** Taking one more element of a prefix appends that element. */
  lemma PrefixGrows<T>(s: seq<T>, i: nat)
    requires i < |s|
    ensures s[..i + 1] == s[..i] + [s[i]]
  {
  }

  /** A non-empty suffix is its first element followed by the next suffix. */
  lemma SuffixShrinks<T>(s: seq<T>, k: nat)
    requires k < |s|
    ensures s[k..] == [s[k]] + s[k + 1..]
  {
  }

  /** The prefix of full length is the whole sequence. */
  lemma WholePrefix<T>(s: seq<T>)
    ensures s[..|s|] == s
  {
  }

  /** Concatenation regroups freely. */
  lemma Regroup<T>(a: seq<T>, x: seq<T>, y: seq<T>, c: seq<T>)
    ensures a + x + y + c == a + (x + y + c)
  {
  }
}

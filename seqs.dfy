/** Facts about removing or replacing one element of a sequence in place. */
module Seqs {

  /** A sequence split around position `i`: dropping or replacing the element
      there leaves the parts on either side as they were. */
  lemma SplitAt<T>(s: seq<T>, prefix: seq<T>, x: T, rest: seq<T>, y: T)
    requires s == prefix + [x] + rest
    ensures s[|prefix|] == x
    ensures s[..|prefix|] + s[|prefix| + 1..] == prefix + rest
    ensures s == prefix + ([x] + rest)
    ensures s[|prefix| := y] == prefix + ([y] + rest)
  {
    assert s[..|prefix|] == prefix;
    assert s[|prefix| + 1..] == rest;
  }
}

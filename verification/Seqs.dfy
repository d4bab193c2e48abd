/** Facts about sequences that the verifier needs to be told one at a time. */
module Seqs {

  lemma Associative<T>(a: seq<T>, b: seq<T>, c: seq<T>)
    ensures (a + b) + c == a + (b + c)
  {
  }

  lemma FrontAndLast<T>(s: seq<T>)
    requires s != []
    ensures s == s[..|s| - 1] + [s[|s| - 1]]
  {
  }

  lemma PrefixOfLonger<T>(s: seq<T>, x: T, i: nat)
    requires i <= |s|
    ensures (s + [x])[..i] == s[..i] && (i < |s| ==> (s + [x])[i] == s[i])
  {
  }

  lemma SlicesOfThree<T>(a: seq<T>, b: seq<T>, c: seq<T>)
    ensures var s := (a + b) + c;
            s[..|a|] == a && s[|a|..|a| + |b|] == b && s[|a| + |b|..] == c
  {
  }
}

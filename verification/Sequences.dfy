/** Facts about appending sequences. */
module Sequences {
  lemma AppendAssoc<T>(a: seq<T>, b: seq<T>, c: seq<T>)
    ensures (a + b) + c == a + (b + c)
  {
  }

  lemma AppendedSame<T>(own: seq<T>, a: seq<T>, b: seq<T>)
    ensures own + a == own + b <==> a == b
  {
    assert (own + a)[|own|..] == a && (own + b)[|own|..] == b;
  }

  lemma SplitLast<T>(s: seq<T>)
    requires s != []
    ensures s == s[..|s| - 1] + [s[|s| - 1]]
  {
  }
}

/** The string searches of JavaScript that the ssh config editors are built on:
    `indexOf`, `includes` and `replace` of the first occurrence. */
module Text {
  import Sequences
  predicate OccursAt(s: string, t: string, i: nat) {
    i + |t| <= |s| && s[i..i + |t|] == t
  }

  /** First occurrence at or after `i`, or -1. */
  function IndexFrom(s: string, t: string, i: nat): (r: int)
    requires i <= |s|
    ensures r == -1 || (i <= r && OccursAt(s, t, r))
    decreases |s| - i
  {
    if OccursAt(s, t, i) then i
    else if i == |s| then -1
    else IndexFrom(s, t, i + 1)
  }

  function IndexOf(s: string, t: string): (r: int)
    ensures r == -1 || (0 <= r && OccursAt(s, t, r))
  {
    IndexFrom(s, t, 0)
  }

  lemma {:induction false} IndexFromFirst(s: string, t: string, i: nat)
    requires i <= |s|
    ensures IndexFrom(s, t, i) == -1 ==> forall k: nat :: i <= k ==> !OccursAt(s, t, k)
    ensures forall k: nat :: i <= k < IndexFrom(s, t, i) ==> !OccursAt(s, t, k)
    decreases |s| - i
  {
    if !OccursAt(s, t, i) && i < |s| {
      IndexFromFirst(s, t, i + 1);
    }
  }

  predicate Includes(s: string, t: string) {
    IndexOf(s, t) >= 0
  }

  /** `indexOf` finds the first occurrence, and finds none exactly when there is none. */
  lemma IncludesIff(s: string, t: string)
    ensures Includes(s, t) <==> exists k: nat :: OccursAt(s, t, k)
    ensures forall k: nat :: k < IndexOf(s, t) ==> !OccursAt(s, t, k)
  {
    IndexFromFirst(s, t, 0);
  }

  function ReplaceFirst(s: string, t: string, replacement: string): string {
    var i := IndexOf(s, t);
    if i == -1 then s else s[..i] + replacement + s[i + |t|..]
  }

  /** The text is empty or ends a line. */
  predicate EndsLine(s: string) {
    s == "" || s[|s| - 1] == '\n'
  }

  predicate OneLine(s: string) {
    '\n' !in s
  }

  lemma OccursIn(s: string, pre: string, t: string, post: string)
    requires s == pre + t + post
    ensures OccursAt(s, t, |pre|) && Includes(s, t)
  {
    assert OccursAt(s, t, |pre|);
    IncludesIff(s, t);
  }

  lemma OccursWithin(s: string, t: string, i: nat, u: string, j: nat)
    requires OccursAt(s, t, i) && OccursAt(t, u, j)
    ensures OccursAt(s, u, i + j)
  {
    forall k | 0 <= k < |u| ensures s[i + j + k] == u[k] {
      assert s[i + (j + k)] == s[i..i + |t|][j + k] && t[j + k] == t[j..j + |u|][k];
    }
  }

  lemma IncludesTransitive(s: string, t: string, u: string)
    requires Includes(s, t) && Includes(t, u)
    ensures Includes(s, u)
  {
    var i, j := IndexOf(s, t), IndexOf(t, u);
    OccursWithin(s, t, i, u, j);
    IncludesIff(s, u);
  }

  /** A text without some character of `t` does not include `t`. */
  lemma MissingChar(s: string, t: string, c: char)
    requires c in t && c !in s
    ensures !Includes(s, t)
  {
  }

  /** An occurrence of a one-line text does not contain a line break. */
  lemma OccursBeside(s: string, t: string, k: nat, at: nat)
    requires OneLine(t) && OccursAt(s, t, k) && at < |s| && s[at] == '\n'
    ensures k + |t| <= at || at < k
  {
  }

  lemma IncludesGrow(a: string, b: string, t: string)
    requires Includes(a, t)
    ensures Includes(a + b, t)
  {
    var k := IndexOf(a, t);
    assert a + b == a[..k] + t + (a[k + |t|..] + b);
    OccursIn(a + b, a[..k], t, a[k + |t|..] + b);
  }

  lemma IncludesLater(a: string, b: string, t: string)
    requires Includes(b, t)
    ensures Includes(a + b, t)
  {
    var k := IndexOf(b, t);
    assert a + b == (a + b[..k]) + t + b[k + |t|..];
    OccursIn(a + b, a + b[..k], t, b[k + |t|..]);
  }

  lemma OccursAround(a: string, b: string, t: string, k: nat)
    requires OneLine(t) && OccursAt(a + "\n" + b, t, k)
    ensures Includes(a, t) || Includes(b, t)
  {
    var s := a + "\n" + b;
    OccursBeside(s, t, k, |a|);
    if k + |t| <= |a| {
      assert s[k..k + |t|] == a[k..k + |t|];
      assert OccursAt(a, t, k);
      IncludesIff(a, t);
    } else {
      var j: nat := k - |a| - 1;
      assert s[k..k + |t|] == b[j..j + |t|];
      assert OccursAt(b, t, j);
      IncludesIff(b, t);
    }
  }

  /** Searching a one-line text in two halves around a line break. */
  lemma IncludesAround(a: string, b: string, t: string)
    requires OneLine(t) && t != ""
    ensures Includes(a + "\n" + b, t) <==> Includes(a, t) || Includes(b, t)
  {
    if Includes(a + "\n" + b, t) {
      OccursAround(a, b, t, IndexOf(a + "\n" + b, t));
    }
    if Includes(a, t) {
      IncludesGrow(a, "\n", t);
      IncludesGrow(a + "\n", b, t);
    }
    if Includes(b, t) {
      IncludesLater(a + "\n", b, t);
    }
  }

  lemma EmptyIncludes(t: string)
    requires t != ""
    ensures !Includes("", t)
  {
  }

  /** Searching a one-line text in two halves that meet at a line end. */
  lemma IncludesSplit(a: string, b: string, t: string)
    requires EndsLine(a) && OneLine(t) && t != ""
    ensures Includes(a + b, t) <==> Includes(a, t) || Includes(b, t)
  {
    EmptyIncludes(t);
    if a == "" {
      assert a + b == b;
    } else {
      var body := a[..|a| - 1];
      assert a == body + "\n" + "" && a + b == body + "\n" + b;
      IncludesAround(body, b, t);
      IncludesAround(body, "", t);
    }
  }

  /** Removing the first occurrence, when it is known where that is. */
  lemma RemoveFirst(pre: string, t: string, post: string)
    requires forall k: nat :: k < |pre| ==> !OccursAt(pre + t + post, t, k)
    ensures ReplaceFirst(pre + t + post, t, "") == pre + post
  {
    var s := pre + t + post;
    OccursIn(s, pre, t, post);
    IncludesIff(s, t);
    assert IndexOf(s, t) == |pre|;
    assert s[..|pre|] == pre && s[|pre| + |t|..] == post;
  }

  lemma OccursPart(s: string, a: string, b: string, c: string, k: nat)
    requires OccursAt(s, a + b + c, k)
    ensures OccursAt(s, b, k + |a|)
  {
    var t := a + b + c;
    assert OccursAt(t, b, |a|);
    OccursWithin(s, t, k, b, |a|);
  }

  // ---------- Whole lines ----------

  /** The text `t` is a whole line of `s`, at position `k`. */
  ghost predicate LineAt(s: string, t: string, k: nat) {
    && OccursAt(s, t, k) && (k == 0 || s[k - 1] == '\n')
    && k + |t| < |s| && s[k + |t|] == '\n'
  }

  ghost predicate HasLine(s: string, t: string) {
    exists k: nat :: LineAt(s, t, k)
  }

  lemma LineIncluded(s: string, t: string)
    requires HasLine(s, t)
    ensures Includes(s, t)
  {
    IncludesIff(s, t);
  }

  lemma LineAround(a: string, b: string, t: string, k: nat)
    requires a != "" && EndsLine(a) && OneLine(t) && LineAt(a + b, t, k)
    ensures if k < |a| then LineAt(a, t, k) else LineAt(b, t, k - |a|)
  {
    var s := a + b;
    OccursBeside(s, t, k, |a| - 1);
    if k < |a| {
      assert s[k..k + |t|] == a[k..k + |t|];
    } else {
      var j: nat := k - |a|;
      assert s[k..k + |t|] == b[j..j + |t|];
    }
  }

  /** A line of two texts that meet at a line end is a line of one of them. */
  lemma LineSplit(a: string, b: string, t: string)
    requires EndsLine(a) && OneLine(t) && HasLine(a + b, t)
    ensures HasLine(a, t) || HasLine(b, t)
  {
    if a == "" {
      assert a + b == b;
    } else {
      var k: nat :| LineAt(a + b, t, k);
      LineAround(a, b, t, k);
    }
  }

  /** The only line in a one-line text is the text. */
  lemma OnlyLine(x: string, t: string)
    requires OneLine(x) && OneLine(t) && t != "" && HasLine(x + "\n\n", t)
    ensures t == x
  {
    var s := x + "\n\n";
    var k: nat :| LineAt(s, t, k);
    assert s[|x|] == '\n' && s[|x| + 1] == '\n' && s[..|x|] == x;
    assert forall i :: 0 <= i < |x| ==> s[i] == x[i] && x[i] in x;
    assert s[k] == s[k..k + |t|][0] && t[0] in t;
    assert k == 0;
    OccursBeside(s, t, 0, |x|);
    assert |t| == |x|;
  }

  /** A block has its middle on a line of its own. */
  lemma BlockLine(s: string, first: string, line: string, last: string, k: nat)
    requires first != "" && EndsLine(first) && last != "" && last[0] == '\n'
    requires OccursAt(s, first + line + last, k)
    ensures LineAt(s, line, k + |first|)
  {
    var block := first + line + last;
    OccursPart(s, first, line, last, k);
    assert s[k + (|first| - 1)] == s[k..k + |block|][|first| - 1] == block[|first| - 1];
    assert s[k + (|first| + |line|)] == s[k..k + |block|][|first| + |line|] == block[|first| + |line|];
  }

  /** A block whose middle is not a line of anything before it: the first place where the
      block occurs is where it was put. */
  lemma FirstBlock(pre: string, first: string, line: string, last: string, post: string, k: nat)
    requires EndsLine(pre) && EndsLine(first) && first != "" && OneLine(line)
    requires last != "" && last[0] == '\n'
    requires !HasLine(pre, line) && !HasLine(first, line) && k < |pre|
    ensures !OccursAt(pre + (first + line + last) + post, first + line + last, k)
  {
    var s, a := pre + (first + line + last) + post, pre + first;
    if OccursAt(s, first + line + last, k) {
      BlockLine(s, first, line, last, k);
      assert s == a + (line + last + post);
      LineAround(a, line + last + post, line, k + |first|);
      LineSplit(pre, first, line);
      assert false;
    }
  }

  function Concat(parts: seq<string>): string {
    if parts == [] then "" else parts[0] + Concat(parts[1..])
  }

  lemma {:induction false} ConcatAppend(a: seq<string>, b: seq<string>)
    ensures Concat(a + b) == Concat(a) + Concat(b)
  {
    if a == [] {
      assert a + b == b && "" + Concat(b) == Concat(b);
    } else {
      ConcatAppend(a[1..], b);
      assert (a + b)[1..] == a[1..] + b;
      Sequences.AppendAssoc(a[0], Concat(a[1..]), Concat(b));
    }
  }
}

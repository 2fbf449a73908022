/** Two text edits that undo each other: linking puts a described include statement in
    front of a text, unlinking takes it out again, and all linked statements share one
    note.  Both work by substring search and first-occurrence replacement alone. */
module SshEdits {
  import Sequences
  import opened Text

  /** The constant texts: the description of an include statement, the note after the
      last one, and the phrase of the description by which linked ones are recognised. */
  datatype Texts = Texts(description: string, note: string, marker: string)

  /** What the proofs use of those texts. */
  ghost predicate GoodTexts(tx: Texts) {
    && EndsLine(tx.description) && 'I' !in tx.description && tx.description != ""
    && Includes(tx.description, tx.marker)
    && OneLine(tx.marker) && 'B' in tx.marker
    && EndsLine(tx.note) && 'I' !in tx.note && 'B' !in tx.note
  }

  function Block(tx: Texts, include_: string): string {
    tx.description + include_ + "\n\n"
  }

  // ---------- The two edits ----------

  function Link(tx: Texts, text: string, include_: string): string {
    if !Includes(text, include_) then
      Block(tx, include_) + (if Includes(text, tx.note) then "" else tx.note + "\n") + text
    else if !Includes(text, tx.description) && !Includes(text, tx.note) then
      Block(tx, include_) + tx.note + "\n" + ReplaceFirst(text, include_ + "\n\n", "")
    else text
  }

  function Unlink(tx: Texts, text: string, include_: string): string {
    DropNote(tx, Cut(tx, text, include_))
  }

  function Cut(tx: Texts, text: string, include_: string): string {
    if Includes(text, Block(tx, include_)) then ReplaceFirst(text, Block(tx, include_), "")
    else if !Includes(text, tx.description) && Includes(text, include_) then ReplaceFirst(text, include_ + "\n\n", "")
    else text
  }

  function DropNote(tx: Texts, text: string): string {
    if Includes(text, tx.note) && !Includes(text, tx.marker) then ReplaceFirst(text, tx.note + "\n", "") else text
  }

  // ---------- The rendered file ----------

  /** The blocks of the linked environments, newest first. */
  function Blocks(tx: Texts, includes: seq<string>): string {
    Concat(BlockList(tx, includes))
  }

  function BlockList(tx: Texts, includes: seq<string>): (r: seq<string>)
    ensures |r| == |includes|
  {
    seq(|includes|, i requires 0 <= i < |includes| => Block(tx, includes[i]))
  }

  lemma BlocksCons(tx: Texts, include_: string, rest: seq<string>)
    ensures Blocks(tx, [include_] + rest) == Block(tx, include_) + Blocks(tx, rest)
  {
    var all := BlockList(tx, [include_] + rest);
    assert all[0] == Block(tx, include_) && all[1..] == BlockList(tx, rest);
  }

  lemma BlocksConcat(tx: Texts, a: seq<string>, b: seq<string>)
    ensures Blocks(tx, a + b) == Blocks(tx, a) + Blocks(tx, b)
  {
    assert BlockList(tx, a + b) == BlockList(tx, a) + BlockList(tx, b);
    ConcatAppend(BlockList(tx, a), BlockList(tx, b));
  }

  function Tail(tx: Texts, linked: bool, original: string): string {
    (if linked then tx.note + "\n" else "") + original
  }

  function Render(tx: Texts, includes: seq<string>, original: string): string {
    Blocks(tx, includes) + Tail(tx, includes != [], original)
  }

  /** What an include statement always is, for a path without line breaks. */
  ghost predicate GoodInclude(include_: string) {
    OneLine(include_) && 'I' in include_
  }

  ghost predicate AllGood(includes: set<string>) {
    forall a :: a in includes ==> GoodInclude(a)
  }

  /** No environment's include statement is part of another's. */
  ghost predicate Independent(includes: set<string>) {
    forall a, b :: a in includes && b in includes && a != b ==> !Includes(b, a)
  }

  /** The user's own text: no include statement of ours, no note, no marker phrase. */
  ghost predicate Untouched(tx: Texts, original: string, includes: set<string>) {
    && !Includes(original, tx.note) && !Includes(original, tx.marker)
    && forall a :: a in includes ==> !Includes(original, a)
  }

  lemma BlockIncludes(tx: Texts, line: string, t: string)
    requires GoodTexts(tx)
    requires OneLine(t) && t != ""
    ensures Includes(Block(tx, line), t) <==> Includes(tx.description, t) || Includes(line, t)
    ensures EndsLine(Block(tx, line))
  {
    EmptyIncludes(t);
    IncludesAround(line, "\n", t);
    assert "" + "\n" + "" == "\n";
    IncludesAround("", "", t);
    IncludesSplit(tx.description, line + "\n\n", t);
    assert line + "\n" + "\n" == line + "\n\n";
    assert tx.description + (line + "\n\n") == Block(tx, line);
  }

  lemma {:induction false} BlocksInclude(tx: Texts, includes: seq<string>, t: string)
    requires GoodTexts(tx)
    requires OneLine(t) && t != ""
    ensures EndsLine(Blocks(tx, includes))
    ensures Includes(Blocks(tx, includes), t) <==>
      (includes != [] && Includes(tx.description, t)) || (exists x :: x in includes && Includes(x, t))
  {
    if includes == [] {
      EmptyIncludes(t);
    } else {
      var x, rest := includes[0], includes[1..];
      assert includes == [x] + rest;
      BlocksInclude(tx, rest, t);
      BlockIncludes(tx, x, t);
      BlocksCons(tx, x, rest);
      LinesConcat(Block(tx, x), Blocks(tx, rest), t);
      assert forall y :: y in includes <==> y == x || y in rest;
    }
  }

  lemma LinesConcat(a: string, b: string, t: string)
    requires EndsLine(a) && EndsLine(b) && OneLine(t) && t != ""
    ensures EndsLine(a + b) && (Includes(a + b, t) <==> Includes(a, t) || Includes(b, t))
  {
    IncludesSplit(a, b, t);
  }

  /** The note holds no include statement and no marker phrase. */
  lemma TailIncludes(tx: Texts, linked: bool, original: string, t: string)
    requires GoodTexts(tx)
    requires OneLine(t) && ('I' in t || 'B' in t)
    ensures Includes(Tail(tx, linked, original), t) <==> Includes(original, t)
  {
    if linked {
      IncludesSplit(tx.note + "\n", original, t);
      if 'I' in t {
        MissingChar(tx.note + "\n", t, 'I');
      } else {
        MissingChar(tx.note + "\n", t, 'B');
      }
    } else {
      assert "" + original == original;
    }
  }

  lemma RenderIncludes(tx: Texts, includes: seq<string>, original: string, include_: string)
    requires GoodTexts(tx)
    requires GoodInclude(include_)
    ensures Includes(Render(tx, includes, original), include_) <==>
      (exists x :: x in includes && Includes(x, include_)) || Includes(original, include_)
  {
    MissingChar(tx.description, include_, 'I');
    BlocksInclude(tx, includes, include_);
    TailIncludes(tx, includes != [], original, include_);
    IncludesSplit(Blocks(tx, includes), Tail(tx, includes != [], original), include_);
  }

  lemma BlockDescribed(tx: Texts, include_: string)
    ensures Includes(Block(tx, include_), tx.description) && Includes(Block(tx, include_), include_)
  {
    Sequences.AppendAssoc(tx.description, include_, "\n\n");
    OccursIn(Block(tx, include_), "", tx.description, include_ + "\n\n");
    OccursIn(Block(tx, include_), tx.description, include_, "\n\n");
  }

  lemma TailNoted(tx: Texts, original: string)
    ensures Includes(Tail(tx, true, original), tx.note)
  {
  }

  /** The note, the description and the marker phrase are there while anything is linked. */
  lemma RenderedTexts(tx: Texts, includes: seq<string>, original: string)
    requires GoodTexts(tx)
    requires includes != []
    ensures Includes(Render(tx, includes, original), tx.note)
    ensures Includes(Render(tx, includes, original), tx.description)
    ensures Includes(Render(tx, includes, original), tx.marker)
  {
    var blocks, tail := Blocks(tx, includes), Tail(tx, true, original);
    TailNoted(tx, original);
    IncludesLater(blocks, tail, tx.note);
    assert includes == [includes[0]] + includes[1..];
    BlocksCons(tx, includes[0], includes[1..]);
    BlockDescribed(tx, includes[0]);
    IncludesGrow(Block(tx, includes[0]), Blocks(tx, includes[1..]), tx.description);
    IncludesGrow(blocks, tail, tx.description);
    IncludesTransitive(blocks + tail, tx.description, tx.marker);
  }

  lemma IncludesSelf(t: string)
    ensures Includes(t, t)
  {
  }

  // ---------- The two edits on a rendered file ----------

  lemma RenderNone(tx: Texts, original: string)
    ensures Render(tx, [], original) == original
  {
  }

  lemma LinkNew(tx: Texts, includes: seq<string>, original: string, include_: string)
    requires GoodTexts(tx)
    requires !Includes(Render(tx, includes, original), include_) && !Includes(original, tx.note)
    ensures Link(tx, Render(tx, includes, original), include_) == Render(tx, [include_] + includes, original)
  {
    var block := Block(tx, include_);
    BlocksCons(tx, include_, includes);
    if includes == [] {
      RenderNone(tx, original);
      RenderNone(tx, "");
      GlueFirst(block, tx.note + "\n", original);
    } else {
      RenderedTexts(tx, includes, original);
      GlueMore(block, Blocks(tx, includes), Tail(tx, true, original));
    }
  }

  lemma GlueFirst(block: string, note: string, original: string)
    ensures block + note + original == (block + "") + (note + original)
  {
  }

  lemma GlueMore(block: string, blocks: string, tail: string)
    ensures block + "" + (blocks + tail) == (block + blocks) + tail
  {
  }

  lemma LinkAgain(tx: Texts, includes: seq<string>, original: string, include_: string)
    requires GoodTexts(tx)
    requires Includes(Render(tx, includes, original), include_) && includes != []
    ensures Link(tx, Render(tx, includes, original), include_) == Render(tx, includes, original)
  {
    RenderedTexts(tx, includes, original);
  }

  lemma DescriptionLacks(tx: Texts, include_: string)
    requires GoodTexts(tx) && GoodInclude(include_)
    ensures !HasLine(tx.description, include_)
  {
    MissingChar(tx.description, include_, 'I');
    if HasLine(tx.description, include_) {
      LineIncluded(tx.description, include_);
    }
  }

  /** Another statement, in which `include_` does not make a line. */
  ghost predicate Other(x: string, include_: string) {
    x != include_ && (OneLine(x) || !Includes(x, include_))
  }

  lemma BlockLines(tx: Texts, x: string, include_: string)
    requires GoodTexts(tx) && GoodInclude(include_) && Other(x, include_)
    ensures EndsLine(Block(tx, x)) && !HasLine(Block(tx, x), include_)
  {
    BlockIncludes(tx, x, include_);
    MissingChar(tx.description, include_, 'I');
    assert Block(tx, x) == tx.description + (x + "\n\n");
    if HasLine(Block(tx, x), include_) {
      LineIncluded(Block(tx, x), include_);
      LineSplit(tx.description, x + "\n\n", include_);
      DescriptionLacks(tx, include_);
      OnlyLine(x, include_);
      assert false;
    }
  }

  /** A statement is a line of the blocks only if it is one of theirs. */
  lemma {:induction false} BlocksLines(tx: Texts, includes: seq<string>, include_: string)
    requires GoodTexts(tx) && GoodInclude(include_)
    requires forall x :: x in includes ==> Other(x, include_)
    ensures EndsLine(Blocks(tx, includes)) && !HasLine(Blocks(tx, includes), include_)
  {
    if includes != [] {
      var x, rest := includes[0], includes[1..];
      assert includes == [x] + rest && x in includes && forall y :: y in rest ==> y in includes;
      BlocksLines(tx, rest, include_);
      BlockLines(tx, x, include_);
      BlocksCons(tx, x, rest);
      if HasLine(Block(tx, x) + Blocks(tx, rest), include_) {
        LineSplit(Block(tx, x), Blocks(tx, rest), include_);
      }
    }
  }

  /** Cutting out a block: the first occurrence of a block is where it was put. */
  lemma CutBlock(tx: Texts, pre: string, include_: string, post: string)
    requires GoodTexts(tx) && EndsLine(pre) && GoodInclude(include_) && !HasLine(pre, include_)
    ensures var s := pre + Block(tx, include_) + post;
      Includes(s, Block(tx, include_)) && ReplaceFirst(s, Block(tx, include_), "") == pre + post
  {
    DescriptionLacks(tx, include_);
    forall k: nat | k < |pre| ensures !OccursAt(pre + Block(tx, include_) + post, Block(tx, include_), k) {
      FirstBlock(pre, tx.description, include_, "\n\n", post, k);
    }
    OccursIn(pre + Block(tx, include_) + post, pre, Block(tx, include_), post);
    RemoveFirst(pre, Block(tx, include_), post);
  }

  /** A rendering around one of its blocks. */
  lemma RenderAround(tx: Texts, before: seq<string>, include_: string, after: seq<string>, tail: string)
    ensures Blocks(tx, before + [include_] + after) + tail ==
      Blocks(tx, before) + Block(tx, include_) + (Blocks(tx, after) + tail)
    ensures Blocks(tx, before + after) + tail == Blocks(tx, before) + (Blocks(tx, after) + tail)
  {
    BlocksConcat(tx, before + [include_], after);
    BlocksConcat(tx, before, [include_]);
    BlocksCons(tx, include_, []);
    assert [include_] + [] == [include_] && BlockList(tx, []) == [] && Block(tx, include_) + "" == Block(tx, include_);
    BlocksConcat(tx, before, after);
    Sequences.AppendAssoc(Blocks(tx, before) + Block(tx, include_), Blocks(tx, after), tail);
    Sequences.AppendAssoc(Blocks(tx, before), Blocks(tx, after), tail);
  }

  lemma UnlinkPresent(tx: Texts, before: seq<string>, include_: string, after: seq<string>, original: string)
    requires GoodTexts(tx)
    requires GoodInclude(include_) && !Includes(original, tx.marker)
    requires forall x :: x in before ==> Other(x, include_)
    ensures Unlink(tx, Render(tx, before + [include_] + after, original), include_) == Render(tx, before + after, original)
  {
    var tail := Tail(tx, true, original);
    RenderAround(tx, before, include_, after, tail);
    BlocksLines(tx, before, include_);
    CutBlock(tx, Blocks(tx, before), include_, Blocks(tx, after) + tail);
    CleanUpNote(tx, before + after, original);
  }

  /** After a block is cut out: the note goes with the last block, and only with it. */
  lemma CleanUpNote(tx: Texts, rest: seq<string>, original: string)
    requires GoodTexts(tx)
    requires !Includes(original, tx.marker)
    ensures DropNote(tx, Blocks(tx, rest) + Tail(tx, true, original)) == Render(tx, rest, original)
  {
    if rest == [] {
      var tail := Tail(tx, true, original);
      assert BlockList(tx, rest) == [] && "" + tail == tail;
      TailIncludes(tx, true, original, tx.marker);
      TailNoted(tx, original);
      assert "" + (tx.note + "\n") + original == tail && "" + original == original;
      RemoveFirst("", tx.note + "\n", original);
      RenderNone(tx, original);
    } else {
      RenderedTexts(tx, rest, original);
    }
  }

  lemma UnlinkAbsent(tx: Texts, includes: seq<string>, original: string, include_: string)
    requires GoodTexts(tx)
    requires !Includes(Render(tx, includes, original), include_) && !Includes(original, tx.note)
    ensures Unlink(tx, Render(tx, includes, original), include_) == Render(tx, includes, original)
  {
    BlockDescribed(tx, include_);
    if Includes(Render(tx, includes, original), Block(tx, include_)) {
      IncludesTransitive(Render(tx, includes, original), Block(tx, include_), include_);
    }
    if includes != [] {
      RenderedTexts(tx, includes, original);
    } else {
      RenderNone(tx, original);
    }
  }

  /** A statement that is not linked has no block to cut out, also when others contain it. */
  lemma UnlinkUnlinked(tx: Texts, includes: seq<string>, original: string, include_: string)
    requires GoodTexts(tx) && GoodInclude(include_)
    requires forall x :: x in includes ==> Other(x, include_)
    requires !Includes(original, include_) && !Includes(original, tx.note)
    ensures Unlink(tx, Render(tx, includes, original), include_) == Render(tx, includes, original)
  {
    var text := Render(tx, includes, original);
    if Includes(text, Block(tx, include_)) {
      BlockLine(text, tx.description, include_, "\n\n", IndexOf(text, Block(tx, include_)));
      BlocksLines(tx, includes, include_);
      LineSplit(Blocks(tx, includes), Tail(tx, includes != [], original), include_);
      LineIncluded(Tail(tx, includes != [], original), include_);
      TailIncludes(tx, includes != [], original, include_);
      assert false;
    }
    if includes != [] {
      RenderedTexts(tx, includes, original);
    } else {
      RenderNone(tx, original);
    }
  }

  // ---------- Any sequence of edits ----------

  datatype Edit = LinkEdit(include_: string) | UnlinkEdit(include_: string)

  function Apply(tx: Texts, text: string, edit: Edit): string {
    match edit
    case LinkEdit(include_) => Link(tx, text, include_)
    case UnlinkEdit(include_) => Unlink(tx, text, include_)
  }

  function ApplyAll(tx: Texts, text: string, edits: seq<Edit>): string {
    if edits == [] then text
    else
      var n := |edits| - 1;
      Apply(tx, ApplyAll(tx, text, edits[..n]), edits[n])
  }

  function Remove(includes: seq<string>, include_: string): seq<string> {
    if includes == [] then []
    else (if includes[0] == include_ then [] else [includes[0]]) + Remove(includes[1..], include_)
  }

  /** The environments linked after some edits, newest first. */
  function Linked(edits: seq<Edit>): seq<string> {
    if edits == [] then []
    else Relinked(Linked(edits[..|edits| - 1]), edits[|edits| - 1])
  }

  ghost predicate Distinct(includes: seq<string>) {
    forall i, j :: 0 <= i < j < |includes| ==> includes[i] != includes[j]
  }

  lemma {:induction false} RemoveAbsent(includes: seq<string>, include_: string)
    requires include_ !in includes
    ensures Remove(includes, include_) == includes
  {
    if includes != [] {
      RemoveAbsent(includes[1..], include_);
    }
  }

  lemma {:induction false} RemoveMembers(includes: seq<string>, include_: string)
    ensures forall x :: x in Remove(includes, include_) <==> x in includes && x != include_
  {
    if includes != [] {
      RemoveMembers(includes[1..], include_);
    }
  }

  lemma {:induction false} RemoveDistinct(includes: seq<string>, include_: string)
    requires Distinct(includes)
    ensures Distinct(Remove(includes, include_))
  {
    if includes != [] {
      var rest := includes[1..];
      assert forall i :: 0 <= i < |rest| ==> rest[i] == includes[i + 1];
      RemoveDistinct(rest, include_);
      RemoveMembers(rest, include_);
      var kept := Remove(rest, include_);
      forall k | 0 <= k < |kept| ensures kept[k] != includes[0] {
        assert kept[k] in kept;
      }
      assert Remove(includes, include_) == if includes[0] == include_ then kept else [includes[0]] + kept;
    }
  }

  lemma {:induction false} RemoveSplit(before: seq<string>, include_: string, after: seq<string>)
    requires include_ !in before && include_ !in after
    ensures Remove(before + [include_] + after, include_) == before + after
  {
    var all := before + [include_] + after;
    if before == [] {
      assert all[1..] == after;
      RemoveAbsent(after, include_);
    } else {
      assert all[1..] == before[1..] + [include_] + after;
      RemoveSplit(before[1..], include_, after);
    }
  }

  ghost predicate Over(edits: seq<Edit>, includes: set<string>) {
    forall e :: e in edits ==> e.include_ in includes
  }

  lemma {:induction false} LinkedOver(edits: seq<Edit>, includes: set<string>)
    requires Over(edits, includes)
    ensures Distinct(Linked(edits)) && forall x :: x in Linked(edits) ==> x in includes
  {
    if edits != [] {
      var n := |edits| - 1;
      LinkedOver(edits[..n], includes);
      assert edits[n] in edits;
      if edits[n].UnlinkEdit? {
        RemoveDistinct(Linked(edits[..n]), edits[n].include_);
        RemoveMembers(Linked(edits[..n]), edits[n].include_);
      } else {
        IncludesSelf(edits[n].include_);
      }
    }
  }

  /** What an edit does to the list of linked environments: a link takes effect unless a
      linked statement contains the new one. */
  function Relinked(linked: seq<string>, edit: Edit): seq<string> {
    match edit
    case LinkEdit(include_) => if exists x :: x in linked && Includes(x, include_) then linked else [include_] + linked
    case UnlinkEdit(include_) => Remove(linked, include_)
  }

  /** In a set of environments none of whose statements contains another's, a link takes
      effect unless the environment is linked already. */
  lemma IndependentLink(linked: seq<string>, includes: set<string>, include_: string)
    requires Independent(includes) && include_ in includes && forall x :: x in linked ==> x in includes
    ensures Relinked(linked, LinkEdit(include_)) == if include_ in linked then linked else [include_] + linked
  {
    IncludesSelf(include_);
  }

  lemma UnlinkRendered(tx: Texts, linked: seq<string>, original: string, includes: set<string>, a: string)
    requires GoodTexts(tx)
    requires AllGood(includes) && Untouched(tx, original, includes)
    requires a in includes && Distinct(linked) && forall x :: x in linked ==> x in includes
    ensures Unlink(tx, Render(tx, linked, original), a) == Render(tx, Remove(linked, a), original)
  {
    if a in linked {
      var i :| 0 <= i < |linked| && linked[i] == a;
      var before, after := linked[..i], linked[i + 1..];
      assert linked == before + [a] + after;
      assert a !in before && a !in after;
      assert forall x :: x in before ==> x in linked;
      UnlinkPresent(tx, before, a, after, original);
      RemoveSplit(before, a, after);
    } else {
      UnlinkUnlinked(tx, linked, original, a);
      RemoveAbsent(linked, a);
    }
  }

  lemma LinkRendered(tx: Texts, linked: seq<string>, original: string, includes: set<string>, a: string)
    requires GoodTexts(tx)
    requires AllGood(includes) && Untouched(tx, original, includes) && a in includes
    ensures Link(tx, Render(tx, linked, original), a) == Render(tx, Relinked(linked, LinkEdit(a)), original)
  {
    RenderIncludes(tx, linked, original, a);
    if exists x :: x in linked && Includes(x, a) {
      LinkAgain(tx, linked, original, a);
    } else {
      LinkNew(tx, linked, original, a);
    }
  }

  lemma EditRendered(tx: Texts, linked: seq<string>, original: string, includes: set<string>, edit: Edit)
    requires GoodTexts(tx)
    requires AllGood(includes) && Untouched(tx, original, includes)
    requires edit.include_ in includes && Distinct(linked) && forall x :: x in linked ==> x in includes
    ensures Apply(tx, Render(tx, linked, original), edit) == Render(tx, Relinked(linked, edit), original)
  {
    match edit
    case LinkEdit(a) => LinkRendered(tx, linked, original, includes, a);
    case UnlinkEdit(a) => UnlinkRendered(tx, linked, original, includes, a);
  }

  /** For every sequence of link and unlink edits over any set of environments, the file
      is the rendering of the linked ones over the original text. */
  lemma {:induction false} EditsRender(tx: Texts, original: string, includes: set<string>, edits: seq<Edit>)
    requires GoodTexts(tx)
    requires AllGood(includes) && Untouched(tx, original, includes) && Over(edits, includes)
    ensures ApplyAll(tx, original, edits) == Render(tx, Linked(edits), original)
  {
    if edits == [] {
      RenderNone(tx, original);
    } else {
      var n := |edits| - 1;
      assert edits[n] in edits;
      EditsRender(tx, original, includes, edits[..n]);
      LinkedOver(edits[..n], includes);
      EditRendered(tx, Linked(edits[..n]), original, includes, edits[n]);
    }
  }

  /** The note is in the file exactly while some environment is linked. */
  lemma {:induction false} NoteIffLinked(tx: Texts, original: string, includes: set<string>, edits: seq<Edit>)
    requires GoodTexts(tx)
    requires AllGood(includes) && Untouched(tx, original, includes) && Over(edits, includes)
    ensures Includes(ApplyAll(tx, original, edits), tx.note) <==> Linked(edits) != []
  {
    EditsRender(tx, original, includes, edits);
    NoteInRendering(tx, Linked(edits), original);
  }

  lemma NoteInRendering(tx: Texts, linked: seq<string>, original: string)
    requires GoodTexts(tx) && !Includes(original, tx.note)
    ensures Includes(Render(tx, linked, original), tx.note) <==> linked != []
  {
    if linked == [] {
      RenderNone(tx, original);
    } else {
      RenderedTexts(tx, linked, original);
    }
  }

  lemma LinkedUnlink(edits: seq<Edit>, include_: string)
    ensures Linked(edits + [UnlinkEdit(include_)]) == Remove(Linked(edits), include_)
  {
    assert (edits + [UnlinkEdit(include_)])[..|edits|] == edits;
  }

  function RemoveAll(linked: seq<string>, order: seq<string>): seq<string>
    decreases |order|
  {
    if order == [] then linked else RemoveAll(Remove(linked, order[0]), order[1..])
  }

  lemma UnlinksAppended(edits: seq<Edit>, order: seq<string>)
    requires order != []
    ensures edits + Unlinks(order) == (edits + [UnlinkEdit(order[0])]) + Unlinks(order[1..])
  {
  }

  lemma {:induction false} LinkedUnlinks(edits: seq<Edit>, order: seq<string>)
    ensures Linked(edits + Unlinks(order)) == RemoveAll(Linked(edits), order)
    decreases |order|
  {
    if order == [] {
      assert edits + Unlinks(order) == edits;
    } else {
      var first := edits + [UnlinkEdit(order[0])];
      UnlinksAppended(edits, order);
      LinkedUnlink(edits, order[0]);
      LinkedUnlinks(first, order[1..]);
    }
  }

  lemma HeadMember(xs: seq<string>)
    ensures xs == [] || xs[0] in xs
  {
  }

  lemma {:induction false} AllRemoved(linked: seq<string>, order: seq<string>)
    requires forall x :: x in linked ==> x in order
    ensures RemoveAll(linked, order) == []
    decreases |order|
  {
    if order == [] {
      HeadMember(linked);
    } else {
      var rest := Remove(linked, order[0]);
      RemoveMembers(linked, order[0]);
      forall x | x in rest ensures x in order[1..] {
        assert x in order;
      }
      AllRemoved(rest, order[1..]);
    }
  }

  function Unlinks(order: seq<string>): seq<Edit> {
    if order == [] then [] else [UnlinkEdit(order[0])] + Unlinks(order[1..])
  }

  lemma {:induction false} UnlinksOver(order: seq<string>, includes: set<string>)
    requires forall x :: x in order ==> x in includes
    ensures Over(Unlinks(order), includes)
  {
    if order != [] {
      UnlinksOver(order[1..], includes);
    }
  }

  /** Unlinking every linked environment, in any order, restores the original text. */
  lemma {:induction false} UnlinkingRestores(tx: Texts, original: string, includes: set<string>, edits: seq<Edit>, order: seq<string>)
    requires GoodTexts(tx)
    requires AllGood(includes) && Untouched(tx, original, includes) && Over(edits, includes)
    requires (forall x :: x in Linked(edits) ==> x in order) && forall x :: x in order ==> x in includes
    ensures ApplyAll(tx, original, edits + Unlinks(order)) == original
  {
    LinkedUnlinks(edits, order);
    AllRemoved(Linked(edits), order);
    UnlinksOver(order, includes);
    EditsRender(tx, original, includes, edits + Unlinks(order));
    RenderNone(tx, original);
  }

  // ---------- A file linked by an older version ----------

  /** An include statement without description and note is upgraded in place of its first
      occurrence; unlinking then leaves what unlinking it before the upgrade leaves. */
  lemma {:induction false} LegacyUpgrade(tx: Texts, text: string, include_: string)
    requires GoodTexts(tx) && GoodInclude(include_)
    requires Includes(text, include_) && !Includes(text, tx.description) && !Includes(text, tx.note)
    ensures var rest := ReplaceFirst(text, include_ + "\n\n", "");
      && Link(tx, text, include_) == Render(tx, [include_], rest)
      && (!Includes(rest, tx.marker) && !Includes(rest, tx.note) ==>
            Unlink(tx, Link(tx, text, include_), include_) == rest == Unlink(tx, text, include_))
  {
    var rest := ReplaceFirst(text, include_ + "\n\n", "");
    BlocksCons(tx, include_, []);
    assert [include_] + [] == [include_] && BlockList(tx, []) == [];
    UpgradeGlue(Block(tx, include_), tx.note, rest);
    BlockDescribed(tx, include_);
    if Includes(text, Block(tx, include_)) {
      IncludesTransitive(text, Block(tx, include_), tx.description);
    }
    if !Includes(rest, tx.marker) {
      assert [] + [include_] + [] == [include_];
      UnlinkPresent(tx, [], include_, [], rest);
      RenderNone(tx, rest);
    }
  }

  lemma UpgradeGlue(block: string, note: string, rest: string)
    ensures block + note + "\n" + rest == (block + "") + ((note + "\n") + rest)
  {
  }

  // ---------- Exact condition ----------

  /** Without the independence assumption: linking an environment adds its block if and
      only if its include statement is not part of a linked one's. */
  lemma {:induction false} LinkTakesEffectIff(tx: Texts, linked: seq<string>, original: string, include_: string)
    requires GoodTexts(tx)
    requires GoodInclude(include_) && !Includes(original, include_) && !Includes(original, tx.note)
    ensures Link(tx, Render(tx, linked, original), include_) == Render(tx, [include_] + linked, original)
      <==> forall x :: x in linked ==> !Includes(x, include_)
  {
    RenderIncludes(tx, linked, original, include_);
    if x :| x in linked && Includes(x, include_) {
      LinkAgain(tx, linked, original, include_);
      BlocksCons(tx, include_, linked);
      assert |Render(tx, [include_] + linked, original)| > |Render(tx, linked, original)|;
    } else {
      LinkNew(tx, linked, original, include_);
    }
  }

  /** Such a case: a statement that starts a linked one is not linked. */
  lemma StartNotLinked(tx: Texts, original: string, include_: string, suffix: string)
    requires GoodTexts(tx) && GoodInclude(include_) && !Includes(original, include_)
    ensures var longer := Render(tx, [include_ + suffix], original);
      Link(tx, longer, include_) == longer
  {
    var b := include_ + suffix;
    OccursIn(b, "", include_, suffix);
    RenderIncludes(tx, [b], original, include_);
    assert b in [b];
    LinkAgain(tx, [b], original, include_);
  }
}

// Pieces of text and a buffer for the next one: what each step of the chunker's loops does to
// them, white space aside.
module Packing {
  import opened Text
  import opened Overlaps
  import opened Estimates

  datatype Piece = Piece(text: string, tokens: nat)

  /** `cuts` are the pieces without white space, with what they repeat. */
  predicate Shows(pieces: seq<Piece>, cuts: seq<Cut<char>>) {
    |cuts| == |pieces| && forall k :: 0 <= k < |pieces| ==> cuts[k].piece == Squash(pieces[k].text)
  }

  /** Pieces and buffer hold `done`; the first `n` characters of the buffer are repeated. */
  predicate Packed(pieces: seq<Piece>, cuts: seq<Cut<char>>, buffer: string, n: nat, done: string) {
    Shows(pieces, cuts) && Holds(cuts, Cut(Squash(buffer), n), done)
  }

  /** No piece says it is smaller than it is estimated to be. */
  predicate Counted(pieces: seq<Piece>) {
    forall k :: 0 <= k < |pieces| ==> Estimate(pieces[k].text) <= pieces[k].tokens
  }

  predicate NothingRepeated(cuts: seq<Cut<char>>) {
    forall k :: 0 <= k < |cuts| ==> cuts[k].carried == 0
  }

  lemma NothingPacked()
    ensures Packed([], [], "", 0, "")
  {
  }

  lemma SquashThree(a: string, sep: string, b: string)
    requires AllSpace(sep)
    ensures Squash(a + sep + b) == Squash(a) + Squash(b)
  {
    SquashAppend(a + sep, b);
    SquashAppend(a, sep);
    SquashSpace(sep);
  }

  lemma ToBuffer(pieces: seq<Piece>, cuts: seq<Cut<char>>, buffer: string, n: nat, done: string, sep: string, s: string)
    requires Packed(pieces, cuts, buffer, n, done) && AllSpace(sep)
    ensures Packed(pieces, cuts, buffer + sep + s, n, done + Squash(s))
  {
    SquashThree(buffer, sep, s);
    Extend(cuts, Cut(Squash(buffer), n), done, Squash(s));
  }

  lemma ToPiece(pieces: seq<Piece>, cuts: seq<Cut<char>>, buffer: string, n: nat, done: string, p: Piece)
    requires Packed(pieces, cuts, buffer, n, done) && Squash(p.text) == Squash(buffer)
    ensures Packed(pieces + [p], cuts + [Cut(Squash(buffer), n)], "", 0, done)
  {
    Flush(cuts, Cut(Squash(buffer), n), done);
  }

  lemma ToOverlap(pieces: seq<Piece>, cuts: seq<Cut<char>>, done: string, overlap: string, sep: string, s: string)
    requires Packed(pieces, cuts, "", 0, done) && AllSpace(sep) && pieces != []
    requires EndsWith(Squash(pieces[|pieces| - 1].text), Squash(overlap))
    ensures Packed(pieces, cuts, overlap + sep + s, |Squash(overlap)|, done + Squash(s))
  {
    SquashThree(overlap, sep, s);
    Restart(cuts, done, Squash(overlap), Squash(s));
  }

  lemma ShowsFollow(pieces: seq<Piece>, cuts: seq<Cut<char>>, more: seq<Piece>, moreCuts: seq<Cut<char>>)
    requires Shows(pieces, cuts) && Shows(more, moreCuts)
    ensures Shows(pieces + more, cuts + moreCuts)
  {
  }

  lemma ToFollowing(pieces: seq<Piece>, cuts: seq<Cut<char>>, done: string, more: seq<Piece>, moreCuts: seq<Cut<char>>)
    requires Packed(pieces, cuts, "", 0, done) && Shows(more, moreCuts) && Carries(moreCuts)
    ensures Packed(pieces + more, cuts + moreCuts, "", 0, done + New(moreCuts))
  {
    ShowsFollow(pieces, cuts, more, moreCuts);
    Follow(cuts, moreCuts, done);
  }

  /** A text is appended to the last piece. */
  lemma ToLast(pieces: seq<Piece>, cuts: seq<Cut<char>>, done: string, sep: string, s: string, tokens: nat)
    requires Packed(pieces, cuts, "", 0, done) && AllSpace(sep) && pieces != []
    ensures
      var last := |pieces| - 1;
      Packed(pieces[..last] + [Piece(pieces[last].text + sep + s, tokens)],
             cuts[..last] + [Cut(cuts[last].piece + Squash(s), cuts[last].carried)], "", 0, done + Squash(s))
  {
    SquashThree(pieces[|pieces| - 1].text, sep, s);
    Grow(cuts, done, Squash(s));
  }

  /** The next of several parts. */
  lemma NextPart(parts: seq<string>, i: nat)
    requires i < |parts|
    ensures Squash(Concat(parts[..i + 1])) == Squash(Concat(parts[..i])) + Squash(parts[i])
  {
    assert parts[..i + 1] == parts[..i] + [parts[i]];
    ConcatAppend(parts[..i], [parts[i]]);
    SquashAppend(Concat(parts[..i]), Concat([parts[i]]));
    SquashFirstPart(parts[i], []);
    assert [parts[i]] + [] == [parts[i]];
  }

  // ---------------------------------------------------------------- the loops' state

  /** What the loops pack by: whether pieces may repeat, the size, and the parts (white space aside)
      that are not taken apart any further. */
  datatype Plan = Plan(overlap: bool, size: int, parts: iset<string>)

  /** A piece larger than the size is, apart from what it repeats, a single part. */
  ghost predicate Sized(pieces: seq<Piece>, cuts: seq<Cut<char>>, plan: Plan) {
    |cuts| == |pieces| && forall k :: 0 <= k < |pieces| ==>
      Estimate(pieces[k].text) <= plan.size || NewIn(cuts[k]) in plan.parts
  }

  lemma Widen(pieces: seq<Piece>, cuts: seq<Cut<char>>, plan: Plan, plan': Plan)
    requires Sized(pieces, cuts, plan) && plan.size <= plan'.size && plan.parts <= plan'.parts
    ensures Sized(pieces, cuts, plan')
  {
  }

  lemma SizedFollow(pieces: seq<Piece>, cuts: seq<Cut<char>>, more: seq<Piece>, moreCuts: seq<Cut<char>>, plan: Plan)
    requires Sized(pieces, cuts, plan) && Sized(more, moreCuts, plan)
    ensures Sized(pieces + more, cuts + moreCuts, plan)
  {
  }

  /** The same of the buffer. */
  ghost predicate BufferSized(buffer: string, n: nat, tokens: nat, plan: Plan) {
    buffer != "" ==>
      && Estimate(buffer) <= tokens
      && (tokens <= plan.size || NewIn(Cut(Squash(buffer), n)) in plan.parts)
  }

  /** What both packing loops keep true: nothing lost, no size understated, no piece too large but
      single parts, and, unless the plan has overlaps, nothing repeated. */
  ghost predicate Working(pieces: seq<Piece>, cuts: seq<Cut<char>>, buffer: string, n: nat, tokens: nat, plan: Plan,
                          done: string) {
    && Packed(pieces, cuts, buffer, n, done) && Counted(pieces)
    && Sized(pieces, cuts, plan) && BufferSized(buffer, n, tokens, plan)
    && (buffer == "" ==> n == 0)
    && (!plan.overlap ==> NothingRepeated(cuts) && n == 0)
  }

  lemma NothingCarried(pieces: seq<Piece>, cuts: seq<Cut<char>>, n: nat, tokens: nat, plan: Plan, done: string)
    requires Working(pieces, cuts, "", n, tokens, plan, done)
    ensures n == 0
  {
  }

  lemma StartWorking(plan: Plan)
    ensures Working([], [], "", 0, 0, plan, "")
  {
    NothingPacked();
  }

  /** A part that still fits goes to the buffer; only between parts there is a separator. */
  lemma AddAs(pieces: seq<Piece>, cuts: seq<Cut<char>>, buffer: string, n: nat, tokens: nat, plan: Plan, done: string,
              sep: string, s: string, tokens': nat)
    requires Working(pieces, cuts, buffer, n, tokens, plan, done) && AllSpace(sep)
    requires Estimate(buffer + (if buffer != "" then sep else "") + s) <= tokens' <= plan.size
    ensures Working(pieces, cuts, buffer + (if buffer != "" then sep else "") + s, n, tokens', plan, done + Squash(s))
  {
    ToBuffer(pieces, cuts, buffer, n, done, if buffer != "" then sep else "", s);
  }

  lemma Add(pieces: seq<Piece>, cuts: seq<Cut<char>>, buffer: string, n: nat, tokens: nat, plan: Plan, done: string,
            sep: string, s: string)
    requires Working(pieces, cuts, buffer, n, tokens, plan, done) && AllSpace(sep) && tokens + Estimate(s) <= plan.size
    ensures
      var more := buffer + (if buffer != "" then sep else "") + s;
      Working(pieces, cuts, more, n, tokens + Estimate(s), plan, done + Squash(s))
  {
    if buffer != "" {
      EstimateAppend(buffer, sep, s);
    } else {
      assert buffer + "" + s == s;
    }
    AddAs(pieces, cuts, buffer, n, tokens, plan, done, sep, s, tokens + Estimate(s));
  }

  /** A part added with nothing in between. */
  lemma AddPlain(pieces: seq<Piece>, cuts: seq<Cut<char>>, buffer: string, n: nat, tokens: nat, plan: Plan,
                 done: string, s: string)
    requires Working(pieces, cuts, buffer, n, tokens, plan, done) && tokens + Estimate(s) <= plan.size
    ensures Working(pieces, cuts, buffer + s, n, tokens + Estimate(s), plan, done + Squash(s))
  {
    hide Working, Estimate, Squash;
    Add(pieces, cuts, buffer, n, tokens, plan, done, "", s);
    assert buffer + "" + s == buffer + s;
  }

  /** A part put into an empty buffer. */
  lemma AddFirst(pieces: seq<Piece>, cuts: seq<Cut<char>>, tokens: nat, plan: Plan, done: string, s: string)
    requires Working(pieces, cuts, "", 0, tokens, plan, done) && (Estimate(s) <= plan.size || Squash(s) in plan.parts)
    ensures Working(pieces, cuts, s, 0, Estimate(s), plan, done + Squash(s))
  {
    ToBuffer(pieces, cuts, "", 0, done, "", s);
    assert "" + "" + s == s;
  }

  /** The buffer, trimmed or not, becomes a piece. */
  lemma Emit(pieces: seq<Piece>, cuts: seq<Cut<char>>, buffer: string, n: nat, tokens: nat, plan: Plan, done: string,
             p: Piece)
    requires Working(pieces, cuts, buffer, n, tokens, plan, done) && buffer != ""
    requires p.text == buffer || p.text == Trim(buffer)
    requires Estimate(buffer) <= p.tokens
    ensures Working(pieces + [p], cuts + [Cut(Squash(buffer), n)], "", 0, 0, plan, done)
  {
    SquashTrim(buffer);
    EstimateTrim(buffer);
    ToPiece(pieces, cuts, buffer, n, done, p);
    SizedFollow(pieces, cuts, [p], [Cut(Squash(buffer), n)], plan);
  }

  /** The next buffer starts with the last words of the text just emitted. */
  lemma Reuse(pieces: seq<Piece>, cuts: seq<Cut<char>>, done: string, text: string, tokens: nat, plan: Plan, sep: string,
              s: string)
    requires Working(pieces, cuts, "", 0, 0, plan, done) && plan.overlap && Squash(s) in plan.parts
    requires AllSpace(sep) && sep != "" && pieces != []
    requires pieces[|pieces| - 1].text == text || pieces[|pieces| - 1].text == Trim(text)
    ensures
      var overlap := TrailingText(text, tokens);
      var buffer := overlap + sep + s;
      Working(pieces, cuts, buffer, |Squash(overlap)|, Estimate(buffer), plan, done + Squash(s))
  {
    var overlap := TrailingText(text, tokens);
    SquashTrim(text);
    TrailingEnds(text, tokens);
    ToOverlap(pieces, cuts, done, overlap, sep, s);
    SquashThree(overlap, sep, s);
    NewAfter(Squash(overlap), Squash(s));
  }

  lemma NewAfter(repeated: string, s: string)
    ensures NewIn(Cut(repeated + s, |repeated|)) == s
  {
  }

  /** What is left in the buffer at the end is emitted unless it is blank. */
  lemma NoBlankLost(pieces: seq<Piece>, cuts: seq<Cut<char>>, buffer: string, n: nat, tokens: nat, plan: Plan,
                    done: string)
    requires Working(pieces, cuts, buffer, n, tokens, plan, done) && Trim(buffer) == ""
    ensures Working(pieces, cuts, "", 0, 0, plan, done)
  {
    SquashTrim(buffer);
  }

  /** Pieces made elsewhere follow while the buffer is empty. */
  lemma AddPieces(pieces: seq<Piece>, cuts: seq<Cut<char>>, tokens: nat, plan: Plan, done: string,
                  more: seq<Piece>, moreCuts: seq<Cut<char>>)
    requires Working(pieces, cuts, "", 0, tokens, plan, done)
    requires Shows(more, moreCuts) && Carries(moreCuts) && Counted(more) && Sized(more, moreCuts, plan)
    requires !plan.overlap ==> NothingRepeated(moreCuts)
    ensures Working(pieces + more, cuts + moreCuts, "", 0, tokens, plan, done + New(moreCuts))
  {
    ToFollowing(pieces, cuts, done, more, moreCuts);
    SizedFollow(pieces, cuts, more, moreCuts, plan);
  }

  /** A text is appended to the last piece, and its size estimated anew. */
  lemma GrowLast(pieces: seq<Piece>, cuts: seq<Cut<char>>, done: string, plan: Plan, sep: string, s: string)
    requires Working(pieces, cuts, "", 0, 0, plan, done) && AllSpace(sep) && pieces != []
    requires Estimate(pieces[|pieces| - 1].text + sep + s) <= plan.size
    ensures
      var last := |pieces| - 1;
      var merged := pieces[last].text + sep + s;
      Working(pieces[..last] + [Piece(merged, Estimate(merged))],
              cuts[..last] + [Cut(cuts[last].piece + Squash(s), cuts[last].carried)], "", 0, 0, plan, done + Squash(s))
  {
    var last := |pieces| - 1;
    var merged := pieces[last].text + sep + s;
    ToLast(pieces, cuts, done, sep, s, Estimate(merged));
    Replaced(pieces, cuts, Piece(merged, Estimate(merged)), Cut(cuts[last].piece + Squash(s), cuts[last].carried), plan);
  }

  lemma Replaced(pieces: seq<Piece>, cuts: seq<Cut<char>>, p: Piece, cut: Cut<char>, plan: Plan)
    requires pieces != [] && Sized(pieces, cuts, plan) && Counted(pieces)
    requires Estimate(p.text) <= p.tokens && Estimate(p.text) <= plan.size
    ensures
      var last := |pieces| - 1;
      && Sized(pieces[..last] + [p], cuts[..last] + [cut], plan) && Counted(pieces[..last] + [p])
      && (NothingRepeated(cuts) && cut.carried == 0 ==> NothingRepeated(cuts[..last] + [cut]))
  {
  }

  lemma FinallyNew(pieces: seq<Piece>, cuts: seq<Cut<char>>, tokens: nat, plan: Plan, done: string)
    requires Working(pieces, cuts, "", 0, tokens, plan, done)
    ensures New(cuts) == done
  {
    assert New(cuts) + [] == New(cuts);
  }

  /** Where nothing is repeated, the pieces' texts one after the other are what they hold. */
  lemma {:induction false} JoinedIsNew(pieces: seq<Piece>, cuts: seq<Cut<char>>)
    requires Shows(pieces, cuts) && NothingRepeated(cuts)
    ensures Squash(Concat(Texts(pieces))) == New(cuts)
  {
    if pieces != [] {
      var last := |pieces| - 1;
      JoinedIsNew(pieces[..last], cuts[..last]);
      ConcatAppend(Texts(pieces[..last]), [pieces[last].text]);
      SquashAppend(Concat(Texts(pieces[..last])), Concat([pieces[last].text]));
      SquashFirstPart(pieces[last].text, []);
      assert [pieces[last].text] + [] == [pieces[last].text];
    }
  }

  function Texts(pieces: seq<Piece>): seq<string> {
    if pieces == [] then [] else Texts(pieces[..|pieces| - 1]) + [pieces[|pieces| - 1].text]
  }
}

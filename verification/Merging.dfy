// Which sections a chunk holds: the sections of a document in turn, and exactly when two of them
// share a chunk.
module Merging {
  import opened Wrappers
  import opened Text
  import opened Overlaps
  import opened Estimates
  import opened Packing
  import opened Headings
  import opened Cutting
  import opened Grouping

  datatype Config = Config(targetSize: int, minSize: int, maxSize: int, overlapRatio: real, rule: Rule)

  /** Words repeated between chunks, in estimated tokens; none when it is not positive. */
  function OverlapTokens(c: Config): int {
    (c.targetSize as real * c.overlapRatio).Floor
  }

  datatype Meta = Meta(source: string, heading: Option<string>, index: nat, sectionId: Option<string>)

  datatype Chunk = Chunk(piece: Piece, meta: Meta)

  predicate TooLarge(s: Section, c: Config) {
    !Blank(s) && Estimate(Content(s)) > c.maxSize
  }

  function SectionKept(s: Section, c: Config): string {
    if Blank(s) then ""
    else if TooLarge(s, c) then KeptParagraphs(Paragraphs(Content(s)), c.targetSize)
    else Squash(Content(s))
  }

  // ---------------------------------------------------------------- one section's turn

  function Pushed(before: seq<Chunk>, more: seq<Piece>, source: string, heading: Option<string>): (after: seq<Chunk>)
    ensures |after| == |before| + |more|
  {
    before + seq(|more|, k requires 0 <= k < |more| => Chunk(more[k], Meta(source, heading, |before| + k, None)))
  }

  function ReplaceLast(chunks: seq<Chunk>, p: Piece): seq<Chunk>
    requires chunks != []
  {
    chunks[..|chunks| - 1] + [chunks[|chunks| - 1].(piece := p)]
  }

  function AsPiece(s: Section): Piece {
    Piece(Content(s), Estimate(Content(s)))
  }

  /** A chunk's text with a section behind it, and its size estimated anew. */
  function Merged(last: Chunk, s: Section): Piece {
    var text := last.piece.text + "\n\n" + Content(s);
    Piece(text, Estimate(text))
  }

  /** Below the least size, in a document of `count` sections, and not to be split. */
  predicate Tiny(s: Section, count: nat, c: Config) {
    count > 1 && !Blank(s) && Estimate(Content(s)) < c.minSize && Estimate(Content(s)) <= c.maxSize
  }

  /** A tiny section with room for it behind the chunk before it. */
  predicate Joins(before: seq<Chunk>, s: Section, count: nat, c: Config) {
    before != [] && Tiny(s, count, c) && Merged(before[|before| - 1], s).tokens <= c.maxSize
  }

  /** The pieces of a section that is too large; `cuts` says what they repeat. */
  ghost predicate SplitAs(more: seq<Piece>, cuts: seq<Cut<char>>, s: Section, c: Config) {
    && more == SectionPieces(Content(s), c.targetSize, OverlapTokens(c))
    && Shows(more, cuts) && Carries(cuts) && Counted(more) && New(cuts) == SectionKept(s, c)
    && (OverlapTokens(c) <= 0 ==> NothingRepeated(cuts))
  }

  ghost predicate SplitTurn(before: seq<Chunk>, s: Section, source: string, c: Config, after: seq<Chunk>,
                            more: seq<Piece>) {
    after == Pushed(before, more, source, s.heading) && exists cuts :: SplitAs(more, cuts, s, c)
  }

  /** The chunks after a section's turn. */
  ghost predicate Turn(before: seq<Chunk>, s: Section, count: nat, source: string, c: Config, after: seq<Chunk>) {
    if Blank(s) then after == before
    else if TooLarge(s, c) then exists more :: SplitTurn(before, s, source, c, after, more)
    else if Joins(before, s, count, c) then after == ReplaceLast(before, Merged(before[|before| - 1], s))
    else after == Pushed(before, [AsPiece(s)], source, s.heading)
  }

  /** `turns[i]` are the chunks there are when section `i` has its turn. */
  ghost predicate Trace(sections: seq<Section>, source: string, c: Config, turns: seq<seq<Chunk>>) {
    && |turns| == |sections| + 1 && turns[0] == []
    && forall i :: 0 <= i < |sections| ==> Turn(turns[i], sections[i], |sections|, source, c, turns[i + 1])
  }

  /** What a section's turn does, in full: one larger than the largest size is cut, one below the least
      size joins the chunk before it if that leaves room, unless it is the document's only one, and any
      other becomes a chunk of its own. */
  lemma TurnIs(before: seq<Chunk>, s: Section, count: nat, source: string, c: Config, after: seq<Chunk>)
    requires Turn(before, s, count, source, c, after) && Trim(s.text) != ""
    ensures
      var text, n := Content(s), |before|;
      if Estimate(text) > c.maxSize then
        var pieces := SectionPieces(text, c.targetSize, OverlapTokens(c));
        && |after| == n + |pieces| && after[..n] == before
        && forall k :: 0 <= k < |pieces| ==> after[n + k] == Chunk(pieces[k], Meta(source, s.heading, n + k, None))
      else if n > 0 && count > 1 && Estimate(text) < c.minSize
              && Estimate(before[n - 1].piece.text + "\n\n" + text) <= c.maxSize then
        var joined := before[n - 1].piece.text + "\n\n" + text;
        after == before[..n - 1] + [Chunk(Piece(joined, Estimate(joined)), before[n - 1].meta)]
      else after == before + [Chunk(Piece(text, Estimate(text)), Meta(source, s.heading, n, None))]
  {
    hide Content, Estimate, Trim, SectionPieces;
  }

  // ---------------------------------------------------------------- which sections a chunk holds

  function Copies(k: int, x: seq<nat>): (r: seq<seq<nat>>)
    ensures |r| == if k > 0 then k else 0
    ensures forall i :: 0 <= i < |r| ==> r[i] == x
  {
    if k <= 0 then [] else Copies(k - 1, x) + [x]
  }

  /** For every chunk there is after the first `n` turns the sections it holds, in order. */
  function SectionsIn(sections: seq<Section>, turns: seq<seq<Chunk>>, n: nat, c: Config): seq<seq<nat>>
    requires n <= |sections| && |turns| == |sections| + 1
  {
    if n == 0 then []
    else
      var before := SectionsIn(sections, turns, n - 1, c);
      if Blank(sections[n - 1]) then before
      else if before != [] && Joins(turns[n - 1], sections[n - 1], |sections|, c) then
        before[..|before| - 1] + [before[|before| - 1] + [n - 1]]
      else before + Copies(|turns[n]| - |turns[n - 1]|, [n - 1])
  }

  /** What follows the first section in a chunk. */
  function Tail(sections: seq<Section>, ids: seq<nat>): string
    requires forall j :: 0 <= j < |ids| ==> ids[j] < |sections|
  {
    if ids == [] then ""
    else Tail(sections, ids[..|ids| - 1]) + ("\n\n" + Content(sections[ids[|ids| - 1]]))
  }

  /** Sections below `n` that are not blank, in order. */
  predicate InOrder(ids: seq<nat>, sections: seq<Section>, n: nat) {
    && ids != [] && n <= |sections|
    && (forall j :: 0 <= j < |ids| ==> ids[j] < n && !Blank(sections[ids[j]]))
    && (forall i, j :: 0 <= i < j < |ids| ==> ids[i] < ids[j])
  }

  /** The chunk's text is its first section, or a piece of it if that is too large, and then the
      others; its heading is that of the first. */
  predicate MadeOf(chunk: Chunk, k: nat, ids: seq<nat>, sections: seq<Section>, n: nat, source: string, c: Config)
    requires InOrder(ids, sections, n)
  {
    var first, tail, text := sections[ids[0]], Tail(sections, ids[1..]), chunk.piece.text;
    && chunk.meta == Meta(source, first.heading, k, None)
    && |tail| <= |text| && text[|text| - |tail|..] == tail
    && (!TooLarge(first, c) ==> text[..|text| - |tail|] == Content(first))
  }

  predicate ChunkOf(chunk: Chunk, k: nat, ids: seq<nat>, sections: seq<Section>, n: nat, source: string, c: Config) {
    InOrder(ids, sections, n) && MadeOf(chunk, k, ids, sections, n, source, c)
  }

  /** One chunk's sections come before the next one's; only a section that is too large is in both. */
  predicate Precedes(a: seq<nat>, b: seq<nat>, sections: seq<Section>, c: Config)
    requires a != [] && b != [] && b[0] < |sections|
  {
    a[|a| - 1] <= b[0] && (a[|a| - 1] == b[0] ==> TooLarge(sections[b[0]], c))
  }

  /** `holds` tells of each chunk which of the first `n` sections it holds. */
  predicate Held(chunks: seq<Chunk>, holds: seq<seq<nat>>, sections: seq<Section>, n: nat, source: string, c: Config) {
    && |holds| == |chunks|
    && (forall k :: 0 <= k < |chunks| ==> ChunkOf(chunks[k], k, holds[k], sections, n, source, c))
    && (forall j, k :: 0 <= j < k < |chunks| ==> Precedes(holds[j], holds[k], sections, c))
  }

  /** Every section that is not blank, and of which anything is kept, is held by some chunk. */
  predicate AllHeld(holds: seq<seq<nat>>, sections: seq<Section>, n: nat, c: Config)
    requires n <= |sections|
  {
    forall i :: 0 <= i < n && SectionKept(sections[i], c) != "" ==> IsHeld(holds, i)
  }

  predicate IsHeld(holds: seq<seq<nat>>, i: nat) {
    exists k :: 0 <= k < |holds| && i in holds[k]
  }

  lemma ChunkLater(chunk: Chunk, k: nat, ids: seq<nat>, sections: seq<Section>, n: nat, source: string, c: Config)
    requires n < |sections| && ChunkOf(chunk, k, ids, sections, n, source, c)
    ensures ChunkOf(chunk, k, ids, sections, n + 1, source, c)
  {
  }

  /** A chunk made of (a piece of) section `n` alone. */
  lemma ChunkAlone(chunk: Chunk, k: nat, sections: seq<Section>, n: nat, source: string, c: Config)
    requires n < |sections| && !Blank(sections[n])
    requires chunk.meta == Meta(source, sections[n].heading, k, None)
    requires !TooLarge(sections[n], c) ==> chunk.piece.text == Content(sections[n])
    ensures ChunkOf(chunk, k, [n], sections, n + 1, source, c)
  {
    hide Content, TooLarge, Blank, Estimate;
    var text := chunk.piece.text;
    assert [n][1..] == [] && text[|text|..] == "" && text[..|text|] == text;
  }

  lemma TailMore(sections: seq<Section>, ids: seq<nat>, n: nat)
    requires n < |sections| && forall j :: 0 <= j < |ids| ==> ids[j] < |sections|
    ensures Tail(sections, ids + [n]) == Tail(sections, ids) + ("\n\n" + Content(sections[n]))
  {
    assert (ids + [n])[..|ids|] == ids;
  }

  lemma ChunkMerged(chunk: Chunk, k: nat, ids: seq<nat>, sections: seq<Section>, n: nat, source: string, c: Config)
    requires n < |sections| && !Blank(sections[n]) && ChunkOf(chunk, k, ids, sections, n, source, c)
    ensures ChunkOf(chunk.(piece := Merged(chunk, sections[n])), k, ids + [n], sections, n + 1, source, c)
  {
    hide Content, TooLarge, Blank, Estimate, Tail;
    var more, text := "\n\n" + Content(sections[n]), chunk.piece.text;
    var tail := Tail(sections, ids[1..]);
    assert (ids + [n])[1..] == ids[1..] + [n];
    TailMore(sections, ids[1..], n);
    var made := chunk.(piece := Merged(chunk, sections[n]));
    assert made.piece.text == text + more by { MergedText(chunk, sections[n]); }
    Behind(text, |text| - |tail|, more);
  }

  lemma MergedText(chunk: Chunk, s: Section)
    ensures Merged(chunk, s).text == chunk.piece.text + ("\n\n" + Content(s))
  {
  }

  lemma Behind(text: string, k: nat, more: string)
    requires k <= |text|
    ensures (text + more)[k..] == text[k..] + more && (text + more)[..k] == text[..k]
  {
  }

  lemma {:induction false} HeldSoFar(sections: seq<Section>, source: string, c: Config, turns: seq<seq<Chunk>>, n: nat)
    requires Trace(sections, source, c, turns) && n <= |sections|
    ensures
      var holds := SectionsIn(sections, turns, n, c);
      Held(turns[n], holds, sections, n, source, c) && AllHeld(holds, sections, n, c)
  {
    hide Turn, Held, AllHeld, SectionKept;
    if n == 0 {
      assert Held([], [], sections, 0, source, c) && AllHeld([], sections, 0, c) by { NoneHeld(sections, source, c); }
    } else {
      HeldSoFar(sections, source, c, turns, n - 1);
      assert Turn(turns[n - 1], sections[n - 1], |sections|, source, c, turns[n]);
      HeldNext(sections, source, c, turns, n - 1);
    }
  }

  lemma NoneHeld(sections: seq<Section>, source: string, c: Config)
    ensures Held([], [], sections, 0, source, c) && AllHeld([], sections, 0, c)
  {
  }

  lemma HeldNext(sections: seq<Section>, source: string, c: Config, turns: seq<seq<Chunk>>, n: nat)
    requires n < |sections| && |turns| == |sections| + 1
    requires Turn(turns[n], sections[n], |sections|, source, c, turns[n + 1])
    requires
      var holds := SectionsIn(sections, turns, n, c);
      Held(turns[n], holds, sections, n, source, c) && AllHeld(holds, sections, n, c)
    ensures
      var holds := SectionsIn(sections, turns, n + 1, c);
      Held(turns[n + 1], holds, sections, n + 1, source, c) && AllHeld(holds, sections, n + 1, c)
  {
    hide ChunkOf, Precedes, AllHeld, SectionKept, Content, Estimate, Merged, SplitAs;
    var before, s := SectionsIn(sections, turns, n, c), sections[n];
    if Blank(s) {
      HeldBlank(turns[n], before, sections, n, source, c);
    } else if Joins(turns[n], s, |sections|, c) {
      HeldMerged(turns[n], before, sections, n, source, c);
    } else if TooLarge(s, c) {
      var more :| SplitTurn(turns[n], s, source, c, turns[n + 1], more);
      var cuts :| SplitAs(more, cuts, s, c);
      assert SectionKept(s, c) != "" ==> |more| > 0 by { SomethingKept(more, cuts, s, c); }
      HeldPushed(turns[n], before, sections, n, more, source, c);
    } else {
      HeldPushed(turns[n], before, sections, n, [AsPiece(s)], source, c);
    }
  }

  lemma SomethingKept(more: seq<Piece>, cuts: seq<Cut<char>>, s: Section, c: Config)
    requires SplitAs(more, cuts, s, c)
    ensures SectionKept(s, c) != "" ==> |more| > 0
  {
    hide SectionKept;
  }

  lemma HeldBlank(chunks: seq<Chunk>, holds: seq<seq<nat>>, sections: seq<Section>, n: nat, source: string, c: Config)
    requires n < |sections| && Blank(sections[n]) && Held(chunks, holds, sections, n, source, c)
    requires AllHeld(holds, sections, n, c)
    ensures Held(chunks, holds, sections, n + 1, source, c) && AllHeld(holds, sections, n + 1, c)
  {
    hide MadeOf, Content, Estimate;
    forall k | 0 <= k < |chunks| ensures ChunkOf(chunks[k], k, holds[k], sections, n + 1, source, c) {
      ChunkLater(chunks[k], k, holds[k], sections, n, source, c);
    }
  }

  lemma ChunksPushed(chunks: seq<Chunk>, holds: seq<seq<nat>>, sections: seq<Section>, n: nat, more: seq<Piece>,
                     source: string, c: Config)
    requires n < |sections| && !Blank(sections[n]) && Held(chunks, holds, sections, n, source, c)
    requires !TooLarge(sections[n], c) ==> more == [AsPiece(sections[n])]
    ensures
      var after, holds' := Pushed(chunks, more, source, sections[n].heading), holds + Copies(|more|, [n]);
      forall k :: 0 <= k < |after| ==> ChunkOf(after[k], k, holds'[k], sections, n + 1, source, c)
  {
    hide ChunkOf, Content, Estimate, Blank, TooLarge, Precedes;
    var after, holds' := Pushed(chunks, more, source, sections[n].heading), holds + Copies(|more|, [n]);
    forall k | 0 <= k < |after| ensures ChunkOf(after[k], k, holds'[k], sections, n + 1, source, c) {
      if k < |chunks| {
        ChunkLater(chunks[k], k, holds[k], sections, n, source, c);
      } else {
        ChunkAlone(after[k], k, sections, n, source, c);
      }
    }
  }

  predicate AllPrecede(holds: seq<seq<nat>>, sections: seq<Section>, n: nat, c: Config)
  {
    && (forall k :: 0 <= k < |holds| ==> InOrder(holds[k], sections, n))
    && (forall j, k :: 0 <= j < k < |holds| ==> Precedes(holds[j], holds[k], sections, c))
  }

  lemma OrderPushed(holds: seq<seq<nat>>, sections: seq<Section>, n: nat, m: int, c: Config)
    requires n < |sections| && AllPrecede(holds, sections, n, c) && (m > 1 ==> TooLarge(sections[n], c))
    ensures
      var holds' := holds + Copies(m, [n]);
      forall j, k :: 0 <= j < k < |holds'| ==>
        holds'[j] != [] && holds'[k] != [] && holds'[k][0] < |sections| && Precedes(holds'[j], holds'[k], sections, c)
  {
    hide TooLarge, Blank;
  }

  lemma HeldPushed(chunks: seq<Chunk>, holds: seq<seq<nat>>, sections: seq<Section>, n: nat, more: seq<Piece>,
                   source: string, c: Config)
    requires n < |sections| && !Blank(sections[n]) && Held(chunks, holds, sections, n, source, c)
    requires AllHeld(holds, sections, n, c)
    requires !TooLarge(sections[n], c) ==> more == [AsPiece(sections[n])]
    requires TooLarge(sections[n], c) && SectionKept(sections[n], c) != "" ==> |more| > 0
    ensures
      var after, holds' := Pushed(chunks, more, source, sections[n].heading), holds + Copies(|more|, [n]);
      Held(after, holds', sections, n + 1, source, c) && AllHeld(holds', sections, n + 1, c)
  {
    hide ChunkOf, Precedes, AllHeld, Blank, SectionKept, AllPrecede;
    ChunksPushed(chunks, holds, sections, n, more, source, c);
    HeldPrecede(chunks, holds, sections, n, source, c);
    assert |more| > 1 ==> TooLarge(sections[n], c);
    OrderPushed(holds, sections, n, |more|, c);
    AllHeldPushed(holds, sections, n, |more|, c);
  }

  lemma HeldPrecede(chunks: seq<Chunk>, holds: seq<seq<nat>>, sections: seq<Section>, n: nat, source: string, c: Config)
    requires Held(chunks, holds, sections, n, source, c)
    ensures AllPrecede(holds, sections, n, c)
  {
    hide MadeOf, Precedes, Blank, TooLarge;
    forall k | 0 <= k < |holds| ensures InOrder(holds[k], sections, n) {
      assert ChunkOf(chunks[k], k, holds[k], sections, n, source, c);
    }
  }

  lemma AllHeldPushed(holds: seq<seq<nat>>, sections: seq<Section>, n: nat, m: int, c: Config)
    requires n < |sections| && AllHeld(holds, sections, n, c) && (SectionKept(sections[n], c) != "" ==> m > 0)
    ensures AllHeld(holds + Copies(m, [n]), sections, n + 1, c)
  {
    hide SectionKept;
    var holds' := holds + Copies(m, [n]);
    forall i | 0 <= i < n + 1 && SectionKept(sections[i], c) != "" ensures IsHeld(holds', i) {
      if i < n {
        var k :| 0 <= k < |holds| && i in holds[k];
        assert holds'[k] == holds[k];
      } else {
        assert holds'[|holds|] == [n];
      }
    }
  }

  lemma HeldMerged(chunks: seq<Chunk>, holds: seq<seq<nat>>, sections: seq<Section>, n: nat, source: string, c: Config)
    requires n < |sections| && !Blank(sections[n]) && !TooLarge(sections[n], c) && chunks != []
    requires Held(chunks, holds, sections, n, source, c) && AllHeld(holds, sections, n, c)
    ensures
      var last := |chunks| - 1;
      var after := ReplaceLast(chunks, Merged(chunks[last], sections[n]));
      var holds' := holds[..last] + [holds[last] + [n]];
      Held(after, holds', sections, n + 1, source, c) && AllHeld(holds', sections, n + 1, c)
  {
    hide MadeOf, SectionKept, Content, Estimate, Blank, TooLarge, Merged;
    var last := |chunks| - 1;
    var after := ReplaceLast(chunks, Merged(chunks[last], sections[n]));
    var holds' := holds[..last] + [holds[last] + [n]];
    forall k | 0 <= k < |after| ensures ChunkOf(after[k], k, holds'[k], sections, n + 1, source, c) {
      if k < last {
        ChunkLater(chunks[k], k, holds[k], sections, n, source, c);
      } else {
        ChunkMerged(chunks[k], k, holds[k], sections, n, source, c);
      }
    }
    forall j, k | 0 <= j < k < |after| ensures Precedes(holds'[j], holds'[k], sections, c) {
      assert Precedes(holds[j], holds[k], sections, c) && ChunkOf(chunks[k], k, holds[k], sections, n, source, c);
    }
    forall i | 0 <= i < n + 1 && SectionKept(sections[i], c) != "" ensures IsHeld(holds', i) {
      if i < n {
        var k :| 0 <= k < |holds| && i in holds[k];
        assert i in holds'[k];
      } else {
        assert n in holds'[last];
      }
    }
  }

  // ---------------------------------------------------------------- when sections share a chunk

  predicate OneEach(holds: seq<seq<nat>>) {
    forall k :: 0 <= k < |holds| ==> |holds[k]| == 1
  }

  ghost predicate NoneJoins(sections: seq<Section>, turns: seq<seq<Chunk>>, n: nat, c: Config)
    requires n <= |sections| && |turns| == |sections| + 1
  {
    forall i :: 0 <= i < n ==> !Joins(turns[i], sections[i], |sections|, c)
  }

  lemma BlankJoinsNone(before: seq<Chunk>, s: Section, count: nat, c: Config)
    ensures Blank(s) || before == [] ==> !Joins(before, s, count, c)
  {
  }

  lemma OneEachMore(holds: seq<seq<nat>>, m: int, n: nat)
    ensures OneEach(holds + Copies(m, [n])) <==> OneEach(holds)
  {
    var all := holds + Copies(m, [n]);
    assert forall k :: 0 <= k < |holds| ==> all[k] == holds[k];
  }

  lemma NotOneEach(holds: seq<seq<nat>>, n: nat)
    requires holds != [] && holds[|holds| - 1] != []
    ensures !OneEach(holds[..|holds| - 1] + [holds[|holds| - 1] + [n]])
  {
    var all := holds[..|holds| - 1] + [holds[|holds| - 1] + [n]];
    assert |all[|holds| - 1]| > 1;
  }

  lemma NoneJoinsNext(sections: seq<Section>, turns: seq<seq<Chunk>>, n: nat, c: Config)
    requires 0 < n <= |sections| && |turns| == |sections| + 1
    ensures NoneJoins(sections, turns, n, c) <==>
      NoneJoins(sections, turns, n - 1, c) && !Joins(turns[n - 1], sections[n - 1], |sections|, c)
  {
    hide Joins;
  }

  lemma {:induction false} OneEachSoFar(sections: seq<Section>, source: string, c: Config, turns: seq<seq<Chunk>>, n: nat)
    requires Trace(sections, source, c, turns) && n <= |sections|
    ensures OneEach(SectionsIn(sections, turns, n, c)) <==> NoneJoins(sections, turns, n, c)
  {
    hide Joins, Turn, MadeOf, Blank, TooLarge, AllHeld, NoneJoins, OneEach, Precedes;
    if n == 0 {
      assert OneEach([]) && NoneJoins(sections, turns, 0, c) by { NoneAtFirst(sections, turns, c); }
    } else {
      OneEachSoFar(sections, source, c, turns, n - 1);
      HeldSoFar(sections, source, c, turns, n - 1);
      NoneJoinsNext(sections, turns, n, c);
      BlankJoinsNone(turns[n - 1], sections[n - 1], |sections|, c);
      var before, m := SectionsIn(sections, turns, n - 1, c), |turns[n]| - |turns[n - 1]|;
      if Joins(turns[n - 1], sections[n - 1], |sections|, c) {
        assert ChunkOf(turns[n - 1][|before| - 1], |before| - 1, before[|before| - 1], sections, n - 1, source, c);
        NotOneEach(before, n - 1);
      } else {
        OneEachMore(before, m, n - 1);
      }
    }
  }

  lemma NoneAtFirst(sections: seq<Section>, turns: seq<seq<Chunk>>, c: Config)
    requires |turns| == |sections| + 1
    ensures OneEach([]) && NoneJoins(sections, turns, 0, c)
  {
  }

  /** Every chunk holds one section exactly if no section joins the chunk before it: none that is not
      blank, not the document's only one, below the least size and not to be split, with room behind
      the last chunk there is at its turn. */
  lemma OneEachIff(sections: seq<Section>, source: string, c: Config, turns: seq<seq<Chunk>>)
    requires Trace(sections, source, c, turns)
    ensures OneEach(SectionsIn(sections, turns, |sections|, c)) <==> NoneJoins(sections, turns, |sections|, c)
  {
    OneEachSoFar(sections, source, c, turns, |sections|);
  }

  /** In particular if no section is below the least size, or there is only one. */
  lemma NoMerging(sections: seq<Section>, source: string, c: Config, turns: seq<seq<Chunk>>)
    requires Trace(sections, source, c, turns)
    requires |sections| == 1 || forall i :: 0 <= i < |sections| && !Blank(sections[i]) ==> Estimate(Content(sections[i])) >= c.minSize
    ensures OneEach(SectionsIn(sections, turns, |sections|, c))
  {
    OneEachIff(sections, source, c, turns);
  }

  // ---------------------------------------------------------------- what every chunk of a document carries

  ghost predicate TraceTo(sections: seq<Section>, source: string, c: Config, turns: seq<seq<Chunk>>, chunks: seq<Chunk>) {
    Trace(sections, source, c, turns) && turns[|sections|] == chunks
  }

  /** The chunks of a document with these sections. */
  ghost predicate Traced(chunks: seq<Chunk>, sections: seq<Section>, source: string, c: Config) {
    exists turns :: TraceTo(sections, source, c, turns, chunks)
  }

  predicate HeadingAmong(heading: Option<string>, sections: seq<Section>) {
    exists i :: 0 <= i < |sections| && !Blank(sections[i]) && sections[i].heading == heading
  }

  lemma TracedMeta(chunks: seq<Chunk>, sections: seq<Section>, source: string, c: Config)
    requires Traced(chunks, sections, source, c)
    ensures forall k :: 0 <= k < |chunks| ==>
      chunks[k].meta == Meta(source, chunks[k].meta.heading, k, None) && HeadingAmong(chunks[k].meta.heading, sections)
  {
    var turns :| TraceTo(sections, source, c, turns, chunks);
    HeldSoFar(sections, source, c, turns, |sections|);
    var holds := SectionsIn(sections, turns, |sections|, c);
    hide Trace, SectionsIn, AllHeld, Precedes, Blank, TooLarge;
    forall k | 0 <= k < |chunks|
      ensures chunks[k].meta == Meta(source, chunks[k].meta.heading, k, None) && HeadingAmong(chunks[k].meta.heading, sections)
    {
      assert ChunkOf(chunks[k], k, holds[k], sections, |sections|, source, c);
      assert sections[holds[k][0]].heading == chunks[k].meta.heading;
    }
  }

  /** A text without heading lines is one section without a heading. */
  lemma {:induction false} NoHeadingSections(r: Rule, lines: seq<string>, current: seq<string>)
    requires forall k :: 0 <= k < |lines| ==> !r.isHeading(lines[k])
    requires lines + current != []
    ensures SectionsFrom(r, lines, None, current) == [Section(None, Join(current + lines, "\n"))]
  {
    if lines == [] {
      assert current + lines == current;
    } else {
      NoHeadingSections(r, lines[1..], current + [lines[0]]);
      assert current + [lines[0]] + lines[1..] == current + lines;
    }
  }

  /** So where the text of a parent has no heading line any more, no chunk of it carries a heading. */
  lemma NoHeadingLeft(chunks: seq<Chunk>, text: string, source: string, c: Config)
    requires Traced(chunks, Sections(c.rule, text), source, c)
    requires forall k :: 0 <= k < |Lines(text)| ==> !c.rule.isHeading(Lines(text)[k])
    ensures forall k :: 0 <= k < |chunks| ==> chunks[k].meta.heading == None
  {
    hide Traced;
    NoHeadingSections(c.rule, Lines(text), []);
    TracedMeta(chunks, Sections(c.rule, text), source, c);
  }

  // ---------------------------------------------------------------- two sections in one chunk

  function Standard(upper: Case): Config {
    Config(512, 128, 768, 0.1, HeadingRule(upper))
  }

  lemma SplitPlain(a: char, s: string, parts: seq<string>)
    requires a != '\n' && parts != [] && SplitOn(s, '\n') == parts
    ensures SplitOn([a] + s, '\n') == [[a] + parts[0]] + parts[1..]
  {
    assert ([a] + s)[1..] == s;
  }

  lemma SplitHere(s: string, parts: seq<string>)
    requires SplitOn(s, '\n') == parts
    ensures SplitOn(['\n'] + s, '\n') == [""] + parts
  {
    assert (['\n'] + s)[1..] == s;
  }

  const NOTE := "x\n# H\ny"

  lemma NoteLines()
    ensures Lines(NOTE) == ["x", "# H", "y"]
  {
    hide SplitOn;
    assert SplitOn("", '\n') == [""] by { NothingToSplit(); }
    SplitPlain('y', "", [""]);
    assert ['y'] + "" == "y";
    SplitHere("y", ["y"]);
    assert ['\n'] + "y" == "\ny";
    SplitPlain('H', "\ny", ["", "y"]);
    assert ['H'] + "\ny" == "H\ny" && ['H'] + "" == "H";
    SplitPlain(' ', "H\ny", ["H", "y"]);
    assert [' '] + "H\ny" == " H\ny" && [' '] + "H" == " H";
    SplitPlain('#', " H\ny", [" H", "y"]);
    assert ['#'] + " H\ny" == "# H\ny" && ['#'] + " H" == "# H";
    SplitHere("# H\ny", ["# H", "y"]);
    assert ['\n'] + "# H\ny" == "\n# H\ny";
    SplitPlain('x', "\n# H\ny", ["", "# H", "y"]);
    assert ['x'] + "\n# H\ny" == NOTE && ['x'] + "" == "x";
  }

  lemma NothingToSplit()
    ensures SplitOn("", '\n') == [""]
  {
  }

  lemma TrimSame(line: string)
    requires line != "" && !IsSpace(line[0]) && !IsSpace(line[|line| - 1])
    ensures Trim(line) == line
  {
  }

  lemma ShortLine(upper: Case, line: string)
    requires |line| == 1 && !IsSpace(line[0]) && line[0] != '#'
    ensures !HeadingRule(upper).isHeading(line)
  {
    hide HasUpper, HasLower, Trim;
    TrimSame(line);
    assert HashRun(line) == 0;
  }

  lemma HashLine(upper: Case, line: string, name: char)
    requires line == ['#', ' ', name] && !IsSpace(name) && name != '#'
    ensures HeadingRule(upper).isHeading(line) && HeadingRule(upper).textOf(line) == [name]
  {
    hide HasUpper, HasLower, Trim;
    TrimSame(line);
    var rest := line[1..];
    assert rest == [' ', name] && rest[1..] == [name];
    assert HashRun(rest) == 0 && HashRun(line) == 1;
    assert SpaceRun([name]) == 0 && SpaceRun(rest) == 1;
    assert TrimStart([name]) == [name] && TrimStart(rest) == [name];
  }

  lemma HeadingHere(upper: Case)
    ensures
      var r := HeadingRule(upper);
      !r.isHeading("x") && r.isHeading("# H") && !r.isHeading("y") && r.textOf("# H") == "H"
  {
    hide HeadingRule;
    ShortLine(upper, "x");
    ShortLine(upper, "y");
    HashLine(upper, "# H", 'H');
  }

  lemma NoteSections(upper: Case, text: string)
    requires Lines(text) == ["x", "# H", "y"]
    ensures Sections(HeadingRule(upper), text) == [Section(None, "x"), Section(Some("H"), "y")]
  {
    hide HeadingRule, Lines;
    var r := HeadingRule(upper);
    HeadingHere(upper);
    assert ["x", "# H", "y"][1..] == ["# H", "y"] && ["# H", "y"][1..] == ["y"] && ["y"][1..] == [];
    assert SectionsFrom(r, [], Some("H"), ["y"]) == [Section(Some("H"), "y")];
    assert SectionsFrom(r, ["y"], Some("H"), []) == [Section(Some("H"), "y")];
    assert SectionsFrom(r, ["# H", "y"], None, ["x"]) == [Section(None, "x"), Section(Some("H"), "y")];
    assert SectionsFrom(r, ["x", "# H", "y"], None, []) == [Section(None, "x"), Section(Some("H"), "y")];
  }

  lemma OneWord(a: char, s: string)
    requires !IsSpace(a)
    ensures |Words([a] + s)| == |Words(s)|
  {
    assert ([a] + s)[1..] == s;
  }

  lemma TwoLines(s: string)
    requires s != "" && !IsSpace(s[0])
    ensures |Words("\n\n" + s)| == 1 + |Words(s)|
  {
    var t := "\n\n" + s;
    assert t[1..] == "\n" + s && t[1..][1..] == s;
    assert SpaceRun(s) == 0 && SpaceRun(t) == 2;
    assert t[2..] == s;
  }

  lemma NoteSizes()
    ensures Estimate("x") == 2 && Estimate("H\n\ny") == 3 && Estimate("x\n\nH\n\ny") == 4
  {
    hide Words, SpaceRun;
    assert |Words("")| == 1 by { NoWords(); }
    OneWord('x', "");
    OneWord('y', "");
    assert ['x'] + "" == "x" && ['y'] + "" == "y";
    TwoLines("y");
    OneWord('H', "\n\n" + "y");
    assert ['H'] + ("\n\n" + "y") == "H\n\ny";
    TwoLines("H\n\ny");
    OneWord('x', "\n\n" + "H\n\ny");
    assert ['x'] + ("\n\n" + "H\n\ny") == "x\n\nH\n\ny";
  }

  lemma NoWords()
    ensures |Words("")| == 1
  {
  }

  lemma NoteContents()
    ensures Content(Section(None, "x")) == "x" && !Blank(Section(None, "x"))
    ensures Content(Section(Some("H"), "y")) == "H\n\ny" && !Blank(Section(Some("H"), "y"))
  {
    assert TrimStart("x") == "x" && TrimEnd("x") == "x";
    assert TrimStart("y") == "y" && TrimEnd("y") == "y";
  }

  function Both(a: Section, b: Section, source: string): seq<Chunk> {
    var text := Content(a) + "\n\n" + Content(b);
    [Chunk(Piece(text, Estimate(text)), Meta(source, a.heading, 0, None))]
  }

  lemma FirstTurn(a: Section, source: string, c: Config, after: seq<Chunk>)
    requires !Blank(a) && !TooLarge(a, c) && Turn([], a, 2, source, c, after)
    ensures after == [Chunk(AsPiece(a), Meta(source, a.heading, 0, None))]
  {
    hide Content, Estimate, Blank, TooLarge, Merged;
  }

  lemma SecondTurn(a: Section, b: Section, source: string, c: Config, after: seq<Chunk>)
    requires Tiny(b, 2, c) && Both(a, b, source)[0].piece.tokens <= c.maxSize
    requires Turn([Chunk(AsPiece(a), Meta(source, a.heading, 0, None))], b, 2, source, c, after)
    ensures Joins([Chunk(AsPiece(a), Meta(source, a.heading, 0, None))], b, 2, c)
    ensures after == Both(a, b, source)
  {
    hide Content, Estimate, Blank;
  }

  lemma FirstHeld(a: Section, b: Section, c: Config, turns: seq<seq<Chunk>>)
    requires |turns| == 3 && turns[0] == [] && |turns[1]| == 1 && !Blank(a)
    ensures SectionsIn([a, b], turns, 1, c) == [[0]]
  {
    hide Content, Estimate, TooLarge, Blank, Joins;
    BlankJoinsNone([], a, 2, c);
    assert Copies(1, [0]) == Copies(0, [0]) + [[0]];
    assert SectionsIn([a, b], turns, 0, c) == [];
  }

  lemma BothHeld(a: Section, b: Section, c: Config, turns: seq<seq<Chunk>>)
    requires |turns| == 3 && !Blank(b) && Joins(turns[1], b, 2, c)
    requires SectionsIn([a, b], turns, 1, c) == [[0]]
    ensures SectionsIn([a, b], turns, 2, c) == [[0, 1]]
  {
    hide Content, Estimate, TooLarge, Blank, Joins;
    assert [[0]][..0] == [] && [0] + [1] == [0, 1];
  }

  /** Two sections share a chunk whenever the second is below the least size and both fit. */
  lemma TwoInOne(a: Section, b: Section, source: string, c: Config, turns: seq<seq<Chunk>>)
    requires !Blank(a) && !TooLarge(a, c) && Tiny(b, 2, c) && Both(a, b, source)[0].piece.tokens <= c.maxSize
    requires Trace([a, b], source, c, turns)
    ensures |turns| == 3 && SectionsIn([a, b], turns, 2, c) == [[0, 1]] && turns[2] == Both(a, b, source)
  {
    hide Content, Estimate, TooLarge, Turn, Joins, Both, SectionsIn, Blank;
    var sections := [a, b];
    assert sections[0] == a && sections[1] == b;
    assert Turn(turns[0], sections[0], 2, source, c, turns[1]);
    FirstTurn(a, source, c, turns[1]);
    assert Turn(turns[1], sections[1], 2, source, c, turns[2]);
    SecondTurn(a, b, source, c, turns[2]);
    FirstHeld(a, b, c, turns);
    assert !Blank(b);
    BothHeld(a, b, c, turns);
  }

  lemma SmallFit(a: Section, b: Section, text: string, source: string, c: Config)
    requires !Blank(a) && !Blank(b) && c.minSize == 128 && c.maxSize == 768
    requires Estimate(Content(a)) == 2 && Estimate(Content(b)) == 3
    requires text == Content(a) + "\n\n" + Content(b) && Estimate(text) == 4
    ensures !TooLarge(a, c) && Tiny(b, 2, c)
    ensures Both(a, b, source) == [Chunk(Piece(text, 4), Meta(source, a.heading, 0, None))]
  {
    hide Content, Estimate, Blank;
  }

  lemma NoteFits(c: Config, source: string)
    requires c.minSize == 128 && c.maxSize == 768
    ensures
      var a, b := Section(None, "x"), Section(Some("H"), "y");
      && !Blank(a) && !TooLarge(a, c) && Tiny(b, 2, c)
      && Both(a, b, source) == [Chunk(Piece("x\n\nH\n\ny", 4), Meta(source, None, 0, None))]
  {
    hide *;
    NoteContents();
    NoteSizes();
    assert "x" + "\n\n" + "H\n\ny" == "x\n\nH\n\ny";
    SmallFit(Section(None, "x"), Section(Some("H"), "y"), "x\n\nH\n\ny", source, c);
  }

  /** The chunks of this document are one that holds both of its sections. */
  ghost predicate OneForBoth(sections: seq<Section>, c: Config, source: string, turns: seq<seq<Chunk>>) {
    && |turns| == |sections| + 1 == 3
    && SectionsIn(sections, turns, |sections|, c) == [[0, 1]]
    && turns[2] == [Chunk(Piece("x\n\nH\n\ny", 4), Meta(source, None, 0, None))]
  }

  /** With the standard sizes this note of two sections becomes one chunk, without the heading of the
      second section in its metadata. */
  lemma SectionsMerged(upper: Case, source: string, text: string, turns: seq<seq<Chunk>>)
    requires Lines(text) == ["x", "# H", "y"]
    requires Trace(Sections(HeadingRule(upper), text), source, Standard(upper), turns)
    ensures OneForBoth(Sections(HeadingRule(upper), text), Standard(upper), source, turns)
  {
    var c := Standard(upper);
    assert c.minSize == 128 && c.maxSize == 768;
    hide *;
    NoteSections(upper, text);
    NoteFits(c, source);
    TwoInOne(Section(None, "x"), Section(Some("H"), "y"), source, c, turns);
    BothAreOne(c, source, turns);
  }

  lemma BothAreOne(c: Config, source: string, turns: seq<seq<Chunk>>)
    requires |turns| == 3 && SectionsIn([Section(None, "x"), Section(Some("H"), "y")], turns, 2, c) == [[0, 1]]
    requires turns[2] == [Chunk(Piece("x\n\nH\n\ny", 4), Meta(source, None, 0, None))]
    ensures OneForBoth([Section(None, "x"), Section(Some("H"), "y")], c, source, turns)
  {
    hide SectionsIn;
  }
}

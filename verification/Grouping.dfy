// The pieces of a section that is too large, exactly: what the loops over words, sentences and
// paragraphs do to the buffer, and the groups of parts that come out, each as large as it can be.
module Grouping {
  import opened Text
  import opened Estimates
  import opened Packing
  import opened Cutting
  import Sentences

  /** The pieces emitted so far, and the text collected for the next one with its tokens as counted. */
  datatype Buffer = Buffer(pieces: seq<Piece>, text: string, tokens: nat)

  const EMPTY: Buffer := Buffer([], "", 0)

  /** What differs between paragraphs and sentences: what goes between two of them and behind repeated
      words, and whether pieces are trimmed. */
  datatype Style = Style(sep: string, leadSep: string, trims: bool)

  const PARAGRAPHS: Style := Style("\n\n", "\n\n", false)
  const SENTENCES: Style := Style("", " ", true)

  // ---------------------------------------------------------------- the loops

  function Emitted(st: Style, b: Buffer): seq<Piece> {
    b.pieces + [Piece(if st.trims then Trim(b.text) else b.text, b.tokens)]
  }

  /** What the piece after `full` starts with. */
  function Lead(st: Style, full: string, overlap: int): string {
    if overlap > 0 then TrailingText(full, overlap) + st.leadSep else ""
  }

  /** A part is added if it fits; otherwise it starts a new buffer. */
  function Put(st: Style, b: Buffer, part: string, size: int, overlap: int): Buffer {
    if b.tokens + Estimate(part) <= size then
      Buffer(b.pieces, b.text + (if b.text != "" then st.sep else "") + part, b.tokens + Estimate(part))
    else
      var next := Lead(st, b.text, overlap) + part;
      Buffer(Emitted(st, b), next, Estimate(next))
  }

  function PutAll(st: Style, b: Buffer, parts: seq<string>, size: int, overlap: int): Buffer {
    if parts == [] then b
    else Put(st, PutAll(st, b, parts[..|parts| - 1], size, overlap), parts[|parts| - 1], size, overlap)
  }

  function PutWord(b: Buffer, word: string, size: int): Buffer {
    var test := if b.text != "" then b.text + " " + word else word;
    if Estimate(test) > size && b.text != "" then
      Buffer(b.pieces + [Piece(Trim(b.text), Estimate(b.text))], word, Estimate(word))
    else Buffer(b.pieces, test, Estimate(test))
  }

  function PutWords(b: Buffer, words: seq<string>, size: int): Buffer {
    if words == [] then b else PutWord(PutWords(b, words[..|words| - 1], size), words[|words| - 1], size)
  }

  /** A sentence that does not fit into an empty buffer is cut at words. */
  function PutSentence(b: Buffer, sentence: string, size: int, overlap: int): Buffer {
    if b.tokens + Estimate(sentence) > size && b.text == "" then
      PutWords(Buffer(b.pieces, "", 0), Words(sentence), size)
    else Put(SENTENCES, b, sentence, size, overlap)
  }

  function PutSentences(b: Buffer, sentences: seq<string>, size: int, overlap: int): Buffer {
    if sentences == [] then b
    else PutSentence(PutSentences(b, sentences[..|sentences| - 1], size, overlap), sentences[|sentences| - 1], size, overlap)
  }

  function Flushed(b: Buffer): seq<Piece> {
    if Trim(b.text) != "" then b.pieces + [Piece(Trim(b.text), Estimate(b.text))] else b.pieces
  }

  /** The pieces of a paragraph that is too large. */
  function SentencePieces(text: string, size: int, overlap: int): seq<Piece> {
    Flushed(PutSentences(EMPTY, Sentences.Split(text), size, overlap))
  }

  /** A paragraph that does not fit into an empty buffer is cut into sentences. */
  function PutParagraph(b: Buffer, para: string, size: int, overlap: int): Buffer {
    if b.tokens + Estimate(para) > size && b.text == "" then
      Buffer(b.pieces + SentencePieces(para, size, overlap), "", b.tokens)
    else Put(PARAGRAPHS, b, para, size, overlap)
  }

  function PutParagraphs(b: Buffer, paragraphs: seq<string>, size: int, overlap: int): Buffer {
    if paragraphs == [] then b
    else PutParagraph(PutParagraphs(b, paragraphs[..|paragraphs| - 1], size, overlap), paragraphs[|paragraphs| - 1], size, overlap)
  }

  /** The pieces of a section that is too large. */
  function SectionPieces(content: string, size: int, overlap: int): seq<Piece> {
    Flushed(PutParagraphs(EMPTY, Paragraphs(content), size, overlap))
  }

  // ---------------------------------------------------------------- groups of parts

  /** Group `j` has the parts up to `ends[j]`, as the text `texts[j]` with `counts[j]` tokens. */
  datatype Groups = Groups(ends: seq<nat>, texts: seq<string>, counts: seq<nat>)

  /** The parts, each behind a separator. */
  function Glued(st: Style, parts: seq<string>): string {
    if parts == [] then "" else Glued(st, parts[..|parts| - 1]) + (st.sep + parts[|parts| - 1])
  }

  function Tokens(parts: seq<string>): nat {
    if parts == [] then 0 else Tokens(parts[..|parts| - 1]) + Estimate(parts[|parts| - 1])
  }

  predicate Ordered(g: Groups, n: nat) {
    && |g.ends| == |g.texts| == |g.counts| > 0 && g.ends[|g.ends| - 1] == n
    && forall j, k :: 0 <= j < k < |g.ends| ==> g.ends[j] < g.ends[k] <= n
  }

  /** A group is what was there, or the next part behind the words repeated from the group before, and
      as many parts more. */
  predicate Collected(st: Style, start: Buffer, parts: seq<string>, overlap: int, g: Groups, j: nat)
    requires Ordered(g, |parts|) && j < |g.ends|
  {
    if j == 0 then
      g.texts[0] == start.text + Glued(st, parts[..g.ends[0]]) && g.counts[0] == start.tokens + Tokens(parts[..g.ends[0]])
    else
      var i := g.ends[j - 1];
      var repeated := if overlap > 0 then TrailingText(g.texts[j - 1], overlap) + st.leadSep else "";
      var first, more := repeated + parts[i], parts[i + 1..g.ends[j]];
      g.texts[j] == first + Glued(st, more) && g.counts[j] == Estimate(first) + Tokens(more)
  }

  /** A group takes no part that does not fit, and the part after it would not have. */
  predicate AsLargeAsFits(parts: seq<string>, size: int, g: Groups, j: nat)
    requires Ordered(g, |parts|) && j < |g.ends|
  {
    && (g.ends[j] > (if j == 0 then 0 else g.ends[j - 1] + 1) ==> g.counts[j] <= size)
    && (j < |g.ends| - 1 ==> g.counts[j] + Estimate(parts[g.ends[j]]) > size)
  }

  predicate Grouped(st: Style, start: Buffer, parts: seq<string>, size: int, overlap: int, g: Groups) {
    && Ordered(g, |parts|)
    && forall j :: 0 <= j < |g.ends| ==> Collected(st, start, parts, overlap, g, j) && AsLargeAsFits(parts, size, g, j)
  }

  /** The first `n` groups as pieces. */
  function AsPieces(st: Style, g: Groups, n: nat): (pieces: seq<Piece>)
    requires |g.texts| == |g.counts| && n <= |g.texts|
    ensures |pieces| == n
  {
    seq(n, j requires 0 <= j < n => Piece(if st.trims then Trim(g.texts[j]) else g.texts[j], g.counts[j]))
  }

  function Grow(st: Style, g: Groups, part: string): Groups
    requires |g.ends| == |g.texts| == |g.counts| > 0
  {
    var last := |g.ends| - 1;
    Groups(g.ends[last := g.ends[last] + 1], g.texts[last := g.texts[last] + (st.sep + part)],
           g.counts[last := g.counts[last] + Estimate(part)])
  }

  function Open(st: Style, g: Groups, part: string, overlap: int): Groups
    requires |g.ends| == |g.texts| == |g.counts| > 0
  {
    var last := |g.ends| - 1;
    var first := Lead(st, g.texts[last], overlap) + part;
    Groups(g.ends + [g.ends[last] + 1], g.texts + [first], g.counts + [Estimate(first)])
  }

  lemma GluedMore(st: Style, parts: seq<string>, part: string)
    ensures Glued(st, parts + [part]) == Glued(st, parts) + (st.sep + part)
    ensures Tokens(parts + [part]) == Tokens(parts) + Estimate(part)
  {
    assert (parts + [part])[..|parts|] == parts;
  }

  lemma CollectedLater(st: Style, start: Buffer, parts: seq<string>, part: string, size: int, overlap: int, g: Groups, g': Groups, j: nat)
    requires Ordered(g, |parts|) && Ordered(g', |parts| + 1) && j < |g.ends| - 1 && j < |g'.ends| - 1
    requires g'.ends[..j + 1] == g.ends[..j + 1] && g'.texts[..j + 1] == g.texts[..j + 1] && g'.counts[..j + 1] == g.counts[..j + 1]
    requires Collected(st, start, parts, overlap, g, j) && AsLargeAsFits(parts, size, g, j)
    ensures Collected(st, start, parts + [part], overlap, g', j) && AsLargeAsFits(parts + [part], size, g', j)
  {
    hide Glued, Tokens, TrailingText, Lead, Estimate;
    var all := parts + [part];
    assert g'.ends[j] == g'.ends[..j + 1][j] && g'.texts[j] == g'.texts[..j + 1][j] && g'.counts[j] == g'.counts[..j + 1][j];
    assert g.ends[j] < |parts|;
    if j == 0 {
      assert all[..g.ends[0]] == parts[..g.ends[0]];
    } else {
      assert g'.ends[j - 1] == g'.ends[..j + 1][j - 1] == g.ends[j - 1] && g'.texts[j - 1] == g'.texts[..j + 1][j - 1];
      assert all[g.ends[j - 1] + 1..g.ends[j]] == parts[g.ends[j - 1] + 1..g.ends[j]];
    }
  }

  lemma GrowGrouped(st: Style, start: Buffer, parts: seq<string>, part: string, size: int, overlap: int, g: Groups)
    requires Grouped(st, start, parts, size, overlap, g) && g.counts[|g.counts| - 1] + Estimate(part) <= size
    ensures Grouped(st, start, parts + [part], size, overlap, Grow(st, g, part))
  {
    hide Glued, Tokens, TrailingText, Lead, Estimate;
    var all, g', last := parts + [part], Grow(st, g, part), |g.ends| - 1;
    assert Ordered(g', |all|);
    forall j | 0 <= j < |g'.ends|
      ensures Collected(st, start, all, overlap, g', j) && AsLargeAsFits(all, size, g', j)
    {
      assert Collected(st, start, parts, overlap, g, j) && AsLargeAsFits(parts, size, g, j);
      if j < last {
        CollectedLater(st, start, parts, part, size, overlap, g, g', j);
      } else if j == 0 {
        assert parts[..g.ends[0]] == parts && all[..g'.ends[0]] == all;
        GluedMore(st, parts, part);
      } else {
        var i := g.ends[j - 1];
        assert parts[i + 1..g.ends[j]] == parts[i + 1..] && all[i + 1..g'.ends[j]] == parts[i + 1..] + [part];
        GluedMore(st, parts[i + 1..], part);
      }
    }
  }

  lemma OpenGrouped(st: Style, start: Buffer, parts: seq<string>, part: string, size: int, overlap: int, g: Groups)
    requires Grouped(st, start, parts, size, overlap, g) && g.counts[|g.counts| - 1] + Estimate(part) > size
    ensures Grouped(st, start, parts + [part], size, overlap, Open(st, g, part, overlap))
  {
    hide TrailingText, Estimate;
    var all, g', last := parts + [part], Open(st, g, part, overlap), |g.ends| - 1;
    assert Ordered(g', |all|);
    forall j | 0 <= j < |g'.ends|
      ensures Collected(st, start, all, overlap, g', j) && AsLargeAsFits(all, size, g', j)
    {
      if j <= last {
        assert Collected(st, start, parts, overlap, g, j) && AsLargeAsFits(parts, size, g, j);
        OpenedLater(st, start, parts, part, size, overlap, g, j);
      } else {
        assert all[|parts|] == part && all[|parts| + 1..g'.ends[j]] == [];
      }
    }
  }

  lemma OpenedLater(st: Style, start: Buffer, parts: seq<string>, part: string, size: int, overlap: int, g: Groups, j: nat)
    requires Grouped(st, start, parts, size, overlap, g) && j < |g.ends| && g.counts[|g.counts| - 1] + Estimate(part) > size
    requires Ordered(Open(st, g, part, overlap), |parts| + 1)
    ensures Collected(st, start, parts + [part], overlap, Open(st, g, part, overlap), j)
    ensures AsLargeAsFits(parts + [part], size, Open(st, g, part, overlap), j)
  {
    hide Lead, TrailingText, Estimate, Glued, Tokens;
    var all := parts + [part];
    assert Collected(st, start, parts, overlap, g, j) && AsLargeAsFits(parts, size, g, j);
    if j == 0 {
      assert all[..g.ends[0]] == parts[..g.ends[0]];
    } else {
      assert all[g.ends[j - 1] + 1..g.ends[j]] == parts[g.ends[j - 1] + 1..g.ends[j]];
    }
  }

  /** The buffer after all parts is the last group, and the pieces are the others. */
  predicate Becomes(st: Style, start: Buffer, g: Groups, b: Buffer) {
    && |g.texts| == |g.counts| > 0
    && b.pieces == start.pieces + AsPieces(st, g, |g.texts| - 1)
    && b.text == g.texts[|g.texts| - 1] && b.text != "" && b.tokens == g.counts[|g.counts| - 1]
  }

  lemma BecomesGrown(st: Style, start: Buffer, g: Groups, b: Buffer, part: string, size: int, overlap: int)
    requires |g.ends| == |g.texts| && Becomes(st, start, g, b) && b.tokens + Estimate(part) <= size
    ensures Becomes(st, start, Grow(st, g, part), Put(st, b, part, size, overlap))
  {
    hide Estimate, Lead;
    var g' := Grow(st, g, part);
    assert AsPieces(st, g', |g.texts| - 1) == AsPieces(st, g, |g.texts| - 1);
  }

  lemma BecomesOpened(st: Style, start: Buffer, g: Groups, b: Buffer, part: string, size: int, overlap: int)
    requires |g.ends| == |g.texts| && Becomes(st, start, g, b) && b.tokens + Estimate(part) > size && part != ""
    ensures Becomes(st, start, Open(st, g, part, overlap), Put(st, b, part, size, overlap))
  {
    hide Estimate, Lead;
    var g', n := Open(st, g, part, overlap), |g.texts|;
    assert AsPieces(st, g', n) == AsPieces(st, g, n - 1) + [Piece(if st.trims then Trim(g.texts[n - 1]) else g.texts[n - 1], g.counts[n - 1])];
  }

  /** Put into a buffer one after the other, parts form groups, each as large as fits. */
  lemma {:induction false} GroupsOf(st: Style, start: Buffer, parts: seq<string>, size: int, overlap: int) returns (g: Groups)
    requires start.text != "" && forall k :: 0 <= k < |parts| ==> parts[k] != ""
    ensures Grouped(st, start, parts, size, overlap, g) && Becomes(st, start, g, PutAll(st, start, parts, size, overlap))
  {
    hide Estimate, Grouped, Becomes, Put;
    if parts == [] {
      g := Groups([0], [start.text], [start.tokens]);
      OneGroup(st, start, size, overlap, g);
    } else {
      var front, part := parts[..|parts| - 1], parts[|parts| - 1];
      g := GroupsOf(st, start, front, size, overlap);
      assert |g.ends| == |g.texts| == |g.counts| > 0 by { GroupedShape(st, start, front, size, overlap, g); }
      assert parts == front + [part];
      var b := PutAll(st, start, front, size, overlap);
      assert b.tokens == g.counts[|g.counts| - 1] by { LastCount(st, start, g, b); }
      if b.tokens + Estimate(part) <= size {
        GrowGrouped(st, start, front, part, size, overlap, g);
        BecomesGrown(st, start, g, b, part, size, overlap);
        g := Grow(st, g, part);
      } else {
        OpenGrouped(st, start, front, part, size, overlap, g);
        BecomesOpened(st, start, g, b, part, size, overlap);
        g := Open(st, g, part, overlap);
      }
    }
  }

  lemma OneGroup(st: Style, start: Buffer, size: int, overlap: int, g: Groups)
    requires start.text != "" && g == Groups([0], [start.text], [start.tokens])
    ensures Grouped(st, start, [], size, overlap, g) && Becomes(st, start, g, start)
  {
  }

  lemma GroupedShape(st: Style, start: Buffer, parts: seq<string>, size: int, overlap: int, g: Groups)
    requires Grouped(st, start, parts, size, overlap, g)
    ensures |g.ends| == |g.texts| == |g.counts| > 0
  {
  }

  lemma LastCount(st: Style, start: Buffer, g: Groups, b: Buffer)
    requires Becomes(st, start, g, b)
    ensures |g.counts| > 0 && b.tokens == g.counts[|g.counts| - 1]
  {
  }

  /** Paragraphs are put together with empty lines, also behind repeated words, sentences as they are, and
      behind repeated words with a blank. */
  lemma {:induction false} GluedJoins(first: string, rest: seq<string>)
    ensures first + Glued(PARAGRAPHS, rest) == Join([first] + rest, "\n\n") && PARAGRAPHS.leadSep == "\n\n"
    ensures first + Glued(SENTENCES, rest) == Concat([first] + rest) && SENTENCES.leadSep == " "
  {
    if rest == [] {
      assert [first] + rest == [first] && first + "" == first && Concat([first]) == first + Concat([]);
    } else {
      var less, part := rest[..|rest| - 1], rest[|rest| - 1];
      GluedJoins(first, less);
      assert [first] + rest == ([first] + less) + [part];
      JoinMore([first] + less, part, "\n\n");
      ConcatAppend([first] + less, [part]);
      assert Concat([part]) == part + Concat([]) && part + "" == part && "" + part == part;
      Associative(first, Glued(PARAGRAPHS, less), "\n\n" + part);
      Associative(first, Glued(SENTENCES, less), part);
    }
  }

  lemma {:induction false} JoinMore(parts: seq<string>, part: string, sep: string)
    requires parts != []
    ensures Join(parts + [part], sep) == Join(parts, sep) + (sep + part)
  {
    var all := parts + [part];
    if |parts| == 1 {
      assert all[1..] == [part];
      assert parts[0] + sep + part == parts[0] + (sep + part);
    } else {
      assert all[1..] == parts[1..] + [part];
      JoinMore(parts[1..], part, sep);
      assert all[0] + sep + (Join(parts[1..], sep) + (sep + part)) == (all[0] + sep + Join(parts[1..], sep)) + (sep + part);
    }
  }

  // ---------------------------------------------------------------- paragraphs

  /** The pieces of paragraphs that are all cut into sentences. */
  function CutPieces(paragraphs: seq<string>, size: int, overlap: int): seq<Piece> {
    if paragraphs == [] then []
    else CutPieces(paragraphs[..|paragraphs| - 1], size, overlap) + SentencePieces(paragraphs[|paragraphs| - 1], size, overlap)
  }

  lemma {:induction false} AllCut(paragraphs: seq<string>, size: int, overlap: int)
    requires AllLarge(paragraphs, |paragraphs|, size)
    ensures PutParagraphs(EMPTY, paragraphs, size, overlap) == Buffer(CutPieces(paragraphs, size, overlap), "", 0)
  {
    hide Estimate, SentencePieces, Put;
    if paragraphs != [] {
      AllCut(paragraphs[..|paragraphs| - 1], size, overlap);
    }
  }

  lemma PutsOn(b: Buffer, part: string, size: int, overlap: int)
    requires b.text != "" && part != ""
    ensures PutParagraph(b, part, size, overlap) == Put(PARAGRAPHS, b, part, size, overlap)
    ensures PutSentence(b, part, size, overlap) == Put(SENTENCES, b, part, size, overlap)
    ensures Put(PARAGRAPHS, b, part, size, overlap).text != "" && Put(SENTENCES, b, part, size, overlap).text != ""
  {
    hide Estimate, Lead;
  }

  lemma {:induction false} ThenGrouped(b: Buffer, front: seq<string>, rest: seq<string>, size: int, overlap: int)
    requires PutParagraphs(EMPTY, front, size, overlap) == b && b.text != "" && forall k :: 0 <= k < |rest| ==> rest[k] != ""
    ensures PutParagraphs(EMPTY, front + rest, size, overlap) == PutAll(PARAGRAPHS, b, rest, size, overlap)
    ensures PutAll(PARAGRAPHS, b, rest, size, overlap).text != ""
  {
    hide Put, PutParagraph;
    if rest == [] {
      assert front + rest == front;
    } else {
      var all, less := front + rest, rest[..|rest| - 1];
      ThenGrouped(b, front, less, size, overlap);
      PutsOn(PutAll(PARAGRAPHS, b, less, size, overlap), rest[|rest| - 1], size, overlap);
      assert all[..|all| - 1] == front + less && all[|all| - 1] == rest[|rest| - 1];
    }
  }

  /** The last piece, trimmed and estimated anew, unless it is blank. */
  function LastPiece(text: string): seq<Piece> {
    if Trim(text) != "" then [Piece(Trim(text), Estimate(text))] else []
  }

  /** The buffer when the first paragraph that fits has been put into it. */
  function FirstFit(paragraphs: seq<string>, m: nat, size: int, overlap: int): Buffer
    requires m < |paragraphs|
  {
    Buffer(CutPieces(paragraphs[..m], size, overlap), paragraphs[m], Estimate(paragraphs[m]))
  }

  lemma FitsFirst(paragraphs: seq<string>, m: nat, size: int, overlap: int)
    requires m < |paragraphs| && AllLarge(paragraphs, m, size) && Estimate(paragraphs[m]) <= size
    ensures PutParagraphs(EMPTY, paragraphs[..m + 1], size, overlap) == FirstFit(paragraphs, m, size, overlap)
  {
    hide Estimate, CutPieces;
    var front := paragraphs[..m];
    assert AllLarge(front, m, size);
    AllCut(front, size, overlap);
    assert paragraphs[..m + 1][..m] == front && paragraphs[..m + 1][m] == paragraphs[m];
    assert "" + "" + paragraphs[m] == paragraphs[m];
  }

  /** The pieces of a section that is too large: those of the paragraphs in front that are cut, and then
      the groups of the others, each with as many paragraphs as fit and, if there are overlaps, behind
      the last words of the one before. */
  lemma SectionGroups(content: string, size: int, overlap: int) returns (g: Groups)
    requires forall k :: 0 <= k < |Paragraphs(content)| ==> Paragraphs(content)[k] != ""
    ensures
      var ps := Paragraphs(content);
      var m := |CutParagraphs(ps, size)|;
      && m <= |ps|
      && if m == |ps| then SectionPieces(content, size, overlap) == CutPieces(ps, size, overlap)
         else
           && Grouped(PARAGRAPHS, FirstFit(ps, m, size, overlap), ps[m + 1..], size, overlap, g)
           && var last := |g.ends| - 1;
              SectionPieces(content, size, overlap)
                == CutPieces(ps[..m], size, overlap) + AsPieces(PARAGRAPHS, g, last) + LastPiece(g.texts[last])
  {
    hide Estimate, CutPieces, Grouped;
    var ps := Paragraphs(content);
    var m := |CutParagraphs(ps, size)|;
    CutInFront(ps, size);
    if m == |ps| {
      g := Groups([], [], []);
      AllCut(ps, size, overlap);
      assert Trim("") == "";
    } else {
      var start, rest := FirstFit(ps, m, size, overlap), ps[m + 1..];
      FitsFirst(ps, m, size, overlap);
      g := GroupsOf(PARAGRAPHS, start, rest, size, overlap);
      ThenGrouped(start, ps[..m + 1], rest, size, overlap);
      assert ps == ps[..m + 1] + rest;
      GroupedShape(PARAGRAPHS, start, rest, size, overlap, g);
      FlushedIs(start, g, PutAll(PARAGRAPHS, start, rest, size, overlap), PARAGRAPHS);
    }
  }

  lemma FlushedIs(start: Buffer, g: Groups, b: Buffer, st: Style)
    requires Becomes(st, start, g, b)
    ensures |g.texts| == |g.counts| > 0
    ensures Flushed(b) == start.pieces + AsPieces(st, g, |g.texts| - 1) + LastPiece(g.texts[|g.texts| - 1])
  {
    hide Trim, Estimate;
    var last := g.texts[|g.texts| - 1];
    assert start.pieces + AsPieces(st, g, |g.texts| - 1) + [] == start.pieces + AsPieces(st, g, |g.texts| - 1);
  }

  // ---------------------------------------------------------------- sentences

  lemma {:induction false} SentencesThenGrouped(b: Buffer, front: seq<string>, rest: seq<string>, size: int, overlap: int)
    requires PutSentences(EMPTY, front, size, overlap) == b && b.text != "" && forall k :: 0 <= k < |rest| ==> rest[k] != ""
    ensures PutSentences(EMPTY, front + rest, size, overlap) == PutAll(SENTENCES, b, rest, size, overlap)
    ensures PutAll(SENTENCES, b, rest, size, overlap).text != ""
  {
    hide Put, PutSentence;
    if rest == [] {
      assert front + rest == front;
    } else {
      var all, less := front + rest, rest[..|rest| - 1];
      SentencesThenGrouped(b, front, less, size, overlap);
      PutsOn(PutAll(SENTENCES, b, less, size, overlap), rest[|rest| - 1], size, overlap);
      assert all[..|all| - 1] == front + less && all[|all| - 1] == rest[|rest| - 1];
    }
  }

  lemma {:induction false} SentencesNotEmpty(s: string)
    ensures forall k :: 0 <= k < |Sentences.Matches(s)| ==> Sentences.Matches(s)[k] != ""
    decreases |s|
  {
    if s == "" {
    } else if Sentences.IsMark(s[0]) {
      SentencesNotEmpty(s[1..]);
    } else {
      SentencesNotEmpty(s[Sentences.MatchLength(s)..]);
    }
  }

  /** The pieces of a paragraph that is cut: once something is in the buffer, after the first `f`
      sentences, the others form groups, each with as many sentences as fit; none of them is cut at
      words any more, however large it is. */
  lemma SentenceGroups(text: string, size: int, overlap: int, f: nat) returns (g: Groups)
    requires f <= |Sentences.Split(text)| && PutSentences(EMPTY, Sentences.Split(text)[..f], size, overlap).text != ""
    ensures
      var start, rest := PutSentences(EMPTY, Sentences.Split(text)[..f], size, overlap), Sentences.Split(text)[f..];
      && Grouped(SENTENCES, start, rest, size, overlap, g)
      && var last := |g.ends| - 1;
         SentencePieces(text, size, overlap) == start.pieces + AsPieces(SENTENCES, g, last) + LastPiece(g.texts[last])
  {
    hide Estimate, Grouped, PutSentences;
    var all := Sentences.Split(text);
    var start, rest := PutSentences(EMPTY, all[..f], size, overlap), all[f..];
    SentencesNotEmpty(text);
    assert all == all[..f] + rest;
    assert forall k :: 0 <= k < |rest| ==> rest[k] != "" by { NoneEmpty(text, f, size, overlap); }
    g := GroupsOf(SENTENCES, start, rest, size, overlap);
    SentencesThenGrouped(start, all[..f], rest, size, overlap);
    GroupedShape(SENTENCES, start, rest, size, overlap, g);
    FlushedIs(start, g, PutAll(SENTENCES, start, rest, size, overlap), SENTENCES);
  }

  lemma NoneEmpty(text: string, f: nat, size: int, overlap: int)
    requires f <= |Sentences.Split(text)| && PutSentences(EMPTY, Sentences.Split(text)[..f], size, overlap).text != ""
    ensures forall k :: f <= k < |Sentences.Split(text)| ==> Sentences.Split(text)[k] != ""
  {
    SentencesNotEmpty(text);
    assert f > 0;
  }

  // ---------------------------------------------------------------- words

  /** Group `j` has the words up to `ends[j]`, with blanks between them. */
  predicate WordGroup(start: string, words: seq<string>, size: int, ends: seq<nat>, texts: seq<string>, j: nat)
    requires Ordered(Groups(ends, texts, ends), |words|) && j < |ends|
  {
    && (if j == 0 then texts[0] == start + Glued(BLANKS, words[..ends[0]])
        else texts[j] == words[ends[j - 1]] + Glued(BLANKS, words[ends[j - 1] + 1..ends[j]]))
    && (ends[j] > (if j == 0 then 0 else ends[j - 1] + 1) ==> Estimate(texts[j]) <= size)
    && (j < |ends| - 1 ==> Estimate(texts[j] + " " + words[ends[j]]) > size)
  }

  const BLANKS: Style := Style(" ", " ", true)

  predicate WordGroups(start: string, words: seq<string>, size: int, ends: seq<nat>, texts: seq<string>) {
    && Ordered(Groups(ends, texts, ends), |words|)
    && forall j :: 0 <= j < |ends| ==> WordGroup(start, words, size, ends, texts, j)
  }

  function WordPieces(texts: seq<string>, n: nat): (pieces: seq<Piece>)
    requires n <= |texts|
    ensures |pieces| == n
  {
    seq(n, j requires 0 <= j < n => Piece(Trim(texts[j]), Estimate(texts[j])))
  }

  lemma LastWordGroup(start: string, words: seq<string>, word: string, size: int, ends: seq<nat>, texts: seq<string>)
    requires WordGroups(start, words, size, ends, texts) && Estimate(texts[|texts| - 1] + " " + word) <= size
    ensures
      var last := |texts| - 1;
      var ends', texts' := ends[last := |words| + 1], texts[last := texts[last] + " " + word];
      Ordered(Groups(ends', texts', ends'), |words| + 1) && WordGroup(start, words + [word], size, ends', texts', last)
  {
    hide Estimate, Glued;
    var last, all := |texts| - 1, words + [word];
    assert WordGroup(start, words, size, ends, texts, last);
    var i := if last == 0 then 0 else ends[last - 1] + 1;
    assert words[i..ends[last]] == words[i..] && all[i..|words| + 1] == words[i..] + [word];
    assert all[..|words| + 1] == all && words[0..] == words;
    GluedMore(BLANKS, words[i..], word);
    assert texts[last] + " " + word == texts[last] + (" " + word);
  }

  lemma OneWordMore(start: string, words: seq<string>, word: string, size: int, ends: seq<nat>, texts: seq<string>)
    requires WordGroups(start, words, size, ends, texts) && Estimate(texts[|texts| - 1] + " " + word) <= size
    ensures
      var last := |texts| - 1;
      WordGroups(start, words + [word], size, ends[last := |words| + 1], texts[last := texts[last] + " " + word])
  {
    hide Estimate, Glued;
    var last, all := |texts| - 1, words + [word];
    var ends', texts' := ends[last := |words| + 1], texts[last := texts[last] + " " + word];
    LastWordGroup(start, words, word, size, ends, texts);
    forall j | 0 <= j < last ensures WordGroup(start, all, size, ends', texts', j) {
      assert WordGroup(start, words, size, ends, texts, j);
      SameWords(words, word, ends, j);
    }
  }

  lemma SameWords(words: seq<string>, word: string, ends: seq<nat>, j: nat)
    requires j < |ends| && ends[j] <= |words| && (j > 0 ==> ends[j - 1] < ends[j])
    ensures (words + [word])[..ends[j]] == words[..ends[j]]
    ensures j > 0 ==> (words + [word])[ends[j - 1] + 1..ends[j]] == words[ends[j - 1] + 1..ends[j]]
  {
  }

  lemma NextWordGroup(start: string, words: seq<string>, word: string, size: int, ends: seq<nat>, texts: seq<string>)
    requires WordGroups(start, words, size, ends, texts) && Estimate(texts[|texts| - 1] + " " + word) > size
    ensures WordGroups(start, words + [word], size, ends + [|words| + 1], texts + [word])
  {
    hide Estimate;
    var last, all := |texts| - 1, words + [word];
    var ends', texts' := ends + [|words| + 1], texts + [word];
    assert Ordered(Groups(ends', texts', ends'), |all|);
    forall j | 0 <= j < |ends'| ensures WordGroup(start, all, size, ends', texts', j) {
      if j <= last {
        assert WordGroup(start, words, size, ends, texts, j);
        SameWords(words, word, ends, j);
      } else {
        assert all[|words|] == word && all[|words| + 1..ends'[j]] == [];
      }
    }
  }

  predicate WordsBecome(start: Buffer, texts: seq<string>, b: Buffer) {
    && |texts| > 0 && b.text == texts[|texts| - 1] && b.text != ""
    && b.pieces == start.pieces + WordPieces(texts, |texts| - 1)
  }

  lemma BecomesNext(start: Buffer, texts: seq<string>, b: Buffer, word: string, size: int)
    requires WordsBecome(start, texts, b) && word != ""
    ensures
      var b', last := PutWord(b, word, size), |texts| - 1;
      if Estimate(texts[last] + " " + word) > size then WordsBecome(start, texts + [word], b')
      else WordsBecome(start, texts[last := texts[last] + " " + word], b')
  {
    hide Estimate, Trim;
    var last := |texts| - 1;
    assert WordPieces(texts + [word], last + 1) == WordPieces(texts, last) + [Piece(Trim(texts[last]), Estimate(texts[last]))];
    assert WordPieces(texts[last := texts[last] + " " + word], last) == WordPieces(texts, last);
  }

  /** Words put into a buffer one after the other form groups, each with as many words as fit. */
  lemma {:induction false} WordGroupsOf(start: Buffer, words: seq<string>, size: int) returns (ends: seq<nat>, texts: seq<string>)
    requires start.text != "" && forall k :: 0 <= k < |words| ==> words[k] != ""
    ensures WordGroups(start.text, words, size, ends, texts) && WordsBecome(start, texts, PutWords(start, words, size))
  {
    hide Estimate, WordGroups, WordsBecome, PutWord;
    if words == [] {
      ends, texts := [0], [start.text];
      OneWordGroup(start, size);
    } else {
      var front, word := words[..|words| - 1], words[|words| - 1];
      ends, texts := WordGroupsOf(start, front, size);
      assert words == front + [word];
      assert |texts| == |ends| > 0 by { WordGroupsShape(start.text, front, size, ends, texts); }
      BecomesNext(start, texts, PutWords(start, front, size), word, size);
      var last := |texts| - 1;
      if Estimate(texts[last] + " " + word) > size {
        NextWordGroup(start.text, front, word, size, ends, texts);
        ends, texts := ends + [|front| + 1], texts + [word];
      } else {
        OneWordMore(start.text, front, word, size, ends, texts);
        ends, texts := ends[last := |front| + 1], texts[last := texts[last] + " " + word];
      }
    }
  }

  lemma WordGroupsShape(start: string, words: seq<string>, size: int, ends: seq<nat>, texts: seq<string>)
    requires WordGroups(start, words, size, ends, texts)
    ensures |texts| == |ends| > 0
  {
  }

  lemma OneWordGroup(start: Buffer, size: int)
    requires start.text != ""
    ensures WordGroups(start.text, [], size, [0], [start.text]) && WordsBecome(start, [start.text], start)
  {
  }
}

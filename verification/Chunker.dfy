// The section-aware chunker.  White space aside, no text is lost, repeated or reordered, except
// for what the overlaps repeat and what the cutting into sentences skips; which paragraphs are cut
// is told exactly.
module Chunker {
  import opened Wrappers
  import opened Text
  import opened Overlaps
  import opened Estimates
  import opened Packing
  import opened Headings
  import opened Cutting
  import opened Grouping
  import opened Merging
  import Sentences

  // ---------------------------------------------------------------- sentences

  predicate OneOf(s: string, parts: seq<string>) {
    exists i :: 0 <= i < |parts| && s == Squash(parts[i])
  }

  /** What the cutting into sentences does not take apart: a sentence, or a word of one. */
  ghost function SentenceParts(sentences: seq<string>): iset<string> {
    iset s | OneOf(s, sentences) || exists i :: 0 <= i < |sentences| && OneOf(s, Words(sentences[i]))
  }

  ghost function SentencePlan(text: string, chunkSize: int, overlapTokens: int): Plan {
    Plan(overlapTokens > 0, chunkSize, SentenceParts(Sentences.Split(text)))
  }

  ghost predicate Follows(plan: Plan, chunkSize: int, overlapTokens: int) {
    plan.size == chunkSize && (plan.overlap <==> overlapTokens > 0)
  }

  /** The pieces a paragraph too large for one chunk is cut into. */
  method SplitBySentences(text: string, chunkSize: int, overlapTokens: int)
    returns (results: seq<Piece>, ghost cuts: seq<Cut<char>>)
    ensures Shows(results, cuts) && Carries(cuts) && New(cuts) == All(Sentences.Split(text))
    ensures Counted(results) && Sized(results, cuts, SentencePlan(text, chunkSize, overlapTokens))
    ensures overlapTokens <= 0 ==> NothingRepeated(cuts)
    ensures results == SentencePieces(text, chunkSize, overlapTokens)
  {
    results, cuts := PackSentences(Sentences.Split(text), chunkSize, overlapTokens);
  }

  method PackSentences(sentences: seq<string>, chunkSize: int, overlapTokens: int)
    returns (results: seq<Piece>, ghost cuts: seq<Cut<char>>)
    ensures
      var plan := Plan(overlapTokens > 0, chunkSize, SentenceParts(sentences));
      Working(results, cuts, "", 0, 0, plan, All(sentences)) && New(cuts) == All(sentences)
    ensures results == Flushed(PutSentences(EMPTY, sentences, chunkSize, overlapTokens))
  {
    var buffer: string, bufferTokens: nat := "", 0;
    ghost var n: nat, plan := 0, Plan(overlapTokens > 0, chunkSize, SentenceParts(sentences));
    results, cuts := [], [];
    StartWorking(plan);
    for i := 0 to |sentences|
      invariant Working(results, cuts, buffer, n, bufferTokens, plan, All(sentences[..i]))
      invariant Buffer(results, buffer, bufferTokens) == PutSentences(EMPTY, sentences[..i], chunkSize, overlapTokens)
    {
      assert sentences[..i + 1][..i] == sentences[..i];
      NextPart(sentences, i);
      ArePart(sentences, i);
      results, cuts, buffer, bufferTokens, n := AddSentence(
        results, cuts, buffer, n, bufferTokens, All(sentences[..i]), sentences[i], chunkSize, overlapTokens, plan);
    }
    assert sentences[..|sentences|] == sentences;
    results, cuts := Finish(results, cuts, buffer, n, bufferTokens, plan, All(sentences));
    FinallyNew(results, cuts, 0, plan, All(sentences));
  }

  ghost predicate HasParts(sentence: string, plan: Plan) {
    Squash(sentence) in plan.parts && forall j :: 0 <= j < |Words(sentence)| ==> Squash(Words(sentence)[j]) in plan.parts
  }

  lemma ArePart(sentences: seq<string>, i: nat)
    requires i < |sentences|
    ensures Squash(sentences[i]) in SentenceParts(sentences)
    ensures forall j :: 0 <= j < |Words(sentences[i])| ==> Squash(Words(sentences[i])[j]) in SentenceParts(sentences)
  {
    assert OneOf(Squash(sentences[i]), sentences);
    forall j | 0 <= j < |Words(sentences[i])| ensures Squash(Words(sentences[i])[j]) in SentenceParts(sentences) {
      assert OneOf(Squash(Words(sentences[i])[j]), Words(sentences[i]));
    }
  }

  /** One sentence: into the buffer if it fits, otherwise the buffer is emitted first; a sentence
      too large on its own is cut at words. */
  method AddSentence(before: seq<Piece>, ghost cutsBefore: seq<Cut<char>>, earlier: string, ghost carried: nat,
                     tokens: nat, ghost done: string, sentence: string, chunkSize: int, overlapTokens: int,
                     ghost plan: Plan)
    returns (results: seq<Piece>, ghost cuts: seq<Cut<char>>, buffer: string, bufferTokens: nat, ghost n: nat)
    requires Working(before, cutsBefore, earlier, carried, tokens, plan, done)
    requires Follows(plan, chunkSize, overlapTokens) && HasParts(sentence, plan)
    ensures Working(results, cuts, buffer, n, bufferTokens, plan, done + Squash(sentence))
    ensures Buffer(results, buffer, bufferTokens) == PutSentence(Buffer(before, earlier, tokens), sentence, chunkSize, overlapTokens)
  {
    hide Working, Estimate, PutWords, TrailingText;
    if tokens + Estimate(sentence) <= chunkSize {
      AddPlain(before, cutsBefore, earlier, carried, tokens, plan, done, sentence);
      results, cuts, n := before, cutsBefore, carried;
      buffer := earlier + sentence;
      bufferTokens := tokens + Estimate(sentence);
    } else if earlier != "" {
      results, cuts, buffer, bufferTokens, n :=
        NextSentence(before, cutsBefore, earlier, carried, tokens, overlapTokens, done, sentence, plan);
    } else {
      NothingCarried(before, cutsBefore, carried, tokens, plan, done);
      results, cuts, buffer := SplitByWords(sentence, chunkSize, before, cutsBefore, plan, tokens, done);
      n := 0;
      bufferTokens := Estimate(buffer);
    }
  }

  /** The buffer is full: it becomes a piece, and the sentence starts the next one. */
  method NextSentence(before: seq<Piece>, ghost cutsBefore: seq<Cut<char>>, full: string, ghost carried: nat,
                      tokens: nat, overlapTokens: int, ghost done: string, sentence: string, ghost plan: Plan)
    returns (results: seq<Piece>, ghost cuts: seq<Cut<char>>, buffer: string, bufferTokens: nat, ghost n: nat)
    requires full != "" && Working(before, cutsBefore, full, carried, tokens, plan, done)
    requires (plan.overlap <==> overlapTokens > 0) && Squash(sentence) in plan.parts
    ensures Working(results, cuts, buffer, n, bufferTokens, plan, done + Squash(sentence))
    ensures results == before + [Piece(Trim(full), tokens)]
    ensures buffer == Lead(SENTENCES, full, overlapTokens) + sentence && bufferTokens == Estimate(buffer)
  {
    assert Estimate(full) <= tokens;
    hide Working, Estimate, TrailingText, Trim, Squash;
    Emit(before, cutsBefore, full, carried, tokens, plan, done, Piece(Trim(full), tokens));
    results, cuts := before + [Piece(Trim(full), tokens)], cutsBefore + [Cut(Squash(full), carried)];
    if overlapTokens > 0 {
      buffer := TrailingText(full, overlapTokens) + " " + sentence;
      bufferTokens := Estimate(buffer);
      n := |Squash(TrailingText(full, overlapTokens))|;
      Reuse(results, cuts, done, full, overlapTokens, plan, " ", sentence);
    } else {
      buffer := sentence;
      bufferTokens := Estimate(sentence);
      n := 0;
      AddFirst(results, cuts, 0, plan, done, sentence);
    }
  }

  /** What is left in the buffer is emitted unless it is blank. */
  method Finish(before: seq<Piece>, ghost cutsBefore: seq<Cut<char>>, buffer: string, ghost n: nat,
                ghost tokens: nat, ghost plan: Plan, ghost done: string)
    returns (results: seq<Piece>, ghost cuts: seq<Cut<char>>)
    requires Working(before, cutsBefore, buffer, n, tokens, plan, done)
    ensures Working(results, cuts, "", 0, 0, plan, done)
    ensures results == if Trim(buffer) != "" then before + [Piece(Trim(buffer), Estimate(buffer))] else before
  {
    if Trim(buffer) != "" {
      assert buffer != "";
      Emit(before, cutsBefore, buffer, n, tokens, plan, done, Piece(Trim(buffer), Estimate(buffer)));
      results, cuts := before + [Piece(Trim(buffer), Estimate(buffer))], cutsBefore + [Cut(Squash(buffer), n)];
    } else {
      NoBlankLost(before, cutsBefore, buffer, n, tokens, plan, done);
      results, cuts := before, cutsBefore;
    }
  }

  /** A sentence too large for one piece is cut at words; the last words stay in the buffer. */
  method SplitByWords(sentence: string, chunkSize: int, before: seq<Piece>, ghost cutsBefore: seq<Cut<char>>,
                      ghost plan: Plan, ghost tokens: nat, ghost done: string)
    returns (results: seq<Piece>, ghost cuts: seq<Cut<char>>, wordBuf: string)
    requires Working(before, cutsBefore, "", 0, tokens, plan, done) && plan.size == chunkSize && HasParts(sentence, plan)
    ensures Working(results, cuts, wordBuf, 0, Estimate(wordBuf), plan, done + Squash(sentence))
    ensures Buffer(results, wordBuf, Estimate(wordBuf)) == PutWords(Buffer(before, "", 0), Words(sentence), chunkSize)
  {
    SquashWords(sentence);
    results, cuts, wordBuf := PackWords(Words(sentence), chunkSize, before, cutsBefore, plan, tokens, done);
  }

  method PackWords(words: seq<string>, chunkSize: int, before: seq<Piece>, ghost cutsBefore: seq<Cut<char>>,
                   ghost plan: Plan, ghost tokens: nat, ghost done: string)
    returns (results: seq<Piece>, ghost cuts: seq<Cut<char>>, wordBuf: string)
    requires Working(before, cutsBefore, "", 0, tokens, plan, done) && plan.size == chunkSize
    requires words != [] && forall j :: 0 <= j < |words| ==> Squash(words[j]) in plan.parts
    ensures Working(results, cuts, wordBuf, 0, Estimate(wordBuf), plan, done + All(words))
    ensures Buffer(results, wordBuf, Estimate(wordBuf)) == PutWords(Buffer(before, "", 0), words, chunkSize)
  {
    hide Working, Estimate, PutWord, Squash, Concat;
    wordBuf := "";
    results, cuts := before, cutsBefore;
    assert All(words[..0]) == "" && done + "" == done by { NoWords(words); }
    Restarted(before, cutsBefore, plan, tokens, done);
    for j := 0 to |words|
      invariant Working(results, cuts, wordBuf, 0, Estimate(wordBuf), plan, done + All(words[..j]))
      invariant Buffer(results, wordBuf, if j == 0 then 0 else Estimate(wordBuf)) == PutWords(Buffer(before, "", 0), words[..j], chunkSize)
    {
      assert words[..j + 1][..j] == words[..j];
      NextPart(words, j);
      Text.Associative(done, All(words[..j]), Squash(words[j]));
      results, cuts, wordBuf := AddWord(results, cuts, wordBuf, plan, done + All(words[..j]), words[j], chunkSize);
    }
    assert words[..|words|] == words;
  }

  lemma NoWords(words: seq<string>)
    ensures All(words[..0]) == ""
  {
  }

  lemma Restarted(pieces: seq<Piece>, cuts: seq<Cut<char>>, plan: Plan, tokens: nat, done: string)
    requires Working(pieces, cuts, "", 0, tokens, plan, done)
    ensures Working(pieces, cuts, "", 0, Estimate(""), plan, done)
  {
  }

  method AddWord(before: seq<Piece>, ghost cutsBefore: seq<Cut<char>>, earlier: string, ghost plan: Plan,
                 ghost done: string, word: string, chunkSize: int)
    returns (results: seq<Piece>, ghost cuts: seq<Cut<char>>, wordBuf: string)
    requires Working(before, cutsBefore, earlier, 0, Estimate(earlier), plan, done)
    requires plan.size == chunkSize && Squash(word) in plan.parts
    ensures Working(results, cuts, wordBuf, 0, Estimate(wordBuf), plan, done + Squash(word))
    ensures forall n: nat :: Buffer(results, wordBuf, Estimate(wordBuf)) == PutWord(Buffer(before, earlier, n), word, chunkSize)
  {
    var test := if earlier != "" then earlier + " " + word else word;
    if Estimate(test) > chunkSize && earlier != "" {
      Emit(before, cutsBefore, earlier, 0, Estimate(earlier), plan, done, Piece(Trim(earlier), Estimate(earlier)));
      results, cuts := before + [Piece(Trim(earlier), Estimate(earlier))], cutsBefore + [Cut(Squash(earlier), 0)];
      AddFirst(results, cuts, 0, plan, done, word);
      wordBuf := word;
    } else {
      results, cuts := before, cutsBefore;
      AddWordFits(before, cutsBefore, earlier, plan, done, word);
      wordBuf := test;
    }
  }

  lemma AddWordFits(pieces: seq<Piece>, cuts: seq<Cut<char>>, earlier: string, plan: Plan, done: string, word: string)
    requires Working(pieces, cuts, earlier, 0, Estimate(earlier), plan, done) && Squash(word) in plan.parts
    requires earlier != "" ==> Estimate(earlier + " " + word) <= plan.size
    ensures
      var test := if earlier != "" then earlier + " " + word else word;
      Working(pieces, cuts, test, 0, Estimate(test), plan, done + Squash(word))
  {
    if earlier != "" {
      AddAs(pieces, cuts, earlier, 0, Estimate(earlier), plan, done, " ", word, Estimate(earlier + " " + word));
    } else {
      AddFirst(pieces, cuts, Estimate(earlier), plan, done, word);
    }
  }

  // ---------------------------------------------------------------- paragraphs

  /** What the cutting of a section does not take apart: its paragraphs, their sentences and words. */
  ghost function SectionParts(paragraphs: seq<string>): iset<string> {
    iset s | OneOf(s, paragraphs)
          || exists i :: 0 <= i < |paragraphs| && s in SentenceParts(Sentences.Split(paragraphs[i]))
  }

  ghost function SectionPlan(paragraphs: seq<string>, c: Config): Plan {
    Plan(OverlapTokens(c) > 0, c.targetSize, SectionParts(paragraphs))
  }

  /** The pieces of a section too large for one chunk hold all its paragraphs, of those that are
      cut the sentences. */
  method SplitSection(content: string, c: Config)
    returns (results: seq<Piece>, ghost cuts: seq<Cut<char>>)
    requires content != "" && !IsSpace(content[0]) && !IsSpace(content[|content| - 1])
    ensures Counted(results)
    ensures Working(results, cuts, "", 0, 0, SectionPlan(Paragraphs(content), c), New(cuts))
    ensures New(cuts) == KeptParagraphs(Paragraphs(content), c.targetSize)
    ensures New(cuts) == Squash(content) <==> AllCovered(CutParagraphs(Paragraphs(content), c.targetSize))
    ensures results == SectionPieces(content, c.targetSize, OverlapTokens(c))
  {
    SquashParagraphs(content);
    NoEmptyParagraph(content);
    WholeParagraphs(Paragraphs(content), c.targetSize);
    results, cuts := PackParagraphs(Paragraphs(content), c);
  }

  method PackParagraphs(paragraphs: seq<string>, c: Config)
    returns (results: seq<Piece>, ghost cuts: seq<Cut<char>>)
    requires forall k :: 0 <= k < |paragraphs| ==> paragraphs[k] != ""
    ensures Working(results, cuts, "", 0, 0, SectionPlan(paragraphs, c), New(cuts))
    ensures New(cuts) == KeptParagraphs(paragraphs, c.targetSize)
    ensures results == Flushed(PutParagraphs(EMPTY, paragraphs, c.targetSize, OverlapTokens(c)))
  {
    var buffer: string, bufferTokens: nat;
    ghost var n: nat, plan := 0, SectionPlan(paragraphs, c);
    PlanHas(paragraphs, c);
    results, cuts, buffer, bufferTokens, n := FillBuffers(paragraphs, c, plan);
    results, cuts := Finish(results, cuts, buffer, n, bufferTokens, plan, KeptParagraphs(paragraphs, c.targetSize));
    FinallyNew(results, cuts, 0, plan, KeptParagraphs(paragraphs, c.targetSize));
  }

  /** The loop over the paragraphs; the last ones stay in the buffer. */
  method FillBuffers(paragraphs: seq<string>, c: Config, ghost plan: Plan)
    returns (results: seq<Piece>, ghost cuts: seq<Cut<char>>, buffer: string, bufferTokens: nat, ghost n: nat)
    requires forall k :: 0 <= k < |paragraphs| ==> paragraphs[k] != "" && PlanFor(paragraphs[k], plan, c)
    ensures Working(results, cuts, buffer, n, bufferTokens, plan, KeptParagraphs(paragraphs, c.targetSize))
    ensures Buffer(results, buffer, bufferTokens) == PutParagraphs(EMPTY, paragraphs, c.targetSize, OverlapTokens(c))
  {
    ghost var done, large := "", true;
    results, cuts, buffer, bufferTokens, n := [], [], "", 0, 0;
    StartWorking(plan);
    for i := 0 to |paragraphs|
      invariant Working(results, cuts, buffer, n, bufferTokens, plan, done)
      invariant KeptUpTo(paragraphs, i, c.targetSize, done, large)
      invariant (large <==> buffer == "") && (buffer == "" ==> bufferTokens == 0)
      invariant Buffer(results, buffer, bufferTokens) == PutParagraphs(EMPTY, paragraphs[..i], c.targetSize, OverlapTokens(c))
    {
      assert paragraphs[..i + 1][..i] == paragraphs[..i];
      results, cuts, buffer, bufferTokens, n, done, large :=
        NextBuffer(results, cuts, buffer, n, bufferTokens, done, large, paragraphs, i, c, plan);
    }
    assert paragraphs[..|paragraphs|] == paragraphs;
  }

  /** One paragraph more. */
  method NextBuffer(before: seq<Piece>, ghost cutsBefore: seq<Cut<char>>, earlier: string, ghost carried: nat,
                    tokens: nat, ghost doneBefore: string, ghost allLarge: bool, paragraphs: seq<string>, i: nat,
                    c: Config, ghost plan: Plan)
    returns (results: seq<Piece>, ghost cuts: seq<Cut<char>>, buffer: string, bufferTokens: nat, ghost n: nat,
             ghost done: string, ghost large: bool)
    requires i < |paragraphs| && paragraphs[i] != "" && PlanFor(paragraphs[i], plan, c)
    requires Working(before, cutsBefore, earlier, carried, tokens, plan, doneBefore)
    requires KeptUpTo(paragraphs, i, c.targetSize, doneBefore, allLarge)
    requires (allLarge <==> earlier == "") && (earlier == "" ==> tokens == 0)
    ensures Working(results, cuts, buffer, n, bufferTokens, plan, done)
    ensures KeptUpTo(paragraphs, i + 1, c.targetSize, done, large)
    ensures (large <==> buffer == "") && (buffer == "" ==> bufferTokens == 0)
    ensures Buffer(results, buffer, bufferTokens)
         == PutParagraph(Buffer(before, earlier, tokens), paragraphs[i], c.targetSize, OverlapTokens(c))
  {
    NextKept(paragraphs, i, c.targetSize, doneBefore, allLarge);
    results, cuts, buffer, bufferTokens, n, done, large :=
      AddParagraph(before, cutsBefore, earlier, carried, tokens, doneBefore, allLarge, paragraphs[i], c, plan);
  }

  lemma PlanHas(paragraphs: seq<string>, c: Config)
    ensures forall k :: 0 <= k < |paragraphs| ==> PlanFor(paragraphs[k], SectionPlan(paragraphs, c), c)
  {
    forall k | 0 <= k < |paragraphs| ensures PlanFor(paragraphs[k], SectionPlan(paragraphs, c), c) {
      assert OneOf(Squash(paragraphs[k]), paragraphs);
    }
  }

  ghost predicate PlanFor(para: string, plan: Plan, c: Config) {
    && Follows(plan, c.targetSize, OverlapTokens(c))
    && Squash(para) in plan.parts && SentenceParts(Sentences.Split(para)) <= plan.parts
  }

  /** One paragraph: cut if it is too large and nothing is before it in the buffer. */
  method AddParagraph(before: seq<Piece>, ghost cutsBefore: seq<Cut<char>>, earlier: string, ghost carried: nat,
                      tokens: nat, ghost doneBefore: string, ghost large: bool, para: string, c: Config, ghost plan: Plan)
    returns (results: seq<Piece>, ghost cuts: seq<Cut<char>>, buffer: string, bufferTokens: nat, ghost n: nat,
             ghost done: string, ghost cut: bool)
    requires Working(before, cutsBefore, earlier, carried, tokens, plan, doneBefore) && PlanFor(para, plan, c)
    requires para != "" && (large <==> earlier == "") && (earlier == "" ==> tokens == 0)
    ensures Working(results, cuts, buffer, n, bufferTokens, plan, done)
    ensures cut == (large && Estimate(para) > c.targetSize) && done == doneBefore + Kept(para, cut)
    ensures (cut <==> buffer == "") && (buffer == "" ==> bufferTokens == 0)
    ensures Buffer(results, buffer, bufferTokens) == PutParagraph(Buffer(before, earlier, tokens), para, c.targetSize, OverlapTokens(c))
  {
    cut := large && Estimate(para) > c.targetSize;
    if tokens + Estimate(para) <= c.targetSize {
      results, cuts, n, done := before, cutsBefore, carried, doneBefore + Squash(para);
      buffer, bufferTokens := AppendParagraph(before, cutsBefore, earlier, carried, tokens, plan, doneBefore, para);
    } else if earlier != "" {
      done := doneBefore + Squash(para);
      results, cuts, buffer, bufferTokens, n :=
        NextParagraph(before, cutsBefore, earlier, carried, tokens, OverlapTokens(c), doneBefore, para, plan);
    } else {
      done := doneBefore + All(Sentences.Split(para));
      results, cuts := CutParagraph(before, cutsBefore, doneBefore, para, c, plan);
      buffer, bufferTokens, n := "", 0, 0;
    }
  }

  method AppendParagraph(ghost pieces: seq<Piece>, ghost cuts: seq<Cut<char>>, earlier: string, ghost carried: nat,
                         tokens: nat, ghost plan: Plan, ghost done: string, para: string)
    returns (buffer: string, bufferTokens: nat)
    requires Working(pieces, cuts, earlier, carried, tokens, plan, done) && tokens + Estimate(para) <= plan.size
    ensures Working(pieces, cuts, buffer, carried, bufferTokens, plan, done + Squash(para))
    ensures buffer != "" || para == ""
    ensures buffer == earlier + (if earlier != "" then "\n\n" else "") + para && bufferTokens == tokens + Estimate(para)
  {
    Add(pieces, cuts, earlier, carried, tokens, plan, done, "\n\n", para);
    buffer := earlier + (if earlier != "" then "\n\n" else "") + para;
    bufferTokens := tokens + Estimate(para);
  }

  /** The buffer is full: it becomes a piece as it is, and the paragraph starts the next one. */
  method NextParagraph(before: seq<Piece>, ghost cutsBefore: seq<Cut<char>>, full: string, ghost carried: nat,
                       tokens: nat, overlapTokens: int, ghost done: string, para: string, ghost plan: Plan)
    returns (results: seq<Piece>, ghost cuts: seq<Cut<char>>, buffer: string, bufferTokens: nat, ghost n: nat)
    requires full != "" && Working(before, cutsBefore, full, carried, tokens, plan, done)
    requires (plan.overlap <==> overlapTokens > 0) && Squash(para) in plan.parts
    ensures Working(results, cuts, buffer, n, bufferTokens, plan, done + Squash(para))
    ensures buffer != "" || para == ""
    ensures results == before + [Piece(full, tokens)]
    ensures buffer == Lead(PARAGRAPHS, full, overlapTokens) + para && bufferTokens == Estimate(buffer)
  {
    assert Estimate(full) <= tokens;
    hide Working, Estimate, TrailingText, Squash;
    Emit(before, cutsBefore, full, carried, tokens, plan, done, Piece(full, tokens));
    results, cuts := before + [Piece(full, tokens)], cutsBefore + [Cut(Squash(full), carried)];
    if overlapTokens > 0 {
      buffer := TrailingText(full, overlapTokens) + "\n\n" + para;
      bufferTokens := Estimate(buffer);
      n := |Squash(TrailingText(full, overlapTokens))|;
      Reuse(results, cuts, done, full, overlapTokens, plan, "\n\n", para);
      assert |buffer| >= |para|;
    } else {
      buffer := para;
      bufferTokens := Estimate(para);
      n := 0;
      AddFirst(results, cuts, 0, plan, done, para);
    }
  }

  /** A paragraph too large for one piece, with nothing before it in the buffer. */
  method CutParagraph(before: seq<Piece>, ghost cutsBefore: seq<Cut<char>>, ghost done: string, para: string, c: Config,
                      ghost plan: Plan)
    returns (results: seq<Piece>, ghost cuts: seq<Cut<char>>)
    requires Working(before, cutsBefore, "", 0, 0, plan, done) && PlanFor(para, plan, c)
    ensures Working(results, cuts, "", 0, 0, plan, done + All(Sentences.Split(para)))
    ensures results == before + SentencePieces(para, c.targetSize, OverlapTokens(c))
  {
    var more: seq<Piece>;
    ghost var moreCuts;
    more, moreCuts := SplitBySentences(para, c.targetSize, OverlapTokens(c));
    Widen(more, moreCuts, SentencePlan(para, c.targetSize, OverlapTokens(c)), plan);
    AddPieces(before, cutsBefore, 0, plan, done, more, moreCuts);
    results, cuts := before + more, cutsBefore + moreCuts;
  }

  // ---------------------------------------------------------------- documents

  predicate SamePieces(chunks: seq<Chunk>, pieces: seq<Piece>) {
    |chunks| == |pieces| && forall k :: 0 <= k < |chunks| ==> chunks[k].piece == pieces[k]
  }

  /** The chunks carry these pieces, and chunk `k` the index `k`. */
  predicate Carry(chunks: seq<Chunk>, pieces: seq<Piece>) {
    SamePieces(chunks, pieces) && forall k :: 0 <= k < |chunks| ==> chunks[k].meta.index == k
  }

  /** Headings start with no white space. */
  ghost predicate PlainHeadings(r: Rule) {
    forall line :: NoLeadingSpace(r.textOf(line))
  }

  predicate NoLeadingSpace(s: string) {
    s == "" || !IsSpace(s[0])
  }

  lemma TextPlain(line: string)
    ensures NoLeadingSpace(TrimmedText(line))
  {
    var trimmed := Trim(line);
    TrimEnds(line);
    if HashRun(trimmed) > 0 {
      TrimStartPlain(trimmed[HashRun(trimmed)..]);
    }
  }

  lemma TextsPlain()
    ensures forall line :: NoLeadingSpace(TrimmedText(line))
  {
    forall line ensures NoLeadingSpace(TrimmedText(line)) {
      TextPlain(line);
    }
  }

  lemma HeadingRulePlain(upper: Case)
    ensures PlainHeadings(HeadingRule(upper))
  {
    TextsPlain();
    assert HeadingRule(upper).textOf == TrimmedText;
  }

  predicate PlainSection(s: Section) {
    Truthy(s.heading) ==> !IsSpace(s.heading.value[0])
  }

  lemma {:induction false} SectionsPlain(r: Rule, lines: seq<string>, heading: Option<string>, current: seq<string>)
    requires PlainHeadings(r) && (Truthy(heading) ==> !IsSpace(heading.value[0]))
    ensures forall s :: s in SectionsFrom(r, lines, heading, current) ==> PlainSection(s)
  {
    if lines != [] {
      if r.isHeading(lines[0]) {
        SectionsPlain(r, lines[1..], Some(r.textOf(lines[0])), []);
      } else {
        SectionsPlain(r, lines[1..], heading, current + [lines[0]]);
      }
    }
  }

  lemma AllPlain(r: Rule, text: string)
    requires PlainHeadings(r)
    ensures forall s :: s in Sections(r, text) ==> PlainSection(s)
  {
    SectionsPlain(r, Lines(text), None, []);
  }

  lemma ContentPlain(s: Section)
    requires PlainSection(s) && !Blank(s)
    ensures
      var content := Content(s);
      content != "" && !IsSpace(content[0]) && !IsSpace(content[|content| - 1])
  {
    TrimEnds(s.text);
  }

  /** The paragraphs of a section that are cut into sentences; none unless the section is too large. */
  function SectionCuts(s: Section, c: Config): seq<string> {
    if TooLarge(s, c) then CutParagraphs(Paragraphs(Content(s)), c.targetSize) else []
  }

  function AllCuts(sections: seq<Section>, c: Config): seq<string> {
    if sections == [] then []
    else AllCuts(sections[..|sections| - 1], c) + SectionCuts(sections[|sections| - 1], c)
  }

  /** What the chunks hold: all sections that are not blank, of the paragraphs cut their sentences. */
  function AllKept(sections: seq<Section>, c: Config): string {
    if sections == [] then ""
    else AllKept(sections[..|sections| - 1], c) + SectionKept(sections[|sections| - 1], c)
  }

  lemma WholeSection(s: Section, c: Config)
    ensures Whole(SectionKept(s, c), if Blank(s) then "" else Squash(Content(s)), SectionCuts(s, c))
  {
    if TooLarge(s, c) {
      WholeParagraphs(Paragraphs(Content(s)), c.targetSize);
      SquashParagraphs(Content(s));
    }
  }

  /** Everything is kept exactly if the paragraphs that are cut are covered by their sentences. */
  lemma {:induction false} WholeDocument(sections: seq<Section>, c: Config)
    ensures Whole(AllKept(sections, c), AllContents(sections), AllCuts(sections, c))
  {
    if sections != [] {
      var front, last := sections[..|sections| - 1], sections[|sections| - 1];
      WholeDocument(front, c);
      WholeSection(last, c);
      WholeBoth(AllKept(front, c), AllContents(front), AllCuts(front, c),
                SectionKept(last, c), if Blank(last) then "" else Squash(Content(last)), SectionCuts(last, c));
    }
  }

  /** All paragraphs of the sections that are not blank are covered by their sentences. */
  ghost predicate Punctuated(sections: seq<Section>) {
    forall i :: 0 <= i < |sections| && !Blank(sections[i]) ==> AllCovered(Paragraphs(Content(sections[i])))
  }

  lemma {:induction false} PunctuatedCuts(sections: seq<Section>, c: Config)
    requires Punctuated(sections)
    ensures AllCovered(AllCuts(sections, c))
  {
    if sections != [] {
      var last := |sections| - 1;
      PunctuatedCuts(sections[..last], c);
      if TooLarge(sections[last], c) {
        CoveredFront(Paragraphs(Content(sections[last])), c.targetSize);
      }
      CoveredBoth(AllCuts(sections[..last], c), SectionCuts(sections[last], c));
    }
  }

  function Max(a: int, b: int): int {
    if a >= b then a else b
  }

  ghost function DocumentParts(sections: seq<Section>): iset<string> {
    iset s | PartOfOne(s, sections)
  }

  ghost predicate PartOfOne(s: string, sections: seq<Section>) {
    exists i :: 0 <= i < |sections| && s in SectionParts(Paragraphs(Content(sections[i])))
  }

  /** A chunk of the document is no larger than both sizes unless it is a single part of a section. */
  ghost function DocumentPlan(sections: seq<Section>, c: Config): Plan {
    Plan(OverlapTokens(c) > 0, Max(c.targetSize, c.maxSize), DocumentParts(sections))
  }

  ghost predicate PlanIncludes(plan: Plan, s: Section, c: Config) {
    && (plan.overlap <==> OverlapTokens(c) > 0)
    && plan.size >= c.targetSize && plan.size >= c.maxSize
    && SectionParts(Paragraphs(Content(s))) <= plan.parts
  }

  /** Adding pieces as chunks, numbered on from those there are. */
  method PushAll(before: seq<Chunk>, ghost pieces: seq<Piece>, more: seq<Piece>, source: string, heading: Option<string>)
    returns (chunks: seq<Chunk>)
    requires Carry(before, pieces)
    ensures chunks == Pushed(before, more, source, heading)
    ensures Carry(chunks, pieces + more)
  {
    chunks := before;
    for k := 0 to |more|
      invariant Carry(chunks, pieces + more[..k])
      invariant chunks == Pushed(before, more[..k], source, heading)
    {
      chunks := chunks + [Chunk(more[k], Meta(source, heading, |chunks|, None))];
      assert pieces + more[..k + 1] == (pieces + more[..k]) + [more[k]];
    }
    assert more[..|more|] == more;
  }

  /** A whole section as one chunk. */
  method PushOne(before: seq<Chunk>, ghost pieces: seq<Piece>, ghost cuts: seq<Cut<char>>, ghost done: string,
                 ghost plan: Plan, section: Section, source: string)
    returns (chunks: seq<Chunk>, ghost pieces': seq<Piece>, ghost cuts': seq<Cut<char>>)
    requires Carry(before, pieces) && Working(pieces, cuts, "", 0, 0, plan, done)
    requires Content(section) != "" && Estimate(Content(section)) <= plan.size
    ensures chunks == Pushed(before, [AsPiece(section)], source, section.heading)
    ensures Carry(chunks, pieces') && Working(pieces', cuts', "", 0, 0, plan, done + Squash(Content(section)))
  {
    hide Working, Estimate, Squash, Content;
    var content := Content(section);
    var piece := Piece(content, Estimate(content));
    AddFirst(pieces, cuts, 0, plan, done, content);
    Emit(pieces, cuts, content, 0, Estimate(content), plan, done + Squash(content), piece);
    pieces', cuts' := pieces + [piece], cuts + [Cut(Squash(content), 0)];
    chunks := before + [Chunk(piece, Meta(source, section.heading, |before|, None))];
  }

  /** A tiny section joins the chunk before it. */
  method MergeLast(before: seq<Chunk>, ghost pieces: seq<Piece>, ghost cuts: seq<Cut<char>>, ghost done: string,
                   ghost plan: Plan, section: Section)
    returns (chunks: seq<Chunk>, ghost pieces': seq<Piece>, ghost cuts': seq<Cut<char>>)
    requires before != [] && Carry(before, pieces) && Working(pieces, cuts, "", 0, 0, plan, done)
    requires Merged(before[|before| - 1], section).tokens <= plan.size
    ensures chunks == ReplaceLast(before, Merged(before[|before| - 1], section))
    ensures Carry(chunks, pieces') && Working(pieces', cuts', "", 0, 0, plan, done + Squash(Content(section)))
  {
    var last, content := |before| - 1, Content(section);
    var merged := before[last].piece.text + "\n\n" + content;
    GrowLast(pieces, cuts, done, plan, "\n\n", content);
    pieces' := pieces[..last] + [Piece(merged, Estimate(merged))];
    cuts' := cuts[..last] + [Cut(cuts[last].piece + Squash(content), cuts[last].carried)];
    chunks := ReplaceLast(before, Piece(merged, Estimate(merged)));
    LastCarried(before, pieces, Piece(merged, Estimate(merged)));
  }

  lemma LastCarried(chunks: seq<Chunk>, pieces: seq<Piece>, p: Piece)
    requires chunks != [] && Carry(chunks, pieces)
    ensures Carry(ReplaceLast(chunks, p), pieces[..|pieces| - 1] + [p])
  {
  }

  /** One section's turn in a document of `count` sections. */
  method AddSection(before: seq<Chunk>, ghost pieces: seq<Piece>, ghost cuts: seq<Cut<char>>, ghost done: string,
                    section: Section, count: nat, source: string, c: Config, ghost plan: Plan)
    returns (chunks: seq<Chunk>, ghost pieces': seq<Piece>, ghost cuts': seq<Cut<char>>)
    requires Carry(before, pieces) && Working(pieces, cuts, "", 0, 0, plan, done)
    requires PlainSection(section) && !Blank(section) && PlanIncludes(plan, section, c) && count > 0
    ensures Turn(before, section, count, source, c, chunks)
    ensures Carry(chunks, pieces') && Working(pieces', cuts', "", 0, 0, plan, done + SectionKept(section, c))
  {
    hide Working, Carry;
    var content := Content(section);
    var tokens := Estimate(content);
    ContentPlain(section);
    if tokens > c.maxSize {
      chunks, pieces', cuts' := AddLarge(before, pieces, cuts, done, section, source, c, plan);
    } else if tokens < c.minSize && count != 1 && |before| > 0
      && Estimate(before[|before| - 1].piece.text + "\n\n" + content) <= c.maxSize
    {
      chunks, pieces', cuts' := MergeLast(before, pieces, cuts, done, plan, section);
    } else {
      chunks, pieces', cuts' := PushOne(before, pieces, cuts, done, plan, section, source);
    }
  }

  /** The pieces of a section that is too large. */
  method AddLarge(before: seq<Chunk>, ghost pieces: seq<Piece>, ghost cuts: seq<Cut<char>>, ghost done: string,
                  section: Section, source: string, c: Config, ghost plan: Plan)
    returns (chunks: seq<Chunk>, ghost pieces': seq<Piece>, ghost cuts': seq<Cut<char>>)
    requires Carry(before, pieces) && Working(pieces, cuts, "", 0, 0, plan, done)
    requires PlainSection(section) && TooLarge(section, c) && PlanIncludes(plan, section, c)
    ensures exists more :: SplitTurn(before, section, source, c, chunks, more)
    ensures Carry(chunks, pieces') && Working(pieces', cuts', "", 0, 0, plan, done + SectionKept(section, c))
  {
    var more: seq<Piece>;
    ghost var moreCuts;
    ContentPlain(section);
    more, moreCuts := SplitSection(Content(section), c);
    Widen(more, moreCuts, SectionPlan(Paragraphs(Content(section)), c), plan);
    AddPieces(pieces, cuts, 0, plan, done, more, moreCuts);
    chunks := PushAll(before, pieces, more, source, section.heading);
    pieces', cuts' := pieces + more, cuts + moreCuts;
    assert SplitAs(more, moreCuts, section, c);
    assert SplitTurn(before, section, source, c, chunks, more);
  }

  function TextsOf(chunks: seq<Chunk>): seq<string> {
    if chunks == [] then [] else TextsOf(chunks[..|chunks| - 1]) + [chunks[|chunks| - 1].piece.text]
  }

  lemma {:induction false} SameTexts(chunks: seq<Chunk>, pieces: seq<Piece>)
    requires SamePieces(chunks, pieces)
    ensures TextsOf(chunks) == Texts(pieces)
  {
    if chunks != [] {
      SameTexts(chunks[..|chunks| - 1], pieces[..|pieces| - 1]);
    }
  }

  /** Chunk `k` has index `k`, the source's name and the heading of the first section it holds, and
      is not counted smaller than it is estimated to be.  The chunks hold, in order and once, all
      headings and bodies of the sections that are not blank, exactly if the paragraphs that are
      cut are covered by their sentences; without overlaps the joined chunks are just that.
      `turns` are the chunks there are at each section's turn, `holds` the sections in each chunk. */
  method ChunkDocument(text: string, source: string, c: Config)
    returns (chunks: seq<Chunk>, ghost pieces: seq<Piece>, ghost cuts: seq<Cut<char>>,
             ghost turns: seq<seq<Chunk>>, ghost holds: seq<seq<nat>>)
    requires PlainHeadings(c.rule)
    ensures forall k :: 0 <= k < |chunks| ==> chunks[k].meta.index == k
    ensures forall k :: 0 <= k < |chunks| ==> Estimate(chunks[k].piece.text) <= chunks[k].piece.tokens
    ensures SamePieces(chunks, pieces) && Shows(pieces, cuts) && Carries(cuts) && Counted(pieces)
    ensures Sized(pieces, cuts, DocumentPlan(Sections(c.rule, text), c))
    ensures
      var sections := Sections(c.rule, text);
      && Trace(sections, source, c, turns) && turns[|sections|] == chunks
      && holds == SectionsIn(sections, turns, |sections|, c)
      && Held(chunks, holds, sections, |sections|, source, c) && AllHeld(holds, sections, |sections|, c)
      && (OneEach(holds) <==> NoneJoins(sections, turns, |sections|, c))
    ensures New(cuts) == AllKept(Sections(c.rule, text), c)
    ensures New(cuts) == AllContents(Sections(c.rule, text)) <==> AllCovered(AllCuts(Sections(c.rule, text), c))
    ensures OverlapTokens(c) <= 0 ==> NothingRepeated(cuts) && All(TextsOf(chunks)) == AllKept(Sections(c.rule, text), c)
    ensures OverlapTokens(c) <= 0 && Punctuated(Sections(c.rule, text)) ==>
      All(TextsOf(chunks)) == AllContents(Sections(c.rule, text))
    ensures OverlapTokens(c) <= 0 && Punctuated(Sections(c.rule, text)) && NoEmptyHeading(c.rule) ==>
      All(TextsOf(chunks)) == LinesKept(c.rule, Lines(text))
  {
    hide *;
    var sections := SplitIntoSections(c.rule, text);
    AllPlain(c.rule, text);
    chunks, pieces, cuts, turns := ChunkSections(sections, source, c);
    holds := SectionsIn(sections, turns, |sections|, c);
    HeldSoFar(sections, source, c, turns, |sections|);
    OneEachIff(sections, source, c, turns);
    Finished(chunks, pieces, cuts, sections, c);
    EverythingKept(text, c);
    JoinedChunks(chunks, pieces, cuts);
  }

  /** What the loop's state means when nothing is left in it. */
  lemma Finished(chunks: seq<Chunk>, pieces: seq<Piece>, cuts: seq<Cut<char>>, sections: seq<Section>, c: Config)
    requires Carry(chunks, pieces) && Working(pieces, cuts, "", 0, 0, DocumentPlan(sections, c), New(cuts))
    ensures forall k :: 0 <= k < |chunks| ==> chunks[k].meta.index == k
    ensures forall k :: 0 <= k < |chunks| ==> Estimate(chunks[k].piece.text) <= chunks[k].piece.tokens
    ensures SamePieces(chunks, pieces) && Shows(pieces, cuts) && Carries(cuts) && Counted(pieces)
    ensures Sized(pieces, cuts, DocumentPlan(sections, c))
    ensures OverlapTokens(c) <= 0 ==> NothingRepeated(cuts)
  {
    hide Sized;
  }

  /** When the chunks hold everything. */
  lemma EverythingKept(text: string, c: Config)
    ensures
      var sections := Sections(c.rule, text);
      && (AllKept(sections, c) == AllContents(sections) <==> AllCovered(AllCuts(sections, c)))
      && (Punctuated(sections) ==> AllKept(sections, c) == AllContents(sections))
      && (NoEmptyHeading(c.rule) ==> AllContents(sections) == LinesKept(c.rule, Lines(text)))
  {
    var sections := Sections(c.rule, text);
    WholeDocument(sections, c);
    if Punctuated(sections) {
      PunctuatedCuts(sections, c);
    }
    if NoEmptyHeading(c.rule) {
      ContentsOfText(c.rule, text);
    }
  }

  lemma JoinedChunks(chunks: seq<Chunk>, pieces: seq<Piece>, cuts: seq<Cut<char>>)
    requires SamePieces(chunks, pieces) && Shows(pieces, cuts)
    ensures NothingRepeated(cuts) ==> All(TextsOf(chunks)) == New(cuts)
  {
    if NothingRepeated(cuts) {
      SameTexts(chunks, pieces);
      JoinedIsNew(pieces, cuts);
    }
  }

  method ChunkSections(sections: seq<Section>, source: string, c: Config)
    returns (chunks: seq<Chunk>, ghost pieces: seq<Piece>, ghost cuts: seq<Cut<char>>, ghost turns: seq<seq<Chunk>>)
    requires forall s :: s in sections ==> PlainSection(s)
    ensures Carry(chunks, pieces) && Working(pieces, cuts, "", 0, 0, DocumentPlan(sections, c), New(cuts))
    ensures New(cuts) == AllKept(sections, c)
    ensures |turns| == |sections| + 1 && Trace(sections, source, c, turns) && turns[|sections|] == chunks
  {
    hide Turn, PlainSection, SectionKept;
    chunks, pieces, cuts, turns := [], [], [], [[]];
    ghost var plan := DocumentPlan(sections, c);
    StartWorking(plan);
    for i := 0 to |sections|
      invariant Carry(chunks, pieces) && Working(pieces, cuts, "", 0, 0, plan, AllKept(sections[..i], c))
      invariant TraceUpTo(sections, source, c, turns, i) && turns[i] == chunks
    {
      ghost var before := chunks;
      chunks, pieces, cuts := NextSection(chunks, pieces, cuts, sections, i, source, c, plan);
      TraceNext(sections, source, c, turns, i, chunks);
      turns := turns + [chunks];
    }
    assert sections[..|sections|] == sections;
    FinallyNew(pieces, cuts, 0, plan, AllKept(sections, c));
  }

  ghost predicate TraceUpTo(sections: seq<Section>, source: string, c: Config, turns: seq<seq<Chunk>>, n: nat) {
    && n <= |sections| && |turns| == n + 1 && turns[0] == []
    && forall i :: 0 <= i < n ==> Turn(turns[i], sections[i], |sections|, source, c, turns[i + 1])
  }

  lemma TraceNext(sections: seq<Section>, source: string, c: Config, turns: seq<seq<Chunk>>, n: nat, chunks: seq<Chunk>)
    requires n < |sections| && TraceUpTo(sections, source, c, turns, n)
    requires Turn(turns[n], sections[n], |sections|, source, c, chunks)
    ensures TraceUpTo(sections, source, c, turns + [chunks], n + 1)
  {
    hide Turn;
  }

  method NextSection(before: seq<Chunk>, ghost piecesBefore: seq<Piece>, ghost cutsBefore: seq<Cut<char>>,
                     sections: seq<Section>, i: nat, source: string, c: Config, ghost plan: Plan)
    returns (chunks: seq<Chunk>, ghost pieces: seq<Piece>, ghost cuts: seq<Cut<char>>)
    requires i < |sections| && PlainSection(sections[i]) && plan == DocumentPlan(sections, c)
    requires Carry(before, piecesBefore) && Working(piecesBefore, cutsBefore, "", 0, 0, plan, AllKept(sections[..i], c))
    ensures Carry(chunks, pieces) && Working(pieces, cuts, "", 0, 0, plan, AllKept(sections[..i + 1], c))
    ensures Turn(before, sections[i], |sections|, source, c, chunks)
  {
    assert sections[..i + 1][..i] == sections[..i];
    if Blank(sections[i]) {
      chunks, pieces, cuts := before, piecesBefore, cutsBefore;
    } else {
      chunks, pieces, cuts := AddSection(
        before, piecesBefore, cutsBefore, AllKept(sections[..i], c), sections[i], |sections|, source, c, plan);
    }
  }

  // ---------------------------------------------------------------- parents

  datatype Parent = Parent(id: string, sectionIndex: nat, heading: Option<string>, content: string, tokenCount: nat)

  /** The parents are the sections that are not blank, in order, each with its place among all. */
  predicate ParentsOf(sections: seq<Section>, parents: seq<Parent>) {
    if sections == [] then parents == []
    else
      var last := |sections| - 1;
      if Blank(sections[last]) then ParentsOf(sections[..last], parents)
      else
        && parents != []
        && ParentsOf(sections[..last], parents[..|parents| - 1])
        && ParentFor(sections[last], last, parents[|parents| - 1])
  }

  predicate ParentFor(s: Section, index: nat, p: Parent) {
    p.sectionIndex == index && p.heading == s.heading && p.content == Content(s) && p.tokenCount == Estimate(Content(s))
  }

  /** What the chunks hold of the parents, each cut into sections once more. */
  function ParentsKept(parents: seq<Parent>, c: Config): string {
    if parents == [] then ""
    else ParentsKept(parents[..|parents| - 1], c) + AllKept(Sections(c.rule, parents[|parents| - 1].content), c)
  }

  function ParentsContents(parents: seq<Parent>, c: Config): string {
    if parents == [] then ""
    else ParentsContents(parents[..|parents| - 1], c) + AllContents(Sections(c.rule, parents[|parents| - 1].content))
  }

  function ParentsCuts(parents: seq<Parent>, c: Config): seq<string> {
    if parents == [] then []
    else ParentsCuts(parents[..|parents| - 1], c) + AllCuts(Sections(c.rule, parents[|parents| - 1].content), c)
  }

  lemma {:induction false} WholeParents(parents: seq<Parent>, c: Config)
    ensures Whole(ParentsKept(parents, c), ParentsContents(parents, c), ParentsCuts(parents, c))
  {
    if parents != [] {
      var front, sections := parents[..|parents| - 1], Sections(c.rule, parents[|parents| - 1].content);
      WholeParents(front, c);
      WholeDocument(sections, c);
      WholeBoth(ParentsKept(front, c), ParentsContents(front, c), ParentsCuts(front, c),
                AllKept(sections, c), AllContents(sections), AllCuts(sections, c));
    }
  }

  /** The contents of the parents. */
  function ParentsTexts(parents: seq<Parent>): string {
    if parents == [] then "" else ParentsTexts(parents[..|parents| - 1]) + Squash(parents[|parents| - 1].content)
  }

  predicate AllStay(parents: seq<Parent>, r: Rule) {
    forall p :: 0 <= p < |parents| ==> HeadingsStay(r, Lines(parents[p].content))
  }

  /** Cut into sections once more, the parents' contents stay whole exactly if the heading lines in
      them leave all of themselves and have something below them. */
  lemma {:induction false} ParentsWholeIff(parents: seq<Parent>, c: Config)
    requires NoEmptyHeading(c.rule) && TextsShorten(c.rule)
    ensures |ParentsContents(parents, c)| <= |ParentsTexts(parents)|
    ensures ParentsContents(parents, c) == ParentsTexts(parents) <==> AllStay(parents, c.rule)
  {
    hide HeadingsStay, Sections, AllContents, Squash;
    if parents != [] {
      var front, last := parents[..|parents| - 1], parents[|parents| - 1];
      ParentsWholeIff(front, c);
      ContentsWholeIff(c.rule, last.content);
      assert AllStay(parents, c.rule) <==> AllStay(front, c.rule) && HeadingsStay(c.rule, Lines(last.content));
      if ParentsContents(parents, c) == ParentsTexts(parents) {
        SamePrefix(ParentsContents(front, c), AllContents(Sections(c.rule, last.content)),
                   ParentsTexts(front), Squash(last.content));
      }
    }
  }

  /** The parts that are not taken apart when the text of a parent is cut into sections once more. */
  ghost function ChildParts(parent: Section, r: Rule): iset<string> {
    DocumentParts(Sections(r, Content(parent)))
  }

  ghost function ParentsPlan(sections: seq<Section>, c: Config): Plan {
    Plan(OverlapTokens(c) > 0, Max(c.targetSize, c.maxSize),
         iset s | PartOfChild(s, sections, c.rule))
  }

  ghost predicate PartOfChild(s: string, sections: seq<Section>, r: Rule) {
    exists i :: 0 <= i < |sections| && s in ChildParts(sections[i], r)
  }

  lemma ParentsPlanHas(sections: seq<Section>, i: nat, c: Config)
    requires i < |sections|
    ensures ChildParts(sections[i], c.rule) <= ParentsPlan(sections, c).parts
  {
  }

  /** Chunk `k` has index `k` and belongs to parent number `owners[k]`; owners do not go back. */
  predicate Owned(chunks: seq<Chunk>, parents: seq<Parent>, owners: seq<nat>) {
    && |owners| == |chunks|
    && (forall k :: 0 <= k < |chunks| ==> chunks[k].meta.index == k)
    && (forall k :: 0 <= k < |chunks| ==> owners[k] < |parents| && chunks[k].meta.sectionId == Some(parents[owners[k]].id))
    && (forall j, k :: 0 <= j < k < |owners| ==> owners[j] <= owners[k])
  }

  /** A parent's own chunks, numbered on from `from` and pointing to it. */
  function Relabelled(kid: seq<Chunk>, from: nat, id: string): (r: seq<Chunk>)
    ensures |r| == |kid|
  {
    seq(|kid|, k requires 0 <= k < |kid| => kid[k].(meta := kid[k].meta.(index := from + k, sectionId := Some(id))))
  }

  function AllRelabelled(kids: seq<seq<Chunk>>, parents: seq<Parent>): seq<Chunk>
    requires |kids| == |parents|
  {
    if kids == [] then []
    else
      var last := |kids| - 1;
      var before := AllRelabelled(kids[..last], parents[..last]);
      before + Relabelled(kids[last], |before|, parents[last].id)
  }

  /** `kids[p]` are the chunks of the text of parent `p`, cut as a document of its own. */
  ghost predicate KidsOf(kids: seq<seq<Chunk>>, parents: seq<Parent>, source: string, c: Config) {
    && |kids| == |parents|
    && forall p :: 0 <= p < |kids| ==> Traced(kids[p], Sections(c.rule, parents[p].content), source, c)
  }

  lemma KidNext(kids: seq<seq<Chunk>>, parents: seq<Parent>, kid: seq<Chunk>, parent: Parent, source: string, c: Config)
    requires KidsOf(kids, parents, source, c) && Traced(kid, Sections(c.rule, parent.content), source, c)
    ensures KidsOf(kids + [kid], parents + [parent], source, c)
    ensures AllRelabelled(kids + [kid], parents + [parent])
         == AllRelabelled(kids, parents) + Relabelled(kid, |AllRelabelled(kids, parents)|, parent.id)
  {
    hide Traced, Sections;
    assert (kids + [kid])[..|kids|] == kids && (parents + [parent])[..|parents|] == parents;
  }

  /** Small chunks with the sections they come from: every chunk points to its parent, the chunks
      are numbered through, and together they hold what the parents hold.  They are the chunks of
      the parents' texts, each cut as a document of its own, so their headings are the ones these
      texts still have.  `uuids` are the draws of the random generator. */
  method ChunkDocumentWithParents(text: string, source: string, c: Config, uuids: nat -> string)
    returns (chunks: seq<Chunk>, parents: seq<Parent>, ghost pieces: seq<Piece>, ghost cuts: seq<Cut<char>>,
             ghost owners: seq<nat>, ghost kids: seq<seq<Chunk>>)
    requires PlainHeadings(c.rule)
    ensures ParentsOf(Sections(c.rule, text), parents)
    ensures forall k :: 0 <= k < |chunks| ==> chunks[k].meta.index == k
    ensures Owned(chunks, parents, owners)
    ensures KidsOf(kids, parents, source, c) && chunks == AllRelabelled(kids, parents)
    ensures SamePieces(chunks, pieces) && Shows(pieces, cuts) && Carries(cuts) && Counted(pieces)
    ensures Sized(pieces, cuts, ParentsPlan(Sections(c.rule, text), c))
    ensures New(cuts) == ParentsKept(parents, c)
    ensures New(cuts) == ParentsContents(parents, c) <==> AllCovered(ParentsCuts(parents, c))
    ensures OverlapTokens(c) <= 0 ==> All(TextsOf(chunks)) == ParentsKept(parents, c)
  {
    var sections := SplitIntoSections(c.rule, text);
    hide KidsOf, AllRelabelled;
    chunks, parents, pieces, cuts, owners, kids := ChunkParents(sections, source, c, uuids);
    WholeParents(parents, c);
    if OverlapTokens(c) <= 0 {
      SameTexts(chunks, pieces);
      JoinedIsNew(pieces, cuts);
    }
  }

  method ChunkParents(sections: seq<Section>, source: string, c: Config, uuids: nat -> string)
    returns (chunks: seq<Chunk>, parents: seq<Parent>, ghost pieces: seq<Piece>, ghost cuts: seq<Cut<char>>,
             ghost owners: seq<nat>, ghost kids: seq<seq<Chunk>>)
    requires PlainHeadings(c.rule)
    ensures ParentsOf(sections, parents) && Owned(chunks, parents, owners)
    ensures SamePieces(chunks, pieces) && Working(pieces, cuts, "", 0, 0, ParentsPlan(sections, c), New(cuts))
    ensures New(cuts) == ParentsKept(parents, c)
    ensures KidsOf(kids, parents, source, c) && chunks == AllRelabelled(kids, parents)
  {
    hide KidsOf, AllRelabelled, Working, Blank;
    chunks, parents := [], [];
    pieces, cuts, owners, kids := [], [], [], [];
    NoKids(source, c);
    ghost var plan := ParentsPlan(sections, c);
    StartWorking(plan);
    for i := 0 to |sections|
      invariant ParentsOf(sections[..i], parents) && Owned(chunks, parents, owners)
      invariant SamePieces(chunks, pieces) && Working(pieces, cuts, "", 0, 0, plan, ParentsKept(parents, c))
      invariant |kids| == |parents| && KidsOf(kids, parents, source, c) && chunks == AllRelabelled(kids, parents)
    {
      assert sections[..i + 1][..i] == sections[..i];
      if !Blank(sections[i]) {
        ParentsPlanHas(sections, i, c);
        chunks, parents, pieces, cuts, owners, kids :=
          AddParent(chunks, parents, pieces, cuts, owners, kids, sections, i, source, c, uuids, plan);
      }
    }
    assert sections[..|sections|] == sections;
    FinallyNew(pieces, cuts, 0, plan, ParentsKept(parents, c));
  }

  method AddParent(before: seq<Chunk>, parentsBefore: seq<Parent>, ghost piecesBefore: seq<Piece>,
                   ghost cutsBefore: seq<Cut<char>>, ghost ownersBefore: seq<nat>, ghost kidsBefore: seq<seq<Chunk>>,
                   sections: seq<Section>, i: nat, source: string, c: Config, uuids: nat -> string, ghost plan: Plan)
    returns (chunks: seq<Chunk>, parents: seq<Parent>, ghost pieces: seq<Piece>, ghost cuts: seq<Cut<char>>,
             ghost owners: seq<nat>, ghost kids: seq<seq<Chunk>>)
    requires i < |sections| && !Blank(sections[i]) && PlainHeadings(c.rule)
    requires plan.overlap == (OverlapTokens(c) > 0) && plan.size == Max(c.targetSize, c.maxSize)
    requires ChildParts(sections[i], c.rule) <= plan.parts
    requires ParentsOf(sections[..i], parentsBefore) && Owned(before, parentsBefore, ownersBefore)
    requires |kidsBefore| == |parentsBefore| && KidsOf(kidsBefore, parentsBefore, source, c)
    requires before == AllRelabelled(kidsBefore, parentsBefore)
    requires SamePieces(before, piecesBefore)
    requires Working(piecesBefore, cutsBefore, "", 0, 0, plan, ParentsKept(parentsBefore, c))
    ensures ParentsOf(sections[..i + 1], parents) && Owned(chunks, parents, owners)
    ensures SamePieces(chunks, pieces) && Working(pieces, cuts, "", 0, 0, plan, ParentsKept(parents, c))
    ensures |kids| == |parents| && KidsOf(kids, parents, source, c) && chunks == AllRelabelled(kids, parents)
  {
    hide KidsOf, AllRelabelled, Traced;
    var content := Content(sections[i]);
    var parent := Parent(uuids(|parentsBefore|), i, sections[i].heading, content, Estimate(content));
    NextParent(sections, i, parentsBefore, parent);
    NextParentKept(parentsBefore, parent, c);
    parents := parentsBefore + [parent];
    ghost var kid;
    chunks, pieces, cuts, owners, kid := AddChildren(
      before, piecesBefore, cutsBefore, ParentsKept(parentsBefore, c), ownersBefore, parentsBefore, parent, source, c, plan);
    KidNext(kidsBefore, parentsBefore, kid, parent, source, c);
    kids := kidsBefore + [kid];
  }

  lemma NoKids(source: string, c: Config)
    ensures KidsOf([], [], source, c) && AllRelabelled([], []) == []
  {
  }

  lemma NextParentKept(parents: seq<Parent>, p: Parent, c: Config)
    ensures ParentsKept(parents + [p], c) == ParentsKept(parents, c) + AllKept(Sections(c.rule, p.content), c)
  {
    assert (parents + [p])[..|parents|] == parents;
  }

  lemma NextParent(sections: seq<Section>, i: nat, parents: seq<Parent>, p: Parent)
    requires i < |sections| && ParentsOf(sections[..i], parents) && !Blank(sections[i]) && ParentFor(sections[i], i, p)
    ensures ParentsOf(sections[..i + 1], parents + [p])
  {
    assert sections[..i + 1][..i] == sections[..i];
    assert (parents + [p])[..|parents|] == parents;
  }

  method AddChildren(before: seq<Chunk>, ghost pieces: seq<Piece>, ghost cuts: seq<Cut<char>>, ghost done: string,
                     ghost owners: seq<nat>, ghost parents: seq<Parent>, parent: Parent, source: string, c: Config,
                     ghost plan: Plan)
    returns (chunks: seq<Chunk>, ghost pieces': seq<Piece>, ghost cuts': seq<Cut<char>>, ghost owners': seq<nat>,
             ghost kid: seq<Chunk>)
    requires PlainHeadings(c.rule) && Owned(before, parents, owners)
    requires plan.overlap == (OverlapTokens(c) > 0) && plan.size == Max(c.targetSize, c.maxSize)
    requires DocumentParts(Sections(c.rule, parent.content)) <= plan.parts
    requires SamePieces(before, pieces) && Working(pieces, cuts, "", 0, 0, plan, done)
    ensures Owned(chunks, parents + [parent], owners')
    ensures SamePieces(chunks, pieces')
    ensures Traced(kid, Sections(c.rule, parent.content), source, c) && chunks == before + Relabelled(kid, |before|, parent.id)
    ensures Working(pieces', cuts', "", 0, 0, plan, done + AllKept(Sections(c.rule, parent.content), c))
  {
    var children: seq<Chunk>;
    ghost var more, moreCuts, turns, holds;
    hide Trace;
    children, more, moreCuts, turns, holds := ChunkDocument(parent.content, source, c);
    kid := children;
    assert TraceTo(Sections(c.rule, parent.content), source, c, turns, kid);
    Widen(more, moreCuts, DocumentPlan(Sections(c.rule, parent.content), c), plan);
    AddPieces(pieces, cuts, 0, plan, done, more, moreCuts);
    pieces', cuts' := pieces + more, cuts + moreCuts;
    chunks, owners' := PushChildren(before, owners, parents, parent, children, pieces, more);
  }

  method PushChildren(before: seq<Chunk>, ghost owners: seq<nat>, ghost parents: seq<Parent>, parent: Parent,
                      children: seq<Chunk>, ghost pieces: seq<Piece>, ghost more: seq<Piece>)
    returns (chunks: seq<Chunk>, ghost owners': seq<nat>)
    requires Owned(before, parents, owners) && SamePieces(before, pieces) && SamePieces(children, more)
    ensures Owned(chunks, parents + [parent], owners') && SamePieces(chunks, pieces + more)
    ensures chunks == before + Relabelled(children, |before|, parent.id)
  {
    chunks, owners' := before, owners;
    assert pieces + more[..0] == pieces;
    for k := 0 to |children|
      invariant Owned(chunks, parents + [parent], owners') && SamePieces(chunks, pieces + more[..k])
      invariant chunks == before + Relabelled(children, |before|, parent.id)[..k]
    {
      var meta := children[k].meta.(index := |chunks|, sectionId := Some(parent.id));
      chunks := chunks + [children[k].(meta := meta)];
      owners' := owners' + [|parents|];
    }
    assert more[..|more|] == more;
  }
}

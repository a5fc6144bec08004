// Which paragraphs of a section too large for one chunk are cut into sentences, and what is kept of
// the section then.
module Cutting {
  import opened Text
  import opened Estimates
  import opened Packing
  import opened Headings
  import Sentences

  /** The first `n` paragraphs are all too large for a piece. */
  predicate AllLarge(paragraphs: seq<string>, n: nat, size: int)
    requires n <= |paragraphs|
  {
    forall k :: 0 <= k < n ==> Estimate(paragraphs[k]) > size
  }

  /** Those of the first `n` paragraphs that are cut into sentences: a paragraph is cut if it and
      all before it in its section are too large; once one fits, no later one is cut. */
  function CutOf(paragraphs: seq<string>, n: nat, size: int): seq<string>
    requires n <= |paragraphs|
  {
    if n == 0 then []
    else CutOf(paragraphs, n - 1, size) + if AllLarge(paragraphs, n, size) then [paragraphs[n - 1]] else []
  }

  function Kept(para: string, cut: bool): string {
    if cut then All(Sentences.Split(para)) else Squash(para)
  }

  /** What the pieces hold of the first `n` paragraphs: the sentences of those that are cut, all
      of the others. */
  function KeptOf(paragraphs: seq<string>, n: nat, size: int): string
    requires n <= |paragraphs|
  {
    if n == 0 then ""
    else KeptOf(paragraphs, n - 1, size) + Kept(paragraphs[n - 1], AllLarge(paragraphs, n, size))
  }

  function CutParagraphs(paragraphs: seq<string>, size: int): seq<string> {
    CutOf(paragraphs, |paragraphs|, size)
  }

  function KeptParagraphs(paragraphs: seq<string>, size: int): string {
    KeptOf(paragraphs, |paragraphs|, size)
  }

  lemma {:induction false} CutOfIsFront(paragraphs: seq<string>, n: nat, size: int)
    requires n <= |paragraphs|
    ensures
      var m := |CutOf(paragraphs, n, size)|;
      && m <= n && CutOf(paragraphs, n, size) == paragraphs[..m] && AllLarge(paragraphs, m, size)
      && (m < n ==> Estimate(paragraphs[m]) <= size)
  {
    hide Estimate;
    if n > 0 {
      CutOfIsFront(paragraphs, n - 1, size);
    }
  }

  /** The paragraphs that are cut are those in front of the first that fits. */
  lemma CutInFront(paragraphs: seq<string>, size: int)
    ensures
      var m := |CutParagraphs(paragraphs, size)|;
      && m <= |paragraphs| && CutParagraphs(paragraphs, size) == paragraphs[..m] && AllLarge(paragraphs, m, size)
      && (m < |paragraphs| ==> Estimate(paragraphs[m]) <= size)
  {
    CutOfIsFront(paragraphs, |paragraphs|, size);
  }

  ghost predicate AllCovered(paragraphs: seq<string>) {
    forall k :: 0 <= k < |paragraphs| ==> Sentences.Covered(paragraphs[k])
  }

  /** `kept` is all of `full` exactly if the paragraphs that were cut are covered by their
      sentences, and less otherwise. */
  ghost predicate Whole(kept: string, full: string, cut: seq<string>) {
    if AllCovered(cut) then kept == full else |kept| < |full|
  }

  lemma WholeBoth(kept: string, full: string, cut: seq<string>, kept': string, full': string, cut': seq<string>)
    requires Whole(kept, full, cut) && Whole(kept', full', cut')
    ensures Whole(kept + kept', full + full', cut + cut')
  {
    var both := cut + cut';
    assert AllCovered(cut) && AllCovered(cut') ==> AllCovered(both);
    assert forall k :: 0 <= k < |cut| ==> both[k] == cut[k];
    assert forall k :: 0 <= k < |cut'| ==> both[|cut| + k] == cut'[k];
  }

  lemma WholeOne(para: string, cut: bool)
    ensures Whole(Kept(para, cut), Squash(para), if cut then [para] else [])
  {
    hide Squash, Concat, Sentences.Split, Sentences.Covered;
    Sentences.CoveredIff(para);
    assert [para][0] == para;
    assert AllCovered([para]) <==> Sentences.Covered(para);
    assert Kept(para, true) == Squash(Concat(Sentences.Split(para)));
  }

  lemma WholeNone()
    ensures Whole("", All([]), [])
  {
    assert Concat([]) == "" && Squash("") == "";
  }

  lemma {:induction false} WholeUpTo(paragraphs: seq<string>, n: nat, size: int)
    requires n <= |paragraphs|
    ensures Whole(KeptOf(paragraphs, n, size), All(paragraphs[..n]), CutOf(paragraphs, n, size))
  {
    hide Whole, Kept, Squash, Concat, AllLarge;
    if n == 0 {
      WholeNone();
      assert paragraphs[..0] == [];
    } else {
      var para, cut := paragraphs[n - 1], AllLarge(paragraphs, n, size);
      WholeUpTo(paragraphs, n - 1, size);
      WholeOne(para, cut);
      NextPart(paragraphs, n - 1);
      WholeBoth(KeptOf(paragraphs, n - 1, size), All(paragraphs[..n - 1]), CutOf(paragraphs, n - 1, size),
                Kept(para, cut), Squash(para), if cut then [para] else []);
    }
  }

  lemma WholeParagraphs(paragraphs: seq<string>, size: int)
    ensures Whole(KeptParagraphs(paragraphs, size), All(paragraphs), CutParagraphs(paragraphs, size))
  {
    WholeUpTo(paragraphs, |paragraphs|, size);
    assert paragraphs[..|paragraphs|] == paragraphs;
  }

  /** What is kept of the first `i` paragraphs, and whether all of them are too large. */
  predicate KeptUpTo(paragraphs: seq<string>, i: nat, size: int, done: string, large: bool) {
    i <= |paragraphs| && done == KeptOf(paragraphs, i, size) && large == AllLarge(paragraphs, i, size)
  }

  lemma NextKept(paragraphs: seq<string>, i: nat, size: int, done: string, large: bool)
    requires i < |paragraphs| && KeptUpTo(paragraphs, i, size, done, large)
    ensures
      var cut := large && Estimate(paragraphs[i]) > size;
      KeptUpTo(paragraphs, i + 1, size, done + Kept(paragraphs[i], cut), cut)
  {
    hide Estimate, Kept;
    assert AllLarge(paragraphs, i + 1, size) <==> large && Estimate(paragraphs[i]) > size;
  }

  lemma CoveredBoth(a: seq<string>, b: seq<string>)
    requires AllCovered(a) && AllCovered(b)
    ensures AllCovered(a + b)
  {
  }

  lemma CoveredFront(paragraphs: seq<string>, size: int)
    requires AllCovered(paragraphs)
    ensures AllCovered(CutParagraphs(paragraphs, size))
  {
    CutInFront(paragraphs, size);
  }
}

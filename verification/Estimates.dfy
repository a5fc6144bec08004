// Estimated sizes of texts: what packing by them guarantees, and the words a piece repeats from
// the one before.
module Estimates {
  import opened Text
  import opened Overlaps

  /** Approximate tokens: the words of the text, divided by 0.75 and rounded up. */
  function Estimate(s: string): nat {
    (4 * |Words(s)| + 2) / 3
  }

  /** Estimates are subadditive, whatever white space joins the parts. */
  lemma EstimateAppend(a: string, sep: string, b: string)
    requires AllSpace(sep)
    ensures Estimate(a + sep + b) <= Estimate(a) + Estimate(b)
  {
    WordsOfAppend(a + sep, b);
    if sep == "" {
      assert a + sep == a;
    } else {
      WordsOfAppend(a, sep);
      SpaceWords(sep);
    }
  }

  lemma {:induction false} SpaceWords(sep: string)
    requires AllSpace(sep) && sep != ""
    ensures |Words(sep)| == 2
  {
    WholeRun(sep);
    assert sep[|sep|..] == "";
  }

  lemma {:induction false} WholeRun(s: string)
    requires AllSpace(s)
    ensures SpaceRun(s) == |s|
  {
    if s != "" {
      WholeRun(s[1..]);
    }
  }

  function SumEstimates(parts: seq<string>): nat {
    if parts == [] then 0 else Estimate(parts[0]) + SumEstimates(parts[1..])
  }

  /** Parts that fit a size by the sum of their estimates fit it when they are joined. */
  lemma {:induction false} PackingFits(parts: seq<string>, sep: string)
    requires AllSpace(sep) && parts != []
    ensures Estimate(Join(parts, sep)) <= SumEstimates(parts)
  {
    if |parts| > 1 {
      PackingFits(parts[1..], sep);
      EstimateAppend(parts[0], sep, Join(parts[1..], sep));
    }
  }

  lemma EstimateTrim(s: string)
    ensures Estimate(Trim(s)) <= Estimate(s)
  {
    TrimWords(s);
  }

  /** The last words of a text, about `tokens` of them. */
  function TrailingText(s: string, tokens: nat): string {
    var words, n := Words(s), (3 * tokens + 3) / 4;
    Join(if n == 0 || n >= |words| then words else words[|words| - n..], " ")
  }

  lemma TrailingEnds(s: string, tokens: nat)
    ensures EndsWith(Squash(s), Squash(TrailingText(s, tokens)))
  {
    var words, n := Words(s), (3 * tokens + 3) / 4;
    var from := if n == 0 || n >= |words| then 0 else |words| - n;
    var last := words[from..];
    assert words == words[..from] + last;
    ConcatAppend(words[..from], last);
    SquashAppend(Concat(words[..from]), Concat(last));
    SquashWords(s);
    SquashJoin(last, " ");
  }
}

// Sequences cut into pieces that may repeat the end of the piece before: which part of each
// piece is new.
module Overlaps {

  /** A piece whose first `carried` elements repeat the end of the piece before. */
  datatype Cut<T> = Cut(piece: seq<T>, carried: nat)

  predicate EndsWith<T(==)>(s: seq<T>, end: seq<T>) {
    |end| <= |s| && s[|s| - |end|..] == end
  }

  /** `cut` repeats what ends `before`, the piece in front of it, if there is one. */
  predicate Repeats<T(==)>(before: seq<Cut<T>>, cut: Cut<T>) {
    && cut.carried <= |cut.piece|
    && (cut.carried > 0 ==> before != [] && EndsWith(before[|before| - 1].piece, cut.piece[..cut.carried]))
  }

  predicate Carries<T(==)>(cuts: seq<Cut<T>>) {
    forall k :: 0 <= k < |cuts| ==> Repeats(cuts[..k], cuts[k])
  }

  function NewIn<T>(cut: Cut<T>): seq<T> {
    if cut.carried <= |cut.piece| then cut.piece[cut.carried..] else []
  }

  /** All pieces in order, without what they repeat. */
  function New<T>(cuts: seq<Cut<T>>): seq<T> {
    if cuts == [] then [] else New(cuts[..|cuts| - 1]) + NewIn(cuts[|cuts| - 1])
  }

  /** Pieces and the buffer for the next one together hold exactly `done`. */
  predicate Holds<T(==)>(cuts: seq<Cut<T>>, buffer: Cut<T>, done: seq<T>) {
    Carries(cuts) && Repeats(cuts, buffer) && New(cuts) + NewIn(buffer) == done
  }

  lemma Associative<T>(a: seq<T>, b: seq<T>, c: seq<T>)
    ensures (a + b) + c == a + (b + c)
  {
  }

  lemma NewAppend<T>(cuts: seq<Cut<T>>, cut: Cut<T>)
    ensures New(cuts + [cut]) == New(cuts) + NewIn(cut)
  {
    assert (cuts + [cut])[..|cuts|] == cuts;
  }

  lemma CarriesAppend<T>(cuts: seq<Cut<T>>, cut: Cut<T>)
    requires Carries(cuts) && Repeats(cuts, cut)
    ensures Carries(cuts + [cut])
  {
    var all := cuts + [cut];
    forall k | 0 <= k < |all| ensures Repeats(all[..k], all[k]) {
      if k < |cuts| {
        assert all[..k] == cuts[..k];
      } else {
        assert all[..k] == cuts;
      }
    }
  }

  /** More in the buffer. */
  lemma Extend<T>(cuts: seq<Cut<T>>, buffer: Cut<T>, done: seq<T>, s: seq<T>)
    requires Holds(cuts, buffer, done)
    ensures Holds(cuts, buffer.(piece := buffer.piece + s), done + s)
  {
    MoreInPiece(buffer, s);
    Associative(New(cuts), NewIn(buffer), s);
  }

  lemma MoreInPiece<T>(cut: Cut<T>, s: seq<T>)
    requires cut.carried <= |cut.piece|
    ensures (cut.piece + s)[..cut.carried] == cut.piece[..cut.carried]
    ensures NewIn(cut.(piece := cut.piece + s)) == NewIn(cut) + s
  {
  }

  /** The buffer becomes a piece. */
  lemma Flush<T>(cuts: seq<Cut<T>>, buffer: Cut<T>, done: seq<T>)
    requires Holds(cuts, buffer, done)
    ensures Holds(cuts + [buffer], Cut([], 0), done)
  {
    NewAppend(cuts, buffer);
    CarriesAppend(cuts, buffer);
  }

  /** A new buffer that starts with what ended the last piece. */
  lemma Restart<T>(cuts: seq<Cut<T>>, done: seq<T>, overlap: seq<T>, s: seq<T>)
    requires Holds(cuts, Cut([], 0), done) && cuts != [] && EndsWith(cuts[|cuts| - 1].piece, overlap)
    ensures Holds(cuts, Cut(overlap + s, |overlap|), done + s)
  {
    assert (overlap + s)[..|overlap|] == overlap && (overlap + s)[|overlap|..] == s;
    assert New(cuts) == done;
  }

  /** The pieces of something else follow. */
  lemma {:induction false} NewFollow<T>(cuts: seq<Cut<T>>, more: seq<Cut<T>>)
    ensures New(cuts + more) == New(cuts) + New(more)
  {
    if more == [] {
      assert cuts + more == cuts;
    } else {
      var all, front, last := cuts + more, more[..|more| - 1], more[|more| - 1];
      assert all[..|all| - 1] == cuts + front && all[|all| - 1] == last;
      NewFollow(cuts, front);
      Associative(New(cuts), New(front), NewIn(last));
    }
  }

  lemma CarriesFollow<T>(cuts: seq<Cut<T>>, more: seq<Cut<T>>)
    requires Carries(cuts) && Carries(more)
    ensures Carries(cuts + more)
  {
    var all := cuts + more;
    forall k | 0 <= k < |all| ensures Repeats(all[..k], all[k]) {
      if k < |cuts| {
        assert all[..k] == cuts[..k];
        assert Repeats(cuts[..k], cuts[k]);
      } else {
        var j := k - |cuts|;
        assert Repeats(more[..j], more[j]) && all[k] == more[j];
        assert j > 0 ==> all[..k][k - 1] == more[..j][j - 1];
      }
    }
  }

  lemma Follow<T>(cuts: seq<Cut<T>>, more: seq<Cut<T>>, done: seq<T>)
    requires Holds(cuts, Cut([], 0), done) && Carries(more)
    ensures Holds(cuts + more, Cut([], 0), done + New(more))
  {
    CarriesFollow(cuts, more);
    NewFollow(cuts, more);
    assert New(cuts) + [] == New(cuts);
    assert New(cuts + more) + [] == New(cuts + more);
  }

  /** The last piece grows. */
  lemma Grow<T>(cuts: seq<Cut<T>>, done: seq<T>, s: seq<T>)
    requires Holds(cuts, Cut([], 0), done) && cuts != []
    ensures
      var last := |cuts| - 1;
      Holds(cuts[..last] + [cuts[last].(piece := cuts[last].piece + s)], Cut([], 0), done + s)
  {
    var last := |cuts| - 1;
    var front := cuts[..last];
    assert Repeats(front, cuts[last]);
    forall k | 0 <= k < last ensures Repeats(front[..k], front[k]) {
      assert front[..k] == cuts[..k] && Repeats(cuts[..k], cuts[k]);
    }
    assert cuts == front + [cuts[last]];
    NewAppend(front, cuts[last]);
    Extend(front, cuts[last], done, s);
    Flush(front, cuts[last].(piece := cuts[last].piece + s), done + s);
  }
}

// POST /execute/batch: formulas are split into blocked, volatile, cached and missed ones, the
// missed ones evaluated together, and the answers put back in the order of the request.
module BatchEvaluate {
  import opened Wrappers
  import opened FormulaCache

  datatype Answer =
    | Failed(formula: string, kind: string)
    | Result(formula: string, value: Value, cached: bool)

  /** Engine-specific error types as the response shows them. */
  function MapError(kind: string): string {
    if kind == "CYCLE" || kind == "SPILL" then "REF"
    else if kind == "LIC" then "NAME"
    else kind
  }

  function Present(f: string, v: Value, cached: bool): Answer {
    if v.Error? then Failed(f, MapError(v.kind)) else Result(f, v, cached)
  }

  /** A value is shown as it is, an error by its name, of which CYCLE and SPILL are called REF and LIC NAME. */
  lemma PresentIff(f: string, v: Value, cached: bool, a: Answer)
    ensures a == Present(f, v, cached) <==>
      match v
      case Plain(_) => a == Result(f, v, cached)
      case Error(kind) =>
        && a.Failed? && a.formula == f
        && (a.kind == "REF" <==> kind in ["REF", "CYCLE", "SPILL"])
        && (a.kind == "NAME" <==> kind in ["NAME", "LIC"])
        && (a.kind !in ["REF", "NAME"] ==> a.kind == kind)
  {
  }

  ghost predicate AnswersAt(e: Engine, f: string, loc: string, t: nat, a: Answer) {
    || a == Present(f, e.eval(f, loc, t), false)
    || (a == Present(f, e.eval(f, loc, t), true) && !e.volatile(f))
  }

  /** The answer a formula gets when it is asked for on its own. */
  ghost predicate Answers(e: Engine, f: string, loc: string, a: Answer) {
    if e.blocked(f) then a == Failed(f, "NAME") else exists t :: AnswersAt(e, f, loc, t, a)
  }

  predicate EvaluatedAt(e: Engine, f: string, loc: string, t: nat, v: Value) {
    v == e.eval(f, loc, t)
  }

  predicate EvaluatedWithDataAt(e: Engine, f: string, data: string, loc: string, t: nat, v: Value) {
    v == e.evalWithData(f, data, loc, t)
  }

  /** What the worker may return for `f`. */
  ghost predicate Evaluated(e: Engine, f: string, loc: string, v: Value) {
    exists t :: EvaluatedAt(e, f, loc, t, v)
  }

  ghost predicate EvaluatedWithData(e: Engine, f: string, data: string, loc: string, v: Value) {
    exists t :: EvaluatedWithDataAt(e, f, data, loc, t, v)
  }

  /** The answer a formula gets on its own when cell data is given. */
  ghost predicate AnswersWithData(e: Engine, f: string, data: string, loc: string, a: Answer) {
    if e.blocked(f) then a == Failed(f, "NAME")
    else exists v :: EvaluatedWithData(e, f, data, loc, v) && a == Present(f, v, false)
  }

  lemma ComputedAnswers(e: Engine, f: string, loc: string, v: Value)
    requires !e.blocked(f) && Evaluated(e, f, loc, v)
    ensures Answers(e, f, loc, Present(f, v, false))
  {
    var t :| EvaluatedAt(e, f, loc, t, v);
    assert AnswersAt(e, f, loc, t, Present(f, v, false));
  }

  lemma DataAnswers(e: Engine, f: string, data: string, loc: string, v: Value)
    requires !e.blocked(f) && EvaluatedWithData(e, f, data, loc, v)
    ensures AnswersWithData(e, f, data, loc, Present(f, v, false))
  {
  }

  /** The answer of the formula, or the cached value of a request with the same key. */
  ghost predicate AnswersOrMeets(e: Engine, locales: set<string>, f: string, loc: string, a: Answer) {
    || Answers(e, f, loc, a)
    || (!e.blocked(f) && a.Result? && a.cached && a.formula == f && EntrySound(e, locales, Key(f, loc), a.value))
  }

  /** It is the former if no locale in use has a colon, or the request itself has none. */
  lemma OwnAnswer(e: Engine, locales: set<string>, f: string, loc: string, a: Answer)
    requires AnswersOrMeets(e, locales, f, loc, a)
    requires NoColons(locales + {loc}) || (':' !in loc && ':' !in f)
    ensures Answers(e, f, loc, a)
  {
    if !Answers(e, f, loc, a) {
      OwnHit(e, locales, f, loc, a.value);
      HitAnswers(e, f, loc, a.value);
    }
  }

  lemma OwnOrMet(e: Engine, locales: set<string>, f: string, loc: string, a: Answer)
    requires AnswersOrMeets(e, locales, f, loc, a)
    ensures NoColons(locales + {loc}) ==> Answers(e, f, loc, a)
  {
    if NoColons(locales + {loc}) {
      OwnAnswer(e, locales, f, loc, a);
    }
  }

  /** The first formulas have these answers. */
  ghost predicate Answered(e: Engine, locales: set<string>, formulas: seq<string>, loc: string, answers: seq<Answer>) {
    && |answers| <= |formulas|
    && forall i :: 0 <= i < |answers| ==> AnswersOrMeets(e, locales, formulas[i], loc, answers[i])
  }

  lemma AllOwn(e: Engine, locales: set<string>, formulas: seq<string>, loc: string, answers: seq<Answer>)
    requires |answers| == |formulas| && Answered(e, locales, formulas, loc, answers)
    ensures NoColons(locales + {loc}) ==> forall i :: 0 <= i < |formulas| ==> Answers(e, formulas[i], loc, answers[i])
  {
    if NoColons(locales + {loc}) {
      forall i | 0 <= i < |formulas| ensures Answers(e, formulas[i], loc, answers[i]) {
        OwnAnswer(e, locales, formulas[i], loc, answers[i]);
      }
    }
  }

  lemma HitAnswers(e: Engine, f: string, loc: string, v: Value)
    requires !e.blocked(f) && Cacheable(e, f, loc, v)
    ensures Answers(e, f, loc, Present(f, v, true))
  {
    assert AnswersAt(e, f, loc, 0, Present(f, v, true));
  }

  // ---------------------------------------------------------------- index bookkeeping

  /** The positions below `n` that are not in `skip`, in order. */
  function Kept(skip: set<nat>, n: nat): seq<nat> {
    if n == 0 then [] else Kept(skip, n - 1) + if n - 1 in skip then [] else [n - 1]
  }

  lemma {:induction false} KeptIs(skip: set<nat>, n: nat)
    ensures forall i :: i in Kept(skip, n) <==> 0 <= i < n && i !in skip
    ensures forall j, k :: 0 <= j < k < |Kept(skip, n)| ==> Kept(skip, n)[j] < Kept(skip, n)[k]
  {
    if n > 0 {
      KeptIs(skip, n - 1);
      var before := Kept(skip, n - 1);
      assert forall k :: 0 <= k < |before| ==> before[k] in before;
    }
  }

  /** Entry number |Kept(i)| of all the kept positions is `i` itself. */
  lemma {:induction false} KeptAt(skip: set<nat>, i: nat, n: nat)
    requires i < n && i !in skip
    ensures |Kept(skip, i)| < |Kept(skip, n)| && Kept(skip, n)[|Kept(skip, i)|] == i
  {
    if i < n - 1 {
      KeptAt(skip, i, n - 1);
    }
  }

  predicate Picks(formulas: seq<string>, indices: seq<nat>, picked: seq<string>) {
    && |picked| == |indices|
    && forall k :: 0 <= k < |indices| ==> indices[k] < |formulas| && picked[k] == formulas[indices[k]]
  }

  /** One of the kept positions was not cached. */
  ghost predicate IsMissed(kept: seq<nat>, hits: map<nat, Value>, i: nat) {
    exists j :: 0 <= j < |kept| && j !in hits && kept[j] == i
  }

  lemma MissedAre(kept: seq<nat>, hits: map<nat, Value>)
    ensures forall j :: 0 <= j < |kept| && j !in hits ==> IsMissed(kept, hits, kept[j])
    ensures forall i :: IsMissed(kept, hits, i) ==> i in kept
  {
  }

  predicate DistinctIndices(indices: seq<nat>) {
    forall j, k :: 0 <= j < k < |indices| ==> indices[j] != indices[k]
  }

  /** Cache hits have the keys of the kept formulas they were looked up for. */
  ghost predicate HitsSound(e: Engine, locales: set<string>, formulas: seq<string>, loc: string, kept: seq<nat>,
                            hits: map<nat, Value>) {
    forall j :: j in hits ==>
      j < |kept| && kept[j] < |formulas| && EntrySound(e, locales, Key(formulas[kept[j]], loc), hits[j])
  }

  /** Computed values belong to the formulas at their original positions. */
  ghost predicate FoundSound(e: Engine, formulas: seq<string>, loc: string, found: map<nat, Value>) {
    forall i :: i in found ==> i < |formulas| && Evaluated(e, formulas[i], loc, found[i])
  }

  /** Not an error and not volatile. */
  predicate Storable(origins: seq<nat>, evaluated: seq<Value>, volatile: seq<nat>, j: nat)
    requires j < |origins| == |evaluated|
  {
    evaluated[j].Plain? && origins[j] !in volatile
  }

  /** The entries are those of the first `n` values that may be stored. */
  ghost predicate EntriesAre(misses: seq<string>, origins: seq<nat>, evaluated: seq<Value>, volatile: seq<nat>, n: nat,
                             entries: seq<Entry>)
  {
    && n <= |misses| == |origins| == |evaluated|
    && (forall j :: 0 <= j < n && Storable(origins, evaluated, volatile, j) ==> Entry(misses[j], evaluated[j]) in entries)
    && (forall x :: x in entries ==>
          exists j :: 0 <= j < n && Storable(origins, evaluated, volatile, j) && x == Entry(misses[j], evaluated[j]))
  }

  lemma NextEntry(misses: seq<string>, origins: seq<nat>, evaluated: seq<Value>, volatile: seq<nat>, n: nat,
                  entries: seq<Entry>)
    requires EntriesAre(misses, origins, evaluated, volatile, n, entries) && n < |misses|
    ensures EntriesAre(misses, origins, evaluated, volatile, n + 1,
                       if Storable(origins, evaluated, volatile, n) then entries + [Entry(misses[n], evaluated[n])] else entries)
  {
    hide Storable;
  }

  /** The entries are the values found for formulas that are not volatile, errors left out. */
  ghost predicate EntriesOf(formulas: seq<string>, volatile: seq<nat>, found: map<nat, Value>, entries: seq<Entry>) {
    && (forall i :: i in found ==> i < |formulas|)
    && (forall i :: i in found && i !in volatile && found[i].Plain? ==> Entry(formulas[i], found[i]) in entries)
    && (forall x :: x in entries ==>
          exists i :: i in found && i !in volatile && found[i].Plain? && x == Entry(formulas[i], found[i]))
  }

  lemma EntriesFound(formulas: seq<string>, misses: seq<string>, origins: seq<nat>, evaluated: seq<Value>,
                     volatile: seq<nat>, found: map<nat, Value>, entries: seq<Entry>)
    requires Picks(formulas, origins, misses) && |evaluated| == |origins|
    requires EntriesAre(misses, origins, evaluated, volatile, |misses|, entries)
    requires found.Keys == (set i | i in origins)
    requires forall j :: 0 <= j < |origins| ==> origins[j] in found && found[origins[j]] == evaluated[j]
    ensures EntriesOf(formulas, volatile, found, entries)
  {
    forall i | i in found && i !in volatile && found[i].Plain? ensures Entry(formulas[i], found[i]) in entries {
      var j :| 0 <= j < |origins| && origins[j] == i;
      assert Storable(origins, evaluated, volatile, j);
    }
    forall x | x in entries
      ensures exists i :: i in found && i !in volatile && found[i].Plain? && x == Entry(formulas[i], found[i])
    {
      var j :| 0 <= j < |misses| && Storable(origins, evaluated, volatile, j) && x == Entry(misses[j], evaluated[j]);
      assert origins[j] in found;
    }
  }

  /** The answer of kept formula number `j`: its cache hit, or else its computed value. */
  predicate KeptAnswer(formulas: seq<string>, kept: seq<nat>, hits: map<nat, Value>, found: map<nat, Value>, j: nat, a: Answer) {
    && j < |kept| && kept[j] < |formulas| && (j in hits || kept[j] in found)
    && a == if j in hits then Present(formulas[kept[j]], hits[j], true)
            else Present(formulas[kept[j]], found[kept[j]], false)
  }

  ghost predicate Assembled(formulas: seq<string>, blocked: set<nat>, volatile: set<nat>, kept: seq<nat>,
                            hits: map<nat, Value>, found: map<nat, Value>, results: seq<Answer>) {
    && |results| == |formulas|
    && (forall i :: 0 <= i < |formulas| && i in blocked ==> results[i] == Failed(formulas[i], "NAME"))
    && (forall i :: 0 <= i < |formulas| && i in volatile ==> i in found && results[i] == Present(formulas[i], found[i], false))
    && (forall j :: 0 <= j < |kept| ==>
          kept[j] < |formulas| && KeptAnswer(formulas, kept, hits, found, j, results[kept[j]]))
  }

  ghost predicate RightAnswer(formulas: seq<string>, blocked: set<nat>, volatile: set<nat>, kept: seq<nat>,
                              hits: map<nat, Value>, found: map<nat, Value>, i: nat, a: Answer)
  {
    && i < |formulas|
    && (i in blocked ==> a == Failed(formulas[i], "NAME"))
    && (i in volatile ==> i in found && a == Present(formulas[i], found[i], false))
    && (i !in blocked && i !in volatile ==>
          var j := |Kept(blocked + volatile, i)|;
          j < |kept| && kept[j] == i && KeptAnswer(formulas, kept, hits, found, j, a))
  }

  lemma NoneKept(skip: set<nat>)
    ensures |Kept(skip, 0)| == 0
  {
  }

  lemma KeptRight(formulas: seq<string>, blocked: set<nat>, volatile: set<nat>, kept: seq<nat>,
                  hits: map<nat, Value>, found: map<nat, Value>, results: seq<Answer>, j: nat)
    requires kept == Kept(blocked + volatile, |formulas|) && |results| == |formulas| && j < |kept|
    requires forall k :: 0 <= k < |results| ==> RightAnswer(formulas, blocked, volatile, kept, hits, found, k, results[k])
    ensures kept[j] < |formulas| && KeptAnswer(formulas, kept, hits, found, j, results[kept[j]])
  {
    KeptIs(blocked + volatile, |formulas|);
    var i := kept[j];
    assert i in kept;
    assert RightAnswer(formulas, blocked, volatile, kept, hits, found, i, results[i]);
    var m := |Kept(blocked + volatile, i)|;
    assert kept[m] == i;
    assert forall a, b :: 0 <= a < b < |kept| ==> kept[a] != kept[b];
    assert m == j;
  }

  lemma AllRight(formulas: seq<string>, blocked: set<nat>, volatile: set<nat>, kept: seq<nat>,
                 hits: map<nat, Value>, found: map<nat, Value>, results: seq<Answer>)
    requires kept == Kept(blocked + volatile, |formulas|) && |results| == |formulas|
    requires forall k :: 0 <= k < |results| ==> RightAnswer(formulas, blocked, volatile, kept, hits, found, k, results[k])
    ensures Assembled(formulas, blocked, volatile, kept, hits, found, results)
  {
    hide KeptAnswer, Kept;
    forall i | 0 <= i < |formulas|
      ensures i in blocked ==> results[i] == Failed(formulas[i], "NAME")
      ensures i in volatile ==> i in found && results[i] == Present(formulas[i], found[i], false)
    {
      assert RightAnswer(formulas, blocked, volatile, kept, hits, found, i, results[i]);
    }
    forall j | 0 <= j < |kept| ensures kept[j] < |formulas| && KeptAnswer(formulas, kept, hits, found, j, results[kept[j]]) {
      KeptRight(formulas, blocked, volatile, kept, hits, found, results, j);
    }
  }

  // ---------------------------------------------------------------- what is cached, what is stored

  predicate Lookable(e: Engine, f: string) {
    !e.blocked(f) && !e.volatile(f)
  }

  /** An answer marked as cached is what the cache has; what memory has is answered with, and also what
      Redis has, if it is asked and its replies can be read. */
  ghost predicate FromCache(e: Engine, lru: map<string, Value>, redis: map<string, Value>, asked: bool, w: World,
                            formulas: seq<string>, locale: string, results: seq<Answer>)
    requires |results| == |formulas|
  {
    forall i :: 0 <= i < |formulas| && Lookable(e, formulas[i]) ==>
      var k, a := Key(formulas[i], locale), results[i];
      && (a.Result? && a.cached ==> Found(lru, redis, asked, w, k) == Some(a.value))
      && (InMemory(lru, w, k) || (w.readable >= |formulas| && Found(lru, redis, asked, w, k).Some?) ==>
            a == Result(formulas[i], Found(lru, redis, asked, w, k).value, true))
  }

  predicate Computed(e: Engine, f: string, a: Answer) {
    Lookable(e, f) && a.Result? && !a.cached
  }

  /** The entries are the values just computed for formulas that are not volatile. */
  ghost predicate EntriesAnswered(e: Engine, formulas: seq<string>, results: seq<Answer>, entries: seq<Entry>)
    requires |results| == |formulas|
  {
    && (forall i :: 0 <= i < |formulas| && Computed(e, formulas[i], results[i]) ==>
          Entry(formulas[i], results[i].value) in entries)
    && (forall x :: x in entries ==>
          exists i :: 0 <= i < |formulas| && Computed(e, formulas[i], results[i]) && x == Entry(formulas[i], results[i].value))
  }

  /** The positions are split into blocked, volatile and kept ones. */
  ghost predicate SplitUp(e: Engine, formulas: seq<string>, blocked: set<nat>, volatile: set<nat>, kept: seq<nat>) {
    && (forall i :: i in blocked <==> 0 <= i < |formulas| && e.blocked(formulas[i]))
    && (forall i :: i in volatile <==> 0 <= i < |formulas| && !e.blocked(formulas[i]) && e.volatile(formulas[i]))
    && (forall i :: i in kept <==> 0 <= i < |formulas| && Lookable(e, formulas[i]))
  }

  lemma AnsweredAt(e: Engine, locales: set<string>, formulas: seq<string>, loc: string, blocked: set<nat>,
                   volatile: set<nat>, kept: seq<nat>, hits: map<nat, Value>, found: map<nat, Value>,
                   results: seq<Answer>, i: nat)
    requires SplitUp(e, formulas, blocked, volatile, kept) && i < |formulas|
    requires Assembled(formulas, blocked, volatile, kept, hits, found, results)
    requires HitsSound(e, locales, formulas, loc, kept, hits) && FoundSound(e, formulas, loc, found)
    ensures AnswersOrMeets(e, locales, formulas[i], loc, results[i])
  {
    if i in volatile {
      ComputedAnswers(e, formulas[i], loc, found[i]);
    } else if i !in blocked {
      assert i in kept;
      var j :| 0 <= j < |kept| && kept[j] == i;
      assert KeptAnswer(formulas, kept, hits, found, j, results[kept[j]]);
      if j in hits {
        assert EntrySound(e, locales, Key(formulas[i], loc), hits[j]);
      } else {
        ComputedAnswers(e, formulas[i], loc, found[i]);
      }
    }
  }

  lemma CachedAt(e: Engine, lru: map<string, Value>, redis: map<string, Value>, asked: bool, w: World, locales: set<string>,
                 formulas: seq<string>, loc: string, kept: seq<nat>, picked: seq<string>, hits: map<nat, Value>,
                 found: map<nat, Value>, results: seq<Answer>, j: nat)
    requires Picks(formulas, kept, picked) && |picked| <= |formulas| == |results| && j < |kept|
    requires KeptAnswer(formulas, kept, hits, found, j, results[kept[j]])
    requires HitsSound(e, locales, formulas, loc, kept, hits) && HitsFound(lru, redis, asked, w, picked, loc, hits)
    ensures
      var i := kept[j];
      var k, a := Key(formulas[i], loc), results[i];
      && (a.Result? && a.cached ==> Found(lru, redis, asked, w, k) == Some(a.value))
      && (InMemory(lru, w, k) || (w.readable >= |formulas| && Found(lru, redis, asked, w, k).Some?) ==>
            a == Result(formulas[i], Found(lru, redis, asked, w, k).value, true))
  {
    hide Key, Evaluated;
    assert picked[j] == formulas[kept[j]];
    if j in hits {
      assert EntrySound(e, locales, Key(formulas[kept[j]], loc), hits[j]);
    }
  }

  lemma AllFromCache(e: Engine, lru: map<string, Value>, redis: map<string, Value>, asked: bool, w: World,
                     locales: set<string>, formulas: seq<string>, loc: string, blocked: set<nat>, volatile: set<nat>,
                     kept: seq<nat>, picked: seq<string>, hits: map<nat, Value>, found: map<nat, Value>, results: seq<Answer>)
    requires SplitUp(e, formulas, blocked, volatile, kept) && Picks(formulas, kept, picked) && |picked| <= |formulas|
    requires Assembled(formulas, blocked, volatile, kept, hits, found, results)
    requires HitsSound(e, locales, formulas, loc, kept, hits) && HitsFound(lru, redis, asked, w, picked, loc, hits)
    ensures FromCache(e, lru, redis, asked, w, formulas, loc, results)
  {
    hide HitsSound, HitsFound, KeptAnswer, Key;
    forall i | 0 <= i < |formulas| && Lookable(e, formulas[i])
      ensures
        var k, a := Key(formulas[i], loc), results[i];
        && (a.Result? && a.cached ==> Found(lru, redis, asked, w, k) == Some(a.value))
        && (InMemory(lru, w, k) || (w.readable >= |formulas| && Found(lru, redis, asked, w, k).Some?) ==>
              a == Result(formulas[i], Found(lru, redis, asked, w, k).value, true))
    {
      assert i in kept;
      var j :| 0 <= j < |kept| && kept[j] == i;
      CachedAt(e, lru, redis, asked, w, locales, formulas, loc, kept, picked, hits, found, results, j);
    }
  }

  lemma ComputedAt(e: Engine, formulas: seq<string>, blocked: set<nat>, volatile: set<nat>, kept: seq<nat>,
                   hits: map<nat, Value>, found: map<nat, Value>, results: seq<Answer>, i: nat)
    requires SplitUp(e, formulas, blocked, volatile, kept) && i < |formulas|
    requires Assembled(formulas, blocked, volatile, kept, hits, found, results)
    requires forall j, k :: 0 <= j < k < |kept| ==> kept[j] != kept[k]
    requires forall i :: i in found <==> i in volatile || IsMissed(kept, hits, i)
    ensures Computed(e, formulas[i], results[i]) <==> i in found && i !in volatile && found[i].Plain?
    ensures Computed(e, formulas[i], results[i]) ==> results[i].value == found[i]
  {
    if i in kept {
      var j :| 0 <= j < |kept| && kept[j] == i;
      assert KeptAnswer(formulas, kept, hits, found, j, results[kept[j]]);
      assert IsMissed(kept, hits, i) <==> j !in hits;
    } else {
      assert !Lookable(e, formulas[i]);
    }
  }

  lemma AllComputed(e: Engine, formulas: seq<string>, blocked: set<nat>, volatile: set<nat>, list: seq<nat>,
                    kept: seq<nat>, hits: map<nat, Value>, found: map<nat, Value>, results: seq<Answer>, entries: seq<Entry>)
    requires SplitUp(e, formulas, blocked, volatile, kept)
    requires forall i :: i in list <==> i in volatile
    requires Assembled(formulas, blocked, volatile, kept, hits, found, results)
    requires forall j, k :: 0 <= j < k < |kept| ==> kept[j] != kept[k]
    requires forall i :: i in found <==> i in volatile || IsMissed(kept, hits, i)
    requires EntriesOf(formulas, list, found, entries)
    ensures EntriesAnswered(e, formulas, results, entries)
  {
    hide SplitUp, IsMissed;
    assert |results| == |formulas|;
    forall i | 0 <= i < |formulas| && Computed(e, formulas[i], results[i])
      ensures results[i].Result? && Entry(formulas[i], results[i].value) in entries
    {
      ComputedAt(e, formulas, blocked, volatile, kept, hits, found, results, i);
    }
    forall x | x in entries
      ensures exists i :: 0 <= i < |formulas| && Computed(e, formulas[i], results[i]) && x == Entry(formulas[i], results[i].value)
    {
      var i :| i in found && i !in list && found[i].Plain? && x == Entry(formulas[i], found[i]);
      ComputedAt(e, formulas, blocked, volatile, kept, hits, found, results, i);
    }
  }

  lemma KeptSplit(e: Engine, formulas: seq<string>, blocked: set<nat>, list: seq<nat>, volatile: set<nat>, kept: seq<nat>)
    requires forall i: nat :: i in blocked <==> i < |formulas| && e.blocked(formulas[i])
    requires forall i: nat :: i in list <==> i < |formulas| && i !in blocked && e.volatile(formulas[i])
    requires volatile == (set i | i in list) && kept == Kept(blocked + volatile, |formulas|)
    ensures SplitUp(e, formulas, blocked, volatile, kept) && blocked !! volatile
    ensures forall i :: i in list <==> i in volatile
    ensures forall i :: i in kept ==> i < |formulas| && i !in blocked && i !in list
    ensures forall j, k :: 0 <= j < k < |kept| ==> kept[j] < kept[k]
    ensures forall k :: 0 <= k < |list| ==> list[k] < |formulas|
  {
    KeptIs(blocked + volatile, |formulas|);
    assert forall k :: 0 <= k < |list| ==> list[k] in list;
  }

  lemma HitsOfKept(e: Engine, locales: set<string>, formulas: seq<string>, loc: string, kept: seq<nat>, picked: seq<string>,
                   hits: map<nat, Value>)
    requires Picks(formulas, kept, picked)
    requires forall i :: i in hits ==> i < |picked| && EntrySound(e, locales, Key(picked[i], loc), hits[i])
    ensures HitsSound(e, locales, formulas, loc, kept, hits)
  {
    hide EntrySound, Key;
  }

  /** What the response is, all together. */
  lemma AllAnswered(e: Engine, lru: map<string, Value>, redis: map<string, Value>, asked: bool, w: World,
                    locales: set<string>, formulas: seq<string>, loc: string, blocked: set<nat>, volatile: set<nat>,
                    list: seq<nat>, kept: seq<nat>, picked: seq<string>, hits: map<nat, Value>, found: map<nat, Value>,
                    results: seq<Answer>, entries: seq<Entry>)
    requires SplitUp(e, formulas, blocked, volatile, kept) && kept == Kept(blocked + volatile, |formulas|)
    requires Picks(formulas, kept, picked) && forall i :: i in list <==> i in volatile
    requires Assembled(formulas, blocked, volatile, kept, hits, found, results)
    requires HitsSound(e, locales, formulas, loc, kept, hits) && HitsFound(lru, redis, asked, w, picked, loc, hits)
    requires FoundSound(e, formulas, loc, found)
    requires forall i :: i in found <==> i in volatile || IsMissed(kept, hits, i)
    requires EntriesOf(formulas, list, found, entries)
    ensures |results| == |formulas| && Answered(e, locales, formulas, loc, results)
    ensures FromCache(e, lru, redis, asked, w, formulas, loc, results)
    ensures EntriesAnswered(e, formulas, results, entries)
  {
    hide FromCache, EntriesAnswered, SplitUp, HitsSound, HitsFound, FoundSound, EntriesOf, IsMissed, KeptAnswer, Kept, AnswersOrMeets;
    KeptIs(blocked + volatile, |formulas|);
    KeptFew(blocked + volatile, |formulas|);
    forall i | 0 <= i < |formulas| ensures AnswersOrMeets(e, locales, formulas[i], loc, results[i]) {
      AnsweredAt(e, locales, formulas, loc, blocked, volatile, kept, hits, found, results, i);
    }
    AllFromCache(e, lru, redis, asked, w, locales, formulas, loc, blocked, volatile, kept, picked, hits, found, results);
    AllComputed(e, formulas, blocked, volatile, list, kept, hits, found, results, entries);
  }

  lemma {:induction false} KeptFew(skip: set<nat>, n: nat)
    ensures |Kept(skip, n)| <= n
  {
    if n > 0 {
      KeptFew(skip, n - 1);
    }
  }

  // ---------------------------------------------------------------- the handler

  class Handler {
    const engine: Engine
    const cache: Cache

    constructor (engine: Engine)
      ensures cache.Valid() && fresh(cache) && cache.engine == engine && this.engine == engine
    {
      this.engine := engine;
      cache := new Cache(engine);
    }

    /** POST /execute without cell data: one formula on its own; None when the pool rejects. */
    method Execute(formula: string, locale: string, w: World) returns (answer: Option<Answer>)
      requires cache.Valid() && cache.engine == engine && TimelessUnlessVolatile(engine)
      modifies cache
      ensures cache.Valid() && old(cache.locales) <= cache.locales <= old(cache.locales) + {locale}
      ensures w.accepted ==> answer.Some?
      ensures answer.Some? ==> AnswersOrMeets(engine, old(cache.locales), formula, locale, answer.value)
      ensures answer.Some? && NoColons(old(cache.locales) + {locale}) ==> Answers(engine, formula, locale, answer.value)
      ensures InMemory(old(cache.lru), w, Key(formula, locale)) && Lookable(engine, formula) ==>
        answer == Some(Result(formula, old(cache.lru)[Key(formula, locale)], true))
      ensures answer.Some? && Computed(engine, formula, answer.value) ==>
        && (Key(formula, locale), answer.value.value) in cache.lru.Items
        && (w.ready && w.written ==> (Key(formula, locale), answer.value.value) in cache.redis.Items)
    {
      if engine.blocked(formula) {
        return Some(Failed(formula, "NAME"));
      }
      var skipCache := engine.volatile(formula);
      ghost var locales := cache.locales;
      if !skipCache {
        var hit := cache.Get(formula, locale, w);
        if hit.Some? {
          answer := Some(Present(formula, hit.value, true));
          OwnOrMet(engine, locales, formula, locale, answer.value);
          return;
        }
      }
      if !w.accepted {
        return None;
      }
      var v := EvalOne(formula, locale);
      ComputedAnswers(engine, formula, locale, v);
      cache.Interference(w.gone, w.ready);
      if v.Plain? && !skipCache {
        cache.Set(formula, locale, v, w.written);
      }
      answer := Some(Present(formula, v, false));
    }

    method BlockedIndices(formulas: seq<string>) returns (blocked: set<nat>)
      ensures forall i: nat :: i in blocked <==> i < |formulas| && engine.blocked(formulas[i])
    {
      blocked := {};
      for i := 0 to |formulas|
        invariant forall k: nat :: k in blocked <==> k < i && engine.blocked(formulas[k])
      {
        if engine.blocked(formulas[i]) {
          blocked := blocked + {i};
        }
      }
    }

    /** The volatile ones among the rest, in the order they were added. */
    method VolatileIndices(formulas: seq<string>, blocked: set<nat>) returns (indices: seq<nat>)
      ensures DistinctIndices(indices)
      ensures forall i: nat ::
        i in indices <==> (i < |formulas| && i !in blocked && engine.volatile(formulas[i]))
    {
      indices := [];
      for i := 0 to |formulas|
        invariant DistinctIndices(indices)
        invariant forall k :: 0 <= k < |indices| ==> indices[k] < i
        invariant forall k: nat :: k in indices <==> (k < i && k !in blocked && engine.volatile(formulas[k]))
      {
        if i !in blocked && engine.volatile(formulas[i]) {
          indices := indices + [i];
        }
      }
    }

    method Pick(formulas: seq<string>, skip: set<nat>) returns (picked: seq<string>, indices: seq<nat>)
      ensures indices == Kept(skip, |formulas|) && Picks(formulas, indices, picked)
    {
      picked, indices := [], [];
      for i := 0 to |formulas|
        invariant indices == Kept(skip, i) && Picks(formulas, indices, picked)
      {
        if i !in skip {
          picked := picked + [formulas[i]];
          indices := indices + [i];
        }
      }
    }

    /** The cache is asked for the formulas, if there are any. */
    method Lookup(picked: seq<string>, locale: string, w: World) returns (hits: map<nat, Value>)
      requires cache.Valid()
      modifies cache
      ensures cache.Valid() && cache.locales == old(cache.locales)
      ensures HitsFound(old(cache.lru), old(cache.redis), old(cache.redisReady) && w.reachable, w, picked, locale, hits)
      ensures cache.HitsFor(picked, locale, hits)
      ensures FromEither(old(cache.lru), old(cache.redis), cache.lru) && Within(old(cache.redis), cache.redis)
    {
      hits := map[];
      if |picked| > 0 {
        hits := cache.Mget(picked, locale, w);
      }
    }

    /** The formulas to evaluate: the kept ones that were not cached, then the volatile ones. */
    method Misses(formulas: seq<string>, kept: seq<nat>, picked: seq<string>, hits: map<nat, Value>,
                  volatile: seq<nat>)
      returns (misses: seq<string>, origins: seq<nat>)
      requires Picks(formulas, kept, picked)
      requires forall j, k :: 0 <= j < k < |kept| ==> kept[j] < kept[k]
      requires DistinctIndices(volatile) && (forall k :: 0 <= k < |volatile| ==> volatile[k] < |formulas|)
      requires forall i :: i in kept ==> i !in volatile
      ensures Picks(formulas, origins, misses) && DistinctIndices(origins)
      ensures forall i :: i in origins <==> i in volatile || IsMissed(kept, hits, i)
    {
      misses, origins := [], [];
      for j := 0 to |kept|
        invariant Picks(formulas, origins, misses) && DistinctIndices(origins)
        invariant forall i :: i in origins ==> i in kept[..j] && IsMissed(kept, hits, i)
        invariant forall k :: 0 <= k < j && k !in hits ==> kept[k] in origins
      {
        assert kept[..j + 1] == kept[..j] + [kept[j]];
        assert kept[j] !in kept[..j];
        if j !in hits {
          misses := misses + [picked[j]];
          origins := origins + [kept[j]];
        }
      }
      assert kept[..|kept|] == kept;
      for k := 0 to |volatile|
        invariant Picks(formulas, origins, misses) && DistinctIndices(origins)
        invariant forall i :: i in origins ==> IsMissed(kept, hits, i) || i in volatile[..k]
        invariant forall i :: i in volatile[..k] ==> i in origins
        invariant forall j :: 0 <= j < |kept| && j !in hits ==> kept[j] in origins
      {
        assert volatile[..k + 1] == volatile[..k] + [volatile[k]];
        assert volatile[k] !in volatile[..k] by {
          assert forall m :: 0 <= m < k ==> volatile[m] != volatile[k];
        }
        assert volatile[k] in volatile;
        misses := misses + [formulas[volatile[k]]];
        origins := origins + [volatile[k]];
      }
      assert volatile[..|volatile|] == volatile;
    }

    /** One formula in the worker; a volatile result may depend on the moment. */
    method EvalOne(f: string, locale: string) returns (v: Value)
      ensures Evaluated(engine, f, locale, v)
    {
      var t: nat :| 0 <= t;
      v := engine.eval(f, locale, t);
      assert EvaluatedAt(engine, f, locale, t, v);
    }

    method EvalOneWithData(f: string, data: string, locale: string) returns (v: Value)
      ensures EvaluatedWithData(engine, f, data, locale, v)
    {
      var t: nat :| 0 <= t;
      v := engine.evalWithData(f, data, locale, t);
      assert EvaluatedWithDataAt(engine, f, data, locale, t, v);
    }

    /** pool.evalBatch: None when the pool rejects the request. */
    method EvalBatch(formulas: seq<string>, locale: string, accepted: bool) returns (values: Option<seq<Value>>)
      ensures values.Some? <==> accepted
      ensures values.Some? ==> |values.value| == |formulas|
      ensures values.Some? ==>
        forall j :: 0 <= j < |formulas| ==> Evaluated(engine, formulas[j], locale, values.value[j])
    {
      if !accepted {
        return None;
      }
      var vs: seq<Value> := [];
      for j := 0 to |formulas|
        invariant |vs| == j
        invariant forall k :: 0 <= k < j ==> Evaluated(engine, formulas[k], locale, vs[k])
      {
        var v := EvalOne(formulas[j], locale);
        vs := vs + [v];
      }
      values := Some(vs);
    }

    /** pool.evalBatchWithData: None when the pool rejects the request. */
    method EvalBatchWithData(formulas: seq<string>, data: string, locale: string, accepted: bool)
      returns (values: Option<seq<Value>>)
      ensures values.Some? <==> accepted
      ensures values.Some? ==> |values.value| == |formulas|
      ensures values.Some? ==>
        forall j :: 0 <= j < |formulas| ==> EvaluatedWithData(engine, formulas[j], data, locale, values.value[j])
    {
      if !accepted {
        return None;
      }
      var vs: seq<Value> := [];
      for j := 0 to |formulas|
        invariant |vs| == j
        invariant forall k :: 0 <= k < j ==> EvaluatedWithData(engine, formulas[k], data, locale, vs[k])
      {
        var v := EvalOneWithData(formulas[j], data, locale);
        vs := vs + [v];
      }
      values := Some(vs);
    }

    /** Everything new but errors and volatile results goes to the cache, and nothing else does. */
    method Store(misses: seq<string>, origins: seq<nat>, evaluated: seq<Value>, volatile: seq<nat>, locale: string,
                 written: bool)
      returns (ghost entries: seq<Entry>)
      requires cache.Valid() && cache.engine == engine && TimelessUnlessVolatile(engine)
      requires |misses| == |origins| == |evaluated|
      requires forall j :: 0 <= j < |misses| ==> Evaluated(engine, misses[j], locale, evaluated[j])
      requires forall j :: 0 <= j < |misses| && origins[j] !in volatile ==> !engine.volatile(misses[j])
      modifies cache
      ensures cache.Valid() && old(cache.locales) <= cache.locales <= old(cache.locales) + {locale}
      ensures EntriesAre(misses, origins, evaluated, volatile, |misses|, entries)
      ensures GrownBy(old(cache.lru), cache.lru, entries, locale) && GrownBy(old(cache.redis), cache.redis, entries, locale)
      ensures old(cache.redisReady) && written ==> AllIn(cache.redis, entries, locale)
      ensures entries != [] ==> Key(entries[|entries| - 1].formula, locale) in cache.lru
    {
      var toCache: seq<Entry> := [];
      for j := 0 to |misses|
        invariant cache.Valid() && unchanged(cache) && AllCacheable(engine, toCache, locale)
        invariant EntriesAre(misses, origins, evaluated, volatile, j, toCache)
      {
        NextEntry(misses, origins, evaluated, volatile, j, toCache);
        if evaluated[j].Plain? && origins[j] !in volatile {
          toCache := toCache + [Entry(misses[j], evaluated[j])];
        }
      }
      entries := toCache;
      if |toCache| > 0 {
        cache.Mset(toCache, locale, written);
      }
    }

    /** Evaluated values by original position. */
    method ByOrigin(origins: seq<nat>, evaluated: seq<Value>) returns (found: map<nat, Value>)
      requires |origins| == |evaluated| && DistinctIndices(origins)
      ensures found.Keys == (set i | i in origins)
      ensures forall j :: 0 <= j < |origins| ==> origins[j] in found && found[origins[j]] == evaluated[j]
    {
      found := map[];
      for j := 0 to |origins|
        invariant found.Keys == (set i | i in origins[..j])
        invariant forall k :: 0 <= k < j ==> origins[k] in found && found[origins[k]] == evaluated[k]
      {
        assert origins[..j + 1] == origins[..j] + [origins[j]];
        found := found[origins[j] := evaluated[j]];
      }
      assert origins[..|origins|] == origins;
    }

    /** The answer at position `i`; `cacheIdx` counts the kept formulas before it. */
    method AnswerAt(formulas: seq<string>, blocked: set<nat>, volatile: set<nat>, kept: seq<nat>,
                    hits: map<nat, Value>, found: map<nat, Value>, i: nat, cacheIdx: nat)
      returns (answer: Answer, next: nat)
      requires i < |formulas| && kept == Kept(blocked + volatile, |formulas|) && cacheIdx == |Kept(blocked + volatile, i)|
      requires blocked !! volatile && forall i :: i in volatile ==> i in found
      requires forall j :: 0 <= j < |kept| && j !in hits ==> kept[j] in found
      ensures RightAnswer(formulas, blocked, volatile, kept, hits, found, i, answer)
      ensures next == |Kept(blocked + volatile, i + 1)|
    {
      next := cacheIdx;
      if i in blocked {
        answer := Failed(formulas[i], "NAME");
      } else if i in volatile {
        answer := Present(formulas[i], found[i], false);
      } else {
        KeptAt(blocked + volatile, i, |formulas|);
        if cacheIdx in hits {
          answer := Present(formulas[i], hits[cacheIdx], true);
        } else {
          answer := Present(formulas[i], found[i], false);
        }
        next := cacheIdx + 1;
      }
    }

    /** The answers in request order, walking the cache hits alongside. */
    method BuildResponse(formulas: seq<string>, blocked: set<nat>, volatile: set<nat>, kept: seq<nat>,
                         hits: map<nat, Value>, found: map<nat, Value>)
      returns (results: seq<Answer>)
      requires kept == Kept(blocked + volatile, |formulas|) && blocked !! volatile
      requires forall i :: i in volatile ==> i in found
      requires forall j :: 0 <= j < |kept| && j !in hits ==> kept[j] in found
      ensures Assembled(formulas, blocked, volatile, kept, hits, found, results)
    {
      hide RightAnswer, Kept;
      results := [];
      var cacheIdx := 0;
      assert |Kept(blocked + volatile, 0)| == 0 by { NoneKept(blocked + volatile); }
      for i := 0 to |formulas|
        invariant |results| == i && cacheIdx == |Kept(blocked + volatile, i)|
        invariant forall k :: 0 <= k < i ==> RightAnswer(formulas, blocked, volatile, kept, hits, found, k, results[k])
      {
        var answer;
        answer, cacheIdx := AnswerAt(formulas, blocked, volatile, kept, hits, found, i, cacheIdx);
        results := results + [answer];
      }
      AllRight(formulas, blocked, volatile, kept, hits, found, results);
    }

    /** The evaluated values by original position, and what of them was stored; None when the pool
        rejects. */
    method Evaluate(formulas: seq<string>, locale: string, misses: seq<string>, origins: seq<nat>,
                    volatile: seq<nat>, w: World)
      returns (found: Option<map<nat, Value>>, ghost entries: seq<Entry>)
      requires cache.Valid() && cache.engine == engine && TimelessUnlessVolatile(engine)
      requires Picks(formulas, origins, misses) && DistinctIndices(origins)
      requires forall j :: 0 <= j < |misses| && origins[j] !in volatile ==> !engine.volatile(misses[j])
      modifies cache
      ensures cache.Valid() && old(cache.locales) <= cache.locales <= old(cache.locales) + {locale}
      ensures found.Some? <==> w.accepted || misses == []
      ensures found.Some? ==> FoundSound(engine, formulas, locale, found.value)
      ensures found.Some? ==> forall i :: i in origins <==> i in found.value
      ensures found.Some? ==> EntriesOf(formulas, volatile, found.value, entries)
      ensures GrownBy(old(cache.lru), cache.lru, entries, locale) && GrownBy(old(cache.redis), cache.redis, entries, locale)
      ensures found.Some? && w.ready && w.written ==> AllIn(cache.redis, entries, locale)
    {
      var evaluated: seq<Value> := [];
      entries := [];
      if |misses| > 0 {
        var values := EvalBatch(misses, locale, w.accepted);
        cache.Interference(w.gone, w.ready);
        if values.None? {
          return None, [];
        }
        evaluated := values.value;
        entries := Store(misses, origins, evaluated, volatile, locale, w.written);
      }
      var byOrigin := ByOrigin(origins, evaluated);
      forall i | i in byOrigin ensures i < |formulas| && Evaluated(engine, formulas[i], locale, byOrigin[i]) {
        var j :| 0 <= j < |origins| && origins[j] == i;
      }
      EntriesFound(formulas, misses, origins, evaluated, volatile, byOrigin, entries);
      found := Some(byOrigin);
    }

    /** Batch evaluation without cell data: None when something is to be evaluated and the pool
        rejects, otherwise every formula gets, at its own position, the answer it would get alone, if
        no locale in use has a colon; with one, a cached value may be that of another request with the
        same key.  What the cache has is answered from it, and what is computed is stored. */
    method ExecuteBatch(formulas: seq<string>, locale: string, w: World)
      returns (response: Option<seq<Answer>>, ghost entries: seq<Entry>)
      requires cache.Valid() && cache.engine == engine && TimelessUnlessVolatile(engine)
      modifies cache
      ensures cache.Valid() && old(cache.locales) <= cache.locales <= old(cache.locales) + {locale}
      ensures w.accepted ==> response.Some?
      ensures response.Some? ==> |response.value| == |formulas|
      ensures response.Some? && NoColons(old(cache.locales) + {locale}) ==>
        forall i :: 0 <= i < |formulas| ==> Answers(engine, formulas[i], locale, response.value[i])
      ensures response.Some? ==>
        forall i :: 0 <= i < |formulas| ==>
          AnswersOrMeets(engine, old(cache.locales), formulas[i], locale, response.value[i])
      ensures response.Some? ==>
        FromCache(engine, old(cache.lru), old(cache.redis), old(cache.redisReady) && w.reachable, w, formulas, locale, response.value)
      ensures response.Some? ==> EntriesAnswered(engine, formulas, response.value, entries)
      ensures forall k :: k in cache.redis ==>
        (k in old(cache.redis) && cache.redis[k] == old(cache.redis)[k]) || FromEntry(entries, locale, k, cache.redis[k])
      ensures response.Some? && w.ready && w.written ==> AllIn(cache.redis, entries, locale)
    {
      hide FromCache, EntriesAnswered, HitsFound, FoundSound, EntriesOf, Assembled, Kept, AnswersOrMeets, AllIn, Sound,
        EntrySound, GrownBy, Answers, TimelessUnlessVolatile, SplitUp, HitsSound, IsMissed, Key, FromEntry;
      var blocked := BlockedIndices(formulas);
      var volatileList := VolatileIndices(formulas, blocked);
      var volatile := set i | i in volatileList;
      var picked, kept := Pick(formulas, blocked + volatile);
      KeptSplit(engine, formulas, blocked, volatileList, volatile, kept);
      ghost var locales := cache.locales;
      var hits := Lookup(picked, locale, w);
      HitsOfKept(engine, locales, formulas, locale, kept, picked, hits);
      var misses, origins := Misses(formulas, kept, picked, hits, volatileList);
      MissedAre(kept, hits);
      MissesTimeless(formulas, blocked, volatileList, misses, origins);
      var found;
      found, entries := Evaluate(formulas, locale, misses, origins, volatileList, w);
      if found.None? {
        return None, entries;
      }
      var results := BuildResponse(formulas, blocked, volatile, kept, hits, found.value);
      AllAnswered(engine, old(cache.lru), old(cache.redis), old(cache.redisReady) && w.reachable, w, locales, formulas,
                  locale, blocked, volatile, volatileList, kept, picked, hits, found.value, results, entries);
      AllOwn(engine, locales, formulas, locale, results);
      response := Some(results);
    }

    lemma MissesTimeless(formulas: seq<string>, blocked: set<nat>, volatile: seq<nat>,
                         misses: seq<string>, origins: seq<nat>)
      requires Picks(formulas, origins, misses)
      requires forall i: nat ::
        i in volatile <==> (i < |formulas| && i !in blocked && engine.volatile(formulas[i]))
      requires forall i :: i in origins ==> i !in blocked
      ensures forall j :: 0 <= j < |misses| && origins[j] !in volatile ==> !engine.volatile(misses[j])
    {
      forall j | 0 <= j < |misses| && origins[j] !in volatile ensures !engine.volatile(misses[j]) {
        assert origins[j] in origins;
      }
    }

    /** Batch evaluation over cell data: None when the pool rejects, otherwise blocked formulas
        fail, every other one gets its own value, and the cache is not touched. */
    method ExecuteBatchWithData(formulas: seq<string>, data: string, locale: string, accepted: bool)
      returns (response: Option<seq<Answer>>)
      ensures accepted ==> response.Some?
      ensures response.Some? ==> |response.value| == |formulas|
      ensures response.Some? ==>
        forall i :: 0 <= i < |formulas| ==> AnswersWithData(engine, formulas[i], data, locale, response.value[i])
    {
      var blocked := BlockedIndices(formulas);
      var picked, kept := Pick(formulas, blocked);
      var evaluated: seq<Value> := [];
      if |picked| > 0 {
        var values := EvalBatchWithData(picked, data, locale, accepted);
        if values.None? {
          return None;
        }
        evaluated := values.value;
      }
      var results := BuildWithData(formulas, data, locale, blocked, kept, evaluated);
      response := Some(results);
    }

    method BuildWithData(formulas: seq<string>, data: string, locale: string, blocked: set<nat>,
                         kept: seq<nat>, evaluated: seq<Value>)
      returns (results: seq<Answer>)
      requires kept == Kept(blocked, |formulas|) && |evaluated| == |kept|
      requires forall i: nat :: i < |formulas| ==> (i in blocked <==> engine.blocked(formulas[i]))
      requires forall j :: 0 <= j < |kept| ==>
        kept[j] < |formulas| && EvaluatedWithData(engine, formulas[kept[j]], data, locale, evaluated[j])
      ensures |results| == |formulas|
      ensures forall i :: 0 <= i < |formulas| ==> AnswersWithData(engine, formulas[i], data, locale, results[i])
    {
      results := [];
      var evalIdx := 0;
      for i := 0 to |formulas|
        invariant |results| == i && evalIdx == |Kept(blocked, i)|
        invariant forall k :: 0 <= k < i ==> AnswersWithData(engine, formulas[k], data, locale, results[k])
      {
        var answer;
        if i in blocked {
          answer := Failed(formulas[i], "NAME");
        } else {
          KeptAt(blocked, i, |formulas|);
          answer := Present(formulas[i], evaluated[evalIdx], false);
          DataAnswers(engine, formulas[i], data, locale, evaluated[evalIdx]);
          evalIdx := evalIdx + 1;
        }
        results := results + [answer];
      }
    }
  }
}

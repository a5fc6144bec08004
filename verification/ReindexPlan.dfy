// Re-indexing a document: which chunks keep their embedding, and what the table of chunks holds
// once the plan has been carried out.
module ReindexPlan {
  import opened Wrappers

  type Id = string
  type Hash = string
  type Vector = seq<real>

  /** A chunk of the new text: its content, the text to embed for it, its place and its section. */
  datatype NewChunk = NewChunk(content: string, text: string, index: nat, section: Option<Id>)

  datatype Existing = Existing(id: Id, hash: Option<Hash>, embedding: Vector)

  datatype Reuse = Reuse(id: Id, index: nat, embedding: Vector, hash: Hash)

  datatype Embed = Embed(chunk: NewChunk, hash: Hash)

  /** SHA-256 is a parameter. */
  datatype Task = Task(hashOf: string -> Hash, news: seq<NewChunk>, existing: seq<Existing>)

  function HashAt(t: Task, k: nat): Hash
    requires k < |t.news|
  {
    t.hashOf(t.news[k].content)
  }

  // ---------------------------------------------------------------- what is reused

  predicate Usable(e: Existing, h: Hash) {
    e.hash == Some(h) && h != ""
  }

  /** The last of the first `n` existing chunks with this hash; an empty hash counts as none. */
  function LastWith(existing: seq<Existing>, h: Hash, n: nat): (r: Option<nat>)
    requires n <= |existing|
    ensures r.Some? ==> r.value < n && Usable(existing[r.value], h)
    ensures r.None? ==> forall e :: 0 <= e < n ==> !Usable(existing[e], h)
  {
    if n == 0 then None
    else if Usable(existing[n - 1], h) then Some(n - 1)
    else LastWith(existing, h, n - 1)
  }

  predicate FirstWithHash(t: Task, k: nat)
    requires k < |t.news|
  {
    forall j :: 0 <= j < k ==> HashAt(t, j) != HashAt(t, k)
  }

  /** New chunk `k` reuses the last existing chunk with its hash, if no earlier new chunk has that
      hash. */
  function Choice(t: Task, k: nat): (r: Option<nat>)
    requires k < |t.news|
    ensures r.Some? ==> r.value < |t.existing| && Usable(t.existing[r.value], HashAt(t, k))
  {
    if FirstWithHash(t, k) then LastWith(t.existing, HashAt(t, k), |t.existing|) else None
  }

  /** New chunk `k` reuses existing chunk `e` exactly if it has a hash, `e` has the same one, no existing
      chunk after `e` has it and no new chunk before `k`. */
  lemma ChoiceIff(t: Task, k: nat, e: nat)
    requires k < |t.news| && e < |t.existing|
    ensures Choice(t, k) == Some(e) <==>
      var h := t.hashOf(t.news[k].content);
      && h != "" && t.existing[e].hash == Some(h)
      && (forall i :: e < i < |t.existing| ==> t.existing[i].hash != Some(h))
      && (forall j :: 0 <= j < k ==> t.hashOf(t.news[j].content) != h)
  {
    var h := t.hashOf(t.news[k].content);
    LastWithIs(t.existing, h, |t.existing|, e);
    assert FirstWithHash(t, k) <==> forall j :: 0 <= j < k ==> t.hashOf(t.news[j].content) != h by {
      assert forall j :: 0 <= j < k ==> HashAt(t, j) == t.hashOf(t.news[j].content);
    }
  }

  lemma {:induction false} LastWithIs(existing: seq<Existing>, h: Hash, n: nat, e: nat)
    requires e < n <= |existing|
    ensures LastWith(existing, h, n) == Some(e) <==>
      h != "" && existing[e].hash == Some(h) && forall i :: e < i < n ==> existing[i].hash != Some(h)
  {
    if e < n - 1 {
      LastWithIs(existing, h, n - 1, e);
    }
  }

  /** No existing chunk is reused twice. */
  lemma ReusedOnce(t: Task, j: nat, k: nat)
    requires j < k < |t.news| && Choice(t, j).Some? && Choice(t, k).Some?
    ensures Choice(t, j) != Choice(t, k)
  {
    assert HashAt(t, j) != HashAt(t, k);
  }

  /** A chunk is embedded anew only if nothing has its hash or an earlier chunk took it. */
  lemma EmbeddedOnlyIfNeeded(t: Task, k: nat)
    requires k < |t.news| && Choice(t, k).None? && HashAt(t, k) != ""
    ensures forall e :: 0 <= e < |t.existing| && t.existing[e].hash == Some(HashAt(t, k)) ==>
      exists j :: 0 <= j < k && HashAt(t, j) == HashAt(t, k)
  {
    forall e | 0 <= e < |t.existing| && t.existing[e].hash == Some(HashAt(t, k))
      ensures exists j :: 0 <= j < k && HashAt(t, j) == HashAt(t, k)
    {
      assert Usable(t.existing[e], HashAt(t, k));
    }
  }

  function ReuseAt(t: Task, k: nat): Reuse
    requires k < |t.news| && Choice(t, k).Some?
  {
    var e := t.existing[Choice(t, k).value];
    Reuse(e.id, t.news[k].index, e.embedding, HashAt(t, k))
  }

  /** Of the first `n` new chunks those that reuse, and those that are embedded, each in order. */
  function Reused(t: Task, n: nat): seq<Reuse>
    requires n <= |t.news|
  {
    if n == 0 then [] else Reused(t, n - 1) + if Choice(t, n - 1).Some? then [ReuseAt(t, n - 1)] else []
  }

  function Embedded(t: Task, n: nat): seq<Embed>
    requires n <= |t.news|
  {
    if n == 0 then []
    else Embedded(t, n - 1) + if Choice(t, n - 1).None? then [Embed(t.news[n - 1], HashAt(t, n - 1))] else []
  }

  /** The chunks split: as many as there are, reused and embedded. */
  lemma {:induction false} SplitCount(t: Task, n: nat)
    requires n <= |t.news|
    ensures |Reused(t, n)| + |Embedded(t, n)| == n
  {
    if n > 0 {
      SplitCount(t, n - 1);
    }
  }

  /** Where among the reused, or the embedded, chunk `k` is. */
  lemma {:induction false} PlaceOf(t: Task, k: nat, n: nat)
    requires k < n <= |t.news|
    ensures Choice(t, k).Some? ==> |Reused(t, k)| < |Reused(t, n)| && Reused(t, n)[|Reused(t, k)|] == ReuseAt(t, k)
    ensures Choice(t, k).None? ==>
      |Embedded(t, k)| < |Embedded(t, n)| && Embedded(t, n)[|Embedded(t, k)|] == Embed(t.news[k], HashAt(t, k))
  {
    if k < n - 1 {
      PlaceOf(t, k, n - 1);
    }
  }

  /** And every entry of the two lists is of that kind. */
  lemma {:induction false} ReusedFrom(t: Task, n: nat, j: nat) returns (k: nat)
    requires n <= |t.news| && j < |Reused(t, n)|
    ensures k < n && Choice(t, k).Some? && j == |Reused(t, k)| && Reused(t, n)[j] == ReuseAt(t, k)
  {
    if j < |Reused(t, n - 1)| {
      k := ReusedFrom(t, n - 1, j);
    } else {
      k := n - 1;
    }
  }

  lemma {:induction false} EmbeddedFrom(t: Task, n: nat, j: nat) returns (k: nat)
    requires n <= |t.news| && j < |Embedded(t, n)|
    ensures k < n && Choice(t, k).None? && j == |Embedded(t, k)|
    ensures Embedded(t, n)[j] == Embed(t.news[k], HashAt(t, k))
  {
    if j < |Embedded(t, n - 1)| {
      k := EmbeddedFrom(t, n - 1, j);
    } else {
      k := n - 1;
    }
  }

  predicate Free(t: Task, h: Hash, n: nat)
    requires n <= |t.news|
  {
    forall j :: 0 <= j < n ==> HashAt(t, j) != h
  }

  /** The entry for `h` after `n` new chunks: the last chunk with it, unless one of them had it. */
  predicate HashEntry(t: Task, byHash: map<Hash, Existing>, n: nat, h: Hash)
    requires n <= |t.news|
  {
    var last := LastWith(t.existing, h, |t.existing|);
    if last.Some? && Free(t, h, n) then h in byHash && byHash[h] == t.existing[last.value] else h !in byHash
  }

  ghost predicate ByHash(t: Task, byHash: map<Hash, Existing>, n: nat)
    requires n <= |t.news|
  {
    forall h :: HashEntry(t, byHash, n, h)
  }

  method IndexByHash(t: Task) returns (byHash: map<Hash, Existing>)
    ensures ByHash(t, byHash, 0)
  {
    byHash := map[];
    for i := 0 to |t.existing|
      invariant forall h :: h in byHash <==> LastWith(t.existing, h, i).Some?
      invariant forall h :: h in byHash ==> byHash[h] == t.existing[LastWith(t.existing, h, i).value]
    {
      var ec := t.existing[i];
      if ec.hash.Some? && ec.hash.value != "" {
        byHash := byHash[ec.hash.value := ec];
      }
    }
  }

  lemma NextByHash(t: Task, byHash: map<Hash, Existing>, k: nat)
    requires k < |t.news| && ByHash(t, byHash, k)
    ensures HashAt(t, k) in byHash <==> Choice(t, k).Some?
    ensures Choice(t, k).Some? ==> byHash[HashAt(t, k)] == t.existing[Choice(t, k).value]
    ensures ByHash(t, byHash - {HashAt(t, k)}, k + 1)
  {
    assert HashEntry(t, byHash, k, HashAt(t, k));
    var after, n := byHash - {HashAt(t, k)}, k + 1;
    forall h: Hash ensures HashEntry(t, after, n, h) {
      assert HashEntry(t, byHash, k, h);
      assert h != HashAt(t, k) ==> (Free(t, h, n) <==> Free(t, h, k));
    }
  }

  /** `diffChunks` */
  method DiffChunks(t: Task) returns (toEmbed: seq<Embed>, toReuse: seq<Reuse>)
    ensures toEmbed == Embedded(t, |t.news|) && toReuse == Reused(t, |t.news|)
  {
    var byHash := IndexByHash(t);
    toEmbed, toReuse := [], [];
    for k := 0 to |t.news|
      invariant toEmbed == Embedded(t, k) && toReuse == Reused(t, k)
      invariant ByHash(t, byHash, k)
    {
      var hash := t.hashOf(t.news[k].content);
      NextByHash(t, byHash, k);
      if hash in byHash {
        var existing := byHash[hash];
        toReuse := toReuse + [Reuse(existing.id, t.news[k].index, existing.embedding, hash)];
        byHash := byHash - {hash};
      } else {
        assert byHash - {hash} == byHash;
        toEmbed := toEmbed + [Embed(t.news[k], hash)];
      }
    }
  }
}

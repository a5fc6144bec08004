// Carrying out a re-indexing plan on the table of chunks, in batches.
module Reindex {
  import opened Wrappers
  import opened ReindexPlan

  /** A row of kb_chunks. */
  datatype Row = Row(document: Id, index: nat, hash: Option<Hash>, embedding: Vector, section: Option<Id>)

  type Table = map<Id, Row>

  // ---------------------------------------------------------------- the statements

  /** An INSERT: its target columns and its value expressions. */
  datatype Statement = Statement(columns: seq<string>, values: seq<string>)

  /** PostgreSQL refuses an INSERT with more columns than values, or more values than columns. */
  predicate Accepted(insert: Statement) {
    |insert.columns| == |insert.values|
  }

  const COLUMNS := [
    "id", "document", "knowledge_base", "account_id", "chunk_index", "content", "contextual_content", "content_hash",
    "embedding", "embedding_model", "metadata", "token_count", "language", "search_vector", "section_id"]

  /** The INSERT as it is written: no value stands for content_hash. */
  const AS_WRITTEN := Statement(COLUMNS, [
    "$1", "$2", "$3", "$4", "$5", "$6", "$7", "$8::vector", "$9", "$10::jsonb", "$11", "$12",
    "to_tsvector($13::regconfig, $14)", "$15"])

  /** The INSERT its list of columns asks for. */
  const AS_LISTED := Statement(COLUMNS, [
    "$1", "$2", "$3", "$4", "$5", "$6", "$7", "$8", "$9::vector", "$10", "$11::jsonb", "$12", "$13",
    "to_tsvector($14::regconfig, $15)", "$16"])

  lemma WrittenIsRefused()
    ensures !Accepted(AS_WRITTEN) && Accepted(AS_LISTED)
  {
    assert |COLUMNS| == 15 && |AS_WRITTEN.values| == 14 && |AS_LISTED.values| == 15;
  }

  /** Deleting the document's sections clears the references to them. */
  function Cleared(table: Table, document: Id): Table {
    map id | id in table :: if table[id].document == document then table[id].(section := None) else table[id]
  }

  function Renumber(table: Table, r: Reuse): Table {
    if r.id in table then table[r.id := table[r.id].(index := r.index)] else table
  }

  function Renumbered(table: Table, rs: seq<Reuse>): Table {
    if rs == [] then table else Renumber(Renumbered(table, rs[..|rs| - 1]), rs[|rs| - 1])
  }

  function NewRow(document: Id, e: Embed, v: Vector): Row {
    Row(document, e.chunk.index, Some(e.hash), v, e.chunk.section)
  }

  /** The first `n` embedded chunks inserted, each under the next fresh id. */
  function Inserted(table: Table, document: Id, embeds: seq<Embed>, vectors: seq<Vector>, uuids: nat -> Id, n: nat): Table
    requires n <= |embeds| == |vectors|
  {
    if n == 0 then table
    else Inserted(table, document, embeds, vectors, uuids, n - 1)
           [uuids(n - 1) := NewRow(document, embeds[n - 1], vectors[n - 1])]
  }

  function Ids(existing: seq<Existing>): set<Id> {
    set e | e in existing :: e.id
  }

  function ReusedIds(rs: seq<Reuse>): set<Id> {
    set r | r in rs :: r.id
  }

  lemma OneMoreId(existing: seq<Existing>, i: nat)
    requires i < |existing|
    ensures Ids(existing[..i + 1]) == Ids(existing[..i]) + {existing[i].id}
  {
    assert existing[..i + 1] == existing[..i] + [existing[i]];
  }

  /** What the embedding service returns for the chunks to embed. */
  function Vectors(embed: string -> Vector, embeds: seq<Embed>): (vs: seq<Vector>)
    ensures |vs| == |embeds|
    ensures forall j :: 0 <= j < |vs| ==> vs[j] == embed(embeds[j].chunk.text)
  {
    seq(|embeds|, j requires 0 <= j < |embeds| => embed(embeds[j].chunk.text))
  }

  /** The whole plan: sections cleared, old rows deleted, kept ones renumbered, new ones inserted. */
  function Carried(t: Task, table: Table, document: Id, clear: bool, embed: string -> Vector, uuids: nat -> Id): Table {
    var embeds := Embedded(t, |t.news|);
    Inserted(Reordered(t, table, document, clear), document, embeds, Vectors(embed, embeds), uuids, |embeds|)
  }

  /** What the indexing leaves when the database carries out `insert`, or refuses it. */
  function Final(t: Task, table: Table, document: Id, clear: bool, embed: string -> Vector, uuids: nat -> Id,
                 insert: Statement): Table {
    if Succeeds(t, insert) then Carried(t, table, document, clear, embed, uuids)
    else Reordered(t, table, document, clear)
  }

  predicate Succeeds(t: Task, insert: Statement) {
    Accepted(insert) || Embedded(t, |t.news|) == []
  }

  /** The old rows that stay, under their new places. */
  function Reordered(t: Task, table: Table, document: Id, clear: bool): Table {
    Renumbered(Remaining(t, table, document, clear), Reused(t, |t.news|))
  }

  function Remaining(t: Task, table: Table, document: Id, clear: bool): Table {
    (if clear then Cleared(table, document) else table) - (Ids(t.existing) - ReusedIds(Reused(t, |t.news|)))
  }

  // ---------------------------------------------------------------- in batches

  class Chunks {
    var rows: Table
    var drawn: nat
    const uuids: nat -> Id

    constructor (rows: Table, uuids: nat -> Id)
      ensures this.rows == rows && this.uuids == uuids && drawn == 0
    {
      this.rows, this.uuids, drawn := rows, uuids, 0;
    }

    /** Old rows are deleted a hundred at a time. */
    method DeleteOld(ids: seq<Id>)
      modifies this`rows
      ensures rows == old(rows) - (set id | id in ids)
    {
      var i := 0;
      while i < |ids|
        invariant i <= |ids| && rows == old(rows) - (set id | id in ids[..i])
      {
        var end := if i + 100 <= |ids| then i + 100 else |ids|;
        rows := rows - (set id | id in ids[i..end]);
        assert ids[..end] == ids[..i] + ids[i..end];
        i := end;
      }
      assert ids[..|ids|] == ids;
    }

    method UpdateReused(toReuse: seq<Reuse>)
      modifies this`rows
      ensures rows == Renumbered(old(rows), toReuse)
    {
      for i := 0 to |toReuse|
        invariant rows == Renumbered(old(rows), toReuse[..i])
      {
        assert toReuse[..i + 1][..i] == toReuse[..i];
        rows := Renumber(rows, toReuse[i]);
      }
      assert toReuse[..|toReuse|] == toReuse;
    }

    /** New rows are inserted fifty at a time, each with the embedding of its own text; the first
        refused INSERT ends the indexing. */
    method InsertNew(document: Id, embeds: seq<Embed>, vectors: seq<Vector>, insert: Statement) returns (ok: bool)
      requires |embeds| == |vectors| && drawn == 0
      modifies this`rows, this`drawn
      ensures ok <==> Accepted(insert) || embeds == []
      ensures rows == Inserted(old(rows), document, embeds, vectors, uuids, if ok then |embeds| else 0)
    {
      var i := 0;
      while i < |embeds|
        invariant i <= |embeds| && drawn == i && (i > 0 ==> Accepted(insert))
        invariant rows == Inserted(old(rows), document, embeds, vectors, uuids, i)
      {
        var end := if i + 50 <= |embeds| then i + 50 else |embeds|;
        ok := InsertBatch(document, embeds[i..end], vectors[i..end], insert, old(rows), embeds, vectors, i);
        if !ok {
          return;
        }
        i := end;
      }
      ok := true;
    }

    method InsertBatch(document: Id, batch: seq<Embed>, slice: seq<Vector>, insert: Statement,
                       ghost start: Table, ghost embeds: seq<Embed>, ghost vectors: seq<Vector>, ghost from: nat)
      returns (ok: bool)
      requires |embeds| == |vectors| && from + |batch| <= |embeds| && |slice| == |batch| > 0 && drawn == from
      requires batch == embeds[from..from + |batch|] && slice == vectors[from..from + |batch|]
      requires rows == Inserted(start, document, embeds, vectors, uuids, from)
      modifies this`rows, this`drawn
      ensures ok <==> Accepted(insert)
      ensures ok ==> drawn == from + |batch| && rows == Inserted(start, document, embeds, vectors, uuids, drawn)
      ensures !ok ==> rows == old(rows)
    {
      for j := 0 to |batch|
        invariant drawn == from + j && rows == Inserted(start, document, embeds, vectors, uuids, drawn)
        invariant j > 0 ==> Accepted(insert)
        invariant j == 0 ==> rows == old(rows)
      {
        if !Accepted(insert) {
          return false;
        }
        rows := rows[uuids(drawn) := NewRow(document, batch[j], slice[j])];
        drawn := drawn + 1;
      }
      ok := true;
    }

    /** The indexing of one document, from the comparison to the last insert; what was done before a
        refused INSERT stays done. */
    method IndexDocument(t: Task, document: Id, clear: bool, embed: string -> Vector, insert: Statement)
      returns (indexed: bool)
      requires drawn == 0
      modifies this
      ensures indexed <==> Succeeds(t, insert)
      ensures rows == Final(t, old(rows), document, clear, embed, uuids, insert)
    {
      var toEmbed, toReuse := DiffChunks(t);
      if clear {
        rows := Cleared(rows, document);
      }
      ghost var cleared := rows;
      var toDelete := ToDelete(t.existing, toReuse);
      DeleteOld(toDelete);
      assert rows == cleared - (Ids(t.existing) - ReusedIds(toReuse));
      UpdateReused(toReuse);
      indexed := InsertNew(document, toEmbed, Vectors(embed, toEmbed), insert);
    }

    /** The ids of existing chunks that are not reused, in order. */
    method ToDelete(existing: seq<Existing>, toReuse: seq<Reuse>) returns (ids: seq<Id>)
      ensures (set id | id in ids) == Ids(existing) - ReusedIds(toReuse)
    {
      ids := [];
      var reusedIds := ReusedIds(toReuse);
      for i := 0 to |existing|
        invariant forall id :: id in ids <==> id in Ids(existing[..i]) && id !in reusedIds
      {
        OneMoreId(existing, i);
        if existing[i].id !in reusedIds {
          ids := ids + [existing[i].id];
        }
      }
      assert existing[..|existing|] == existing;
    }
  }

  // ---------------------------------------------------------------- what the table holds then

  /** The existing chunks are the rows of the document, each once. */
  predicate Lists(table: Table, document: Id, existing: seq<Existing>) {
    && (forall i :: 0 <= i < |existing| ==>
          && existing[i].id in table
          && table[existing[i].id].document == document
          && table[existing[i].id].hash == existing[i].hash
          && table[existing[i].id].embedding == existing[i].embedding)
    && (forall i, j :: 0 <= i < j < |existing| ==> existing[i].id != existing[j].id)
    && (forall id :: id in table && table[id].document == document ==> id in Ids(existing))
  }

  /** The ids drawn for new rows are fresh and different. */
  ghost predicate FreshIds(table: Table, uuids: nat -> Id) {
    && (forall j :: uuids(j) !in table)
    && (forall i, j :: i != j ==> uuids(i) != uuids(j))
  }

  /** The row of new chunk `k`: an existing one if it is reused, or the next inserted one. */
  function PlaceId(t: Task, uuids: nat -> Id, k: nat): Id
    requires k < |t.news|
  {
    if Choice(t, k).Some? then t.existing[Choice(t, k).value].id else uuids(|Embedded(t, k)|)
  }

  /** What that row holds: the chunk's place and hash, with the embedding it had or that of its own
      text; a reused row loses its section when the sections are replaced. */
  function PlaceRow(t: Task, table: Table, document: Id, clear: bool, embed: string -> Vector, k: nat): Row
    requires k < |t.news| && Lists(table, document, t.existing)
  {
    if Choice(t, k).Some? then
      var e := t.existing[Choice(t, k).value];
      Row(document, t.news[k].index, Some(HashAt(t, k)), e.embedding, if clear then None else table[e.id].section)
    else Row(document, t.news[k].index, Some(HashAt(t, k)), embed(t.news[k].text), t.news[k].section)
  }

  predicate DistinctIds(rs: seq<Reuse>) {
    forall i, j :: 0 <= i < j < |rs| ==> rs[i].id != rs[j].id
  }

  lemma RenumberOne(table: Table, r: Reuse)
    ensures Renumber(table, r).Keys == table.Keys
    ensures forall id :: id in table && id != r.id ==> Renumber(table, r)[id] == table[id]
    ensures r.id in table ==> Renumber(table, r)[r.id] == table[r.id].(index := r.index)
  {
  }

  lemma {:induction false} RenumberedElse(table: Table, rs: seq<Reuse>)
    ensures Renumbered(table, rs).Keys == table.Keys
    ensures forall id :: id in table && (forall j :: 0 <= j < |rs| ==> rs[j].id != id) ==> Renumbered(table, rs)[id] == table[id]
  {
    hide Renumber;
    if rs != [] {
      RenumberedElse(table, rs[..|rs| - 1]);
      RenumberOne(Renumbered(table, rs[..|rs| - 1]), rs[|rs| - 1]);
    }
  }

  lemma {:induction false} RenumberedIs(table: Table, rs: seq<Reuse>)
    requires DistinctIds(rs)
    ensures Renumbered(table, rs).Keys == table.Keys
    ensures forall id :: id in table && (forall r :: r in rs ==> r.id != id) ==> Renumbered(table, rs)[id] == table[id]
    ensures forall j :: 0 <= j < |rs| && rs[j].id in table ==>
      Renumbered(table, rs)[rs[j].id] == table[rs[j].id].(index := rs[j].index)
  {
    hide Renumber;
    RenumberedElse(table, rs);
    if rs != [] {
      var last := |rs| - 1;
      RenumberedIs(table, rs[..last]);
      RenumberedElse(table, rs[..last]);
      RenumberOne(Renumbered(table, rs[..last]), rs[last]);
    }
  }

  lemma {:induction false} InsertedIs(table: Table, document: Id, embeds: seq<Embed>, vectors: seq<Vector>, uuids: nat -> Id, n: nat)
    requires n <= |embeds| == |vectors| && FreshIds(table, uuids)
    ensures
      var r := Inserted(table, document, embeds, vectors, uuids, n);
      && (forall id :: id in table ==> id in r && r[id] == table[id])
      && (forall j: nat :: j < n ==> uuids(j) in r && r[uuids(j)] == NewRow(document, embeds[j], vectors[j]))
      && (forall id :: id in r ==> id in table || exists j: nat :: j < n && id == uuids(j))
  {
    if n > 0 {
      InsertedIs(table, document, embeds, vectors, uuids, n - 1);
    }
  }

  lemma {:induction false} ReusedDistinct(t: Task, table: Table, document: Id, n: nat)
    requires n <= |t.news| && Lists(table, document, t.existing)
    ensures DistinctIds(Reused(t, n))
  {
    var rs := Reused(t, n);
    forall i, j | 0 <= i < j < |rs| ensures rs[i].id != rs[j].id {
      var a := ReusedFrom(t, n, i);
      var b := ReusedFrom(t, n, j);
      if a < b {
        ReusedOnce(t, a, b);
      } else if b < a {
        ReusedOnce(t, b, a);
      }
    }
  }

  /** A reused row after renumbering. */
  lemma ReusedRow(t: Task, table: Table, document: Id, clear: bool, embed: string -> Vector, k: nat)
    requires Lists(table, document, t.existing) && k < |t.news| && Choice(t, k).Some?
    ensures
      var id, r := t.existing[Choice(t, k).value].id, Reordered(t, table, document, clear);
      id in r && r[id] == PlaceRow(t, table, document, clear, embed, k)
  {
    var rs, n := Reused(t, |t.news|), |t.news|;
    var e := t.existing[Choice(t, k).value];
    PlaceOf(t, k, n);
    var j := |Reused(t, k)|;
    assert rs[j] in rs && rs[j].id == e.id;
    ReusedDistinct(t, table, document, n);
    RenumberedIs(Remaining(t, table, document, clear), rs);
  }

  /** Rows of other documents are untouched, and of this document only reused rows are left. */
  lemma OtherRows(t: Task, table: Table, document: Id, clear: bool)
    requires Lists(table, document, t.existing)
    ensures
      var r := Reordered(t, table, document, clear);
      && r.Keys <= table.Keys
      && (forall id :: id in table && table[id].document != document ==> id in r && r[id] == table[id])
      && (forall id :: id in r ==> r[id].document == table[id].document)
      && (forall id :: id in r && table[id].document == document ==> id in ReusedIds(Reused(t, |t.news|)))
  {
    var rs, n := Reused(t, |t.news|), |t.news|;
    ReusedDistinct(t, table, document, n);
    RenumberedIs(Remaining(t, table, document, clear), rs);
    forall id | id in table && table[id].document != document ensures forall r :: r in rs ==> r.id != id {
      forall r | r in rs ensures r.id != id {
        var j :| 0 <= j < |rs| && rs[j] == r;
        var k := ReusedFrom(t, n, j);
      }
    }
    forall id | id in Reordered(t, table, document, clear)
      ensures Reordered(t, table, document, clear)[id].document == table[id].document
    {
      if id in ReusedIds(rs) {
        var r :| r in rs && r.id == id;
        var j :| 0 <= j < |rs| && rs[j] == r;
      }
    }
  }

  /** When every INSERT is carried out, every new chunk has its own row with its place, hash and
      embedding. */
  lemma EveryChunkPlaced(t: Task, table: Table, document: Id, clear: bool, embed: string -> Vector, uuids: nat -> Id, k: nat)
    requires Lists(table, document, t.existing) && FreshIds(table, uuids) && k < |t.news|
    ensures
      var final, id := Carried(t, table, document, clear, embed, uuids), PlaceId(t, uuids, k);
      id in final && final[id] == PlaceRow(t, table, document, clear, embed, k)
  {
    var embeds := Embedded(t, |t.news|);
    OtherRows(t, table, document, clear);
    InsertedIs(Reordered(t, table, document, clear), document, embeds, Vectors(embed, embeds), uuids, |embeds|);
    if Choice(t, k).Some? {
      ReusedRow(t, table, document, clear, embed, k);
    } else {
      PlaceOf(t, k, |t.news|);
    }
  }

  /** No two chunks share a row, and the document has no other rows. */
  lemma OneRowEach(t: Task, table: Table, document: Id, clear: bool, embed: string -> Vector, uuids: nat -> Id)
    requires Lists(table, document, t.existing) && FreshIds(table, uuids)
    ensures forall j, k :: 0 <= j < k < |t.news| ==> PlaceId(t, uuids, j) != PlaceId(t, uuids, k)
    ensures
      var final := Carried(t, table, document, clear, embed, uuids);
      forall id :: id in final && final[id].document == document ==>
        exists k :: 0 <= k < |t.news| && id == PlaceId(t, uuids, k)
  {
    forall j, k | 0 <= j < k < |t.news| ensures PlaceId(t, uuids, j) != PlaceId(t, uuids, k) {
      PlacesDiffer(t, table, document, uuids, j, k);
    }
    var n, embeds := |t.news|, Embedded(t, |t.news|);
    var final := Carried(t, table, document, clear, embed, uuids);
    OtherRows(t, table, document, clear);
    InsertedIs(Reordered(t, table, document, clear), document, embeds, Vectors(embed, embeds), uuids, |embeds|);
    forall id | id in final && final[id].document == document
      ensures exists k :: 0 <= k < |t.news| && id == PlaceId(t, uuids, k)
    {
      RowHasChunk(t, table, document, clear, uuids, id);
    }
  }

  lemma {:induction false} Grows(t: Task, j: nat, k: nat)
    requires j <= k <= |t.news|
    ensures |Embedded(t, j)| <= |Embedded(t, k)|
  {
    if j < k {
      Grows(t, j, k - 1);
    }
  }

  lemma PlacesDiffer(t: Task, table: Table, document: Id, uuids: nat -> Id, j: nat, k: nat)
    requires Lists(table, document, t.existing) && FreshIds(table, uuids) && j < k < |t.news|
    ensures PlaceId(t, uuids, j) != PlaceId(t, uuids, k)
  {
    if Choice(t, j).Some? && Choice(t, k).Some? {
      ReusedOnce(t, j, k);
    } else if Choice(t, j).None? && Choice(t, k).None? {
      Grows(t, j + 1, k);
      assert |Embedded(t, j)| < |Embedded(t, k)|;
    }
  }

  lemma RowHasChunk(t: Task, table: Table, document: Id, clear: bool, uuids: nat -> Id, id: Id)
    requires Lists(table, document, t.existing)
    requires
      || (id in Reordered(t, table, document, clear) && Reordered(t, table, document, clear)[id].document == document)
      || exists j: nat :: j < |Embedded(t, |t.news|)| && id == uuids(j)
    ensures exists k :: 0 <= k < |t.news| && id == PlaceId(t, uuids, k)
  {
    var n := |t.news|;
    OtherRows(t, table, document, clear);
    if id in Reordered(t, table, document, clear) && Reordered(t, table, document, clear)[id].document == document {
      var r :| r in Reused(t, n) && r.id == id;
      var j :| 0 <= j < |Reused(t, n)| && Reused(t, n)[j] == r;
      var k := ReusedFrom(t, n, j);
      assert PlaceId(t, uuids, k) == id;
    } else {
      var j: nat :| j < |Embedded(t, n)| && id == uuids(j);
      var k := EmbeddedFrom(t, n, j);
      assert PlaceId(t, uuids, k) == uuids(j);
    }
  }

  /** Other documents keep exactly their rows. */
  lemma OthersUntouched(t: Task, table: Table, document: Id, clear: bool, embed: string -> Vector, uuids: nat -> Id)
    requires Lists(table, document, t.existing) && FreshIds(table, uuids)
    ensures
      var final := Carried(t, table, document, clear, embed, uuids);
      forall id :: (id in table && table[id].document != document <==> id in final && final[id].document != document)
        && (id in table && table[id].document != document ==> final[id] == table[id])
  {
    var embeds := Embedded(t, |t.news|);
    OtherRows(t, table, document, clear);
    InsertedIs(Reordered(t, table, document, clear), document, embeds, Vectors(embed, embeds), uuids, |embeds|);
  }

  // ---------------------------------------------------------------- with the INSERT as written

  /** The document has a row for the chunk at `index`. */
  predicate HasRow(table: Table, document: Id, index: nat) {
    exists id :: id in table && table[id].document == document && table[id].index == index
  }

  /** Chunks are numbered through, as the chunker does. */
  predicate Numbered(news: seq<NewChunk>) {
    forall k :: 0 <= k < |news| ==> news[k].index == k
  }

  /** The INSERT as written leaves every row where it was before it, or is not needed. */
  lemma AsWritten(t: Task, table: Table, document: Id, clear: bool, embed: string -> Vector, uuids: nat -> Id)
    ensures Final(t, table, document, clear, embed, uuids, AS_WRITTEN) == Reordered(t, table, document, clear)
    ensures Succeeds(t, AS_WRITTEN) <==> Embedded(t, |t.news|) == []
  {
    WrittenIsRefused();
  }

  /** Without inserts exactly the reused chunks have rows. */
  lemma ReusedHasRow(t: Task, table: Table, document: Id, clear: bool, embed: string -> Vector, k: nat)
    requires Lists(table, document, t.existing) && Numbered(t.news) && k < |t.news|
    ensures HasRow(Reordered(t, table, document, clear), document, k) <==> Choice(t, k).Some?
  {
    var r := Reordered(t, table, document, clear);
    if Choice(t, k).Some? {
      ReusedRow(t, table, document, clear, embed, k);
    }
    if HasRow(r, document, k) {
      var id :| id in r && r[id].document == document && r[id].index == k;
      var j := RowOfReused(t, table, document, clear, id);
      ReusedRow(t, table, document, clear, embed, j);
    }
  }

  /** The new chunk a row left over belongs to. */
  lemma RowOfReused(t: Task, table: Table, document: Id, clear: bool, id: Id) returns (k: nat)
    requires Lists(table, document, t.existing)
    requires id in Reordered(t, table, document, clear) && Reordered(t, table, document, clear)[id].document == document
    ensures k < |t.news| && Choice(t, k).Some? && t.existing[Choice(t, k).value].id == id
  {
    OtherRows(t, table, document, clear);
    var r :| r in Reused(t, |t.news|) && r.id == id;
    var i :| 0 <= i < |Reused(t, |t.news|)| && Reused(t, |t.news|)[i] == r;
    k := ReusedFrom(t, |t.news|, i);
  }

  lemma {:induction false} NoneEmbedded(t: Task, n: nat)
    requires n <= |t.news|
    ensures Embedded(t, n) == [] <==> forall k :: 0 <= k < n ==> Choice(t, k).Some?
  {
    if n > 0 {
      NoneEmbedded(t, n - 1);
    }
  }

  /** As the code is, a document has a row for every new chunk afterwards, and counts as indexed,
      if and only if every new chunk reuses an old row. */
  lemma AllPlacedIff(t: Task, table: Table, document: Id, clear: bool, embed: string -> Vector, uuids: nat -> Id)
    requires Lists(table, document, t.existing) && Numbered(t.news)
    ensures
      var final := Final(t, table, document, clear, embed, uuids, AS_WRITTEN);
      && ((forall k :: 0 <= k < |t.news| ==> HasRow(final, document, k)) <==> Embedded(t, |t.news|) == [])
      && (Succeeds(t, AS_WRITTEN) <==> Embedded(t, |t.news|) == [])
  {
    AsWritten(t, table, document, clear, embed, uuids);
    NoneEmbedded(t, |t.news|);
    forall k: nat | k < |t.news|
      ensures HasRow(Reordered(t, table, document, clear), document, k) <==> Choice(t, k).Some?
    {
      ReusedHasRow(t, table, document, clear, embed, k);
    }
  }

  /** What it leaves: the document keeps exactly the rows of its reused chunks, under their new
      places; every other row of it is gone, and no new one is there. */
  lemma LeftAsWritten(t: Task, table: Table, document: Id, clear: bool, embed: string -> Vector, uuids: nat -> Id)
    requires Lists(table, document, t.existing)
    ensures
      var final := Final(t, table, document, clear, embed, uuids, AS_WRITTEN);
      && final.Keys <= table.Keys
      && (forall id :: id in final && final[id].document == document <==>
            exists k: nat :: k < |t.news| && Choice(t, k).Some? && id == t.existing[Choice(t, k).value].id)
      && (forall k: nat :: k < |t.news| && Choice(t, k).Some? ==>
            final[t.existing[Choice(t, k).value].id] == PlaceRow(t, table, document, clear, embed, k))
  {
    AsWritten(t, table, document, clear, embed, uuids);
    var r := Reordered(t, table, document, clear);
    OtherRows(t, table, document, clear);
    forall k: nat | k < |t.news| && Choice(t, k).Some?
      ensures
        var id := t.existing[Choice(t, k).value].id;
        id in r && r[id] == PlaceRow(t, table, document, clear, embed, k)
    {
      ReusedRow(t, table, document, clear, embed, k);
    }
    forall id | id in r && r[id].document == document
      ensures exists k: nat :: k < |t.news| && Choice(t, k).Some? && id == t.existing[Choice(t, k).value].id
    {
      var k := RowOfReused(t, table, document, clear, id);
    }
  }
}

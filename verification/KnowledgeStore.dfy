/** The documents and chunks tables, and the transaction that replaces one source's rows. */
module KnowledgeStore {
  import opened Text
  import opened Chunking

  datatype Document = Document(id: string, source: string, content: string, metadata: map<string, string>)

  datatype DocRow = DocRow(tenant: string, source: string, content: string, metadata: map<string, string>)

  type Vector = seq<real>

  datatype ChunkRow = ChunkRow(tenant: string, source: string, documentType: string, documentID: string,
                               content: string, metadata: map<string, string>, date: int, embedding: Vector,
                               model: string)

  /** A chunk with the ID and date that ingestion gave it. */
  datatype StampedChunk = StampedChunk(id: string, date: int, chunk: Chunk)

  datatype Embedder = Embedder(model: string, vector: string -> Vector)

  /** chunks.document_id references documents.id ON DELETE CASCADE. */
  datatype Tables = Tables(documents: map<string, DocRow>, chunks: map<string, ChunkRow>)

  ghost predicate Linked(db: Tables) {
    forall c :: c in db.chunks ==> db.chunks[c].documentID in db.documents
  }

  // ---------- statements ----------

  predicate Owns(row: DocRow, tenant: string, source: string) {
    row.tenant == tenant && row.source == source
  }

  /** DELETE the source's documents; their chunks go with them. */
  function DeleteSource(db: Tables, tenant: string, source: string): Tables {
    var kept := map d | d in db.documents && !Owns(db.documents[d], tenant, source) :: db.documents[d];
    Tables(kept, map c | c in db.chunks && (db.chunks[c].documentID in db.documents ==> db.chunks[c].documentID in kept)
                   :: db.chunks[c])
  }

  /** INSERT ... ON CONFLICT (id): a row that exists keeps its tenant and source. */
  function InsertDocument(db: Tables, tenant: string, doc: Document): Tables {
    var row := if doc.id in db.documents
               then db.documents[doc.id].(content := doc.content, metadata := doc.metadata)
               else DocRow(tenant, doc.source, doc.content, doc.metadata);
    db.(documents := db.documents[doc.id := row])
  }

  function NewRow(tenant: string, c: StampedChunk, e: Embedder): ChunkRow {
    ChunkRow(tenant, c.chunk.source, c.chunk.documentType, c.chunk.documentID, c.chunk.content, c.chunk.metadata,
             c.date, e.vector(c.chunk.content), e.model)
  }

  /** INSERT ... ON CONFLICT (id); fails on the foreign key when the document does not exist. */
  function InsertChunk(db: Tables, tenant: string, c: StampedChunk, e: Embedder): Option<Tables> {
    if c.chunk.documentID !in db.documents then None
    else
      var inserted := NewRow(tenant, c, e);
      var row := if c.id in db.chunks
                 then inserted.(tenant := db.chunks[c.id].tenant, source := db.chunks[c.id].source,
                             documentType := db.chunks[c.id].documentType)
                 else inserted;
      Some(db.(chunks := db.chunks[c.id := row]))
  }

  function DeleteTenantData(db: Tables, tenant: string): Tables {
    var kept := map d | d in db.documents && db.documents[d].tenant != tenant :: db.documents[d];
    Tables(kept, map c | c in db.chunks && (db.chunks[c].documentID in db.documents ==> db.chunks[c].documentID in kept)
                   :: db.chunks[c])
  }

  /**
   * Every statement keeps the foreign key, so it holds between any two statements, also of an insert
   * outside a transaction that stops half-way.
   */
  lemma {:induction false} StatementsKeepLinks(db: Tables, tenant: string, source: string, doc: Document,
                                               c: StampedChunk, e: Embedder)
    requires Linked(db)
    ensures Linked(DeleteSource(db, tenant, source))
    ensures Linked(DeleteTenantData(db, tenant))
    ensures Linked(InsertDocument(db, tenant, doc))
    ensures InsertChunk(db, tenant, c, e).Some? ==> Linked(InsertChunk(db, tenant, c, e).value)
  {
  }

  /**
   * A chunk whose ID exists: the row keeps its tenant, source and document type, and takes everything
   * else from the new chunk.
   */
  lemma {:induction false} ConflictingChunk(db: Tables, tenant: string, c: StampedChunk, e: Embedder)
    requires c.id in db.chunks && c.chunk.documentID in db.documents
    ensures var r := InsertChunk(db, tenant, c, e);
            && r.Some? && r.value.documents == db.documents
            && r.value.chunks.Keys == db.chunks.Keys
            && (forall x :: x in db.chunks && x != c.id ==> r.value.chunks[x] == db.chunks[x])
            && var was, now := db.chunks[c.id], r.value.chunks[c.id];
               && now.tenant == was.tenant && now.source == was.source && now.documentType == was.documentType
               && now.documentID == c.chunk.documentID && now.content == c.chunk.content
               && now.metadata == c.chunk.metadata && now.date == c.date
               && now.embedding == e.vector(c.chunk.content) && now.model == e.model
  {
  }

  /** Deleting a tenant removes its documents and their chunks, and nothing else. */
  lemma {:induction false} DeleteTenantDataIsExact(db: Tables, tenant: string)
    requires Linked(db)
    ensures var after := DeleteTenantData(db, tenant);
            && (forall d :: d in after.documents <==> d in db.documents && db.documents[d].tenant != tenant)
            && (forall d :: d in after.documents ==> after.documents[d] == db.documents[d])
            && (forall c :: c in after.chunks <==>
                  c in db.chunks && db.documents[db.chunks[c].documentID].tenant != tenant)
            && (forall c :: c in after.chunks ==> after.chunks[c] == db.chunks[c])
  {
  }

  // ---------- the whole replacement ----------

  function InsertDocuments(db: Tables, tenant: string, docs: seq<Document>): Tables
    decreases |docs|
  {
    if docs == [] then db else InsertDocuments(InsertDocument(db, tenant, docs[0]), tenant, docs[1..])
  }

  function InsertChunks(db: Tables, tenant: string, chunks: seq<StampedChunk>, e: Embedder): Option<Tables>
    decreases |chunks|
  {
    if chunks == [] then Some(db)
    else
      match InsertChunk(db, tenant, chunks[0], e)
      case None => None
      case Some(db') => InsertChunks(db', tenant, chunks[1..], e)
  }

  function Replace(db: Tables, tenant: string, source: string, docs: seq<Document>, chunks: seq<StampedChunk>,
                   e: Embedder):
      Option<Tables>
  {
    InsertChunks(InsertDocuments(DeleteSource(db, tenant, source), tenant, docs), tenant, chunks, e)
  }

  /** What a transaction does: begin, delete, each document, embedding if there are chunks, each chunk, commit. */
  function StepsOf(docs: seq<Document>, chunks: seq<StampedChunk>): nat {
    2 + |docs| + (if chunks == [] then 0 else 1 + |chunks|) + 1
  }

  class PgStore {
    var db: Tables

    /**
     * One transaction. `fails(n)` says whether the n-th thing the transaction does fails. It commits
     * exactly when nothing fails and the foreign key can hold; on any failure the tables are unchanged.
     */
    method ReplaceSource(tenant: string, source: string, docs: seq<Document>, chunks: seq<StampedChunk>, e: Embedder,
                         fails: nat -> bool) returns (ok: bool)
      modifies this
      ensures ok ==> Replace(old(db), tenant, source, docs, chunks, e) == Some(db)
      ensures !ok ==> db == old(db)
      ensures ok <==>
                (&& Replace(old(db), tenant, source, docs, chunks, e).Some?
                 && forall n: nat :: n < StepsOf(docs, chunks) ==> !fails(n))
    {
      hide DeleteSource, InsertDocument, InsertChunk;
      if fails(0) || fails(1) {
        return false;
      }
      var tx := DeleteSource(db, tenant, source);
      var n := 2;
      var i := 0;
      while i < |docs|
        invariant 0 <= i <= |docs| && n == 2 + i && forall k: nat :: k < n ==> !fails(k)
        invariant InsertDocuments(tx, tenant, docs[i..])
               == InsertDocuments(DeleteSource(db, tenant, source), tenant, docs)
      {
        if fails(n) {
          return false;
        }
        assert docs[i..][0] == docs[i] && docs[i..][1..] == docs[i + 1..];
        tx := InsertDocument(tx, tenant, docs[i]);
        n, i := n + 1, i + 1;
      }
      if |chunks| != 0 {
        if fails(n) {
          return false;
        }
        n := n + 1;
      }
      var j := 0;
      while j < |chunks|
        invariant 0 <= j <= |chunks| && n == StepsOf(docs, chunks) - 1 - |chunks| + j
        invariant forall k: nat :: k < n ==> !fails(k)
        invariant InsertChunks(tx, tenant, chunks[j..], e) == Replace(db, tenant, source, docs, chunks, e)
      {
        if fails(n) {
          return false;
        }
        assert chunks[j..][0] == chunks[j] && chunks[j..][1..] == chunks[j + 1..];
        var next := InsertChunk(tx, tenant, chunks[j], e);
        if next.None? {
          return false;
        }
        tx := next.value;
        n, j := n + 1, j + 1;
      }
      if fails(n) {
        return false;
      }
      db := tx;
      return true;
    }
  }

  // ---------- what the replacement leaves ----------

  /** The last of the documents with the ID, whose content wins. */
  function LastWith(docs: seq<Document>, id: string): Option<Document>
    decreases |docs|
  {
    if docs == [] then None
    else
      var later := LastWith(docs[1..], id);
      if later.Some? then later else if docs[0].id == id then Some(docs[0]) else None
  }

  predicate FromSource(docs: seq<Document>, source: string) {
    forall i :: 0 <= i < |docs| ==> docs[i].source == source
  }

  /** The document rows after inserting docs of one source. */
  lemma {:induction false} InsertedRow(db: Tables, tenant: string, docs: seq<Document>, source: string, id: string)
    requires FromSource(docs, source)
    ensures var rows := InsertDocuments(db, tenant, docs).documents;
            match LastWith(docs, id)
            case None => (id in rows <==> id in db.documents) && (id in rows ==> rows[id] == db.documents[id])
            case Some(d) =>
              id in rows && rows[id] == if id in db.documents
                                        then db.documents[id].(content := d.content, metadata := d.metadata)
                                        else DocRow(tenant, source, d.content, d.metadata)
    ensures InsertDocuments(db, tenant, docs).chunks == db.chunks
    decreases |docs|
  {
    if docs != [] {
      InsertedRow(InsertDocument(db, tenant, docs[0]), tenant, docs[1..], source, id);
    }
  }

  /** Documents that belong to the source. */
  ghost predicate Owned(db: Tables, tenant: string, source: string, id: string) {
    id in db.documents && Owns(db.documents[id], tenant, source)
  }

  /** A new document's ID is not held by another tenant or source. */
  ghost predicate NoForeignIDs(db: Tables, tenant: string, source: string, docs: seq<Document>) {
    forall i :: 0 <= i < |docs| && docs[i].id in db.documents ==> Owns(db.documents[docs[i].id], tenant, source)
  }

  lemma {:induction false} LastWithSome(docs: seq<Document>, id: string)
    ensures LastWith(docs, id).Some? <==> exists i :: 0 <= i < |docs| && docs[i].id == id
    ensures LastWith(docs, id).Some? ==> LastWith(docs, id).value in docs && LastWith(docs, id).value.id == id
    decreases |docs|
  {
    if docs != [] {
      LastWithSome(docs[1..], id);
      assert forall i :: 1 <= i < |docs| ==> docs[i] == docs[1..][i - 1];
    }
  }

  /** Chunk IDs that are pairwise distinct and not in use. */
  ghost predicate FreshIDs(db: Tables, chunks: seq<StampedChunk>) {
    && (forall i, j :: 0 <= i < j < |chunks| ==> chunks[i].id != chunks[j].id)
    && (forall i :: 0 <= i < |chunks| ==> chunks[i].id !in db.chunks)
  }

  ghost predicate IsNew(chunks: seq<StampedChunk>, c: string) {
    exists i :: 0 <= i < |chunks| && chunks[i].id == c
  }

  /** The rows after are the rows before and one new row per chunk. */
  ghost predicate RowsAdded(before: map<string, ChunkRow>, after: map<string, ChunkRow>, tenant: string,
                            chunks: seq<StampedChunk>, e: Embedder) {
    && (forall i :: 0 <= i < |chunks| ==> chunks[i].id in after && after[chunks[i].id] == NewRow(tenant, chunks[i], e))
    && (forall c :: c in before ==> c in after && after[c] == before[c])
    && (forall c :: c in after ==> c in before || IsNew(chunks, c))
  }

  /** Inserting chunks with fresh IDs: exactly their rows are added, or some document is missing. */
  lemma {:induction false} InsertedChunks(db: Tables, tenant: string, chunks: seq<StampedChunk>, e: Embedder)
    requires FreshIDs(db, chunks)
    ensures var r := InsertChunks(db, tenant, chunks, e);
            && (r.Some? <==> forall i :: 0 <= i < |chunks| ==> chunks[i].chunk.documentID in db.documents)
            && (r.Some? ==>
                  r.value.documents == db.documents && RowsAdded(db.chunks, r.value.chunks, tenant, chunks, e))
    decreases |chunks|
  {
    hide NewRow, RowsAdded;
    if chunks == [] {
      NoRowsAdded(db.chunks, tenant, e);
    } else {
      var first, rest := chunks[0], chunks[1..];
      assert chunks == [first] + rest;
      assert forall i :: 0 <= i < |rest| ==> rest[i] == chunks[i + 1];
      if first.chunk.documentID in db.documents {
        var next := InsertChunk(db, tenant, first, e).value;
        assert next.chunks == db.chunks[first.id := NewRow(tenant, first, e)];
        InsertedChunks(next, tenant, rest, e);
        var r := InsertChunks(next, tenant, rest, e);
        if r.Some? {
          FirstRowAdded(db.chunks, r.value.chunks, tenant, first, rest, e);
        }
      }
    }
  }

  lemma {:induction false} NoRowsAdded(rows: map<string, ChunkRow>, tenant: string, e: Embedder)
    ensures RowsAdded(rows, rows, tenant, [], e)
  {
  }

  lemma {:induction false} FirstRowAdded(before: map<string, ChunkRow>, after: map<string, ChunkRow>, tenant: string,
                                         first: StampedChunk, rest: seq<StampedChunk>, e: Embedder)
    requires first.id !in before
    requires RowsAdded(before[first.id := NewRow(tenant, first, e)], after, tenant, rest, e)
    ensures RowsAdded(before, after, tenant, [first] + rest, e)
  {
    hide NewRow;
    var all := [first] + rest;
    assert first.id in before[first.id := NewRow(tenant, first, e)];
    assert all[0] == first && forall i :: 0 <= i < |rest| ==> all[i + 1] == rest[i];
    forall c | c in after ensures c in before || IsNew(all, c) {
      if c !in before && c != first.id {
        var i :| 0 <= i < |rest| && rest[i].id == c;
        assert all[i + 1].id == c;
      }
    }
    forall i | 0 <= i < |all| ensures all[i].id in after && after[all[i].id] == NewRow(tenant, all[i], e) {
      if i > 0 {
        assert all[i] == rest[i - 1];
      }
    }
  }

  /** The row of one ID after the replacement: the source's new document, or as before. */
  ghost predicate DocumentReplaced(db: Tables, after: Tables, tenant: string, source: string, docs: seq<Document>,
                                   id: string) {
    && (Owned(after, tenant, source, id) <==> LastWith(docs, id).Some?)
    && match LastWith(docs, id)
       case Some(d) => id in after.documents && after.documents[id] == DocRow(tenant, source, d.content, d.metadata)
       case None =>
         (id in after.documents <==> id in db.documents && !Owned(db, tenant, source, id))
         && (id in after.documents ==> after.documents[id] == db.documents[id])
  }

  /** The source's documents are exactly the new ones, and every other document is as before. */
  ghost predicate DocumentsReplaced(db: Tables, after: Tables, tenant: string, source: string, docs: seq<Document>) {
    forall id :: DocumentReplaced(db, after, tenant, source, docs, id)
  }

  /** The chunk was there before and its document is not the source's. */
  ghost predicate Survives(db: Tables, tenant: string, source: string, c: string) {
    c in db.chunks && !Owned(db, tenant, source, db.chunks[c].documentID)
  }

  /** The chunks are the new ones and the survivors, each as given and as before. */
  ghost predicate ChunksReplaced(db: Tables, after: Tables, tenant: string, source: string,
                                 chunks: seq<StampedChunk>, e: Embedder) {
    && (forall i :: 0 <= i < |chunks| ==>
          chunks[i].id in after.chunks && after.chunks[chunks[i].id] == NewRow(tenant, chunks[i], e))
    && (forall c :: c in after.chunks <==> Survives(db, tenant, source, c) || IsNew(chunks, c))
    && (forall c :: Survives(db, tenant, source, c) ==> c in after.chunks && after.chunks[c] == db.chunks[c])
    && (forall c :: c in after.chunks ==>
          (IsNew(chunks, c) <==> Owned(after, tenant, source, after.chunks[c].documentID)))
  }

  lemma {:induction false} InsertedDocument(db: Tables, tenant: string, source: string, docs: seq<Document>, id: string)
    requires FromSource(docs, source)
    ensures var mid := InsertDocuments(DeleteSource(db, tenant, source), tenant, docs);
            && mid.chunks == DeleteSource(db, tenant, source).chunks
            && (Owned(mid, tenant, source, id) <==>
                  LastWith(docs, id).Some? && (id in db.documents ==> Owned(db, tenant, source, id)))
            && match LastWith(docs, id)
               case None => (id in mid.documents <==> id in db.documents && !Owned(db, tenant, source, id))
                            && (id in mid.documents ==> mid.documents[id] == db.documents[id])
               case Some(d) =>
                 && id in mid.documents
                 && (!(id in db.documents && !Owned(db, tenant, source, id)) ==>
                       mid.documents[id] == DocRow(tenant, source, d.content, d.metadata))
  {
    InsertedRow(DeleteSource(db, tenant, source), tenant, docs, source, id);
    hide InsertDocuments, LastWith;
  }

  lemma {:induction false} ForeignIff(db: Tables, tenant: string, source: string, docs: seq<Document>, id: string)
    requires NoForeignIDs(db, tenant, source, docs) && LastWith(docs, id).Some? && id in db.documents
    ensures Owned(db, tenant, source, id)
  {
    LastWithSome(docs, id);
  }

  lemma {:induction false} DocumentsAreReplaced(db: Tables, tenant: string, source: string, docs: seq<Document>)
    requires FromSource(docs, source) && NoForeignIDs(db, tenant, source, docs)
    ensures DocumentsReplaced(db, InsertDocuments(DeleteSource(db, tenant, source), tenant, docs), tenant, source, docs)
  {
    hide InsertDocuments, DeleteSource, LastWith, NoForeignIDs;
    var mid := InsertDocuments(DeleteSource(db, tenant, source), tenant, docs);
    forall id ensures DocumentReplaced(db, mid, tenant, source, docs, id) {
      InsertedDocument(db, tenant, source, docs, id);
      if LastWith(docs, id).Some? && id in db.documents {
        ForeignIff(db, tenant, source, docs, id);
      }
    }
  }

  lemma {:induction false} KeptChunks(db: Tables, tenant: string, source: string)
    requires Linked(db)
    ensures var kept := DeleteSource(db, tenant, source).chunks;
            forall c :: (c in kept <==> Survives(db, tenant, source, c)) && (c in kept ==> kept[c] == db.chunks[c])
  {
  }

  lemma {:induction false} ChunksAreReplaced(db: Tables, tenant: string, source: string, docs: seq<Document>,
                                             chunks: seq<StampedChunk>,
                                             e: Embedder, after: Tables)
    requires Linked(db) && FromSource(docs, source) && FreshIDs(db, chunks) && NoForeignIDs(db, tenant, source, docs)
    requires forall i :: 0 <= i < |chunks| ==> LastWith(docs, chunks[i].chunk.documentID).Some?
    requires Replace(db, tenant, source, docs, chunks, e) == Some(after)
    ensures DocumentsReplaced(db, after, tenant, source, docs)
    ensures ChunksReplaced(db, after, tenant, source, chunks, e)
  {
    var kept := DeleteSource(db, tenant, source);
    var mid := InsertDocuments(kept, tenant, docs);
    DocumentsAreReplaced(db, tenant, source, docs);
    InsertedDocument(db, tenant, source, docs, "");
    KeptChunks(db, tenant, source);
    InsertedChunks(mid, tenant, chunks, e);
    hide InsertDocuments, InsertChunks, DeleteSource, NewRow, RowsAdded, LastWith;
    SameDocuments(db, mid, after, tenant, source, docs);
    AddedMeansReplaced(db, kept.chunks, after, tenant, source, docs, chunks, e);
  }

  lemma {:induction false} SameDocuments(db: Tables, mid: Tables, after: Tables, tenant: string, source: string,
                                         docs: seq<Document>)
    requires DocumentsReplaced(db, mid, tenant, source, docs) && after.documents == mid.documents
    ensures DocumentsReplaced(db, after, tenant, source, docs)
  {
    hide LastWith;
    forall id ensures DocumentReplaced(db, after, tenant, source, docs, id) {
      assert DocumentReplaced(db, mid, tenant, source, docs, id);
    }
  }

  lemma {:induction false} AddedMeansReplaced(db: Tables, kept: map<string, ChunkRow>, after: Tables, tenant: string,
                                              source: string,
                                              docs: seq<Document>, chunks: seq<StampedChunk>, e: Embedder)
    requires Linked(db) && NoForeignIDs(db, tenant, source, docs) && DocumentsReplaced(db, after, tenant, source, docs)
    requires forall c :: (c in kept <==> Survives(db, tenant, source, c)) && (c in kept ==> kept[c] == db.chunks[c])
    requires RowsAdded(kept, after.chunks, tenant, chunks, e)
    requires forall i :: 0 <= i < |chunks| ==> LastWith(docs, chunks[i].chunk.documentID).Some?
    ensures ChunksReplaced(db, after, tenant, source, chunks, e)
  {
    hide NewRow, LastWith, NoForeignIDs, Linked, DocumentsReplaced;
    forall c | c in after.chunks
      ensures IsNew(chunks, c) <==> Owned(after, tenant, source, after.chunks[c].documentID)
    {
      if IsNew(chunks, c) {
        var i :| 0 <= i < |chunks| && chunks[i].id == c;
        NewIsOwned(db, after, tenant, source, docs, chunks, e, i);
      } else {
        SurvivorIsForeign(db, after, tenant, source, docs, chunks, c);
      }
    }
    forall c | IsNew(chunks, c) ensures c in after.chunks {
      var i :| 0 <= i < |chunks| && chunks[i].id == c;
    }
  }

  lemma {:induction false} NewIsOwned(db: Tables, after: Tables, tenant: string, source: string, docs: seq<Document>,
                                      chunks: seq<StampedChunk>, e: Embedder, i: nat)
    requires i < |chunks| && DocumentsReplaced(db, after, tenant, source, docs)
    requires LastWith(docs, chunks[i].chunk.documentID).Some?
    ensures Owned(after, tenant, source, NewRow(tenant, chunks[i], e).documentID)
  {
    assert DocumentReplaced(db, after, tenant, source, docs, chunks[i].chunk.documentID);
  }

  lemma {:induction false} SurvivorIsForeign(db: Tables, after: Tables, tenant: string, source: string,
                                             docs: seq<Document>,
                                             chunks: seq<StampedChunk>, c: string)
    requires Linked(db) && NoForeignIDs(db, tenant, source, docs) && DocumentsReplaced(db, after, tenant, source, docs)
    requires Survives(db, tenant, source, c) && c in after.chunks && after.chunks[c] == db.chunks[c]
    ensures !Owned(after, tenant, source, after.chunks[c].documentID)
  {
    var d := db.chunks[c].documentID;
    LastWithSome(docs, d);
    assert d in db.documents;
    assert DocumentReplaced(db, after, tenant, source, docs, d);
  }

  /**
   * On success, and when no new document ID is held under another tenant or source, the source's
   * documents and chunks are exactly the new ones, every other row is unchanged, and every chunk's
   * document exists.
   */
  lemma {:induction false} ReplaceIsExact(db: Tables, tenant: string, source: string, docs: seq<Document>,
                                          chunks: seq<StampedChunk>,
                                          e: Embedder, after: Tables)
    requires Linked(db) && FromSource(docs, source) && FreshIDs(db, chunks) && NoForeignIDs(db, tenant, source, docs)
    requires forall i :: 0 <= i < |chunks| ==> LastWith(docs, chunks[i].chunk.documentID).Some?
    requires Replace(db, tenant, source, docs, chunks, e) == Some(after)
    ensures DocumentsReplaced(db, after, tenant, source, docs)
    ensures ChunksReplaced(db, after, tenant, source, chunks, e)
    ensures Linked(after)
  {
    ChunksAreReplaced(db, tenant, source, docs, chunks, e, after);
    hide Replace, LastWith, NoForeignIDs, FreshIDs, FromSource, NewRow;
    forall c | c in after.chunks ensures after.chunks[c].documentID in after.documents {
      if Survives(db, tenant, source, c) {
        var d := db.chunks[c].documentID;
        assert DocumentReplaced(db, after, tenant, source, docs, d);
      } else {
        assert IsNew(chunks, c);
        assert Owned(after, tenant, source, after.chunks[c].documentID);
      }
    }
  }

  /**
   * The hypothesis is needed: after a successful replacement the source owns exactly the new
   * documents if and only if no new ID was held under another tenant or source. A held ID keeps its
   * owner and takes the new content.
   */
  lemma {:induction false} ReplaceOwnsExactlyIff(db: Tables, tenant: string, source: string, docs: seq<Document>,
                                                 chunks: seq<StampedChunk>, e: Embedder, after: Tables)
    requires FromSource(docs, source) && FreshIDs(db, chunks)
    requires Replace(db, tenant, source, docs, chunks, e) == Some(after)
    ensures (forall id :: Owned(after, tenant, source, id) <==> LastWith(docs, id).Some?)
       <==> NoForeignIDs(db, tenant, source, docs)
  {
    var mid := InsertDocuments(DeleteSource(db, tenant, source), tenant, docs);
    InsertedDocument(db, tenant, source, docs, "");
    InsertedChunks(mid, tenant, chunks, e);
    hide InsertDocuments, InsertChunks, LastWith, DeleteSource;
    forall id
      ensures Owned(after, tenant, source, id) <==>
                LastWith(docs, id).Some? && (id in db.documents ==> Owned(db, tenant, source, id))
    {
      InsertedDocument(db, tenant, source, docs, id);
    }
    forall i | 0 <= i < |docs| ensures LastWith(docs, docs[i].id).Some? {
      LastWithSome(docs, docs[i].id);
    }
    forall id | LastWith(docs, id).Some? ensures exists i :: 0 <= i < |docs| && docs[i].id == id {
      LastWithSome(docs, id);
    }
  }

  /**
   * A renamed upload: its document keeps its ID, so the row stays with the old file name and takes the
   * new content, and the new name owns nothing.
   */
  lemma {:induction false} RenamedUploadKeepsItsOldName(tenant: string, id: string, was: string, now: string,
                                                        before: string,
                                                        after: string, metadata: map<string, string>, e: Embedder)
    requires was != now
    ensures var db := Tables(map[id := DocRow(tenant, was, before, metadata)], map[]);
            var r := Replace(db, tenant, now, [Document(id, now, after, metadata)], [], e);
            && r.Some?
            && r.value.documents == map[id := DocRow(tenant, was, after, metadata)]
            && !Owned(r.value, tenant, now, id)
  {
    var db := Tables(map[id := DocRow(tenant, was, before, metadata)], map[]);
    var doc := Document(id, now, after, metadata);
    assert DeleteSource(db, tenant, now).documents == db.documents;
    assert DeleteSource(db, tenant, now).chunks == db.chunks;
    assert DeleteSource(db, tenant, now) == db;
    var mid := InsertDocument(db, tenant, doc);
    assert [doc][1..] == [];
    assert InsertDocuments(mid, tenant, []) == mid;
    assert InsertDocuments(db, tenant, [doc]) == mid;
    assert InsertChunks(mid, tenant, [], e) == Some(mid);
    assert mid.documents == map[id := DocRow(tenant, was, after, metadata)];
  }
}

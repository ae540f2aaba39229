/** The ingestion pipeline: chunk, drop repeated contents, assign IDs, replace the source's rows. */
module Ingestion {
  import opened Text
  import opened Chunking
  import opened KnowledgeStore

  /** Contents seen so far. The code keeps SHA-256 hashes; they are taken as injective here. */
  class Dedup {
    var seen: set<string>

    constructor ()
      ensures seen == {}
    {
      seen := {};
    }

    /** False the first time a content comes, true ever after. */
    method Seen(content: string) returns (again: bool)
      modifies this
      ensures again <==> content in old(seen)
      ensures seen == old(seen) + {content}
    {
      if content in seen {
        assert seen == seen + {content};
        return true;
      }
      seen := seen + {content};
      return false;
    }
  }

  function ContentSet(chunks: seq<Chunk>): (s: set<string>) {
    set i | 0 <= i < |chunks| :: chunks[i].content
  }

  /** The chunks whose content no earlier chunk has. */
  function Unique(chunks: seq<Chunk>): seq<Chunk>
    decreases |chunks|
  {
    if chunks == [] then []
    else
      var init, last := Unique(chunks[..|chunks| - 1]), chunks[|chunks| - 1];
      if last.content in ContentSet(chunks[..|chunks| - 1]) then init else init + [last]
  }

  predicate DistinctContents(chunks: seq<Chunk>) {
    forall i, j :: 0 <= i < j < |chunks| ==> chunks[i].content != chunks[j].content
  }

  lemma {:induction false} ContentSetAppend(chunks: seq<Chunk>, c: Chunk)
    ensures ContentSet(chunks + [c]) == ContentSet(chunks) + {c.content}
  {
    var all := chunks + [c];
    assert all[|chunks|] == c;
    assert forall i :: 0 <= i < |chunks| ==> all[i] == chunks[i];
  }

  /** The members of part stand in whole in the same order. */
  predicate Subsequence(part: seq<Chunk>, whole: seq<Chunk>)
    decreases |whole|
  {
    part == []
    || (whole != []
        && var init := whole[..|whole| - 1];
           Subsequence(part, init)
           || (part[|part| - 1] == whole[|whole| - 1] && Subsequence(part[..|part| - 1], init)))
  }

  lemma {:induction false} UniqueContents(chunks: seq<Chunk>)
    ensures DistinctContents(Unique(chunks)) && ContentSet(Unique(chunks)) == ContentSet(chunks)
    ensures Subsequence(Unique(chunks), chunks)
    decreases |chunks|
  {
    hide ContentSet;
    if chunks != [] {
      var init, last := chunks[..|chunks| - 1], chunks[|chunks| - 1];
      UniqueContents(init);
      assert chunks == init + [last];
      ContentSetAppend(init, last);
      if last.content !in ContentSet(init) {
        ContentSetAppend(Unique(init), last);
        MemberContents(Unique(init));
        assert (Unique(init) + [last])[..|Unique(init)|] == Unique(init);
      }
    }
  }

  lemma {:induction false} UniqueMembers(chunks: seq<Chunk>)
    ensures forall k :: 0 <= k < |chunks| && chunks[k].content !in ContentSet(chunks[..k]) ==>
              chunks[k] in Unique(chunks)
    ensures forall i :: 0 <= i < |Unique(chunks)| ==> Unique(chunks)[i] in chunks
    decreases |chunks|
  {
    hide ContentSet;
    if chunks != [] {
      var init := chunks[..|chunks| - 1];
      UniqueMembers(init);
      assert forall k :: 0 <= k < |init| ==> init[..k] == chunks[..k] && init[k] == chunks[k];
    }
  }

  /**
   * What is kept: pairwise distinct contents, the same set of contents, in the given order, and of
   * each content its first chunk.
   */
  lemma {:induction false} UniqueKeepsFirsts(chunks: seq<Chunk>)
    ensures DistinctContents(Unique(chunks)) && ContentSet(Unique(chunks)) == ContentSet(chunks)
    ensures Subsequence(Unique(chunks), chunks)
    ensures forall k :: 0 <= k < |chunks| && chunks[k].content !in ContentSet(chunks[..k]) ==>
              chunks[k] in Unique(chunks)
    ensures forall i :: 0 <= i < |Unique(chunks)| ==> Unique(chunks)[i] in chunks
  {
    UniqueContents(chunks);
    UniqueMembers(chunks);
  }

  lemma {:induction false} MemberContents(chunks: seq<Chunk>)
    ensures forall i :: 0 <= i < |chunks| ==> chunks[i].content in ContentSet(chunks)
  {
  }

  // ---------- a whole run ----------

  function Documents(docs: seq<RawDocument>): (r: seq<Document>)
    ensures |r| == |docs|
    ensures forall i :: 0 <= i < |r| ==>
              r[i] == Document(docs[i].id, Meta(docs[i], "source"), docs[i].content, docs[i].metadata)
  {
    seq(|docs|, i requires 0 <= i < |docs| =>
      Document(docs[i].id, Meta(docs[i], "source"), docs[i].content, docs[i].metadata))
  }

  /** The i-th kept chunk with the i-th new ID and the time it was stamped. */
  function Stamp(chunks: seq<Chunk>, ids: nat -> string, clock: nat -> int): (r: seq<StampedChunk>)
    ensures |r| == |chunks| && forall i :: 0 <= i < |r| ==> r[i] == StampedChunk(ids(i), clock(i), chunks[i])
  {
    seq(|chunks|, i requires 0 <= i < |chunks| => StampedChunk(ids(i), clock(i), chunks[i]))
  }

  datatype IngestError = NoDocuments | StoreFailed

  function StoredChunks(c: Chunker, docs: seq<RawDocument>, ids: nat -> string, clock: nat -> int): seq<StampedChunk>
    requires Usable(c)
  {
    Stamp(Unique(ChunkSpec(c, docs)), ids, clock)
  }

  /** The tables after a run that meets no fault. */
  function IngestSpec(db: Tables, tenant: string, c: Chunker, docs: seq<RawDocument>, e: Embedder,
                      ids: nat -> string, clock: nat -> int): Option<Tables>
    requires Usable(c)
  {
    if docs == [] then None
    else Replace(db, tenant, Meta(docs[0], "source"), Documents(docs), StoredChunks(c, docs, ids, clock), e)
  }

  method Ingest(store: PgStore, tenant: string, c: Chunker, docs: seq<RawDocument>, e: Embedder,
                ids: nat -> string, clock: nat -> int, fails: nat -> bool) returns (r: Result<nat, IngestError>)
    requires Usable(c)
    modifies store
    ensures r.Ok? ==> IngestSpec(old(store.db), tenant, c, docs, e, ids, clock) == Some(store.db)
    ensures r.Ok? ==> r.value == |Unique(ChunkSpec(c, docs))|
    ensures r.Err? ==> store.db == old(store.db)
    ensures r.Ok? <==>
              (&& IngestSpec(old(store.db), tenant, c, docs, e, ids, clock).Some?
               && forall n: nat :: n < StepsOf(Documents(docs), StoredChunks(c, docs, ids, clock)) ==> !fails(n))
    ensures docs == [] ==> r == Err(NoDocuments)
  {
    hide ChunkSpec, Replace, DocumentCompletes;
    UsableCompletes(c, docs);
    var chunked := ChunkAll(c, docs);
    var chunks := chunked.value;
    var dedup := new Dedup();
    var unique: seq<Chunk> := [];
    var i := 0;
    assert ContentSet([]) == {};
    while i < |chunks|
      invariant 0 <= i <= |chunks|
      invariant dedup.seen == ContentSet(chunks[..i])
      invariant unique == Unique(chunks[..i])
      invariant fresh(dedup) && store.db == old(store.db)
    {
      var chunk := chunks[i];
      var again := dedup.Seen(chunk.content);
      assert chunks[..i + 1] == chunks[..i] + [chunk];
      ContentSetAppend(chunks[..i], chunk);
      i := i + 1;
      if again {
        continue;
      }
      unique := unique + [chunk];
    }
    assert chunks[..i] == chunks;
    var stamped := Stamp(unique, ids, clock);
    var documents: seq<Document> := [];
    var k := 0;
    while k < |docs|
      invariant 0 <= k <= |docs|
      invariant documents == Documents(docs)[..k]
      invariant store.db == old(store.db)
    {
      var d := docs[k];
      documents := documents + [Document(d.id, Meta(d, "source"), d.content, d.metadata)];
      k := k + 1;
    }
    if |documents| == 0 {
      return Err(NoDocuments);
    }
    assert documents == Documents(docs);
    assert stamped == StoredChunks(c, docs, ids, clock);
    var ok := store.ReplaceSource(tenant, documents[0].source, documents, stamped, e, fails);
    if !ok {
      return Err(StoreFailed);
    }
    return Ok(|unique|);
  }

  // ---------- what a run leaves ----------

  /** All documents of a run name the same source, and no ID is held elsewhere. */
  ghost predicate Suits(db: Tables, tenant: string, docs: seq<RawDocument>) {
    && docs != []
    && FromSource(Documents(docs), Meta(docs[0], "source"))
    && NoForeignIDs(db, tenant, Meta(docs[0], "source"), Documents(docs))
  }

  /** A stored chunk without the ID and date that each run chooses anew. */
  datatype Lasting = Lasting(content: string, source: string, documentType: string, documentID: string,
                             metadata: map<string, string>, embedding: Vector, model: string)

  function LastingOf(c: Chunk, e: Embedder): Lasting {
    Lasting(c.content, c.source, c.documentType, c.documentID, c.metadata, e.vector(c.content), e.model)
  }

  function LastingRow(r: ChunkRow): Lasting {
    Lasting(r.content, r.source, r.documentType, r.documentID, r.metadata, r.embedding, r.model)
  }

  /** The IDs of the source's stored chunks. */
  ghost function SourceChunks(db: Tables, tenant: string, source: string): set<string> {
    set c | c in db.chunks && Owned(db, tenant, source, db.chunks[c].documentID)
  }

  /**
   * The source's rows are those of this document list: its documents, and one chunk per kept content,
   * each named by some ID, with nothing else.
   */
  ghost predicate Holds(db: Tables, tenant: string, c: Chunker, docs: seq<RawDocument>, e: Embedder, names: seq<string>)
    requires Usable(c) && docs != []
  {
    var source, kept := Meta(docs[0], "source"), Unique(ChunkSpec(c, docs));
    && (forall id :: Owned(db, tenant, source, id) <==> LastWith(Documents(docs), id).Some?)
    && (forall id :: Owned(db, tenant, source, id) ==>
          var d := LastWith(Documents(docs), id).value;
          db.documents[id] == DocRow(tenant, source, d.content, d.metadata))
    && |names| == |kept|
    && (forall i, j :: 0 <= i < j < |names| ==> names[i] != names[j])
    && (forall x :: x in SourceChunks(db, tenant, source) <==> x in names)
    && (forall i :: 0 <= i < |names| ==>
          && names[i] in db.chunks
          && LastingRow(db.chunks[names[i]]) == LastingOf(kept[i], e)
          && db.chunks[names[i]].tenant == tenant)
  }

  /** Nothing that belongs to another tenant or source differs. */
  ghost predicate OthersKept(db: Tables, after: Tables, tenant: string, source: string) {
    && (forall id :: id in db.documents && !Owned(db, tenant, source, id) ==>
          id in after.documents && after.documents[id] == db.documents[id])
    && (forall id :: id in after.documents && !Owned(after, tenant, source, id) ==>
          id in db.documents && !Owned(db, tenant, source, id))
    && (forall c :: Survives(db, tenant, source, c) ==> c in after.chunks && after.chunks[c] == db.chunks[c])
    && (forall c :: Survives(after, tenant, source, c) ==> Survives(db, tenant, source, c))
  }

  lemma {:induction false} ChunksNameDocuments(c: Chunker, docs: seq<RawDocument>, chunk: Chunk)
    requires Usable(c) && chunk in ChunkSpec(c, docs)
    ensures exists i :: 0 <= i < |docs| && docs[i].id == chunk.documentID
    decreases |docs|
  {
    hide PiecesOf, Contents;
    var init, last := docs[..|docs| - 1], docs[|docs| - 1];
    if chunk in ChunkSpec(c, init) {
      ChunksNameDocuments(c, init, chunk);
      var i :| 0 <= i < |init| && init[i].id == chunk.documentID;
      assert docs[i].id == chunk.documentID;
    } else {
      assert chunk in ChunkDocumentSpec(c, last);
      assert docs[|docs| - 1].id == chunk.documentID;
    }
  }

  /** Every stored chunk's document is among the documents of the run, so the foreign key always holds. */
  lemma {:induction false} StoredChunksHaveDocuments(c: Chunker, docs: seq<RawDocument>, ids: nat -> string,
                                                     clock: nat -> int)
    requires Usable(c)
    ensures var stored := StoredChunks(c, docs, ids, clock);
            forall i :: 0 <= i < |stored| ==> LastWith(Documents(docs), stored[i].chunk.documentID).Some?
  {
    hide ChunkSpec, LastWith, Unique;
    var stored := StoredChunks(c, docs, ids, clock);
    UniqueKeepsFirsts(ChunkSpec(c, docs));
    forall i | 0 <= i < |stored| ensures LastWith(Documents(docs), stored[i].chunk.documentID).Some? {
      ChunksNameDocuments(c, docs, stored[i].chunk);
      var k :| 0 <= k < |docs| && docs[k].id == stored[i].chunk.documentID;
      assert Documents(docs)[k].id == stored[i].chunk.documentID;
      LastWithSome(Documents(docs), stored[i].chunk.documentID);
    }
  }

  function Names(stored: seq<StampedChunk>): (r: seq<string>)
    ensures |r| == |stored| && forall i :: 0 <= i < |r| ==> r[i] == stored[i].id
  {
    seq(|stored|, i requires 0 <= i < |stored| => stored[i].id)
  }

  /** Without faults a run on suitable documents succeeds, holds exactly its documents, and touches nothing else. */
  lemma {:induction false} IngestIsExact(db: Tables, tenant: string, c: Chunker, docs: seq<RawDocument>, e: Embedder,
                                         ids: nat -> string, clock: nat -> int)
    requires Usable(c) && Linked(db) && Suits(db, tenant, docs)
    requires FreshIDs(db, StoredChunks(c, docs, ids, clock))
    ensures var r := IngestSpec(db, tenant, c, docs, e, ids, clock);
            && r.Some?
            && Linked(r.value)
            && Suits(r.value, tenant, docs)
            && Holds(r.value, tenant, c, docs, e, Names(StoredChunks(c, docs, ids, clock)))
            && OthersKept(db, r.value, tenant, Meta(docs[0], "source"))
  {
    hide ChunkSpec, LastWith, Unique, Replace, NewRow, DocumentReplaced, FreshIDs;
    var source, documents, stored := Meta(docs[0], "source"), Documents(docs), StoredChunks(c, docs, ids, clock);
    StoredChunksHaveDocuments(c, docs, ids, clock);
    ReplaceSucceeds(db, tenant, source, documents, stored, e);
    var after := Replace(db, tenant, source, documents, stored, e).value;
    ReplaceIsExact(db, tenant, source, documents, stored, e, after);
    ReplacedHolds(db, after, tenant, c, docs, e, ids, clock);
    ReplacedKeepsOthers(db, after, tenant, source, documents, stored, e);
    StillSuits(db, after, tenant, docs);
  }

  lemma {:induction false} ReplaceSucceeds(db: Tables, tenant: string, source: string, docs: seq<Document>,
                                           chunks: seq<StampedChunk>,
                                           e: Embedder)
    requires FromSource(docs, source) && FreshIDs(db, chunks)
    requires forall i :: 0 <= i < |chunks| ==> LastWith(docs, chunks[i].chunk.documentID).Some?
    ensures Replace(db, tenant, source, docs, chunks, e).Some?
  {
    hide LastWith, InsertDocuments, InsertChunks;
    var mid := InsertDocuments(DeleteSource(db, tenant, source), tenant, docs);
    forall i | 0 <= i < |chunks| ensures chunks[i].chunk.documentID in mid.documents {
      InsertedDocument(db, tenant, source, docs, chunks[i].chunk.documentID);
    }
    InsertedDocument(db, tenant, source, docs, "");
    InsertedChunks(mid, tenant, chunks, e);
  }

  lemma {:induction false} ReplacedHolds(db: Tables, after: Tables, tenant: string, c: Chunker,
                                         docs: seq<RawDocument>, e: Embedder,
                                         ids: nat -> string, clock: nat -> int)
    requires Usable(c) && docs != []
    requires var stored := StoredChunks(c, docs, ids, clock);
             && FreshIDs(db, stored)
             && DocumentsReplaced(db, after, tenant, Meta(docs[0], "source"), Documents(docs))
             && ChunksReplaced(db, after, tenant, Meta(docs[0], "source"), stored, e)
    ensures Holds(after, tenant, c, docs, e, Names(StoredChunks(c, docs, ids, clock)))
  {
    hide ChunkSpec, LastWith, Unique;
    var source, stored := Meta(docs[0], "source"), StoredChunks(c, docs, ids, clock);
    var names := Names(stored);
    forall id
      ensures Owned(after, tenant, source, id) <==> LastWith(Documents(docs), id).Some?
      ensures Owned(after, tenant, source, id) ==>
                var d := LastWith(Documents(docs), id).value;
                after.documents[id] == DocRow(tenant, source, d.content, d.metadata)
    {
      assert DocumentReplaced(db, after, tenant, source, Documents(docs), id);
    }
    forall x ensures x in SourceChunks(after, tenant, source) <==> x in names {
      NamesAreNew(stored, x);
    }
  }

  lemma {:induction false} NamesAreNew(stored: seq<StampedChunk>, x: string)
    ensures x in Names(stored) <==> IsNew(stored, x)
  {
    var names := Names(stored);
    assert forall i :: 0 <= i < |stored| ==> names[i] == stored[i].id;
  }

  lemma {:induction false} ReplacedKeepsOthers(db: Tables, after: Tables, tenant: string, source: string,
                                               docs: seq<Document>,
                                               chunks: seq<StampedChunk>, e: Embedder)
    requires NoForeignIDs(db, tenant, source, docs)
    requires DocumentsReplaced(db, after, tenant, source, docs) && ChunksReplaced(db, after, tenant, source, chunks, e)
    ensures OthersKept(db, after, tenant, source)
  {
    hide LastWith, NewRow, IsNew;
    forall id
      ensures id in db.documents && !Owned(db, tenant, source, id) ==>
                id in after.documents && after.documents[id] == db.documents[id]
      ensures id in after.documents && !Owned(after, tenant, source, id) ==>
                id in db.documents && !Owned(db, tenant, source, id)
    {
      assert DocumentReplaced(db, after, tenant, source, docs, id);
      LastWithSome(docs, id);
    }
  }

  lemma {:induction false} StillSuits(db: Tables, after: Tables, tenant: string, docs: seq<RawDocument>)
    requires Suits(db, tenant, docs)
    requires DocumentsReplaced(db, after, tenant, Meta(docs[0], "source"), Documents(docs))
    ensures Suits(after, tenant, docs)
  {
    hide LastWith;
    var source, documents := Meta(docs[0], "source"), Documents(docs);
    forall i | 0 <= i < |documents| && documents[i].id in after.documents
      ensures Owns(after.documents[documents[i].id], tenant, source)
    {
      LastWithSome(documents, documents[i].id);
      assert DocumentReplaced(db, after, tenant, source, documents, documents[i].id);
    }
  }

  /** A stored row that the document gave: its own source and type in their own columns. */
  ghost predicate RowFrom(row: ChunkRow, tenant: string, doc: RawDocument, e: Embedder) {
    && row.tenant == tenant && row.documentID == doc.id && row.metadata == doc.metadata
    && ("source" in doc.metadata ==> row.source == doc.metadata["source"])
    && ("source" !in doc.metadata ==> row.source == "")
    && ("document_type" in doc.metadata ==> row.documentType == doc.metadata["document_type"])
    && ("document_type" !in doc.metadata ==> row.documentType == "")
    && row.embedding == e.vector(row.content) && row.model == e.model
  }

  /** The k-th new row: it has the k-th ID and date, and some document gave it. */
  ghost predicate RowStored(after: Tables, tenant: string, docs: seq<RawDocument>, e: Embedder,
                            ids: nat -> string, clock: nat -> int, source: string, content: string, k: nat) {
    && ids(k) in after.chunks && after.chunks[ids(k)].date == clock(k)
    && after.chunks[ids(k)].source == source && after.chunks[ids(k)].content == content
    && exists i :: 0 <= i < |docs| && RowFrom(after.chunks[ids(k)], tenant, docs[i], e)
  }

  lemma {:induction false} StoredRow(after: Tables, tenant: string, c: Chunker, docs: seq<RawDocument>, e: Embedder,
                                     ids: nat -> string, clock: nat -> int, chunk: Chunk, k: nat)
    requires Usable(c) && docs != [] && FromSource(Documents(docs), Meta(docs[0], "source"))
    requires chunk in ChunkSpec(c, docs) && ids(k) in after.chunks
    requires after.chunks[ids(k)] == NewRow(tenant, StampedChunk(ids(k), clock(k), chunk), e)
    ensures RowStored(after, tenant, docs, e, ids, clock, Meta(docs[0], "source"), chunk.content, k)
  {
    hide ChunkSpec, Meta, Documents, NewRow, RowFrom, RowStored, IsChunkOf, FromSource;
    var stored := StampedChunk(ids(k), clock(k), chunk);
    ChunksComeFromDocuments(c, docs);
    var i :| 0 <= i < |docs| && IsChunkOf(chunk, docs[i], chunk.content);
    SourceOf(docs, i);
    RowOfChunk(tenant, stored, docs[i], e);
    RowIsStored(after, tenant, docs, e, ids, clock, stored, i, k);
  }

  lemma {:induction false} StoredChunkIs(c: Chunker, docs: seq<RawDocument>, ids: nat -> string, clock: nat -> int,
                                         k: nat)
    requires Usable(c) && k < |StoredChunks(c, docs, ids, clock)|
    ensures k < |Unique(ChunkSpec(c, docs))|
    ensures StoredChunks(c, docs, ids, clock)[k] == StampedChunk(ids(k), clock(k), Unique(ChunkSpec(c, docs))[k])
  {
    hide ChunkSpec, Unique;
  }

  lemma {:induction false} SourceOf(docs: seq<RawDocument>, i: nat)
    requires i < |docs| && FromSource(Documents(docs), Meta(docs[0], "source"))
    ensures Meta(docs[i], "source") == Meta(docs[0], "source")
  {
    hide Meta;
    assert Documents(docs)[i].source == Meta(docs[i], "source");
  }

  lemma {:induction false} RowOfChunk(tenant: string, stored: StampedChunk, doc: RawDocument, e: Embedder)
    requires IsChunkOf(stored.chunk, doc, stored.chunk.content)
    ensures RowFrom(NewRow(tenant, stored, e), tenant, doc, e)
    ensures NewRow(tenant, stored, e).source == Meta(doc, "source")
    ensures NewRow(tenant, stored, e).date == stored.date && NewRow(tenant, stored, e).content == stored.chunk.content
  {
  }

  lemma {:induction false} RowIsStored(after: Tables, tenant: string, docs: seq<RawDocument>, e: Embedder,
                                       ids: nat -> string, clock: nat -> int, stored: StampedChunk, i: nat, k: nat)
    requires i < |docs| && ids(k) in after.chunks && after.chunks[ids(k)] == NewRow(tenant, stored, e)
    requires RowFrom(NewRow(tenant, stored, e), tenant, docs[i], e)
    requires stored.date == clock(k)
    requires NewRow(tenant, stored, e).date == stored.date && NewRow(tenant, stored, e).content == stored.chunk.content
    ensures RowStored(after, tenant, docs, e, ids, clock, NewRow(tenant, stored, e).source, stored.chunk.content, k)
  {
    hide NewRow, RowFrom;
  }

  /**
   * The rows themselves, said of the documents: after a run without faults the source's chunks are one
   * row for each kept content, under the run's IDs and dates, and each has the document ID, source,
   * document type and metadata of a document of the run, the source being the replaced one.
   */
  lemma {:induction false} IngestedRows(db: Tables, tenant: string, c: Chunker, docs: seq<RawDocument>, e: Embedder,
                                        ids: nat -> string, clock: nat -> int, after: Tables)
    requires Usable(c) && Linked(db) && Suits(db, tenant, docs)
    requires FreshIDs(db, StoredChunks(c, docs, ids, clock))
    requires IngestSpec(db, tenant, c, docs, e, ids, clock) == Some(after)
    ensures var n, source := |Unique(ChunkSpec(c, docs))|, Meta(docs[0], "source");
            && (forall x :: x in SourceChunks(after, tenant, source) <==> exists k: nat :: k < n && x == ids(k))
            && (forall k: nat :: k < n ==>
                  RowStored(after, tenant, docs, e, ids, clock, source, Unique(ChunkSpec(c, docs))[k].content, k))
  {
    hide ChunkSpec, LastWith, Unique, Replace, DocumentReplaced, FreshIDs, NewRow, RowStored;
    var source, stored := Meta(docs[0], "source"), StoredChunks(c, docs, ids, clock);
    StoredChunksHaveDocuments(c, docs, ids, clock);
    ReplaceIsExact(db, tenant, source, Documents(docs), stored, e, after);
    UniqueKeepsFirsts(ChunkSpec(c, docs));
    forall k: nat | k < |stored|
      ensures RowStored(after, tenant, docs, e, ids, clock, source, Unique(ChunkSpec(c, docs))[k].content, k)
    {
      StoredChunkIs(c, docs, ids, clock, k);
      StoredRow(after, tenant, c, docs, e, ids, clock, stored[k].chunk, k);
    }
    NewRowsAreTheSources(db, after, tenant, source, stored, e, ids);
  }

  /** No later document of the run has the same ID. */
  ghost predicate IsLast(docs: seq<RawDocument>, i: nat)
    requires i < |docs|
  {
    forall j :: i < j < |docs| ==> docs[j].id != docs[i].id
  }

  /**
   * The document rows, said of the documents: after a run without faults the source owns the ID of every
   * document of the run and no other, and each row has the content and metadata of the last document
   * with that ID.
   */
  lemma {:induction false} IngestedDocuments(db: Tables, tenant: string, c: Chunker, docs: seq<RawDocument>,
                                             e: Embedder,
                                             ids: nat -> string, clock: nat -> int, after: Tables)
    requires Usable(c) && Linked(db) && Suits(db, tenant, docs)
    requires FreshIDs(db, StoredChunks(c, docs, ids, clock))
    requires IngestSpec(db, tenant, c, docs, e, ids, clock) == Some(after)
    ensures var source := Meta(docs[0], "source");
            && (forall i :: 0 <= i < |docs| ==> Owned(after, tenant, source, docs[i].id))
            && (forall id :: Owned(after, tenant, source, id) ==> exists i :: 0 <= i < |docs| && docs[i].id == id)
            && (forall i :: 0 <= i < |docs| && IsLast(docs, i) ==>
                  docs[i].id in after.documents
                  && after.documents[docs[i].id] == DocRow(tenant, source, docs[i].content, docs[i].metadata))
  {
    hide ChunkSpec, LastWith, Unique, Replace, FreshIDs, NewRow, IsLast, Meta;
    var source, stored := Meta(docs[0], "source"), StoredChunks(c, docs, ids, clock);
    StoredChunksHaveDocuments(c, docs, ids, clock);
    ReplaceIsExact(db, tenant, source, Documents(docs), stored, e, after);
    forall i | 0 <= i < |docs|
      ensures Owned(after, tenant, source, docs[i].id)
      ensures IsLast(docs, i) ==>
                docs[i].id in after.documents
                && after.documents[docs[i].id] == DocRow(tenant, source, docs[i].content, docs[i].metadata)
    {
      assert DocumentReplaced(db, after, tenant, source, Documents(docs), docs[i].id);
      LastWithSome(Documents(docs), docs[i].id);
      assert Documents(docs)[i].id == docs[i].id;
      if IsLast(docs, i) {
        LastIsFound(docs, i);
      }
    }
    forall id | Owned(after, tenant, source, id) ensures exists i :: 0 <= i < |docs| && docs[i].id == id {
      assert DocumentReplaced(db, after, tenant, source, Documents(docs), id);
      LastWithSome(Documents(docs), id);
      var i :| 0 <= i < |docs| && Documents(docs)[i].id == id;
      assert docs[i].id == id;
    }
  }

  lemma {:induction false} LastIsFound(docs: seq<RawDocument>, i: nat)
    requires i < |docs| && IsLast(docs, i)
    ensures LastWith(Documents(docs), docs[i].id)
         == Some(Document(docs[i].id, Meta(docs[i], "source"), docs[i].content, docs[i].metadata))
    decreases |docs|
  {
    hide Meta;
    var rest := docs[1..];
    assert Documents(docs)[1..] == Documents(rest);
    if i > 0 {
      assert forall j :: 0 <= j < |rest| ==> rest[j] == docs[j + 1];
      LastIsFound(rest, i - 1);
    } else {
      LastWithSome(Documents(rest), docs[0].id);
    }
  }

  lemma {:induction false} NewRowsAreTheSources(db: Tables, after: Tables, tenant: string, source: string,
                                                stored: seq<StampedChunk>,
                                                e: Embedder, ids: nat -> string)
    requires ChunksReplaced(db, after, tenant, source, stored, e)
    requires forall k :: 0 <= k < |stored| ==> stored[k].id == ids(k)
    ensures forall x :: x in SourceChunks(after, tenant, source) <==> exists k: nat :: k < |stored| && x == ids(k)
  {
    hide NewRow;
    forall x ensures x in SourceChunks(after, tenant, source) <==> exists k: nat :: k < |stored| && x == ids(k) {
      if IsNew(stored, x) {
        var k :| 0 <= k < |stored| && stored[k].id == x;
        assert x == ids(k);
      }
      if k: nat :| k < |stored| && x == ids(k) {
        assert stored[k].id == x;
      }
    }
  }

  // ---------- re-ingestion ----------

  /** What one more run chooses: its chunk IDs and its times. */
  datatype RunChoice = RunChoice(ids: nat -> string, clock: nat -> int)

  /** Ingest the same documents once per choice; every run must succeed with IDs not in use. */
  ghost predicate Reingested(db: Tables, after: Tables, tenant: string, c: Chunker, docs: seq<RawDocument>, e: Embedder,
                             runs: seq<RunChoice>)
    requires Usable(c)
    decreases |runs|
  {
    if runs == [] then after == db
    else
      && FreshIDs(db, StoredChunks(c, docs, runs[0].ids, runs[0].clock))
      && var next := IngestSpec(db, tenant, c, docs, e, runs[0].ids, runs[0].clock);
         next.Some? && Reingested(next.value, after, tenant, c, docs, e, runs[1..])
  }

  lemma {:induction false} OthersKeptTrans(a: Tables, b: Tables, c: Tables, tenant: string, source: string)
    requires OthersKept(a, b, tenant, source) && OthersKept(b, c, tenant, source)
    requires forall x :: Survives(a, tenant, source, x) ==> Survives(b, tenant, source, x)
    requires forall id :: id in a.documents && !Owned(a, tenant, source, id) ==> !Owned(b, tenant, source, id)
    ensures OthersKept(a, c, tenant, source)
  {
  }

  lemma {:induction false} SurvivorsSurvive(db: Tables, after: Tables, tenant: string, source: string)
    requires Linked(db) && OthersKept(db, after, tenant, source)
    ensures forall id :: id in db.documents && !Owned(db, tenant, source, id) ==> !Owned(after, tenant, source, id)
    ensures forall x :: Survives(db, tenant, source, x) ==> Survives(after, tenant, source, x)
  {
  }

  /**
   * Ingesting unchanged documents any number of times, at least once, leaves the same documents and
   * the same chunks up to their IDs and dates, and nothing of any other tenant or source changes.
   */
  lemma {:induction false} ReingestIsIdempotent(db: Tables, after: Tables, tenant: string, c: Chunker,
                                                docs: seq<RawDocument>, e: Embedder, runs: seq<RunChoice>)
    requires Usable(c) && Linked(db) && Suits(db, tenant, docs) && runs != []
    requires Reingested(db, after, tenant, c, docs, e, runs)
    ensures exists names :: Holds(after, tenant, c, docs, e, names)
    ensures OthersKept(db, after, tenant, Meta(docs[0], "source"))
    decreases |runs|
  {
    hide Holds, OthersKept, Suits, IngestSpec, FreshIDs;
    SuitsIsNonEmpty(db, tenant, docs);
    IngestIsExact(db, tenant, c, docs, e, runs[0].ids, runs[0].clock);
    var next := IngestSpec(db, tenant, c, docs, e, runs[0].ids, runs[0].clock).value;
    if |runs| > 1 {
      ReingestIsIdempotent(next, after, tenant, c, docs, e, runs[1..]);
      SurvivorsSurvive(db, next, tenant, Meta(docs[0], "source"));
      OthersKeptTrans(db, next, after, tenant, Meta(docs[0], "source"));
    } else {
      assert runs[1..] == [];
    }
  }

  lemma {:induction false} SuitsIsNonEmpty(db: Tables, tenant: string, docs: seq<RawDocument>)
    requires Suits(db, tenant, docs)
    ensures docs != []
  {
  }
}

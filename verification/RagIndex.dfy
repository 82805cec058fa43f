/**
 The retrieval index (src/lightworker/rag.py): four tables shared by every scope, kept in agreement with simply
 chunking the text that was last ingested under each path.

 A content hash is the content itself, a uuid is the next unused number.
 */
module RagIndex {
  import opened Prelude

  type Id = nat
  type Vector = string

  /** The chunks of a file: the text extracted from what is stored under a path, cut into chunks. */
  type Split = (string, string) -> seq<string>

  datatype Document = Document(scope: string, path: string, raw: string)

  datatype ChunkRow = ChunkRow(document: Id, scope: string, path: string, ordinal: nat, content: string)

  datatype TextRow = TextRow(content: string, scope: string, path: string)

  datatype Embedding = Embedding(scope: string, model: string, vector: Vector)

  /** The tables; every id ever given out is below `unused`. */
  datatype Tables = Tables(
    documents: map<Id, Document>,
    chunks: map<Id, ChunkRow>,
    fullText: map<Id, TextRow>,
    embeddings: map<Id, Embedding>,
    unused: Id)

  const EMPTY := Tables(map[], map[], map[], map[], 0)

  // What one transaction does

  predicate Named(doc: Document, scope: string, path: string) {
    doc.scope == scope && doc.path == path
  }

  /** `UNIQUE(scope, path)`. */
  predicate OnePerPath(documents: map<Id, Document>) {
    forall d, e | d in documents && e in documents && Named(documents[d], documents[e].scope, documents[e].path) ::
      d == e
  }

  /** The row that a SELECT by scope and path finds. */
  function Find(documents: map<Id, Document>, scope: string, path: string): (found: Option<Id>)
    requires OnePerPath(documents)
    ensures found.Some? ==> found.value in documents && Named(documents[found.value], scope, path)
    ensures found.None? ==> forall d | d in documents :: !Named(documents[d], scope, path)
  {
    if exists d :: d in documents && Named(documents[d], scope, path) then
      var d :| d in documents && Named(documents[d], scope, path);
      Some(d)
    else
      None
  }

  function Ids(t: Tables, d: Id): set<Id> {
    set id | id in t.chunks && t.chunks[id].document == d
  }

  /** All rows of the document's chunks are gone. */
  function Cleared(t: Tables, d: Id): Tables {
    t.(chunks := t.chunks - Ids(t, d), fullText := t.fullText - Ids(t, d), embeddings := t.embeddings - Ids(t, d))
  }

  function AddChunk(t: Tables, d: Id, ordinal: nat, text: string, model: string, vectors: seq<Vector>): Tables
    requires d in t.documents && ordinal > 0
  {
    var doc, id := t.documents[d], t.unused;
    Tables(
      t.documents,
      t.chunks[id := ChunkRow(d, doc.scope, doc.path, ordinal, text)],
      t.fullText[id := TextRow(text, doc.scope, doc.path)],
      if ordinal <= |vectors| then
        t.embeddings[id := Embedding(doc.scope, model, vectors[ordinal - 1])]
      else
        t.embeddings,
      id + 1)
  }

  function AddChunks(t: Tables, d: Id, texts: seq<string>, model: string, vectors: seq<Vector>): (after: Tables)
    requires d in t.documents
    ensures after.documents == t.documents
  {
    if texts == [] then
      t
    else
      var n := |texts|;
      AddChunk(AddChunks(t, d, texts[..n - 1], model, vectors), d, n, texts[n - 1], model, vectors)
  }

  function Updated(t: Tables, d: Id, doc: Document): Tables {
    Cleared(t, d).(documents := t.documents[d := doc])
  }

  function Added(t: Tables, doc: Document): Tables {
    t.(documents := t.documents[t.unused := doc], unused := t.unused + 1)
  }

  /** The row of the document itself: updated in place when there is one. */
  function WithDocument(t: Tables, doc: Document): Tables
    requires OnePerPath(t.documents)
  {
    match Find(t.documents, doc.scope, doc.path)
    case Some(d) => Updated(t, d, doc)
    case None => Added(t, doc)
  }

  function IdOf(t: Tables, scope: string, path: string): Id
    requires OnePerPath(t.documents)
  {
    match Find(t.documents, scope, path)
    case Some(d) => d
    case None => t.unused
  }

  /** The second transaction of `_ingest_file`. */
  function Ingested(t: Tables, scope: string, path: string, raw: string, texts: seq<string>,
                    model: string, vectors: seq<Vector>): Tables
    requires OnePerPath(t.documents)
  {
    AddChunks(WithDocument(t, Document(scope, path, raw)), IdOf(t, scope, path), texts, model, vectors)
  }

  /** `remove`. */
  function Removed(t: Tables, scope: string, path: string): Tables
    requires OnePerPath(t.documents)
  {
    match Find(t.documents, scope, path)
    case Some(d) => Cleared(t, d).(documents := t.documents - {d})
    case None => t
  }

  // Agreement of the tables with the texts of the documents

  /** The chunks of document `d` are exactly `texts`, numbered from 1. */
  ghost predicate Agrees(t: Tables, d: Id, texts: seq<string>) {
    && (forall id | id in Ids(t, d) ::
          1 <= t.chunks[id].ordinal <= |texts| && t.chunks[id].content == texts[t.chunks[id].ordinal - 1])
    && (forall id, other | id in Ids(t, d) && other in Ids(t, d) && t.chunks[id].ordinal == t.chunks[other].ordinal ::
          id == other)
    && (forall o | 1 <= o <= |texts| :: HasOrdinal(t, d, o))
  }

  ghost predicate HasOrdinal(t: Tables, d: Id, o: nat) {
    exists id :: id in Ids(t, d) && t.chunks[id].ordinal == o
  }

  /** Every chunk belongs to a document; full text and embeddings belong to chunks. */
  ghost predicate NoOrphans(t: Tables) {
    && (forall id | id in t.chunks :: t.chunks[id].document in t.documents
          && Named(t.documents[t.chunks[id].document], t.chunks[id].scope, t.chunks[id].path))
    && t.fullText.Keys == t.chunks.Keys
    && (forall id | id in t.chunks ::
          t.fullText[id] == TextRow(t.chunks[id].content, t.chunks[id].scope, t.chunks[id].path))
    && t.embeddings.Keys <= t.chunks.Keys
    && (forall id | id in t.embeddings :: t.embeddings[id].scope == t.chunks[id].scope)
  }

  ghost predicate Numbered(t: Tables) {
    && (forall d | d in t.documents :: d < t.unused)
    && (forall id | id in t.chunks :: id < t.unused)
  }

  ghost predicate Sound(t: Tables) {
    OnePerPath(t.documents) && NoOrphans(t) && Numbered(t)
  }

  /** Every document but `d` has the chunks of its content, and `d` has `chunks`. */
  ghost predicate GoodBut(t: Tables, split: Split, d: Id, chunks: seq<string>) {
    && Sound(t) && d in t.documents
    && (forall e | e in t.documents && e != d :: Agrees(t, e, split(t.documents[e].path, t.documents[e].raw)))
    && Agrees(t, d, chunks)
  }

  /** The index agrees with chunking every document anew. */
  ghost predicate Good(t: Tables, split: Split) {
    Sound(t) && forall d | d in t.documents :: Agrees(t, d, split(t.documents[d].path, t.documents[d].raw))
  }

  /** The rows of document `e` are the same in both states. */
  ghost predicate SameChunks(t: Tables, u: Tables, e: Id) {
    && Ids(t, e) == Ids(u, e)
    && (forall id | id in Ids(t, e) :: t.chunks[id] == u.chunks[id])
  }

  lemma AgreementIsLocal(t: Tables, u: Tables, e: Id, texts: seq<string>)
    requires SameChunks(t, u, e) && Agrees(t, e, texts)
    ensures Agrees(u, e, texts)
  {
    forall o | 1 <= o <= |texts|
      ensures HasOrdinal(u, e, o)
    {
      assert HasOrdinal(t, e, o);
      var id :| id in Ids(t, e) && t.chunks[id].ordinal == o;
      assert id in Ids(u, e) && u.chunks[id].ordinal == o;
    }
  }

  lemma OneChange(t: Tables, u: Tables, split: Split, d: Id, chunks: seq<string>)
    requires forall e | e in t.documents && e != d :: Agrees(t, e, split(t.documents[e].path, t.documents[e].raw))
    requires Sound(u) && d in u.documents && Agrees(u, d, chunks)
    requires forall e | e in u.documents && e != d ::
               e in t.documents && t.documents[e] == u.documents[e] && SameChunks(t, u, e)
    ensures GoodBut(u, split, d, chunks)
  {
    forall e | e in u.documents && e != d
      ensures Agrees(u, e, split(u.documents[e].path, u.documents[e].raw))
    {
      AgreementIsLocal(t, u, e, split(u.documents[e].path, u.documents[e].raw));
    }
  }

  lemma ClearedKeepsOthers(t: Tables, d: Id, e: Id)
    requires e != d
    ensures SameChunks(t, Cleared(t, d), e)
  {
  }

  lemma ClearedHasNoOrphans(t: Tables, d: Id)
    requires NoOrphans(t) && Numbered(t)
    ensures NoOrphans(Cleared(t, d)) && Numbered(Cleared(t, d)) && Ids(Cleared(t, d), d) == {}
  {
  }

  lemma ClearedIsGood(t: Tables, split: Split, d: Id)
    requires Good(t, split) && d in t.documents
    ensures GoodBut(Cleared(t, d), split, d, [])
  {
    ClearedHasNoOrphans(t, d);
    forall e | e in t.documents && e != d
      ensures SameChunks(t, Cleared(t, d), e)
    {
      ClearedKeepsOthers(t, d, e);
    }
    OneChange(t, Cleared(t, d), split, d, []);
  }

  lemma AddChunkKeepsOthers(t: Tables, d: Id, ordinal: nat, text: string, model: string, vectors: seq<Vector>, e: Id)
    requires d in t.documents && ordinal > 0 && Numbered(t)
    ensures e != d ==> SameChunks(t, AddChunk(t, d, ordinal, text, model, vectors), e)
    ensures Ids(AddChunk(t, d, ordinal, text, model, vectors), d) == Ids(t, d) + {t.unused}
  {
  }

  lemma AddChunkHasNoOrphans(t: Tables, d: Id, ordinal: nat, text: string, model: string, vectors: seq<Vector>)
    requires d in t.documents && ordinal > 0 && NoOrphans(t) && Numbered(t)
    ensures NoOrphans(AddChunk(t, d, ordinal, text, model, vectors))
    ensures Numbered(AddChunk(t, d, ordinal, text, model, vectors))
  {
  }

  lemma AddChunkAgrees(t: Tables, d: Id, texts: seq<string>, text: string, model: string, vectors: seq<Vector>)
    requires d in t.documents && Numbered(t) && Agrees(t, d, texts)
    ensures Agrees(AddChunk(t, d, |texts| + 1, text, model, vectors), d, texts + [text])
  {
    var u, longer := AddChunk(t, d, |texts| + 1, text, model, vectors), texts + [text];
    AddChunkKeepsOthers(t, d, |texts| + 1, text, model, vectors, d);
    forall o | 1 <= o <= |longer|
      ensures HasOrdinal(u, d, o)
    {
      if o == |longer| {
        assert t.unused in Ids(u, d) && u.chunks[t.unused].ordinal == o;
      } else {
        assert HasOrdinal(t, d, o);
        var id :| id in Ids(t, d) && t.chunks[id].ordinal == o;
        assert id in Ids(u, d) && u.chunks[id].ordinal == o;
      }
    }
  }

  lemma AddChunkIsGood(t: Tables, split: Split, d: Id, chunks: seq<string>, model: string, vectors: seq<Vector>)
    requires chunks != [] && GoodBut(t, split, d, chunks[..|chunks| - 1])
    ensures GoodBut(AddChunk(t, d, |chunks|, chunks[|chunks| - 1], model, vectors), split, d, chunks)
  {
    var n, text := |chunks|, chunks[|chunks| - 1];
    var u := AddChunk(t, d, n, text, model, vectors);
    AddChunkHasNoOrphans(t, d, n, text, model, vectors);
    AddChunkAgrees(t, d, chunks[..n - 1], text, model, vectors);
    assert chunks[..n - 1] + [text] == chunks;
    forall e | e in t.documents && e != d
      ensures SameChunks(t, u, e)
    {
      AddChunkKeepsOthers(t, d, n, text, model, vectors, e);
    }
    OneChange(t, u, split, d, chunks);
  }

  lemma {:induction false} AddChunksIsGood(t: Tables, split: Split, d: Id, chunks: seq<string>,
                                           model: string, vectors: seq<Vector>)
    requires GoodBut(t, split, d, [])
    ensures GoodBut(AddChunks(t, d, chunks, model, vectors), split, d, chunks)
  {
    if chunks != [] {
      AddChunksIsGood(t, split, d, chunks[..|chunks| - 1], model, vectors);
      AddChunkIsGood(AddChunks(t, d, chunks[..|chunks| - 1], model, vectors), split, d, chunks, model, vectors);
    }
  }

  /** Chunk number o of the document has vector number o, and no embedding when there is no such vector. */
  ghost predicate Embeds(t: Tables, d: Id, scope: string, model: string, vectors: seq<Vector>) {
    forall id | id in Ids(t, d) ::
      var o := t.chunks[id].ordinal;
      if 1 <= o <= |vectors| then
        id in t.embeddings && t.embeddings[id] == Embedding(scope, model, vectors[o - 1])
      else
        id !in t.embeddings
  }

  lemma AddChunkEmbeds(t: Tables, d: Id, ordinal: nat, text: string, model: string, vectors: seq<Vector>)
    requires d in t.documents && ordinal > 0 && NoOrphans(t) && Numbered(t)
    requires Embeds(t, d, t.documents[d].scope, model, vectors)
    ensures Embeds(AddChunk(t, d, ordinal, text, model, vectors), d, t.documents[d].scope, model, vectors)
  {
  }

  lemma {:induction false} AddChunksEmbeds(t: Tables, d: Id, texts: seq<string>, model: string, vectors: seq<Vector>)
    requires d in t.documents && NoOrphans(t) && Numbered(t) && Embeds(t, d, t.documents[d].scope, model, vectors)
    ensures var after := AddChunks(t, d, texts, model, vectors);
            NoOrphans(after) && Numbered(after) && Embeds(after, d, t.documents[d].scope, model, vectors)
  {
    if texts != [] {
      var n := |texts|;
      AddChunksEmbeds(t, d, texts[..n - 1], model, vectors);
      var before := AddChunks(t, d, texts[..n - 1], model, vectors);
      AddChunkHasNoOrphans(before, d, n, texts[n - 1], model, vectors);
      AddChunkEmbeds(before, d, n, texts[n - 1], model, vectors);
    }
  }

  lemma NewDocumentIsSound(t: Tables, doc: Document)
    requires Sound(t) && Find(t.documents, doc.scope, doc.path).None?
    ensures Sound(Added(t, doc)) && Ids(Added(t, doc), t.unused) == {}
  {
  }

  lemma SameDocumentIsSound(t: Tables, d: Id, doc: Document)
    requires Sound(t) && d in t.documents && Named(t.documents[d], doc.scope, doc.path)
    ensures Sound(t.(documents := t.documents[d := doc]))
  {
  }

  lemma DocumentsDoNotMatter(t: Tables, documents: map<Id, Document>, unused: Id, e: Id)
    ensures Ids(t.(documents := documents, unused := unused), e) == Ids(t, e)
    ensures SameChunks(t, t.(documents := documents, unused := unused), e)
  {
  }

  lemma NothingAgrees(t: Tables, d: Id)
    requires Ids(t, d) == {}
    ensures Agrees(t, d, [])
  {
  }

  lemma UpdatedKeepsOthers(t: Tables, d: Id, doc: Document, e: Id)
    ensures e != d ==> SameChunks(t, Updated(t, d, doc), e)
    ensures Ids(Updated(t, d, doc), d) == {}
  {
  }

  lemma UpdatedDocumentIsGood(t: Tables, split: Split, d: Id, doc: Document)
    requires Good(t, split) && d in t.documents && Named(t.documents[d], doc.scope, doc.path)
    ensures GoodBut(Updated(t, d, doc), split, d, [])
  {
    ClearedHasNoOrphans(t, d);
    SameDocumentIsSound(Cleared(t, d), d, doc);
    UpdatedKeepsOthers(t, d, doc, d);
    NothingAgrees(Updated(t, d, doc), d);
    forall e | e != d
      ensures SameChunks(t, Updated(t, d, doc), e)
    {
      UpdatedKeepsOthers(t, d, doc, e);
    }
    OneChange(t, Updated(t, d, doc), split, d, []);
  }

  lemma AddedDocumentIsGood(t: Tables, split: Split, doc: Document)
    requires Good(t, split) && Find(t.documents, doc.scope, doc.path).None?
    ensures GoodBut(Added(t, doc), split, t.unused, [])
  {
    NewDocumentIsSound(t, doc);
    NothingAgrees(Added(t, doc), t.unused);
    forall e {
      DocumentsDoNotMatter(t, Added(t, doc).documents, t.unused + 1, e);
    }
    OneChange(t, Added(t, doc), split, t.unused, []);
  }

  lemma WithDocumentIsGood(t: Tables, split: Split, doc: Document)
    requires Good(t, split)
    ensures GoodBut(WithDocument(t, doc), split, IdOf(t, doc.scope, doc.path), [])
  {
    match Find(t.documents, doc.scope, doc.path)
    case Some(d) =>
      UpdatedDocumentIsGood(t, split, d, doc);
    case None =>
      AddedDocumentIsGood(t, split, doc);
  }

  lemma IngestedIsGood(t: Tables, split: Split, scope: string, path: string, raw: string,
                       model: string, vectors: seq<Vector>)
    requires Good(t, split)
    ensures Good(Ingested(t, scope, path, raw, split(path, raw), model, vectors), split)
  {
    WithDocumentIsGood(t, split, Document(scope, path, raw));
    AddChunksIsGood(WithDocument(t, Document(scope, path, raw)), split, IdOf(t, scope, path), split(path, raw),
                    model, vectors);
  }

  lemma RemovedIsGood(t: Tables, split: Split, scope: string, path: string)
    requires Good(t, split)
    ensures Good(Removed(t, scope, path), split)
  {
    if Find(t.documents, scope, path).Some? {
      var d, u := Find(t.documents, scope, path).value, Removed(t, scope, path);
      ClearedIsGood(t, split, d);
      RemovedIsSound(Cleared(t, d), d);
      forall e | e in u.documents
        ensures Agrees(u, e, split(u.documents[e].path, u.documents[e].raw))
      {
        DocumentsDoNotMatter(Cleared(t, d), u.documents, u.unused, e);
        AgreementIsLocal(Cleared(t, d), u, e, split(u.documents[e].path, u.documents[e].raw));
      }
    }
  }

  lemma RemovedIsSound(t: Tables, d: Id)
    requires Sound(t) && Ids(t, d) == {}
    ensures Sound(t.(documents := t.documents - {d}))
  {
    forall id | id in t.chunks
      ensures t.chunks[id].document != d
    {
      assert id !in Ids(t, d);
    }
  }

  /** After an ingest the document's chunks have the vectors of this ingest, one by one, and no others. */
  lemma IngestedEmbeds(t: Tables, split: Split, scope: string, path: string, raw: string, texts: seq<string>,
                       model: string, vectors: seq<Vector>)
    requires Good(t, split)
    ensures Embeds(Ingested(t, scope, path, raw, texts, model, vectors), IdOf(t, scope, path), scope, model, vectors)
  {
    var d, u := IdOf(t, scope, path), WithDocument(t, Document(scope, path, raw));
    WithDocumentIsGood(t, split, Document(scope, path, raw));
    assert u.documents[d].scope == scope;
    assert Ids(u, d) == {} by {
      if Find(t.documents, scope, path).Some? {
        UpdatedKeepsOthers(t, d, Document(scope, path, raw), d);
      } else {
        NewDocumentIsSound(t, Document(scope, path, raw));
      }
    }
    AddChunksEmbeds(u, d, texts, model, vectors);
  }

  // The map from scope and path to content that the index stands for

  type Library = map<(string, string), string>

  ghost predicate Represents(documents: map<Id, Document>, library: Library) {
    && OnePerPath(documents)
    && (forall d | d in documents :: InLibrary(library, documents[d]))
    && (forall k | k in library :: HasRow(documents, k))
  }

  ghost predicate HasRow(documents: map<Id, Document>, k: (string, string)) {
    exists d :: d in documents && Named(documents[d], k.0, k.1)
  }

  ghost predicate InLibrary(library: Library, doc: Document) {
    (doc.scope, doc.path) in library && library[(doc.scope, doc.path)] == doc.raw
  }

  lemma SettingKeepsOnePerPath(documents: map<Id, Document>, d: Id, doc: Document)
    requires OnePerPath(documents)
    requires Find(documents, doc.scope, doc.path) == (if d in documents then Some(d) else None)
    ensures OnePerPath(documents[d := doc])
    ensures forall e | e in documents && e != d :: !Named(documents[e], doc.scope, doc.path)
  {
  }

  lemma SettingUpdatesLibrary(documents: map<Id, Document>, library: Library, d: Id, doc: Document)
    requires Represents(documents, library)
    requires Find(documents, doc.scope, doc.path) == (if d in documents then Some(d) else None)
    ensures Represents(documents[d := doc], library[(doc.scope, doc.path) := doc.raw])
  {
    SettingKeepsOnePerPath(documents, d, doc);
    var after := documents[d := doc];
    forall k | k in library[(doc.scope, doc.path) := doc.raw]
      ensures HasRow(after, k)
    {
      if k == (doc.scope, doc.path) {
        assert Named(after[d], k.0, k.1);
      } else {
        assert HasRow(documents, k);
        var e :| e in documents && Named(documents[e], k.0, k.1);
        assert e != d && Named(after[e], k.0, k.1);
      }
    }
  }

  lemma IngestingUpdatesLibrary(t: Tables, library: Library, scope: string, path: string, raw: string)
    requires Represents(t.documents, library) && Numbered(t)
    ensures Represents(WithDocument(t, Document(scope, path, raw)).documents, library[(scope, path) := raw])
  {
    SettingUpdatesLibrary(t.documents, library, IdOf(t, scope, path), Document(scope, path, raw));
  }

  lemma RemovingUpdatesLibrary(t: Tables, library: Library, scope: string, path: string)
    requires Represents(t.documents, library)
    ensures Represents(Removed(t, scope, path).documents, library - {(scope, path)})
  {
    var documents := Removed(t, scope, path).documents;
    forall k | k in library - {(scope, path)}
      ensures HasRow(documents, k)
    {
      assert HasRow(t.documents, k);
      var e :| e in t.documents && Named(t.documents[e], k.0, k.1);
      assert e in documents && Named(documents[e], k.0, k.1);
    }
  }

  // Runs: transactions of any scopes, in any order

  datatype Op =
    | Ingest(scope: string, path: string, raw: string, vectors: seq<Vector>)
    | Remove(scope: string, path: string)

  function LibraryAfter(ops: seq<Op>): Library {
    if ops == [] then
      map[]
    else
      var before := LibraryAfter(ops[..|ops| - 1]);
      match ops[|ops| - 1]
      case Ingest(scope, path, raw, _) => before[(scope, path) := raw]
      case Remove(scope, path) => before - {(scope, path)}
  }

  /** In every run the index agrees with the last content ingested under each path, chunked anew. */
  ghost function TablesAfter(ops: seq<Op>, split: Split, model: string): (t: Tables)
    ensures Good(t, split)
    ensures Represents(t.documents, LibraryAfter(ops))
  {
    if ops == [] then
      EMPTY
    else
      var before := TablesAfter(ops[..|ops| - 1], split, model);
      match ops[|ops| - 1]
      case Ingest(scope, path, raw, vectors) =>
        IngestedIsGood(before, split, scope, path, raw, model, vectors);
        IngestingUpdatesLibrary(before, LibraryAfter(ops[..|ops| - 1]), scope, path, raw);
        Ingested(before, scope, path, raw, split(path, raw), model, vectors)
      case Remove(scope, path) =>
        RemovedIsGood(before, split, scope, path);
        RemovingUpdatesLibrary(before, LibraryAfter(ops[..|ops| - 1]), scope, path);
        Removed(before, scope, path)
  }

  // What one transaction leaves alone, and what the shortcut may rely on

  /** All rows of document `e` are the same in both states. */
  ghost predicate SameRows(t: Tables, u: Tables, e: Id) {
    && e in t.documents && e in u.documents && t.documents[e] == u.documents[e]
    && SameChunks(t, u, e)
    && forall id | id in Ids(t, e) ::
         && (id in t.fullText <==> id in u.fullText) && (id in t.fullText ==> t.fullText[id] == u.fullText[id])
         && (id in t.embeddings <==> id in u.embeddings)
         && (id in t.embeddings ==> t.embeddings[id] == u.embeddings[id])
  }

  lemma {:induction false} AddChunksKeepsOthers(t: Tables, d: Id, texts: seq<string>,
                                                model: string, vectors: seq<Vector>, e: Id)
    requires Numbered(t) && d in t.documents && e in t.documents && e != d
    ensures Numbered(AddChunks(t, d, texts, model, vectors)) && SameRows(t, AddChunks(t, d, texts, model, vectors), e)
  {
    if texts != [] {
      AddChunksKeepsOthers(t, d, texts[..|texts| - 1], model, vectors, e);
    }
  }

  lemma RowsOfOthers(t: Tables, d: Id, doc: Document, e: Id)
    requires Sound(t) && e in t.documents && e != d
    ensures SameRows(t, Updated(t, d, doc), e)
    ensures SameRows(t, Cleared(t, d).(documents := t.documents - {d}), e)
    ensures SameRows(t, Added(t, doc), e)
  {
  }

  /** Ingesting or removing one path leaves every row of every other document, of any scope, as it was. */
  lemma OtherDocumentsUntouched(t: Tables, scope: string, path: string, raw: string, texts: seq<string>,
                                model: string, vectors: seq<Vector>, e: Id)
    requires Sound(t) && e in t.documents && !Named(t.documents[e], scope, path)
    ensures SameRows(t, Ingested(t, scope, path, raw, texts, model, vectors), e)
    ensures SameRows(t, Removed(t, scope, path), e)
  {
    var d, doc := IdOf(t, scope, path), Document(scope, path, raw);
    RowsOfOthers(t, d, doc, e);
    AddChunksKeepsOthers(WithDocument(t, doc), d, texts, model, vectors, e);
  }

  lemma WithoutLast(t: Tables, d: Id, texts: seq<string>, id: Id)
    requires texts != [] && Agrees(t, d, texts) && id in Ids(t, d) && t.chunks[id].ordinal == |texts|
    ensures Ids(t.(chunks := t.chunks - {id}), d) == Ids(t, d) - {id}
    ensures Agrees(t.(chunks := t.chunks - {id}), d, texts[..|texts| - 1])
  {
    var u := t.(chunks := t.chunks - {id});
    forall o | 1 <= o < |texts|
      ensures HasOrdinal(u, d, o)
    {
      assert HasOrdinal(t, d, o);
      var other :| other in Ids(t, d) && t.chunks[other].ordinal == o;
      assert other in Ids(u, d) && u.chunks[other].ordinal == o;
    }
  }

  lemma {:induction false} ChunkCount(t: Tables, d: Id, texts: seq<string>)
    requires Agrees(t, d, texts)
    ensures |Ids(t, d)| == |texts|
    decreases |texts|
  {
    if texts == [] {
      assert Ids(t, d) == {};
    } else {
      assert HasOrdinal(t, d, |texts|);
      var id :| id in Ids(t, d) && t.chunks[id].ordinal == |texts|;
      WithoutLast(t, d, texts, id);
      ChunkCount(t.(chunks := t.chunks - {id}), d, texts[..|texts| - 1]);
    }
  }

  /** The chunks of a document that have an embedding of the model. */
  function Embedded(t: Tables, d: Id, model: string): set<Id> {
    set id | id in t.embeddings && id in Ids(t, d) && t.embeddings[id].model == model
  }

  /** The test of the first transaction of `_ingest_file`, on the document that it found. */
  predicate IsUnchanged(t: Tables, d: Id, raw: string, enabled: bool, model: string)
    requires d in t.documents
  {
    t.documents[d].raw == raw && (!enabled || |Embedded(t, d, model)| == |Ids(t, d)|)
  }

  lemma {:induction false} FullSubset(a: set<Id>, b: set<Id>)
    requires a <= b && |a| == |b|
    ensures a == b
  {
    if x :| x in a {
      FullSubset(a - {x}, b - {x});
    }
  }

  /** A document counts as unchanged exactly when its content is, and every chunk is embedded if it should be. */
  lemma UnchangedWhen(t: Tables, d: Id, raw: string, enabled: bool, model: string)
    requires d in t.documents
    ensures IsUnchanged(t, d, raw, enabled, model) <==>
              && t.documents[d].raw == raw
              && (enabled ==> forall id | id in t.chunks && t.chunks[id].document == d ::
                                id in t.embeddings && t.embeddings[id].model == model)
  {
    if |Embedded(t, d, model)| == |Ids(t, d)| {
      FullSubset(Embedded(t, d, model), Ids(t, d));
    }
    if forall id | id in Ids(t, d) :: id in t.embeddings && t.embeddings[id].model == model {
      assert Embedded(t, d, model) == Ids(t, d);
    }
  }

  /** When ingesting is skipped, the chunks are those of the content, and all are embedded if they should be. */
  lemma SkippingIsSafe(t: Tables, split: Split, library: Library, d: Id, scope: string, path: string, raw: string,
                       enabled: bool, model: string)
    requires Good(t, split) && Represents(t.documents, library)
    requires Find(t.documents, scope, path) == Some(d) && IsUnchanged(t, d, raw, enabled, model)
    ensures library[(scope, path) := raw] == library
    ensures Agrees(t, d, split(path, raw)) && |Ids(t, d)| == |split(path, raw)|
    ensures enabled ==> forall id | id in Ids(t, d) :: id in t.embeddings && t.embeddings[id].model == model
  {
    assert InLibrary(library, t.documents[d]);
    ChunkCount(t, d, split(path, raw));
    if enabled {
      FullSubset(Embedded(t, d, model), Ids(t, d));
    }
  }

  // The transactions as they run on the tables

  class Database {
    var documents: map<Id, Document>
    var chunks: map<Id, ChunkRow>
    var fullText: map<Id, TextRow>
    var embeddings: map<Id, Embedding>
    var unused: Id

    ghost function Rows(): Tables
      reads this
    {
      Tables(documents, chunks, fullText, embeddings, unused)
    }

    constructor ()
      ensures Rows() == EMPTY
    {
      documents, chunks, fullText, embeddings, unused := map[], map[], map[], map[], 0;
    }

    /** The deletions that replacing and removing a document share: row by row, then the chunks at once. */
    method Clear(d: Id)
      modifies this
      ensures Rows() == Cleared(old(Rows()), d)
    {
      var ids := set id | id in chunks && chunks[id].document == d;
      var left := ids;
      while left != {}
        invariant left <= ids && documents == old(documents) && chunks == old(chunks) && unused == old(unused)
        invariant fullText == old(fullText) - (ids - left) && embeddings == old(embeddings) - (ids - left)
        decreases left
      {
        var id :| id in left;
        fullText, embeddings := fullText - {id}, embeddings - {id};
        left := left - {id};
      }
      chunks := chunks - ids;
    }

    method Insert(d: Id, texts: seq<string>, model: string, vectors: seq<Vector>)
      requires d in documents
      modifies this
      ensures Rows() == AddChunks(old(Rows()), d, texts, model, vectors)
    {
      var doc := documents[d];
      for n := 0 to |texts|
        invariant documents == old(documents) && Rows() == AddChunks(old(Rows()), d, texts[..n], model, vectors)
      {
        assert texts[..n + 1][..n] == texts[..n];
        var id := unused;
        unused := unused + 1;
        chunks := chunks[id := ChunkRow(d, doc.scope, doc.path, n + 1, texts[n])];
        fullText := fullText[id := TextRow(texts[n], doc.scope, doc.path)];
        if n + 1 <= |vectors| {
          embeddings := embeddings[id := Embedding(doc.scope, model, vectors[n])];
        }
      }
      assert texts[..|texts|] == texts;
    }

    /** The first transaction of `_ingest_file`: the counts that are reported when nothing needs to be done. */
    method Check(scope: string, path: string, raw: string, enabled: bool, model: string) returns (r: Option<(nat, nat)>)
      requires OnePerPath(documents)
      ensures
        match Find(documents, scope, path)
        case None => r.None?
        case Some(d) => (
          && r.Some? == IsUnchanged(Rows(), d, raw, enabled, model)
          && (r.Some? ==> r.value == (|Ids(Rows(), d)|, |Embedded(Rows(), d, model)|)))
    {
      match Find(documents, scope, path)
      case None =>
        r := None;
      case Some(d) =>
        var t := Tables(documents, chunks, fullText, embeddings, unused);
        r := if IsUnchanged(t, d, raw, enabled, model) then Some((|Ids(t, d)|, |Embedded(t, d, model)|)) else None;
    }

    /** The second transaction of `_ingest_file`. */
    method Replace(scope: string, path: string, raw: string, texts: seq<string>, model: string, vectors: seq<Vector>)
      requires OnePerPath(documents)
      modifies this
      ensures Rows() == Ingested(old(Rows()), scope, path, raw, texts, model, vectors)
    {
      var existing := Find(documents, scope, path);
      var d := unused;
      if existing.Some? {
        d := existing.value;
        Clear(d);
      } else {
        unused := unused + 1;
      }
      documents := documents[d := Document(scope, path, raw)];
      Insert(d, texts, model, vectors);
    }

    method Remove(scope: string, path: string) returns (removed: bool)
      requires OnePerPath(documents)
      modifies this
      ensures Rows() == Removed(old(Rows()), scope, path)
      ensures removed == Find(old(documents), scope, path).Some?
    {
      var row := Find(documents, scope, path);
      if row.None? {
        return false;
      }
      Clear(row.value);
      documents := documents - {row.value};
      return true;
    }
  }
}

/**
 * `IngestionPipeline` (src/ingestion_pipeline.py): loads a file, splits its
 * text into chunks and stores them, with ids `<basename>_<i>` and metadata
 * `{'source': <basename>}`, in the `analyst_assistant_collection` collection of
 * the chromadb store. Its components are built on demand by `_initialize`.
 */
module IngestionPipeline {
  import opened Wrappers
  import opened Text
  import opened Backends
  import DocumentParser

  const ChromaDbPath: string := "chroma_db"
  const EmbeddingModel: string := "all-MiniLM-L6-v2"
  const CollectionName: string := "analyst_assistant_collection"
  const ChunkSize: nat := 1000
  const ChunkOverlap: nat := 200

  /** `text_splitter.split_text(text)`: the library's chunking, an oracle. */
  type Splitter = (TextSplitter, string) -> seq<string>

  /** The id of chunk `i` of a file whose basename is `base`. */
  function ChunkId(base: string, i: nat): string {
    base + "_" + NatToString(i)
  }

  /** The ids of the first `n` chunks of a file, in order. */
  function ChunkIds(base: string, n: nat): seq<string> {
    seq(n, i requires 0 <= i < n => ChunkId(base, i))
  }

  /** One `source` metadata entry per chunk, all naming the basename. */
  function SourceMetadatas(base: string, n: nat): seq<Metadata> {
    seq(n, _ => map["source" := base])
  }

  /**
   * A chunk id splits back into its parts: the basename before the last '_'
   * and, after it, the decimal digits of the chunk's position.
   */
  lemma ChunkIdParts(base: string, i: nat)
    ensures LastIndexOf(ChunkId(base, i), '_') == |base|
    ensures ChunkId(base, i)[..|base|] == base
    ensures DecimalValue(ChunkId(base, i)[|base| + 1..]) == i
  {
    var id := ChunkId(base, i);
    assert id[|base| + 1..] == NatToString(i);
    DecimalRoundTrip(i);
  }

  /** The ids of one ingestion are pairwise distinct. */
  lemma ChunkIdsDistinct(base: string, n: nat, i: nat, j: nat)
    requires i < n && j < n && i != j
    ensures ChunkIds(base, n)[i] != ChunkIds(base, n)[j]
  {
    if ChunkId(base, i) == ChunkId(base, j) {
      ChunkIdParts(base, i);
      ChunkIdParts(base, j);
    }
  }

  /** The file is accepted and its parser extracts some text. */
  predicate YieldsText(filePath: string, parsers: DocumentParser.Parsers) {
    DocumentParser.LoadDocument(filePath, parsers).Success? && DocumentParser.LoadDocument(filePath, parsers).value != ""
  }

  /**
   * The chunks an ingestion of `filePath` stores: none when the file is
   * rejected or yields no text; otherwise the splitter's chunks in order,
   * chunk `i` with id `<basename>_<i>` and source `<basename>`.
   */
  function Ingested(filePath: string, parsers: DocumentParser.Parsers, split: Splitter): (r: seq<Entry>)
    ensures DocumentParser.LoadDocument(filePath, parsers).Failure? ==> r == []
    ensures DocumentParser.LoadDocument(filePath, parsers) == Success("") ==> r == []
  {
    match DocumentParser.LoadDocument(filePath, parsers)
    case Failure(_) => []
    case Success(text) =>
      if text == "" then []
      else
        var chunks := split(TextSplitter(ChunkSize, ChunkOverlap), text);
        var base := DocumentParser.Basename(filePath);
        NewEntries(chunks, ChunkIds(base, |chunks|), SourceMetadatas(base, |chunks|))
  }

  /**
   * What a non-empty ingestion stores, position by position: the splitter
   * output in order, every id distinct and every chunk tagged with the
   * file's basename.
   */
  lemma IngestedRecords(filePath: string, parsers: DocumentParser.Parsers, split: Splitter)
    requires YieldsText(filePath, parsers)
    ensures var chunks := split(TextSplitter(ChunkSize, ChunkOverlap), DocumentParser.LoadDocument(filePath, parsers).value);
      var r := Ingested(filePath, parsers, split);
      && Documents(r) == chunks
      && (forall k :: 0 <= k < |r| ==> r[k].id == ChunkId(DocumentParser.Basename(filePath), k))
      && (forall k :: 0 <= k < |r| ==> r[k].metadata == map["source" := DocumentParser.Basename(filePath)])
      && (forall k, m :: 0 <= k < m < |r| ==> r[k].id != r[m].id)
  {
    var text := DocumentParser.LoadDocument(filePath, parsers).value;
    var chunks := split(TextSplitter(ChunkSize, ChunkOverlap), text);
    var base := DocumentParser.Basename(filePath);
    var r := Ingested(filePath, parsers, split);
    forall k, m | 0 <= k < m < |r| ensures r[k].id != r[m].id {
      ChunkIdsDistinct(base, |chunks|, k, m);
    }
  }

  class IngestionPipeline {
    var dbClient: Option<Client>
    var collection: Option<CollectionRef>
    var embeddingFunction: Option<Embeddings>
    var textSplitter: Option<TextSplitter>
    /** How many times `_initialize` has run on this instance. */
    ghost var initializations: nat

    /** All four components hold the values `_initialize` builds. */
    predicate Initialized()
      reads this
    {
      && dbClient == Some(Client(ChromaDbPath))
      && collection == Some(CollectionRef(CollectionName))
      && embeddingFunction == Some(Embeddings(EmbeddingModel, "cpu"))
      && textSplitter == Some(TextSplitter(ChunkSize, ChunkOverlap))
    }

    /** Either nothing is built yet, or everything is, by at least one `_initialize`. */
    ghost predicate Valid()
      reads this
    {
      if initializations == 0 then
        dbClient.None? && collection.None? && embeddingFunction.None? && textSplitter.None?
      else
        Initialized()
    }

    constructor()
      ensures Valid() && initializations == 0 && collection.None?
    {
      dbClient := None;
      collection := None;
      embeddingFunction := None;
      textSplitter := None;
      initializations := 0;
    }

    /** `_initialize`: unguarded, it rebuilds every component on each call. */
    method Initialize(store: Store)
      modifies this, store
      ensures Valid() && Initialized()
      ensures initializations == old(initializations) + 1
      ensures store.collections ==
        if CollectionName in old(store.collections) then old(store.collections)
        else old(store.collections)[CollectionName := []]
      ensures store.addLog == old(store.addLog)
    {
      dbClient := Some(Client(ChromaDbPath));
      var c := store.GetOrCreateCollection(CollectionName);
      collection := Some(c);
      embeddingFunction := Some(Embeddings(EmbeddingModel, "cpu"));
      textSplitter := Some(TextSplitter(ChunkSize, ChunkOverlap));
      initializations := initializations + 1;
    }

    /** The guard of `ingest_file`: `_initialize` runs only while there is no collection. */
    method EnsureInitialized(store: Store)
      requires Valid()
      modifies this, store
      ensures Valid() && Initialized()
      ensures initializations == old(initializations) + (if old(collection).None? then 1 else 0)
      ensures store.collections - {CollectionName} == old(store.collections) - {CollectionName}
      ensures store.Contents(CollectionName) == old(store.Contents(CollectionName))
      ensures store.addLog == old(store.addLog)
    {
      if collection.None? {
        Initialize(store);
      }
    }

    /**
     * `ingest_file(file_path)`: initializes only while there is no
     * collection, fails with the loader's error for an unsupported file,
     * stores nothing for empty text, and otherwise makes exactly one `add`
     * call with the chunks `Ingested` describes.
     */
    method IngestFile(filePath: string, parsers: DocumentParser.Parsers, split: Splitter, store: Store)
      returns (r: Result<(), DocumentParser.LoadError>)
      requires Valid()
      modifies this, store
      ensures Valid() && Initialized()
      ensures initializations == old(initializations) + (if old(collection).None? then 1 else 0)
      ensures r.Failure? <==> DocumentParser.LoadDocument(filePath, parsers).Failure?
      ensures r.Failure? ==> r.error == DocumentParser.LoadDocument(filePath, parsers).error
      ensures store.addLog == old(store.addLog) +
        (if YieldsText(filePath, parsers) then [Ingested(filePath, parsers, split)] else [])
      ensures store.collections - {CollectionName} == old(store.collections) - {CollectionName}
      ensures store.Contents(CollectionName) == old(store.Contents(CollectionName)) + Ingested(filePath, parsers, split)
    {
      EnsureInitialized(store);
      var loaded := DocumentParser.LoadDocument(filePath, parsers);
      if loaded.Failure? {
        assert Ingested(filePath, parsers, split) == [] && !YieldsText(filePath, parsers);
        return Failure(loaded.error);
      }
      var text := loaded.value;
      if text == "" {
        assert Ingested(filePath, parsers, split) == [] && !YieldsText(filePath, parsers);
        return Success(());
      }
      var chunks := split(textSplitter.value, text);
      var base := DocumentParser.Basename(filePath);
      var ids := ChunkIds(base, |chunks|);
      assert Ingested(filePath, parsers, split) == NewEntries(chunks, ids, SourceMetadatas(base, |ids|));
      store.Add(collection.value, chunks, ids, SourceMetadatas(base, |ids|));
      return Success(());
    }
  }
}

/**
 * Stand-ins for the libraries the pipelines drive: the chromadb store on
 * disk, and the settings values that the HuggingFace embedding model, the
 * ctransformers LLM and the langchain text splitter are built from. Only
 * what the shown code relies on is modelled: a collection is an ordered list
 * of stored chunks, `add` appends to it, and `get(where={"source": f})`
 * selects the chunks whose `source` metadata is exactly `f`. Nearest
 * neighbour search, embedding, splitting and text generation stay oracles,
 * passed to the operations that use them.
 */
module Backends {
  import opened Wrappers

  /** Chunk metadata, e.g. `{'source': 'report.pdf'}`. */
  type Metadata = map<string, string>

  /** One stored chunk of a collection. */
  datatype Entry = Entry(id: string, document: string, metadata: Metadata)

  /** `chromadb.PersistentClient(path=...)` */
  datatype Client = Client(path: string)

  /** A collection object: a handle naming a collection of the store. */
  datatype CollectionRef = CollectionRef(name: string)

  /** `HuggingFaceEmbeddings(model_name=..., model_kwargs={'device': ...})` */
  datatype Embeddings = Embeddings(modelName: string, device: string)

  /** `RecursiveCharacterTextSplitter(chunk_size=..., chunk_overlap=..., length_function=len)` */
  datatype TextSplitter = TextSplitter(chunkSize: nat, chunkOverlap: nat)

  /** `AutoModelForCausalLM.from_pretrained(...)`: the settings a loaded model carries. */
  datatype LlmSettings = LlmSettings(
    modelPath: string, modelType: string, gpuLayers: nat,
    temperature: real, maxNewTokens: nat, contextLength: nat)

  /** The query embedding a `embed_query` call produces. */
  type Vector = seq<real>

  /** `collection.query(...)`: the hits for an embedding, best first, at most `n` wanted. */
  type Nearest = (seq<Entry>, Vector, nat) -> seq<Entry>

  /** The chunks of `entries` whose `source` metadata is exactly `source`, in stored order. */
  function WithSource(entries: seq<Entry>, source: string): (r: seq<Entry>)
    ensures |r| <= |entries|
    ensures forall k :: 0 <= k < |r| ==> r[k] in entries
    ensures forall k :: 0 <= k < |r| ==> "source" in r[k].metadata && r[k].metadata["source"] == source
  {
    if entries == [] then []
    else
      var rest := WithSource(entries[1..], source);
      var e := entries[0];
      if "source" in e.metadata && e.metadata["source"] == source then [e] + rest else rest
  }

  /** Every stored chunk with that exact source is selected. */
  lemma {:induction false} WithSourceComplete(entries: seq<Entry>, source: string, e: Entry)
    requires e in entries && "source" in e.metadata && e.metadata["source"] == source
    ensures e in WithSource(entries, source)
  {
    if entries[0] != e {
      WithSourceComplete(entries[1..], source, e);
    }
  }

  /** The documents of a list of chunks, in order. */
  function Documents(entries: seq<Entry>): (r: seq<string>)
    ensures |r| == |entries|
    ensures forall k :: 0 <= k < |r| ==> r[k] == entries[k].document
  {
    seq(|entries|, k requires 0 <= k < |entries| => entries[k].document)
  }

  /** The metadatas of a list of chunks, in order. */
  function Metadatas(entries: seq<Entry>): (r: seq<Metadata>)
    ensures |r| == |entries|
    ensures forall k :: 0 <= k < |r| ==> r[k] == entries[k].metadata
  {
    seq(|entries|, k requires 0 <= k < |entries| => entries[k].metadata)
  }

  /** The chunks an `add(documents=..., ids=..., metadatas=...)` call stores, position by position. */
  function NewEntries(documents: seq<string>, ids: seq<string>, metadatas: seq<Metadata>): (r: seq<Entry>)
    requires |documents| == |ids| == |metadatas|
    ensures |r| == |ids|
    ensures Documents(r) == documents
    ensures forall k :: 0 <= k < |r| ==> r[k].id == ids[k] && r[k].metadata == metadatas[k]
  {
    seq(|ids|, k requires 0 <= k < |ids| => Entry(ids[k], documents[k], metadatas[k]))
  }

  /** The persistent chromadb directory: its collections by name. */
  class Store {
    var collections: map<string, seq<Entry>>
    /** The chunks passed to each `add` call so far, one element per call. */
    ghost var addLog: seq<seq<Entry>>

    constructor()
      ensures collections == map[] && addLog == []
    {
      collections := map[];
      addLog := [];
    }

    /** The stored chunks of a collection; a collection that does not exist has none. */
    function Contents(name: string): seq<Entry>
      reads this
    {
      if name in collections then collections[name] else []
    }

    /** `client.get_or_create_collection(name=...)` */
    method GetOrCreateCollection(name: string) returns (c: CollectionRef)
      modifies this
      ensures c == CollectionRef(name) && name in collections
      ensures collections == if name in old(collections) then old(collections) else old(collections)[name := []]
      ensures addLog == old(addLog)
    {
      if name !in collections {
        collections := collections[name := []];
      }
      c := CollectionRef(name);
    }

    /** `client.get_collection(name=...)`, which raises when the collection does not exist. */
    method GetCollection(name: string) returns (c: Option<CollectionRef>)
      ensures c.Some? <==> name in collections
      ensures c.Some? ==> c.value.name == name
    {
      c := if name in collections then Some(CollectionRef(name)) else None;
    }

    /** `collection.add(documents=..., ids=..., metadatas=...)`: the chunks are appended. */
    method Add(c: CollectionRef, documents: seq<string>, ids: seq<string>, metadatas: seq<Metadata>)
      requires |documents| == |ids| == |metadatas|
      modifies this
      ensures collections == old(collections)[c.name := old(Contents(c.name)) + NewEntries(documents, ids, metadatas)]
      ensures addLog == old(addLog) + [NewEntries(documents, ids, metadatas)]
    {
      collections := collections[c.name := Contents(c.name) + NewEntries(documents, ids, metadatas)];
      addLog := addLog + [NewEntries(documents, ids, metadatas)];
    }

    /** `collection.get(where={"source": source})['documents']` */
    function GetWhereSource(c: CollectionRef, source: string): seq<string>
      reads this
    {
      Documents(WithSource(Contents(c.name), source))
    }
  }
}

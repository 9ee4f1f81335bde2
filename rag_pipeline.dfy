/**
 * `RAGPipeline` (src/rag_pipeline.py): answers a question from the chunks the
 * store returns for it, suggests follow-up questions, and summarizes one
 * stored document. The embedding model, the nearest-neighbour search and the
 * LLM are oracles; every prompt sent to the LLM is recorded in `llmCalls`.
 */
module RagPipeline {
  import opened Wrappers
  import opened Text
  import opened Backends

  const ChromaDbPath: string := "chroma_db"
  const EmbeddingModel: string := "all-MiniLM-L6-v2"
  const CollectionName: string := "analyst_assistant_collection"
  const LlmModelPath: string := "models/tinyllama-1.1b-chat-v1.0.Q4_K_M.gguf"
  /** The default `top_k` of `retrieve_chunks`, the one `generate_answer` uses. */
  const TopK: nat := 5

  /** The embedding model and the LLM that `_initialize` loads. */
  const LoadedEmbeddings: Embeddings := Embeddings(EmbeddingModel, "cpu")
  const LoadedLlm: LlmSettings := LlmSettings(LlmModelPath, "llama", 1, 0.1, 512, 4096)

  /** `embedding_function.embed_query(text)` */
  type Embed = (Embeddings, string) -> Vector
  /** `llm(prompt)`: the model's completion of a prompt. */
  type Generate = (LlmSettings, string) -> string
  /** Earlier (question, answer) pairs, oldest first. */
  type History = seq<(string, string)>

  /** A `PromptTemplate`: its text cut at the `{name}` placeholders. */
  datatype Piece = Lit(text: string) | Slot(name: string)
  datatype PromptTemplate = PromptTemplate(pieces: seq<Piece>, inputVariables: seq<string>)

  /** Every placeholder of the template has a value. */
  predicate Fills(pieces: seq<Piece>, values: map<string, string>) {
    forall k :: 0 <= k < |pieces| && pieces[k].Slot? ==> pieces[k].name in values
  }

  /** `template.format(**values)` */
  function Format(pieces: seq<Piece>, values: map<string, string>): string
    requires Fills(pieces, values)
  {
    if pieces == [] then ""
    else
      (match pieces[0] case Lit(t) => t case Slot(n) => values[n]) + Format(pieces[1..], values)
  }

  /** `QA_PROMPT_TEMPLATE` around its two placeholders. */
  const QaHead: string :=
    "\n### Instruction:\nYou are a helpful AI assistant for data analysis. Use the following retrieved context to answer the user's question.\n"
    + "If you don't know the answer, just say that you don't know. Don't try to make up an answer.\n"
    + "Provide a concise and factual answer based *only* on the provided context.\n\n### Context:\n"
  const QaMiddle: string := "\n\n### User's Question:\n"
  const QaTail: string := "\n\n### Answer:\n"
  const QaTemplate: PromptTemplate :=
    PromptTemplate([Lit(QaHead), Slot("context"), Lit(QaMiddle), Slot("question"), Lit(QaTail)], ["context", "question"])

  /** `NEXT_STEPS_PROMPT_TEMPLATE` around its two placeholders. */
  const NextStepsHead: string :=
    "\n### Instruction:\nYou are a helpful AI analyst. Based on the user's original question and the answer provided, "
    + "suggest 3 relevant, insightful, and actionable follow-up questions that the user might want to ask. "
    + "The questions should be directly answerable from the context of a financial or data analysis document. "
    + "Present them as a numbered list. Do not add any extra text or commentary.\n\n### Original Question:\n"
  const NextStepsMiddle: string := "\n\n### Provided Answer:\n"
  const NextStepsTail: string := "\n\n### Suggested Follow-up Questions:\n"
  const NextStepsTemplate: PromptTemplate :=
    PromptTemplate([Lit(NextStepsHead), Slot("question"), Lit(NextStepsMiddle), Slot("answer"), Lit(NextStepsTail)], ["question", "answer"])

  /** The inline f-string of `summarize_document`, indentation included, around the document text. */
  const SummaryHead: string :=
    "\n            ### Instruction:\n            You are a helpful AI assistant. Based on the following document text, "
    + "please provide a concise, bullet-point summary of its key contents.\n\n            ### Document Text:\n            "
  const SummaryTail: string := "\n\n            ### Summary:\n            "

  const ContextSeparator: string := "\n\n---\n\n"
  const QueryLead: string := "Considering the previous question was '"
  const QueryJoint: string := "', now answer this: "
  const NoContextMessage: string := "I could not find any relevant information in the uploaded documents to answer your question."
  const TooLargeMessage: string := "The document is too large to summarize with the current method."

  function NotFoundMessage(sourceFilename: string): string {
    "Could not find a document named '" + sourceFilename + "' in the database."
  }

  /** The exception `_initialize` lets through when the store has no such collection. */
  datatype RagError = CollectionNotFound(name: string)

  /**
   * What `generate_answer` returns: the bare message string when nothing is
   * retrieved, otherwise the (response, sources, next steps) triple.
   */
  datatype Answer =
    | Bare(message: string)
    | Triple(response: string, sources: seq<Metadata>, nextSteps: string)

  /** The text sent to retrieval: the question alone, or prefixed with the last earlier question. */
  function FullQuery(query: string, history: History): string {
    if history == [] then query
    else QueryLead + history[|history| - 1].0 + QueryJoint + query
  }

  /** With no history the question goes to retrieval verbatim. */
  lemma EmptyHistoryQueryVerbatim(query: string)
    ensures FullQuery(query, []) == query
  {
  }

  /**
   * With history, the retrieval text ends with the question, is longer than
   * it, and is fixed by the last earlier question alone: its answer and all
   * earlier pairs play no part.
   */
  lemma FullQueryUsesLastQuestion(query: string, h1: History, h2: History)
    requires h1 != [] && h2 != []
    requires h1[|h1| - 1].0 == h2[|h2| - 1].0
    ensures FullQuery(query, h1) == FullQuery(query, h2)
    ensures |FullQuery(query, h1)| > |query|
    ensures FullQuery(query, h1)[|FullQuery(query, h1)| - |query|..] == query
  {
    var f := FullQuery(query, h1);
    assert f == (QueryLead + h1[|h1| - 1].0 + QueryJoint) + query;
  }

  /** Conversely, the retrieval text determines the last earlier question. */
  lemma FullQueryDeterminesLastQuestion(query: string, h1: History, h2: History)
    requires h1 != [] && h2 != []
    requires FullQuery(query, h1) == FullQuery(query, h2)
    ensures h1[|h1| - 1].0 == h2[|h2| - 1].0
  {
    var a, b := h1[|h1| - 1].0, h2[|h2| - 1].0;
    assert QueryLead + a + QueryJoint + query == QueryLead + a + (QueryJoint + query);
    assert QueryLead + b + QueryJoint + query == QueryLead + b + (QueryJoint + query);
    MiddleCancel(QueryLead, a, b, QueryJoint + query);
  }

  /** The answer prompt for a context and a question. */
  function QaPrompt(context: string, question: string): string {
    Format(QaTemplate.pieces, map["context" := context, "question" := question])
  }

  /** The follow-up prompt for a question and the answer given to it. */
  function NextStepsPrompt(question: string, answer: string): string {
    Format(NextStepsTemplate.pieces, map["question" := question, "answer" := answer])
  }

  /** A template of text, a slot, text, a slot and text formats to the texts with the two values between them. */
  lemma {:induction false} FormatTwoSlots(head: string, x: string, middle: string, y: string, tail: string, values: map<string, string>)
    requires x in values && y in values
    ensures var p := [Lit(head), Slot(x), Lit(middle), Slot(y), Lit(tail)];
      Fills(p, values) && Format(p, values) == head + values[x] + middle + values[y] + tail
  {
    var p := [Lit(head), Slot(x), Lit(middle), Slot(y), Lit(tail)];
    assert Format(p[5..], values) == "";
    assert Format(p[4..], values) == tail + Format(p[5..], values);
    assert Format(p[3..], values) == values[y] + Format(p[4..], values);
    assert Format(p[2..], values) == middle + Format(p[3..], values);
    assert Format(p[1..], values) == values[x] + Format(p[2..], values);
    assert Format(p, values) == head + Format(p[1..], values);
  }

  /** The answer prompt is the template text with the context, then the question, in its two slots. */
  lemma QaPromptShape(context: string, question: string)
    ensures QaPrompt(context, question) == QaHead + context + QaMiddle + question + QaTail
  {
    FormatTwoSlots(QaHead, "context", QaMiddle, "question", QaTail, map["context" := context, "question" := question]);
  }

  /** The follow-up prompt is the template text with the question, then the answer, in its two slots. */
  lemma NextStepsPromptShape(question: string, answer: string)
    ensures NextStepsPrompt(question, answer) == NextStepsHead + question + NextStepsMiddle + answer + NextStepsTail
  {
    FormatTwoSlots(NextStepsHead, "question", NextStepsMiddle, "answer", NextStepsTail, map["question" := question, "answer" := answer]);
  }

  /** With the context fixed, the answer prompt determines the question it was built from. */
  lemma QaPromptDeterminesQuestion(context: string, q1: string, q2: string)
    requires QaPrompt(context, q1) == QaPrompt(context, q2)
    ensures q1 == q2
  {
    QaPromptShape(context, q1);
    QaPromptShape(context, q2);
    MiddleCancel(QaHead + context + QaMiddle, q1, q2, QaTail);
  }

  /** With the answer fixed, the follow-up prompt determines the question it was built from. */
  lemma NextStepsPromptDeterminesQuestion(q1: string, q2: string, answer: string)
    requires NextStepsPrompt(q1, answer) == NextStepsPrompt(q2, answer)
    ensures q1 == q2
  {
    NextStepsPromptShape(q1, answer);
    NextStepsPromptShape(q2, answer);
    Regroup(NextStepsHead, q1, NextStepsMiddle, answer, NextStepsTail);
    Regroup(NextStepsHead, q2, NextStepsMiddle, answer, NextStepsTail);
    MiddleCancel(NextStepsHead, q1, q2, NextStepsMiddle + answer + NextStepsTail);
  }

  /** The chunks retrieval returns for a text: the search's hits for the text's embedding. */
  function Hits(entries: seq<Entry>, text: string, embed: Embed, nearest: Nearest): seq<Entry> {
    nearest(entries, embed(LoadedEmbeddings, text), TopK)
  }

  /** `retrieve_chunks`' result: the hits' documents and metadatas, position by position. */
  function Retrieved(entries: seq<Entry>, text: string, embed: Embed, nearest: Nearest)
    : (r: (seq<string>, seq<Metadata>))
    ensures |r.0| == |r.1| == |Hits(entries, text, embed, nearest)|
    ensures forall k :: 0 <= k < |r.0| ==>
      r.0[k] == Hits(entries, text, embed, nearest)[k].document
      && r.1[k] == Hits(entries, text, embed, nearest)[k].metadata
  {
    var hits := Hits(entries, text, embed, nearest);
    (Documents(hits), Metadatas(hits))
  }

  /** The prompts `generate_answer` sends to the LLM, in order, for the documents retrieved. */
  function AnswerPrompts(query: string, docs: seq<string>, llm: LlmSettings, generate: Generate): seq<string> {
    if docs == [] then []
    else
      var first := QaPrompt(Join(ContextSeparator, docs), query);
      [first, NextStepsPrompt(query, generate(llm, first))]
  }

  /** What `generate_answer` returns for the documents and metadatas retrieved. */
  function AnswerOf(query: string, docs: seq<string>, metas: seq<Metadata>, llm: LlmSettings, generate: Generate): Answer {
    if docs == [] then Bare(NoContextMessage)
    else
      var prompts := AnswerPrompts(query, docs, llm, generate);
      Triple(generate(llm, prompts[0]), metas, generate(llm, prompts[1]))
  }

  /** What `generate_answer` returns once initialized, for the store's chunks. */
  function AnswerFor(entries: seq<Entry>, query: string, history: History, embed: Embed, nearest: Nearest, generate: Generate): Answer {
    var (docs, metas) := Retrieved(entries, FullQuery(query, history), embed, nearest);
    AnswerOf(query, docs, metas, LoadedLlm, generate)
  }

  /**
   * No documents: the bare message and no LLM call. Some documents: exactly
   * two calls, first the answer prompt over the documents joined by the
   * separator in retrieval order with the original question, then the
   * follow-up prompt with the original question and the first response;
   * the triple holds the first output, the metadatas unchanged and the
   * second output.
   */
  lemma AnswerCalls(query: string, docs: seq<string>, metas: seq<Metadata>, llm: LlmSettings, generate: Generate)
    ensures docs == [] <==> AnswerPrompts(query, docs, llm, generate) == []
    ensures docs == [] ==> AnswerOf(query, docs, metas, llm, generate) == Bare(NoContextMessage)
    ensures docs != [] ==>
      var prompts := AnswerPrompts(query, docs, llm, generate);
      var a := AnswerOf(query, docs, metas, llm, generate);
      && |prompts| == 2
      && prompts[0] == QaHead + Join(ContextSeparator, docs) + QaMiddle + query + QaTail
      && a.Triple?
      && a.response == generate(llm, prompts[0])
      && prompts[1] == NextStepsHead + query + NextStepsMiddle + a.response + NextStepsTail
      && a.sources == metas
      && a.nextSteps == generate(llm, prompts[1])
  {
    if docs != [] {
      var first := QaPrompt(Join(ContextSeparator, docs), query);
      QaPromptShape(Join(ContextSeparator, docs), query);
      NextStepsPromptShape(query, generate(llm, first));
    }
  }

  /** The answer prompt is never the one the retrieval text would give, once there is history. */
  lemma AnswerPromptUsesOriginalQuestion(query: string, history: History, docs: seq<string>, llm: LlmSettings, generate: Generate)
    requires history != [] && docs != []
    ensures AnswerPrompts(query, docs, llm, generate)[0] != QaPrompt(Join(ContextSeparator, docs), FullQuery(query, history))
  {
    FullQueryUsesLastQuestion(query, history, history);
    if AnswerPrompts(query, docs, llm, generate)[0] == QaPrompt(Join(ContextSeparator, docs), FullQuery(query, history)) {
      QaPromptDeterminesQuestion(Join(ContextSeparator, docs), query, FullQuery(query, history));
    }
  }

  /** The bare message is not three characters long, so unpacking it into three names fails. */
  lemma BareMessageIsNotATriple()
    ensures |NoContextMessage| != 3
  {
  }

  /** The summary prompt around the document text. */
  function SummaryPrompt(fullText: string): string {
    SummaryHead + fullText + SummaryTail
  }

  /** The summary prompt determines the document text in it. */
  lemma SummaryPromptDeterminesText(t1: string, t2: string)
    requires SummaryPrompt(t1) == SummaryPrompt(t2)
    ensures t1 == t2
  {
    MiddleCancel(SummaryHead, t1, t2, SummaryTail);
  }

  /** The text is too long when it has more than three characters per token of context. */
  predicate TooLarge(fullText: string, llm: LlmSettings) {
    |fullText| > llm.contextLength * 3
  }

  /** The prompts `summarize_document` sends for the chunks found. */
  function SummaryPrompts(docs: seq<string>, llm: LlmSettings): seq<string> {
    if docs == [] || TooLarge(Join("\n", docs), llm) then [] else [SummaryPrompt(Join("\n", docs))]
  }

  /** What `summarize_document` returns for the chunks found. */
  function SummaryOf(sourceFilename: string, docs: seq<string>, llm: LlmSettings, generate: Generate): string {
    if docs == [] then NotFoundMessage(sourceFilename)
    else if TooLarge(Join("\n", docs), llm) then TooLargeMessage
    else generate(llm, SummaryPrompt(Join("\n", docs)))
  }

  /**
   * At most one LLM call, made exactly when some chunk was found and the
   * chunks joined by newlines fit (a text of exactly three characters per
   * token still fits); otherwise the not-found or the too-large message.
   */
  lemma SummaryCalls(sourceFilename: string, docs: seq<string>, llm: LlmSettings, generate: Generate)
    ensures |SummaryPrompts(docs, llm)| <= 1
    ensures |SummaryPrompts(docs, llm)| == 1 <==> docs != [] && |Join("\n", docs)| <= 3 * llm.contextLength
    ensures docs == [] ==> SummaryOf(sourceFilename, docs, llm, generate) == NotFoundMessage(sourceFilename)
    ensures docs != [] && |Join("\n", docs)| > 3 * llm.contextLength ==>
      SummaryOf(sourceFilename, docs, llm, generate) == TooLargeMessage
    ensures |SummaryPrompts(docs, llm)| == 1 ==>
      SummaryPrompts(docs, llm)[0] == SummaryHead + Join("\n", docs) + SummaryTail
      && SummaryOf(sourceFilename, docs, llm, generate) == generate(llm, SummaryPrompts(docs, llm)[0])
  {
  }

  /**
   * The cutoff in terms of the chunks: their lengths plus one newline
   * between each two, against 3 × 4096 characters for the loaded model.
   */
  lemma SummaryCutoffByChunkLengths(docs: seq<string>)
    requires docs != []
    ensures TooLarge(Join("\n", docs), LoadedLlm) <==> TotalLength(docs) + |docs| - 1 > 12288
  {
    JoinLength("\n", docs);
  }

  class RagPipeline {
    var dbClient: Option<Client>
    var collection: Option<CollectionRef>
    var embeddingFunction: Option<Embeddings>
    var llm: Option<LlmSettings>
    var prompt: Option<PromptTemplate>
    var nextStepsPrompt: Option<PromptTemplate>
    /** How many times the embedding model and the LLM have been loaded. */
    ghost var modelLoads: nat
    /** Every prompt given to the LLM, in order. */
    ghost var llmCalls: seq<string>

    /** Everything `_initialize` sets. */
    predicate Ready()
      reads this
    {
      && dbClient == Some(Client(ChromaDbPath))
      && collection == Some(CollectionRef(CollectionName))
      && embeddingFunction == Some(LoadedEmbeddings)
      && llm == Some(LoadedLlm)
      && prompt == Some(QaTemplate)
      && nextStepsPrompt == Some(NextStepsTemplate)
    }

    /**
     * Before a successful `_initialize` only the client may be set; after it
     * every component is, and the models have been loaded exactly once.
     */
    ghost predicate Valid()
      reads this
    {
      && (dbClient.Some? ==> dbClient.value == Client(ChromaDbPath))
      && (collection.None? ==>
            embeddingFunction.None? && llm.None? && prompt.None? && nextStepsPrompt.None? && modelLoads == 0)
      && (collection.Some? ==> Ready() && modelLoads == 1)
    }

    /** The components, for stating that a call left them as they were. */
    ghost function Components(): (Option<Client>, Option<CollectionRef>, Option<Embeddings>, Option<LlmSettings>,
                                  Option<PromptTemplate>, Option<PromptTemplate>, nat)
      reads this
    {
      (dbClient, collection, embeddingFunction, llm, prompt, nextStepsPrompt, modelLoads)
    }

    constructor()
      ensures Valid() && collection.None? && dbClient.None? && modelLoads == 0 && llmCalls == []
    {
      dbClient := None;
      collection := None;
      embeddingFunction := None;
      llm := None;
      prompt := None;
      nextStepsPrompt := None;
      modelLoads := 0;
      llmCalls := [];
    }

    /**
     * `_initialize`: does nothing once there is a collection; otherwise opens
     * the client, fails when the store lacks the collection, and else loads
     * the models and builds both prompt templates.
     */
    method Initialize(store: Store) returns (r: Result<(), RagError>)
      requires Valid()
      modifies this
      ensures Valid() && llmCalls == old(llmCalls)
      ensures old(collection).Some? ==> r.Success? && Components() == old(Components())
      ensures r.Success? <==> old(collection).Some? || CollectionName in store.collections
      ensures r.Success? ==> Ready()
      ensures r.Failure? ==>
        r.error == CollectionNotFound(CollectionName) && collection.None? && dbClient == Some(Client(ChromaDbPath))
    {
      if collection.None? {
        dbClient := Some(Client(ChromaDbPath));
        var c := store.GetCollection(CollectionName);
        if c.None? {
          return Failure(CollectionNotFound(CollectionName));
        }
        collection := c;
        embeddingFunction := Some(LoadedEmbeddings);
        llm := Some(LoadedLlm);
        prompt := Some(QaTemplate);
        nextStepsPrompt := Some(NextStepsTemplate);
        modelLoads := modelLoads + 1;
      }
      return Success(());
    }

    /** `retrieve_chunks(query)`: the documents and metadatas of the top five hits. */
    method RetrieveChunks(query: string, store: Store, embed: Embed, nearest: Nearest)
      returns (r: Result<(seq<string>, seq<Metadata>), RagError>)
      requires Valid()
      modifies this
      ensures Valid() && llmCalls == old(llmCalls)
      ensures old(collection).Some? ==> Components() == old(Components())
      ensures r.Success? <==> old(collection).Some? || CollectionName in store.collections
      ensures r.Success? ==> Ready() && r.value == Retrieved(store.Contents(CollectionName), query, embed, nearest)
      ensures r.Failure? ==> r.error == CollectionNotFound(CollectionName)
    {
      var init := Initialize(store);
      if init.Failure? {
        return Failure(init.error);
      }
      var queryEmbedding := embed(embeddingFunction.value, query);
      var hits := nearest(store.Contents(collection.value.name), queryEmbedding, TopK);
      return Success((Documents(hits), Metadatas(hits)));
    }

    /**
     * `generate_answer(query, chat_history)`: retrieves for the history-aware
     * text, and answers with `AnswerOf`, calling the LLM with `AnswerPrompts`.
     */
    method GenerateAnswer(query: string, history: History, store: Store, embed: Embed, nearest: Nearest, generate: Generate)
      returns (r: Result<Answer, RagError>)
      requires Valid()
      modifies this
      ensures Valid()
      ensures old(collection).Some? ==> Components() == old(Components())
      ensures r.Success? <==> old(collection).Some? || CollectionName in store.collections
      ensures r.Failure? ==> r.error == CollectionNotFound(CollectionName) && llmCalls == old(llmCalls)
      ensures r.Failure? ==> collection.None? && dbClient == Some(Client(ChromaDbPath))
      ensures r.Success? ==> Ready()
      ensures r.Success? ==>
        var (docs, metas) := Retrieved(store.Contents(CollectionName), FullQuery(query, history), embed, nearest);
        && r.value == AnswerFor(store.Contents(CollectionName), query, history, embed, nearest, generate)
        && llmCalls == old(llmCalls) + AnswerPrompts(query, docs, LoadedLlm, generate)
    {
      var init := Initialize(store);
      if init.Failure? {
        return Failure(init.error);
      }
      var fullQuery := FullQuery(query, history);
      var retrieved := RetrieveChunks(fullQuery, store, embed, nearest);
      assert retrieved.Success?;
      var (docs, metas) := retrieved.value;
      if docs == [] {
        return Success(Bare(NoContextMessage));
      }
      var contextStr := Join(ContextSeparator, docs);
      var formatted := Format(prompt.value.pieces, map["context" := contextStr, "question" := query]);
      assert formatted == QaPrompt(contextStr, query);
      var response := generate(llm.value, formatted);
      llmCalls := llmCalls + [formatted];
      var nextStepsFormatted := Format(nextStepsPrompt.value.pieces, map["question" := query, "answer" := response]);
      assert nextStepsFormatted == NextStepsPrompt(query, response);
      var nextSteps := generate(llm.value, nextStepsFormatted);
      llmCalls := llmCalls + [nextStepsFormatted];
      assert [formatted, nextStepsFormatted] == AnswerPrompts(query, docs, LoadedLlm, generate);
      return Success(Triple(response, metas, nextSteps));
    }

    /**
     * `summarize_document(source_filename)`: the stored chunks whose source
     * is exactly the name, summarized as `SummaryOf` says, with the LLM
     * called on `SummaryPrompts`.
     */
    method SummarizeDocument(sourceFilename: string, store: Store, generate: Generate)
      returns (r: Result<string, RagError>)
      requires Valid()
      modifies this
      ensures Valid()
      ensures old(collection).Some? ==> Components() == old(Components())
      ensures r.Success? <==> old(collection).Some? || CollectionName in store.collections
      ensures r.Failure? ==> r.error == CollectionNotFound(CollectionName) && llmCalls == old(llmCalls)
      ensures r.Failure? ==> collection.None? && dbClient == Some(Client(ChromaDbPath))
      ensures r.Success? ==> Ready()
      ensures r.Success? ==>
        var docs := Documents(WithSource(store.Contents(CollectionName), sourceFilename));
        && r.value == SummaryOf(sourceFilename, docs, LoadedLlm, generate)
        && llmCalls == old(llmCalls) + SummaryPrompts(docs, LoadedLlm)
    {
      var init := Initialize(store);
      if init.Failure? {
        return Failure(init.error);
      }
      var allDocs := store.GetWhereSource(collection.value, sourceFilename);
      if allDocs == [] {
        return Success(NotFoundMessage(sourceFilename));
      }
      var fullText := Join("\n", allDocs);
      if |fullText| > llm.value.contextLength * 3 {
        return Success(TooLargeMessage);
      }
      var summaryPrompt := SummaryHead + fullText + SummaryTail;
      var summary := generate(llm.value, summaryPrompt);
      llmCalls := llmCalls + [summaryPrompt];
      return Success(summary);
    }
  }
}

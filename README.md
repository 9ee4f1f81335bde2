# Analyst assistant: a Dafny model of its deterministic core

The analyst assistant ingests PDF, DOCX, TXT and CSV files into a chromadb
vector store. It then answers questions about them with a local LLM.
The answers come as plain text or as a JSON chart specification, and each one
comes with a few suggested follow-up questions.

Most of the program is glue around libraries. This project models the rules
inside that glue that can be stated exactly, and proves what they promise.
The libraries appear as oracles (function-typed parameters).

The model covers:

- **Extension dispatch** (`DocumentParser`). A file goes to one of four parsers.
  The choice follows POSIX `os.path.splitext`:
  - the suffix from the last dot of the final component;
  - leading dots ignored;
  - compared case-sensitively.

  Any other extension is rejected with `Unsupported file type: <ext>`.
- **CSV formatting** (`CsvParser`). Each row of a table becomes
  `Row k: col is val, ... .`, and the rows are joined by newlines. A read that
  raises gives `""`.
- **Ingestion** (`IngestionPipeline`). The components are built lazily, and
  empty text is skipped. A file's chunks are stored in one `add` call, with ids
  `<basename>_<i>` and metadata `{'source': <basename>}`.
- **Answering and summarizing** (`RagPipeline`):
  - The retrieval text is built from the last earlier question only.
  - The answer short-circuits to a bare message when nothing is retrieved.
  - Otherwise it makes exactly two LLM calls, both with the original
    question.
  - A summary makes at most one call. The cutoff is strict: longer than
    3 × 4096 characters is too large.
  - Every prompt sent to the LLM is recorded in a call log, so the number of
    calls can be stated.
- **Chart detection and validation** (`ChartGenerator`):
  - the leftmost, lazy, DOTALL search for a fenced json block, with the
    whole-text parse as fallback;
  - the checks of `create_chart` in their order, with their messages.
- **One chat turn** (`App`):
  - pairing each earlier question with the next reply;
  - the content recorded for the reply;
  - parsing the suggested next steps into buttons with distinct keys.

Python's text semantics are written out in `Text`:
- `str.isspace` (also what `\s` matches in a `re` pattern over `str`);
- `strip`, `split` and `join`;
- the first occurrence of a character (where `split('.', 1)` cuts) and `rfind`;
- `str(n)`.

`Backends` holds stand-ins for the chromadb store and for the settings of the
embedding model, the LLM and the text splitter. The store appends on `add`, and
its source filter selects chunks whose `source` is exactly the name asked for.

The empty-retrieval return of `generate_answer` is kept as the source has it.
It is a bare string, not a triple, and `handle_query` unpacks the result into
three names. So on that path the turn ends in `UnpackFailed`, after the
question was recorded.

## Model

| member | source | states |
|---|---|---|
| Text.Strip | ui/app.py:102 | the result has no Python whitespace at either end and is no longer than the input |
| Text.IsSpace | ui/app.py:102 | definition: the characters Python's `str.isspace` accepts, which `strip()` removes; `Text.Strip` and `Text.StripIsUnique` state what stripping keeps |
| Text.StripIsUnique | ui/app.py:102 | `strip()` is the one stripped infix that has only whitespace on both sides of it |
| Text.StripIdempotent | ui/app.py:107 | stripping twice is stripping once |
| Text.Split | ui/app.py:102 | `split(c)` gives at least one piece and no piece contains `c` |
| Text.JoinSplit | ui/app.py:102 | joining the pieces of `split(c)` with `c` gives the text back |
| Text.SplitAround | ui/app.py:102 | `split(c)` of `a + c + b` is the pieces of `a` followed by the pieces of `b` |
| Text.SplitJoin | src/parsers/csv_parser.py:15 | splitting a `c`-join of `c`-free pieces gives the pieces back |
| Text.Join | src/parsers/csv_parser.py:15 | definition of `sep.join(parts)`; `Text.JoinSplit`, `Text.SplitJoin` and `Text.JoinLength` state its properties |
| Text.JoinLength | src/rag_pipeline.py:183 | a join is as long as its parts plus one separator between each two |
| Text.LastIndexOf | src/document_parser.py:21 | `rfind`: the last position holding the character, or -1 when there is none |
| Text.IndexOf | ui/app.py:107 | the first position holding the character: where `split('.', 1)` cuts, so `[-1]` is what follows it |
| Text.NatToString | src/ingestion_pipeline.py:71 | `str(n)` is a non-empty string of decimal digits that starts with `0` exactly for 0, so it has no leading zero |
| Text.NatToStringCanonical | src/ingestion_pipeline.py:71 | every digit string without a leading zero is `str` of its value; with `Text.DecimalRoundTrip` this makes `str(n)` the one such spelling of `n` |
| Text.DecimalRoundTrip | src/ingestion_pipeline.py:71 | reading the digits of `str(n)` back gives `n` |
| Text.NatToStringInjective | ui/app.py:110 | different numbers have different decimal strings |
| CsvParser.CellPhrases | src/parsers/csv_parser.py:13 | definition: the `f"{col} is {val}"` comprehension over a row's items, in header order; `CsvParser.CsvLines` states the row text it builds |
| CsvParser.RowSentence | src/parsers/csv_parser.py:13-14 | a row sentence starts with `Row k: ` and ends with `.` |
| CsvParser.RowSentences | src/parsers/csv_parser.py:12-14 | definition: the sentence of each row in file order, the i-th numbered i + 1; `CsvParser.ParseCsv` shows the loop builds it and `CsvParser.CsvLines` states the lines it gives |
| CsvParser.ParseCsv | src/parsers/csv_parser.py:9-18 | the loop returns `""` when reading raised, else the row sentences joined by newlines |
| CsvParser.CsvText | src/parsers/csv_parser.py:15-18 | definition: `""` for a read that raised, else the row sentences joined by newlines; `CsvParser.ParseCsv` computes it and `CsvParser.CsvLines` states what its lines are |
| CsvParser.RowSentenceSingleLine | src/parsers/csv_parser.py:14 | with single-line cells a row sentence holds no newline |
| CsvParser.CsvLines | src/parsers/csv_parser.py:11-15 | with single-line cells the lines of the text are exactly the row sentences, line k starting with `Row k: ` |
| CsvParser.NoRowsNoText | src/parsers/csv_parser.py:11-15 | a table without data rows gives `""`, as a failed read does |
| DocumentParser.Basename | src/ingestion_pipeline.py:71 | `basename` is the suffix after the last `/` and holds no `/` |
| DocumentParser.SplitExt | src/document_parser.py:21 | root + extension is the path; the extension is empty or one dot followed by no dot and no `/` |
| DocumentParser.ExtensionMeans | src/document_parser.py:21 | the extension is non-empty exactly when the final component has a dot after some non-dot character, and is then the suffix from the last dot |
| DocumentParser.LoadDocument | src/document_parser.py:16-28 | fails exactly for an extension outside `.pdf .docx .txt .csv`, with that extension in the error |
| DocumentParser.ErrorMessage | src/document_parser.py:24 | definition: the `ValueError` text `Unsupported file type: <ext>`; `DocumentParser.LoadDocument` states when it is raised |
| DocumentParser.LoadAcceptsExactly | src/document_parser.py:9-24 | accepted exactly when the file has an extension and the suffix from its last dot is in the mapping |
| DocumentParser.RejectionIgnoresParsers | src/document_parser.py:23-24 | a rejection happens before any parser runs |
| DocumentParser.AcceptedReturnsParserOutput | src/document_parser.py:26-28 | an accepted file yields the mapped parser's output unchanged |
| DocumentParser.LeadingDotsHaveNoExtension | src/document_parser.py:21-24 | names like `.txt` or `..txt` have an empty extension and are rejected |
| DocumentParser.UpperCaseExtensionRejected | src/document_parser.py:9-24 | every extension that is not itself in the mapping but lower-cases to a supported one (`.PDF`, `.Docx`, `.tXt`, ...) is rejected with that extension named |
| ChartGenerator.SkipSpace | src/chart_generator.py:10 | a greedy `\s*` stops at the first non-space |
| ChartGenerator.FirstClose | src/chart_generator.py:10 | the lazy group ends at the first `}` followed by optional whitespace and the closing fence |
| ChartGenerator.SearchFrom | src/chart_generator.py:10 | a found match starts at a position where the pattern matches, with group 1 delimited by the lazy close |
| ChartGenerator.SearchFromIsFirst | src/chart_generator.py:10 | no earlier start position matches |
| ChartGenerator.FencedSearch | src/chart_generator.py:10 | definition: the scan from position 0; `ChartGenerator.FencedSearchIsLeftmostLazy` states that it is `re.search` of the pattern |
| ChartGenerator.PatternMatchIsScanned | src/chart_generator.py:10 | every match of the pattern goes through the scanner's start, open and close positions |
| ChartGenerator.FencedSearchIsLeftmostLazy | src/chart_generator.py:10 | the search finds the leftmost match and, for it, the shortest group; no result means no match anywhere |
| ChartGenerator.IsJson | src/chart_generator.py:7-19 | accepts exactly when a fenced block is found or the whole text decodes, and then returns a text |
| ChartGenerator.FencedBlockWins | src/chart_generator.py:10-12 | a fenced block wins over the parse, is not decoded, and runs from `{` to `}` |
| ChartGenerator.Truthy | src/chart_generator.py:37 | definition: Python truthiness of a decoded value (`None`, `False`, zero, empty string, list or dict are falsy) |
| ChartGenerator.PyStr | src/chart_generator.py:53 | definition: `str()` of a decoded value as the f-string renders it, with floats, lists and dicts left to the `repr` oracle |
| ChartGenerator.ReadSpec | src/chart_generator.py:30-35 | definition: the `.get` chain in source order with its defaults, stopping at the first value that is not a dict |
| ChartGenerator.Validate | src/chart_generator.py:28-53 | definition: the `.get` chain, then completeness, then the type whitelist; `ChartGenerator.ValidateAcceptsExactlyWellFormed`, `ChartGenerator.IncompleteComesFirst` and `ChartGenerator.UnsupportedTypeNamed` state what it accepts and which message each failure gets |
| ChartGenerator.UnfencedFallsBackToParse | src/chart_generator.py:14-19 | with no fenced block the text is returned unchanged exactly when it decodes to any JSON value |
| ChartGenerator.CreateChart | src/chart_generator.py:27-66 | exactly one of figure and message; a decode failure gives the invalid-JSON message; a failed check gives that check's message; a plot that raises gives the caught-exception message with the exception's text; a figure only for a specification that passed the checks |
| ChartGenerator.ValidateAcceptsExactlyWellFormed | src/chart_generator.py:30-53 | the checks pass exactly for a dict with dict axes, a bar, line or pie type and non-empty data on both axes |
| ChartGenerator.FigureExactlyForWellFormed | src/chart_generator.py:27-66 | a figure comes out exactly when the text decodes to a well-formed specification whose plotting does not raise |
| ChartGenerator.IncompleteComesFirst | src/chart_generator.py:37-38 | a falsy chart type or axis data gives the incomplete-data message, whatever the type |
| ChartGenerator.UnsupportedTypeNamed | src/chart_generator.py:44-53 | a complete specification with another type gives the unsupported-type message naming it |
| ChartGenerator.UndecodableIsInvalidJson | src/chart_generator.py:63-64 | undecodable text gives the invalid-JSON message and no figure |
| Backends.WithSource | src/rag_pipeline.py:175 | the selected chunks are stored chunks whose `source` is exactly the name |
| Backends.WithSourceComplete | src/rag_pipeline.py:175 | every stored chunk with exactly that source is selected |
| Backends.Documents | src/rag_pipeline.py:111 | definition: the `documents` field of a query or get result; `RagPipeline.RagPipeline.RetrieveChunks` and `IngestionPipeline.IngestedRecords` state what it holds |
| Backends.Metadatas | src/rag_pipeline.py:112 | definition: the `metadatas` field of a query result; `RagPipeline.RagPipeline.RetrieveChunks` and `RagPipeline.AnswerCalls` state where it goes |
| Backends.NewEntries | src/ingestion_pipeline.py:75-79 | definition: the records one `add` call stores, chunk k with id k and metadata k; `IngestionPipeline.IngestedRecords` states what ingestion stores through it |
| Backends.Store.GetOrCreateCollection | src/ingestion_pipeline.py:34 | the collection exists afterwards, and an existing one keeps its chunks |
| Backends.Store.GetCollection | src/rag_pipeline.py:65 | succeeds exactly when the collection exists |
| Backends.Store.Add | src/ingestion_pipeline.py:75-79 | the new chunks are appended to the collection, and the call is logged once |
| IngestionPipeline.ChunkIdParts | src/ingestion_pipeline.py:71 | a chunk id splits back at its last `_` into the basename and the decimal position |
| IngestionPipeline.ChunkIdsDistinct | src/ingestion_pipeline.py:71 | the ids of one ingestion are pairwise distinct |
| IngestionPipeline.ChunkId | src/ingestion_pipeline.py:71 | definition: `<basename>_<i>`; `IngestionPipeline.ChunkIdParts` states that it splits back into its parts |
| IngestionPipeline.ChunkIds | src/ingestion_pipeline.py:71 | definition: the ids of positions 0 to n-1 in order; `IngestionPipeline.ChunkIdsDistinct` states they are distinct |
| IngestionPipeline.SourceMetadatas | src/ingestion_pipeline.py:78 | definition: one `{'source': <basename>}` per chunk; `IngestionPipeline.IngestedRecords` states what is stored |
| IngestionPipeline.Ingested | src/ingestion_pipeline.py:61-79 | a rejected file or empty text stores nothing |
| IngestionPipeline.IngestedRecords | src/ingestion_pipeline.py:68-79 | the chunks stored are the splitter output in order, with ids `<basename>_<k>`, distinct, and source `<basename>` |
| IngestionPipeline.IngestionPipeline.constructor | src/ingestion_pipeline.py:19-23 | all four components start unset |
| IngestionPipeline.IngestionPipeline.Initialize | src/ingestion_pipeline.py:25-48 | unguarded: every call rebuilds all four components and counts one more initialization |
| IngestionPipeline.IngestionPipeline.EnsureInitialized | src/ingestion_pipeline.py:55-56 | `_initialize` runs only while there is no collection |
| IngestionPipeline.IngestionPipeline.IngestFile | src/ingestion_pipeline.py:50-81 | initializes only when needed; propagates the loader's error; makes no `add` call for empty text and exactly one otherwise, with the chunks `Ingested` gives |
| RagPipeline.EmptyHistoryQueryVerbatim | src/rag_pipeline.py:130 | with no history the retrieval text is the question verbatim |
| RagPipeline.FullQueryUsesLastQuestion | src/rag_pipeline.py:131-134 | with history, the retrieval text depends only on the last question and ends with the question |
| RagPipeline.FullQueryDeterminesLastQuestion | src/rag_pipeline.py:133-134 | the retrieval text determines the last earlier question |
| RagPipeline.FullQuery | src/rag_pipeline.py:130-134 | definition of the retrieval text; the three lemmas above state what it depends on |
| RagPipeline.FormatTwoSlots | src/rag_pipeline.py:149 | `format` of a template with two placeholders gives the texts with the two values between them |
| RagPipeline.Format | src/rag_pipeline.py:149 | definition of `PromptTemplate.format`: literal text and slot values in template order; `RagPipeline.FormatTwoSlots` states it for two slots |
| RagPipeline.QaPromptShape | src/rag_pipeline.py:13-26 | the answer prompt is the template text with the context and the question in their slots |
| RagPipeline.NextStepsPromptShape | src/rag_pipeline.py:39-50 | the follow-up prompt is the template text with the question and the answer in their slots |
| RagPipeline.QaPromptDeterminesQuestion | src/rag_pipeline.py:149 | for a fixed context the answer prompt determines its question |
| RagPipeline.NextStepsPromptDeterminesQuestion | src/rag_pipeline.py:156-159 | for a fixed answer the follow-up prompt determines its question |
| RagPipeline.Retrieved | src/rag_pipeline.py:104-116 | definition: the documents and metadatas of the top hits for a text; `RagPipeline.RagPipeline.RetrieveChunks` returns it and `RagPipeline.AnswerCalls` states how the answer uses it |
| RagPipeline.AnswerCalls | src/rag_pipeline.py:140-163 | no documents: the bare message and no LLM call; otherwise exactly two calls in order, and the triple holds both outputs with the metadatas unchanged |
| RagPipeline.AnswerPrompts | src/rag_pipeline.py:140-163 | definition of the prompts `generate_answer` sends; `RagPipeline.AnswerCalls` states their number, order and text |
| RagPipeline.AnswerOf | src/rag_pipeline.py:140-163 | definition of the answer for the documents retrieved; `RagPipeline.AnswerCalls` states it |
| RagPipeline.AnswerFor | src/rag_pipeline.py:137-163 | definition: `AnswerOf` for what retrieval gives on the history-aware text; `RagPipeline.RagPipeline.GenerateAnswer` returns it |
| RagPipeline.AnswerPromptUsesOriginalQuestion | src/rag_pipeline.py:137-149 | with history, the answer prompt is never the one the retrieval text would give |
| RagPipeline.BareMessageIsNotATriple | src/rag_pipeline.py:142 | the bare message cannot be unpacked into three values |
| RagPipeline.SummaryPromptDeterminesText | src/rag_pipeline.py:191-199 | the summary prompt determines the document text in it |
| RagPipeline.SummaryCalls | src/rag_pipeline.py:175-203 | at most one LLM call, made exactly when chunks were found and their newline join fits in 3 × context length (equality fits); otherwise the not-found or too-large message |
| RagPipeline.SummaryCutoffByChunkLengths | src/rag_pipeline.py:183-188 | the document is too large exactly when its chunk lengths plus the newlines exceed 12288 |
| RagPipeline.TooLarge | src/rag_pipeline.py:183-188 | definition of the size cutoff, more than 3 characters per token of context; `RagPipeline.SummaryCutoffByChunkLengths` states it in chunk lengths |
| RagPipeline.SummaryPrompts | src/rag_pipeline.py:175-203 | definition of the prompts `summarize_document` sends; `RagPipeline.SummaryCalls` states there is at most one and when |
| RagPipeline.SummaryOf | src/rag_pipeline.py:175-203 | definition of the summary result; `RagPipeline.SummaryCalls` states its three cases |
| RagPipeline.RagPipeline.constructor | src/rag_pipeline.py:53-58 | every component starts unset and no LLM call was made |
| RagPipeline.RagPipeline.Initialize | src/rag_pipeline.py:60-94 | a no-op once there is a collection; otherwise fails exactly when the store lacks it (client already set), else loads the models once |
| RagPipeline.RagPipeline.RetrieveChunks | src/rag_pipeline.py:96-116 | after the guarded initialization, the top-5 hits' documents and metadatas; components unchanged once set |
| RagPipeline.RagPipeline.GenerateAnswer | src/rag_pipeline.py:119-163 | fails exactly when initialization finds no collection, with the client set, the pipeline still uninitialized and no LLM call; otherwise the pipeline is ready, the result is `AnswerFor` for the store's chunks and the call log grows by exactly `AnswerPrompts`; components unchanged once set |
| RagPipeline.RagPipeline.SummarizeDocument | src/rag_pipeline.py:165-203 | fails exactly when initialization finds no collection, with the client set, the pipeline still uninitialized and no LLM call; otherwise the pipeline is ready and the chunks whose source is exactly the name are summarized as `SummaryOf` says, the call log growing by exactly `SummaryPrompts`; components unchanged once set |
| App.NextAssistant | ui/app.py:60-63 | the index found holds an assistant message at or after the start; none found means there is none |
| App.NextAssistantIsFirst | ui/app.py:60-63 | no assistant message lies before the one found |
| App.PairsFollowAnswered | ui/app.py:57-63 | the pairs are exactly those of the answered user messages, in increasing index order, each with the first later reply |
| App.ChatHistory | ui/app.py:56-63 | definition: the pairs for every message but the last; `App.PairsFollowAnswered` states which pairs these are |
| App.PairsAtMostUsers | ui/app.py:57-63 | there are never more pairs than user messages |
| App.ConsecutiveQuestionsShareReply | ui/app.py:60-63 | two user messages in a row are paired with the same reply |
| App.BuildChatHistory | ui/app.py:56-63 | the nested loop computes `ChatHistory`: pairs for every message but the last, the search running over the whole list |
| App.StrippedNonEmpty | ui/app.py:102 | every candidate is non-empty and stripped, and there are no more candidates than lines; order and completeness are `App.StrippedNonEmptyAppend` |
| App.NonEmptyMeans | ui/app.py:102 | the filter keeps a text exactly when it occurs and is not empty |
| App.NonEmptyAppend | ui/app.py:102 | the filter keeps order and duplicates: filtering `a + b` is filtering `a` then `b`, and one text is kept exactly when it is not empty |
| App.StrippedNonEmptyMeans | ui/app.py:102 | a text is a candidate exactly when it is non-empty and is the strip of some line |
| App.StrippedNonEmptyAppend | ui/app.py:102 | the comprehension works line by line in order: `a + b` gives the candidates of `a` then those of `b`, and one line gives its strip exactly when that is not empty |
| App.FollowUpCandidates | ui/app.py:102 | definition: the comprehension over `next_steps.split('\n')`; the two lemmas below state its result line by line |
| App.FollowUpCandidatesAppend | ui/app.py:102 | the candidates of two texts joined by a newline are those of the first followed by those of the second |
| App.FollowUpCandidatesOfLine | ui/app.py:102 | a text without a newline gives its strip as the one candidate, or none when that is empty |
| App.CleanQuestionDropsNumbering | ui/app.py:106-107 | what precedes the first `.` is dropped and the rest stripped |
| App.CleanQuestionKeepsUnnumbered | ui/app.py:107 | a candidate without a `.` is kept whole |
| App.CleanQuestionStripped | ui/app.py:107 | a cleaned candidate is stripped |
| App.CleanQuestion | ui/app.py:107 | definition of the cleaning; the three lemmas above state what it keeps |
| App.ButtonKey | ui/app.py:110 | definition: `next_step_<message count>_<position>`; `App.ButtonKeyInjective` states that positions give distinct keys |
| App.ButtonKeyInjective | ui/app.py:110 | for one message count, keys of different positions differ |
| App.ButtonPositions | ui/app.py:105-108 | exactly the candidate positions whose cleaned text is non-empty, each once, in increasing order |
| App.ButtonsFollowCandidates | ui/app.py:105-110 | every button is `(cleaned text, key of its position)` of a candidate with non-empty cleaned text, every such candidate has its button, and the buttons follow candidate order |
| App.NextStepButtons | ui/app.py:98-110 | definition: no buttons for an empty `next_steps`, else one per candidate as `App.ButtonsFollowCandidates` states |
| App.NextStepButtonsOfCandidates | ui/app.py:98-110 | the emptiness guard changes nothing: an empty `next_steps` has no candidates |
| App.ButtonsWellKeyed | ui/app.py:105-110 | every button has a non-empty text and no two buttons share a key |
| App.RecordedContent | ui/app.py:72-88 | definition of the content recorded for a reply; the two lemmas below state its two cases |
| App.ChartRecordedEvenOnError | ui/app.py:72-83 | a response read as JSON comes with a JSON text and is recorded as the chart placeholder; the recorded content does not depend on the chart attempt at all |
| App.TextRecordedVerbatim | ui/app.py:84-88 | any other response is recorded verbatim |
| App.SourceLines | ui/app.py:91-94 | definition: one line per source, `Source: <source>` or `Source: N/A`; `App.Session.HandleQuery` shows them for a non-empty source list |
| App.Turn | ui/app.py:41-113 | definition of one turn for the backend's result; `App.TurnRecordsMessages` states what it records |
| App.TurnRecordsMessages | ui/app.py:44-88 | the question is recorded first; a triple adds exactly one assistant message, and the button keys count both |
| App.Session.constructor | ui/app.py:26-27 | the message list starts empty |
| App.Session.HandleQuery | ui/app.py:41-113 | the messages and the outcome are those `Turn` gives for the backend's answer to the question with `ChatHistory` of the messages; the backend is ready afterwards when the collection was found, its components are unchanged once set, and its call log grows by exactly `AnswerPrompts` of the retrieved documents, or not at all when the collection is missing |

## Left out

- Streamlit rendering is not modelled: widgets, spinners, markdown, the sidebar, the upload write, session bootstrapping and `st.rerun` (ui/app.py:1-40, 115-206). This is presentation and I/O. Clicking a suggestion button is not modelled either; the model only says which buttons are shown.
- `print` logging throughout is not modelled. It is output only.
- chromadb internals are oracles or simplified:
  - nearest-neighbour ranking is the `Nearest` oracle;
  - persistence is one shared `Store` object that every call is given;
  - the library's own exceptions are not modelled, except the missing collection of `get_collection`.
- Backends.Store.Add: appends every chunk even when its id is already stored. chromadb's handling of duplicate ids is library behaviour.
- Backends.WithSource: returns chunks in stored order. chromadb does not document the order of `get`.
- RagPipeline.RagPipeline.RetrieveChunks: the `top_k` parameter of `retrieve_chunks` (src/rag_pipeline.py:96, 108) is fixed at its default 5 (`TopK`), the only value the core passes (src/rag_pipeline.py:137).
- Embedding inference (`embed_query`) is the `Embed` oracle. It is a foreign call into HuggingFace.
- LLM loading and inference are not modelled. Inference is the `Generate` oracle, a function of the model settings and the prompt, so temperature sampling is not modelled. Failures to load a model file are I/O.
- `RecursiveCharacterTextSplitter` is the `Splitter` oracle. Its chunk-size and overlap guarantees belong to the library.
- `json.loads` is the `Loads` oracle. Python's `str()` of floats, lists and dicts is the `repr` oracle.
- Floating-point details (NaN, infinities) are not modelled; JSON numbers are `int` or `real`.
- Plotting with matplotlib and seaborn is the `Plot` oracle, which either succeeds or raises an exception text. `st.cache_data` caching changes no result and is left out (src/chart_generator.py:21, 41-61).
- src/parsers/pdf_parser.py, src/parsers/docx_parser.py and src/parsers/txt_parser.py are not part of this model. They are thin wrappers over file-reading libraries, so they appear as parser functions.
- Reading a CSV with pandas is the `readCsv` oracle. Its result is a header plus rows of already-stringified cells, with the default 0-based row index. A read that raises is `None`. Once cells are strings, formatting cannot raise.
- `get_db_collection` (src/ingestion_pipeline.py:84-86) is not modelled separately. It is a verification helper that is not called by the core, and it does what `Backends.Store.GetCollection` models.
- clear_database.py is not part of this model; it is filesystem deletion.
- notebooks/ is not part of this model; it holds manual driver scripts.
- src/charting_schema.py is not part of this model; no modelled code uses its constants.
- The unused `SUMMARY_PROMPT_TEMPLATE` is not modelled. The summarizer uses its inline prompt text instead.
- The exception `handle_query` raises when it unpacks the bare message is modelled as the outcome `UnpackFailed`, not as a Python `ValueError`; the question stays recorded.

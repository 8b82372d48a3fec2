# notebook_rag core in Dafny

notebook_rag lets a user keep "notebooks" of uploaded documents. It extracts each document's
text, splits it into chunks, embeds the chunks into a per-notebook vector collection and, for
a question, answers from the passages that are close enough to it. This project models the
five utilities that carry the logic of that pipeline and proves what they promise:

- `PromptBuilder` (utils/prompt_builder.py) renders a prompt template into the task prompt and
  the system prompt. A template is a map from field name to a string or a list of strings.
  The two builders grow a list of parts through conditional appends and then join it with a
  blank line. They are methods proved equal to pure specification functions (`TaskPrompt`,
  `SystemPrompt`), and the lemmas about those functions state the section order, the opening
  sentence, the closing directive, the example labels, the fenced input and the strategy text.
- `VectorStoreManager` (utils/vector_store_manager.py) holds the per-notebook collections as a
  map from notebook name to a sequence of entries (id, embedding, text, optional metadata), in
  the class `VectorStore`. The methods create or open a collection, optionally resetting it.
  They open an existing one, add documents with sequential `document_<n>` ids, filter
  retrieved passages by distance, list notebooks and delete one.
- `DocumentProcessor` (utils/document_processor.py) dispatches text extraction on the
  lower-cased file suffix. It concatenates PDF page texts in a loop, reads `.md` like `.txt`,
  and composes extraction with the chunker. The file system is a map from path to what each
  reader would get from the file.
- `ConversationManager` (utils/conversation_manager.py) answers a question. It retrieves,
  short-circuits on an empty retrieval, builds the RAG prompt, resolves the provider and model
  with their defaults, and calls the model. It also builds the notebook's system prompt.
- `DatabaseManager` (utils/database_manager.py) is the SQLite catalog of notebooks and files,
  modelled as the class `Database`. It holds a notebook table keyed by name, a file table in
  insertion (id) order, the two AUTOINCREMENT counters and a clock that `datetime.now()` reads
  and advances. Each operation states its whole new state and keeps the table invariants in
  `Valid()`.

`PyText` holds the parts of Python's `str` the code relies on: `strip`, ASCII `lower`, `join`,
`split`, `rfind`, `str(int)` and `repr` of a list of strings. `Wrappers` holds `Option`,
`Result` and the error kinds. A raised exception is an `Err` value, or a `Fail` outcome for
the catalog methods.

Where the code and its documentation differ, the model follows the code:

- The `files` table declares `ON DELETE CASCADE`, but the connection never enables SQLite
  foreign keys (utils/database_manager.py:17-28). Deleting a notebook therefore leaves its
  file rows in place, and `Database.DeleteNotebook` states that the file table is unchanged.
- `build_prompt_from_config` checks `instruction` only after it renders `role`. A role given
  as a list fails first, on `.strip()`, so a missing instruction raises the missing-field error
  only when the role part renders (`TaskPromptRequiresInstruction`).
- A system prompt can contain the text of the task directive when a template field contains
  it. What holds is that the directive is never one of the system prompt's parts
  (`SystemPromptHasNoDirective`).
- A `.txt` or `.md` file that is not valid UTF-8 raises `UnicodeDecodeError`. The reader's
  `except IOError` does not catch it, so it surfaces as a decode error and not as a read error.

## Model

| member | source | states |
|---|---|---|
| PyText.Strip | utils/prompt_builder.py:64 | the result is the slice of the text left once the whitespace at both ends is removed: everything before and after it is whitespace and it neither starts nor ends with whitespace |
| PyText.StripIdempotent | utils/prompt_builder.py:64 | stripping twice is stripping once |
| PyText.StripUnchanged | utils/prompt_builder.py:177 | text with no whitespace at either end is left as it is |
| PyText.LowerAscii | utils/prompt_builder.py:21 | a lowered character is never an upper-case letter; only upper-case letters change, each to the letter 32 code points above |
| PyText.JoinEndsWith | utils/prompt_builder.py:118 | a join ends with its last part |
| PyText.SplitJoin | utils/prompt_builder.py:36 | splitting a join on its one-character separator gives the parts back when no part holds it |
| PyText.LastIndexOf | utils/document_processor.py:111 | the result is None exactly when the character is absent; otherwise it is the last position holding it |
| PyText.NatToStringInjective | utils/vector_store_manager.py:150 | distinct numbers print differently |
| PyText.EscapeAllAvoids | utils/conversation_manager.py:88-90 | escaping a string inside `repr` leaves no non-printable character behind |
| PyText.PyListReprPrintable | utils/conversation_manager.py:88-90 | every character of Python's repr of a list of strings is printable |
| PyText.PyListReprSingleLine | utils/conversation_manager.py:88-90 | Python's repr of a list of strings holds no newline |
| PromptBuilder.LowercaseFirstChar | utils/prompt_builder.py:11-21 | same length, everything after the first character unchanged, first character lower-cased |
| PromptBuilder.LowercaseFirstCharIdempotent | utils/prompt_builder.py:11-21 | lower-casing the first character twice is doing it once |
| PromptBuilder.FormatPromptSection | utils/prompt_builder.py:24-39 | the section opens with the lead-in and a newline |
| PromptBuilder.FormatPromptSectionLines | utils/prompt_builder.py:35-39 | a string value follows the lead-in line verbatim; a list value gives exactly the lead-in line then one `- item` line per item, in order |
| PromptBuilder.AppendSection | utils/prompt_builder.py:71-91 | the conditional append of an optional section adds exactly that section's parts |
| PromptBuilder.AppendText | utils/prompt_builder.py:101-102 | the conditional append of the goal adds exactly its parts |
| PromptBuilder.AppendLabelled | utils/prompt_builder.py:96-97 | the loop appends `Example i:` parts for every item, counting from 1 |
| PromptBuilder.AppendExamples | utils/prompt_builder.py:93-99 | the examples append adds exactly the examples section |
| PromptBuilder.ExamplePartsSnoc | utils/prompt_builder.py:96-97 | labelling one more example adds one part with the next number |
| PromptBuilder.TaskPrompt | utils/prompt_builder.py:42-118 | the task prompt specification: a prompt is produced only when the instruction is truthy |
| PromptBuilder.BuildPromptFromConfig | utils/prompt_builder.py:42-118 | the step-by-step builder produces exactly the task prompt specification, including every error |
| PromptBuilder.TaskPromptRequiresInstruction | utils/prompt_builder.py:63-69 | a task prompt is produced iff the role renders, the instruction is truthy and the strategy renders; with a renderable role and no instruction it is the missing-instruction error |
| PromptBuilder.TaskPromptEndsWithDirective | utils/prompt_builder.py:117-118 | every task prompt ends with the fixed directive |
| PromptBuilder.TaskPromptOpening | utils/prompt_builder.py:63-69 | with a role the prompt opens with `You are <role>.` and a blank line; without one it opens with the task lead-in line |
| PromptBuilder.TaskPartsOk | utils/prompt_builder.py:61-118 | the parts are the role part, the template sections, the fenced input, the strategy and the directive, in that order |
| PromptBuilder.TemplateExamples | utils/prompt_builder.py:71-102 | with a list of examples the template sections are the leading sections, the header, the labelled examples and the goal |
| PromptBuilder.TaskPromptExamples | utils/prompt_builder.py:93-99 | a non-empty example list appears as the header followed by the labelled examples, contiguous among the parts |
| PromptBuilder.DigitsThenColon | utils/prompt_builder.py:97 | in a label the first colon follows the number's digits |
| PromptBuilder.ExampleLabelInjective | utils/prompt_builder.py:96-97 | two example parts are equal only for the same number and the same example |
| PromptBuilder.TaskPartsTail | utils/prompt_builder.py:104-117 | input and strategy only add parts just before the directive; the rest equals the prompt built without them |
| PromptBuilder.StrategyOnlyWhenConfigured | utils/prompt_builder.py:111-115 | no strategy part unless the name is set, not `None`, a table is given and its text is non-empty; then the stripped text is the part |
| PromptBuilder.SystemPromptFor | utils/prompt_builder.py:138-181 | with a string role the system prompt is the join of its parts |
| PromptBuilder.SystemPrompt | utils/prompt_builder.py:121-181 | the system prompt specification: a prompt is produced only for a truthy string role |
| PromptBuilder.BuildSystemPromptFromConfig | utils/prompt_builder.py:121-181 | the step-by-step builder produces exactly the system prompt specification |
| PromptBuilder.SystemPromptRequiresRole | utils/prompt_builder.py:141-144 | a system prompt is produced iff the role is a truthy string; a missing role is the missing-role error |
| PromptBuilder.SystemPromptShape | utils/prompt_builder.py:141-181 | the system prompt opens with the role sentence and ends with the document block when there is document content |
| PromptBuilder.SectionOpening | utils/prompt_builder.py:146-170 | a section's parts open with its lead-in |
| PromptBuilder.NoneOpensWithConcat | utils/prompt_builder.py:138-181 | concatenated part lists keep the opening property |
| PromptBuilder.SystemSectionsOpening | utils/prompt_builder.py:146-170 | no template section of the system prompt opens like the directive |
| PromptBuilder.DocumentPartsOpening | utils/prompt_builder.py:173-179 | the document block does not open like the directive |
| PromptBuilder.SystemPromptHasNoDirective | utils/prompt_builder.py:138-181 | the task directive is never one of the system prompt's parts |
| VectorStoreManager.IdForInjective | utils/vector_store_manager.py:150 | distinct positions get distinct `document_<n>` ids |
| VectorStoreManager.Initialized | utils/vector_store_manager.py:66-106 | the store after `initialize_collection`: the notebook gains a collection, empty on reset or when new and kept otherwise; other notebooks are untouched |
| VectorStoreManager.Lookup | utils/vector_store_manager.py:109-128 | `get_collection`: a handle on the notebook exactly when it has storage |
| VectorStoreManager.LookupFailsIffAbsent | utils/vector_store_manager.py:122-128 | opening fails iff the notebook has no storage, with the not-found error |
| VectorStoreManager.InitializeKeepsExisting | utils/vector_store_manager.py:82-94 | without reset an existing collection is kept and initializing twice changes nothing |
| VectorStoreManager.InitializeResetEmpties | utils/vector_store_manager.py:82-103 | with reset the collection is empty and every other notebook is untouched |
| VectorStoreManager.InitializeThenLookup | utils/vector_store_manager.py:66-106 | after initializing, opening the notebook succeeds |
| VectorStoreManager.NewIds | utils/vector_store_manager.py:150 | one id per document |
| VectorStoreManager.NewEntriesShape | utils/vector_store_manager.py:144-165 | entry i has id `document_<count+i>`, document i, its embedding, and metadata i exactly when metadata is given |
| VectorStoreManager.Added | utils/vector_store_manager.py:131-165 | the store after `add_documents`: only the metadata-length error, otherwise the same notebooks and the collection extended at its end |
| VectorStoreManager.AddedGrows | utils/vector_store_manager.py:131-165 | adding succeeds iff the metadata list is absent or matches the documents; the collection grows by the documents, earlier entries and other notebooks unchanged |
| VectorStoreManager.AddedKeepsSequential | utils/vector_store_manager.py:144-150 | sequential ids stay sequential and no new id repeats an old one |
| VectorStoreManager.Relevant | utils/vector_store_manager.py:203-208 | the result is never longer than the search hits |
| VectorStoreManager.RelevantIsFilter | utils/vector_store_manager.py:203-208 | the result is the hits whose distance is strictly below the threshold, in their order |
| VectorStoreManager.RelevantMembership | utils/vector_store_manager.py:203-208 | a passage is kept iff some hit with it is below the threshold |
| VectorStoreManager.ThresholdExcluded | utils/vector_store_manager.py:205 | a distance equal to the threshold is dropped |
| VectorStoreManager.RetrieveRelevant | utils/vector_store_manager.py:168-208 | `retrieve_relevant_documents`: the not-found error exactly when there is no storage, otherwise at most as many passages as the search returned |
| VectorStoreManager.RetrieveFailsIffAbsent | utils/vector_store_manager.py:168-190 | retrieval fails iff the notebook has no storage, with the not-found error |
| VectorStoreManager.VectorStore.InitializeCollection | utils/vector_store_manager.py:66-106 | the storage becomes the initialized map and the handle names the notebook |
| VectorStoreManager.VectorStore.GetCollection | utils/vector_store_manager.py:109-128 | the result is the lookup of the notebook |
| VectorStoreManager.VectorStore.AddDocuments | utils/vector_store_manager.py:131-165 | on success the storage is the extended map; on the metadata-length error it is unchanged |
| VectorStoreManager.VectorStore.RetrieveRelevantDocuments | utils/vector_store_manager.py:168-208 | the filtering loop returns exactly the relevant passages, or the not-found error |
| VectorStoreManager.VectorStore.ListNotebooks | utils/vector_store_manager.py:211-226 | lists exactly the notebooks with storage, each once |
| VectorStoreManager.VectorStore.DeleteNotebook | utils/vector_store_manager.py:229-245 | returns whether storage existed and removes exactly that notebook |
| VectorStoreManager.DeleteThenLookupFails | utils/vector_store_manager.py:229-245 | after deletion opening fails and initializing gives an empty collection |
| VectorStoreManager.DeleteAbsentUnchanged | utils/vector_store_manager.py:241-242 | deleting an absent notebook changes nothing |
| DocumentProcessor.BaseName | utils/document_processor.py:109-111 | the file name is the tail of the path after its last `/` (the whole path when it has none), and holds no `/` |
| DocumentProcessor.Suffix | utils/document_processor.py:111 | a non-empty suffix is a tail of the file name, at least two characters long and shorter than the name, that starts at its only dot; the suffix is empty exactly when the name's last dot is missing, opens the name or closes it |
| DocumentProcessor.PagesText | utils/document_processor.py:37-44 | the only failure of the page loop is the read error |
| DocumentProcessor.PdfText | utils/document_processor.py:15-44 | `extract_text_from_pdf`: a missing file is the not-found error, and every other failure is the read error |
| DocumentProcessor.TxtText | utils/document_processor.py:47-72 | `extract_text_from_txt`: a missing file is the not-found error; it succeeds exactly when the file decodes, with the decoded text |
| DocumentProcessor.MdText | utils/document_processor.py:75-90 | `extract_text_from_md`: the same outcomes as the TXT reader |
| DocumentProcessor.FileText | utils/document_processor.py:93-119 | `extract_text_from_file`: the unsupported-extension error exactly when the lower-cased suffix is not `.pdf`, `.txt` or `.md` |
| DocumentProcessor.Processed | utils/document_processor.py:145-170 | `process_document`: an extraction error is returned unchanged, and a result means extraction succeeded |
| DocumentProcessor.ExtractTextFromPdf | utils/document_processor.py:15-44 | the page loop computes the PDF text specification |
| DocumentProcessor.ExtractTextFromFile | utils/document_processor.py:93-119 | the dispatch computes the file text specification |
| DocumentProcessor.ProcessDocument | utils/document_processor.py:145-170 | the method computes chunk(extract(path)) with defaults 1000 and 200 |
| DocumentProcessor.ConcatenatedSnoc | utils/document_processor.py:37-42 | one more page adds its text and a newline at the end |
| DocumentProcessor.ConcatenatedLength | utils/document_processor.py:37-42 | the length is the sum of page lengths plus the page count |
| DocumentProcessor.PagesTextSpec | utils/document_processor.py:37-44 | PDF text is the page texts each followed by a newline, of that length; any page failure is the read error and never a partial text |
| DocumentProcessor.NoPagesEmpty | utils/document_processor.py:37-42 | a PDF with no pages gives the empty text |
| DocumentProcessor.UnsupportedBeforeExistence | utils/document_processor.py:108-119 | an unsupported extension is the unsupported error whatever the file system holds |
| DocumentProcessor.MissingFileNotFound | utils/document_processor.py:32-33 | a missing file with a supported extension is the not-found error |
| DocumentProcessor.MarkdownIsText | utils/document_processor.py:75-90 | `.md` reads exactly as `.txt` |
| DocumentProcessor.CaseInsensitiveDispatch | utils/document_processor.py:111-117 | paths whose suffixes agree after lower-casing and whose contents agree read the same |
| DocumentProcessor.SameFileSameReading | utils/document_processor.py:112-117 | each reader depends only on the file's contents |
| DocumentProcessor.UpperCasePdf | utils/document_processor.py:111-113 | `a.PDF` is read as a PDF |
| DocumentProcessor.ProcessedComposes | utils/document_processor.py:166-170 | extraction errors pass through; otherwise the result is the chunker applied to the text |
| ConversationManager.GetLlm | utils/conversation_manager.py:17-44 | `get_llm`: the only error is the invalid provider, and a chosen model carries the resolved model name |
| ConversationManager.GetLlmDispatch | utils/conversation_manager.py:17-44 | a model is chosen iff the resolved provider is `groq` or `ollama`, carrying the resolved model; otherwise the invalid-provider error; defaults are groq and the default model |
| ConversationManager.GivenProviderWins | utils/conversation_manager.py:32-35 | a given provider and model override the configuration |
| ConversationManager.RespondToQuery | utils/conversation_manager.py:47-104 | `respond_to_query`: an answer requires the notebook's storage, and an answer from the model requires a valid provider; its other behaviour is stated by EmptyRetrievalShortCircuits, MissingNotebookFails, MissingTemplateFails, ProviderCheckedAfterPrompt and RagPromptCarriesInput |
| ConversationManager.EmptyRetrievalShortCircuits | utils/conversation_manager.py:72-81 | an empty retrieval answers with the fixed message whatever the provider, configuration and model call |
| ConversationManager.MissingNotebookFails | utils/conversation_manager.py:72-77 | a notebook without storage gives the not-found error |
| ConversationManager.MissingTemplateFails | utils/conversation_manager.py:84-96 | passages found but no RAG template gives the missing-instruction error |
| ConversationManager.ProviderCheckedAfterPrompt | utils/conversation_manager.py:93-104 | after the prompt is built an unknown provider is the invalid-provider error; a known one receives exactly the prompt, which ends with the directive |
| ConversationManager.RagPromptCarriesInput | utils/conversation_manager.py:88-96 | the RAG prompt's parts are the template's parts followed by the fenced passages and question, then the directive |
| ConversationManager.CreateSystemPrompt | utils/conversation_manager.py:107-123 | `create_system_prompt`: a system prompt requires the advanced system template to be configured; its content is stated by MissingSystemTemplateFails, NotebookNoteStripped and SystemPromptNamesNotebook |
| ConversationManager.MissingSystemTemplateFails | utils/conversation_manager.py:117-118 | without the advanced system template the system prompt is the missing-role error |
| ConversationManager.NotebookNoteStripped | utils/conversation_manager.py:120-123 | the note naming the notebook needs no stripping |
| ConversationManager.SystemPromptEndsWithNote | utils/prompt_builder.py:173-181 | a note that needs no stripping ends the system prompt verbatim inside the document block |
| ConversationManager.SystemPromptNamesNotebook | utils/conversation_manager.py:107-123 | the system prompt ends with the document block naming the notebook |
| DatabaseManager.FilesOf | utils/database_manager.py:258-260 | exactly the rows of that notebook |
| DatabaseManager.Unprocessed | utils/database_manager.py:290-292 | exactly the rows not yet processed |
| DatabaseManager.Reversed | utils/database_manager.py:259 | the rows in reverse order, same members |
| DatabaseManager.ReversedNewestFirst | utils/database_manager.py:259 | reversing uploads in ascending order lists them strictly newest first |
| DatabaseManager.FilesOfAscending | utils/database_manager.py:258-260 | selecting a notebook's rows, and then its unprocessed ones, keeps upload order |
| DatabaseManager.SubsequenceAscending | utils/database_manager.py:258-260 | a later upload may follow any selection of earlier rows |
| DatabaseManager.UnprocessedAscending | utils/database_manager.py:290-292 | selecting unprocessed rows keeps upload order |
| DatabaseManager.NoFilesForUnusedId | utils/database_manager.py:41-52 | a notebook id not yet issued owns no file rows |
| DatabaseManager.FilesOfAppend | utils/database_manager.py:218-223 | a new row shows up at the end of its notebook's rows only |
| DatabaseManager.InsertByRecency | utils/database_manager.py:135 | inserting into a most-recent-first list keeps it ordered and adds exactly the notebook |
| DatabaseManager.InsertByRecencyPermutes | utils/database_manager.py:135 | the insertion is a permutation of the list plus the notebook |
| DatabaseManager.InsertAfterHead | utils/database_manager.py:135 | an older notebook inserted behind the head keeps the order |
| DatabaseManager.ByRecency | utils/database_manager.py:125-140 | the listing loop returns every notebook once, most recently updated first |
| DatabaseManager.TablesLater | utils/database_manager.py:31-63 | the table invariants survive the clock moving forward |
| DatabaseManager.CreateKeepsTables | utils/database_manager.py:86-91 | inserting a fresh notebook row keeps both table invariants |
| DatabaseManager.TouchKeepsTable | utils/database_manager.py:156-161 | setting a notebook's update time to now keeps the notebook invariant |
| DatabaseManager.AddKeepsTable | utils/database_manager.py:218-223 | appending a new file row keeps the file invariant |
| DatabaseManager.Database.constructor | utils/database_manager.py:31-63 | empty tables with both counters at 1 |
| DatabaseManager.Database.Now | utils/database_manager.py:87 | reading the clock returns it and advances it, nothing else changes |
| DatabaseManager.Database.CreateNotebook | utils/database_manager.py:66-99 | a short name fails without touching anything; a taken name fails after the clock read with the tables unchanged; otherwise exactly one row with the next id and created equal to updated, owning no files; the clock advances by one reading unless the name is too short |
| DatabaseManager.Database.GetNotebookByName | utils/database_manager.py:102-122 | the row of that name, or none exactly when absent |
| DatabaseManager.Database.ListNotebooks | utils/database_manager.py:125-140 | every notebook once, most recently updated first |
| DatabaseManager.Database.UpdateNotebook | utils/database_manager.py:143-168 | true iff the notebook exists, which then gets the clock as its update time; false changes no row |
| DatabaseManager.Database.DeleteNotebook | utils/database_manager.py:171-192 | true iff the notebook existed; its row is removed and the file rows stay |
| DatabaseManager.Database.AddFile | utils/database_manager.py:195-234 | an unknown notebook fails and nothing changes; otherwise one unprocessed row with the next id is appended and the notebook's update time is bumped |
| DatabaseManager.Database.GetFilesByNotebook | utils/database_manager.py:237-266 | the not-found error iff the notebook is absent; otherwise exactly its rows |
| DatabaseManager.Database.GetUnprocessedFiles | utils/database_manager.py:269-298 | the not-found error iff the notebook is absent; otherwise exactly its listed rows that are unprocessed |
| DatabaseManager.Database.FileListingsNewestFirst | utils/database_manager.py:258-262 | both file listings are in strictly decreasing upload order, so each row appears once |
| DatabaseManager.Database.MarkFileAsProcessed | utils/database_manager.py:301-325 | true iff a row has that id; the new file table is the marked one |
| DatabaseManager.MarkedProcessed | utils/database_manager.py:314-318 | the flag is set on exactly the rows with that id and no other field changes |
| DatabaseManager.MarkIdempotent | utils/database_manager.py:314-318 | marking twice is marking once |
| DatabaseManager.MarkMissingUnchanged | utils/database_manager.py:314-325 | marking an absent id changes nothing |
| DatabaseManager.MarkRemovesFromUnprocessed | utils/database_manager.py:290-325 | after marking, a notebook's unprocessed files are the earlier ones minus that id |

## Left out

- `print_prompt_preview` (utils/prompt_builder.py:184-200) only writes to the console.
- The embedding model and its device (`get_embedding_model`, `embed_documents`, `embed_query`)
  are foreign numerics. They are the function parameters `embed` and `embedQuery`.
- chromadb's persistent client and nearest-neighbour ranking are a foreign library. The query
  result is the parameter `search`, and the notebook's directory and its collection are one map
  entry. Of chromadb's input checks only the metadata length check is modelled.
- `chunk_text` and its text splitter are a library call. The chunker is the parameter `chunk`.
- PyPDF2 page extraction is a library call. Each page's text, or its failure, is part of the
  file system input.
- The LLM call through ChatGroq or ChatOllama is a network call. It is the parameter `invoke`,
  which returns the response content or an error.
- Loading the YAML configuration and the `.env` file is file I/O. The configuration is the
  `Configs` input.
- Path normalisation and the `utils/paths.py` directory layout are not part of this model.
  Notebooks are keyed by name and files by path string.
- Distances and thresholds are real numbers, not floating point.
- The empty string stands for `None` for the provider and the model name.
- `get_db_connection` and the SQLite engine (transactions, commit and rollback) are not
  modelled. Each catalog operation is one atomic update of the tables.
- Timestamps are a counter that advances on every `datetime.now()`. Equal wall-clock readings,
  whose order `ORDER BY` leaves unspecified, are not modelled.
- PromptBuilder.LowercaseFirstChar: lower-cases ASCII letters only. Python's Unicode case
  mapping is not modelled.
- DocumentProcessor.CaseInsensitiveDispatch: compares suffixes under ASCII lower-casing only,
  for the same reason.
- PyText.PyListRepr: escapes the controls, the Latin-1 non-printable characters and the Unicode
  separators and zero-width marks as Python does. Other characters above U+00FF that Python's
  `repr` escapes, such as unassigned code points, are written as they are, because the Unicode
  character database is not part of this model.
- PyText.Strip: strips the characters Python's `str.isspace` accepts, without Unicode
  normalisation.
- VectorStoreManager.VectorStore.AddDocuments: requires a handle to a notebook that has storage.
  The source would write to a collection whose directory was deleted in between; the model does
  not capture that.
- VectorStoreManager.VectorStore.ListNotebooks: states the set of names and that there are no
  repeats, not their order. The order comes from `os.listdir` and is unspecified.

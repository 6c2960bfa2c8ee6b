# A Dafny model of the CP chatbot platform's core

CP is a Django platform for retrieval-augmented chatbots. A user uploads a knowledge-base file
(`.txt`, `.pdf` or `.docx`). A background Celery task, or its synchronous twin `proceed_view`,
then does four things:
- it extracts the file's text;
- it stores the text as one chunk in a per-knowledge-base FAISS index, on local disk or in a
  Google Cloud Storage bucket;
- it gives the knowledge base a widget slug;
- it marks the knowledge base `completed`.

The embeddable chat widget answers questions in three steps. It searches the index for the
question, joins the hits into a context, and asks the Gemini model to answer from that context.

This project models that core, one Dafny module per source file plus three helper modules:
- `Wrappers` holds `Option` and `Result`.
- `Strings` holds the Python `str` operations the code uses.
- `Utf8` holds `bytes.decode('utf-8', errors='ignore')` and its inverse.

Where the source changes state in place, the model does too:
- The persisted `KnowledgeBase` row is a class, `Models.KnowledgeBaseRow`. Its `Save` writes
  only the named `update_fields`, and it fails when the written slug is taken.
- The file and blob store is a class, `Storage.Store`.
- The task, the views, `embed_and_store`, `delete_vector_store` and the PDF page loop are
  methods on those classes.
- Each such method is proved equal to a specification function. The properties are then
  proved about the functions.

Things the code cannot decide by itself come in as parameters:
- FAISS's neighbour ranking;
- the slug that `uuid4` draws;
- the retry count;
- what the parsers, the storage backend, the embedding model, FAISS and the language model
  yield or raise.

The model follows the code, not the comments or the docstrings. Three cases matter:
- **Generator call.** `chat_api_view` and `chat_view` pass `chat_history=None` to a generator
  that does not declare that parameter.
- **Missing widget.** `get_object_or_404` raises `Http404`, not `DoesNotExist`.
- **Task `except` block.** It reads the in-memory status, not the persisted one.

Each of these is modelled both as written and as evidently intended (see "## Findings"). The
intended versions are the ones the rest of the model uses.

## Model

| member | source | states |
|---|---|---|
| Models.StatusNameRoundTrip | chatbot_platform/core/models.py:14-19 | each of the four statuses is stored as its own name within `max_length=20`, and exactly those four names parse back |
| Models.NewKnowledgeBase | chatbot_platform/core/models.py:20-38 | a new row keeps the given id, owner, title and file name |
| Models.NewKnowledgeBaseDefaults | chatbot_platform/core/models.py:26-38 | a new row is well formed when its title fits 255 characters; it is `uploaded`, not embedded, and has no slug and no error |
| Models.FreshSlugIsSlugValue | chatbot_platform/core/models.py:27 | the eight lower-case hex digits of `str(uuid4())[:8]` are a valid slug value |
| Models.OtherSlugs | chatbot_platform/core/models.py:27 | the slugs held by the other rows: exactly the values that would violate `unique=True` if written to this row |
| Models.ReplacePreservesUniqueSlugs | chatbot_platform/core/models.py:27 | replacing a row keeps the table's slugs unique when the new slug is null, unchanged, or held by no other row |
| Models.IndexNameInjective | chatbot_platform/core/tasks.py:70 | distinct ids give distinct index names `kb_<id>` |
| Models.PersistOnlyNamedColumns | chatbot_platform/core/tasks.py:41 | `save(update_fields=...)` leaves every unnamed column as it was, and saving the loaded row back changes nothing |
| Models.KnowledgeBaseRow.constructor | chatbot_platform/core/models.py:13-38 | a created row holds the model defaults |
| Models.KnowledgeBaseRow.Save | chatbot_platform/core/models.py:27 | a save fails (an `IntegrityError`) exactly when the written slug is held by another row; otherwise it writes exactly the named columns |
| Storage.Store.constructor | chatbot_platform/core/utils/vector/vector_logic.py:84-111 | a new store is empty |
| Storage.Store.Write | chatbot_platform/core/utils/vector/vector_logic.py:97-110 | a write replaces what one key held and nothing else |
| Storage.Store.Remove | chatbot_platform/core/utils/vector/vector_logic.py:194 | removing a key drops that key only |
| Storage.Store.MakeDirs | chatbot_platform/core/utils/vector/vector_logic.py:106 | `makedirs` adds the directories and nothing else |
| Storage.Store.RemoveDir | chatbot_platform/core/utils/vector/vector_logic.py:219 | `rmdir` drops that directory only |
| VectorStore.DefaultGcsKeys | chatbot_platform/core/utils/vector/vector_logic.py:52-55 | with `GS_FAISS_PREFIX` unset, the GCS keys are `faiss_indices/name/name.faiss` and `faiss_indices/name/name.pkl` |
| VectorStore.KeysAreDistinct | chatbot_platform/core/utils/vector/vector_logic.py:41-60 | both artifacts sit under one parent as `name.faiss` and `name.pkl`; an index key is never a chunk-list key; distinct names never share a key, on either backend |
| VectorStore.Texts | chatbot_platform/core/utils/vector/vector_logic.py:64 | the chunk strings, one per list element, in order |
| VectorStore.EmbedAndStore | chatbot_platform/core/utils/vector/vector_logic.py:63-111 | the call returns or raises as the specification function says and leaves the store as the state function says |
| VectorStore.EmbedGuards | chatbot_platform/core/utils/vector/vector_logic.py:64-71 | a non-list, a list holding a non-string, and the empty list all write nothing and raise nothing |
| VectorStore.EmbedPersistsChunks | chatbot_platform/core/utils/vector/vector_logic.py:79-110 | a successful store writes exactly the given chunks (one vector per chunk) under the name's two keys and touches no other key; a missing GCS bucket raises `ValueError` and writes nothing |
| VectorStore.Collect | chatbot_platform/core/utils/vector/vector_logic.py:171 | the filter returns no more results than neighbours, and every result is a stored chunk |
| VectorStore.CollectAppend | chatbot_platform/core/utils/vector/vector_logic.py:171 | the filter keeps neighbour order: it distributes over concatenation |
| VectorStore.CollectSingle | chatbot_platform/core/utils/vector/vector_logic.py:171 | one neighbour contributes its chunk exactly when `0 <= i < len(texts)` |
| VectorStore.SearchNeverEmpty | chatbot_platform/core/utils/vector/vector_logic.py:115-173 | a search raises exactly when it gets past loading to a failing query encoding (a non-empty chunk list) or FAISS search (a non-empty index), and then with that exception; otherwise it never returns `[]`: when nothing loads it returns one sentinel, and missing artifacts give the backend's not-found sentinel rather than raising |
| VectorStore.SearchReturnsStoredChunks | chatbot_platform/core/utils/vector/vector_logic.py:159-173 | once loaded and not raising, a search returns the no-data, empty-index or no-results sentinel, or between 1 and `min(top_k, ntotal)` stored chunks in neighbour order |
| VectorStore.StoreThenSearch | chatbot_platform/core/utils/vector/vector_logic.py:63-173 | a search right after a successful store returns the best-ranked neighbour's chunk first |
| VectorStore.StoreOneThenSearch | chatbot_platform/core/utils/vector/vector_logic.py:63-173 | after storing one chunk, a search where that chunk ranks first returns exactly `[chunk]` |
| VectorStore.Delete | chatbot_platform/core/utils/vector/vector_logic.py:176-222 | the loop over the two keys and the directory clean-up leave the store as the delete state function says |
| VectorStore.DeleteIdempotent | chatbot_platform/core/utils/vector/vector_logic.py:190-222 | a second delete after an unfailing one changes nothing |
| VectorStore.DeleteRemovesOnlyArtifacts | chatbot_platform/core/utils/vector/vector_logic.py:181-222 | delete removes the name's two artifacts (unless a removal fails) and at most their parent directory; without a GCS bucket it removes nothing |
| VectorStore.DeleteThenSearch | chatbot_platform/core/utils/vector/vector_logic.py:115-222 | after a delete, a search for the name returns the backend's not-found sentinel (the no-bucket sentinel on GCS without a bucket), and never raises |
| LegacyVectorStore.LegacyKeys | chatbot_platform/core/utils/vector_logic.py:12-28 | both keys lie under `vectorstore/`; an index key is never a text key, each key is distinct per name, and a legacy index key is never a newer `.faiss` key |
| LegacyVectorStore.EmbedAndStore | chatbot_platform/core/utils/vector_logic.py:14-31 | the call returns or raises as the specification function says and leaves the store as the state function says |
| LegacyVectorStore.EmbedPersistsTexts | chatbot_platform/core/utils/vector_logic.py:16-31 | a store that returns `True` has created `vectorstore`, saved the texts verbatim with one vector each, and written nothing else |
| LegacyVectorStore.LegacyCollect | chatbot_platform/core/utils/vector_logic.py:48 | the filter without a lower bound: a successful result holds no more entries than neighbours, all of them stored texts |
| LegacyVectorStore.MissingArtifactSentinel | chatbot_platform/core/utils/vector_logic.py:38-39 | either missing artifact gives the one sentinel without raising |
| LegacyVectorStore.LegacyAgreesOnValidIds | chatbot_platform/core/utils/vector_logic.py:48 | on non-negative neighbours the legacy filter equals the newer one |
| LegacyVectorStore.LegacyMayReturnEmpty | chatbot_platform/core/utils/vector_logic.py:48-49 | when every neighbour lies beyond the text list, the result is the empty list, with no sentinel |
| LegacyVectorStore.PaddingRepeatsLastText | chatbot_platform/core/utils/vector_logic.py:46-48 | each `-1` pad adds the last text once more, where the newer filter drops it |
| LegacyVectorStore.PaddedSearchDuplicates | chatbot_platform/core/utils/vector_logic.py:46-48 | two texts ranked `[1, 0]` with `top_k=3` give `["b", "a", "b"]`; the newer search gives `["b", "a"]` |
| FileReader.LastIndexOf | chatbot_platform/core/utils/file_reader.py:35 | the index of the last occurrence of the character, or -1 when there is none |
| FileReader.SplitExt | chatbot_platform/core/utils/file_reader.py:35 | `splitext`'s suffix is empty, or a suffix of the name that starts with its only `.` and holds no `/` |
| FileReader.SplitExtOfStemAndSuffix | chatbot_platform/core/utils/file_reader.py:35 | `stem.e` has the extension `.e` |
| FileReader.SplitExtWithoutDot | chatbot_platform/core/utils/file_reader.py:35 | a last component without a dot has no extension |
| FileReader.SplitExtLeadingDot | chatbot_platform/core/utils/file_reader.py:35 | a leading-dot name such as `.bashrc` has no extension |
| FileReader.FixedMessagesInBand | chatbot_platform/core/utils/file_reader.py:32-69 | the fixed failure messages all start with `Error:` |
| FileReader.ExtractPdfPages | chatbot_platform/core/utils/file_reader.py:49-52 | the page loop returns the in-order concatenation of the truthy page texts, or the first page's exception |
| FileReader.PdfTextKeepsFirstError | chatbot_platform/core/utils/file_reader.py:49-55 | once a page raises, later pages do not matter |
| FileReader.PdfTextAppend | chatbot_platform/core/utils/file_reader.py:49-52 | the text of two runs of pages is the first's text followed by the second's, with no separator |
| FileReader.PdfTextSingle | chatbot_platform/core/utils/file_reader.py:50-52 | one page contributes its text, or nothing when it is `None` or empty |
| FileReader.ReadFailureIsInBand | chatbot_platform/core/utils/file_reader.py:41-71 | every failing branch returns a string starting with `Error:` |
| FileReader.FailureIsInBand | chatbot_platform/core/utils/file_reader.py:31-76 | every failure of `extract_text_from_file` is reported in band, as a string starting with `Error:` |
| FileReader.SuccessIsFileText | chatbot_platform/core/utils/file_reader.py:41-64 | otherwise the result is the UTF-8 decoding of the bytes, the concatenated page texts, or the newline-joined paragraphs; no other extension succeeds |
| FileReader.TextFileRoundTrip | chatbot_platform/core/utils/file_reader.py:41-43 | a `.txt` file holding an encoded string yields that string |
| FileReader.DispatchIgnoresCase | chatbot_platform/core/utils/file_reader.py:35 | names whose extensions agree once lower-cased are read alike |
| FileReader.DocIsUnsupported | chatbot_platform/core/utils/file_reader.py:70-71 | `stem.doc` gives `Error: Unsupported file type: .doc`, whatever the file holds |
| FileReader.UpperCaseExtension | chatbot_platform/core/utils/file_reader.py:35 | `stem.PDF` dispatches as `.pdf` |
| Utf8.WellFormedPrefix | chatbot_platform/core/utils/file_reader.py:43 | the length of the well-formed sequence at the start of the bytes is at most 4 and at most the input length |
| Utf8.ScalarValue | chatbot_platform/core/utils/file_reader.py:43 | a well-formed sequence denotes a Unicode scalar value |
| Utf8.Decode | chatbot_platform/core/utils/file_reader.py:43 | decoding with `errors='ignore'` never yields more characters than bytes |
| Utf8.EncodeCharDecodes | chatbot_platform/core/utils/file_reader.py:43 | an encoded character is read back as one well-formed sequence of its own length |
| Utf8.DecodeEncode | chatbot_platform/core/utils/file_reader.py:43 | decoding inverts UTF-8 encoding: well-formed input loses nothing |
| Strings.TrimLeft | chatbot_platform/core/tasks.py:61 | `lstrip` drops exactly the leading whitespace |
| Strings.TrimRight | chatbot_platform/core/tasks.py:61 | `rstrip` drops exactly the trailing whitespace |
| Strings.StripEmptyIffAllSpace | chatbot_platform/core/tasks.py:61 | `not s.strip()` holds exactly for all-whitespace strings |
| Strings.StripIsTrimmedSlice | chatbot_platform/webapp/utils/genai_llm.py:30 | `strip` returns the slice between the leading and trailing whitespace, and the result neither starts nor ends with whitespace |
| Strings.Lower | chatbot_platform/webapp/forms.py:21 | `lower` maps each character on its own and keeps the length |
| Strings.LowerAppend | chatbot_platform/webapp/forms.py:21 | `lower` distributes over concatenation |
| Strings.LowerOfLowerCase | chatbot_platform/webapp/forms.py:21 | a string without upper-case letters is its own lower-case form |
| Strings.LowerIdempotent | chatbot_platform/webapp/forms.py:21 | lower-casing twice is lower-casing once |
| Strings.IndexOf | chatbot_platform/webapp/forms.py:21 | the index of the first occurrence of the separator, or the length when there is none |
| Strings.Split | chatbot_platform/webapp/forms.py:21 | `split` always returns at least one part |
| Strings.SplitJoin | chatbot_platform/webapp/views.py:270 | splitting a separator-joined list gives the list back when no element holds the separator |
| Strings.NatToDecimal | chatbot_platform/core/tasks.py:70 | `str(n)` is a non-empty string of decimal digits |
| Strings.DecimalRoundTrip | chatbot_platform/core/tasks.py:70 | `int(str(n)) == n` |
| Strings.NatToDecimalInjective | chatbot_platform/core/tasks.py:70 | distinct numbers have distinct decimal strings |
| WebappForms.LastDotSegment | chatbot_platform/webapp/forms.py:21 | the last `.`-segment holds no dot |
| WebappForms.LastDotSegmentAfterDot | chatbot_platform/webapp/forms.py:21 | what precedes the last dot does not matter |
| WebappForms.LastDotSegmentNoDot | chatbot_platform/webapp/forms.py:21 | a dotless name is its own last segment |
| WebappForms.SplitLastIsLastDotSegment | chatbot_platform/webapp/forms.py:21 | `name.split('.')[-1]` is the last segment |
| WebappForms.CleanFileRule | chatbot_platform/webapp/forms.py:17-24 | a falsy file passes unchecked; a named file passes exactly when the last segment of its lower-cased name is `txt`, `pdf`, `docx` or `doc`; it passes unchanged, and any other file is rejected with the one message |
| WebappForms.LowerLastDotSegment | chatbot_platform/webapp/forms.py:21 | lower-casing commutes with taking the last segment |
| WebappForms.LastDotSegmentIs | chatbot_platform/webapp/forms.py:21 | the last segment is a dot-free word `w` exactly when the name is `w` or ends in `.w` |
| WebappForms.AcceptedBySegment | chatbot_platform/webapp/forms.py:20-22 | the allowed-extension test is the allowed-word test on the lower-cased last segment |
| WebappForms.AcceptedNames | chatbot_platform/webapp/forms.py:20-22 | a name is accepted exactly when, lower-cased, it ends in `.txt`, `.pdf`, `.docx` or `.doc`, or is one of those bare words |
| WebappForms.JudgedOnLastSegment | chatbot_platform/webapp/forms.py:21-22 | `stem.seg` is judged on `seg` alone |
| WebappForms.JudgedAsWhole | chatbot_platform/webapp/forms.py:21-22 | a dotless name is judged as a whole |
| WebappForms.CleanFileOfName | chatbot_platform/webapp/forms.py:19-24 | a non-empty name is returned unchanged exactly when its extension is allowed, and rejected otherwise |
| WebappForms.UpperCaseAccepted | chatbot_platform/webapp/forms.py:21 | `A.PDF` is accepted |
| WebappForms.BareWordAccepted | chatbot_platform/webapp/forms.py:21 | the bare name `txt` is accepted |
| WebappForms.DocAccepted | chatbot_platform/webapp/forms.py:20 | `notes.doc` is accepted |
| WebappForms.DocNamesAccepted | chatbot_platform/webapp/forms.py:20 | every name ending in `.doc` passes |
| WebappForms.MarkdownRejected | chatbot_platform/webapp/forms.py:22-23 | `notes.md` is rejected with the unsupported-format message |
| WebappForms.CleanEmail | chatbot_platform/webapp/forms.py:36-40 | the address passes, unchanged, exactly when no existing user has it; otherwise it is rejected with the duplicate-email message |
| WebappForms.CleanUsername | chatbot_platform/webapp/forms.py:42-46 | the name passes, unchanged, exactly when no existing user has it; otherwise it is rejected with the duplicate-username message |
| WebappForms.CleanPassword | chatbot_platform/webapp/forms.py:49-65 | an empty or missing password is rejected as required; otherwise the validators' messages reject it; it passes, unchanged, exactly when it is given and the validators accept |
| WebappForms.CleanPassword2 | chatbot_platform/webapp/forms.py:67-76 | the confirmation is rejected exactly when both passwords are given and differ; otherwise it is returned as it is |
| WebappForms.PasswordsAgree | chatbot_platform/webapp/forms.py:49-76 | when both password checks pass, the confirmation equals the password or is empty |
| CoreForms.SameRuleAsWebappForm | chatbot_platform/core/forms.py:10-18 | the older form accepts exactly the files the web app's form accepts, returns them unchanged, and words its one message differently |
| CoreForms.CleanFileRule | chatbot_platform/core/forms.py:12-16 | the rule in terms of the lower-cased last segment |
| CoreForms.DocAcceptedButNotReadable | chatbot_platform/core/forms.py:14 | every `stem.doc` passes the form, yet the extractor answers it with its unsupported-type message |
| GenAi.PromptLayout | chatbot_platform/webapp/utils/genai_llm.py:15-22 | the prompt is the preamble, the context, the question label, the question and the answer label, in that order |
| GenAi.PromptInjective | chatbot_platform/webapp/utils/genai_llm.py:15-22 | the prompt determines the context given the question, and determines both for contexts of one length |
| GenAi.AnswerCases | chatbot_platform/webapp/utils/genai_llm.py:29-42 | non-empty text is returned stripped; empty text with a block reason gives the safety message, and without one the empty-response message; any exception gives the internal-error message; the three fallbacks are distinct |
| GenAi.AnswerIsTrimmed | chatbot_platform/webapp/utils/genai_llm.py:29-42 | the answer never starts or ends with whitespace, and it is empty only when the model replied with whitespace alone |
| Ingestion.RetryOutcome | chatbot_platform/core/tasks.py:16 | `self.retry` schedules another attempt exactly while fewer than `max_retries=3` were made; otherwise it gives up with the error |
| Ingestion.ProcessKnowledgeBaseEmbedding | chatbot_platform/core/tasks.py:17-94 | the task leaves the row and the store, and returns its outcome, exactly as the run function says for the extracted text |
| Ingestion.StoreText | chatbot_platform/core/tasks.py:50-81 | from the extracted text on, the task follows the run function |
| Ingestion.Finish | chatbot_platform/core/tasks.py:76-94 | from `embed_and_store`'s outcome on, the task follows the run function |
| Ingestion.OnException | chatbot_platform/core/tasks.py:86-94 | the `except` block marks the row failed with `str(e)` unless the in-memory status is `completed`, then requests a retry |
| Ingestion.OneChunkIsStoredOrRaises | chatbot_platform/core/tasks.py:72 | storing `[text]` persists it or raises; it is never rejected as empty or malformed |
| Ingestion.StoringRules | chatbot_platform/core/tasks.py:72-94 | after storing, a raise fails the row with `str(e)` and asks for a retry; otherwise the row is completed; on a slug clash it is left as claimed (as written) or failed (corrected), with a retry; the slug is kept or is one no other row holds |
| Ingestion.ExtractionRules | chatbot_platform/core/tasks.py:50-72 | an `Error:` text fails the row with that text, and a blank text with the fixed message, both without storing; otherwise the text is stored as the one chunk of `kb_<id>` |
| Ingestion.GuardSkips | chatbot_platform/core/tasks.py:26-35 | the task is skipped, with nothing changed, exactly when the row is embedded and completed, or in `processing` on a first attempt; a retry passes the second check |
| Ingestion.ExtractionErrorFails | chatbot_platform/core/tasks.py:52-59 | an `Error:` text becomes the row's error and fails it; the embedded flag and the slug are kept and nothing is stored |
| Ingestion.ExtractorFailureIsRecorded | chatbot_platform/core/tasks.py:50-59 | every failure of the extractor (no file, storage, type, parser) is recorded as the row's error |
| Ingestion.BlankTextFails | chatbot_platform/core/tasks.py:61-66 | blank text fails the row with the fixed message and stores nothing |
| Ingestion.ReachesStore | chatbot_platform/core/tasks.py:68-72 | usable text is stored under `kb_<id>`, and the store persists it or raises |
| Ingestion.SuccessRules | chatbot_platform/core/tasks.py:70-81 | a completed run passed the guard, had usable text, and stored exactly `[text]` under `kb_<id>` and nothing else; the row is embedded, its error cleared, and it keeps its slug or gets the drawn one |
| Ingestion.SlugRule | chatbot_platform/core/tasks.py:76-77 | a set slug is kept; a null or blank one is replaced by the drawn one, which is a valid slug |
| Ingestion.LeftProcessingOnlyOnSlugClash | chatbot_platform/core/tasks.py:39-94 | as written, a run past the guard leaves the row `processing` exactly when the text was stored and the final save hit the slug constraint |
| Ingestion.SlugClashLeavesProcessing | chatbot_platform/core/tasks.py:79-93 | a row without slug whose drawn slug is taken ends in `processing` with no error recorded, on the last retry as on any other |
| Ingestion.CorrectedNeverLeftProcessing | chatbot_platform/core/tasks.py:89-93 | with the `except` block deciding on the persisted status, every run past the guard ends `failed` or `completed`, and it differs from the code as written only on a slug clash |
| Ingestion.FailureIsRecorded | chatbot_platform/core/tasks.py:52-93 | a row that ends `failed` records the extractor's message, the blank-text message, or the store's exception; the last one comes with a retry |
| Ingestion.SlugWrittenOnlyWhenFree | chatbot_platform/core/tasks.py:76-81 | a run leaves the slug as it was or writes one no other row holds |
| Ingestion.IngestKeepsSlugsUnique | chatbot_platform/core/models.py:27 | every run of the task, as written or corrected, keeps the table's slugs unique |
| Views.ProceedView | chatbot_platform/webapp/views.py:150-215 | the view leaves the row and the store, and flashes its notice, exactly as the specification function says |
| Views.EmbedText | chatbot_platform/webapp/views.py:177-204 | from the extracted text on, the view follows the specification function |
| Views.FinishEmbedding | chatbot_platform/webapp/views.py:198-213 | from `embed_and_store`'s outcome on, the view follows the specification function |
| Views.OnException | chatbot_platform/webapp/views.py:207-213 | the `except` block always marks the row failed with `str(e)` |
| Views.StoredRules | chatbot_platform/webapp/views.py:198-213 | after storing, a raise or a slug clash fails the row with its message; otherwise the row is completed with the drawn slug |
| Views.ClaimedSteps | chatbot_platform/webapp/views.py:173-198 | a missing file, an `Error:` text and a blank text each fail the row without storing; otherwise the text is stored as the one chunk of `kb_<id>` |
| Views.ClaimedRules | chatbot_platform/webapp/views.py:171-215 | after the claim the row ends `failed` or `completed`, `completed` exactly when the success message is flashed, and only after storing the usable text of an existing file |
| Views.ProceedGuard | chatbot_platform/webapp/views.py:159-164 | a `completed` row (embedded or not) and a `processing` row are left unchanged with their info message; every other row ends with a notice that is not an info message |
| Views.GuardsDiffer | chatbot_platform/webapp/views.py:159-164 | the view's guard and the task's differ: a completed row that is not embedded, or a processing row on a retry, is taken up by the task only |
| Views.ProceedNeverLeftProcessing | chatbot_platform/webapp/views.py:171-215 | every request past the guard leaves the row `failed` or `completed`, never `processing` |
| Views.ProceedFailures | chatbot_platform/webapp/views.py:173-213 | a missing file, an `Error:` text, blank text and a store exception each fail the row with their own message and flash it |
| Views.ProceedSuccess | chatbot_platform/webapp/views.py:196-204 | an embedded row stored exactly `[text]` under `kb_<id>`, cleared its error and had its slug replaced by the drawn one |
| Views.ProceedKeepsSlugsUnique | chatbot_platform/webapp/views.py:200-203 | the view keeps the table's slugs unique |
| Views.ContextRule | chatbot_platform/webapp/views.py:270 | the context is the fallback for no results, and otherwise the results joined by newlines in ranked order; splitting it gives them back |
| Views.AsWrittenApiNeverAnswers | chatbot_platform/webapp/views.py:256-290 | as written, the API answers only blank messages; every other message gets the internal-error reply, for known and unknown widgets alike |
| Views.BlankMessageAnsweredFirst | chatbot_platform/webapp/views.py:259-262 | a blank message gets "Please type a message." before any lookup or search, whatever the row, store and model |
| Views.ChatApiContext | chatbot_platform/webapp/views.py:264-278 | a question to a known widget gets the internal error exactly when the search raises; otherwise it is answered from the stripped question and the newline-joined search results for `kb_<id>`, of which there are 1 to `top_k=3`, so the no-results fallback is never used |
| Views.UnknownWidgetNotFound | chatbot_platform/webapp/views.py:280-282 | as intended, a non-blank message gets "Chatbot not found." exactly when the widget is unknown, and the internal error exactly when the search for a known widget raises |
| Views.AsWrittenPageFailsOnQuestions | chatbot_platform/webapp/views.py:302-313 | as written, the chat page ends in a server error exactly for a non-blank message to a known widget, and otherwise agrees with the intended page |
| Views.ChatViewRules | chatbot_platform/webapp/views.py:298-321 | an unknown slug is a 404 even for a blank message; a GET shows an empty history; a POST ends in a server error exactly when the search for a non-blank message raises, and otherwise shows the stripped message and the reply, the fixed prompt for a blank message |
| Views.ChatViewUsesOneChunk | chatbot_platform/webapp/views.py:307-310 | with the default `top_k=1`, a search that raises ends in a server error; otherwise the page answers from exactly one string, a stored chunk or a sentinel |
| Views.DeleteKbView | chatbot_platform/webapp/views.py:220-239 | an unowned or missing row is a 404 and changes nothing; otherwise the stored file, the two artifacts of `kb_<id>` and the row are removed, and the success message names the title |
| Views.ChatAfterEmbedding | chatbot_platform/webapp/views.py:196-278 | processing and chat use the same index: after `[text]` is stored under `kb_<id>`, a question is answered from exactly that text |
| Views.ChatAfterDelete | chatbot_platform/webapp/views.py:231-278 | delete and chat use the same index: after the delete, a question is answered from the not-found sentinel |

## Left out

- FAISS is not modelled: the nearest-neighbour search, `IndexFlatL2` and the float32 embeddings. The
  neighbour order comes in as `ranking`, and an index is its vector count.
- The GCS client, pickling, `faiss.write_index`/`read_index` and the temporary directories are
  not modelled. Storage is a map from key to artifact, and download and load failures are a
  parameter.
- The embedding model (`get_embedding_model`) is left out. Where its `model.encode` or FAISS's
  `index.search` can raise, that is a fault parameter:
  - `StoreFault` in `embed_and_store`;
  - `ReadFault`'s `EncodeRaises` and `IndexSearchRaises` in the newer `search_similar_chunks`,
    where neither is caught;
  - the one `loadFault` in the legacy `search_similar_chunks`, which guards nothing after its
    existence check.
- The Gemini call is a parameter: `respond(prompt)` stands for `generate_content`.
- `select_for_update`, `transaction.atomic` and Celery's scheduling are left out. Each run is
  sequential, and a retry is reported as an outcome, not rescheduled.
- `KnowledgeBase.DoesNotExist` in the task is not modelled. The row is given, so the lookup
  always succeeds, and so is `kb` in the task's `except` block. An exception before the row
  loads, where `kb` would be unbound, is not modelled.
- `proceed_view`'s `get_object_or_404` is not modelled, because the row is given. The `user=`
  ownership check is modelled for `delete_kb_view` only.
- `chat_api_view` and `chat_view` take the row the widget slug names as an `Option`. Lookup by
  slug and `MultipleObjectsReturned` are not modelled.
- The JSON-decoding error, a non-string `message` and the 405 for non-POST requests in
  `chat_api_view` are left out.
- In `delete_kb_view`, the `@require_POST` 405 for other methods is left out. So are exceptions
  from `kb.file.storage.exists` and `kb.file.delete()`: media storage is a set of file names,
  and removing one always succeeds.
- The auth, signup, login, logout, dashboard, home, widget and iframe views are page plumbing
  and are left out, as are `core/views.py`, the settings, the URL confs, the admin and the
  JavaScript.
- `validate_password` is Django's library: its messages are a parameter of
  `WebappForms.CleanPassword`.
- `CustomUserCreationForm.save` is a library wrapper and is left out.
- `str(e)` of each exception is an opaque message parameter.
- The `logger` and `print` calls do not affect state and are left out.
- Lower-casing is ASCII only, where Python's `lower()` covers all of Unicode. This affects only
  non-ASCII extensions, none of which is allowed.
- The PDF and DOCX parsers are not modelled: what they yield or raise for a file is part of the
  file's description.
- Views.ProceedFailures: for a store exception, it states the row and the notice but not the
  store. The store is whatever the partial write left (see `VectorStore.EmbedAndStore`).
- Views.ChatViewRules: for a non-blank POST that does not raise, it states only that the reply
  is the Bot entry. The reply's value is stated in `Views.ChatViewUsesOneChunk`.

## Findings

| source | as written | input that shows it | evidently intended | confidence | as-written member | corrected member |
|---|---|---|---|---|---|---|
| chatbot_platform/core/utils/vector_logic.py:46-48 | `top_k` goes to FAISS unclamped. The filter `i < len(texts)` lets FAISS's `-1` padding through, and `texts[-1]` is the last text | two stored texts ranked `[1, 0]`, `top_k=3`: the result is `["b", "a", "b"]` | each neighbour's chunk once, as in the newer module, which clamps `k` and filters `i >= 0` | not executed | LegacyVectorStore.PaddedSearchDuplicates | VectorStore.SearchReturnsStoredChunks |
| chatbot_platform/core/tasks.py:79-93 | the success save runs after the in-memory status is set to `completed`. When that save raises `IntegrityError`, the `except` block skips marking the row failed, and the persisted row stays `processing` with no error | a row without slug whose drawn slug another row holds, on the last retry: it stays `processing`, and `proceed_view` then refuses it as "already being processed" | the row is marked failed whenever it was not persisted as completed | not executed | Ingestion.SlugClashLeavesProcessing | Ingestion.CorrectedNeverLeftProcessing |
| chatbot_platform/webapp/views.py:275 | `generate_genai_response(context, user_message, chat_history=None)` passes a keyword that the function does not declare (`genai_llm.py:11`). The call raises `TypeError`, and the generic handler returns the 500 internal error | any non-blank message to a known widget | the answer generated from the retrieved context | not executed | Views.AsWrittenApiNeverAnswers | Views.ChatApiContext |
| chatbot_platform/webapp/views.py:310 | the same call in `chat_view` raises `TypeError` outside any `try`, so the request fails with a server error | any non-blank message posted to a known widget's chat page | the page showing the question and the generated answer | not executed | Views.AsWrittenPageFailsOnQuestions | Views.ChatViewUsesOneChunk |
| chatbot_platform/webapp/views.py:264-288 | `get_object_or_404` raises `Http404`. The `except KnowledgeBase.DoesNotExist` clause never sees it, and the generic handler answers 500 | a non-blank message for an unknown widget slug | the 404 reply "Chatbot not found." | not executed | Views.AsWrittenApiNeverAnswers | Views.UnknownWidgetNotFound |

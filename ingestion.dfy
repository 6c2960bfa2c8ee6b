/**
 * core/tasks.py: the background task `process_knowledge_base_embedding(kb_id)`.  Under the row
 * lock it skips a knowledge base that is already done or already being processed by a first
 * attempt, otherwise claims it (`processing`, error cleared); then it extracts the file's text,
 * stores it as one chunk in the vector store, gives the row a widget slug when it has none and
 * marks it completed.  Failures are recorded on the row; an exception asks Celery for a retry.
 *
 * The Django instance `kb` the task changes in memory is a `KnowledgeBase` value, and every
 * `kb.save(update_fields=...)` writes the named columns of it to the persisted row
 * (`KnowledgeBaseRow.Save`).  The lock, Celery's scheduling and the embedding model are not
 * modelled: the task runs by itself, and a retry is reported rather than rescheduled.
 */
module Ingestion {
  import opened Wrappers
  import opened Strings
  import opened Models
  import opened Storage
  import FileReader
  import VectorStore

  /** `max_retries=3`. */
  const MaxRetries: nat := 3

  const EmptyTextMessage: string := "The uploaded file has no readable text or is empty after extraction."

  /** What the task cannot see in the row or the store: how many times it was retried, what
      goes wrong while storing (if anything), the slug `str(uuid.uuid4())[:8]` would draw, and
      `str(e)` of the `IntegrityError` a clashing slug raises. */
  datatype Inputs = Inputs(
    retries: nat,
    fault: VectorStore.StoreFault,
    freshSlug: FreshSlug,
    clashMessage: string)

  /** How a run ends: skipped at the guard, returned normally, or raised `self.retry(exc=e)`,
      which schedules another attempt while fewer than `max_retries` were made and otherwise
      gives up with the error. */
  datatype TaskOutcome = Skipped | Done | Retrying(msg: string) | RetriesExhausted(msg: string)

  function RetryOutcome(retries: nat, msg: string): (o: TaskOutcome)
    ensures o.Retrying? <==> retries < MaxRetries
    ensures o == Retrying(msg) || o == RetriesExhausted(msg)
  {
    if retries < MaxRetries then Retrying(msg) else RetriesExhausted(msg)
  }

  /** The row, the store and the outcome after a run. */
  datatype Run = Run(row: KnowledgeBase, store: StoreState, outcome: TaskOutcome)

  /** The two checks under the lock: not already embedded and completed, and not in
      `processing` unless this is a retry. */
  predicate PassesGuard(kb: KnowledgeBase, retries: nat) {
    !(kb.isEmbedded && kb.status == Completed) && !(kb.status == Processing && retries == 0)
  }

  /** `[extracted_text]`. */
  function Chunks(text: string): VectorStore.ChunksArg {
    VectorStore.PyList([VectorStore.PyStr(text)])
  }

  const StatusColumns: set<Column> := {StatusColumn, ErrorMessageColumn}
  const SuccessColumns: set<Column> := {IsEmbeddedColumn, StatusColumn, WidgetSlugColumn}

  /** `if not kb.widget_slug`: a slug that is null or blank is replaced by a drawn one. */
  function SlugAfterSuccess(slug: Option<string>, drawn: FreshSlug): Option<string> {
    if slug.Some? && slug.value != "" then slug else Some(drawn)
  }

  /** The instance after the claim at lines 39-41. */
  function Claimed(kb: KnowledgeBase): KnowledgeBase {
    kb.(status := Processing, errorMessage := Some(""))
  }

  /** The instance after the success updates at lines 76-80. */
  function Succeeded(kb: KnowledgeBase, drawn: FreshSlug): KnowledgeBase {
    kb.(widgetSlug := SlugAfterSuccess(kb.widgetSlug, drawn), isEmbedded := true, status := Completed)
  }

  function MarkedFailed(kb: KnowledgeBase, msg: string): KnowledgeBase {
    kb.(status := Failed, errorMessage := Some(msg))
  }

  /** One run of the task on the row `kb` (loaded under the lock), where `text` is what
      `extract_text_from_file(kb.file)` returns and `taken` the slugs other rows hold.
      `fixedExcept` selects the corrected `except` block (see `Ingest`). */
  function RunTask(kb: KnowledgeBase, st: StoreState, s: Settings, text: string, a: Inputs,
                   taken: set<string>, fixedExcept: bool): Run
  {
    if !PassesGuard(kb, a.retries) then Run(kb, st, Skipped)
    else AfterExtraction(Claimed(kb), st, s, a, taken, fixedExcept, text)
  }

  /** The run from the extracted `text` on, with the row claimed. */
  function AfterExtraction(claimed: KnowledgeBase, st: StoreState, s: Settings, a: Inputs, taken: set<string>,
                           fixedExcept: bool, text: string): Run
  {
    if StartsWith(text, FileReader.ErrorPrefix) then Run(MarkedFailed(claimed, text), st, Done)
    else if Strip(text) == "" then Run(MarkedFailed(claimed, EmptyTextMessage), st, Done)
    else
      AfterStoring(claimed, VectorStore.EmbedState(st, s, Chunks(text), IndexName(claimed.id), a.fault),
                   VectorStore.EmbedOutcome(s, Chunks(text), a.fault), a, taken, fixedExcept)
  }

  /** The run from `embed_and_store`'s outcome `o` on, with `st` the store it left. */
  function AfterStoring(claimed: KnowledgeBase, st: StoreState, o: VectorStore.StoreOutcome, a: Inputs,
                        taken: set<string>, fixedExcept: bool): Run
  {
    if o.Raised? then Run(MarkedFailed(claimed, o.msg), st, RetryOutcome(a.retries, o.msg))
    else
      var done := Succeeded(claimed, a.freshSlug);
      if !SlugClash(done, SuccessColumns, taken) then Run(done, st, Done)
      else if fixedExcept then
        Run(MarkedFailed(claimed, a.clashMessage), st, RetryOutcome(a.retries, a.clashMessage))
      else Run(claimed, st, RetryOutcome(a.retries, a.clashMessage))
  }

  /** The task as written.  When the final save hits the unique constraint on `widget_slug`,
      the `except` block sees the in-memory status already set to `completed` and does not
      mark the row failed, so the persisted row stays in `processing`. */
  function Ingest(kb: KnowledgeBase, st: StoreState, s: Settings, text: string, a: Inputs, taken: set<string>): Run {
    RunTask(kb, st, s, text, a, taken, false)
  }

  /** The task with the `except` block deciding on the persisted status, as its comment says
      ("only mark as failed if it wasn't already successfully completed"). */
  function IngestCorrected(kb: KnowledgeBase, st: StoreState, s: Settings, text: string, a: Inputs, taken: set<string>): Run {
    RunTask(kb, st, s, text, a, taken, true)
  }

  /** `process_knowledge_base_embedding(kb_id)` on the persisted `row`, whose file has the
      contents `body`, with the parser libraries `libs`. */
  method ProcessKnowledgeBaseEmbedding(row: KnowledgeBaseRow, store: Store, s: Settings,
                                       body: FileReader.FileBody, libs: FileReader.Libraries,
                                       a: Inputs, taken: set<string>) returns (outcome: TaskOutcome)
    modifies row, store
    ensures var text := FileReader.Extract(FileReader.FieldFile(old(row.Value()).fileName, body), libs);
      var r := Ingest(old(row.Value()), old(store.State()), s, text, a, taken);
      row.Value() == r.row && store.State() == r.store && outcome == r.outcome
  {
    var kb := row.Value();
    if kb.isEmbedded && kb.status == Completed {
      return Skipped;
    }
    if kb.status == Processing && a.retries == 0 {
      return Skipped;
    }
    kb := kb.(status := Processing, errorMessage := Some(""));
    var saved := row.Save(kb, StatusColumns, taken);
    var text := FileReader.Extract(FileReader.FieldFile(kb.fileName, body), libs);
    outcome := StoreText(row, store, s, kb, text, a, taken);
  }

  /** The task from the extracted text on, with the row claimed as `kb`. */
  method StoreText(row: KnowledgeBaseRow, store: Store, s: Settings, kb: KnowledgeBase, text: string,
                   a: Inputs, taken: set<string>) returns (outcome: TaskOutcome)
    requires row.Value() == kb && kb.status == Processing
    modifies row, store
    ensures var r := AfterExtraction(kb, old(store.State()), s, a, taken, false, text);
      row.Value() == r.row && store.State() == r.store && outcome == r.outcome
  {
    if StartsWith(text, FileReader.ErrorPrefix) {
      var failed := kb.(status := Failed, errorMessage := Some(text));
      var saved := row.Save(failed, StatusColumns, taken);
      return Done;
    }
    if Strip(text) == "" {
      var failed := kb.(status := Failed, errorMessage := Some(EmptyTextMessage));
      var saved := row.Save(failed, StatusColumns, taken);
      return Done;
    }
    var stored := VectorStore.EmbedAndStore(store, s, Chunks(text), IndexName(kb.id), a.fault);
    outcome := Finish(row, store, kb, stored, a, taken);
  }

  /** The task from `embed_and_store`'s outcome on: the success updates and their save, or the
      `except` block. */
  method Finish(row: KnowledgeBaseRow, store: Store, kb: KnowledgeBase, stored: VectorStore.StoreOutcome,
                a: Inputs, taken: set<string>) returns (outcome: TaskOutcome)
    requires row.Value() == kb && kb.status == Processing
    modifies row
    ensures var r := AfterStoring(kb, store.State(), stored, a, taken, false);
      row.Value() == r.row && store.State() == r.store && outcome == r.outcome
  {
    if stored.Raised? {
      outcome := OnException(row, kb, stored.msg, a.retries, taken);
      return;
    }
    var done := kb;
    if done.widgetSlug.None? || done.widgetSlug.value == "" {
      done := done.(widgetSlug := Some(a.freshSlug));
    }
    done := done.(isEmbedded := true, status := Completed);
    assert done == Succeeded(kb, a.freshSlug);
    var saved := row.Save(done, SuccessColumns, taken);
    if !saved {
      outcome := OnException(row, done, a.clashMessage, a.retries, taken);
      return;
    }
    outcome := Done;
  }

  /** The `except Exception as e` block: unless the in-memory status is `completed`, the row is
      marked failed with `str(e)`; then a retry is requested. */
  method OnException(row: KnowledgeBaseRow, kb: KnowledgeBase, msg: string, retries: nat,
                     taken: set<string>) returns (outcome: TaskOutcome)
    modifies row
    ensures row.Value() == if kb.status != Completed
      then Persist(old(row.Value()), MarkedFailed(kb, msg), StatusColumns) else old(row.Value())
    ensures outcome == RetryOutcome(retries, msg)
  {
    if kb.status != Completed {
      var failed := kb.(status := Failed, errorMessage := Some(msg));
      var saved := row.Save(failed, StatusColumns, taken);
    }
    outcome := RetryOutcome(retries, msg);
  }

  // ---------------------------------------------------------------- properties

  /** Storing `[text]` either persists it or raises: the chunk list is never rejected. */
  lemma OneChunkIsStoredOrRaises(s: Settings, text: string, fault: VectorStore.StoreFault)
    ensures var o := VectorStore.EmbedOutcome(s, Chunks(text), fault); o.Persisted? || o.Raised?
  {
  }

  /** After `embed_and_store`: a raise fails the claimed row and asks for a retry; otherwise the
      row is completed, unless its slug clashes, where the task as written leaves the claimed
      row as it was and the corrected one fails it; either way a retry is asked for. */
  lemma StoringRules(claimed: KnowledgeBase, st: StoreState, o: VectorStore.StoreOutcome, a: Inputs,
                     taken: set<string>, fixed: bool)
    ensures var r, done := AfterStoring(claimed, st, o, a, taken, fixed), Succeeded(claimed, a.freshSlug);
      && r.store == st
      && (o.Raised? ==> r == Run(MarkedFailed(claimed, o.msg), st, RetryOutcome(a.retries, o.msg)))
      && (!o.Raised? && !SlugClash(done, SuccessColumns, taken) ==> r == Run(done, st, Done))
      && (!o.Raised? && SlugClash(done, SuccessColumns, taken) ==>
            r == Run(if fixed then MarkedFailed(claimed, a.clashMessage) else claimed, st,
                     RetryOutcome(a.retries, a.clashMessage)))
      && (r.row.widgetSlug == claimed.widgetSlug || (r.row.widgetSlug.Some? && r.row.widgetSlug.value !in taken))
  {
  }

  /** After the claim: text that is an error or blank fails the row without storing; otherwise
      the text is stored and the run goes on from the store's outcome. */
  lemma ExtractionRules(claimed: KnowledgeBase, st: StoreState, s: Settings, a: Inputs, taken: set<string>,
                        fixed: bool, text: string)
    ensures var r, chunks := AfterExtraction(claimed, st, s, a, taken, fixed, text), Chunks(text);
      && (StartsWith(text, FileReader.ErrorPrefix) ==> r == Run(MarkedFailed(claimed, text), st, Done))
      && (!StartsWith(text, FileReader.ErrorPrefix) && AllSpace(text) ==>
            r == Run(MarkedFailed(claimed, EmptyTextMessage), st, Done))
      && (!StartsWith(text, FileReader.ErrorPrefix) && !AllSpace(text) ==>
            r == AfterStoring(claimed, VectorStore.EmbedState(st, s, chunks, IndexName(claimed.id), a.fault),
                              VectorStore.EmbedOutcome(s, chunks, a.fault), a, taken, fixed))
  {
    StripEmptyIffAllSpace(text);
  }

  /** A knowledge base that is embedded and completed, or in `processing` on a first attempt, is
      left alone: no field and no stored artifact changes.  A retry passes the second check. */
  lemma GuardSkips(kb: KnowledgeBase, st: StoreState, s: Settings, text: string, a: Inputs, taken: set<string>)
    ensures Ingest(kb, st, s, text, a, taken).outcome == Skipped <==> !PassesGuard(kb, a.retries)
    ensures !PassesGuard(kb, a.retries) ==> Ingest(kb, st, s, text, a, taken) == Run(kb, st, Skipped)
    ensures kb.status == Processing ==> (Ingest(kb, st, s, text, a, taken).outcome == Skipped <==> a.retries == 0)
  {
    if PassesGuard(kb, a.retries) {
      var claimed := Claimed(kb);
      ExtractionRules(claimed, st, s, a, taken, false, text);
      if !StartsWith(text, FileReader.ErrorPrefix) && !AllSpace(text) {
        var chunks := Chunks(text);
        StoringRules(claimed, VectorStore.EmbedState(st, s, chunks, IndexName(claimed.id), a.fault),
                     VectorStore.EmbedOutcome(s, chunks, a.fault), a, taken, false);
      }
    }
  }

  /** An extraction error is recorded as the row's error and fails it; the embedded flag and the
      slug are kept and nothing is stored. */
  lemma ExtractionErrorFails(kb: KnowledgeBase, st: StoreState, s: Settings, text: string, a: Inputs, taken: set<string>)
    requires PassesGuard(kb, a.retries)
    requires StartsWith(text, FileReader.ErrorPrefix)
    ensures var r := Ingest(kb, st, s, text, a, taken);
      && r.row == kb.(status := Failed, errorMessage := Some(text))
      && r.store == st && r.outcome == Done
  {
    ExtractionRules(Claimed(kb), st, s, a, taken, false, text);
  }

  /** Whenever the extractor fails (no file, storage unreachable, an unsupported type, a missing
      or failing parser), its message is what the row records as its error. */
  lemma ExtractorFailureIsRecorded(kb: KnowledgeBase, st: StoreState, s: Settings, body: FileReader.FileBody,
                                   libs: FileReader.Libraries, a: Inputs, taken: set<string>)
    requires PassesGuard(kb, a.retries)
    requires FileReader.Fails(FileReader.FieldFile(kb.fileName, body), libs)
    ensures var text := FileReader.Extract(FileReader.FieldFile(kb.fileName, body), libs);
      Ingest(kb, st, s, text, a, taken) == Run(MarkedFailed(Claimed(kb), text), st, Done)
  {
    var text := FileReader.Extract(FileReader.FieldFile(kb.fileName, body), libs);
    FileReader.FailureIsInBand(FileReader.FieldFile(kb.fileName, body), libs);
    ExtractionRules(Claimed(kb), st, s, a, taken, false, text);
  }

  /** Text that is empty or all whitespace fails the row with the fixed message. */
  lemma BlankTextFails(kb: KnowledgeBase, st: StoreState, s: Settings, text: string, a: Inputs, taken: set<string>)
    requires PassesGuard(kb, a.retries)
    requires !StartsWith(text, FileReader.ErrorPrefix)
    requires AllSpace(text)
    ensures var r := Ingest(kb, st, s, text, a, taken);
      && r.row == kb.(status := Failed, errorMessage := Some(EmptyTextMessage))
      && r.store == st && r.outcome == Done
  {
    ExtractionRules(Claimed(kb), st, s, a, taken, false, text);
  }

  /** Every run that gets past the extraction, as written or corrected, stores the text under
      `kb_<id>` and goes on as `StoringRules` says. */
  lemma ReachesStore(kb: KnowledgeBase, st: StoreState, s: Settings, text: string, a: Inputs, taken: set<string>,
                     fixed: bool)
    requires PassesGuard(kb, a.retries)
    requires !StartsWith(text, FileReader.ErrorPrefix) && !AllSpace(text)
    ensures var chunks := Chunks(text);
      var o := VectorStore.EmbedOutcome(s, chunks, a.fault);
      var st' := VectorStore.EmbedState(st, s, chunks, IndexName(kb.id), a.fault);
      && RunTask(kb, st, s, text, a, taken, fixed) == AfterStoring(Claimed(kb), st', o, a, taken, fixed)
      && (o.Persisted? || o.Raised?)
  {
    ExtractionRules(Claimed(kb), st, s, a, taken, fixed, text);
    OneChunkIsStoredOrRaises(s, text, a.fault);
  }

  /** A run that completes the row has passed the guard, found text that is neither an error
      nor blank, and stored exactly that text as the one chunk of index `kb_<id>`; the row is
      then embedded, its error cleared, and it keeps a slug it had or gets the drawn one. */
  lemma SuccessRules(kb: KnowledgeBase, st: StoreState, s: Settings, text: string, a: Inputs, taken: set<string>)
    requires Ingest(kb, st, s, text, a, taken).row.status == Completed
    requires Ingest(kb, st, s, text, a, taken).outcome != Skipped
    ensures var r := Ingest(kb, st, s, text, a, taken);
      var name := IndexName(kb.id);
      && PassesGuard(kb, a.retries)
      && !StartsWith(text, FileReader.ErrorPrefix) && !AllSpace(text)
      && r.outcome == Done
      && r.row == kb.(isEmbedded := true, status := Completed, errorMessage := Some(""),
                      widgetSlug := SlugAfterSuccess(kb.widgetSlug, a.freshSlug))
      && r.store == VectorStore.EmbedState(st, s, Chunks(text), name, a.fault)
      && r.store.files == st.files[VectorStore.FaissKey(s, name) := FaissIndex(1)]
                                 [VectorStore.PickleKey(s, name) := ChunkPickle([text])]
  {
    GuardSkips(kb, st, s, text, a, taken);
    var claimed := Claimed(kb);
    ExtractionRules(claimed, st, s, a, taken, false, text);
    var chunks := Chunks(text);
    var o := VectorStore.EmbedOutcome(s, chunks, a.fault);
    StoringRules(claimed, VectorStore.EmbedState(st, s, chunks, IndexName(kb.id), a.fault), o, a, taken, false);
    VectorStore.EmbedPersistsChunks(st, s, [VectorStore.PyStr(text)], IndexName(kb.id), a.fault);
    assert VectorStore.Texts([VectorStore.PyStr(text)]) == [text];
  }

  /** The slug rule: a set slug is kept, and a drawn one (eight lower-case hex digits, a valid
      slug) is given only when the slug is null or blank. */
  lemma SlugRule(slug: Option<string>, drawn: FreshSlug)
    ensures slug.Some? && slug.value != "" ==> SlugAfterSuccess(slug, drawn) == slug
    ensures slug.None? || slug.value == "" ==> SlugAfterSuccess(slug, drawn) == Some(drawn)
    ensures IsSlugValue(drawn)
  {
    FreshSlugIsSlugValue(drawn);
  }

  /** As written, every run that passes the guard leaves the row `failed` or `completed`, except
      one whose final save hits the slug constraint: that row stays `processing`. */
  lemma LeftProcessingOnlyOnSlugClash(kb: KnowledgeBase, st: StoreState, s: Settings, text: string, a: Inputs, taken: set<string>)
    requires PassesGuard(kb, a.retries)
    ensures var r := Ingest(kb, st, s, text, a, taken);
      && (r.row.status == Failed || r.row.status == Completed || r.row.status == Processing)
      && (r.row.status == Processing <==>
            && !StartsWith(text, FileReader.ErrorPrefix)
            && !AllSpace(text)
            && VectorStore.EmbedOutcome(s, Chunks(text), a.fault).Persisted?
            && SlugClash(Succeeded(Claimed(kb), a.freshSlug), SuccessColumns, taken))
  {
    var claimed := Claimed(kb);
    ExtractionRules(claimed, st, s, a, taken, false, text);
    if !StartsWith(text, FileReader.ErrorPrefix) && !AllSpace(text) {
      var chunks := Chunks(text);
      StoringRules(claimed, VectorStore.EmbedState(st, s, chunks, IndexName(kb.id), a.fault),
                   VectorStore.EmbedOutcome(s, chunks, a.fault), a, taken, false);
    }
  }

  /** The input that shows it: a row without slug whose freshly drawn slug another row already
      holds ends in `processing` with the error unrecorded, on the last retry as on any other. */
  lemma SlugClashLeavesProcessing(kb: KnowledgeBase, st: StoreState, s: Settings, text: string, a: Inputs, taken: set<string>)
    requires PassesGuard(kb, a.retries) && kb.widgetSlug == None && a.freshSlug in taken
    requires !StartsWith(text, FileReader.ErrorPrefix) && !AllSpace(text)
    requires a.fault == VectorStore.NoStoreFault && !(s.useGcs && s.bucketName == "")
    ensures var r := Ingest(kb, st, s, text, a, taken);
      && r.row == Claimed(kb) && r.row.status == Processing && r.row.errorMessage == Some("")
      && r.outcome == RetryOutcome(a.retries, a.clashMessage)
  {
    var claimed := Claimed(kb);
    ReachesStore(kb, st, s, text, a, taken, false);
    var chunks := Chunks(text);
    StoringRules(claimed, VectorStore.EmbedState(st, s, chunks, IndexName(kb.id), a.fault),
                 VectorStore.EmbedOutcome(s, chunks, a.fault), a, taken, false);
  }

  /** Corrected, every run that passes the guard leaves the row `failed` or `completed`, and it
      differs from the task as written only on a slug clash. */
  lemma CorrectedNeverLeftProcessing(kb: KnowledgeBase, st: StoreState, s: Settings, text: string, a: Inputs, taken: set<string>)
    requires PassesGuard(kb, a.retries)
    ensures var r := IngestCorrected(kb, st, s, text, a, taken);
      r.row.status == Failed || r.row.status == Completed
    ensures Ingest(kb, st, s, text, a, taken).row.status != Processing ==>
      IngestCorrected(kb, st, s, text, a, taken) == Ingest(kb, st, s, text, a, taken)
  {
    var claimed := Claimed(kb);
    ExtractionRules(claimed, st, s, a, taken, false, text);
    ExtractionRules(claimed, st, s, a, taken, true, text);
    if !StartsWith(text, FileReader.ErrorPrefix) && !AllSpace(text) {
      var chunks := Chunks(text);
      var st' := VectorStore.EmbedState(st, s, chunks, IndexName(kb.id), a.fault);
      var o := VectorStore.EmbedOutcome(s, chunks, a.fault);
      StoringRules(claimed, st', o, a, taken, false);
      StoringRules(claimed, st', o, a, taken, true);
    }
  }

  /** A failure after the claim is recorded: when the row ends `failed`, the error it shows is
      the extractor's message, the blank-text message, or `str(e)` of the exception. */
  lemma FailureIsRecorded(kb: KnowledgeBase, st: StoreState, s: Settings, text: string, a: Inputs, taken: set<string>)
    requires PassesGuard(kb, a.retries)
    requires Ingest(kb, st, s, text, a, taken).row.status == Failed
    ensures var r := Ingest(kb, st, s, text, a, taken);
      var o := VectorStore.EmbedOutcome(s, Chunks(text), a.fault);
      || (r.row.errorMessage == Some(text) && StartsWith(text, FileReader.ErrorPrefix) && r.outcome == Done)
      || (r.row.errorMessage == Some(EmptyTextMessage) && AllSpace(text) && r.outcome == Done)
      || (o.Raised? && r.row.errorMessage == Some(o.msg) && r.outcome == RetryOutcome(a.retries, o.msg))
  {
    var claimed := Claimed(kb);
    ExtractionRules(claimed, st, s, a, taken, false, text);
    if !StartsWith(text, FileReader.ErrorPrefix) && !AllSpace(text) {
      var chunks := Chunks(text);
      StoringRules(claimed, VectorStore.EmbedState(st, s, chunks, IndexName(kb.id), a.fault),
                   VectorStore.EmbedOutcome(s, chunks, a.fault), a, taken, false);
    }
  }

  /** A run leaves the slug as it was or writes one no other row holds. */
  lemma SlugWrittenOnlyWhenFree(kb: KnowledgeBase, st: StoreState, s: Settings, text: string, a: Inputs,
                                taken: set<string>, fixed: bool)
    ensures var r := RunTask(kb, st, s, text, a, taken, fixed);
      r.row.widgetSlug == kb.widgetSlug || (r.row.widgetSlug.Some? && r.row.widgetSlug.value !in taken)
  {
    if PassesGuard(kb, a.retries) {
      var claimed := Claimed(kb);
      ExtractionRules(claimed, st, s, a, taken, fixed, text);
      if !StartsWith(text, FileReader.ErrorPrefix) && !AllSpace(text) {
        var chunks := Chunks(text);
        StoringRules(claimed, VectorStore.EmbedState(st, s, chunks, IndexName(kb.id), a.fault),
                     VectorStore.EmbedOutcome(s, chunks, a.fault), a, taken, fixed);
      }
    }
  }

  /** The slug constraint survives every run, as written and corrected: with `taken` the slugs
      of the other rows, the table's slugs stay unique. */
  lemma IngestKeepsSlugsUnique(db: map<nat, KnowledgeBase>, id: nat, st: StoreState, s: Settings,
                                text: string, a: Inputs, fixed: bool)
    requires SlugsUnique(db) && id in db
    ensures SlugsUnique(db[id := RunTask(db[id], st, s, text, a, OtherSlugs(db, id), fixed).row])
  {
    SlugWrittenOnlyWhenFree(db[id], st, s, text, a, OtherSlugs(db, id), fixed);
    ReplacePreservesUniqueSlugs(db, id, RunTask(db[id], st, s, text, a, OtherSlugs(db, id), fixed).row);
  }
}

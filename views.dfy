/**
 * webapp/views.py: the synchronous `proceed_view` that embeds one knowledge base, the chat
 * endpoints `chat_api_view` (the widget's JSON API) and `chat_view` (the full chat page), and
 * `delete_kb_view`.  A redirect is not modelled; the flash message a request leaves is.  The
 * row `get_object_or_404` finds is passed in (`None` when it answers 404).
 */
module Views {
  import opened Wrappers
  import opened Strings
  import opened Models
  import opened Storage
  import FileReader
  import VectorStore
  import GenAi
  import Ingestion

  // ---------------------------------------------------------------- proceed_view

  /** The flash messages `proceed_view` leaves, by meaning; `Level` and `Text` give the level
      of the `messages` call and its wording. */
  datatype Notice =
    | AlreadyEmbedded
    | AlreadyProcessing
    | ExtractionFailed(text: string)
    | NoReadableText
    | EmbeddingFailed(error: string)
    | EmbeddedOk

  datatype MessageLevel = InfoLevel | ErrorLevel | WarningLevel | SuccessLevel

  function Level(n: Notice): MessageLevel {
    match n
    case AlreadyEmbedded | AlreadyProcessing => InfoLevel
    case ExtractionFailed(_) | EmbeddingFailed(_) => ErrorLevel
    case NoReadableText => WarningLevel
    case EmbeddedOk => SuccessLevel
  }

  const NoFileMessage: string := "Knowledge Base record has no associated file."
  const EmptyTextMessage: string := "The uploaded file has no readable text or is empty."
  const FailedPrefix: string := "Failed to embed knowledge base: "

  function Text(n: Notice): string {
    match n
    case AlreadyEmbedded => "Knowledge base is already embedded."
    case AlreadyProcessing => "Knowledge base is already being processed."
    case ExtractionFailed(text) => text
    case NoReadableText => EmptyTextMessage
    case EmbeddingFailed(error) => FailedPrefix + error
    case EmbeddedOk => "Knowledge base embedded successfully!"
  }

  /** What the view cannot see in the row or the store: what goes wrong while storing (if
      anything), the slug `str(uuid.uuid4())[:8]` draws, and `str(e)` of the `IntegrityError`
      a clashing slug raises. */
  datatype Inputs = Inputs(fault: VectorStore.StoreFault, freshSlug: FreshSlug, clashMessage: string)

  /** The row, the store and the flash message after a request. */
  datatype Outcome = Outcome(row: KnowledgeBase, store: StoreState, notice: Notice)

  /** The instance after the success updates at lines 200-202: the slug is replaced whatever
      it was. */
  function Embedded(kb: KnowledgeBase, drawn: FreshSlug): KnowledgeBase {
    kb.(widgetSlug := Some(drawn), isEmbedded := true, status := Completed)
  }

  /** The `except Exception as e` block: the row is marked failed with `str(e)`, whatever the
      in-memory status. */
  function Failure(claimed: KnowledgeBase, st: StoreState, msg: string): Outcome {
    Outcome(Ingestion.MarkedFailed(claimed, msg), st, EmbeddingFailed(msg))
  }

  /** `proceed_view(request, kb_id)` on the row `kb`, where `text` is what
      `extract_text_from_file(kb.file)` returns and `taken` the slugs other rows hold. */
  function Proceed(kb: KnowledgeBase, st: StoreState, s: Settings, text: string, a: Inputs,
                   taken: set<string>): Outcome
  {
    if kb.status == Completed then Outcome(kb, st, AlreadyEmbedded)
    else if kb.status == Processing then Outcome(kb, st, AlreadyProcessing)
    else ProceedClaimed(Ingestion.Claimed(kb), st, s, text, a, taken)
  }

  /** The view from the claim on. */
  function ProceedClaimed(claimed: KnowledgeBase, st: StoreState, s: Settings, text: string, a: Inputs,
                          taken: set<string>): Outcome
  {
    if claimed.fileName == "" then Failure(claimed, st, NoFileMessage)
    else if StartsWith(text, FileReader.ErrorPrefix) then
      Outcome(Ingestion.MarkedFailed(claimed, text), st, ExtractionFailed(text))
    else if Strip(text) == "" then
      Outcome(Ingestion.MarkedFailed(claimed, EmptyTextMessage), st, NoReadableText)
    else
      var chunks := Ingestion.Chunks(text);
      ProceedStored(claimed, VectorStore.EmbedState(st, s, chunks, IndexName(claimed.id), a.fault),
                    VectorStore.EmbedOutcome(s, chunks, a.fault), a, taken)
  }

  /** The view from `embed_and_store`'s outcome `o` on, with `st` the store it left. */
  function ProceedStored(claimed: KnowledgeBase, st: StoreState, o: VectorStore.StoreOutcome, a: Inputs,
                         taken: set<string>): Outcome
  {
    if o.Raised? then Failure(claimed, st, o.msg)
    else
      var done := Embedded(claimed, a.freshSlug);
      if SlugClash(done, Ingestion.SuccessColumns, taken) then Failure(claimed, st, a.clashMessage)
      else Outcome(done, st, EmbeddedOk)
  }

  /** `proceed_view` on the persisted `row`, whose file has the contents `body`, with the parser
      libraries `libs`. */
  method ProceedView(row: KnowledgeBaseRow, store: Store, s: Settings, body: FileReader.FileBody,
                     libs: FileReader.Libraries, a: Inputs, taken: set<string>) returns (notice: Notice)
    modifies row, store
    ensures var text := FileReader.Extract(FileReader.FieldFile(old(row.Value()).fileName, body), libs);
      var r := Proceed(old(row.Value()), old(store.State()), s, text, a, taken);
      row.Value() == r.row && store.State() == r.store && notice == r.notice
  {
    var kb := row.Value();
    if kb.status == Completed {
      return AlreadyEmbedded;
    } else if kb.status == Processing {
      return AlreadyProcessing;
    }
    kb := kb.(status := Processing, errorMessage := Some(""));
    var saved := row.Save(kb, Ingestion.StatusColumns, taken);
    if kb.fileName == "" {
      notice := OnException(row, kb, NoFileMessage, taken);
      return;
    }
    var text := FileReader.Extract(FileReader.FieldFile(kb.fileName, body), libs);
    notice := EmbedText(row, store, s, kb, text, a, taken);
  }

  /** The view from the extracted text on, with the row claimed as `kb`. */
  method EmbedText(row: KnowledgeBaseRow, store: Store, s: Settings, kb: KnowledgeBase, text: string,
                   a: Inputs, taken: set<string>) returns (notice: Notice)
    requires row.Value() == kb && kb.status == Processing && kb.fileName != ""
    modifies row, store
    ensures var r := ProceedClaimed(kb, old(store.State()), s, text, a, taken);
      row.Value() == r.row && store.State() == r.store && notice == r.notice
  {
    if StartsWith(text, FileReader.ErrorPrefix) {
      var failed := kb.(status := Failed, errorMessage := Some(text));
      var saved := row.Save(failed, Ingestion.StatusColumns, taken);
      return ExtractionFailed(text);
    }
    if Strip(text) == "" {
      var failed := kb.(status := Failed, errorMessage := Some(EmptyTextMessage));
      var saved := row.Save(failed, Ingestion.StatusColumns, taken);
      return NoReadableText;
    }
    var stored := VectorStore.EmbedAndStore(store, s, Ingestion.Chunks(text), IndexName(kb.id), a.fault);
    notice := FinishEmbedding(row, store, kb, stored, a, taken);
  }

  /** The view from `embed_and_store`'s outcome on: the success updates and their save, or the
      `except` block. */
  method FinishEmbedding(row: KnowledgeBaseRow, store: Store, kb: KnowledgeBase, stored: VectorStore.StoreOutcome,
                         a: Inputs, taken: set<string>) returns (notice: Notice)
    requires row.Value() == kb
    modifies row
    ensures var r := ProceedStored(kb, store.State(), stored, a, taken);
      row.Value() == r.row && store.State() == r.store && notice == r.notice
  {
    if stored.Raised? {
      notice := OnException(row, kb, stored.msg, taken);
      return;
    }
    var done := kb.(widgetSlug := Some(a.freshSlug), isEmbedded := true, status := Completed);
    var saved := row.Save(done, Ingestion.SuccessColumns, taken);
    if !saved {
      notice := OnException(row, done, a.clashMessage, taken);
      return;
    }
    notice := EmbeddedOk;
  }

  /** The `except` block of `proceed_view`. */
  method OnException(row: KnowledgeBaseRow, kb: KnowledgeBase, msg: string, taken: set<string>)
    returns (notice: Notice)
    modifies row
    ensures row.Value() == Persist(old(row.Value()), Ingestion.MarkedFailed(kb, msg), Ingestion.StatusColumns)
    ensures notice == EmbeddingFailed(msg)
  {
    var failed := kb.(status := Failed, errorMessage := Some(msg));
    var saved := row.Save(failed, Ingestion.StatusColumns, taken);
    notice := EmbeddingFailed(msg);
  }

  // ---------------------------------------------------------------- proceed_view: properties

  /** After `embed_and_store`: the row of a claimed knowledge base ends `failed` with `str(e)`
      when storing raised or the slug clashed, and otherwise `completed` with the drawn slug. */
  lemma StoredRules(claimed: KnowledgeBase, st: StoreState, o: VectorStore.StoreOutcome, a: Inputs, taken: set<string>)
    ensures var r := ProceedStored(claimed, st, o, a, taken);
      && r.store == st && !r.notice.AlreadyEmbedded? && !r.notice.AlreadyProcessing?
      && (o.Raised? ==> r == Failure(claimed, st, o.msg))
      && (!o.Raised? && a.freshSlug in taken ==> r == Failure(claimed, st, a.clashMessage))
      && (!o.Raised? && a.freshSlug !in taken ==> r == Outcome(Embedded(claimed, a.freshSlug), st, EmbeddedOk))
  {
  }

  /** The branches after the claim: a missing file, an error text and a blank text each fail
      the row without storing; otherwise the text is stored and the view goes on from the
      store's outcome. */
  lemma ClaimedSteps(claimed: KnowledgeBase, st: StoreState, s: Settings, text: string, a: Inputs, taken: set<string>)
    ensures var r, chunks := ProceedClaimed(claimed, st, s, text, a, taken), Ingestion.Chunks(text);
      && (claimed.fileName == "" ==> r == Failure(claimed, st, NoFileMessage))
      && (claimed.fileName != "" && StartsWith(text, FileReader.ErrorPrefix) ==>
            r == Outcome(Ingestion.MarkedFailed(claimed, text), st, ExtractionFailed(text)))
      && (claimed.fileName != "" && !StartsWith(text, FileReader.ErrorPrefix) && AllSpace(text) ==>
            r == Outcome(Ingestion.MarkedFailed(claimed, EmptyTextMessage), st, NoReadableText))
      && (claimed.fileName != "" && !StartsWith(text, FileReader.ErrorPrefix) && !AllSpace(text) ==>
            r == ProceedStored(claimed, VectorStore.EmbedState(st, s, chunks, IndexName(claimed.id), a.fault),
                               VectorStore.EmbedOutcome(s, chunks, a.fault), a, taken))
  {
    StripEmptyIffAllSpace(text);
  }

  /** After the claim: the row ends `failed` or `completed`, and `completed` only when the file
      is there, its text is neither an error nor blank, and storing it went through. */
  lemma ClaimedRules(claimed: KnowledgeBase, st: StoreState, s: Settings, text: string, a: Inputs, taken: set<string>)
    requires claimed.status == Processing
    ensures var r := ProceedClaimed(claimed, st, s, text, a, taken);
      var chunks := Ingestion.Chunks(text);
      && (r.row.status == Failed || r.row.status == Completed)
      && (r.row.status == Completed <==> r.notice == EmbeddedOk)
      && !r.notice.AlreadyEmbedded? && !r.notice.AlreadyProcessing?
      && (r.row.status == Completed ==>
            && claimed.fileName != "" && !StartsWith(text, FileReader.ErrorPrefix) && !AllSpace(text)
            && VectorStore.EmbedOutcome(s, chunks, a.fault) == VectorStore.Persisted
            && r == Outcome(Embedded(claimed, a.freshSlug),
                            VectorStore.EmbedState(st, s, chunks, IndexName(claimed.id), a.fault), EmbeddedOk))
  {
    StripEmptyIffAllSpace(text);
    Ingestion.OneChunkIsStoredOrRaises(s, text, a.fault);
    if claimed.fileName != "" && !StartsWith(text, FileReader.ErrorPrefix) && Strip(text) != "" {
      var chunks := Ingestion.Chunks(text);
      StoredRules(claimed, VectorStore.EmbedState(st, s, chunks, IndexName(claimed.id), a.fault),
                  VectorStore.EmbedOutcome(s, chunks, a.fault), a, taken);
    }
  }

  /** A knowledge base that is `completed` (embedded or not) or `processing` is left alone with
      an info message; every other one is claimed and gets no info message. */
  lemma ProceedGuard(kb: KnowledgeBase, st: StoreState, s: Settings, text: string, a: Inputs, taken: set<string>)
    ensures kb.status == Completed ==> Proceed(kb, st, s, text, a, taken) == Outcome(kb, st, AlreadyEmbedded)
    ensures kb.status == Processing ==> Proceed(kb, st, s, text, a, taken) == Outcome(kb, st, AlreadyProcessing)
    ensures Level(Proceed(kb, st, s, text, a, taken).notice) == InfoLevel <==>
      kb.status == Completed || kb.status == Processing
  {
    if kb.status != Completed && kb.status != Processing {
      ClaimedRules(Ingestion.Claimed(kb), st, s, text, a, taken);
    }
  }

  /** The view's guard and the task's differ: a `completed` row that is not embedded is skipped
      by the view but embedded again by the task, and a `processing` row is skipped by the view
      but taken up by a retry of the task. */
  lemma GuardsDiffer(kb: KnowledgeBase, retries: nat)
    ensures kb.status == Completed && !kb.isEmbedded ==> Ingestion.PassesGuard(kb, retries)
    ensures kb.status == Processing && retries > 0 ==> Ingestion.PassesGuard(kb, retries)
    ensures Ingestion.PassesGuard(kb, retries) && kb.status != Completed && kb.status != Processing ==>
      kb.status == Uploaded || kb.status == Failed
  {
  }

  /** Every request that passes the guard leaves the row `failed` or `completed`, never
      `processing`, and `completed` exactly when it flashes the success message. */
  lemma ProceedNeverLeftProcessing(kb: KnowledgeBase, st: StoreState, s: Settings, text: string, a: Inputs,
                                   taken: set<string>)
    requires kb.status == Uploaded || kb.status == Failed
    ensures var r := Proceed(kb, st, s, text, a, taken);
      && (r.row.status == Failed || r.row.status == Completed)
      && (r.row.status == Completed <==> r.notice == EmbeddedOk)
  {
    ClaimedRules(Ingestion.Claimed(kb), st, s, text, a, taken);
  }

  /** The failure paths: a missing file, an extraction error, blank text and an exception from
      storing each fail the row with their message and flash it. */
  lemma ProceedFailures(kb: KnowledgeBase, st: StoreState, s: Settings, text: string, a: Inputs,
                        taken: set<string>)
    requires kb.status == Uploaded || kb.status == Failed
    ensures var r, claimed := Proceed(kb, st, s, text, a, taken), Ingestion.Claimed(kb);
      var o := VectorStore.EmbedOutcome(s, Ingestion.Chunks(text), a.fault);
      && (kb.fileName == "" ==> r == Outcome(Ingestion.MarkedFailed(claimed, NoFileMessage), st, EmbeddingFailed(NoFileMessage)))
      && (kb.fileName != "" && StartsWith(text, FileReader.ErrorPrefix) ==>
            r == Outcome(Ingestion.MarkedFailed(claimed, text), st, ExtractionFailed(text)))
      && (kb.fileName != "" && !StartsWith(text, FileReader.ErrorPrefix) && AllSpace(text) ==>
            r == Outcome(Ingestion.MarkedFailed(claimed, EmptyTextMessage), st, NoReadableText))
      && (kb.fileName != "" && !StartsWith(text, FileReader.ErrorPrefix) && !AllSpace(text) && o.Raised? ==>
            r.row == Ingestion.MarkedFailed(claimed, o.msg) && r.notice == EmbeddingFailed(o.msg))
  {
    var claimed := Ingestion.Claimed(kb);
    ClaimedSteps(claimed, st, s, text, a, taken);
    if kb.fileName != "" && !StartsWith(text, FileReader.ErrorPrefix) && !AllSpace(text) {
      var chunks := Ingestion.Chunks(text);
      StoredRules(claimed, VectorStore.EmbedState(st, s, chunks, IndexName(claimed.id), a.fault),
                  VectorStore.EmbedOutcome(s, chunks, a.fault), a, taken);
    }
  }

  /** A request that embeds the row stored the text as the one chunk of `kb_<id>`, cleared the
      error and replaced the slug with the drawn one. */
  lemma ProceedSuccess(kb: KnowledgeBase, st: StoreState, s: Settings, text: string, a: Inputs,
                       taken: set<string>)
    requires kb.status == Uploaded || kb.status == Failed
    requires Proceed(kb, st, s, text, a, taken).row.status == Completed
    ensures var r, name := Proceed(kb, st, s, text, a, taken), IndexName(kb.id);
      && kb.fileName != "" && !StartsWith(text, FileReader.ErrorPrefix) && !AllSpace(text)
      && r.row == kb.(isEmbedded := true, status := Completed, errorMessage := Some(""),
                      widgetSlug := Some(a.freshSlug))
      && r.store == VectorStore.EmbedState(st, s, Ingestion.Chunks(text), name, a.fault)
      && r.store.files == st.files[VectorStore.FaissKey(s, name) := FaissIndex(1)]
                                 [VectorStore.PickleKey(s, name) := ChunkPickle([text])]
      && r.notice == EmbeddedOk
  {
    ClaimedRules(Ingestion.Claimed(kb), st, s, text, a, taken);
    VectorStore.EmbedPersistsChunks(st, s, [VectorStore.PyStr(text)], IndexName(kb.id), a.fault);
    assert VectorStore.Texts([VectorStore.PyStr(text)]) == [text];
  }

  /** The view keeps the table's slugs unique: with `taken` the slugs of the other rows. */
  lemma ProceedKeepsSlugsUnique(db: map<nat, KnowledgeBase>, id: nat, st: StoreState, s: Settings,
                                text: string, a: Inputs)
    requires SlugsUnique(db) && id in db
    ensures SlugsUnique(db[id := Proceed(db[id], st, s, text, a, OtherSlugs(db, id)).row])
  {
    var kb := db[id];
    var r := Proceed(kb, st, s, text, a, OtherSlugs(db, id));
    if kb.status != Completed && kb.status != Processing {
      ClaimedRules(Ingestion.Claimed(kb), st, s, text, a, OtherSlugs(db, id));
    }
    ReplacePreservesUniqueSlugs(db, id, r.row);
  }

  // ---------------------------------------------------------------- chat_api_view and chat_view

  const EmptyMessageReply: string := "Please type a message."
  const NoContextText: string := "No relevant information found."

  /** `top_k=3` in `chat_api_view`; `chat_view` uses `search_similar_chunks`' default of 1. */
  const ApiTopK: nat := 3
  const PageTopK: nat := 1

  /** `"\n".join(results) if results else "No relevant information found."`. */
  function BuildContext(results: seq<string>): string {
    if results == [] then NoContextText else Join("\n", results)
  }

  /** The context is the fallback for no results, and otherwise the results joined in ranked
      order: splitting it on newlines gives them back when no result holds a newline. */
  lemma ContextRule(results: seq<string>)
    ensures results == [] ==> BuildContext(results) == NoContextText
    ensures results != [] ==> BuildContext(results) == Join("\n", results)
    ensures results != [] && (forall k :: 0 <= k < |results| ==> '\n' !in results[k]) ==>
      Split(BuildContext(results), '\n') == results
  {
    if results != [] && (forall k :: 0 <= k < |results| ==> '\n' !in results[k]) {
      SplitJoin(results, '\n');
    }
  }

  /** What the widget's API answers: `{'response': text}`, the 404 `Chatbot not found.`, or the
      500 `An internal error occurred. Please try again.` of the generic handler. */
  datatype ChatReply = Reply(text: string) | ChatbotNotFound | InternalError

  /** The keyword the views pass to the generator besides context and question. */
  const ChatHistoryKeyword: set<string> := {"chat_history"}

  /** `chat_api_view` as written: the lookup raises `Http404`, which the `DoesNotExist` handler
      does not catch, and the call with `chat_history=None` raises `TypeError`; the generic
      handler turns both, like an exception from the search, into the internal-error reply. */
  function ChatApiAsWritten(message: string, kb: Option<KnowledgeBase>, st: StoreState, s: Settings,
                            ranking: seq<int>, fault: VectorStore.ReadFault,
                            respond: string -> GenAi.Generation): ChatReply
  {
    var question := Strip(message);
    if question == "" then Reply(EmptyMessageReply)
    else if kb.None? then InternalError
    else
      var results := VectorStore.Search(st, s, IndexName(kb.value.id), ApiTopK, ranking, fault);
      if results.Err? then InternalError
      else
        match GenAi.Call(BuildContext(results.value), question, ChatHistoryKeyword, respond)
        case Returned(answer) => Reply(answer)
        case TypeErrorRaised => InternalError
  }

  /** The input that shows it: as written, the API answers only blank messages; every other
      message gets the internal error, for a known widget as for an unknown one. */
  lemma AsWrittenApiNeverAnswers(message: string, kb: Option<KnowledgeBase>, st: StoreState, s: Settings,
                                 ranking: seq<int>, fault: VectorStore.ReadFault,
                                 respond: string -> GenAi.Generation)
    ensures ChatApiAsWritten(message, kb, st, s, ranking, fault, respond)
      == if AllSpace(message) then Reply(EmptyMessageReply) else InternalError
  {
    StripEmptyIffAllSpace(message);
  }

  /** `chat_api_view` on a POST whose JSON carries `message`, with `kb` the row the widget slug
      names and `ranking` FAISS's neighbour order for the query; an exception from the search
      reaches the generic handler. */
  function ChatApi(message: string, kb: Option<KnowledgeBase>, st: StoreState, s: Settings,
                   ranking: seq<int>, fault: VectorStore.ReadFault, respond: string -> GenAi.Generation): ChatReply
  {
    var question := Strip(message);
    if question == "" then Reply(EmptyMessageReply)
    else if kb.None? then ChatbotNotFound
    else
      var results := VectorStore.Search(st, s, IndexName(kb.value.id), ApiTopK, ranking, fault);
      if results.Err? then InternalError
      else Reply(GenAi.GenerateResponse(BuildContext(results.value), question, respond))
  }

  /** A blank message is answered before the row is looked up or the store searched: the reply
      is the same whatever the row, the store and the model. */
  lemma BlankMessageAnsweredFirst(message: string, kb1: Option<KnowledgeBase>, kb2: Option<KnowledgeBase>,
                                  st1: StoreState, st2: StoreState, s: Settings, ranking: seq<int>,
                                  fault: VectorStore.ReadFault, respond1: string -> GenAi.Generation,
                                  respond2: string -> GenAi.Generation)
    requires AllSpace(message)
    ensures ChatApi(message, kb1, st1, s, ranking, fault, respond1) == Reply(EmptyMessageReply)
    ensures ChatApi(message, kb1, st1, s, ranking, fault, respond1) == ChatApi(message, kb2, st2, s, ranking, fault, respond2)
  {
    StripEmptyIffAllSpace(message);
  }

  /** A question for a known widget gets the internal error exactly when the search raises.
      Otherwise it asks the model with the stripped question and the search results for `kb_<id>`
      joined by newlines; the fallback context is never used, because a search that returns never
      comes back empty; and at most three chunks are used. */
  lemma ChatApiContext(message: string, kb: KnowledgeBase, st: StoreState, s: Settings, ranking: seq<int>,
                       fault: VectorStore.ReadFault, respond: string -> GenAi.Generation)
    requires !AllSpace(message)
    ensures var results := VectorStore.Search(st, s, IndexName(kb.id), ApiTopK, ranking, fault);
      var reply := ChatApi(message, Some(kb), st, s, ranking, fault, respond);
      && (results.Err? <==> VectorStore.Raises(st, s, IndexName(kb.id), fault))
      && (results.Err? ==> reply == InternalError)
      && (results.Ok? ==>
            && 1 <= |results.value| <= ApiTopK
            && reply == Reply(GenAi.GenerateResponse(Join("\n", results.value), Strip(message), respond)))
  {
    StripEmptyIffAllSpace(message);
    var name := IndexName(kb.id);
    VectorStore.SearchNeverEmpty(st, s, name, ApiTopK, ranking, fault);
    if VectorStore.Loadable(st, s, name, fault) && !VectorStore.Raises(st, s, name, fault) {
      VectorStore.SearchReturnsStoredChunks(st, s, name, ApiTopK, ranking, fault);
    }
  }

  /** A non-blank message for an unknown widget gets the 404 `Chatbot not found.`: the API as
      intended answers with the internal error only when the search for a known widget raises. */
  lemma UnknownWidgetNotFound(message: string, kb: Option<KnowledgeBase>, st: StoreState, s: Settings,
                              ranking: seq<int>, fault: VectorStore.ReadFault, respond: string -> GenAi.Generation)
    requires !AllSpace(message)
    ensures kb.None? <==> ChatApi(message, kb, st, s, ranking, fault, respond) == ChatbotNotFound
    ensures ChatApi(message, kb, st, s, ranking, fault, respond) == InternalError <==>
      kb.Some? && VectorStore.Raises(st, s, IndexName(kb.value.id), fault)
  {
    StripEmptyIffAllSpace(message);
    if kb.Some? {
      VectorStore.SearchNeverEmpty(st, s, IndexName(kb.value.id), ApiTopK, ranking, fault);
    }
  }

  /** The chat page: 404 for an unknown slug, the page with its (per request) history, or the
      server error of an exception nothing catches. */
  datatype ChatPage = PageNotFound | Page(kb: KnowledgeBase, history: seq<(string, string)>) | ServerError

  /** `chat_view`: `post` is the POSTed `message`, or `None` for a GET. */
  function ChatView(kb: Option<KnowledgeBase>, post: Option<string>, st: StoreState, s: Settings,
                    ranking: seq<int>, fault: VectorStore.ReadFault, respond: string -> GenAi.Generation): ChatPage
  {
    if kb.None? then PageNotFound
    else if post.None? then Page(kb.value, [])
    else
      var query := Strip(post.value);
      if query == "" then Page(kb.value, [("You", query), ("Bot", EmptyMessageReply)])
      else
        var chunks := VectorStore.Search(st, s, IndexName(kb.value.id), PageTopK, ranking, fault);
        if chunks.Err? then ServerError
        else Page(kb.value, [("You", query), ("Bot", GenAi.GenerateResponse(BuildContext(chunks.value), query, respond))])
  }

  /** `chat_view` as written: the call with `chat_history=None` raises `TypeError` outside any
      `try`, so the request ends in a server error, as it does when the search raises. */
  function ChatViewAsWritten(kb: Option<KnowledgeBase>, post: Option<string>, st: StoreState, s: Settings,
                             ranking: seq<int>, fault: VectorStore.ReadFault,
                             respond: string -> GenAi.Generation): ChatPage
  {
    if kb.None? then PageNotFound
    else if post.None? then Page(kb.value, [])
    else
      var query := Strip(post.value);
      if query == "" then Page(kb.value, [("You", query), ("Bot", EmptyMessageReply)])
      else
        var chunks := VectorStore.Search(st, s, IndexName(kb.value.id), PageTopK, ranking, fault);
        if chunks.Err? then ServerError
        else
          match GenAi.Call(BuildContext(chunks.value), query, ChatHistoryKeyword, respond)
          case Returned(answer) => Page(kb.value, [("You", query), ("Bot", answer)])
          case TypeErrorRaised => ServerError
  }

  /** The input that shows it: as written, every non-blank message to a known widget's page
      ends in a server error; the page agrees with the intended one everywhere else. */
  lemma AsWrittenPageFailsOnQuestions(kb: Option<KnowledgeBase>, post: Option<string>, st: StoreState,
                                      s: Settings, ranking: seq<int>, fault: VectorStore.ReadFault,
                                      respond: string -> GenAi.Generation)
    ensures var p := ChatViewAsWritten(kb, post, st, s, ranking, fault, respond);
      && (p == ServerError <==> kb.Some? && post.Some? && !AllSpace(post.value))
      && (p != ServerError ==> p == ChatView(kb, post, st, s, ranking, fault, respond))
  {
    if post.Some? {
      StripEmptyIffAllSpace(post.value);
    }
  }

  /** The page looks the row up first: an unknown slug is a 404 even for a blank message.  A GET
      shows an empty history.  A POST ends in a server error exactly when the search for a
      non-blank message raises; otherwise it shows the stripped message and the reply, which is
      the fixed prompt for a blank message. */
  lemma ChatViewRules(kb: Option<KnowledgeBase>, post: Option<string>, st: StoreState, s: Settings,
                      ranking: seq<int>, fault: VectorStore.ReadFault, respond: string -> GenAi.Generation)
    ensures var p := ChatView(kb, post, st, s, ranking, fault, respond);
      && (kb.None? <==> p == PageNotFound)
      && (kb.Some? && post.None? ==> p == Page(kb.value, []))
      && (p == ServerError <==>
            kb.Some? && post.Some? && !AllSpace(post.value)
            && VectorStore.Raises(st, s, IndexName(kb.value.id), fault))
      && (kb.Some? && post.Some? && p != ServerError ==>
            && p.Page? && |p.history| == 2
            && p.history[0] == ("You", Strip(post.value))
            && p.history[1].0 == "Bot"
            && (AllSpace(post.value) ==> p.history[1].1 == EmptyMessageReply))
  {
    if post.Some? {
      StripEmptyIffAllSpace(post.value);
    }
    if kb.Some? {
      VectorStore.SearchNeverEmpty(st, s, IndexName(kb.value.id), PageTopK, ranking, fault);
    }
  }

  /** With the default `top_k=1` the page's context is exactly one string: one stored chunk or
      one sentinel; a search that raises ends the request in a server error. */
  lemma ChatViewUsesOneChunk(kb: KnowledgeBase, message: string, st: StoreState, s: Settings,
                             ranking: seq<int>, fault: VectorStore.ReadFault, respond: string -> GenAi.Generation)
    requires !AllSpace(message)
    ensures var chunks := VectorStore.Search(st, s, IndexName(kb.id), PageTopK, ranking, fault);
      var p := ChatView(Some(kb), Some(message), st, s, ranking, fault, respond);
      && (chunks.Err? ==> p == ServerError)
      && (chunks.Ok? ==>
            && |chunks.value| == 1
            && p == Page(kb, [("You", Strip(message)), ("Bot", GenAi.GenerateResponse(chunks.value[0], Strip(message), respond))]))
  {
    StripEmptyIffAllSpace(message);
    var name := IndexName(kb.id);
    VectorStore.SearchNeverEmpty(st, s, name, PageTopK, ranking, fault);
    if VectorStore.Loadable(st, s, name, fault) && !VectorStore.Raises(st, s, name, fault) {
      VectorStore.SearchReturnsStoredChunks(st, s, name, PageTopK, ranking, fault);
    }
  }

  // ---------------------------------------------------------------- delete_kb_view

  /** `f"Knowledge Base '{kb.title}' and associated data deleted successfully."` */
  function DeletedMessage(title: string): string {
    "Knowledge Base '" + title + "' and associated data deleted successfully."
  }

  /** What `delete_kb_view` answers: the 404 when the user owns no row `id`, or the success
      message it flashes. */
  datatype DeleteReply = KbNotFound | KbDeleted(message: string)

  /** `delete_kb_view(request, kb_id)` by the user `user`: the stored file is deleted when the
      row has one and it exists in `media` (the names the media storage holds), then the two
      artifacts of `kb_<id>` (except those in `failing`, whose removal fails), then the row. */
  method DeleteKbView(store: Store, s: Settings, db: map<nat, KnowledgeBase>, id: nat, user: nat,
                      media: set<string>, failing: set<string>)
    returns (reply: DeleteReply, db': map<nat, KnowledgeBase>, media': set<string>)
    modifies store
    ensures !(id in db && db[id].owner == user) ==>
      reply == KbNotFound && db' == db && media' == media && store.State() == old(store.State())
    ensures id in db && db[id].owner == user ==>
      && reply == KbDeleted(DeletedMessage(db[id].title))
      && db' == db - {id}
      && media' == (if db[id].fileName == "" then media else media - {db[id].fileName})
      && store.State() == VectorStore.DeleteState(old(store.State()), s, IndexName(db[id].id), failing)
  {
    if !(id in db && db[id].owner == user) {
      return KbNotFound, db, media;
    }
    var kb := db[id];
    media' := media;
    if kb.fileName != "" && kb.fileName in media {
      media' := media - {kb.fileName};
    }
    VectorStore.Delete(store, s, IndexName(kb.id), failing);
    db' := db - {id};
    reply := KbDeleted(DeletedMessage(kb.title));
  }

  /** One index name for the whole life of a knowledge base: once `text` is stored as the one
      chunk of `kb_<id>` (as `proceed_view` and the task do on success), a question to the
      widget is answered from exactly that text when FAISS ranks the one stored vector first. */
  lemma ChatAfterEmbedding(kb: KnowledgeBase, st: StoreState, s: Settings, text: string, message: string,
                           ranking: seq<int>, respond: string -> GenAi.Generation)
    requires !(s.useGcs && s.bucketName == "") && |ranking| >= 1 && ranking[0] == 0
    requires !AllSpace(message)
    ensures var st' := VectorStore.EmbedState(st, s, Ingestion.Chunks(text), IndexName(kb.id), VectorStore.NoStoreFault);
      ChatApi(message, Some(kb), st', s, ranking, VectorStore.NoReadFault, respond)
        == Reply(GenAi.GenerateResponse(text, Strip(message), respond))
  {
    StripEmptyIffAllSpace(message);
    var name := IndexName(kb.id);
    var st' := VectorStore.EmbedState(st, s, Ingestion.Chunks(text), name, VectorStore.NoStoreFault);
    VectorStore.StoreOneThenSearch(st, s, text, name, ApiTopK, ranking);
    assert VectorStore.Search(st', s, name, ApiTopK, ranking, VectorStore.NoReadFault) == Ok([text]);
    assert BuildContext([text]) == text;
  }

  /** After `delete_kb_view` removed `kb_<id>`, a question to the same knowledge base is
      answered from the not-found sentinel of the backend. */
  lemma ChatAfterDelete(kb: KnowledgeBase, st: StoreState, s: Settings, message: string, ranking: seq<int>,
                        fault: VectorStore.ReadFault, respond: string -> GenAi.Generation)
    requires !AllSpace(message)
    ensures var sentinel := if !s.useGcs then VectorStore.LocalNotFoundSentinel
                            else if s.bucketName == "" then VectorStore.NoBucketSentinel
                            else VectorStore.GcsNotFoundSentinel;
      ChatApi(message, Some(kb), VectorStore.DeleteState(st, s, IndexName(kb.id), {}), s, ranking, fault, respond)
        == Reply(GenAi.GenerateResponse(sentinel, Strip(message), respond))
  {
    StripEmptyIffAllSpace(message);
    VectorStore.DeleteThenSearch(st, s, IndexName(kb.id), ApiTopK, ranking, fault);
  }
}

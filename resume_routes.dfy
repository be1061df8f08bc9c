/** The `/resume` routes: the upload endpoint with its extension gate and clean-up, the RAG
    question endpoint `/resume/ask`, and the retrieval probe `/resume/ask2`. */
module ResumeRoutes {
  import opened Wrappers
  import opened Strings
  import opened Exceptions
  import opened OsPath
  import opened DocumentProcessing
  import opened ResumeRepository
  import opened Effects
  import opened ResumeService
  import opened RagService

  /** `get_current_user(db, token)`: the id of the user the token names, or the exception raised. */
  type UserLookup = string -> Result<int, Exc>

  const UploadGateDetail: string := "Unsupported file type. Only PDF, DOCX, and HTML files are allowed."
  const UploadedPrefix: string := "Resume uploaded successfully, file name: "

  /** The number of chunks both question routes ask the store for. */
  const RouteK: nat := 3

  /** What `similarity_search` on a `None` store raises. */
  const NoneSearchError: Exc := OtherError("'NoneType' object has no attribute 'similarity_search'")

  // ---------------------------------------------------------------------------------------------
  // POST /resume/upload

  /** The upload gate: a file name is accepted exactly when its lower-cased extension is whitelisted. */
  function UploadGate(filename: string): (r: Result<(), Exc>)
    ensures r.Success? <==> Lower(Extension(filename)) in [".pdf", ".docx", ".html"]
    ensures r.Failure? ==> r.error == HttpError(400, UploadGateDetail)
  {
    if ExtensionAllowed(filename) then Success(()) else Failure(HttpError(400, UploadGateDetail))
  }

  /** A name made of a dot and letters, such as ".pdf", has no extension and is turned away. */
  lemma LeadingDotNameRejected(filename: string)
    requires |filename| > 0 && filename[0] == '.'
    requires forall i :: 0 < i < |filename| ==> filename[i] != '.' && filename[i] != '/'
    ensures UploadGate(filename) == Failure(HttpError(400, UploadGateDetail))
  {
    NoExtensionForLeadingDotName(filename);
  }

  /** A path ending in `.ext`, where `ext` has no dot, is loadable exactly when `.ext` is one of the
      three whitelisted extensions written in lower case. */
  lemma LoaderVerdictForDotted(x: string, ext: string)
    requires '.' !in ext
    ensures SelectLoader(x + "." + ext).Success? <==> "." + ext in AllowedExtensions
  {
    assert ".pdf" == "." + "pdf" && ".docx" == "." + "docx" && ".html" == "." + "html";
    EndsWithMarkedSuffix(x, '.', ext, "pdf");
    EndsWithMarkedSuffix(x, '.', ext, "docx");
    EndsWithMarkedSuffix(x, '.', ext, "html");
  }

  /** For an upload named `stem.ext`, the gate looks at the lower-cased `.ext`, while the loader of
      the saved file looks at `.ext` exactly as written. */
  lemma DottedUploadVerdicts(userId: int, uuid: string, stem: string, ext: string)
    requires IsUuidText(uuid)
    requires stem != [] && '.' !in stem && '/' !in stem
    requires '.' !in ext && '/' !in ext
    ensures UploadGate(stem + "." + ext).Success? <==> Lower("." + ext) in AllowedExtensions
    ensures SelectLoader(SavedPath(userId, uuid, stem + "." + ext)).Success? <==> "." + ext in AllowedExtensions
  {
    ExtensionOfDottedName(stem, ext);
    var p := SavedPath(userId, uuid, stem + "." + ext);
    SavedPathShape(userId, uuid, stem + "." + ext);
    assert EndsWith(stem + "." + ext, "." + ext);
    EndsWithTransitive(p, stem + "." + ext, "." + ext);
    CutBeforeSuffix(p, '.', ext);
    LoaderVerdictForDotted(p[..|p| - |ext| - 1], ext);
  }

  /** An upload whose extension is whitelisted only once lower-cased, such as "CV.PDF", passes the
      case-insensitive gate, but the case-sensitive loader dispatch refuses the file it was saved as. */
  lemma CaseMismatchNeverLoads(userId: int, uuid: string, stem: string, ext: string, load: Loader)
    requires IsUuidText(uuid)
    requires stem != [] && '.' !in stem && '/' !in stem
    requires '.' !in ext && '/' !in ext
    requires Lower("." + ext) in AllowedExtensions && "." + ext !in AllowedExtensions
    ensures UploadGate(stem + "." + ext).Success?
    ensures LoadDocument(SavedPath(userId, uuid, stem + "." + ext), load) ==
      Failure(ValueError("Unsupported file type: " + SavedPath(userId, uuid, stem + "." + ext)))
  {
    DottedUploadVerdicts(userId, uuid, stem, ext);
  }

  /** An upload named "CV.PDF" passes the route's gate, and the loader then refuses the saved file. */
  lemma UpperCaseCvPdfNeverLoads(userId: int, uuid: string, load: Loader)
    requires IsUuidText(uuid)
    ensures UploadGate("CV.PDF").Success?
    ensures LoadDocument(SavedPath(userId, uuid, "CV.PDF"), load) ==
      Failure(ValueError("Unsupported file type: " + SavedPath(userId, uuid, "CV.PDF")))
  {
    assert "." + "PDF" == ".PDF";
    assert Lower(".PDF") == ".pdf";
    assert "CV" + "." + "PDF" == "CV.PDF";
    CaseMismatchNeverLoads(userId, uuid, "CV", "PDF", load);
  }

  /** Overwriting a file and then removing it leaves the same files as removing it at once. */
  lemma WriteThenRemove(files: map<string, seq<bv8>>, p: string, data: seq<bv8>)
    ensures files[p := data] - {p} == files - {p}
  {
  }

  /** The body of `upload_resume` once the user is known: save the file, process it, and in a
      `finally` remove the saved file again. When `open` finds no parent directory (a name with a
      slash whose directory is absent), `save_file` raises before the `try`: nothing is processed
      and nothing needs removing. */
  method SaveAndIngest(disk: Disk, repo: ResumeTable, stores: VectorStores, userId: int, filename: string,
                       content: seq<bv8>, uuid: string, uploadedAt: string, utcNow: string,
                       load: Loader, split: Splitter, write: StoreWriter, check: CollectionCheck)
    returns (r: Result<(), Exc>)
    requires IsUuidText(uuid) && repo.Valid() && ExtensionAllowed(filename)
    modifies disk, repo, stores
    ensures repo.Valid()
    ensures disk.dirs == old(disk.dirs) + DirsOf(UserFolder(userId))
    ensures '/' !in filename ==>
      SaveFindsParent(old(disk.dirs), userId, uuid, filename) &&
      Basename(SavedPath(userId, uuid, filename)) == uuid + "_" + filename
    ensures !SaveFindsParent(old(disk.dirs), userId, uuid, filename) ==>
      && r == Failure(OtherError("No such file or directory: " + SavedPath(userId, uuid, filename)))
      && disk.files == old(disk.files) && unchanged(repo) && unchanged(stores)
    ensures SaveFindsParent(old(disk.dirs), userId, uuid, filename) ==>
      var path := SavedPath(userId, uuid, filename);
      var loaded := LoadDocument(path, load);
      var outcome := ProcessOutcome(path, userId, uploadedAt, load, split, write, check);
      && disk.files == old(disk.files) - {path}
      && (r.Success? <==> outcome.Success?)
      && (r.Failure? ==> r.error == outcome.error)
      && (loaded.Failure? || loaded == Success([]) ==> unchanged(repo) && unchanged(stores))
      && (loaded.Success? && loaded.value != [] ==>
            var chunks := IngestedChunks(IngestedDocs(loaded.value, userId, path, uploadedAt), split);
            && repo.rows == old(repo.rows)[old(repo.nextId) := Resume(old(repo.nextId), userId, Basename(path), utcNow)]
            && repo.nextId == old(repo.nextId) + 1
            && (chunks == [] ==> unchanged(stores))
            && (chunks != [] ==> stores.writes == old(stores.writes) + [StoreWrite(StoreName(userId), chunks)]))
  {
    if '/' !in filename {
      SaveTargetsUserFolder(disk.dirs, userId, uuid, filename);
      SavedPathShape(userId, uuid, filename);
    }
    WriteThenRemove(disk.files, SavedPath(userId, uuid, filename), content);
    var saved := SaveFile(disk, userId, filename, content, uuid);
    if saved.Failure? {
      return Failure(saved.error);
    }
    var path := saved.value;
    var processed := ProcessResume(repo, stores, path, userId, uploadedAt, utcNow, load, split, write, check);
    disk.RemoveIfExists(path);
    if processed.Failure? {
      return Failure(processed.error);
    }
    r := Success(());
  }

  /** `upload_resume`: gate the extension, resolve the user, then save, process and clean up. The
      route answers with the original file name whether or not processing stored anything; an
      exception from saving or processing propagates (after the clean-up, for processing). */
  method UploadResume(disk: Disk, repo: ResumeTable, stores: VectorStores, token: string, filename: string,
                      content: seq<bv8>, currentUser: UserLookup, uuid: string, uploadedAt: string,
                      utcNow: string, load: Loader, split: Splitter, write: StoreWriter,
                      check: CollectionCheck)
    returns (r: Result<string, Exc>)
    requires IsUuidText(uuid) && repo.Valid()
    modifies disk, repo, stores
    ensures repo.Valid()
    ensures UploadGate(filename).Failure? ==>
      r == Failure(UploadGate(filename).error) && unchanged(disk) && unchanged(repo) && unchanged(stores)
    ensures UploadGate(filename).Success? && currentUser(token).Failure? ==>
      r == Failure(currentUser(token).error) && unchanged(disk) && unchanged(repo) && unchanged(stores)
    ensures UploadGate(filename).Success? && currentUser(token).Success? ==>
      disk.dirs == old(disk.dirs) + DirsOf(UserFolder(currentUser(token).value))
    ensures UploadGate(filename).Success? && currentUser(token).Success? &&
            !SaveFindsParent(old(disk.dirs), currentUser(token).value, uuid, filename) ==>
      && r == Failure(OtherError("No such file or directory: " + SavedPath(currentUser(token).value, uuid, filename)))
      && disk.files == old(disk.files) && unchanged(repo) && unchanged(stores)
    ensures UploadGate(filename).Success? && currentUser(token).Success? &&
            SaveFindsParent(old(disk.dirs), currentUser(token).value, uuid, filename) ==>
      var userId := currentUser(token).value;
      var path := SavedPath(userId, uuid, filename);
      var loaded := LoadDocument(path, load);
      var outcome := ProcessOutcome(path, userId, uploadedAt, load, split, write, check);
      && disk.files == old(disk.files) - {path}
      && (r.Success? <==> outcome.Success?)
      && (r.Success? ==> r.value == UploadedPrefix + filename)
      && (r.Failure? ==> r.error == outcome.error)
      && (loaded.Failure? || loaded == Success([]) ==> unchanged(repo) && unchanged(stores))
      && (loaded.Success? && loaded.value != [] ==>
            var chunks := IngestedChunks(IngestedDocs(loaded.value, userId, path, uploadedAt), split);
            && repo.rows == old(repo.rows)[old(repo.nextId) := Resume(old(repo.nextId), userId, Basename(path), utcNow)]
            && repo.nextId == old(repo.nextId) + 1
            && (chunks == [] ==> unchanged(stores))
            && (chunks != [] ==> stores.writes == old(stores.writes) + [StoreWrite(StoreName(userId), chunks)]))
  {
    if !ExtensionAllowed(filename) {
      return Failure(HttpError(400, UploadGateDetail));
    }
    var user := currentUser(token);
    if user.Failure? {
      return Failure(user.error);
    }
    var done := SaveAndIngest(disk, repo, stores, user.value, filename, content, uuid, uploadedAt, utcNow, load, split, write, check);
    if done.Failure? {
      return Failure(done.error);
    }
    r := Success(UploadedPrefix + filename);
  }

  // ---------------------------------------------------------------------------------------------
  // GET /resume/ask

  /** The instructions that open the final prompt of `ask_resume`. */
  const RoutePrompt: string :=
    "\n" +
    "                    You are a helpful AI career assistant that provides personalized answers based on the user's resume.\n" +
    "\n" +
    "                    You have access to the user's resume through provided context documents (stored in chunks from a vector database).\n" +
    "\n" +
    "                    Instructions:\n" +
    "                    - ONLY answer based on the content found in the resume context.\n" +
    "                    - If the information is not available in the resume, clearly respond with: \"Information not found in the resume.\"\n" +
    "                    - Do not make assumptions or hallucinate facts.\n" +
    "                    - Be professional, supportive, and conversational in tone.\n" +
    "                    - Provide specific details from the resume whenever possible (e.g., job titles, companies, dates, skills, certifications, projects).\n" +
    "                    - When asked about experience, reference relevant work history, education, or projects from the resume.\n" +
    "                    - If something is missing or could be improved, provide constructive suggestions for enhancing the resume.\n" +
    "                    - Structure responses clearly. Use bullet points or headings if needed to improve readability.\n" +
    "\n" +
    "                    Always ensure that your answers are grounded in the resume context provided.\n" +
    "                    "

  const ContextMarker: string := "\n\nResume Context:\n"
  const QuestionMarker: string := "\n\nUser Question: "
  const FailedPrefix: string := "Failed to answer question: "
  const NoRelevantMessage: string := "No relevant resume documents found"

  /** The dictionaries `ask_resume` returns: the model's answer, the "no relevant documents" error
      for a user, or the message of whatever was raised. */
  datatype AskResumeResult =
    | Answered(userId: int, question: string, answer: string)
    | NoRelevantDocuments(userId: int)
    | AskFailed(message: string)

  /** `[doc.page_content for doc in relevant_docs]`. */
  function Contents(docs: seq<Document>): (r: seq<string>)
    ensures |r| == |docs|
    ensures forall i :: 0 <= i < |docs| ==> r[i] == docs[i].pageContent
  {
    seq(|docs|, i requires 0 <= i < |docs| => docs[i].pageContent)
  }

  /** The context of `ask_resume`: the chunk texts joined by blank lines. */
  function RetrievedContext(docs: seq<Document>): (r: string)
    ensures docs == [] ==> r == ""
    ensures docs != [] ==> StartsWith(r, docs[0].pageContent)
    ensures |docs| == 1 ==> r == docs[0].pageContent
  {
    if docs == [] then Join("\n\n", Contents(docs))
    else
      JoinStartsWithFirst("\n\n", Contents(docs));
      assert |docs| == 1 ==> Contents(docs) == [docs[0].pageContent];
      Join("\n\n", Contents(docs))
  }

  /** Chunk `i` comes after the chunks before it and a blank line: retrieval order is kept. */
  lemma RetrievedContextOrder(docs: seq<Document>, i: nat)
    requires 0 < i < |docs|
    ensures RetrievedContext(docs) == Join("\n\n", Contents(docs)[..i]) + "\n\n" + Join("\n\n", Contents(docs)[i..])
    ensures StartsWith(Join("\n\n", Contents(docs)[i..]), docs[i].pageContent)
  {
    JoinSplitAt("\n\n", Contents(docs), i);
    JoinStartsWithFirst("\n\n", Contents(docs)[i..]);
  }

  /** `f"{system_prompt}\n\nResume Context:\n{context}\n\nUser Question: {question}"`. */
  function FinalPrompt(context: string, question: string): (r: string)
    ensures StartsWith(r, RoutePrompt + ContextMarker + context)
    ensures EndsWith(r, QuestionMarker + question)
  {
    var head := RoutePrompt + ContextMarker + context;
    var tail := QuestionMarker + question;
    assert (head + tail)[..|head|] == head;
    assert (head + tail)[|head|..] == tail;
    head + tail
  }

  /** The final prompt is the instructions, the context marker, the context, the question marker
      and the question, in that order and at fixed offsets. */
  lemma FinalPromptLayout(context: string, question: string)
    ensures var p := FinalPrompt(context, question);
      var c0 := |RoutePrompt| + |ContextMarker|;
      var q0 := c0 + |context| + |QuestionMarker|;
      && |p| == q0 + |question|
      && p[..|RoutePrompt|] == RoutePrompt
      && p[|RoutePrompt|..c0] == ContextMarker
      && p[c0..c0 + |context|] == context
      && p[c0 + |context|..q0] == QuestionMarker
      && p[q0..] == question
  {
    var p := FinalPrompt(context, question);
    var lead := RoutePrompt + ContextMarker;
    var head := lead + context;
    assert p == head + (QuestionMarker + question);
    assert p[..|head|] == head && p[|head|..] == QuestionMarker + question;
    assert head[..|lead|] == lead && head[|lead|..] == context;
    assert lead[..|RoutePrompt|] == RoutePrompt && lead[|RoutePrompt|..] == ContextMarker;
  }

  /** The single message `ask_resume` sends to the model: no system message, the instructions ride
      in the human message with the final prompt. */
  function RouteMessages(docs: seq<Document>, question: string): (r: seq<Message>)
    ensures |r| == 1 && r[0].role == HumanRole
  {
    [Message(HumanRole, FinalPrompt(RetrievedContext(docs), question))]
  }

  /** That message is the final prompt over the retrieved chunks and the question: it opens with the
      route's instructions, the context marker and the chunk texts, and ends with the question. */
  lemma RouteMessagesCarryFinalPrompt(docs: seq<Document>, question: string)
    ensures var content := RouteMessages(docs, question)[0].content;
      && content == FinalPrompt(RetrievedContext(docs), question)
      && StartsWith(content, RoutePrompt + ContextMarker + RetrievedContext(docs))
      && EndsWith(content, QuestionMarker + question)
  {
  }

  /** The error result of `ask_resume` for an exception: its text after "Failed to answer question: ". */
  function AskFailure(e: Exc): (r: AskResumeResult)
    ensures r.AskFailed? && StartsWith(r.message, FailedPrefix)
    ensures r.message[|FailedPrefix|..] == Text(e)
  {
    var m := FailedPrefix + Text(e);
    assert m[..|FailedPrefix|] == FailedPrefix && m[|FailedPrefix|..] == Text(e);
    AskFailed(m)
  }

  /** The part of `ask_resume` after the user's store is open: search with k = 3, report no
      relevant documents on an empty result, otherwise ask the model once. */
  function AnswerFromStore(userId: int, question: string, search: Search, model: ChatModel)
    : (r: AskResumeResult)
    ensures var found := search(SearchRequest(StoreName(userId), question, RouteK));
      && (found.Failure? ==> r == AskFailure(found.error))
      && (found == Success([]) ==> r == NoRelevantDocuments(userId))
      && (found.Success? && found.value != [] ==>
            var reply := model(RouteMessages(found.value, question));
            && (reply.Failure? ==> r == AskFailure(reply.error))
            && (reply.Success? ==> r == Answered(userId, question, reply.value)))
    ensures r.AskFailed? ==> StartsWith(r.message, FailedPrefix)
    ensures !r.AskFailed? ==>
      var found := search(SearchRequest(StoreName(userId), question, RouteK));
      && r.userId == userId
      && found.Success?
      && (r.NoRelevantDocuments? <==> found.value == [])
      && (r.Answered? ==> r.question == question &&
                          model(RouteMessages(found.value, question)) == Success(r.answer))
  {
    match search(SearchRequest(StoreName(userId), question, RouteK))
    case Failure(e) => AskFailure(e)
    case Success(docs) =>
      if docs == [] then NoRelevantDocuments(userId)
      else
        match model(RouteMessages(docs, question))
        case Failure(e) => AskFailure(e)
        case Success(answer) => Answered(userId, question, answer)
  }

  /** `ask_resume`: resolve the user, open `resume_<user_id>`, take k = 3 chunks, answer "no relevant
      documents" on an empty result, otherwise ask the model with the final prompt as one human
      message. Every exception becomes an error result carrying its text. */
  function AskResume(token: string, question: string, currentUser: UserLookup, getStore: StoreLookup,
                     search: Search, model: ChatModel): (r: AskResumeResult)
    ensures currentUser(token).Failure? ==> r == AskFailure(currentUser(token).error)
    ensures currentUser(token).Success? ==>
      var u := currentUser(token).value;
      var store := getStore(StoreName(u));
      && (store.Failure? ==> r == AskFailure(store.error))
      && (store == Success(NoneHandle) ==> r == AskFailure(NoneSearchError))
      && (store == Success(StoreObject) ==> r == AnswerFromStore(u, question, search, model))
  {
    match currentUser(token)
    case Failure(e) => AskFailure(e)
    case Success(userId) =>
      match getStore(StoreName(userId))
      case Failure(e) => AskFailure(e)
      case Success(NoneHandle) => AskFailure(NoneSearchError)
      case Success(StoreObject) => AnswerFromStore(userId, question, search, model)
  }

  /** Once the user's store is open, every outcome of `ask_resume`: a search error gives the failure
      message, an empty search "no relevant documents" for the user, and otherwise the model's
      error gives the failure message and its reply the answer. */
  lemma AskResumeWithStore(token: string, question: string, currentUser: UserLookup,
                           getStore: StoreLookup, search: Search, model: ChatModel)
    requires currentUser(token).Success?
    requires getStore(StoreName(currentUser(token).value)) == Success(StoreObject)
    ensures var u := currentUser(token).value;
      var r := AskResume(token, question, currentUser, getStore, search, model);
      var found := search(SearchRequest(StoreName(u), question, RouteK));
      && (found.Failure? ==> r == AskFailure(found.error))
      && (found == Success([]) ==> r == NoRelevantDocuments(u))
      && (found.Success? && found.value != [] ==>
            var reply := model(RouteMessages(found.value, question));
            && (reply.Failure? ==> r == AskFailure(reply.error))
            && (reply.Success? ==> r == Answered(u, question, reply.value)))
  {
  }

  /** Conversely, every error result carries the failure prefix, and a result that is not an error
      comes from the user's own store object and a successful k = 3 search: "no relevant documents"
      exactly when that search is empty, and otherwise the model's reply to the final prompt. */
  lemma AskResumeConverse(token: string, question: string, currentUser: UserLookup,
                          getStore: StoreLookup, search: Search, model: ChatModel)
    ensures var r := AskResume(token, question, currentUser, getStore, search, model);
      r.AskFailed? ==> StartsWith(r.message, FailedPrefix)
    ensures var r := AskResume(token, question, currentUser, getStore, search, model);
      !r.AskFailed? ==>
      var request := SearchRequest(StoreName(r.userId), question, RouteK);
      && currentUser(token) == Success(r.userId)
      && getStore(StoreName(r.userId)) == Success(StoreObject)
      && search(request).Success?
      && (r.NoRelevantDocuments? <==> search(request).value == [])
      && (r.Answered? ==> r.question == question &&
                          model(RouteMessages(search(request).value, question)) == Success(r.answer))
  {
  }

  /** On an empty retrieval the model is never consulted: any two models give the same result. */
  lemma EmptyRetrievalSkipsModel(token: string, question: string, currentUser: UserLookup,
                                 getStore: StoreLookup, search: Search, m1: ChatModel, m2: ChatModel)
    requires currentUser(token).Success?
    requires getStore(StoreName(currentUser(token).value)) == Success(StoreObject)
    requires search(SearchRequest(StoreName(currentUser(token).value), question, RouteK)) == Success([])
    ensures AskResume(token, question, currentUser, getStore, search, m1) == NoRelevantDocuments(currentUser(token).value)
    ensures AskResume(token, question, currentUser, getStore, search, m1) ==
            AskResume(token, question, currentUser, getStore, search, m2)
  {
  }

  /** With a store that honours its bound, an answer is grounded in at most three chunks. */
  lemma AnswerUsesAtMostThreeChunks(token: string, question: string, currentUser: UserLookup,
                                    getStore: StoreLookup, search: Search, model: ChatModel)
    requires HonoursK(search)
    requires AskResume(token, question, currentUser, getStore, search, model).Answered?
    ensures var r := AskResume(token, question, currentUser, getStore, search, model);
      var docs := search(SearchRequest(StoreName(r.userId), question, RouteK)).value;
      0 < |docs| <= 3 && model(RouteMessages(docs, question)) == Success(r.answer)
  {
    var r := AskResume(token, question, currentUser, getStore, search, model);
    assert search(SearchRequest(StoreName(r.userId), question, RouteK)).Success?;
  }

  // ---------------------------------------------------------------------------------------------
  // GET /resume/ask2

  /** The system prompt `/resume/ask2` sends ahead of the question. */
  const Ask2Prompt: string :=
    "\n" +
    "                You are a helpful AI assistant that provides information based on the user's resume.\n" +
    "                You have access to the user's resume content through the provided context documents.\n" +
    "                \n" +
    "                Instructions:\n" +
    "                - Answer questions accurately based ONLY on the information in the resume\n" +
    "                - If the information is not in the resume, clearly state that\n" +
    "                - Be conversational and helpful\n" +
    "                - Provide specific details when available (dates, company names, skills, etc.)\n" +
    "                - If asked about experience, mention relevant projects, jobs, or education\n" +
    "                "

  const CollectionNotFoundPrefix: string := "Collection not found: "
  const UploadSuggestion: string := "Upload a resume first"
  const ErrorPrefix: string := "Error: "

  /** The dictionaries `/resume/ask2` returns. */
  datatype Ask2Result =
    | Found(question: string, userId: int, totalDocumentsFound: nat)
    | NoDocuments(question: string, userId: int)
    | CollectionNotFound(message: string, suggestion: string)
    | Failed(message: string, question: string)

  /** The two messages `/resume/ask2` sends: the system prompt, then the bare question. */
  function Ask2Messages(question: string): (r: seq<Message>)
    ensures |r| == 2
    ensures r[0].role == SystemRole && r[0].content == Ask2Prompt
    ensures r[1].role == HumanRole && r[1].content == question
  {
    [Message(SystemRole, Ask2Prompt), Message(HumanRole, question)]
  }

  /** The `try` body of `/resume/ask2`: resolve the user, open the store, ask the model (its reply is
      not used), then search the store with k = 3 and count what came back. */
  function Ask2Body(token: string, question: string, currentUser: UserLookup, getStore: StoreLookup,
                    search: Search, model: ChatModel): (r: Result<Ask2Result, Exc>)
    ensures r.Success? ==>
      && currentUser(token).Success?
      && getStore(StoreName(currentUser(token).value)) == Success(StoreObject)
      && model(Ask2Messages(question)).Success?
      && search(SearchRequest(StoreName(currentUser(token).value), question, RouteK)).Success?
    ensures r.Success? ==>
      var docs := search(SearchRequest(StoreName(currentUser(token).value), question, RouteK)).value;
      && (docs == [] ==> r.value == NoDocuments(question, currentUser(token).value))
      && (docs != [] ==> r.value == Found(question, currentUser(token).value, |docs|))
    ensures currentUser(token).Failure? ==> r == Failure(currentUser(token).error)
    ensures currentUser(token).Success? ==>
      var u := currentUser(token).value;
      var store := getStore(StoreName(u));
      var reply := model(Ask2Messages(question));
      var found := search(SearchRequest(StoreName(u), question, RouteK));
      && (store.Failure? ==> r == Failure(store.error))
      && (store.Success? && reply.Failure? ==> r == Failure(reply.error))
      && (store == Success(NoneHandle) && reply.Success? ==> r == Failure(NoneSearchError))
      && (store == Success(StoreObject) && reply.Success? ==>
            && (found.Failure? ==> r == Failure(found.error))
            && (found == Success([]) ==> r == Success(NoDocuments(question, u)))
            && (found.Success? && found.value != [] ==> r == Success(Found(question, u, |found.value|))))
  {
    match currentUser(token)
    case Failure(e) => Failure(e)
    case Success(userId) =>
      match getStore(StoreName(userId))
      case Failure(e) => Failure(e)
      case Success(handle) =>
        match model(Ask2Messages(question))
        case Failure(e) => Failure(e)
        case Success(_) =>
          if handle.NoneHandle? then Failure(NoneSearchError)
          else
            match search(SearchRequest(StoreName(userId), question, RouteK))
            case Failure(e) => Failure(e)
            case Success(docs) =>
              if docs == [] then Success(NoDocuments(question, userId))
              else Success(Found(question, userId, |docs|))
  }

  /** `/resume/ask2`: a `ValueError` becomes "Collection not found" with the upload suggestion, and
      any other exception becomes "Error: ..." with the question; nothing propagates. */
  function Ask(token: string, question: string, currentUser: UserLookup, getStore: StoreLookup,
               search: Search, model: ChatModel): (r: Ask2Result)
    ensures var b := Ask2Body(token, question, currentUser, getStore, search, model);
      && (b.Success? ==> r == b.value)
      && (b.Failure? && b.error.ValueError? ==>
            r == CollectionNotFound(CollectionNotFoundPrefix + b.error.message, UploadSuggestion))
      && (b.Failure? && !b.error.ValueError? ==> r == Failed(ErrorPrefix + Text(b.error), question))
  {
    match Ask2Body(token, question, currentUser, getStore, search, model)
    case Success(result) => result
    case Failure(ValueError(m)) => CollectionNotFound(CollectionNotFoundPrefix + m, UploadSuggestion)
    case Failure(e) => Failed(ErrorPrefix + Text(e), question)
  }

  /** The model's reply never reaches the result: two models that both answer give the same result. */
  lemma Ask2IgnoresModelReply(token: string, question: string, currentUser: UserLookup,
                              getStore: StoreLookup, search: Search, m1: ChatModel, m2: ChatModel)
    requires m1(Ask2Messages(question)).Success? && m2(Ask2Messages(question)).Success?
    ensures Ask(token, question, currentUser, getStore, search, m1) == Ask(token, question, currentUser, getStore, search, m2)
  {
  }

  /** A `None` store fails in `similarity_search` with an `AttributeError`, which is not a
      `ValueError`: the result is the generic error, not "Collection not found". */
  lemma Ask2NoneStoreIsGenericError(token: string, question: string, currentUser: UserLookup,
                                    getStore: StoreLookup, search: Search, model: ChatModel)
    requires currentUser(token).Success?
    requires getStore(StoreName(currentUser(token).value)) == Success(NoneHandle)
    requires model(Ask2Messages(question)).Success?
    ensures Ask(token, question, currentUser, getStore, search, model) ==
      Failed(ErrorPrefix + "'NoneType' object has no attribute 'similarity_search'", question)
  {
  }

  /** A `ValueError` raised while opening the store is reported as a missing collection. */
  lemma Ask2StoreValueErrorIsMissingCollection(token: string, question: string, currentUser: UserLookup,
                                               getStore: StoreLookup, search: Search, model: ChatModel, m: string)
    requires currentUser(token).Success?
    requires getStore(StoreName(currentUser(token).value)) == Failure(ValueError(m))
    ensures Ask(token, question, currentUser, getStore, search, model) ==
      CollectionNotFound(CollectionNotFoundPrefix + m, UploadSuggestion)
  {
  }
}

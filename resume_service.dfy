/** `ResumeService`: saving an upload, ingesting it, and building the retrieval context. */
module ResumeService {
  import opened Wrappers
  import opened Strings
  import opened Exceptions
  import opened OsPath
  import opened DocumentProcessing
  import opened ResumeRepository
  import opened Effects

  const UploadDir: string := "uploads/resumes"
  const AllowedExtensions: seq<string> := [".pdf", ".docx", ".html"]

  /** The extension whitelist: `os.path.splitext(name)[1].lower() in allowed_extensions`. */
  predicate ExtensionAllowed(filename: string)
    ensures ExtensionAllowed(filename) ==>
      var ext := Extension(filename);
      && ext != [] && ext[0] == '.' && '/' !in ext && |ext| in {4, 5}
      && EndsWith(filename, ext)
  {
    Lower(Extension(filename)) in AllowedExtensions
  }

  /** The text of `str(uuid.uuid4())`: 36 lower-case hexadecimal digits and dashes. */
  predicate IsUuidText(u: string)
  {
    |u| == 36 && forall i :: 0 <= i < |u| ==> u[i] in "0123456789abcdef-"
  }

  /** The collection a user's chunks are written to and read from. */
  function StoreName(userId: int): (r: string)
    ensures StartsWith(r, "resume_") && r[7..] == IntToString(userId)
  {
    "resume_" + IntToString(userId)
  }

  /** Different users never share a collection name. */
  lemma StoreNameInjective(u: int, v: int)
    requires StoreName(u) == StoreName(v)
    ensures u == v
  {
    IntToStringInjective(u, v);
  }

  /** A stored name starts with the uuid's first character, which is never a slash. */
  lemma UuidStartsWithoutSlash(uuid: string, filename: string)
    requires IsUuidText(uuid)
    ensures (uuid + "_" + filename)[0] != '/'
  {
    assert uuid[0] in "0123456789abcdef-";
  }

  /** `os.path.join(UPLOAD_DIR, str(user_id))`: `uploads/resumes/<user_id>`, with no trailing slash. */
  function UserFolder(userId: int): (r: string)
    ensures r == UploadDir + "/" + IntToString(userId)
    ensures r != [] && r[|r| - 1] != '/'
  {
    var digits := IntToString(userId);
    assert digits[0] != '/' && digits[|digits| - 1] != '/';
    PathJoinInsertsSlash(UploadDir, digits);
    PathJoin(UploadDir, digits)
  }

  /** `os.path.join(user_folder, f"{uuid}_{filename}")`. It always ends with the stored name; for
      a uuid it is the user's folder, a slash and `<uuid>_<filename>`. */
  function SavedPath(userId: int, uuid: string, filename: string): (r: string)
    ensures EndsWith(r, uuid + "_" + filename)
    ensures IsUuidText(uuid) ==> r == UserFolder(userId) + "/" + (uuid + "_" + filename)
  {
    var name := uuid + "_" + filename;
    if IsUuidText(uuid) then
      UuidStartsWithoutSlash(uuid, filename);
      PathJoinInsertsSlash(UserFolder(userId), name);
      PathJoin(UserFolder(userId), name)
    else
      PathJoin(UserFolder(userId), name)
  }

  /** A uuid followed by `_` and a name without slashes has no slash either. */
  lemma StoredNameHasNoSlash(uuid: string, filename: string)
    requires IsUuidText(uuid) && '/' !in filename
    ensures '/' !in uuid + "_" + filename
  {
    var name := uuid + "_" + filename;
    forall i | 0 <= i < |name| ensures name[i] != '/' {
      if i < |uuid| { assert name[i] == uuid[i]; }
      else if i > |uuid| { assert name[i] == filename[i - |uuid| - 1]; }
    }
  }

  /** The saved path is `uploads/resumes/<user_id>/<uuid>_<filename>`: it ends with the original name,
      and for a name without a slash its basename is `<uuid>_<filename>` and its directory is the
      user's folder. */
  lemma SavedPathShape(userId: int, uuid: string, filename: string)
    requires IsUuidText(uuid)
    ensures SavedPath(userId, uuid, filename) == UserFolder(userId) + "/" + (uuid + "_" + filename)
    ensures EndsWith(SavedPath(userId, uuid, filename), filename)
    ensures '/' !in filename ==>
      Basename(SavedPath(userId, uuid, filename)) == uuid + "_" + filename &&
      Dirname(SavedPath(userId, uuid, filename)) == UserFolder(userId)
  {
    var folder := UserFolder(userId);
    var name := uuid + "_" + filename;
    var path := SavedPath(userId, uuid, filename);
    assert path == folder + "/" + name;
    assert name[|name| - |filename|..] == filename;
    assert path[|path| - |filename|..] == name[|name| - |filename|..];
    if '/' !in filename {
      StoredNameHasNoSlash(uuid, filename);
      SplitAtInsertedSlash(folder, name);
    }
  }

  /** `save_file`: reject a disallowed extension before touching the disk; otherwise create the
      user's folder and write the bytes to the saved path. */
  method SaveFile(disk: Disk, userId: int, filename: string, content: seq<bv8>, uuid: string)
    returns (r: Result<string, Exc>)
    requires IsUuidText(uuid)
    modifies disk
    ensures !ExtensionAllowed(filename) ==>
      r == Failure(HttpError(400, "Unsupported file type.")) && unchanged(disk)
    ensures ExtensionAllowed(filename) ==>
      disk.dirs == old(disk.dirs) + DirsOf(UserFolder(userId))
    ensures ExtensionAllowed(filename) && disk.ParentExists(SavedPath(userId, uuid, filename)) ==>
      r == Success(SavedPath(userId, uuid, filename)) &&
      disk.files == old(disk.files)[SavedPath(userId, uuid, filename) := content]
    ensures ExtensionAllowed(filename) && !disk.ParentExists(SavedPath(userId, uuid, filename)) ==>
      r == Failure(OtherError("No such file or directory: " + SavedPath(userId, uuid, filename))) &&
      disk.files == old(disk.files)
  {
    if !ExtensionAllowed(filename) {
      return Failure(HttpError(400, "Unsupported file type."));
    }
    var folder := UserFolder(userId);
    disk.MakeDirs(folder);
    var path := PathJoin(folder, uuid + "_" + filename);
    var written := disk.WriteFile(path, content);
    if written.Failure? {
      return Failure(written.error);
    }
    r := Success(path);
  }

  /** Whether the `open` of `save_file` finds the saved path's parent directory, given the
      directories that existed before the call: `makedirs` has added the user's folder by then. */
  predicate SaveFindsParent(dirs: set<string>, userId: int, uuid: string, filename: string)
  {
    var p := SavedPath(userId, uuid, filename);
    Dirname(p) == "" || Dirname(p) in dirs + DirsOf(UserFolder(userId))
  }

  /** A saved file always lands in a directory `save_file` has just created, so the write succeeds
      whenever the name has no slash. */
  lemma SaveTargetsUserFolder(dirs: set<string>, userId: int, uuid: string, filename: string)
    requires IsUuidText(uuid) && '/' !in filename
    ensures Dirname(SavedPath(userId, uuid, filename)) in dirs + DirsOf(UserFolder(userId))
    ensures SaveFindsParent(dirs, userId, uuid, filename)
  {
    SavedPathShape(userId, uuid, filename);
  }

  /** The metadata `process_resume` merges into every loaded document. */
  function IngestionMetadata(userId: int, source: string, uploadedAt: string): (md: Metadata)
    ensures md.Keys == {"user_id", "source", "uploaded_at"}
    ensures md["user_id"] == IntValue(userId)
    ensures md["source"] == TextValue(source)
    ensures md["uploaded_at"] == TextValue(uploadedAt)
  {
    map["user_id" := IntValue(userId), "source" := TextValue(source), "uploaded_at" := TextValue(uploadedAt)]
  }

  /** The loaded documents once the ingestion metadata is merged in. */
  function IngestedDocs(loaded: seq<Document>, userId: int, filePath: string, uploadedAt: string): seq<Document>
  {
    MergedAll(loaded, IngestionMetadata(userId, Basename(filePath), uploadedAt))
  }

  /** The annotated chunks of the ingested documents, split with the default size and overlap. */
  function IngestedChunks(docs: seq<Document>, split: Splitter): seq<Document>
  {
    Annotated(split(docs, DefaultChunkSize, DefaultChunkOverlap))
  }

  /** Copies the loaded documents into a fresh list and runs `add_metadata` over it. */
  method MergeIntoLoaded(loaded: seq<Document>, md: Metadata) returns (docs: seq<Document>)
    ensures docs == MergedAll(loaded, md)
  {
    var list := new Document[|loaded|](i requires 0 <= i < |loaded| => loaded[i]);
    assert list[..] == loaded;
    list := AddMetadata(list, md);
    docs := list[..];
  }

  /** What `process_resume` returns or raises: the loader's exception; `None` when nothing was
      loaded or nothing was chunked; the exception of `store_documents` or `debug_collection`;
      otherwise the merged documents. */
  function ProcessOutcome(filePath: string, userId: int, uploadedAt: string, load: Loader,
                          split: Splitter, write: StoreWriter, check: CollectionCheck)
    : (r: Result<Option<seq<Document>>, Exc>)
    ensures LoadDocument(filePath, load).Failure? ==> r == Failure(LoadDocument(filePath, load).error)
    ensures LoadDocument(filePath, load) == Success([]) ==> r == Success(None)
    ensures LoadDocument(filePath, load).Success? && LoadDocument(filePath, load).value != [] ==>
      var docs := IngestedDocs(LoadDocument(filePath, load).value, userId, filePath, uploadedAt);
      var chunks := IngestedChunks(docs, split);
      var w := StoreWrite(StoreName(userId), chunks);
      && (chunks == [] ==> r == Success(None))
      && (chunks != [] && write(w).Failure? ==> r == Failure(write(w).error))
      && (chunks != [] && write(w).Success? && check(StoreName(userId)).Failure? ==>
            r == Failure(check(StoreName(userId)).error))
      && (chunks != [] && write(w).Success? && check(StoreName(userId)).Success? ==>
            r == Success(Some(docs)))
  {
    match LoadDocument(filePath, load)
    case Failure(e) => Failure(e)
    case Success(loaded) =>
      if loaded == [] then Success(None)
      else
        var docs := IngestedDocs(loaded, userId, filePath, uploadedAt);
        var chunks := IngestedChunks(docs, split);
        if chunks == [] then Success(None)
        else
          match write(StoreWrite(StoreName(userId), chunks))
          case Failure(e) => Failure(e)
          case Success(_) =>
            match check(StoreName(userId))
            case Failure(e) => Failure(e)
            case Success(_) => Success(Some(docs))
  }

  /** `process_resume`: load; stop with `None` if nothing loaded (no row, no store write); merge the
      ingestion metadata; insert the resume row; split; stop with `None` if there are no chunks (row
      kept, nothing stored); otherwise write the chunks to the user's collection and verify it. An
      exception from the write or the verification propagates; the resume row stays. */
  method ProcessResume(repo: ResumeTable, stores: VectorStores, filePath: string, userId: int,
                       uploadedAt: string, utcNow: string, load: Loader, split: Splitter,
                       write: StoreWriter, check: CollectionCheck)
    returns (r: Result<Option<seq<Document>>, Exc>)
    requires repo.Valid()
    modifies repo, stores
    ensures repo.Valid()
    ensures r == ProcessOutcome(filePath, userId, uploadedAt, load, split, write, check)
    ensures LoadDocument(filePath, load).Failure? || LoadDocument(filePath, load) == Success([]) ==>
      unchanged(repo) && unchanged(stores)
    ensures LoadDocument(filePath, load).Success? && LoadDocument(filePath, load).value != [] ==>
      var docs := IngestedDocs(LoadDocument(filePath, load).value, userId, filePath, uploadedAt);
      var chunks := IngestedChunks(docs, split);
      && repo.rows == old(repo.rows)[old(repo.nextId) := Resume(old(repo.nextId), userId, Basename(filePath), utcNow)]
      && repo.nextId == old(repo.nextId) + 1
      && (chunks == [] ==> unchanged(stores))
      && (chunks != [] ==> stores.writes == old(stores.writes) + [StoreWrite(StoreName(userId), chunks)])
  {
    var loaded := LoadDocument(filePath, load);
    if loaded.Failure? {
      return Failure(loaded.error);
    }
    if loaded.value == [] {
      return Success(None);
    }
    var source := Basename(filePath);
    var metadata := IngestionMetadata(userId, source, uploadedAt);
    var docs := MergeIntoLoaded(loaded.value, metadata);
    var _ := repo.CreateResume(ResumeDraft(userId, source, utcNow));
    var chunks := SplitDocuments(docs, DefaultChunkSize, DefaultChunkOverlap, RecursiveStrategy, split);
    assert chunks.value == IngestedChunks(docs, split);
    if chunks.value == [] {
      return Success(None);
    }
    var stored := stores.StoreDocuments(chunks.value, StoreName(userId), write);
    if stored.Failure? {
      return Failure(stored.error);
    }
    var checked := check(StoreName(userId));
    if checked.Failure? {
      return Failure(checked.error);
    }
    r := Success(Some(docs));
  }

  const NoResumeAnswerText: string :=
    "I don't have access to your resume information. Please upload your resume first."

  /** The dictionaries `ask_based_on_resume` returns: the fixed answer with no sources, or the
      question with its context and the retrieved documents. */
  datatype ResumeAnswer =
    | Answer(answer: string, sources: seq<Document>)
    | Grounded(question: string, context: string, relevantDocuments: seq<Document>)

  /** `f"Resume Section {i+1}:\n{doc.page_content}"` for each retrieved chunk. */
  function Sections(docs: seq<Document>): (r: seq<string>)
    ensures |r| == |docs|
    ensures forall i :: 0 <= i < |docs| ==>
      r[i] == "Resume Section " + NatToString(i + 1) + ":\n" + docs[i].pageContent
  {
    seq(|docs|, i requires 0 <= i < |docs| => "Resume Section " + NatToString(i + 1) + ":\n" + docs[i].pageContent)
  }

  /** The context of `ask_based_on_resume`: the sections joined by blank lines. */
  function SectionContext(docs: seq<Document>): (r: string)
    ensures docs == [] ==> r == ""
    ensures docs != [] ==> StartsWith(r, "Resume Section 1:\n" + docs[0].pageContent)
  {
    if docs == [] then Join("\n\n", Sections(docs))
    else
      JoinStartsWithFirst("\n\n", Sections(docs));
      assert NatToString(1) == "1";
      Join("\n\n", Sections(docs))
  }

  /** Section `i` (numbered `i + 1`) comes after the sections before it and a blank line, so the
      chunks appear in retrieval order. */
  lemma SectionContextOrder(docs: seq<Document>, i: nat)
    requires 0 < i < |docs|
    ensures SectionContext(docs) == Join("\n\n", Sections(docs)[..i]) + "\n\n" + Join("\n\n", Sections(docs)[i..])
    ensures StartsWith(Join("\n\n", Sections(docs)[i..]),
                       "Resume Section " + NatToString(i + 1) + ":\n" + docs[i].pageContent)
  {
    JoinSplitAt("\n\n", Sections(docs), i);
    JoinStartsWithFirst("\n\n", Sections(docs)[i..]);
  }

  /** `ask_based_on_resume`: open the user's collection (404 when the handle is `None`), search
      with k = 5, answer with the fixed text on an empty result, else return the sectioned context. */
  function AskBasedOnResume(userId: int, question: string,
                            getStore: StoreLookup, search: Search): (r: Result<ResumeAnswer, Exc>)
    ensures getStore(StoreName(userId)) == Success(NoneHandle) ==>
      r == Failure(HttpError(404, "Resume not found for this user."))
    ensures r.Success? ==>
      getStore(StoreName(userId)) == Success(StoreObject) &&
      search(SearchRequest(StoreName(userId), question, 5)).Success?
    ensures r.Success? && r.value.Answer? ==>
      r.value == Answer(NoResumeAnswerText, []) && search(SearchRequest(StoreName(userId), question, 5)).value == []
    ensures r.Success? && r.value.Grounded? ==>
      r.value.relevantDocuments == search(SearchRequest(StoreName(userId), question, 5)).value &&
      r.value.relevantDocuments != [] &&
      r.value.question == question && r.value.context == SectionContext(r.value.relevantDocuments)
    ensures getStore(StoreName(userId)).Failure? ==> r == Failure(getStore(StoreName(userId)).error)
    ensures getStore(StoreName(userId)) == Success(StoreObject) ==>
      var found := search(SearchRequest(StoreName(userId), question, 5));
      && (found.Failure? ==> r == Failure(found.error))
      && (found == Success([]) ==> r == Success(Answer(NoResumeAnswerText, [])))
      && (found.Success? && found.value != [] ==>
            r == Success(Grounded(question, SectionContext(found.value), found.value)))
  {
    match getStore(StoreName(userId))
    case Failure(e) => Failure(e)
    case Success(NoneHandle) => Failure(HttpError(404, "Resume not found for this user."))
    case Success(StoreObject) =>
      match search(SearchRequest(StoreName(userId), question, 5))
      case Failure(e) => Failure(e)
      case Success(docs) =>
        if docs == [] then Success(Answer(NoResumeAnswerText, []))
        else Success(Grounded(question, SectionContext(docs), docs))
  }

  /** The service reads only the user's own collection, with k = 5: collaborators that agree on that
      one name and that one request produce the same answer. */
  lemma AskReadsOnlyOwnStore(userId: int, question: string,
                             g1: StoreLookup, s1: Search,
                             g2: StoreLookup, s2: Search)
    requires g1(StoreName(userId)) == g2(StoreName(userId))
    requires s1(SearchRequest(StoreName(userId), question, 5)) == s2(SearchRequest(StoreName(userId), question, 5))
    ensures AskBasedOnResume(userId, question, g1, s1) == AskBasedOnResume(userId, question, g2, s2)
  {
  }
}

# ai-career-assistant back end in Dafny

This project models the back end of ai-career-assistant, a FastAPI service. Users upload a resume (PDF, DOCX or HTML). The service saves it, loads it into LangChain documents, tags them with metadata, records a `resumes` row, splits the text into chunks, and writes the chunks to a per-user vector collection named `resume_<user_id>`. The `/resume/ask` routes then answer questions from the retrieved chunks. Around that sit:

- an authentication middleware for Bearer headers;
- a JWT expiry rule;
- user registration and login decisions;
- the resume table's operations.

The third-party libraries are function-typed parameters: loaders, text splitter, vector store, chat model, bcrypt, `jwt.encode`, and `get_current_user`. The model states what the code does around them.

Modules, one per source file, plus shared helpers:

| module | file | models |
|---|---|---|
| `DocumentProcessing` | document_processing.dfy | loader dispatch, `add_metadata` (in place over an array), `split_documents` and its in-place chunk annotation |
| `ResumeService` | resume_service.dfy | `save_file`, `process_resume` (step order and early exits), `ask_based_on_resume` |
| `RagService` | rag_service.dfy | system prompt, human prompt, the message list of `ask_model` |
| `ResumeRoutes` | resume_routes.dfy | `upload_resume` with its gate and `finally` clean-up, `ask_resume`, `ask` (`/resume/ask2`) |
| `Middleware` | middlewares.dfy | `AuthMiddleware.dispatch` |
| `JwtService` | jwt_service.dfy | `create_access_token` |
| `AuthenticationService` | authentication_service.dfy | `get_user`, `authenticate_user`, `create_user` over a user table |
| `ResumeRepository` | resume_repository.dfy | the resume table as a class over `map<int, Resume>` |
| `Effects` | effects.dfy | the disk (directories and files) and the vector store's write log and read interface |
| `OsPath`, `Strings`, `Wrappers`, `Exceptions` | os_path.dfy, strings.dfy, wrappers.dfy | POSIX `os.path` functions, the Python string functions used, `Option`/`Result`, and Python exceptions with their `str()` text |

Python exceptions become `Exceptions.Exc` values carried in a `Result`. An `HTTPException` renders as `"<status>: <detail>"`, as Starlette's `__str__` does. Time is passed in: whole seconds for the JWT, and timestamp strings for `datetime.now().isoformat()` and `datetime.utcnow()`. The uuid is a parameter too, and the uploaded bytes are a `seq<bv8>`.

A note on the code:

- Only the code in these files is modelled: one Q&A prompt, k = 3 in the routes and k = 5 in the service.
- Nothing in them routes between services, varies k by service, or creates a collection only when it is absent.
- `store_documents` is modelled as an entry appended to a write log, with a parameter that says whether the vector database accepted the write or raised. `debug_collection` is a parameter that returns normally or raises.
- `build_system_prompt` takes no input and returns a constant (`RagService.SystemPrompt`, written out character for character). So every call returns the same text, and the lemma about `ask_model` states that this text is the first message.

## Model

| member | source | states |
|---|---|---|
| DocumentProcessing.SelectLoader | Back-end/api/utils/document_processing_service.py:12-19 | Succeeds exactly when the path ends with ".pdf", ".docx" or ".html" (case-sensitive). Each suffix selects its own loader, in both directions. Any other path fails with ValueError "Unsupported file type: <path>". |
| DocumentProcessing.LoadDocument | Back-end/api/utils/document_processing_service.py:11-20 | An unsupported path gives the dispatch error. A supported path gives what the chosen loader produces for that path. |
| DocumentProcessing.UnsupportedPathNeverLoads | Back-end/api/utils/document_processing_service.py:18-19 | For an unsupported path the result is the same whatever the loaders would do, so no loader is built. |
| DocumentProcessing.UpperCaseSuffixRejected | Back-end/api/utils/document_processing_service.py:12-19 | Any path ending in ".PDF" is rejected by the dispatch. |
| DocumentProcessing.MergedAll | Back-end/api/utils/document_processing_service.py:23-26 | The merge keeps length, order and every page_content. Each document's keys become its old keys plus the given ones. Every given key maps to the given value, and every other key keeps its old value. |
| DocumentProcessing.AddMetadata | Back-end/api/utils/document_processing_service.py:23-26 | Updates the same list in place and returns it. Its new contents are MergedAll of its old contents. |
| DocumentProcessing.Annotated | Back-end/api/utils/document_processing_service.py:35-38 | Same number and text of chunks. Chunk i gets chunk_index = i and chunk_size = len(page_content). No other key changes. |
| DocumentProcessing.ChunkIndicesIncrease | Back-end/api/utils/document_processing_service.py:36-37 | The first chunk_index is 0 and indices strictly increase along the list. |
| DocumentProcessing.AnnotateChunks | Back-end/api/utils/document_processing_service.py:36-37 | The in-place loop leaves the chunk list equal to Annotated of its old contents. |
| DocumentProcessing.SplitDocuments | Back-end/api/utils/document_processing_service.py:29-38 | A strategy other than "recursive" gives ValueError "Unsupported splitting strategy: <s>" and nothing is split. Otherwise the result is the annotated output of the splitter, called with the given size and overlap. |
| ResumeService.ExtensionAllowed | Back-end/api/services/resume_service.py:16-19 | An allowed name has a non-empty extension of 4 or 5 characters that starts with its dot, holds no slash, and ends the name. |
| ResumeService.StoreName | Back-end/api/services/resume_service.py:79 | The collection name is "resume_" followed by the decimal user id. |
| ResumeService.StoreNameInjective | Back-end/api/services/resume_service.py:79-80 | Different users never share a collection name. |
| ResumeService.UserFolder | Back-end/api/services/resume_service.py:21 | The user's folder is "uploads/resumes/<user_id>" and does not end in a slash. |
| ResumeService.SavedPath | Back-end/api/services/resume_service.py:24-25 | The saved path always ends with "<uuid>_<filename>". For a uuid it is the user folder, "/", then "<uuid>_<filename>". |
| ResumeService.SavedPathShape | Back-end/api/services/resume_service.py:21-25 | The saved path is the user folder, "/", then "<uuid>_<filename>", so it ends with the original filename. For a name without a slash, its basename is "<uuid>_<filename>" and its dirname is the user folder. |
| ResumeService.SaveFile | Back-end/api/services/resume_service.py:15-30 | A disallowed lower-cased extension gives HTTP 400 "Unsupported file type." with the disk unchanged. Otherwise the user folder and its ancestors are created, and the bytes are written to the saved path when its parent directory exists. When it does not, open fails with "No such file or directory: <path>" and the files are unchanged. |
| ResumeService.SaveTargetsUserFolder | Back-end/api/services/resume_service.py:21-27 | For a filename without a slash, the file lands in a directory that save_file has just created, so the open finds its parent. |
| ResumeService.IngestionMetadata | Back-end/api/services/resume_service.py:49-53 | The metadata has exactly the keys user_id, source and uploaded_at, with the given values. |
| ResumeService.MergeIntoLoaded | Back-end/api/services/resume_service.py:54 | The documents after add_metadata are MergedAll of the loaded ones. |
| ResumeService.ProcessOutcome | Back-end/api/services/resume_service.py:32-86 | A load error propagates. An empty load, or a split with no chunks, gives None. A write that raises, or a collection check that raises, propagates its exception. Otherwise the result is the merged documents. |
| ResumeService.ProcessResume | Back-end/api/services/resume_service.py:32-86 | Returns exactly ProcessOutcome. A load error or an empty load creates no row and stores nothing. Otherwise one row (user, basename, utcnow) is inserted under a fresh id, and nextId grows by one. If the split yields no chunks, nothing is stored. Otherwise exactly one write of the annotated chunks goes to "resume_<user_id>". |
| ResumeService.Sections | Back-end/api/services/resume_service.py:115-118 | Section i is "Resume Section <i+1>:\n" followed by chunk i's text, one per chunk. |
| ResumeService.SectionContextOrder | Back-end/api/services/resume_service.py:115-118 | At every boundary the context is the earlier sections, a blank line, then the later ones. The part after boundary i starts with section i+1, so retrieval order is kept. |
| ResumeService.SectionContext | Back-end/api/services/resume_service.py:115-118 | No chunks give the empty context. Otherwise the context opens with "Resume Section 1:\n" and the first chunk. |
| ResumeService.AskBasedOnResume | Back-end/api/services/resume_service.py:89-124 | Every case is stated. A lookup error propagates, and a None handle gives HTTP 404 "Resume not found for this user.". For a store object, the k = 5 search of "resume_<user_id>" decides: its error propagates, an empty result gives the fixed answer with no sources, and otherwise the result is the question, the sectioned context and the retrieved chunks. Conversely, success needs a store object and a successful search. |
| ResumeService.AskReadsOnlyOwnStore | Back-end/api/services/resume_service.py:98-104 | The answer depends only on the user's own collection name and the k = 5 request for the question. |
| RagService.BuildSystemPrompt | Back-end/api/services/rag_service.py:20-35 | The system prompt is the role line, then the instructions, then the closing reminder "Always ensure that your answers are grounded in the resume context provided.". |
| RagService.BuildHumanPrompt | Back-end/api/services/rag_service.py:37-38 | The human prompt opens with "Here is the resume context:\n\n" and the context, and ends with "\n\nUser's question: " and the question. |
| RagService.HumanPromptLayout | Back-end/api/services/rag_service.py:37-38 | The human prompt is the header, the context, the question marker and the question, at fixed offsets. The context comes before the question. |
| RagService.HumanPromptInjective | Back-end/api/services/rag_service.py:37-38 | For contexts of equal length, equal prompts mean equal context and question. |
| RagService.AskModelMessages | Back-end/api/services/rag_service.py:41-47 | Two messages: the system prompt as a system message, then the human prompt of the given context and question as a human message. |
| RagService.AskModel | Back-end/api/services/rag_service.py:40-48 | The response is the model's answer to exactly that two-message list. |
| RagService.AskModelSendsTwoMessages | Back-end/api/services/rag_service.py:40-47 | Exactly two messages are sent: the constant system prompt, then the human prompt of exactly the given context and question. The reply depends on the model's answer to that list only. |
| ResumeRoutes.UploadGate | Back-end/api/routes/Resume.py:31-37 | Accepts exactly when the lower-cased splitext extension is ".pdf", ".docx" or ".html". Otherwise it gives HTTP 400 with the route's detail text. |
| ResumeRoutes.LeadingDotNameRejected | Back-end/api/routes/Resume.py:31-33 | A name such as ".pdf" has an empty extension and is rejected. |
| ResumeRoutes.LoaderVerdictForDotted | Back-end/api/utils/document_processing_service.py:12-19 | A path ending in ".ext" (with no dot in ext) loads exactly when ".ext" is one of the three lower-case extensions. |
| ResumeRoutes.DottedUploadVerdicts | Back-end/api/routes/Resume.py:32-33 | For an upload "stem.ext", the gate decides on lower(".ext"). The loader of the saved file decides on ".ext" as written. |
| ResumeRoutes.CaseMismatchNeverLoads | Back-end/api/routes/Resume.py:32-48 | An upload "stem.ext" whose extension is whitelisted only once lower-cased passes the gate, yet loading its saved file fails with "Unsupported file type: <path>". |
| ResumeRoutes.UpperCaseCvPdfNeverLoads | Back-end/api/routes/Resume.py:32-48 | An upload named "CV.PDF" passes the gate, and loading its saved file fails with "Unsupported file type: <path>". |
| ResumeRoutes.SaveAndIngest | Back-end/api/routes/Resume.py:44-53 | The user folder is always created. If the open finds no parent directory (a name with a slash into a missing directory), save_file's error "No such file or directory: <path>" propagates before the try. Files, table and store are then unchanged. Otherwise the process runs and the saved file is removed in the finally. The result succeeds exactly when ProcessOutcome does, and otherwise carries its exception. The row (with the saved file's basename), nextId and the store write are those of process_resume. A name without a slash always reaches processing, and its row records "<uuid>_<filename>". |
| ResumeRoutes.UploadResume | Back-end/api/routes/Resume.py:26-55 | A rejected extension gives HTTP 400 before the user is resolved, and disk, table and store are unchanged. An unresolved user also changes nothing. Otherwise the user folder is created. If the open finds no parent directory, its error propagates and files, table and store are unchanged. Otherwise the saved file is removed. Success is exactly ProcessOutcome's success, and an exception from processing (load, store write or collection check) propagates. The row, nextId and store write are those of process_resume. The message is "Resume uploaded successfully, file name: <filename>" even when processing stored nothing. |
| ResumeRoutes.Contents | Back-end/api/routes/Resume.py:226 | One text per retrieved chunk, in retrieval order. |
| ResumeRoutes.RetrievedContextOrder | Back-end/api/routes/Resume.py:226 | The context is the chunk texts in retrieval order, each pair separated by "\n\n". |
| ResumeRoutes.RetrievedContext | Back-end/api/routes/Resume.py:226 | No chunks give "". Otherwise the context opens with the first chunk's text. With one chunk it is exactly that text. |
| ResumeRoutes.FinalPrompt | Back-end/api/routes/Resume.py:250-269 | The final prompt opens with the route's instructions, "\n\nResume Context:\n" and the context, and ends with "\n\nUser Question: " and the question. |
| ResumeRoutes.FinalPromptLayout | Back-end/api/routes/Resume.py:250-269 | The final prompt is the instructions, "\n\nResume Context:\n", the context, "\n\nUser Question: " and the question, in that order and at fixed offsets. |
| ResumeRoutes.RouteMessages | Back-end/api/routes/Resume.py:273 | Exactly one message is sent, and it is a human message: there is no system message. |
| ResumeRoutes.RouteMessagesCarryFinalPrompt | Back-end/api/routes/Resume.py:226-273 | That one message is the final prompt over the retrieved chunks and the question. It opens with the route's instructions, "\n\nResume Context:\n" and the joined chunk texts, and ends with "\n\nUser Question: " and the question. |
| ResumeRoutes.AskFailure | Back-end/api/routes/Resume.py:288-292 | The error result for an exception is "Failed to answer question: " followed by str(e). |
| ResumeRoutes.AnswerFromStore | Back-end/api/routes/Resume.py:216-286 | With the store open: a search error gives the failure message, an empty search gives "no relevant documents" for the user, and otherwise the model's error gives the failure message and its reply gives the answer. |
| ResumeRoutes.AskResume | Back-end/api/routes/Resume.py:196-292 | An exception from the user lookup or the store lookup becomes "Failed to answer question: <str(e)>", and so does the AttributeError of a None store. Nothing propagates. With the store object open, the result is that of the k = 3 search and the model call. |
| ResumeRoutes.AskResumeWithStore | Back-end/api/routes/Resume.py:213-292 | With the store open, every case is stated. A search error or a model error becomes "Failed to answer question: <str(e)>". An empty search gives "no relevant documents" for the user. Otherwise the answer is the model's reply to the single human message holding the final prompt. |
| ResumeRoutes.AskResumeConverse | Back-end/api/routes/Resume.py:196-292 | Every error result starts with "Failed to answer question: ". A non-error result comes from the user's own store object and a successful k = 3 search. It is "no relevant documents" exactly when that search is empty, and otherwise the model's reply to the final prompt. |
| ResumeRoutes.EmptyRetrievalSkipsModel | Back-end/api/routes/Resume.py:218-223 | On an empty retrieval the result is the "no relevant documents" error for the user, whatever the model. |
| ResumeRoutes.AnswerUsesAtMostThreeChunks | Back-end/api/routes/Resume.py:213-216 | With a store that honours k, an answer rests on 1 to 3 chunks of "resume_<user_id>". |
| ResumeRoutes.Ask2Body | Back-end/api/routes/Resume.py:133-180 | Every case is stated, in the code's order. An exception from the user lookup, the store lookup or the model propagates. A None store with a model that answers fails with the AttributeError of similarity_search. For a store object, a search error propagates, an empty search gives "no documents", and otherwise the result is the number of chunks found. |
| ResumeRoutes.Ask2Messages | Back-end/api/routes/Resume.py:145-147 | Two messages: the route's system prompt as a system message, then the bare question as a human message. |
| ResumeRoutes.Ask | Back-end/api/routes/Resume.py:182-194 | A ValueError becomes "Collection not found: <msg>" with the suggestion "Upload a resume first". Any other exception becomes "Error: <str(e)>" with the question. |
| ResumeRoutes.Ask2IgnoresModelReply | Back-end/api/routes/Resume.py:149-180 | The model's reply never reaches the result. |
| ResumeRoutes.Ask2NoneStoreIsGenericError | Back-end/api/routes/Resume.py:152-192 | A None store fails in similarity_search with an AttributeError. That maps to "Error: ...", not to "Collection not found". |
| ResumeRoutes.Ask2StoreValueErrorIsMissingCollection | Back-end/api/routes/Resume.py:140-187 | A ValueError from opening the store is reported as "Collection not found: <msg>". |
| Middleware.BearerToken | Back-end/api/core/middlewares.py:34 | The token is the second space-separated field: no space in it, a prefix of the text after "Bearer ", and ended by a space or the end. |
| Middleware.Dispatch | Back-end/api/core/middlewares.py:20-39 | A public path goes to call_next. A missing header, or one without the prefix "Bearer ", gives 401 "Missing or invalid Authorization header". Otherwise the decode outcome decides: pass, a JSON error with the HTTPException's status and detail, or any other exception escaping. |
| Middleware.PublicPathIgnoresHeader | Back-end/api/core/middlewares.py:22-24 | On a public path, neither the header nor the decoder affects the result. |
| Middleware.PassesExactlyWhenAuthorized | Back-end/api/core/middlewares.py:22-39 | call_next is reached exactly when the path is public or the Bearer token decodes. |
| Middleware.TrailingSlashIsNotPublic | Back-end/api/core/middlewares.py:6-14 | "/docs/" and "/authentication/login/" are not public, and an unauthenticated "/docs/" gets 401. |
| Middleware.LowerCaseBearerRejected | Back-end/api/core/middlewares.py:28 | A "bearer " header on a protected path gets 401. |
| Middleware.TokenIsSecondField | Back-end/api/core/middlewares.py:34 | "Bearer a b" yields "a" and "Bearer  a" yields "". |
| JwtService.Expiry | Back-end/api/services/jwt_service.py:23-26 | A non-zero delta gives now + delta. No delta, or a zero one, gives now + 900 seconds. |
| JwtService.EncodedPayload | Back-end/api/services/jwt_service.py:21-27 | The payload's keys are data's keys plus "exp", "exp" holds the expiry, and every other entry is data's. |
| JwtService.CreateAccessToken | Back-end/api/services/jwt_service.py:20-29 | token_type is "bearer", and access_token is the encoding of the payload. |
| JwtService.ZeroDeltaMeansDefault | Back-end/api/services/jwt_service.py:23-26 | A zero delta produces the same token as no delta. |
| JwtService.PayloadOnlyAddsExpiry | Back-end/api/services/jwt_service.py:21-27 | For data without "exp", removing "exp" from the payload gives back data. |
| AuthenticationService.GetUser | Back-end/api/services/authentication_service.py:46-52 | None exactly when no row has the email; otherwise that row. |
| AuthenticationService.AuthenticateUser | Back-end/api/services/authentication_service.py:18-24 | Returns a user exactly when the email exists and the password verifies against its hash, and then it is that user. |
| AuthenticationService.NewUserRow | Back-end/api/services/authentication_service.py:29-30 | The stored row copies every field except the password, and stores hash(password) instead. |
| AuthenticationService.UserRepository.CreateUser | Back-end/api/services/authentication_service.py:28-41 | A registered email gives 400 "Email already registered" and leaves the table unchanged. Otherwise the new row is added under its email and its password-free view is returned. |
| AuthenticationService.RegisteredUserAuthenticates | Back-end/api/services/authentication_service.py:18-41 | After registration, logging in with the same password succeeds exactly when verify accepts the password against its own hash. |
| AuthenticationService.AuthenticatedUserHasEmail | Back-end/api/services/authentication_service.py:18-24 | In a table keyed by email, the user that authenticates has exactly the email given. |
| AuthenticationService.RegistrationKeepsTableKeyed | Back-end/api/services/authentication_service.py:28-41 | Registering a new email keeps the table keyed by email. |
| ResumeRepository.AssignAllEffect | Back-end/api/repositories/resume_repository.py:38-39 | After the assignments, each column holds the value of its last assignment, or keeps its value if it is never assigned. The id never changes. |
| ResumeRepository.ResumeTable.CreateResume | Back-end/api/repositories/resume_repository.py:8-13 | Inserts the row under a fresh id and returns it. get_resume_by_id on that id then returns it. |
| ResumeRepository.ResumeTable.GetResumeById | Back-end/api/repositories/resume_repository.py:15-16 | None exactly when no row has the id; otherwise that row. |
| ResumeRepository.ResumeTable.GetAllResumes | Back-end/api/repositories/resume_repository.py:18-19 | Exactly the stored rows. |
| ResumeRepository.ResumeTable.GetResumesByUserId | Back-end/api/repositories/resume_repository.py:21-22 | Exactly the stored rows whose user_id is the given one. |
| ResumeRepository.ResumeTable.DeleteResume | Back-end/api/repositories/resume_repository.py:24-30 | Removes exactly that row. An absent id gives ValueError "Resume not found" and leaves the table unchanged. |
| ResumeRepository.ResumeTable.UpdateResume | Back-end/api/repositories/resume_repository.py:33-43 | An absent id gives ValueError "Resume not found". Otherwise all assignments are applied in order to that row alone, and the updated row is returned. |
| OsPath.SplitExt | Back-end/api/services/resume_service.py:17 | The two parts concatenate back to the path. A non-empty extension starts with its only dot, contains no slash, and is preceded in the last path component by something other than dots. Conversely, the extension is empty only when every dot of the last component has only dots before it in that component. |
| OsPath.NoExtensionForLeadingDotName | Back-end/api/routes/Resume.py:32 | A name made of a dot and letters has an empty extension. |
| OsPath.SplitAtInsertedSlash | Back-end/api/services/resume_service.py:51 | For a joined "<dir>/<name>" with a slash-free name, basename is the name and dirname is the dir. |

## Left out

- Library internals: what the PDF, DOCX and HTML loaders extract, and how `RecursiveCharacterTextSplitter` cuts text. Both are opaque parameters, so no chunk length or overlap bound is claimed.
- Vector store internals: what `store_documents` does to an existing collection; `get_vector_store`, `similarity_search` and `debug_collection`. These are called but not defined in the repository's files. Reads are parameters, and writes are a log with an accept-or-raise outcome. What a write that raised leaves in the collection is not modelled: the log records the request. The report `debug_collection` returns is only printed, so only whether it raises is modelled.
- The chat model, embeddings and the construction of the `ChatGoogleGenerativeAI` client. These are network calls; a model is a parameter. A failure constructing the `/resume/ask2` client happens outside its `try`, and it is not modelled.
- bcrypt and `jwt.encode`: parameters. `decode_jwt` appears only as the decoder parameter of the middleware, because it is not defined in jwt_service.py.
- `get_current_user`: a parameter from token to user id, because it is not defined in jwt_service.py.
- The clock, `uuid.uuid4()` and file contents are parameters. A loader takes only its kind and the path and ignores the disk state, so no contract says that the loaded documents come from the bytes `save_file` wrote. Time in the JWT is whole seconds. Timestamps elsewhere are strings.
- `ResumeService.ExtensionAllowed`: `lower()` is modelled for ASCII letters only. No other character can turn an extension into ".pdf", ".docx" or ".html".
- `AuthenticationService.UserRepository.CreateUser`: Pydantic validation and SQLAlchemy defaults (`disabled`, `created_at`) are not modelled. The table is keyed by its unique email. The `username` column is unique too, so a fresh email with a username already in the table makes `commit` raise an IntegrityError. That failure is not modelled: the model adds the row and returns success.
- `ResumeRepository.ResumeTable.CreateResume`: the database's autoincrement is a counter `nextId`. Commit and refresh have no effect of their own.
- `ResumeRepository.ResumeTable.UpdateResume`: `updated_data` is a list of assignments to the three non-key columns. Setting `id` or an attribute that is not a column is not modelled.
- `Effects.Disk.WriteFile`: only a missing parent directory makes `open` fail, and its message is approximated. Permissions, a full disk and a path naming a directory are not modelled.
- `Effects.Disk.DirsOf`: `makedirs` raising because a file is in the way is not modelled.
- `DocumentProcessing.AddMetadata`: documents are values in an array. Two list entries being one shared Python object, and loader output aliasing the caller's list, are not modelled.
- `Middleware.Dispatch`: the `WWW-Authenticate` header of the 401 is dropped. `JSONResponse` does not carry the exception's headers, so the response has none.
- HTTP status codes of route results: FastAPI's status 201 for upload and the serialisation of dictionaries are not modelled. The models are result datatypes with the same fields.
- The commented-out `/resume/ask` and `/resume/debug` endpoints, the `index_document_to_chroma` stub, and all `print` logging.
- The default question "What is the user's name?" of `/resume/ask2`: query-parameter defaulting is FastAPI's. The model always takes the question as given.
- `user_repository.py`: folded into the user table map.


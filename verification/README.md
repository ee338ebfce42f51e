# Dream interpreter session memory, in Dafny

The repository is a dream-interpretation service. It interprets a dream text
with a language model, falling back to a fixed offline text. It keeps every
interpretation as a *session* with a list of follow-up questions and answers,
and feeds a compacted JSON view of a user's recent sessions back to the model
as context. Sessions live in a MongoDB collection when one is configured, and
otherwise in a process-wide local list `MEM["sessions"]`, persisted to a JSON
file.

This project models that session memory and the logic built on it:

- **Session records and order** (`sessions.dfy`, module `Sessions`):
  - sessions are records;
  - recency is Python's string order on `created_at`;
  - sorting is a newest-first insertion sort (its body keeps equal keys in input order, as Python's `sorted` does, but its contract states only the order and the permutation);
  - also the linear lookup by id and the follow-up history renderer `_historial_followup_texto`.
- **Local store** (`local_store.dfy`, module `LocalMemory`): the class `LocalStore` holds `MEM["sessions"]` as a `seq`. Its methods mirror:
  - `_crear_sesion`;
  - `_buscar_sesion`;
  - `_agregar_followup`;
  - `_resumen_ultimas_sesiones`;
  - `_memoria_json_compacta`;
  - the owner-tagging loop of `/interpret-file`.

  Each method is proved against a function on the old store.
- **Context compactor** (`compactor.dfy`, module `Compactor`):
  - trimming each session to six fields and its last follow-ups;
  - the character budget: pretty, else compact, else cut, right-strip and "…";
  - the `except` payload.
- **Mongo helpers** (`mongo.dfy`, module `MongoStore`): the `database.py` helpers over a collection class holding documents in insertion order:
  - create, get, list, follow-up push, delete and user creation;
  - the user-scoped compactor `_memoria_json_compacta_user`.
- **Text helpers**:
  - `offline.dfy`: the offline interpretation;
  - `summary.dfy`: `resumen_corto` and `extraer_bloque_por_titulo`;
  - `output_file.dfy`: the output filename rule of `guardar_interpretacion`;
  - `pytext.dfy`: the Python string semantics these need, such as `strip`, `find`, `splitlines`, `join`, negative slices and `lower`.
- **Interpretation outcome rule** (`interpretation.dfy`):
  - the normalisation cascade over the shapes of a model answer;
  - the offline fallback;
  - the service entry point `interpret_dream_with_context`.
- **Routes**:
  - `session_routes.dfy`: the limit clamp, the 404/403 ownership checks, the follow-up checks and error classes 400/403/404/502/503/504, the follow-up persistence chain, and deletion from Mongo or from the local file;
  - `dream_routes.dfy`: `/interpret-text` and `/interpret-file`, covering validation, the offline branch, saving, titles and the session-create fallback chains.

Everything outside the routes is a parameter. That includes:

- the model's answer (an `Outcome`), the title service's answer and the `json.dumps` encoders;
- whether a file write or a database call fails;
- the generated ids and the clock.

Some of the code's behaviour is easy to misread from its names and docstrings. The model follows the code:

- The local branch of `_memoria_json_compacta_user` always filters on `user_id == caller`, an empty caller included. Local sessions created by `_crear_sesion` have no `user_id`, so they never reach the context (`MongoStore.UnownedSessionsIgnored`).
- `/sessions` without Mongo lists the most recent local sessions of every owner, although its docstring (routes/session_routes.py:30) speaks of the current user's sessions (`SessionRoutes.LocalListingIgnoresOwner`).
- Deleting someone else's session through Mongo answers 404, not 403. The query matches id and owner together.
- `/interpret-file` does not fall back to the local store when a Mongo collection is configured and the insert fails. It answers with no session id.
- The local deletion reads the key "sesiones" while the store writes "sessions". A file the store wrote therefore answers 404 (`SessionRoutes.DeleteIgnoresSessionsKey`).
- The user-scoped local branch slices with `[:max_sessions]` without `max(0, …)`, so a negative limit drops sessions from the end (`MongoStore.LocalNegativeLimit`). The Mongo branch asks for `max(1, max_sessions)` (`MongoStore.MongoAsksAtLeastOne`).

## Model

| member | source | states |
|---|---|---|
| Sessions.SortNewestFirst | reporte6_BernardoBojalil.py:151 | the sorted list is newest first by `created_at` and is a permutation of the input |
| Sessions.Recent | reporte6_BernardoBojalil.py:189 | the first `max(0, n)` sorted sessions: exactly `min(max(0, n), len)` of them, newest first, drawn from the store |
| Sessions.RecentIsNewest | reporte6_BernardoBojalil.py:189 | the kept and the dropped sessions together are the store, and no dropped session is newer than a kept one |
| Sessions.SortedPrefixComplete | reporte6_BernardoBojalil.py:189 | a session that a prefix of the newest-first order leaves out (or leaves out a copy of) is no newer than any it keeps |
| Sessions.RecentComplete | reporte6_BernardoBojalil.py:189 | a session `Recent` leaves out (or leaves out a copy of) is no newer than any it keeps |
| Sessions.Filter | database.py:187 | every kept session satisfies the condition, every satisfying session is kept, and nothing else is added |
| Sessions.FilterMultiset | database.py:187 | each session satisfying the condition is kept as many times as it occurs, any other not at all |
| Sessions.FilterConcat | database.py:187 | filtering keeps the order: the kept sessions of a first part come before those of a second |
| Sessions.FilterSnoc | routes/session_routes.py:98-104 | scanning one more session appends it exactly when it is kept |
| Sessions.FirstWhere | reporte6_BernardoBojalil.py:123-126 | the index of the first matching session, or none exactly when no session matches |
| Sessions.Lookup | reporte6_BernardoBojalil.py:122-126 | `_buscar_sesion` finds nothing exactly when no session has the id; otherwise the first session in store order that has it |
| Sessions.RetainedFollowups | reporte6_BernardoBojalil.py:140 | `[-max_items:]`: the last `max_items` for a positive value, the whole list for 0, all but the first `-max_items` for a negative value |
| Sessions.Blocks | reporte6_BernardoBojalil.py:143-145 | one "Q: …\nA: …" block per retained follow-up, in append order |
| Sessions.Block | reporte6_BernardoBojalil.py:145 | the block starts with "Q: " and the question, ends with "\nA: " and the answer, and holds nothing else |
| Sessions.HistorialTexto | reporte6_BernardoBojalil.py:139-146 | "(sin historial)" exactly when no follow-up is retained; otherwise the retained blocks joined with newlines, opening with the first and closing with the last |
| Sessions.HistorialAppend | reporte6_BernardoBojalil.py:139-146 | with `max_items == 0`, recording one more follow-up adds its block on a new line after the old history, or replaces the placeholder |
| PyText.JoinSnoc | reporte6_BernardoBojalil.py:146 | joining one more part appends the separator and that part to the join of the others |
| PyText.Join | reporte6_BernardoBojalil.py:146 | `sep.join(parts)`: empty for no parts; otherwise starts with the first part and ends with the last |
| PyText.Strip | reporte6_BernardoBojalil.py:389 | `strip()`: no space at either end, empty exactly when the text is blank, never longer |
| PyText.StripTrailingSpace | reporte6_BernardoBojalil.py:438 | a trailing space does not change what `strip()` gives |
| PyText.LStripSnoc | reporte6_BernardoBojalil.py:438 | a space after a non-blank text survives `lstrip()` as its last character |
| PyText.SplitLines | reporte6_BernardoBojalil.py:436 | `splitlines()`: no lines exactly for the empty text; the first line runs up to the first line break; no line holds a line break |
| PyText.SplitLinesNewline | reporte6_BernardoBojalil.py:436 | at a "\n", the lines are the first line followed by the lines of the rest |
| PyText.JoinSplitLines | reporte6_BernardoBojalil.py:436-438 | when every line break is "\n", joining the lines with "\n" gives the text back, less a final "\n" |
| PyText.StripLinesAfterBreak | reporte6_BernardoBojalil.py:436-438 | the lines after the first, joined with "\n" and stripped, are the text after the first line break, stripped |
| PyText.Lower | reporte6_BernardoBojalil.py:380 | `lower()`: same length, no ASCII capital left, and every character that is not an ASCII or Latin-1 capital unchanged |
| PyText.Find | reporte6_BernardoBojalil.py:380 | `find()`: -1 exactly when the substring does not occur, otherwise its first occurrence |
| PyText.PyTo | reporte6_BernardoBojalil.py:189 | `s[:j]`: a prefix of `min(j, len)` items for `j >= 0`, of `max(0, len + j)` items for negative `j` |
| PyText.PyFrom | reporte6_BernardoBojalil.py:140 | `s[i:]`: a suffix of `len - min(i, len)` items for `i >= 0`, of `min(-i, len)` items for negative `i` |
| Summary.BuscarSeccion | reporte6_BernardoBojalil.py:379-381 | -1 exactly when the lower-cased heading does not occur; otherwise the first position where it does |
| Summary.MinValidCut | reporte6_BernardoBojalil.py:404-405 | the least cut other than -1 and 0, or none exactly when every cut is -1 or 0 |
| Summary.Limit | reporte6_BernardoBojalil.py:405 | the block end lies within the text after the heading |
| Summary.Cuts | reporte6_BernardoBojalil.py:398-403 | one position per heading, each -1 or inside the block text |
| Summary.LimitIsBlockEnd | reporte6_BernardoBojalil.py:398-405 | `limite` is where the block ends: at the nearest place after its start where a heading not found at the start occurs, or at the end of the text |
| Summary.FirstAtFound | reporte6_BernardoBojalil.py:379-381 | the first case-insensitive occurrence of a heading is what `_buscar_seccion` reports |
| Summary.SectionBlockEnds | reporte6_BernardoBojalil.py:397-406 | the block `sub[:limite]` runs from the heading to where the block ends |
| Summary.FirstParagraph | reporte6_BernardoBojalil.py:409-410 | a prefix of the text with no blank line in it that ends at the first blank line, or the whole text when there is none |
| Summary.Candidate | reporte6_BernardoBojalil.py:389-410 | the summary block or first paragraph is stripped and no longer than the text |
| Summary.CandidateSection | reporte6_BernardoBojalil.py:392-406 | with a "Resumen simbólico" heading, else a "Resumen" one, the stripped block from its first occurrence to where the block ends |
| Summary.CandidateParagraph | reporte6_BernardoBojalil.py:408-410 | with no "Resumen" heading, the stripped first paragraph |
| Summary.ResumenCorto | reporte6_BernardoBojalil.py:383-415 | "(sin contenido)" for empty text; at most `max_len` characters; an uncut candidate is returned as it is; a cut one is `candidate[:max_len-1]` right-stripped, then "…": a prefix of `candidate[:max_len-1]` that ends in a non-space, with only spaces of the candidate between its end and `max_len-1` |
| Summary.DropHeadingLine | reporte6_BernardoBojalil.py:436-438 | the block is returned unchanged when it is empty or its lower-cased first line lacks "interpretación general"; a stripped block stays stripped |
| Summary.DropHeadingLineCut | reporte6_BernardoBojalil.py:435-438 | with the heading in the first line and every line break a "\n", the result is the text after the first line break, stripped, or empty for a one-line block |
| Summary.ExtraerBloque | reporte6_BernardoBojalil.py:417-439 | None for empty text or an absent title; a block that is found is non-empty and stripped |
| Summary.ExtraerBloqueSection | reporte6_BernardoBojalil.py:417-439 | when the title occurs, the stripped text from its first occurrence to where the block ends, less an "Interpretación general" heading line; None when that is empty |
| Summary.ResumenInterpretacion | reporte6_BernardoBojalil.py:106 | the "Interpretación general" block when there is one, else `resumen_corto(interpretacion, 240)`: non-empty in the first case, at most 240 characters in the second, "(sin contenido)" for an empty interpretation |
| OutputFile.ExtStart | reporte6_BernardoBojalil.py:338 | the extension starts at the last dot, after the last '/', when some non-dot character lies between them; otherwise there is no extension |
| OutputFile.SplitExt | reporte6_BernardoBojalil.py:338 | `splitext`: base + extension is the path; the extension is non-empty exactly when there is an extension start, and is then one dot followed by no dot and no '/' |
| OutputFile.DotfileHasNoExt | reporte6_BernardoBojalil.py:338 | a file name that starts with its only dot, such as ".bashrc", has no extension in any directory |
| OutputFile.OutputExt | reporte6_BernardoBojalil.py:339 | the input's extension when it has one, ".txt" when it has none; always starts with its only dot |
| OutputFile.OutputPath | reporte6_BernardoBojalil.py:338-339 | the output name starts with the input's base and ends with "_interpretado" plus the kept extension |
| OutputFile.OutputPathSplits | reporte6_BernardoBojalil.py:338-339 | splitting the output name gives back the input's base with "_interpretado" and the kept extension |
| OutputFile.GuardarInterpretacion | reporte6_BernardoBojalil.py:334-355 | nothing is written for a blank interpretation or a failed write; otherwise the stripped interpretation, non-empty, is written to the output name |
| Offline.Excerpt | reporte6_BernardoBojalil.py:360-362 | "(sin descripción)" for a blank dream; otherwise the first line of the stripped dream, cut to 120 characters, with no line break |
| Offline.OfflineHasHeadings | reporte6_BernardoBojalil.py:363-372 | the text opens with the summary heading and contains the other three section headings |
| Offline.OfflineTheme | reporte6_BernardoBojalil.py:365 | the summary phrase is the forest one exactly when the lower-cased dream contains "bosque" |
| Offline.OfflineGrief | reporte6_BernardoBojalil.py:370 | the general section carries the grief clause exactly when the lower-cased dream contains "llor" |
| Offline.OfflineEnding | reporte6_BernardoBojalil.py:361-374 | the text ends with the excerpt line, followed by the context line exactly when the stripped context is non-empty |
| Offline.OfflineNeverBlank | reporte6_BernardoBojalil.py:358-375 | the offline text is never blank, whatever the input |
| Offline.InterpretOffline | reporte6_BernardoBojalil.py:358-375 | no contract of its own: its text is stated by `OfflineHasHeadings`, `OfflineTheme`, `OfflineGrief`, `OfflineEnding` and `OfflineNeverBlank` |
| LocalMemory.NewLocalSession | reporte6_BernardoBojalil.py:104-117 | the new record has the given id, time and fields, no owner, no title, no follow-ups, and the derived summary |
| LocalMemory.WithFollowup | reporte6_BernardoBojalil.py:128-136 | the first session with the id gains the follow-up at its end and every other session is unchanged; no match leaves the store as it was |
| LocalMemory.WithFollowupAppendOnly | reporte6_BernardoBojalil.py:128-136 | follow-ups only grow, ids never change, and the total number of follow-ups grows by one exactly when the id is stored |
| LocalMemory.WithOwner | routes/dream_routes.py:139-142 | only the first session with the id changes, and only in its `user_id` |
| LocalMemory.SummaryOf | reporte6_BernardoBojalil.py:154-160 | a listing entry copies the id, time, file name and output file and strips the stored summary |
| LocalMemory.RecentSummaries | reporte6_BernardoBojalil.py:148-162 | the listing has `min(max(0, n), len)` entries |
| LocalMemory.RecentSummariesSound | reporte6_BernardoBojalil.py:148-162 | at most `max(0, n)` entries, newest first, each the summary of a stored session |
| LocalMemory.LocalStore.constructor | reporte6_BernardoBojalil.py:89 | the store starts empty |
| LocalMemory.LocalStore.CrearSesion | reporte6_BernardoBojalil.py:104-120 | exactly one new record is appended, and its id is returned |
| LocalMemory.LocalStore.FindIndex | reporte6_BernardoBojalil.py:123-126 | the scan stops at the first session with the id |
| LocalMemory.LocalStore.BuscarSesion | reporte6_BernardoBojalil.py:122-126 | the scan returns what `Lookup` specifies |
| LocalMemory.LocalStore.AgregarFollowup | reporte6_BernardoBojalil.py:128-137 | the store becomes `WithFollowup` of the old store |
| LocalMemory.LocalStore.SetOwner | routes/dream_routes.py:139-142 | the tagging loop makes the store `WithOwner` of the old store |
| LocalMemory.LocalStore.ResumenUltimasSesiones | reporte6_BernardoBojalil.py:148-162 | the loop builds exactly `RecentSummaries` of the store |
| LocalMemory.LocalStore.MemoriaJsonCompacta | reporte6_BernardoBojalil.py:182-213 | the result is the budgeted serialisation of the local selection |
| Compactor.TrimFollowups | reporte6_BernardoBojalil.py:192-194 | the last `max_followups` follow-ups when it is positive, all of them otherwise |
| Compactor.Trim | reporte6_BernardoBojalil.py:192-202 | the entry copies the session's id, time, file, context and summary, and keeps a suffix of its follow-ups: `min(K, n)` of them for positive K, all otherwise |
| Compactor.TrimAll | reporte6_BernardoBojalil.py:190-202 | one trimmed entry per selected session, in order |
| Compactor.TrimAllSound | database.py:190-202 | each entry copies its session's five fields and keeps a suffix of its follow-ups: `min(K, n)` of them for positive K, all otherwise |
| Compactor.ErrorPayload | reporte6_BernardoBojalil.py:212-213 | the error payload opens with the fixed prefix and ends with the message and `"}` |
| Compactor.FitToBudget | reporte6_BernardoBojalil.py:204-211 | pretty if it fits, else compact if it fits, else a marked prefix of compact; within `max_chars` whenever `max_chars >= 1` |
| PyText.Marked | reporte6_BernardoBojalil.py:209 | `s[:n].rstrip() + "…"`: a prefix of `s[:n]` ending in a non-space, then "…"; only spaces are dropped below `n` |
| Compactor.Serialise | reporte6_BernardoBojalil.py:203-213 | an exception gives the error payload; otherwise the budget rule on the two encodings |
| Compactor.SerialiseBound | database.py:203-212 | with `max_chars >= 1` the result fits the budget unless it is the error payload of a raised encoding |
| Compactor.LocalSelectionSound | reporte6_BernardoBojalil.py:188-202 | `min(max(0, max_sessions), len)` entries, newest first, each the trimmed form of a stored session |
| Compactor.TrimLoop | reporte6_BernardoBojalil.py:190-202 | the append loop builds exactly `TrimAll` |
| Compactor.LocalSelection | reporte6_BernardoBojalil.py:188-202 | `min(max(0, max_sessions), len)` entries (order and origin in `LocalSelectionSound`) |
| MongoStore.SessionCollection.constructor | database.py:45-50 | the collection holds the given documents |
| MongoStore.DocsOf | database.py:45-50 | no documents exactly when no collection is configured |
| MongoStore.MongoResumen | database.py:77-94 | the stored summary is stripped |
| MongoStore.NewMongoSession | database.py:83-96 | the document carries the given id, owner, title, time and fields, no follow-ups and a stripped summary |
| MongoStore.MongoCreateSession | database.py:61-101 | no collection or a failed insert gives None and changes nothing; otherwise exactly one document is appended and its id returned |
| MongoStore.MongoGetSession | database.py:104-116 | a found document has the id and, for a non-empty caller, the caller as owner; nothing found means no document matches |
| MongoStore.GetQuery | database.py:110-112 | no contract of its own: the id, plus the owner for a non-empty caller; `MongoGetSession` states what it matches |
| MongoStore.MongoListSessions | database.py:119-134 | None exactly without a collection or on a query failure |
| MongoStore.ListFilter | database.py:125-127 | every document for an empty caller; for a caller, exactly the caller's documents, drawn from the store |
| MongoStore.ListPage | database.py:128-131 | the same newest-first selection as the local store's `Recent`, with the limit raised to at least 1 |
| MongoStore.Project | database.py:130 | no contract of its own: keeps id, time, file, summary, output file and title; `MongoListSound` states that entry `i` is the projection of page document `i` |
| MongoStore.ProjectedSound | database.py:128-131 | projecting a newest-first page of the caller's stored documents keeps the order and lists only projections of such documents |
| MongoStore.ListPageSound | database.py:125-131 | the page is newest first and holds exactly `min(max(1, limit), n)` of the `n` matching stored documents |
| MongoStore.ListPageComplete | database.py:125-131 | a matching document the page leaves out (or leaves out a copy of) is no newer than any listed one |
| MongoStore.MongoListSound | database.py:119-134 | exactly `min(max(1, limit), n)` entries of the `n` matching documents, newest first, entry `i` the projection of page document `i` |
| MongoStore.MongoAddFollowup | database.py:137-155 | `$push` onto the first document with the id, whoever owns it; true exactly when such a document exists |
| MongoStore.DeleteFirst | database.py:164 | `delete_one` removes the first matching document and keeps the others in order |
| MongoStore.DeleteQuery | database.py:164 | no contract of its own: id and owner together; `DeleteFirstSound` states what it removes |
| MongoStore.MongoDeleteSession | database.py:158-167 | 0 without a collection or on failure; otherwise 1 exactly when a document matches both id and owner, and that one is removed |
| MongoStore.DeleteFirstSound | database.py:164-165 | one document fewer exactly when id and owner match; documents of other owners are untouched |
| MongoStore.UsersCollection.constructor | database.py:53-58 | the users collection holds the given documents |
| MongoStore.CreateUserMongo | database.py:216-236 | None with no insert when there is no collection, the email exists or the call fails; otherwise one user is appended and its id returned |
| MongoStore.CreateUserKeepsEmailsUnique | database.py:230-233 | inserting only unseen emails keeps emails unique |
| MongoStore.UserSessionsSound | database.py:174-188 | every selected session is the caller's, newest first; at most `max(1, max_sessions)` from Mongo and none when the query fails, at most `max_sessions` locally for a non-negative limit |
| MongoStore.UserSessionsCount | database.py:174-188 | exactly `min(max(1, max_sessions), n)` of the caller's `n` documents from Mongo, `min(max_sessions, n)` locally for a non-negative limit |
| MongoStore.UserSessionsComplete | database.py:174-188 | a session of the caller's that the selection leaves out (or leaves out a copy of) is no newer than any selected one |
| MongoStore.MongoAsksAtLeastOne | database.py:176-179 | with `max_sessions <= 0` and one matching document, the Mongo branch still selects one |
| MongoStore.LocalNegativeLimit | database.py:188 | a negative local limit keeps all but the last `-max_sessions` of the caller's sessions |
| MongoStore.UnownedSessionsIgnored | database.py:187 | a session without `user_id` is never selected |
| MongoStore.MemoriaJsonCompactaUser | database.py:170-212 | the result is the budgeted serialisation of the trimmed `UserSessions` |
| MongoStore.UserSessions | database.py:173-188 | none when the Mongo query fails; otherwise the collection's `Recent` selection of the caller's documents with the limit raised to at least 1, or locally the same selection with the given limit when it is non-negative |
| InterpretationRule.Normalize | services/interpretation_service.py:42-51 | a string as it is; else a non-blank string `content`; else a dict's `"text"`; else `str(res)` |
| InterpretationRule.RawInterpretation | services/interpretation_service.py:25-56 | empty without a chain or after a timeout or an error, else the normalised answer |
| InterpretationRule.Interpretation | services/interpretation_service.py:58-60 | never blank; the offline text exactly when the raw answer is blank, the raw answer otherwise |
| InterpretationRule.ErrorSlot | services/interpretation_service.py:62 | no error exactly when the interpretation is non-empty |
| InterpretationRule.FailureIsOffline | services/interpretation_service.py:25-60 | without a chain, or on a timeout or an error, the result is exactly the offline text |
| InterpretationRule.BlankAnswerIsOffline | services/interpretation_service.py:58-60 | a blank normalised answer is replaced by exactly the offline text |
| InterpretationRule.NoErrorSlot | services/interpretation_service.py:58-62 | the error slot is always None |
| InterpretationService.History | services/interpretation_service.py:27 | with a positive character budget the history fits it, unless an encoder raised and its error payload is sent instead |
| InterpretationService.InterpretDreamWithContext | services/interpretation_service.py:13-62 | the model gets the caller's compacted history with the configured limits; the result is the outcome rule applied to its answer, never blank, with no error |
| SessionRoutes.ClampLimit | routes/session_routes.py:31-34 | the limit lies in [1, 50], is kept when already there, and is 5 when it is not an integer |
| SessionRoutes.ClampLimitIdempotent | routes/session_routes.py:32 | clamping twice is clamping once |
| SessionRoutes.ListSessions | routes/session_routes.py:28-40 | Mongo's page when the query answers, else the local summaries, both with the clamped limit |
| SessionRoutes.ListSessionsSound | routes/session_routes.py:31-40 | a listing never exceeds the clamped limit, nor 50, and each Mongo entry is the projection of one of the caller's documents |
| SessionRoutes.LocalListingIgnoresOwner | routes/session_routes.py:37-40 | without Mongo the listing is the same for every caller |
| SessionRoutes.Resolve | routes/session_routes.py:48-50 | Mongo's answer when there is one, and there is one whenever the query succeeds on a matching document; else the local lookup; the session has the id |
| SessionRoutes.Access | routes/session_routes.py:51-56 | 404 exactly when nothing is found, 403 exactly when a non-empty owner differs from the caller, else the session |
| SessionRoutes.GetSession | routes/session_routes.py:43-57 | a returned session has the id, comes from one of the stores and is not someone else's; failures are 404 or 403 |
| SessionRoutes.GetSessionOwner | routes/session_routes.py:55-57 | a returned session has no owner or has the caller as owner |
| SessionRoutes.GetSessionLocal | routes/session_routes.py:48-57 | without Mongo: 404 for an unknown id, 403 for another owner's session, else the first local session with the id |
| SessionRoutes.MongoAnswerNotForbidden | routes/session_routes.py:48-56 | a document Mongo finds for a non-empty caller is always returned |
| SessionRoutes.FollowupAnswer | routes/session_routes.py:170-172 | a string as it is; else a non-empty `content`; else `str(resp)` |
| SessionRoutes.FollowupAnswerVsNormalize | routes/session_routes.py:170-172 | where the follow-up rule agrees with the interpretation rule, and the two shapes where they differ |
| SessionRoutes.FollowupCheck | routes/session_routes.py:129-145 | 404, then 403, then 400 for a blank question, then 503 without a chain; passes exactly when none applies |
| SessionRoutes.BuildFollowupPayload | routes/session_routes.py:148-161 | the payload carries the session's text, context, interpretation, the stripped question and the last five follow-ups as history |
| SessionRoutes.AnswerStep | routes/session_routes.py:163-176 | 504 exactly on a timeout, 502 with the message on an error, and the answer exactly when the chain returns |
| SessionRoutes.FollowupHandler | routes/session_routes.py:125-192 | a failure persists nothing; a success appends the follow-up to Mongo, falls back to the local store when Mongo modified nothing, and uses the local store directly without Mongo |
| SessionRoutes.ScanDelete | routes/session_routes.py:94-107 | 403 exactly when a session with the id has another owner, 404 exactly when no session has the id, else the sessions with other ids |
| SessionRoutes.ScanDeleteSound | routes/session_routes.py:98-109 | a successful scan removes every session with the id, keeps all the others in order, and shortens the list |
| SessionRoutes.ScanDeleteLoop | routes/session_routes.py:94-107 | the loop, with its early 403, computes exactly `ScanDelete` |
| SessionRoutes.LocalDelete | routes/session_routes.py:85-122 | no file gives 404, an unreadable file or a failed write gives 500, any failure leaves the file as it was, success rewrites "sesiones" only |
| SessionRoutes.DeleteIgnoresSessionsKey | routes/session_routes.py:94 | a file holding only the "sessions" key answers 404 and is left as it was |
| SessionRoutes.LocalDeleteSound | routes/session_routes.py:98-111 | a successful local delete filters "sesiones", shortens it, and keeps "sessions" as it was |
| SessionRoutes.DeleteSession | routes/session_routes.py:60-122 | with Mongo: success exactly when a document matches id and owner, else 404, and the file is untouched; without Mongo: the local deletion |
| DreamRoutes.SaveBase | routes/dream_routes.py:36 | the filename when it is not blank, else "sueño_api.txt" |
| DreamRoutes.Archivo | routes/dream_routes.py:43 | the filename when it is non-empty, else "(API)" |
| DreamRoutes.TitleOr | routes/dream_routes.py:69-71 | the generated title when it is non-empty, else "Sueño interpretado" |
| DreamRoutes.SavedPath | routes/dream_routes.py:37-40 | a path exactly when the interpretation is not blank and the write succeeds, and then the output name |
| DreamRoutes.Answer | routes/dream_routes.py:83-89 | the reply carries the interpretation, the saved path, the session id and the title |
| DreamRoutes.MongoDoc | routes/dream_routes.py:76 | the document is owned by the caller and titled |
| DreamRoutes.LocalDoc | routes/dream_routes.py:79 | the local fallback record has no owner |
| DreamRoutes.DraftText | routes/dream_routes.py:25-71 | offline when asked or forced, with the default title; else the service's text and the generated title; saved only when asked |
| DreamRoutes.DraftInterpretation | routes/dream_routes.py:31-58 | the offline text when offline mode is asked for or forced, else the service's answer to the text, context and caller's history |
| DreamRoutes.RecordText | routes/dream_routes.py:73-81 | Mongo's document when the insert gives an id, else the local record and its id |
| DreamRoutes.InterpretText | routes/dream_routes.py:22-89 | 400 for a blank text with nothing recorded; otherwise the draft's answer, recorded as `TextRecorded` says |
| DreamRoutes.AskFile | routes/dream_routes.py:106 | the file route asks the service for the file's text |
| DreamRoutes.DraftFile | routes/dream_routes.py:101-123 | the service's text, always saved, titled when the file is non-empty |
| DreamRoutes.RecordFile | routes/dream_routes.py:125-144 | Mongo only when configured, with no local fallback; else the local record, tagged with the caller when its id is non-empty |
| DreamRoutes.AnswerFile | routes/dream_routes.py:108-152 | 502 with nothing recorded for a blank interpretation; otherwise the recorded session and the answer |
| DreamRoutes.ServeFile | routes/dream_routes.py:105-152 | a readable file is answered and recorded as `FileServed` says |
| DreamRoutes.InterpretFile | routes/dream_routes.py:92-152 | 400 for a blank path or an unreadable file with nothing recorded; else the file is served |
| DreamRoutes.FreshIdTagged | routes/dream_routes.py:135-142 | a fresh id tags exactly the new session with the caller |
| DreamRoutes.TextFallbackNotInHistory | routes/dream_routes.py:79 | the local session `/interpret-text` creates never enters the caller's context |
| DreamRoutes.FileSessionOwned | routes/dream_routes.py:139-142 | the session `/interpret-file` tags passes the caller's owner filter |
| DreamRoutes.FileNeverBadGateway | routes/dream_routes.py:108-109 | the 502 branch is never taken, since the service's text is never blank |
| DreamRoutes.TextNeverBlank | routes/dream_routes.py:32-58 | `/interpret-text` never answers with a blank interpretation, offline or not |

## Left out

- The language model, the title service and the image service are not modelled. The model's answer is an `Outcome` parameter, the title an `Option<string>`, and chain construction only a "chain available" flag.
- The thread-pool timeout is concurrency; only its `Timeout` outcome is modelled.
- `json.dumps` is a library call. The pretty and compact encodings are function parameters that may raise; lengths count code points.
- The clock and `uuid4` are parameters.
- File I/O is not modelled:
  - `cargar_memoria`/`guardar_memoria` persisting the local store;
  - `leer_sueno` (its text is an `Option` parameter);
  - the write in `guardar_interpretacion` (a success flag);
  - the JSON file of the deletion route (a `LocalFile` value and a write flag).
- A partial write of the local file and concurrent writers on it are accepted limitations of the source, not modelled.
- Exceptions inside `_crear_sesion` and `_agregar_followup`, which the routes swallow, are not modelled: those calls always succeed here.
- MongoDB client plumbing (`_get_mongo_client`, its cache, connection errors) is not modelled. A collection is present or `null`, and each call's failure is a flag.
- `_mongo_create_session`'s `except` around the summary (summary `None`, stored as "") is not modelled: the summary functions are total here.
- Python's `str.lower`, used by the heading search and the two offline keyword rules, is exact here for ASCII and Latin-1 letters only. The full Unicode case mapping is not modelled.
- Request validation by Pydantic (`models.py`) is not modelled beyond its string stripping. Session fields are strings, and non-string JSON values are not modelled.
- `_mostrar_resumen_ultimos`, `ejecuta_tarea` and the command-line loop are console output, not modelled.
- Authentication, `auth_routes.py`, `media_routes.py`, `app.py` and `config.py` parsing are not modelled. The configuration defaults are `InterpretationRule.Defaults`.
- `construir_cadena_followup` and `construir_cadena_interprete` are not modelled: they build model chains.
- FollowupAnswer: a `content` attribute that is truthy but not a string (whose `str` would be the answer) is not modelled; `content` is a string or absent.
- Project: the listing also asks for `titulo`. Documents store the title under both `title` and `titulo` with one value (database.py:92-93), so the model keeps one field.
- SortNewestFirst: MongoDB leaves the order of documents with equal `created_at` unspecified. The model sorts both stores with one insertion sort, whose body keeps equal keys in input order as Python's `sorted` does. Its contract states only the newest-first order and the permutation; stability is not proved, so no lemma depends on the order of ties.
- DropHeadingLine: when the first line holds the heading, the result is stated as text (the stripped rest of the block after the first line break) only for blocks whose line breaks are all "\n", by `DropHeadingLineCut`. For "\r\n" and the other `splitlines` boundaries no ensures describes the result; the body joins the remaining lines with "\n" as the code does.
- DropHeadingLineCut: stated only for blocks whose line breaks are all "\n". With "\r\n" or another `splitlines` boundary, joining the lines with "\n" changes the text. `DropHeadingLine` itself follows the code for every boundary.
- ResumenCorto: the cut case is stated for `max_len >= 1` only; the callers pass 240. For smaller limits the body follows Python's negative slice, but no ensures describes that result.
- SplitExt: only the POSIX rules of `os.path.splitext` are modelled; Windows drive letters and '\\' separators are not.
- The deletion route reads and writes the fixed file "memoria_agente.json" rather than the configured `MEMORY_PATH`, and does not update the in-memory `MEM`; the model keeps that file as its own `LocalFile` value, apart from `LocalStore`.

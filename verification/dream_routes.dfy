/**
 * The interpretation routes (routes/dream_routes.py): `/interpret-text`
 * interprets a text (offline when asked or forced), optionally saves it,
 * and records a session in Mongo or, failing that, in the local store;
 * `/interpret-file` reads the dream from a file, always saves, and records
 * the session in Mongo when a collection is configured, else locally with
 * the caller as owner. What the outside world answers (the model, the
 * title service, the file system, the id generator, the clock, the
 * database) is gathered in a `World` value.
 */
module DreamRoutes {
  import opened Basics
  import opened PyText
  import opened Offline
  import opened OutputFile
  import opened Sessions
  import opened Compactor
  import opened LocalMemory
  import opened MongoStore
  import opened InterpretationRule
  import opened InterpretationService
  import opened SessionRoutes

  const TextRequired: string := "texto_sueno requerido"
  const PathRequired: string := "ruta requerida"
  const Unreadable: string := "No se pudo leer el archivo del sueño"
  const GenerationFailed: string := "No se pudo generar la interpretación. Revisa tu API key/red."
  const DefaultTitle: string := "Sueño interpretado"
  const DefaultSaveName: string := "sueño_api.txt"
  const ApiArchivo: string := "(API)"

  /** The answers of everything outside the routes. `invoke` is the model
      chain, `generatedTitle` what `generate_dream_title` returns, `writeOk`
      whether the output file can be written, `mongoId`/`localId` the ids
      the two stores would generate, `insertFails` whether the Mongo insert
      fails. */
  datatype World = World(
    chainAvailable: bool, invoke: Payload -> Outcome, queryFails: bool,
    pretty: seq<Trimmed> -> Encoded, compact: seq<Trimmed> -> Encoded,
    writeOk: bool, generatedTitle: Option<string>, mongoId: string, localId: string, now: string,
    insertFails: bool)

  /** The body of `/interpret-text`, as validated (the request model strips
      its strings). */
  datatype TextRequest = TextRequest(
    textoSueno: string, contexto: Option<string>, save: bool, filename: Option<string>, offline: Option<bool>)

  /** The body of `/interpret-file`. */
  datatype FileRequest = FileRequest(ruta: string, contexto: Option<string>)

  /** What both routes answer; `title` is sent under "title" and "titulo". */
  datatype Interpreted = Interpreted(
    interpretacion: string, rutaSalida: Option<string>, sesionId: Option<string>, title: string)

  /** A Python value is truthy: present and non-empty. */
  predicate Truthy(o: Option<string>) {
    o.Some? && o.value != []
  }

  /** `req.filename if (req.filename and req.filename.strip()) else "sueño_api.txt"` */
  function SaveBase(filename: Option<string>): (r: string)
    ensures filename.Some? && !IsBlank(filename.value) ==> r == filename.value
    ensures filename.None? || IsBlank(filename.value) ==> r == DefaultSaveName
    ensures !IsBlank(r)
  {
    if filename.Some? && filename.value != [] && Strip(filename.value) != [] then filename.value
    else
      assert DefaultSaveName[0] == 's';
      DefaultSaveName
  }

  /** `req.filename or "(API)"` */
  function Archivo(filename: Option<string>): (r: string)
    ensures Truthy(filename) ==> r == filename.value
    ensures !Truthy(filename) ==> r == ApiArchivo
    ensures r != []
  {
    if Truthy(filename) then filename.value else ApiArchivo
  }

  /** `titulo or "Sueño interpretado"` */
  function TitleOr(t: Option<string>): (r: string)
    ensures Truthy(t) ==> r == t.value
    ensures !Truthy(t) ==> r == DefaultTitle
    ensures r != []
  {
    if Truthy(t) then t.value else DefaultTitle
  }

  /** The path `guardar_interpretacion` returns, when it writes. */
  function SavedPath(ruta: string, interpretacion: string, writeOk: bool): (r: Option<string>)
    ensures r.Some? <==> !IsBlank(interpretacion) && writeOk
    ensures r.Some? ==> r.value == OutputPath(ruta)
  {
    match GuardarInterpretacion(ruta, interpretacion, writeOk)
    case None => None
    case Some(w) => Some(w.path)
  }

  /** What a route has computed before it records the session. */
  datatype Draft = Draft(
    archivo: string, texto: string, ctx: string, interp: string, ruta: Option<string>, user: string, titulo: string)

  /** What a route answers for a draft recorded under `sesionId`. */
  function Answer(d: Draft, sesionId: Option<string>): (r: Interpreted)
    ensures r.interpretacion == d.interp && r.rutaSalida == d.ruta && r.sesionId == sesionId && r.title == d.titulo
  {
    Interpreted(d.interp, d.ruta, sesionId, d.titulo)
  }

  /** The document `_mongo_create_session` would insert for a draft. */
  function MongoDoc(d: Draft, w: World): (r: Session)
    ensures r.id == w.mongoId && r.userId == Some(d.user) && r.title == Some(d.titulo)
    ensures r.interpretacion == d.interp && r.archivo == d.archivo && r.outputFile == d.ruta
  {
    NewMongoSession(d.archivo, d.texto, d.ctx, d.interp, d.ruta, Some(d.user), Some(d.titulo), w.mongoId, w.now)
  }

  /** The record `_crear_sesion` would append for a draft: no owner. */
  function LocalDoc(d: Draft, w: World): (r: Session)
    ensures r.id == w.localId && r.userId == None
    ensures r.interpretacion == d.interp && r.archivo == d.archivo && r.outputFile == d.ruta
  {
    NewLocalSession(d.archivo, d.texto, d.ctx, d.interp, d.ruta, w.localId, w.now)
  }

  /** `/interpret-text` answers offline when the request asks for it or
      the configuration forces it. */
  predicate WantsOffline(req: TextRequest, cfg: Config) {
    req.offline == Some(true) || cfg.forceOffline
  }

  /** The interpretation `/interpret-text` answers with: the offline text
      when offline mode is asked for or forced, else the service's. */
  function TextInterpretation(req: TextRequest, user: string, cfg: Config, w: World,
                              docs: Option<seq<Session>>, local: seq<Session>): string
  {
    if WantsOffline(req, cfg) then InterpretOffline(Strip(req.textoSueno), req.contexto.GetOr([]))
    else
      Interpretation(Strip(req.textoSueno), req.contexto.GetOr([]), w.chainAvailable,
        w.invoke(Payload(Strip(req.textoSueno), req.contexto.GetOr([]),
                         History(docs, w.queryFails, local, user, cfg, w.pretty, w.compact))))
  }

  /** What `/interpret-text` computes for a request with a non-blank text,
      given the stores before the call. */
  function TextDraft(req: TextRequest, user: string, cfg: Config, w: World,
                     docs: Option<seq<Session>>, local: seq<Session>): Draft
  {
    Draft(Archivo(req.filename), Strip(req.textoSueno), req.contexto.GetOr([]),
          TextInterpretation(req, user, cfg, w, docs, local),
          if req.save then SavedPath(SaveBase(req.filename), TextInterpretation(req, user, cfg, w, docs, local), w.writeOk)
          else None,
          user, if WantsOffline(req, cfg) then DefaultTitle else TitleOr(w.generatedTitle))
  }

  /** How `/interpret-text` records a draft: Mongo's document when a
      collection is configured and the insert succeeds; the local record
      (without owner) whenever Mongo gives back no id. */
  predicate TextRecorded(before: Option<seq<Session>>, after: Option<seq<Session>>,
                         memBefore: seq<Session>, memAfter: seq<Session>, id: Option<string>, d: Draft, w: World)
  {
    (before.None? ==> after == None && memAfter == memBefore + [LocalDoc(d, w)] && id == Some(w.localId))
    && (before.Some? && w.insertFails ==>
          after == before && memAfter == memBefore + [LocalDoc(d, w)] && id == Some(w.localId))
    && (before.Some? && !w.insertFails ==> after == Some(before.value + [MongoDoc(d, w)]))
    && (before.Some? && !w.insertFails && w.mongoId != [] ==> memAfter == memBefore && id == Some(w.mongoId))
    && (before.Some? && !w.insertFails && w.mongoId == [] ==>
          memAfter == memBefore + [LocalDoc(d, w)] && id == Some(w.localId))
  }

  /** The interpretation step of `/interpret-text`: the offline text or
      the service's answer, saved when asked, with its title. */
  method DraftText(req: TextRequest, user: string, cfg: Config, w: World, col: SessionCollection?, mem: LocalStore)
    returns (d: Draft)
    ensures d == TextDraft(req, user, cfg, w, DocsOf(col), mem.sessions)
  {
    var texto := Strip(req.textoSueno);
    var ctx := req.contexto.GetOr([]);
    var interpretacion := DraftInterpretation(req, user, cfg, w, col, mem);
    var titulo := if WantsOffline(req, cfg) then DefaultTitle else TitleOr(w.generatedTitle);
    var rutaSalida: Option<string> := None;
    if req.save {
      rutaSalida := SavedPath(SaveBase(req.filename), interpretacion, w.writeOk);
    }
    d := Draft(Archivo(req.filename), texto, ctx, interpretacion, rutaSalida, user, titulo);
  }

  /** The interpretation `/interpret-text` computes: offline, or through the
      service with the caller's history. */
  method DraftInterpretation(req: TextRequest, user: string, cfg: Config, w: World,
                             col: SessionCollection?, mem: LocalStore)
    returns (interpretacion: string)
    ensures interpretacion == TextInterpretation(req, user, cfg, w, DocsOf(col), mem.sessions)
  {
    var texto := Strip(req.textoSueno);
    var ctx := req.contexto.GetOr([]);
    if WantsOffline(req, cfg) {
      interpretacion := InterpretOffline(texto, ctx);
    } else {
      var error;
      interpretacion, error := InterpretDreamWithContext(texto, ctx, user, cfg, w.chainAvailable, w.invoke,
                                                         col, w.queryFails, mem, w.pretty, w.compact);
    }
  }

  /** The session step of `/interpret-text`. */
  method RecordText(col: SessionCollection?, mem: LocalStore, d: Draft, w: World) returns (sesionId: Option<string>)
    modifies col, mem
    ensures TextRecorded(old(DocsOf(col)), DocsOf(col), old(mem.sessions), mem.sessions, sesionId, d, w)
  {
    sesionId := None;
    if col != null {
      sesionId := MongoCreateSession(col, d.archivo, d.texto, d.ctx, d.interp, d.ruta, Some(d.user), Some(d.titulo),
                                     w.mongoId, w.now, w.insertFails);
    }
    if !Truthy(sesionId) {
      var id := mem.CrearSesion(d.archivo, d.texto, d.ctx, d.interp, d.ruta, w.localId, w.now);
      sesionId := Some(id);
    }
  }

  /** What `/interpret-text` answers and records: a blank text is refused
      with 400 and nothing is recorded; any other text is answered with
      its draft's interpretation, saved path and title, recorded as
      `TextRecorded` says. */
  predicate TextAnswered(req: TextRequest, user: string, cfg: Config, w: World,
                         before: Option<seq<Session>>, after: Option<seq<Session>>,
                         memBefore: seq<Session>, memAfter: seq<Session>, r: Reply<Interpreted>)
  {
    if IsBlank(req.textoSueno) then
      r == Fail(400, TextRequired) && after == before && memAfter == memBefore
    else
      r.Ok? && r.value == Answer(TextDraft(req, user, cfg, w, before, memBefore), r.value.sesionId)
      && TextRecorded(before, after, memBefore, memAfter, r.value.sesionId, TextDraft(req, user, cfg, w, before, memBefore), w)
  }

  /** `/interpret-text`. */
  method InterpretText(req: TextRequest, user: string, cfg: Config, w: World,
                       col: SessionCollection?, mem: LocalStore)
    returns (r: Reply<Interpreted>)
    modifies col, mem
    ensures TextAnswered(req, user, cfg, w, old(DocsOf(col)), DocsOf(col), old(mem.sessions), mem.sessions, r)
  {
    if Strip(req.textoSueno) == [] {
      return Fail(400, TextRequired);
    }
    var d := DraftText(req, user, cfg, w, col, mem);
    var sesionId := RecordText(col, mem, d, w);
    r := Ok(Answer(d, sesionId));
  }

  /** The interpretation `/interpret-file` answers with: the service's. */
  function FileInterpretation(req: FileRequest, texto: string, user: string, cfg: Config, w: World,
                              docs: Option<seq<Session>>, local: seq<Session>): string
  {
    Interpretation(texto, req.contexto.GetOr([]), w.chainAvailable,
      w.invoke(Payload(texto, req.contexto.GetOr([]), History(docs, w.queryFails, local, user, cfg, w.pretty, w.compact))))
  }

  /** What `/interpret-file` computes for a readable file, given the stores
      before the call. */
  function FileDraft(req: FileRequest, texto: string, user: string, cfg: Config, w: World,
                     docs: Option<seq<Session>>, local: seq<Session>): Draft
  {
    Draft(req.ruta, texto, req.contexto.GetOr([]), FileInterpretation(req, texto, user, cfg, w, docs, local),
          SavedPath(req.ruta, FileInterpretation(req, texto, user, cfg, w, docs, local), w.writeOk), user,
          if texto != [] then TitleOr(w.generatedTitle) else DefaultTitle)
  }

  /** How `/interpret-file` records a draft: in Mongo when a collection is
      configured, with no local fallback; else in the local store, tagged
      with the caller when the new id is non-empty. */
  predicate FileRecorded(before: Option<seq<Session>>, after: Option<seq<Session>>,
                         memBefore: seq<Session>, memAfter: seq<Session>, id: Option<string>, d: Draft, w: World)
  {
    (before.None? ==>
       after == None && id == Some(w.localId)
       && memAfter == if w.localId != [] then WithOwner(memBefore + [LocalDoc(d, w)], w.localId, d.user)
                      else memBefore + [LocalDoc(d, w)])
    && (before.Some? ==> memAfter == memBefore)
    && (before.Some? && w.insertFails ==> after == before && id == None)
    && (before.Some? && !w.insertFails ==>
          after == Some(before.value + [MongoDoc(d, w)]) && id == if w.mongoId != [] then Some(w.mongoId) else None)
  }

  /** The service call of `/interpret-file`. */
  method AskFile(req: FileRequest, texto: string, user: string, cfg: Config, w: World,
                 col: SessionCollection?, mem: LocalStore)
    returns (interpretacion: string)
    ensures interpretacion == FileInterpretation(req, texto, user, cfg, w, DocsOf(col), mem.sessions)
  {
    var error;
    interpretacion, error := InterpretDreamWithContext(texto, req.contexto.GetOr([]), user, cfg, w.chainAvailable,
                                                       w.invoke, col, w.queryFails, mem, w.pretty, w.compact);
  }

  /** The interpretation step of `/interpret-file`: the service's answer,
      always saved, with its title. */
  method DraftFile(req: FileRequest, texto: string, user: string, cfg: Config, w: World,
                   col: SessionCollection?, mem: LocalStore)
    returns (d: Draft)
    ensures d == FileDraft(req, texto, user, cfg, w, DocsOf(col), mem.sessions)
  {
    var interpretacion := AskFile(req, texto, user, cfg, w, col, mem);
    var rutaSalida := SavedPath(req.ruta, interpretacion, w.writeOk);
    var titulo := if texto != [] then TitleOr(w.generatedTitle) else DefaultTitle;
    d := Draft(req.ruta, texto, req.contexto.GetOr([]), interpretacion, rutaSalida, user, titulo);
  }

  /** The session step of `/interpret-file`. */
  method RecordFile(col: SessionCollection?, mem: LocalStore, d: Draft, w: World) returns (sesionId: Option<string>)
    modifies col, mem
    ensures FileRecorded(old(DocsOf(col)), DocsOf(col), old(mem.sessions), mem.sessions, sesionId, d, w)
  {
    sesionId := None;
    if col != null {
      var mongoId := MongoCreateSession(col, d.archivo, d.texto, d.ctx, d.interp, d.ruta, Some(d.user),
                                        Some(d.titulo), w.mongoId, w.now, w.insertFails);
      if Truthy(mongoId) {
        sesionId := mongoId;
      }
    } else {
      var id := mem.CrearSesion(d.archivo, d.texto, d.ctx, d.interp, d.ruta, w.localId, w.now);
      sesionId := Some(id);
      if id != [] {
        mem.SetOwner(id, d.user);
      }
    }
  }

  /** What `/interpret-file` answers and records for a readable file: its
      draft's interpretation, saved path and title, recorded as
      `FileRecorded` says. */
  predicate FileServed(req: FileRequest, texto: string, user: string, cfg: Config, w: World,
                       before: Option<seq<Session>>, after: Option<seq<Session>>,
                       memBefore: seq<Session>, memAfter: seq<Session>, r: Reply<Interpreted>)
  {
    r.Ok? && r.value == Answer(FileDraft(req, texto, user, cfg, w, before, memBefore), r.value.sesionId)
    && FileRecorded(before, after, memBefore, memAfter, r.value.sesionId, FileDraft(req, texto, user, cfg, w, before, memBefore), w)
  }

  /** What `/interpret-file` answers and records: a blank path or an
      unreadable file is refused with 400 and nothing is recorded; a
      readable file is served as `FileServed` says. */
  predicate FileAnswered(req: FileRequest, fileText: Option<string>, user: string, cfg: Config, w: World,
                         before: Option<seq<Session>>, after: Option<seq<Session>>,
                         memBefore: seq<Session>, memAfter: seq<Session>, r: Reply<Interpreted>)
  {
    if IsBlank(req.ruta) then
      r == Fail(400, PathRequired) && after == before && memAfter == memBefore
    else if fileText.None? then
      r == Fail(400, Unreadable) && after == before && memAfter == memBefore
    else
      FileServed(req, fileText.value, user, cfg, w, before, after, memBefore, memAfter, r)
  }

  /** The answer step of `/interpret-file` for a draft: the 502 answer for
      a blank interpretation, else the recorded session and the answer.
      The 502 answer is kept although no draft reaches it. */
  method AnswerFile(col: SessionCollection?, mem: LocalStore, d: Draft, w: World) returns (r: Reply<Interpreted>)
    modifies col, mem
    ensures IsBlank(d.interp) ==> r == Fail(502, GenerationFailed) && DocsOf(col) == old(DocsOf(col))
                                   && mem.sessions == old(mem.sessions)
    ensures !IsBlank(d.interp) ==>
      r.Ok? && r.value == Answer(d, r.value.sesionId)
      && FileRecorded(old(DocsOf(col)), DocsOf(col), old(mem.sessions), mem.sessions, r.value.sesionId, d, w)
  {
    if Strip(d.interp) == [] {
      return Fail(502, GenerationFailed);
    }
    var sesionId := RecordFile(col, mem, d, w);
    r := Ok(Answer(d, sesionId));
  }

  /** `/interpret-file` once the file has been read. */
  method ServeFile(req: FileRequest, texto: string, user: string, cfg: Config, w: World,
                   col: SessionCollection?, mem: LocalStore)
    returns (r: Reply<Interpreted>)
    modifies col, mem
    ensures FileServed(req, texto, user, cfg, w, old(DocsOf(col)), DocsOf(col), old(mem.sessions), mem.sessions, r)
  {
    var d := DraftFile(req, texto, user, cfg, w, col, mem);
    r := AnswerFile(col, mem, d, w);
  }

  /** `/interpret-file`; `fileText` is what `leer_sueno` read, `None` when
      the file cannot be read. */
  method InterpretFile(req: FileRequest, fileText: Option<string>, user: string, cfg: Config, w: World,
                       col: SessionCollection?, mem: LocalStore)
    returns (r: Reply<Interpreted>)
    modifies col, mem
    ensures FileAnswered(req, fileText, user, cfg, w, old(DocsOf(col)), DocsOf(col), old(mem.sessions), mem.sessions, r)
  {
    if Strip(req.ruta) == [] {
      return Fail(400, PathRequired);
    }
    if fileText.None? {
      return Fail(400, Unreadable);
    }
    r := ServeFile(req, fileText.value, user, cfg, w, col, mem);
  }

  /** A freshly created local session whose id no earlier session has is
      the one the owner tag reaches: it, and only it, gets the caller as
      owner. */
  lemma {:induction false} FreshIdTagged(ss: seq<Session>, n: Session, user: string)
    requires forall i :: 0 <= i < |ss| ==> ss[i].id != n.id
    ensures WithOwner(ss + [n], n.id, user) == ss + [n.(userId := Some(user))]
  {
    var all := ss + [n];
    assert all[|ss|] == n;
    assert forall i :: 0 <= i < |ss| ==> all[i] == ss[i];
    var k := FirstWhere(all, HasId(n.id));
    assert HasId(n.id)(all[|ss|]);
    assert k.Some? && k.value == |ss|;
  }

  /** The local session `/interpret-text` falls back to has no owner, so it
      never enters the caller's history. */
  lemma {:induction false} TextFallbackNotInHistory(ss: seq<Session>, ruta: string, texto: string, ctx: string,
                                                   interp: string, salida: Option<string>, id: string, now: string,
                                                   user: string, maxSessions: int)
    ensures NewLocalSession(ruta, texto, ctx, interp, salida, id, now)
      !in UserSessions(None, false, ss + [NewLocalSession(ruta, texto, ctx, interp, salida, id, now)], user, maxSessions)
  {
    UnownedSessionsIgnored(None, false, ss + [NewLocalSession(ruta, texto, ctx, interp, salida, id, now)],
                           user, maxSessions, NewLocalSession(ruta, texto, ctx, interp, salida, id, now));
  }

  /** The local session `/interpret-file` tags with the caller passes the
      caller's owner filter. */
  lemma {:induction false} FileSessionOwned(ss: seq<Session>, n: Session, user: string)
    ensures n.(userId := Some(user)) in Filter(ss + [n.(userId := Some(user))], OwnedBy(user))
  {
    var t := n.(userId := Some(user));
    assert (ss + [t])[|ss|] == t;
    assert OwnedBy(user)(t);
  }

  /** The 502 branch of `/interpret-file` is never taken: the service never
      returns a blank interpretation. */
  lemma {:induction false} FileNeverBadGateway(req: FileRequest, texto: string, user: string, cfg: Config, w: World,
                                              docs: Option<seq<Session>>, local: seq<Session>)
    ensures Strip(FileDraft(req, texto, user, cfg, w, docs, local).interp) != []
  {
    assert !IsBlank(FileDraft(req, texto, user, cfg, w, docs, local).interp);
  }

  /** `/interpret-text` never answers with a blank interpretation, offline
      or not. */
  lemma {:induction false} TextNeverBlank(req: TextRequest, user: string, cfg: Config, w: World,
                                         docs: Option<seq<Session>>, local: seq<Session>)
    ensures !IsBlank(TextDraft(req, user, cfg, w, docs, local).interp)
  {
    var d := TextDraft(req, user, cfg, w, docs, local);
    if req.offline == Some(true) || cfg.forceOffline {
      OfflineNeverBlank(d.texto, d.ctx);
    }
  }
}

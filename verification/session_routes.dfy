/**
 * The `/sessions` routes (routes/session_routes.py): listing, reading,
 * deleting and asking a follow-up about a session. Every route reads Mongo
 * first when a collection is configured and falls back to the local store
 * or, for deletion, to the local JSON file. An `HTTPException` is a `Fail`
 * reply carrying its status code and detail.
 */
module SessionRoutes {
  import opened Basics
  import opened PyText
  import opened Sessions
  import opened LocalMemory
  import opened MongoStore
  import opened InterpretationRule

  /** The outcome of a route: its value, or the status and detail it raises. */
  datatype Reply<T> = Ok(value: T) | Fail(status: int, detail: string)

  const NotFound: string := "Sesión no encontrada"
  const Forbidden: string := "No tienes permiso para acceder a esta sesión"
  const DeleteForbidden: string := "No tienes permiso para eliminar esta sesión"
  const MongoDeleteMissing: string := "Sesión no encontrada o no tienes permiso para eliminarla"
  const DeleteError: string := "Error al eliminar la sesión"
  const QuestionRequired: string := "pregunta requerida"
  const ChainMissing: string := "Cadena de follow-up no disponible (revisa API/red)"
  const FollowupTimeout: string := "Tiempo de espera agotado para follow-up"
  const FollowupFailed: string := "No fue posible responder el seguimiento: "
  const DeletedMessage: string := "Sesión eliminada exitosamente"

  // ---------------------------------------------------------------- listing

  /** The `limit` query argument: an integer, or a value `int()` rejects. */
  datatype LimitArg = IntLimit(n: int) | NotAnInt

  /** `max(1, min(50, int(limit)))`, and 5 when the conversion raises. */
  function ClampLimit(a: LimitArg): (r: int)
    ensures 1 <= r <= 50
    ensures a.IntLimit? && 1 <= a.n <= 50 ==> r == a.n
    ensures a.IntLimit? && a.n < 1 ==> r == 1
    ensures a.IntLimit? && a.n > 50 ==> r == 50
    ensures a.NotAnInt? ==> r == 5
  {
    match a
    case IntLimit(n) => Max(1, Min(50, n))
    case NotAnInt => 5
  }

  /** Clamping an already clamped limit changes nothing. */
  lemma {:induction false} ClampLimitIdempotent(a: LimitArg)
    ensures ClampLimit(IntLimit(ClampLimit(a))) == ClampLimit(a)
  {
  }

  /** The two shapes of `{"sessions": ...}`. */
  datatype Listing = FromMongo(docs: seq<ListedDoc>) | FromLocal(items: seq<SessionSummary>)

  /** `list_sessions(limit)`: Mongo's page when the query answers, else the
      local summaries. */
  function ListSessions(docs: Option<seq<Session>>, queryFails: bool, local: seq<Session>,
                        limit: LimitArg, user: string): (r: Listing)
    ensures docs.Some? && !queryFails ==>
      r == FromMongo(MongoListSessions(docs, ClampLimit(limit), user, queryFails).value)
    ensures docs.None? || queryFails ==> r == FromLocal(RecentSummaries(local, ClampLimit(limit)))
  {
    var n := ClampLimit(limit);
    match MongoListSessions(docs, n, user, queryFails)
    case Some(ds) => FromMongo(ds)
    case None => FromLocal(RecentSummaries(local, n))
  }

  /** A listing never holds more than 50 entries nor more than the clamped
      limit; from Mongo each entry is a projection of one of the caller's
      documents, newest first. */
  lemma {:induction false} ListSessionsSound(docs: Option<seq<Session>>, queryFails: bool,
                                             local: seq<Session>, limit: LimitArg, user: string)
    ensures match ListSessions(docs, queryFails, local, limit, user)
      case FromMongo(ds) => |ds| <= ClampLimit(limit) <= 50
      case FromLocal(items) => |items| <= ClampLimit(limit) <= 50
    ensures match ListSessions(docs, queryFails, local, limit, user)
      case FromMongo(ds) => forall i :: 0 <= i < |ds| ==> ListedFrom(ds[i], docs.value, user)
      case FromLocal(_) => true
  {
    var n := ClampLimit(limit);
    match ListSessions(docs, queryFails, local, limit, user)
    case FromMongo(ds) => MongoListSound(docs.value, n, user);
    case FromLocal(items) => RecentSummariesSound(local, n);
  }

  /** Without Mongo the listing does not depend on the caller: the local
      summaries are not filtered by owner. */
  lemma {:induction false} LocalListingIgnoresOwner(local: seq<Session>, limit: LimitArg, u1: string, u2: string)
    ensures ListSessions(None, false, local, limit, u1) == ListSessions(None, false, local, limit, u2)
    ensures ListSessions(None, false, local, limit, u1).FromLocal?
  {
  }

  // ---------------------------------------------------------------- reading

  /** `s.get("user_id") and s.get("user_id") != user_id`: a non-empty owner
      other than the caller. */
  predicate OwnedByOther(s: Session, user: string) {
    s.userId.Some? && s.userId.value != [] && s.userId.value != user
  }

  /** The session a route works on: Mongo's answer when it has one, else the
      local store's first session with this id. */
  function Resolve(docs: Option<seq<Session>>, queryFails: bool, local: seq<Session>,
                   id: string, user: string): (r: Option<Session>)
    ensures r.Some? ==> r.value.id == id
    ensures r.Some? ==> r.value in local || (docs.Some? && r.value in docs.value)
    ensures MongoGetSession(docs, id, user, queryFails).None? ==> r == Lookup(local, id)
    ensures MongoGetSession(docs, id, user, queryFails).Some? ==> r == MongoGetSession(docs, id, user, queryFails)
    ensures docs.Some? && !queryFails
         && (exists s :: s in docs.value && s.id == id && (user == [] || s.userId == Some(user)))
         ==> r.Some? && r.value in docs.value
  {
    match MongoGetSession(docs, id, user, queryFails)
    case Some(s) => Some(s)
    case None => Lookup(local, id)
  }

  /** The checks `get_session` and `followup_handler` share: 404 when no
      session is found, 403 when it belongs to someone else. */
  function Access(found: Option<Session>, user: string): (r: Reply<Session>)
    ensures found.None? <==> r == Fail(404, NotFound)
    ensures found.Some? && OwnedByOther(found.value, user) <==> r == Fail(403, Forbidden)
    ensures r.Ok? <==> found.Some? && !OwnedByOther(found.value, user)
    ensures r.Ok? ==> r.value == found.value
  {
    match found
    case None => Fail(404, NotFound)
    case Some(s) => if OwnedByOther(s, user) then Fail(403, Forbidden) else Ok(s)
  }

  /** `get_session(sesion_id)` */
  function GetSession(docs: Option<seq<Session>>, queryFails: bool, local: seq<Session>,
                      id: string, user: string): (r: Reply<Session>)
    ensures r.Ok? ==> r.value.id == id && !OwnedByOther(r.value, user)
    ensures r.Ok? ==> r.value in local || (docs.Some? && r.value in docs.value)
    ensures r.Fail? ==> r.status == 404 || r.status == 403
  {
    Access(Resolve(docs, queryFails, local, id, user), user)
  }

  /** A session is returned only to its owner, or when it has no owner. */
  lemma {:induction false} GetSessionOwner(docs: Option<seq<Session>>, queryFails: bool, local: seq<Session>,
                                           id: string, user: string)
    requires GetSession(docs, queryFails, local, id, user).Ok?
    ensures var s := GetSession(docs, queryFails, local, id, user).value;
      s.userId == None || s.userId == Some([]) || s.userId == Some(user)
  {
  }

  /** Without Mongo, the first local session with the id is returned exactly
      when nobody else owns it, and a missing id is a 404. */
  lemma {:induction false} GetSessionLocal(local: seq<Session>, id: string, user: string)
    ensures Lookup(local, id).None? ==> GetSession(None, false, local, id, user) == Fail(404, NotFound)
    ensures Lookup(local, id).Some? && !OwnedByOther(Lookup(local, id).value, user) ==>
      GetSession(None, false, local, id, user) == Ok(Lookup(local, id).value)
    ensures Lookup(local, id).Some? && OwnedByOther(Lookup(local, id).value, user) ==>
      GetSession(None, false, local, id, user) == Fail(403, Forbidden)
  {
  }

  /** A document Mongo finds for a non-empty caller is the caller's, so a
      Mongo answer is never refused with 403. */
  lemma {:induction false} MongoAnswerNotForbidden(ds: seq<Session>, local: seq<Session>, id: string, user: string)
    requires user != []
    requires MongoGetSession(Some(ds), id, user, false).Some?
    ensures GetSession(Some(ds), false, local, id, user).Ok?
  {
  }

  // ---------------------------------------------------------------- follow-up

  /** What the follow-up chain receives. */
  datatype FollowupPayload = FollowupPayload(
    textoSueno: string, contexto: string, interpretacionPrevia: string, pregunta: string, historial: string)

  /** `resp if isinstance(resp, str) else (getattr(resp, "content", None) or str(resp))`:
      a content attribute is used when it is a non-empty string; a dict has
      no such attribute. */
  function FollowupAnswer(res: Response): (r: string)
    ensures res.Str? ==> r == res.s
    ensures res.WithContent? && res.content.Some? && res.content.value != [] ==> r == res.content.value
    ensures res.WithContent? && (res.content.None? || res.content.value == []) ==> r == res.repr
    ensures res.Dict? || res.Other? ==> r == res.repr
  {
    match res
    case Str(s) => s
    case WithContent(content, repr) => if content.Some? && content.value != [] then content.value else repr
    case Dict(_, repr) => repr
    case Other(repr) => repr
  }

  /** The follow-up rule agrees with the interpretation rule on strings,
      opaque objects and non-blank content, but keeps a whitespace-only
      content that the interpretation rule replaces, and ignores a dict's
      "text" entry. */
  lemma {:induction false} FollowupAnswerVsNormalize(res: Response)
    ensures res.Str? || res.Other? ==> FollowupAnswer(res) == Normalize(res)
    ensures res.WithContent? && res.content.Some? && !IsBlank(res.content.value) ==>
      FollowupAnswer(res) == Normalize(res)
    ensures res.WithContent? && res.content.Some? && res.content.value != [] && IsBlank(res.content.value) ==>
      FollowupAnswer(res) == res.content.value && Normalize(res) == res.repr
    ensures res.Dict? && res.text.Some? ==> FollowupAnswer(res) == res.repr && Normalize(res) == res.text.value
  {
    if res.WithContent? && res.content.Some? && !IsBlank(res.content.value) {
      assert res.content.value != [];
    }
  }

  /** The checks before the chain is called: access, a non-blank question
      (stripped), and an available chain. The value is the session and the
      stripped question. */
  function FollowupCheck(found: Option<Session>, user: string, pregunta: string, chainAvailable: bool)
    : (r: Reply<(Session, string)>)
    ensures found.None? ==> r == Fail(404, NotFound)
    ensures found.Some? && OwnedByOther(found.value, user) ==> r == Fail(403, Forbidden)
    ensures found.Some? && !OwnedByOther(found.value, user) && IsBlank(pregunta) ==>
      r == Fail(400, QuestionRequired)
    ensures found.Some? && !OwnedByOther(found.value, user) && !IsBlank(pregunta) && !chainAvailable ==>
      r == Fail(503, ChainMissing)
    ensures r.Ok? <==> found.Some? && !OwnedByOther(found.value, user) && !IsBlank(pregunta) && chainAvailable
    ensures r.Ok? ==> r.value == (found.value, Strip(pregunta))
  {
    match Access(found, user)
    case Fail(st, d) => Fail(st, d)
    case Ok(s) =>
      var q := Strip(pregunta);
      if q == [] then Fail(400, QuestionRequired)
      else if !chainAvailable then Fail(503, ChainMissing)
      else Ok((s, q))
  }

  /** `payload_fu`, with the last five follow-ups as history. */
  function BuildFollowupPayload(s: Session, pregunta: string): (r: FollowupPayload)
    ensures r.pregunta == pregunta && r.textoSueno == s.textoSueno && r.contexto == s.contexto
    ensures r.interpretacionPrevia == s.interpretacion
    ensures r.historial == HistorialTexto(s, 5)
  {
    FollowupPayload(s.textoSueno, s.contexto, s.interpretacion, pregunta, HistorialTexto(s, 5))
  }

  /** The chain's outcome as the route sees it: 504 on timeout, 502 with the
      error's text on any other exception, else the answer. */
  function AnswerStep(outcome: Outcome): (r: Reply<string>)
    ensures outcome.Timeout? <==> r == Fail(504, FollowupTimeout)
    ensures outcome.Failed? ==> r == Fail(502, FollowupFailed + outcome.message)
    ensures outcome.Returned? <==> r.Ok?
    ensures outcome.Returned? ==> r.value == FollowupAnswer(outcome.res)
  {
    match outcome
    case Timeout => Fail(504, FollowupTimeout)
    case Failed(e) => Fail(502, FollowupFailed + e)
    case Returned(res) => Ok(FollowupAnswer(res))
  }

  /** `followup_handler(sesion_id, req)`: the checks, the chain call and the
      persistence (Mongo first, the local store when Mongo is absent or its
      update modifies nothing). `invoke` is the chain's answer to a payload,
      `now` the time stamp, `updateFails` the outcome of the Mongo update. */
  method FollowupHandler(col: SessionCollection?, queryFails: bool, mem: LocalStore, id: string, user: string,
                         pregunta: string, chainAvailable: bool, invoke: FollowupPayload -> Outcome,
                         now: string, updateFails: bool)
    returns (r: Reply<string>)
    modifies col, mem
    ensures var docs := old(DocsOf(col));
      var check := FollowupCheck(Resolve(docs, queryFails, old(mem.sessions), id, user), user, pregunta, chainAvailable);
      (check.Fail? ==> r == Fail(check.status, check.detail))
      && (check.Ok? ==> r == AnswerStep(invoke(BuildFollowupPayload(check.value.0, check.value.1))))
    ensures r.Fail? ==> (col != null ==> col.docs == old(col.docs)) && mem.sessions == old(mem.sessions)
    ensures r.Ok? ==>
      var f := Followup(now, Strip(pregunta), r.value);
      (col == null ==> mem.sessions == WithFollowup(old(mem.sessions), id, f))
      && (col != null && updateFails ==>
            col.docs == old(col.docs) && mem.sessions == WithFollowup(old(mem.sessions), id, f))
      && (col != null && !updateFails ==> col.docs == WithFollowup(old(col.docs), id, f))
      && (col != null && !updateFails && (exists i :: 0 <= i < |old(col.docs)| && old(col.docs)[i].id == id) ==>
            mem.sessions == old(mem.sessions))
      && (col != null && !updateFails && (forall i :: 0 <= i < |old(col.docs)| ==> old(col.docs)[i].id != id) ==>
            mem.sessions == WithFollowup(old(mem.sessions), id, f))
  {
    var docs := DocsOf(col);
    var found := Resolve(docs, queryFails, mem.sessions, id, user);
    var check := FollowupCheck(found, user, pregunta, chainAvailable);
    if check.Fail? {
      return Fail(check.status, check.detail);
    }
    var (s, q) := check.value;
    r := AnswerStep(invoke(BuildFollowupPayload(s, q)));
    if r.Fail? {
      return;
    }
    var respuesta := r.value;
    if col != null {
      var ok := MongoAddFollowup(col, id, q, respuesta, now, updateFails);
      if !ok {
        mem.AgregarFollowup(id, q, respuesta, now);
      }
    } else {
      mem.AgregarFollowup(id, q, respuesta, now);
    }
  }

  // ---------------------------------------------------------------- deletion

  /** What `delete_session` answers on success. */
  datatype Deleted = Deleted(message: string, sesionId: string, deleted: bool)

  /** The local file `memoria_agente.json` as the deletion route sees it:
      absent, unreadable, or a document with its "sessions" entry (the key
      the store writes) and its "sesiones" entry (the key this route reads). */
  datatype LocalFile = NoFile | Unreadable | File(sessionsKey: Option<seq<Session>>, sesionesKey: Option<seq<Session>>)

  /** `s.get("id") != sesion_id` */
  function NotId(id: string): Session -> bool {
    (s: Session) => s.id != id
  }

  /** Some session with the id belongs to someone else. */
  predicate ForeignMatch(ss: seq<Session>, id: string, user: string) {
    exists i :: 0 <= i < |ss| && ss[i].id == id && OwnedByOther(ss[i], user)
  }

  /** No session has the id. */
  predicate NoMatch(ss: seq<Session>, id: string) {
    forall i :: 0 <= i < |ss| ==> ss[i].id != id
  }

  /** The scan over "sesiones": 403 when a session with the id belongs to
      someone else, 404 when none has the id, else the list without every
      session that has it. */
  function ScanDelete(ss: seq<Session>, id: string, user: string): (r: Reply<seq<Session>>)
    ensures ForeignMatch(ss, id, user) <==> r == Fail(403, DeleteForbidden)
    ensures NoMatch(ss, id) <==> r == Fail(404, NotFound)
    ensures r.Ok? ==> r.value == Filter(ss, NotId(id))
  {
    if ForeignMatch(ss, id, user) then Fail(403, DeleteForbidden)
    else if NoMatch(ss, id) then Fail(404, NotFound)
    else Ok(Filter(ss, NotId(id)))
  }

  /** One more session scanned. */
  lemma {:induction false} ScanStep(ss: seq<Session>, i: nat, id: string, user: string)
    requires i < |ss|
    ensures ForeignMatch(ss[..i + 1], id, user) <==>
      ForeignMatch(ss[..i], id, user) || (ss[i].id == id && OwnedByOther(ss[i], user))
    ensures NoMatch(ss[..i + 1], id) <==> NoMatch(ss[..i], id) && ss[i].id != id
    ensures Filter(ss[..i + 1], NotId(id)) == Filter(ss[..i], NotId(id)) + (if ss[i].id != id then [ss[i]] else [])
    ensures ss[i].id == id && OwnedByOther(ss[i], user) ==> ForeignMatch(ss, id, user)
  {
    assert ss[..i + 1] == ss[..i] + [ss[i]];
    FilterSnoc(ss[..i], ss[i], NotId(id));
    if ForeignMatch(ss[..i + 1], id, user) && !ForeignMatch(ss[..i], id, user) {
      var k :| 0 <= k < i + 1 && ss[..i + 1][k].id == id && OwnedByOther(ss[..i + 1][k], user);
      assert k == i;
    }
    if ForeignMatch(ss[..i], id, user) {
      var k :| 0 <= k < i && ss[..i][k].id == id && OwnedByOther(ss[..i][k], user);
      assert ss[..i + 1][k] == ss[k];
    }
    if ss[i].id == id && OwnedByOther(ss[i], user) {
      assert ss[..i + 1][i] == ss[i];
    }
    var pre, next := ss[..i], ss[..i + 1];
    if NoMatch(pre, id) && ss[i].id != id {
      forall k | 0 <= k < i + 1 ensures next[k].id != id {
        if k < i { assert next[k] == pre[k]; }
      }
    }
    if NoMatch(next, id) {
      forall k | 0 <= k < i ensures pre[k].id != id {
        assert pre[k] == next[k];
      }
      assert next[i] == ss[i];
    }
  }

  /** A successful scan removes exactly the sessions with the id and keeps
      the others in order. */
  lemma {:induction false} ScanDeleteSound(ss: seq<Session>, id: string, user: string)
    requires ScanDelete(ss, id, user).Ok?
    ensures var r := ScanDelete(ss, id, user).value;
      |r| < |ss| && (forall s :: s in r ==> s.id != id)
      && (forall s :: s in ss && s.id != id ==> s in r)
      && multiset(r) <= multiset(ss)
  {
    var r := ScanDelete(ss, id, user).value;
    var k :| 0 <= k < |ss| && ss[k].id == id;
    FilterCount(ss, NotId(id), k);
    forall s | s in r ensures s.id != id {
      var i :| 0 <= i < |r| && r[i] == s;
      assert NotId(id)(r[i]);
    }
    forall s | s in ss && s.id != id ensures s in r {
      assert NotId(id)(s);
    }
  }

  /** Filtering out an element that fails `p` shortens the list. */
  lemma {:induction false} FilterCount(ss: seq<Session>, p: Session -> bool, k: nat)
    requires k < |ss| && !p(ss[k])
    ensures |Filter(ss, p)| < |ss|
    decreases |ss|
  {
    if k > 0 {
      assert ss[1..][k - 1] == ss[k];
      FilterCount(ss[1..], p, k - 1);
    }
  }

  /** The loop of `delete_session` over "sesiones". */
  method ScanDeleteLoop(sesiones: seq<Session>, id: string, user: string) returns (r: Reply<seq<Session>>)
    ensures r == ScanDelete(sesiones, id, user)
  {
    var encontrada := false;
    var nuevas: seq<Session> := [];
    var i := 0;
    while i < |sesiones|
      invariant 0 <= i <= |sesiones|
      invariant !ForeignMatch(sesiones[..i], id, user)
      invariant encontrada <==> !NoMatch(sesiones[..i], id)
      invariant nuevas == Filter(sesiones[..i], NotId(id))
    {
      var s := sesiones[i];
      ScanStep(sesiones, i, id, user);
      if s.id == id {
        if OwnedByOther(s, user) {
          return Fail(403, DeleteForbidden);
        }
        encontrada := true;
      } else {
        nuevas := nuevas + [s];
      }
      i := i + 1;
    }
    assert sesiones[..i] == sesiones;
    if !encontrada {
      return Fail(404, NotFound);
    }
    return Ok(nuevas);
  }

  /** The local fallback of `delete_session`: the reply and the file after
      it. `writeOk` is the outcome of writing the file back. */
  function LocalDelete(file: LocalFile, id: string, user: string, writeOk: bool): (r: (Reply<Deleted>, LocalFile))
    ensures file.NoFile? ==> r == (Fail(404, NotFound), file)
    ensures file.Unreadable? ==> r == (Fail(500, DeleteError), file)
    ensures r.0.Fail? ==> r.1 == file
    ensures r.0.Ok? ==> file.File? && writeOk && r.0.value == Deleted(DeletedMessage, id, true)
    ensures r.0.Ok? ==>
      var sc := ScanDelete(file.sesionesKey.GetOr([]), id, user);
      sc.Ok? && r.1 == File(file.sessionsKey, Some(sc.value))
  {
    match file
    case NoFile => (Fail(404, NotFound), file)
    case Unreadable => (Fail(500, DeleteError), file)
    case File(sk, sek) =>
      match ScanDelete(sek.GetOr([]), id, user)
      case Fail(st, d) => (Fail(st, d), file)
      case Ok(nuevas) =>
        if writeOk then (Ok(Deleted(DeletedMessage, id, true)), File(sk, Some(nuevas)))
        else (Fail(500, DeleteError), file)
  }

  /** The local store writes its sessions under "sessions" while the route
      reads "sesiones": a file with no "sesiones" entry answers 404 whatever
      sessions it holds, and leaves the file as it was. */
  lemma {:induction false} DeleteIgnoresSessionsKey(sessions: Option<seq<Session>>, id: string, user: string,
                                                    writeOk: bool)
    ensures LocalDelete(File(sessions, None), id, user, writeOk) == (Fail(404, NotFound), File(sessions, None))
  {
    var none: Option<seq<Session>> := None;
    assert none.GetOr([]) == [];
  }

  /** A successful local deletion removes every session with the id from
      "sesiones", keeps the others in order, and leaves "sessions" as it was. */
  lemma {:induction false} LocalDeleteSound(file: LocalFile, id: string, user: string, writeOk: bool)
    requires LocalDelete(file, id, user, writeOk).0.Ok?
    ensures var after := LocalDelete(file, id, user, writeOk).1;
      after.File? && file.File? && after.sessionsKey == file.sessionsKey && after.sesionesKey.Some?
      && after.sesionesKey.value == Filter(file.sesionesKey.GetOr([]), NotId(id))
      && |after.sesionesKey.value| < |file.sesionesKey.GetOr([])|
  {
    ScanDeleteSound(file.sesionesKey.GetOr([]), id, user);
  }

  /** `delete_session(sesion_id)`: `delete_one` on Mongo when a collection
      is configured (no local fallback then), else the local file. */
  method DeleteSession(col: SessionCollection?, deleteFails: bool, file: LocalFile, id: string, user: string,
                       writeOk: bool)
    returns (r: Reply<Deleted>, after: LocalFile)
    modifies col
    ensures col != null ==> after == file
    ensures col != null && !deleteFails ==>
      col.docs == DeleteFirst(old(col.docs), DeleteQuery(id, user))
    ensures col != null && deleteFails ==> col.docs == old(col.docs)
    ensures col != null ==>
      (r.Ok? <==> !deleteFails && exists s :: s in old(col.docs) && s.id == id && s.userId == Some(user))
    ensures col != null && r.Ok? ==> r.value == Deleted(DeletedMessage, id, true)
    ensures col != null && r.Fail? ==> r == Fail(404, MongoDeleteMissing)
    ensures col == null ==> (r, after) == LocalDelete(file, id, user, writeOk)
  {
    if col != null {
      var deleted := MongoDeleteSession(col, id, user, deleteFails);
      after := file;
      if deleted > 0 {
        r := Ok(Deleted(DeletedMessage, id, true));
      } else {
        r := Fail(404, MongoDeleteMissing);
      }
      return;
    }
    match file {
      case NoFile =>
        r, after := Fail(404, NotFound), file;
      case Unreadable =>
        r, after := Fail(500, DeleteError), file;
      case File(sk, sek) =>
        var sc := ScanDeleteLoop(sek.GetOr([]), id, user);
        if sc.Fail? {
          r, after := Fail(sc.status, sc.detail), file;
        } else if writeOk {
          r, after := Ok(Deleted(DeletedMessage, id, true)), File(sk, Some(sc.value));
        } else {
          r, after := Fail(500, DeleteError), file;
        }
    }
  }
}

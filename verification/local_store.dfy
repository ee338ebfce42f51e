/**
 * The process-wide local session store `MEM["sessions"]`
 * (reporte6_BernardoBojalil.py): creating a session, the linear lookup by id,
 * appending a follow-up, the newest-first summary listing, and the owner tag
 * `interpret_file` sets on a freshly created local session
 * (routes/dream_routes.py). Ids and timestamps are parameters.
 */
module LocalMemory {
  import opened Basics
  import opened PyText
  import opened Summary
  import opened Sessions
  import opened Compactor

  /** The record `_crear_sesion` appends: no owner, no title, no follow-ups,
      and the summary taken from the interpretation. */
  function NewLocalSession(ruta: string, texto: string, contexto: string, interpretacion: string,
                           rutaSalida: Option<string>, sesId: string, now: string): (r: Session)
    ensures r.id == sesId && r.createdAt == now && r.archivo == ruta && r.outputFile == rutaSalida
    ensures r.userId == None && r.title == None && r.followups == []
    ensures r.resumen == ResumenInterpretacion(interpretacion)
    ensures r.textoSueno == texto && r.contexto == contexto && r.interpretacion == interpretacion
  {
    Session(sesId, None, now, ruta, rutaSalida, contexto, texto, interpretacion, None,
            ResumenInterpretacion(interpretacion), [])
  }

  /** The store after appending follow-up `f` to the first session with id
      `id`; unchanged when there is none. */
  function WithFollowup(ss: seq<Session>, id: string, f: Followup): (r: seq<Session>)
    ensures |r| == |ss|
    ensures FirstWhere(ss, HasId(id)).None? ==> r == ss
    ensures FirstWhere(ss, HasId(id)).Some? ==>
      var k := FirstWhere(ss, HasId(id)).value;
      r[k] == ss[k].(followups := ss[k].followups + [f])
      && forall j :: 0 <= j < |ss| && j != k ==> r[j] == ss[j]
  {
    match FirstWhere(ss, HasId(id))
    case None => ss
    case Some(k) => ss[k := ss[k].(followups := ss[k].followups + [f])]
  }

  /** Follow-ups are append-only: every session keeps its id and its earlier
      follow-ups as a prefix, and the store gains exactly one follow-up when
      some session has the id and none otherwise. */
  lemma {:induction false} WithFollowupAppendOnly(ss: seq<Session>, id: string, f: Followup)
    ensures var r := WithFollowup(ss, id, f);
      forall i :: 0 <= i < |ss| ==> r[i].id == ss[i].id && ss[i].followups <= r[i].followups
    ensures (exists i :: 0 <= i < |ss| && ss[i].id == id) ==>
      FollowupCount(WithFollowup(ss, id, f)) == FollowupCount(ss) + 1
    ensures (forall i :: 0 <= i < |ss| ==> ss[i].id != id) ==> WithFollowup(ss, id, f) == ss
  {
    var r := WithFollowup(ss, id, f);
    match FirstWhere(ss, HasId(id))
    case None =>
    case Some(k) =>
      CountUpdate(ss, k, ss[k].(followups := ss[k].followups + [f]));
      assert r == ss[k := ss[k].(followups := ss[k].followups + [f])];
  }

  /** The number of follow-ups over all sessions. */
  function FollowupCount(ss: seq<Session>): nat {
    if ss == [] then 0 else |ss[0].followups| + FollowupCount(ss[1..])
  }

  lemma {:induction false} CountUpdate(ss: seq<Session>, k: nat, s: Session)
    requires k < |ss|
    ensures FollowupCount(ss[k := s]) == FollowupCount(ss) - |ss[k].followups| + |s.followups|
    decreases |ss|
  {
    if k > 0 {
      assert ss[k := s][1..] == ss[1..][k - 1 := s];
      CountUpdate(ss[1..], k - 1, s);
    } else {
      assert ss[k := s][1..] == ss[1..];
    }
  }

  /** The store after `s["user_id"] = user_id` on the first session with id `id`. */
  function WithOwner(ss: seq<Session>, id: string, user: string): (r: seq<Session>)
    ensures |r| == |ss|
    ensures forall j :: 0 <= j < |ss| ==> r[j].id == ss[j].id && r[j].followups == ss[j].followups
    ensures FirstWhere(ss, HasId(id)).None? ==> r == ss
    ensures FirstWhere(ss, HasId(id)).Some? ==>
      var k := FirstWhere(ss, HasId(id)).value;
      r[k].userId == Some(user) && forall j :: 0 <= j < |ss| && j != k ==> r[j] == ss[j]
  {
    match FirstWhere(ss, HasId(id))
    case None => ss
    case Some(k) => ss[k := ss[k].(userId := Some(user))]
  }

  /** One entry of `_resumen_ultimas_sesiones`. */
  datatype SessionSummary = SessionSummary(
    id: string, createdAt: string, archivo: string, resumen: string, outputFile: Option<string>)

  function SummaryOf(s: Session): (r: SessionSummary)
    ensures r.id == s.id && r.createdAt == s.createdAt && r.resumen == Strip(s.resumen)
    ensures r.archivo == s.archivo && r.outputFile == s.outputFile
  {
    SessionSummary(s.id, s.createdAt, s.archivo, Strip(s.resumen), s.outputFile)
  }

  /** What `_resumen_ultimas_sesiones(n)` returns for the store `ss`. */
  function RecentSummaries(ss: seq<Session>, n: int): (r: seq<SessionSummary>)
    ensures |r| == Min(Max(0, n), |ss|)
  {
    Summaries(Recent(ss, n))
  }

  /** The summary of each session, in order. */
  function Summaries(rs: seq<Session>): (r: seq<SessionSummary>)
    ensures |r| == |rs|
  {
    if rs == [] then [] else Summaries(rs[..|rs| - 1]) + [SummaryOf(rs[|rs| - 1])]
  }

  /** One more session summarised. */
  lemma SummariesStep(rs: seq<Session>, i: int)
    requires 0 <= i < |rs|
    ensures Summaries(rs[..i + 1]) == Summaries(rs[..i]) + [SummaryOf(rs[i])]
  {
    assert rs[..i + 1][..i] == rs[..i];
  }

  /** Entry `j` of the listing is the summary of session `j`. */
  lemma {:induction false} SummariesAt(rs: seq<Session>, j: int)
    requires 0 <= j < |rs|
    ensures Summaries(rs)[j] == SummaryOf(rs[j])
    decreases |rs|
  {
    if j < |rs| - 1 {
      SummariesAt(rs[..|rs| - 1], j);
      assert rs[..|rs| - 1][j] == rs[j];
    }
  }

  /** The listing holds at most `max(0, n)` entries, newest first, each the
      summary of a stored session with its summary text stripped. */
  lemma {:induction false} RecentSummariesSound(ss: seq<Session>, n: int)
    ensures var r := RecentSummaries(ss, n);
      |r| <= Max(0, n)
      && (forall i, j :: 0 <= i < j < |r| ==> KeyLe(r[j].createdAt, r[i].createdAt))
      && (forall i :: 0 <= i < |r| ==>
            IsStripped(r[i].resumen) && exists s :: s in ss && r[i] == SummaryOf(s))
  {
    var rs := Recent(ss, n);
    var r := RecentSummaries(ss, n);
    forall i | 0 <= i < |r| ensures exists s :: s in ss && r[i] == SummaryOf(s) {
      assert rs[i] in multiset(rs);
      assert rs[i] in multiset(ss);
      SummariesAt(rs, i);
    }
    forall i, j | 0 <= i < j < |r| ensures KeyLe(r[j].createdAt, r[i].createdAt) {
      SummariesAt(rs, i);
      SummariesAt(rs, j);
      assert r[i].createdAt == rs[i].createdAt && r[j].createdAt == rs[j].createdAt;
    }
  }

  /** `MEM`: the local session list. */
  class LocalStore {
    var sessions: seq<Session>

    constructor()
      ensures sessions == []
    {
      sessions := [];
    }

    /** `_crear_sesion`: append one record and return its id. */
    method CrearSesion(ruta: string, texto: string, contexto: string, interpretacion: string,
                       rutaSalida: Option<string>, sesId: string, now: string) returns (id: string)
      modifies this
      ensures sessions == old(sessions) + [NewLocalSession(ruta, texto, contexto, interpretacion, rutaSalida, sesId, now)]
      ensures id == sesId && sessions[|sessions| - 1].id == id
    {
      sessions := sessions + [NewLocalSession(ruta, texto, contexto, interpretacion, rutaSalida, sesId, now)];
      id := sesId;
    }

    /** The scan in `_buscar_sesion`: the position of the first session with this id. */
    method FindIndex(id: string) returns (r: Option<nat>)
      ensures r == FirstWhere(sessions, HasId(id))
    {
      var i := 0;
      while i < |sessions|
        invariant 0 <= i <= |sessions|
        invariant forall j :: 0 <= j < i ==> !HasId(id)(sessions[j])
      {
        if sessions[i].id == id {
          assert HasId(id)(sessions[i]);
          return Some(i);
        }
        i := i + 1;
      }
      return None;
    }

    /** `_buscar_sesion(sesion_id)` */
    method BuscarSesion(id: string) returns (r: Option<Session>)
      ensures r == Lookup(sessions, id)
    {
      var k := FindIndex(id);
      match k {
        case None => r := None;
        case Some(i) => r := Some(sessions[i]);
      }
    }

    /** `_agregar_followup(sesion_id, pregunta, respuesta)`, stamped `now`. */
    method AgregarFollowup(id: string, pregunta: string, respuesta: string, now: string)
      modifies this
      ensures sessions == WithFollowup(old(sessions), id, Followup(now, pregunta, respuesta))
    {
      var k := FindIndex(id);
      match k {
        case None =>
        case Some(i) =>
          sessions := sessions[i := sessions[i].(followups := sessions[i].followups + [Followup(now, pregunta, respuesta)])];
      }
    }

    /** The loop in `interpret_file` that sets `user_id` on the session it
        just created, stopping at the first match. */
    method SetOwner(id: string, user: string)
      modifies this
      ensures sessions == WithOwner(old(sessions), id, user)
    {
      var i := 0;
      while i < |sessions|
        invariant 0 <= i <= |sessions|
        invariant sessions == old(sessions)
        invariant forall j :: 0 <= j < i ==> !HasId(id)(sessions[j])
      {
        if sessions[i].id == id {
          assert HasId(id)(sessions[i]);
          sessions := sessions[i := sessions[i].(userId := Some(user))];
          return;
        }
        i := i + 1;
      }
    }

    /** `_resumen_ultimas_sesiones(n)` */
    method ResumenUltimasSesiones(n: int) returns (res: seq<SessionSummary>)
      ensures res == RecentSummaries(sessions, n)
    {
      var ordenadas := Recent(sessions, n);
      res := [];
      var i := 0;
      while i < |ordenadas|
        invariant 0 <= i <= |ordenadas|
        invariant res == Summaries(ordenadas[..i])
      {
        SummariesStep(ordenadas, i);
        res := res + [SummaryOf(ordenadas[i])];
        i := i + 1;
      }
      assert ordenadas[..i] == ordenadas;
    }

    /** `_memoria_json_compacta(max_sessions, max_followups, max_chars)` */
    method MemoriaJsonCompacta(maxSessions: int, maxFollowups: int, maxChars: int,
                               pretty: seq<Trimmed> -> Encoded, compact: seq<Trimmed> -> Encoded)
      returns (r: string)
      ensures r == Serialise(LocalSelection(sessions, maxSessions, maxFollowups), pretty, compact, maxChars)
    {
      var ordenadas := Recent(sessions, maxSessions);
      var recortadas := TrimLoop(ordenadas, maxFollowups);
      r := Serialise(recortadas, pretty, compact, maxChars);
    }
  }
}

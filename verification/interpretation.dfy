/**
 * `interpret_dream_with_context` (services/interpretation_service.py): the
 * user's compacted history goes into the model payload, the model's answer
 * is normalised by its shape, and a blank or missing answer is replaced by
 * the offline interpretation. The model call is an outcome value; the
 * thread-pool timeout is the `Timeout` outcome.
 */
module InterpretationRule {
  import opened Basics
  import opened PyText
  import opened Offline

  /** The settings config.py reads from the environment. */
  datatype Config = Config(
    llmTimeoutSecs: int, forceOffline: bool, previousN: int, prevFollowupsN: int, prevJsonMaxChars: int)

  /** The values used when the environment sets none. */
  const Defaults: Config := Config(20, false, 5, 3, 20000)

  /** The shapes a model answer can take. `WithContent` is an object with a
      `content` attribute (`None` when it is missing or not a string);
      `Dict` is a dict, `text` its `"text"` entry already passed through
      `str` (`None` when absent); `repr` is what `str(res)` gives. */
  datatype Response =
    | Str(s: string)
    | WithContent(content: Option<string>, repr: string)
    | Dict(text: Option<string>, repr: string)
    | Other(repr: string)

  /** How a model call ends. */
  datatype Outcome = Timeout | Failed(message: string) | Returned(res: Response)

  /** What the interpreter chain receives. */
  datatype Payload = Payload(textoSueno: string, contexto: string, memoriaJson: string)

  /** The normalisation cascade: a string as it is; else a non-blank string
      `content`; else a dict's `"text"`; else `str(res)`. */
  function Normalize(res: Response): (r: string)
    ensures res.Str? ==> r == res.s
    ensures res.WithContent? && res.content.Some? && !IsBlank(res.content.value) ==> r == res.content.value
    ensures res.WithContent? && (res.content.None? || IsBlank(res.content.value)) ==> r == res.repr
    ensures res.Dict? && res.text.Some? ==> r == res.text.value
    ensures res.Dict? && res.text.None? ==> r == res.repr
    ensures res.Other? ==> r == res.repr
  {
    match res
    case Str(s) => s
    case WithContent(content, repr) =>
      if content.Some? && Strip(content.value) != [] then content.value else repr
    case Dict(text, repr) => if text.Some? then text.value else repr
    case Other(repr) => repr
  }

  /** The text before the fallback: empty without a chain or after a
      timeout or an error. */
  function RawInterpretation(chainAvailable: bool, outcome: Outcome): (r: string)
    ensures !chainAvailable ==> r == []
    ensures outcome.Timeout? || outcome.Failed? ==> r == []
    ensures chainAvailable && outcome.Returned? ==> r == Normalize(outcome.res)
  {
    if !chainAvailable then []
    else match outcome
      case Timeout => []
      case Failed(_) => []
      case Returned(res) => Normalize(res)
  }

  /** The interpretation `interpret_dream_with_context` returns. */
  function Interpretation(textoSueno: string, contexto: string, chainAvailable: bool, outcome: Outcome): (r: string)
    ensures !IsBlank(r)
    ensures IsBlank(RawInterpretation(chainAvailable, outcome)) ==> r == InterpretOffline(textoSueno, contexto)
    ensures !IsBlank(RawInterpretation(chainAvailable, outcome)) ==> r == RawInterpretation(chainAvailable, outcome)
  {
    var raw := RawInterpretation(chainAvailable, outcome);
    if Strip(raw) == [] then
      OfflineNeverBlank(textoSueno, contexto);
      InterpretOffline(textoSueno, contexto)
    else raw
  }

  /** The error slot: `None` when the interpretation is non-empty. */
  function ErrorSlot(interpretacion: string): (r: Option<string>)
    ensures r.None? <==> interpretacion != []
  {
    if interpretacion != [] then None else Some("No se pudo generar interpretación")
  }

  /** Without a chain, or after a timeout or an error, the result is
      exactly the offline interpretation. */
  lemma {:induction false} FailureIsOffline(textoSueno: string, contexto: string, chainAvailable: bool, outcome: Outcome)
    requires !chainAvailable || outcome.Timeout? || outcome.Failed?
    ensures Interpretation(textoSueno, contexto, chainAvailable, outcome) == InterpretOffline(textoSueno, contexto)
  {
    assert RawInterpretation(chainAvailable, outcome) == [];
  }

  /** A blank normalised answer is replaced by exactly the offline interpretation. */
  lemma {:induction false} BlankAnswerIsOffline(textoSueno: string, contexto: string, res: Response)
    requires IsBlank(Normalize(res))
    ensures Interpretation(textoSueno, contexto, true, Returned(res)) == InterpretOffline(textoSueno, contexto)
  {
    assert RawInterpretation(true, Returned(res)) == Normalize(res);
  }

  /** The error slot is always empty, since the interpretation never is. */
  lemma {:induction false} NoErrorSlot(textoSueno: string, contexto: string, chainAvailable: bool, outcome: Outcome)
    ensures ErrorSlot(Interpretation(textoSueno, contexto, chainAvailable, outcome)) == None
  {
    var r := Interpretation(textoSueno, contexto, chainAvailable, outcome);
    assert r != [] by { assert !IsBlank(r); }
  }

}

/**
 * The service entry point: the history query with the configured limits,
 * the model call, and the outcome rule above.
 */
module InterpretationService {
  import opened Basics
  import opened PyText
  import opened Offline
  import opened Sessions
  import opened Compactor
  import opened LocalMemory
  import opened MongoStore
  import opened InterpretationRule

  /** The compacted history of `user` with the configured limits: the call
      `_memoria_json_compacta_user(user_id, PREVIOUS_N, PREV_FOLLOWUPS_N,
      PREV_JSON_MAX_CHARS)`. */
  function History(docs: Option<seq<Session>>, queryFails: bool, local: seq<Session>, user: string,
                   cfg: Config, pretty: seq<Trimmed> -> Encoded, compact: seq<Trimmed> -> Encoded): (r: string)
    ensures var data := TrimAll(UserSessions(docs, queryFails, local, user, cfg.previousN), cfg.prevFollowupsN);
      cfg.prevJsonMaxChars >= 1 ==>
        |r| <= cfg.prevJsonMaxChars
        || (pretty(data).Raised? && r == ErrorPayload(pretty(data).message))
        || (compact(data).Raised? && r == ErrorPayload(compact(data).message))
  {
    var data := TrimAll(UserSessions(docs, queryFails, local, user, cfg.previousN), cfg.prevFollowupsN);
    if cfg.prevJsonMaxChars >= 1 then
      SerialiseBound(data, pretty, compact, cfg.prevJsonMaxChars);
      Serialise(data, pretty, compact, cfg.prevJsonMaxChars)
    else
      Serialise(data, pretty, compact, cfg.prevJsonMaxChars)
  }

  /** `interpret_dream_with_context(texto_sueno, contexto_emocional, user_id)`.
      `invoke` is the chain's answer to a payload; the history is read from
      the collection when there is one, else from the local store. */
  method InterpretDreamWithContext(textoSueno: string, contexto: string, user: string, cfg: Config,
                                   chainAvailable: bool, invoke: Payload -> Outcome,
                                   col: SessionCollection?, queryFails: bool, mem: LocalStore,
                                   pretty: seq<Trimmed> -> Encoded, compact: seq<Trimmed> -> Encoded)
    returns (interpretacion: string, error: Option<string>)
    ensures var payload := Payload(textoSueno, contexto, History(DocsOf(col), queryFails, mem.sessions, user, cfg, pretty, compact));
      interpretacion == Interpretation(textoSueno, contexto, chainAvailable, invoke(payload))
    ensures !chainAvailable ==> interpretacion == InterpretOffline(textoSueno, contexto)
    ensures !IsBlank(interpretacion) && error == None
  {
    var memoria := MemoriaJsonCompactaUser(col, queryFails, mem, user, cfg.previousN, cfg.prevFollowupsN,
                                           cfg.prevJsonMaxChars, pretty, compact);
    var outcome := invoke(Payload(textoSueno, contexto, memoria));
    interpretacion := Interpretation(textoSueno, contexto, chainAvailable, outcome);
    error := ErrorSlot(interpretacion);
    NoErrorSlot(textoSueno, contexto, chainAvailable, outcome);
    if !chainAvailable {
      FailureIsOffline(textoSueno, contexto, chainAvailable, outcome);
    }
  }
}

/**
 * The context compactor shared by `_memoria_json_compacta`
 * (reporte6_BernardoBojalil.py) and `_memoria_json_compacta_user`
 * (database.py): each selected session is cut down to six fields and its
 * last follow-ups, and the serialised text is bounded by a character budget.
 * `json.dumps` is a library call; its pretty (`indent=2`) and compact
 * (`separators=(",", ":")`) forms are parameters, and either may raise.
 */
module Compactor {
  import opened Basics
  import opened PyText
  import opened Sessions

  /** The six fields a compacted session keeps. */
  datatype Trimmed = Trimmed(
    id: string, createdAt: string, archivo: string, contexto: string, resumen: string,
    followups: seq<Followup>)

  /** `fu[-max_followups:]` only when `max_followups > 0`; otherwise every follow-up. */
  function TrimFollowups(fu: seq<Followup>, maxFollowups: int): (r: seq<Followup>)
    ensures maxFollowups > 0 ==> r == fu[|fu| - Min(maxFollowups, |fu|)..]
    ensures maxFollowups <= 0 ==> r == fu
  {
    if maxFollowups > 0 then PyFrom(fu, -maxFollowups) else fu
  }

  function Trim(s: Session, maxFollowups: int): (r: Trimmed)
    ensures r.id == s.id && r.createdAt == s.createdAt && r.archivo == s.archivo
    ensures r.contexto == s.contexto && r.resumen == s.resumen
    ensures |r.followups| <= |s.followups| && r.followups == s.followups[|s.followups| - |r.followups|..]
    ensures maxFollowups > 0 ==> |r.followups| == Min(maxFollowups, |s.followups|)
    ensures maxFollowups <= 0 ==> r.followups == s.followups
  {
    Trimmed(s.id, s.createdAt, s.archivo, s.contexto, s.resumen, TrimFollowups(s.followups, maxFollowups))
  }

  /** `recortadas`, one entry per selected session, in the same order. */
  function TrimAll(ss: seq<Session>, maxFollowups: int): (r: seq<Trimmed>)
    ensures |r| == |ss|
    ensures forall i :: 0 <= i < |ss| ==> r[i] == Trim(ss[i], maxFollowups)
  {
    seq(|ss|, i requires 0 <= i < |ss| => Trim(ss[i], maxFollowups))
  }

  /** Each entry copies five fields of its session and keeps a suffix of its
      follow-ups, in their original order: the last `max_followups` of them
      when that is positive, all of them otherwise. */
  lemma {:induction false} TrimAllSound(ss: seq<Session>, maxFollowups: int)
    ensures var r := TrimAll(ss, maxFollowups);
      forall i :: 0 <= i < |ss| ==>
        var s, t := ss[i], r[i];
        t.id == s.id && t.createdAt == s.createdAt && t.archivo == s.archivo
        && t.contexto == s.contexto && t.resumen == s.resumen
        && t.followups == s.followups[|s.followups| - |t.followups|..]
        && (maxFollowups > 0 ==> |t.followups| == Min(maxFollowups, |s.followups|))
        && (maxFollowups <= 0 ==> t.followups == s.followups)
  {
    var r := TrimAll(ss, maxFollowups);
    forall i | 0 <= i < |ss|
      ensures r[i].followups == ss[i].followups[|ss[i].followups| - |r[i].followups|..]
    {
      assert r[i] == Trim(ss[i], maxFollowups);
    }
  }

  /** The outcome of one `json.dumps` call. */
  datatype Encoded = Text(text: string) | Raised(message: string)

  /** The string the `except` clause returns. */
  function ErrorPayload(message: string): (r: string)
    ensures StartsWith(r, "{\"error\": \"no se pudo construir memoria json: ")
    ensures EndsWith(r, message + "\"}")
  {
    var head := "{\"error\": \"no se pudo construir memoria json: ";
    StartsWithConcat(head, message + "\"}");
    EndsWithConcat(head, message + "\"}");
    head + (message + "\"}")
  }

  /** The budget rule: the pretty text if it fits, else the compact text if
      it fits, else the compact text cut to `max_chars - 1`, right-stripped,
      and marked with one "…". */
  function FitToBudget(pretty: string, compact: string, maxChars: int): (r: string)
    ensures |pretty| <= maxChars ==> r == pretty
    ensures |pretty| > maxChars && |compact| <= maxChars ==> r == compact
    ensures |pretty| > maxChars && |compact| > maxChars ==>
      EndsWith(r, Ellipsis) && r[..|r| - 1] <= compact
      && (r[..|r| - 1] == [] || !IsSpace(r[|r| - 2]))
    ensures |pretty| > maxChars && |compact| > maxChars >= 1 ==>
      |r| - 1 <= maxChars - 1
      && forall i :: |r| - 1 <= i < maxChars - 1 ==> IsSpace(compact[i])
    ensures maxChars >= 1 ==> |r| <= maxChars
  {
    if |pretty| > maxChars then
      if |compact| > maxChars then Marked(compact, maxChars - 1) else compact
    else pretty
  }

  /** The text both compactors return for the trimmed `data`. */
  function Serialise(data: seq<Trimmed>, pretty: seq<Trimmed> -> Encoded,
                     compact: seq<Trimmed> -> Encoded, maxChars: int): (r: string)
    ensures pretty(data).Raised? ==> r == ErrorPayload(pretty(data).message)
    ensures pretty(data).Text? && |pretty(data).text| <= maxChars ==> r == pretty(data).text
    ensures pretty(data).Text? && |pretty(data).text| > maxChars ==>
      match compact(data)
      case Raised(m) => r == ErrorPayload(m)
      case Text(c) => r == FitToBudget(pretty(data).text, c, maxChars)
  {
    match pretty(data)
    case Raised(m) => ErrorPayload(m)
    case Text(p) =>
      if |p| > maxChars then
        match compact(data)
        case Raised(m) => ErrorPayload(m)
        case Text(c) => FitToBudget(p, c, maxChars)
      else p
  }

  /** With `max_chars >= 1` the compacted context never exceeds the budget,
      unless an encoder raised and the error text is returned instead. */
  lemma {:induction false} SerialiseBound(data: seq<Trimmed>, pretty: seq<Trimmed> -> Encoded,
                                          compact: seq<Trimmed> -> Encoded, maxChars: int)
    requires maxChars >= 1
    ensures var r := Serialise(data, pretty, compact, maxChars);
      |r| <= maxChars || (pretty(data).Raised? && r == ErrorPayload(pretty(data).message))
      || (compact(data).Raised? && r == ErrorPayload(compact(data).message))
  {
    match pretty(data)
    case Raised(m) =>
    case Text(p) =>
      if |p| > maxChars {
        match compact(data)
        case Raised(m) =>
        case Text(c) => assert |FitToBudget(p, c, maxChars)| <= maxChars;
      }
  }

  /** `t` is the trimmed form of some session of `ss`. */
  predicate TrimmedFrom(t: Trimmed, ss: seq<Session>, maxFollowups: int) {
    exists s :: s in ss && t == Trim(s, maxFollowups)
  }

  /** What `_memoria_json_compacta` serialises: the `max(0, max_sessions)`
      newest sessions, trimmed. */
  function LocalSelection(ss: seq<Session>, maxSessions: int, maxFollowups: int): (r: seq<Trimmed>)
    ensures |r| == Min(Max(0, maxSessions), |ss|)
  {
    TrimAll(Recent(ss, maxSessions), maxFollowups)
  }

  /** The selection holds `min(max(0, max_sessions), len(sessions))` entries
      in non-increasing `created_at` order, each the trimmed form of a stored
      session (`Sessions.RecentIsNewest` says none left out is newer). */
  lemma {:induction false} LocalSelectionSound(ss: seq<Session>, maxSessions: int, maxFollowups: int)
    ensures |LocalSelection(ss, maxSessions, maxFollowups)| == Min(Max(0, maxSessions), |ss|)
    ensures var r := LocalSelection(ss, maxSessions, maxFollowups);
      forall i, j :: 0 <= i < j < |r| ==> KeyLe(r[j].createdAt, r[i].createdAt)
    ensures var r := LocalSelection(ss, maxSessions, maxFollowups);
      forall i :: 0 <= i < |r| ==> TrimmedFrom(r[i], ss, maxFollowups)
  {
    var rs := Recent(ss, maxSessions);
    var r := LocalSelection(ss, maxSessions, maxFollowups);
    forall i | 0 <= i < |r| ensures TrimmedFrom(r[i], ss, maxFollowups) {
      assert rs[i] in multiset(rs);
      assert rs[i] in multiset(ss);
      assert rs[i] in ss;
      assert r[i] == Trim(rs[i], maxFollowups);
    }
    forall i, j | 0 <= i < j < |r| ensures KeyLe(r[j].createdAt, r[i].createdAt) {
      assert r[i] == Trim(rs[i], maxFollowups) && r[j] == Trim(rs[j], maxFollowups);
    }
  }

  /** One entry as the loop body builds it is `Trim` of its session. */
  lemma TrimItem(s: Session, maxFollowups: int, fu: seq<Followup>, item: Trimmed)
    requires fu == if maxFollowups > 0 then PyFrom(s.followups, -maxFollowups) else s.followups
    requires item == Trimmed(s.id, s.createdAt, s.archivo, s.contexto, s.resumen, fu)
    ensures item == Trim(s, maxFollowups)
  {
  }

  /** The append loop that builds `recortadas`. */
  method TrimLoop(sesiones: seq<Session>, maxFollowups: int) returns (recortadas: seq<Trimmed>)
    ensures recortadas == TrimAll(sesiones, maxFollowups)
  {
    recortadas := [];
    var i := 0;
    while i < |sesiones|
      invariant 0 <= i <= |sesiones|
      invariant |recortadas| == i
      invariant forall j :: 0 <= j < i ==> recortadas[j] == Trim(sesiones[j], maxFollowups)
    {
      var fu := sesiones[i].followups;
      if maxFollowups > 0 {
        fu := PyFrom(fu, -maxFollowups);
      }
      var item := Trimmed(sesiones[i].id, sesiones[i].createdAt, sesiones[i].archivo,
                          sesiones[i].contexto, sesiones[i].resumen, fu);
      TrimItem(sesiones[i], maxFollowups, fu, item);
      TrimStep(sesiones, maxFollowups, i, recortadas, item);
      recortadas := recortadas + [item];
      i := i + 1;
    }
    TrimDone(sesiones, maxFollowups, recortadas);
  }

  /** The loop invariant survives appending the entry of session `i`. */
  lemma TrimStep(ss: seq<Session>, maxFollowups: int, i: nat, prev: seq<Trimmed>, item: Trimmed)
    requires i < |ss| && |prev| == i
    requires forall j :: 0 <= j < i ==> prev[j] == Trim(ss[j], maxFollowups)
    requires item == Trim(ss[i], maxFollowups)
    ensures forall j :: 0 <= j < i + 1 ==> (prev + [item])[j] == Trim(ss[j], maxFollowups)
  {
    assert forall j :: 0 <= j < i ==> (prev + [item])[j] == prev[j];
  }

  /** Once every session has its entry, the list is `TrimAll`. */
  lemma TrimDone(ss: seq<Session>, maxFollowups: int, r: seq<Trimmed>)
    requires |r| == |ss|
    requires forall j :: 0 <= j < |ss| ==> r[j] == Trim(ss[j], maxFollowups)
    ensures r == TrimAll(ss, maxFollowups)
  {
  }
}

/**
 * The MongoDB helpers of database.py over an abstract collection: a
 * sequence of documents in natural (insertion) order. `find_one`,
 * `update_one` and `delete_one` act on the first matching document; a
 * driver or network failure is a boolean parameter. Also the user-scoped
 * compactor `_memoria_json_compacta_user`, which reads either the collection
 * or the local store.
 */
module MongoStore {
  import opened Basics
  import opened PyText
  import opened Summary
  import opened Sessions
  import opened Compactor
  import opened LocalMemory

  /** The sessions collection. */
  class SessionCollection {
    var docs: seq<Session>

    constructor(initial: seq<Session>)
      ensures docs == initial
    {
      docs := initial;
    }
  }

  /** The collection's documents, or `None` when no collection is configured. */
  function DocsOf(col: SessionCollection?): (r: Option<seq<Session>>)
    reads col
    ensures r.None? <==> col == null
    ensures col != null ==> r.value == col.docs
  {
    if col == null then None else Some(col.docs)
  }

  /** The summary `_mongo_create_session` stores: the session summary of
      the interpretation, stripped. */
  function MongoResumen(interpretacion: string): (r: string)
    ensures IsStripped(r)
  {
    Strip(ResumenInterpretacion(interpretacion))
  }

  /** The document `_mongo_create_session` inserts: owner and title as given,
      the summary stripped, no follow-ups. */
  function NewMongoSession(ruta: string, texto: string, contexto: string, interpretacion: string,
                           rutaSalida: Option<string>, userId: Option<string>, titulo: Option<string>,
                           sesId: string, now: string): (r: Session)
    ensures r.id == sesId && r.userId == userId && r.title == titulo && r.followups == []
    ensures r.resumen == MongoResumen(interpretacion) && IsStripped(r.resumen)
    ensures r.createdAt == now && r.archivo == ruta && r.outputFile == rutaSalida
  {
    Session(sesId, userId, now, ruta, rutaSalida, contexto, texto, interpretacion, titulo,
            MongoResumen(interpretacion), [])
  }

  /** `_mongo_create_session`: `None` without a collection or when the insert
      fails, otherwise the new id. */
  method MongoCreateSession(col: SessionCollection?, ruta: string, texto: string, contexto: string,
                            interpretacion: string, rutaSalida: Option<string>, userId: Option<string>,
                            titulo: Option<string>, sesId: string, now: string, insertFails: bool)
    returns (r: Option<string>)
    modifies col
    ensures col == null ==> r == None
    ensures col != null && insertFails ==> r == None && col.docs == old(col.docs)
    ensures col != null && !insertFails ==>
      r == Some(sesId)
      && col.docs == old(col.docs) + [NewMongoSession(ruta, texto, contexto, interpretacion, rutaSalida, userId, titulo, sesId, now)]
  {
    if col == null {
      return None;
    }
    if insertFails {
      return None;
    }
    col.docs := col.docs + [NewMongoSession(ruta, texto, contexto, interpretacion, rutaSalida, userId, titulo, sesId, now)];
    return Some(sesId);
  }

  /** The query of `_mongo_get_session`: the id, and the owner when one is given. */
  function GetQuery(id: string, user: string): Session -> bool {
    (s: Session) => s.id == id && (user == [] || s.userId == Some(user))
  }

  /** `_mongo_get_session(sesion_id, user_id)` on the documents `docs`, or
      `None` without a collection (`docs == None`) or when the query fails. */
  function MongoGetSession(docs: Option<seq<Session>>, id: string, user: string, queryFails: bool): (r: Option<Session>)
    ensures r.Some? ==> docs.Some? && r.value in docs.value && r.value.id == id
    ensures r.Some? && user != [] ==> r.value.userId == Some(user)
    ensures docs.Some? && !queryFails && r.None? ==>
      forall s :: s in docs.value ==> s.id != id || (user != [] && s.userId != Some(user))
  {
    match docs
    case None => None
    case Some(ds) =>
      if queryFails then None
      else match FirstWhere(ds, GetQuery(id, user))
        case None =>
          assert forall s :: s in ds ==> !GetQuery(id, user)(s);
          None
        case Some(k) => Some(ds[k])
  }

  /** One document of `_mongo_list_sessions`, after the projection. */
  datatype ListedDoc = ListedDoc(
    id: string, createdAt: string, archivo: string, resumen: string, outputFile: Option<string>,
    title: Option<string>)

  function Project(s: Session): ListedDoc {
    ListedDoc(s.id, s.createdAt, s.archivo, s.resumen, s.outputFile, s.title)
  }

  /** The documents the list query matches: the caller's when `user_id` is
      non-empty, every document otherwise. */
  function ListFilter(ds: seq<Session>, user: string): (r: seq<Session>)
    ensures user == [] ==> r == ds
    ensures user != [] ==> forall i :: 0 <= i < |r| ==> r[i].userId == Some(user)
    ensures user != [] ==> forall s :: s in ds && s.userId == Some(user) ==> s in r
    ensures multiset(r) <= multiset(ds)
  {
    if user != [] then Filter(ds, OwnedBy(user)) else ds
  }

  /** `find(query).sort("created_at", -1).limit(max(1, limit))`, projected. */
  function MongoListSessions(docs: Option<seq<Session>>, limit: int, user: string, queryFails: bool)
    : (r: Option<seq<ListedDoc>>)
    ensures docs.None? || queryFails <==> r.None?
  {
    match docs
    case None => None
    case Some(ds) =>
      if queryFails then None
      else
        var page := ListPage(ds, limit, user);
        Some(seq(|page|, i requires 0 <= i < |page| => Project(page[i])))
  }

  /** The page the list query returns before the projection: the same
      selection as the local store's, with the limit raised to at least 1. */
  function ListPage(ds: seq<Session>, limit: int, user: string): (r: seq<Session>)
    ensures r == Recent(ListFilter(ds, user), Max(1, limit))
  {
    PyTo(SortNewestFirst(ListFilter(ds, user)), Max(1, limit))
  }

  lemma {:induction false} ListPageSound(ds: seq<Session>, limit: int, user: string)
    ensures var page := ListPage(ds, limit, user);
      NewestFirst(page) && |page| <= Max(1, limit) && |page| <= |ds|
      && |page| == Min(Max(1, limit), |ListFilter(ds, user)|)
      && forall i :: 0 <= i < |page| ==> page[i] in ds && (user != [] ==> page[i].userId == Some(user))
  {
    var f := ListFilter(ds, user);
    var sorted := SortNewestFirst(f);
    var page := ListPage(ds, limit, user);
    PrefixNewestFirst(sorted, page);
    PrefixMultiset(sorted, page);
    forall i | 0 <= i < |page| ensures page[i] in ds && (user != [] ==> page[i].userId == Some(user)) {
      assert page[i] in multiset(f);
      if user != [] {
        assert page[i] in Filter(ds, OwnedBy(user));
        assert OwnedBy(user)(page[i]);
      }
      assert page[i] in multiset(ds);
    }
  }

  /** A matching document the page leaves out, or leaves out a copy of, is no
      newer than any listed one. */
  lemma {:induction false} ListPageComplete(ds: seq<Session>, limit: int, user: string)
    ensures var page := ListPage(ds, limit, user);
      forall a, b ::
        (a in page && b in ds && (user != [] ==> b.userId == Some(user)) && multiset(page)[b] < multiset(ds)[b])
        ==> KeyLe(b.createdAt, a.createdAt)
  {
    var f := ListFilter(ds, user);
    var page := ListPage(ds, limit, user);
    SortedPrefixComplete(f, page);
    FilterMultiset(ds, OwnedBy(user));
    forall b | b in ds && (user != [] ==> b.userId == Some(user))
      ensures multiset(f)[b] == multiset(ds)[b]
    {
      if user != [] { assert OwnedBy(user)(b); }
    }
  }

  /** The listing holds at most `max(1, limit)` documents, newest first, each
      the projection of a stored document that belongs to the caller when a
      caller is given. */
  lemma {:induction false} MongoListSound(ds: seq<Session>, limit: int, user: string)
    ensures var r := MongoListSessions(Some(ds), limit, user, false).value;
      |r| <= Max(1, limit) && |r| <= |ds|
      && |r| == Min(Max(1, limit), |ListFilter(ds, user)|)
      && (forall i :: 0 <= i < |r| ==> r[i] == Project(ListPage(ds, limit, user)[i]))
      && (forall i, j :: 0 <= i < j < |r| ==> KeyLe(r[j].createdAt, r[i].createdAt))
      && (forall i :: 0 <= i < |r| ==> ListedFrom(r[i], ds, user))
  {
    var page := ListPage(ds, limit, user);
    ListPageSound(ds, limit, user);
    var r := MongoListSessions(Some(ds), limit, user, false).value;
    assert |r| == |page|;
    ProjectedSound(ds, user, page, r);
  }

  /** Projecting a newest-first page of the caller's stored documents keeps
      the order and lists only such documents. */
  lemma ProjectedSound(ds: seq<Session>, user: string, page: seq<Session>, r: seq<ListedDoc>)
    requires NewestFirst(page)
    requires forall i :: 0 <= i < |page| ==> page[i] in ds && (user != [] ==> page[i].userId == Some(user))
    requires |r| == |page| && forall i :: 0 <= i < |r| ==> r[i] == Project(page[i])
    ensures forall i, j :: 0 <= i < j < |r| ==> KeyLe(r[j].createdAt, r[i].createdAt)
    ensures forall i :: 0 <= i < |r| ==> ListedFrom(r[i], ds, user)
  {
    forall i | 0 <= i < |r| ensures ListedFrom(r[i], ds, user) {
      assert r[i] == Project(page[i]);
    }
    forall i, j | 0 <= i < j < |r| ensures KeyLe(r[j].createdAt, r[i].createdAt) {
      assert r[i] == Project(page[i]) && r[j] == Project(page[j]);
    }
  }

  /** `d` is the projection of a stored document, the caller's when a caller is given. */
  predicate ListedFrom(d: ListedDoc, ds: seq<Session>, user: string) {
    exists s :: s in ds && d == Project(s) && (user != [] ==> s.userId == Some(user))
  }

  /** `_mongo_add_followup`: `$push` onto the first document with this id
      (whoever owns it); true exactly when a document was modified. */
  method MongoAddFollowup(col: SessionCollection?, id: string, pregunta: string, respuesta: string,
                          now: string, updateFails: bool) returns (ok: bool)
    modifies col
    ensures col == null ==> !ok
    ensures col != null && updateFails ==> !ok && col.docs == old(col.docs)
    ensures col != null && !updateFails ==>
      col.docs == WithFollowup(old(col.docs), id, Followup(now, pregunta, respuesta))
      && (ok <==> exists i :: 0 <= i < |old(col.docs)| && old(col.docs)[i].id == id)
  {
    if col == null || updateFails {
      return false;
    }
    var k := FirstWhere(col.docs, HasId(id));
    col.docs := WithFollowup(col.docs, id, Followup(now, pregunta, respuesta));
    ok := k.Some?;
    if k.Some? {
      assert HasId(id)(old(col.docs)[k.value]);
    }
  }

  /** The query of `_mongo_delete_session`: id and owner both match. */
  function DeleteQuery(id: string, user: string): Session -> bool {
    (s: Session) => s.id == id && s.userId == Some(user)
  }

  /** The documents after `delete_one(query)`: the first match removed. */
  function DeleteFirst(ds: seq<Session>, p: Session -> bool): (r: seq<Session>)
    ensures FirstWhere(ds, p).None? ==> r == ds
    ensures FirstWhere(ds, p).Some? ==>
      var k := FirstWhere(ds, p).value; r == ds[..k] + ds[k + 1..]
  {
    match FirstWhere(ds, p)
    case None => ds
    case Some(k) => ds[..k] + ds[k + 1..]
  }

  /** `_mongo_delete_session(sesion_id, user_id)`: 0 without a collection or
      on failure, else the number of documents removed. */
  method MongoDeleteSession(col: SessionCollection?, id: string, user: string, deleteFails: bool)
    returns (deleted: int)
    modifies col
    ensures col == null ==> deleted == 0
    ensures col != null && deleteFails ==> deleted == 0 && col.docs == old(col.docs)
    ensures col != null && !deleteFails ==>
      col.docs == DeleteFirst(old(col.docs), DeleteQuery(id, user))
      && (deleted == 1 <==> exists s :: s in old(col.docs) && s.id == id && s.userId == Some(user))
      && (deleted == 0 || deleted == 1)
  {
    if col == null || deleteFails {
      return 0;
    }
    var k := FirstWhere(col.docs, DeleteQuery(id, user));
    col.docs := DeleteFirst(col.docs, DeleteQuery(id, user));
    if k.Some? {
      assert DeleteQuery(id, user)(old(col.docs)[k.value]);
      deleted := 1;
    } else {
      assert forall s :: s in old(col.docs) ==> !DeleteQuery(id, user)(s);
      deleted := 0;
    }
  }

  /** Deleting removes exactly one document, one that matches both id and
      owner, and keeps the others in order; a document of another owner is
      never removed. */
  lemma {:induction false} DeleteFirstSound(ds: seq<Session>, id: string, user: string)
    ensures var r := DeleteFirst(ds, DeleteQuery(id, user));
      (|r| == |ds| - 1 <==> exists s :: s in ds && s.id == id && s.userId == Some(user))
      && multiset(r) <= multiset(ds)
      && forall s :: s in ds && s.userId != Some(user) ==> multiset(r)[s] == multiset(ds)[s]
  {
    var p := DeleteQuery(id, user);
    match FirstWhere(ds, p)
    case None =>
      assert forall s :: s in ds ==> !p(s);
    case Some(k) =>
      assert p(ds[k]);
      assert ds == ds[..k] + [ds[k]] + ds[k + 1..];
      var r := DeleteFirst(ds, p);
      assert multiset(ds) == multiset(r) + multiset{ds[k]};
  }

  /** A user document. */
  datatype UserDoc = UserDoc(id: string, email: string, hashedPassword: string, nombre: Option<string>,
                             createdAt: string)

  /** The users collection. */
  class UsersCollection {
    var users: seq<UserDoc>

    constructor(initial: seq<UserDoc>)
      ensures users == initial
    {
      users := initial;
    }
  }

  predicate EmailTaken(users: seq<UserDoc>, email: string) {
    exists u :: u in users && u.email == email
  }

  /** `_create_user_mongo`: no collection, a failure or an existing email give
      `None` and insert nothing; otherwise one user is appended. */
  method CreateUserMongo(col: UsersCollection?, email: string, hashedPassword: string,
                         nombre: Option<string>, userId: string, now: string, fails: bool)
    returns (r: Option<string>)
    modifies col
    ensures col == null ==> r == None
    ensures col != null && (fails || EmailTaken(old(col.users), email)) ==>
      r == None && col.users == old(col.users)
    ensures col != null && !fails && !EmailTaken(old(col.users), email) ==>
      r == Some(userId) && col.users == old(col.users) + [UserDoc(userId, email, hashedPassword, nombre, now)]
  {
    if col == null || fails {
      return None;
    }
    if exists u :: u in col.users && u.email == email {
      return None;
    }
    col.users := col.users + [UserDoc(userId, email, hashedPassword, nombre, now)];
    return Some(userId);
  }

  /** Inserting a user never creates a second user with the same email. */
  lemma {:induction false} CreateUserKeepsEmailsUnique(users: seq<UserDoc>, u: UserDoc)
    requires forall i, j :: 0 <= i < j < |users| ==> users[i].email != users[j].email
    requires !EmailTaken(users, u.email)
    ensures var us := users + [u];
      forall i, j :: 0 <= i < j < |us| ==> us[i].email != us[j].email
  {
    var us := users + [u];
    forall i, j | 0 <= i < j < |us| ensures us[i].email != us[j].email {
      if j == |users| {
        assert us[i] == users[i] && users[i] in users;
      } else {
        assert us[i] == users[i] && us[j] == users[j];
      }
    }
  }

  // ------------------------------------------------------ user-scoped context

  /** The sessions `_memoria_json_compacta_user` selects. With a collection
      (`docs` is `Some`), the caller's documents newest first, limited to
      `max(1, max_sessions)`, or none when the query fails. Without one, the
      caller's local sessions newest first, cut with `[:max_sessions]`, which
      for a negative value drops the oldest instead. */
  function UserSessions(docs: Option<seq<Session>>, queryFails: bool, local: seq<Session>,
                        user: string, maxSessions: int): (r: seq<Session>)
    ensures docs.Some? && queryFails ==> r == []
    ensures docs.Some? && !queryFails ==> r == Recent(Filter(docs.value, OwnedBy(user)), Max(1, maxSessions))
    ensures docs.None? && maxSessions >= 0 ==> r == Recent(Filter(local, OwnedBy(user)), maxSessions)
  {
    match docs
    case Some(ds) =>
      if queryFails then [] else PyTo(SortNewestFirst(Filter(ds, OwnedBy(user))), Max(1, maxSessions))
    case None =>
      PyTo(SortNewestFirst(Filter(local, OwnedBy(user))), maxSessions)
  }

  /** Every selected session belongs to the caller, they are newest first,
      and there are at most `max(1, max_sessions)` of them from the
      collection and at most `max(0, max_sessions)` from the local store. */
  lemma {:induction false} UserSessionsSound(docs: Option<seq<Session>>, queryFails: bool, local: seq<Session>,
                                             user: string, maxSessions: int)
    ensures var r := UserSessions(docs, queryFails, local, user, maxSessions);
      NewestFirst(r)
      && (forall i :: 0 <= i < |r| ==> r[i].userId == Some(user))
      && (docs.Some? ==> |r| <= Max(1, maxSessions))
      && (docs.None? && maxSessions >= 0 ==> |r| <= maxSessions)
      && (docs.Some? && queryFails ==> r == [])
  {
    var src := if docs.Some? then docs.value else local;
    var f := Filter(src, OwnedBy(user));
    var r := UserSessions(docs, queryFails, local, user, maxSessions);
    if !(docs.Some? && queryFails) {
      if docs.None? && maxSessions < 0 {
        var sorted := SortNewestFirst(f);
        assert r <= sorted;
        PrefixNewestFirst(sorted, r);
        PrefixMultiset(sorted, r);
      }
      OwnedSelection(src, user, r);
    }
  }

  /** Sessions drawn from the caller's documents belong to the caller. */
  lemma OwnedSelection(src: seq<Session>, user: string, r: seq<Session>)
    requires multiset(r) <= multiset(Filter(src, OwnedBy(user)))
    ensures forall i :: 0 <= i < |r| ==> r[i].userId == Some(user)
  {
    var f := Filter(src, OwnedBy(user));
    forall i | 0 <= i < |r| ensures r[i].userId == Some(user) {
      assert r[i] in multiset(f);
      assert r[i] in f;
      assert OwnedBy(user)(r[i]);
    }
  }

  /** From the collection, `min(max(1, max_sessions), n)` sessions of the
      caller's `n`; from the local store, `min(max_sessions, n)` when
      `max_sessions >= 0`. */
  lemma {:induction false} UserSessionsCount(docs: Option<seq<Session>>, queryFails: bool, local: seq<Session>,
                                             user: string, maxSessions: int)
    ensures var r := UserSessions(docs, queryFails, local, user, maxSessions);
      (docs.Some? && !queryFails ==> |r| == Min(Max(1, maxSessions), |Filter(docs.value, OwnedBy(user))|))
      && (docs.None? && maxSessions >= 0 ==> |r| == Min(maxSessions, |Filter(local, OwnedBy(user))|))
  {
  }

  /** A session of the caller's that the selection leaves out, or leaves out
      a copy of, is no newer than any selected one. */
  lemma {:induction false} UserSessionsComplete(docs: Option<seq<Session>>, queryFails: bool, local: seq<Session>,
                                                user: string, maxSessions: int)
    ensures var r := UserSessions(docs, queryFails, local, user, maxSessions);
      var src := if docs.Some? then docs.value else local;
      forall a, b :: a in r && b in src && b.userId == Some(user) && multiset(r)[b] < multiset(src)[b] ==>
        KeyLe(b.createdAt, a.createdAt)
  {
    var src := if docs.Some? then docs.value else local;
    var f := Filter(src, OwnedBy(user));
    var r := UserSessions(docs, queryFails, local, user, maxSessions);
    if !(docs.Some? && queryFails) {
      SortedPrefixComplete(f, r);
      FilterMultiset(src, OwnedBy(user));
      forall b | b in src && b.userId == Some(user) ensures multiset(f)[b] == multiset(src)[b] {
        assert OwnedBy(user)(b);
      }
    }
  }

  /** The Mongo branch asks for at least one session: with a matching
      document and no failure it returns one even when `max_sessions <= 0`. */
  lemma {:induction false} MongoAsksAtLeastOne(ds: seq<Session>, user: string, maxSessions: int)
    requires maxSessions <= 0
    requires exists s :: s in ds && s.userId == Some(user)
    ensures |UserSessions(Some(ds), false, [], user, maxSessions)| == 1
  {
    var s :| s in ds && s.userId == Some(user);
    assert OwnedBy(user)(s);
    var f := Filter(ds, OwnedBy(user));
    assert s in f;
    assert |SortNewestFirst(f)| == |f| >= 1;
  }

  /** The local branch with a negative `max_sessions` keeps all but the
      `-max_sessions` oldest of the caller's sessions. */
  lemma {:induction false} LocalNegativeLimit(local: seq<Session>, user: string, maxSessions: int)
    requires maxSessions < 0
    ensures |UserSessions(None, false, local, user, maxSessions)|
         == Max(0, |Filter(local, OwnedBy(user))| + maxSessions)
  {
  }

  /** A session without `user_id`, such as every one `_crear_sesion`
      appends (`LocalMemory.NewLocalSession`), is never part of any caller's
      context, from either store. */
  lemma {:induction false} UnownedSessionsIgnored(docs: Option<seq<Session>>, queryFails: bool,
      local: seq<Session>, user: string, maxSessions: int, s: Session)
    requires s.userId == None
    ensures s !in UserSessions(docs, queryFails, local, user, maxSessions)
  {
    var src := if docs.Some? then docs.value else local;
    var f := Filter(src, OwnedBy(user));
    assert !OwnedBy(user)(s);
    assert s !in f;
    var sorted := SortNewestFirst(f);
    assert s !in multiset(sorted);
    var r := UserSessions(docs, queryFails, local, user, maxSessions);
    if !(docs.Some? && queryFails) {
      assert r <= sorted;
      PrefixMultiset(sorted, r);
    }
  }

  /** `_memoria_json_compacta_user(user_id, max_sessions, max_followups, max_chars)`:
      reads the collection when there is one, else the local store. */
  method MemoriaJsonCompactaUser(col: SessionCollection?, queryFails: bool, mem: LocalStore,
                                 user: string, maxSessions: int, maxFollowups: int, maxChars: int,
                                 pretty: seq<Trimmed> -> Encoded, compact: seq<Trimmed> -> Encoded)
    returns (r: string)
    ensures r == Serialise(
      TrimAll(UserSessions(DocsOf(col), queryFails, mem.sessions, user, maxSessions), maxFollowups),
      pretty, compact, maxChars)
  {
    var sesiones: seq<Session>;
    if col != null {
      if queryFails {
        sesiones := [];
      } else {
        sesiones := PyTo(SortNewestFirst(Filter(col.docs, OwnedBy(user))), Max(1, maxSessions));
      }
    } else {
      sesiones := PyTo(SortNewestFirst(Filter(mem.sessions, OwnedBy(user))), maxSessions);
    }
    var recortadas := TrimLoop(sesiones, maxFollowups);
    r := Serialise(recortadas, pretty, compact, maxChars);
  }
}

/**
 * Session records shared by both stores, the recency order on `created_at`
 * and the follow-up history renderer `_historial_followup_texto`
 * (reporte6_BernardoBojalil.py).
 */
module Sessions {
  import opened Basics
  import opened PyText

  /** One follow-up exchange `{at, question, answer}`. */
  datatype Followup = Followup(at: string, question: string, answer: string)

  /** A session record. Local sessions carry no `title` and no `user_id`
      until something sets one; `None` stands for an absent key or null. */
  datatype Session = Session(
    id: string,
    userId: Option<string>,
    createdAt: string,
    archivo: string,
    outputFile: Option<string>,
    contexto: string,
    textoSueno: string,
    interpretacion: string,
    title: Option<string>,
    resumen: string,
    followups: seq<Followup>)

  // ---------------------------------------------------------------- order

  /** Python's `a <= b` on strings: lexicographic by code point (MongoDB's
      binary string order agrees). */
  predicate KeyLe(a: string, b: string)
    decreases |a|
  {
    a == [] || (b != [] && (a[0] < b[0] || (a[0] == b[0] && KeyLe(a[1..], b[1..]))))
  }

  lemma {:induction false} KeyLeTotal(a: string, b: string)
    ensures KeyLe(a, b) || KeyLe(b, a)
    decreases |a|
  {
    if a != [] && b != [] && a[0] == b[0] {
      KeyLeTotal(a[1..], b[1..]);
    }
  }

  lemma {:induction false} KeyLeTrans(a: string, b: string, c: string)
    requires KeyLe(a, b) && KeyLe(b, c)
    ensures KeyLe(a, c)
    decreases |a|
  {
    if a != [] && a[0] == b[0] && b[0] == c[0] {
      KeyLeTrans(a[1..], b[1..], c[1..]);
    }
  }

  /** Newest first: `created_at` never increases along the sequence. */
  predicate NewestFirst(s: seq<Session>) {
    forall i, j :: 0 <= i < j < |s| ==> KeyLe(s[j].createdAt, s[i].createdAt)
  }

  /** Every session in `s` is at most as recent as `k`. */
  predicate AllAtMost(s: seq<Session>, k: string) {
    forall e :: e in s ==> KeyLe(e.createdAt, k)
  }

  /** Putting a session no older than all the others in front keeps the order. */
  lemma ConsNewestFirst(h: Session, t: seq<Session>)
    requires NewestFirst(t) && AllAtMost(t, h.createdAt)
    ensures NewestFirst([h] + t)
  {
    var r := [h] + t;
    forall i, j | 0 <= i < j < |r| ensures KeyLe(r[j].createdAt, r[i].createdAt) {
      assert r[j] == t[j - 1];
      if i > 0 { assert r[i] == t[i - 1]; } else { assert t[j - 1] in t; }
    }
  }

  /** The same elements (as a multiset) keep the same bound. */
  lemma AllAtMostPerm(a: seq<Session>, b: seq<Session>, x: Session, k: string)
    requires multiset(a) == multiset(b) + multiset{x}
    requires AllAtMost(b, k) && KeyLe(x.createdAt, k)
    ensures AllAtMost(a, k)
  {
    forall e | e in a ensures KeyLe(e.createdAt, k) {
      assert e in multiset(a);
      if e != x { assert e in multiset(b); }
    }
  }

  /** Insert `x` after every session at least as recent as it. */
  function Insert(x: Session, t: seq<Session>): (r: seq<Session>)
    requires NewestFirst(t)
    ensures NewestFirst(r)
    ensures multiset(r) == multiset(t) + multiset{x}
    ensures |r| == |t| + 1
  {
    if t == [] then [x]
    else if !KeyLe(x.createdAt, t[0].createdAt) then
      InsertFront(x, t);
      [x] + t
    else
      var rest := Insert(x, t[1..]);
      InsertLater(x, t, rest);
      [t[0]] + rest
  }

  lemma InsertFront(x: Session, t: seq<Session>)
    requires NewestFirst(t) && t != [] && !KeyLe(x.createdAt, t[0].createdAt)
    ensures NewestFirst([x] + t)
  {
    KeyLeTotal(x.createdAt, t[0].createdAt);
    forall e | e in t ensures KeyLe(e.createdAt, x.createdAt) {
      var j :| 0 <= j < |t| && t[j] == e;
      if j > 0 { KeyLeTrans(t[j].createdAt, t[0].createdAt, x.createdAt); }
    }
    ConsNewestFirst(x, t);
  }

  lemma InsertLater(x: Session, t: seq<Session>, rest: seq<Session>)
    requires NewestFirst(t) && t != [] && KeyLe(x.createdAt, t[0].createdAt)
    requires NewestFirst(rest) && multiset(rest) == multiset(t[1..]) + multiset{x}
    ensures NewestFirst([t[0]] + rest)
    ensures multiset([t[0]] + rest) == multiset(t) + multiset{x}
  {
    assert t == [t[0]] + t[1..];
    forall e | e in t[1..] ensures KeyLe(e.createdAt, t[0].createdAt) {
      var j :| 0 <= j < |t[1..]| && t[1..][j] == e;
      assert e == t[j + 1];
    }
    AllAtMostPerm(rest, t[1..], x, t[0].createdAt);
    ConsNewestFirst(t[0], rest);
  }

  /** `sorted(sessions, key=created_at, reverse=True)`: newest first, the
      same sessions, equal keys left in their original order. */
  function SortNewestFirst(s: seq<Session>): (r: seq<Session>)
    ensures NewestFirst(r)
    ensures multiset(r) == multiset(s)
    ensures |r| == |s|
  {
    if s == [] then []
    else
      var init := s[..|s| - 1];
      assert s == init + [s[|s| - 1]];
      Insert(s[|s| - 1], SortNewestFirst(init))
  }

  /** A prefix of a newest-first sequence is newest first. */
  lemma PrefixNewestFirst(s: seq<Session>, p: seq<Session>)
    requires NewestFirst(s) && p <= s
    ensures NewestFirst(p)
  {
    forall i, j | 0 <= i < j < |p| ensures KeyLe(p[j].createdAt, p[i].createdAt) {
      assert p[i] == s[i] && p[j] == s[j];
    }
  }

  /** Every element of a prefix of `s` occurs in `s` at least as often. */
  lemma PrefixMultiset<T>(s: seq<T>, p: seq<T>)
    requires p <= s
    ensures multiset(p) <= multiset(s)
  {
    assert s == p + s[|p|..];
  }

  /** `sorted(sessions, key=created_at, reverse=True)[:max(0, n)]`: the `n`
      most recent sessions, newest first. */
  function Recent(ss: seq<Session>, n: int): (r: seq<Session>)
    ensures |r| == Min(Max(0, n), |ss|)
    ensures NewestFirst(r)
    ensures multiset(r) <= multiset(ss)
  {
    var sorted := SortNewestFirst(ss);
    var r := PyTo(sorted, Max(0, n));
    PrefixNewestFirst(sorted, r);
    PrefixMultiset(sorted, r);
    r
  }

  /** In a newest-first sequence nothing after position `k` is newer than
      anything before it. */
  lemma SplitNewest(sorted: seq<Session>, k: int)
    requires NewestFirst(sorted) && 0 <= k <= |sorted|
    ensures forall a, b :: a in sorted[..k] && b in sorted[k..] ==> KeyLe(b.createdAt, a.createdAt)
  {
    forall a, b | a in sorted[..k] && b in sorted[k..] ensures KeyLe(b.createdAt, a.createdAt) {
      var i :| 0 <= i < k && sorted[..k][i] == a;
      var j :| 0 <= j < |sorted| - k && sorted[k..][j] == b;
      assert sorted[i] == a && sorted[k + j] == b;
    }
  }

  /** The sessions `Recent` leaves out are none of them newer than any it keeps,
      and together with the kept ones they are exactly the stored sessions. */
  lemma {:induction false} RecentIsNewest(ss: seq<Session>, n: int)
    ensures var sorted := SortNewestFirst(ss);
      var kept, dropped := Recent(ss, n), sorted[|Recent(ss, n)|..];
      multiset(kept) + multiset(dropped) == multiset(ss)
      && forall a, b :: a in kept && b in dropped ==> KeyLe(b.createdAt, a.createdAt)
  {
    var sorted := SortNewestFirst(ss);
    var kept := Recent(ss, n);
    var k := |kept|;
    assert kept == sorted[..k];
    MultisetSplit(sorted, k);
    SplitNewest(sorted, k);
  }

  lemma MultisetSplit<T>(s: seq<T>, k: int)
    requires 0 <= k <= |s|
    ensures multiset(s[..k]) + multiset(s[k..]) == multiset(s)
  {
    assert s == s[..k] + s[k..];
  }

  /** `[s for s in ss if p(s)]`, and what a query filter selects. */
  function Filter(ss: seq<Session>, p: Session -> bool): (r: seq<Session>)
    ensures forall i :: 0 <= i < |r| ==> p(r[i])
    ensures forall s :: s in ss && p(s) ==> s in r
    ensures multiset(r) <= multiset(ss)
    ensures |r| <= |ss|
  {
    if ss == [] then []
    else
      var rest := Filter(ss[1..], p);
      assert ss == [ss[0]] + ss[1..];
      if p(ss[0]) then [ss[0]] + rest else rest
  }

  /** Filtering keeps every copy of each element that satisfies `p` and
      no copy of any other. */
  lemma {:induction false} FilterMultiset(ss: seq<Session>, p: Session -> bool)
    ensures forall s :: multiset(Filter(ss, p))[s] == if p(s) then multiset(ss)[s] else 0
    decreases |ss|
  {
    if ss != [] {
      FilterMultiset(ss[1..], p);
      assert ss == [ss[0]] + ss[1..];
    }
  }

  /** Filtering keeps the order: the kept elements of `a` come before
      those of `b`. */
  lemma {:induction false} FilterConcat(a: seq<Session>, b: seq<Session>, p: Session -> bool)
    ensures Filter(a + b, p) == Filter(a, p) + Filter(b, p)
    decreases |a|
  {
    if a == [] {
      assert a + b == b;
    } else {
      assert (a + b)[0] == a[0];
      assert (a + b)[1..] == a[1..] + b;
      FilterConcat(a[1..], b, p);
    }
  }

  lemma {:induction false} FilterSnoc(ss: seq<Session>, x: Session, p: Session -> bool)
    ensures Filter(ss + [x], p) == Filter(ss, p) + (if p(x) then [x] else [])
  {
    FilterConcat(ss, [x], p);
    assert [x][1..] == [];
  }

  /** `s.get("user_id") == user_id`, and the Mongo filter `{"user_id": user_id}`. */
  function OwnedBy(user: string): Session -> bool {
    (s: Session) => s.userId == Some(user)
  }

  // ---------------------------------------------------------------- search

  /** The index of the first session satisfying `p`, as a linear scan finds it. */
  function FirstWhere(ss: seq<Session>, p: Session -> bool): (r: Option<nat>)
    ensures r.None? <==> forall i :: 0 <= i < |ss| ==> !p(ss[i])
    ensures r.Some? ==> r.value < |ss| && p(ss[r.value])
    ensures r.Some? ==> forall j :: 0 <= j < r.value ==> !p(ss[j])
  {
    if ss == [] then None
    else if p(ss[0]) then Some(0)
    else
      match FirstWhere(ss[1..], p)
      case None => None
      case Some(k) => Some(k + 1)
  }

  /** `s.get("id") == sesion_id` */
  function HasId(id: string): Session -> bool {
    (s: Session) => s.id == id
  }

  /** `_buscar_sesion`: the first session with this id, if any. */
  function Lookup(ss: seq<Session>, id: string): (r: Option<Session>)
    ensures r.None? <==> forall i :: 0 <= i < |ss| ==> ss[i].id != id
    ensures r.Some? ==> r.value in ss && r.value.id == id
    ensures r.Some? ==> exists k :: 0 <= k < |ss| && ss[k] == r.value && forall j :: 0 <= j < k ==> ss[j].id != id
  {
    match FirstWhere(ss, HasId(id))
    case Some(k) => Some(ss[k])
    case None => None
  }

  // ---------------------------------------------------------------- history

  const NoHistory: string := "(sin historial)"

  /** `s.get("followups", [])[-max_items:]`: with `max_items > 0` the last
      `max_items`; with 0 the whole list, since `[-0:]` is `[0:]`; with a
      negative value everything but the first `-max_items`. */
  function RetainedFollowups(fu: seq<Followup>, maxItems: int): (r: seq<Followup>)
    ensures maxItems > 0 ==> r == fu[|fu| - Min(maxItems, |fu|)..]
    ensures maxItems == 0 ==> r == fu
    ensures maxItems < 0 ==> r == fu[Min(-maxItems, |fu|)..]
  {
    PyFrom(fu, -maxItems)
  }

  function Block(f: Followup): (r: string)
    ensures StartsWith(r, "Q: " + f.question) && EndsWith(r, "\nA: " + f.answer)
    ensures |r| == |f.question| + |f.answer| + 7
  {
    "Q: " + f.question + "\nA: " + f.answer
  }

  function Blocks(fl: seq<Followup>): (r: seq<string>)
    ensures |r| == |fl|
    ensures forall i :: 0 <= i < |fl| ==> r[i] == Block(fl[i])
  {
    if fl == [] then [] else [Block(fl[0])] + Blocks(fl[1..])
  }

  /** `_historial_followup_texto(s, max_items)` */
  function HistorialTexto(s: Session, maxItems: int): (r: string)
    ensures RetainedFollowups(s.followups, maxItems) == [] ==> r == NoHistory
    ensures var fl := RetainedFollowups(s.followups, maxItems);
      fl != [] ==> r != NoHistory && StartsWith(r, Block(fl[0])) && EndsWith(r, Block(fl[|fl| - 1]))
    ensures var fl := RetainedFollowups(s.followups, maxItems);
      fl != [] ==> r == Join("\n", Blocks(fl))
  {
    var fl := RetainedFollowups(s.followups, maxItems);
    if fl == [] then NoHistory
    else
      var r := Join("\n", Blocks(fl));
      assert r[0] == 'Q' && NoHistory[0] == '(';
      r
  }

  lemma {:induction false} BlocksSnoc(fl: seq<Followup>, f: Followup)
    ensures Blocks(fl + [f]) == Blocks(fl) + [Block(f)]
  {
    var a, b := Blocks(fl + [f]), Blocks(fl) + [Block(f)];
    assert |a| == |b|;
    forall i | 0 <= i < |a| ensures a[i] == b[i] {
      if i < |fl| { assert (fl + [f])[i] == fl[i]; }
    }
  }

  /** With `max_items == 0` the history keeps every follow-up, so recording
      one more adds its block on a line of its own after the old history,
      or replaces the placeholder when there was none. */
  lemma {:induction false} HistorialAppend(s: Session, f: Followup)
    ensures var t := s.(followups := s.followups + [f]);
      HistorialTexto(t, 0) == if s.followups == [] then Block(f) else HistorialTexto(s, 0) + "\n" + Block(f)
  {
    var t := s.(followups := s.followups + [f]);
    assert RetainedFollowups(t.followups, 0) == s.followups + [f];
    BlocksSnoc(s.followups, f);
    if s.followups == [] {
      assert Blocks([f]) == [Block(f)];
    } else {
      var bs := Blocks(s.followups);
      JoinSnoc("\n", bs + [Block(f)]);
      assert (bs + [Block(f)])[..|bs|] == bs;
    }
  }

  /** A session that a prefix of a newest-first sequence leaves out, or
      leaves out a copy of, is no newer than any the prefix keeps. */
  lemma PrefixComplete(sorted: seq<Session>, p: seq<Session>)
    requires NewestFirst(sorted) && p <= sorted
    ensures forall a, b :: a in p && b in sorted && multiset(p)[b] < multiset(sorted)[b] ==>
      KeyLe(b.createdAt, a.createdAt)
  {
    var k := |p|;
    assert p == sorted[..k];
    assert sorted == p + sorted[k..];
    SplitNewest(sorted, k);
    forall a, b | a in p && b in sorted && multiset(p)[b] < multiset(sorted)[b]
      ensures KeyLe(b.createdAt, a.createdAt)
    {
      assert multiset(sorted[k..])[b] > 0;
      assert b in sorted[k..];
    }
  }

  /** A session that a prefix of the newest-first order leaves out, or
      leaves out a copy of, is no newer than any the prefix keeps. */
  lemma {:induction false} SortedPrefixComplete(ss: seq<Session>, p: seq<Session>)
    requires p <= SortNewestFirst(ss)
    ensures forall a, b :: a in p && b in ss && multiset(p)[b] < multiset(ss)[b] ==> KeyLe(b.createdAt, a.createdAt)
  {
    var sorted := SortNewestFirst(ss);
    PrefixComplete(sorted, p);
    assert forall b :: multiset(ss)[b] == multiset(sorted)[b];
    assert forall b :: b in ss <==> b in multiset(sorted);
  }

  /** A session that `Recent` leaves out, or leaves out a copy of, is no
      newer than any it keeps. */
  lemma {:induction false} RecentComplete(ss: seq<Session>, n: int)
    ensures var kept := Recent(ss, n);
      forall a, b :: a in kept && b in ss && multiset(kept)[b] < multiset(ss)[b] ==> KeyLe(b.createdAt, a.createdAt)
  {
    SortedPrefixComplete(ss, Recent(ss, n));
  }
}

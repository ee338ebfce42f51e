/**
 * Section extraction over interpretation texts (reporte6_BernardoBojalil.py):
 * `_buscar_seccion`, `resumen_corto` and `extraer_bloque_por_titulo`, and the
 * summary that a new session stores.
 */
module Summary {
  import opened Basics
  import opened PyText

  const NoContent: string := "(sin contenido)"

  /** `_buscar_seccion`: case-insensitive `find` of a heading. */
  function BuscarSeccion(texto: string, titulo: string): (r: int)
    ensures r == -1 <==> !Contains(Lower(texto), Lower(titulo))
    ensures r != -1 ==> 0 <= r && r + |titulo| <= |texto|
    ensures r != -1 ==> OccursAt(Lower(texto), Lower(titulo), r)
    ensures r != -1 ==> forall j :: 0 <= j < r ==> !OccursAt(Lower(texto), Lower(titulo), j)
  {
    Find(Lower(texto), Lower(titulo))
  }

  /** `min(c for c in cortes if c not in (-1, 0))`, or None when no cut is valid. */
  function MinValidCut(cs: seq<int>): (r: Option<int>)
    ensures r.None? <==> forall i :: 0 <= i < |cs| ==> cs[i] == -1 || cs[i] == 0
    ensures r.Some? ==> r.value in cs && r.value != -1 && r.value != 0
    ensures r.Some? ==> forall i :: 0 <= i < |cs| && cs[i] != -1 && cs[i] != 0 ==> r.value <= cs[i]
  {
    if cs == [] then None
    else
      var rest := MinValidCut(cs[1..]);
      assert forall i :: 1 <= i < |cs| ==> cs[i] == cs[1..][i - 1];
      if cs[0] == -1 || cs[0] == 0 then rest
      else match rest
        case None => Some(cs[0])
        case Some(m) => Some(Min(cs[0], m))
  }

  /** `limite`: where the block starting at a heading ends. */
  function Limit(sub: string, cortes: seq<int>): (r: int)
    requires forall i :: 0 <= i < |cortes| ==> -1 <= cortes[i] <= |sub|
    ensures 0 <= r <= |sub|
  {
    match MinValidCut(cortes)
    case Some(m) => m
    case None => |sub|
  }

  /** The headings that end the block `resumen_corto` extracts. */
  const SummaryHeads: seq<string> :=
    ["Análisis psicológico", "Interpretación general", "Consejo integrador", "---"]

  /** The headings that end the block `extraer_bloque_por_titulo` extracts. */
  const BlockHeads: seq<string> :=
    ["Análisis psicológico", "Consejo integrador", "Resumen simbólico", "---"]

  /** `cortes`: where each heading first occurs in `sub`, or -1. */
  function Cuts(sub: string, heads: seq<string>): (r: seq<int>)
    ensures |r| == |heads|
    ensures forall i :: 0 <= i < |r| ==> -1 <= r[i] <= |sub|
  {
    seq(|heads|, i requires 0 <= i < |heads| => BuscarSeccion(sub, heads[i]))
  }

  /** `i` is where `h` first occurs in `t`, ignoring case. */
  predicate FirstAt(t: string, h: string, i: int) {
    OccursAt(Lower(t), Lower(h), i) && forall j :: 0 <= j < i ==> !OccursAt(Lower(t), Lower(h), j)
  }

  /** The block `sub` starts ends at `e`: at the nearest later place where one
      of `heads` occurs, or at the end. A heading found at the very start of
      `sub` cuts nothing, and neither do its later occurrences, since only
      its first one is looked at. */
  predicate BlockEnd(sub: string, heads: seq<string>, e: int) {
    0 <= e <= |sub|
    && (e == |sub| || exists k :: 0 <= k < |heads| && OccursAt(Lower(sub), Lower(heads[k]), e)
                                && !OccursAt(Lower(sub), Lower(heads[k]), 0))
    && forall k, j :: 0 <= k < |heads| && 0 < j < e && OccursAt(Lower(sub), Lower(heads[k]), j) ==>
         OccursAt(Lower(sub), Lower(heads[k]), 0)
  }

  /** A first occurrence is what `_buscar_seccion` reports. */
  lemma FirstAtFound(t: string, h: string, i: int)
    requires FirstAt(t, h, i)
    ensures BuscarSeccion(t, h) == i
  {
    assert 0 <= i <= |Lower(t)| - |Lower(h)|;
    var r := BuscarSeccion(t, h);
    assert r != -1;
  }

  /** `limite` is where the block ends. */
  lemma LimitIsBlockEnd(sub: string, heads: seq<string>)
    ensures BlockEnd(sub, heads, Limit(sub, Cuts(sub, heads)))
  {
    var cs := Cuts(sub, heads);
    var e := Limit(sub, cs);
    var ls := Lower(sub);
    forall k, j | 0 <= k < |heads| && 0 < j < e && OccursAt(ls, Lower(heads[k]), j)
      ensures OccursAt(ls, Lower(heads[k]), 0)
    {
      assert cs[k] == BuscarSeccion(sub, heads[k]);
      assert 0 <= j <= |ls| - |Lower(heads[k])|;
      assert cs[k] != -1 && cs[k] <= j;
    }
    match MinValidCut(cs)
    case Some(m) =>
      var k :| 0 <= k < |cs| && cs[k] == m;
      assert cs[k] == BuscarSeccion(sub, heads[k]);
      assert OccursAt(ls, Lower(heads[k]), e);
    case None =>
  }

  /** Only one place ends the block. */
  lemma BlockEndUnique(sub: string, heads: seq<string>, e1: int, e2: int)
    requires BlockEnd(sub, heads, e1) && BlockEnd(sub, heads, e2)
    ensures e1 == e2
  {
  }

  /** `sub[:limite]` with `sub = t[start:]`: the block from `start` to the
      first place where one of `heads` cuts it. */
  function SectionBlock(t: string, start: int, heads: seq<string>): (r: string)
    requires 0 <= start <= |t|
    ensures |r| <= |t| - start
  {
    var sub := t[start..];
    sub[..Limit(sub, Cuts(sub, heads))]
  }

  /** The block runs from `start` to where it ends. */
  lemma SectionBlockEnds(t: string, start: int, heads: seq<string>, e: int)
    requires 0 <= start <= |t|
    requires BlockEnd(t[start..], heads, e)
    ensures SectionBlock(t, start, heads) == t[start..start + e]
  {
    var sub := t[start..];
    LimitIsBlockEnd(sub, heads);
    BlockEndUnique(sub, heads, e, Limit(sub, Cuts(sub, heads)));
    assert sub[..e] == t[start..start + e];
  }

  /** `t.split("\n\n")[0]` */
  function FirstParagraph(t: string): (r: string)
    ensures r <= t
    ensures Contains(t, "\n\n") ==> OccursAt(t, "\n\n", |r|)
    ensures !Contains(t, "\n\n") ==> r == t
    ensures forall j :: 0 <= j < |r| ==> !OccursAt(t, "\n\n", j)
  {
    var i := Find(t, "\n\n");
    if i == -1 then t else t[..i]
  }

  /** The text `resumen_corto` keeps before bounding its length: the block from
      "Resumen simbólico" (else "Resumen") to the next known heading, else the
      first paragraph; stripped either way. */
  function Candidate(t: string): (r: string)
    ensures IsStripped(r) && |r| <= |t|
  {
    var start0 := BuscarSeccion(t, "Resumen simbólico");
    var start := if start0 == -1 then BuscarSeccion(t, "Resumen") else start0;
    if start != -1 then
      Strip(SectionBlock(t, start, SummaryHeads))
    else
      Strip(FirstParagraph(t))
  }

  /** With a "Resumen simbólico" heading, or else a "Resumen" one, the
      candidate is the stripped block from its first occurrence to where
      the block ends. */
  lemma CandidateSection(t: string, start: int, e: int)
    requires 0 <= start <= |t|
    requires FirstAt(t, "Resumen simbólico", start)
          || (!Contains(Lower(t), Lower("Resumen simbólico")) && FirstAt(t, "Resumen", start))
    requires BlockEnd(t[start..], SummaryHeads, e)
    ensures Candidate(t) == Strip(t[start..start + e])
  {
    if FirstAt(t, "Resumen simbólico", start) {
      FirstAtFound(t, "Resumen simbólico", start);
    } else {
      FirstAtFound(t, "Resumen", start);
    }
    SectionBlockEnds(t, start, SummaryHeads, e);
  }

  /** Without either heading, the candidate is the stripped first paragraph. */
  lemma CandidateParagraph(t: string)
    requires !Contains(Lower(t), Lower("Resumen"))
    ensures Candidate(t) == Strip(FirstParagraph(t))
  {
    var lt, a, b := Lower(t), Lower("Resumen"), Lower("Resumen simbólico");
    assert b[..|a|] == a;
    if Contains(lt, b) {
      var i :| 0 <= i <= |lt| - |b| && OccursAt(lt, b, i);
      assert lt[i..i + |a|] == b[..|a|];
      assert OccursAt(lt, a, i);
    }
  }

  /** `resumen_corto(texto, max_len)` */
  function ResumenCorto(texto: string, maxLen: int): (r: string)
    ensures texto == [] ==> r == NoContent
    ensures texto != [] && maxLen >= 1 ==> |r| <= maxLen
    ensures texto != [] && |Candidate(Strip(texto))| <= maxLen ==> r == Candidate(Strip(texto)) && IsStripped(r)
    ensures texto != [] && |Candidate(Strip(texto))| > maxLen >= 1 ==>
      EndsWith(r, Ellipsis) && r[..|r| - 1] <= Candidate(Strip(texto))[..maxLen - 1]
    ensures texto != [] && |Candidate(Strip(texto))| > maxLen >= 1 ==>
      (r[..|r| - 1] == [] || !IsSpace(r[|r| - 2])) &&
      forall i :: |r| - 1 <= i < maxLen - 1 ==> IsSpace(Candidate(Strip(texto))[i])
  {
    if texto == [] then NoContent
    else
      var c := Candidate(Strip(texto));
      if |c| > maxLen then
        Marked(c, maxLen - 1)
      else c
  }

  /** What `extraer_bloque_por_titulo` looks for in the lower-cased first line of a block. */
  const HeadingMark: string := "interpretación general"

  /** Drop the first line when it is the "Interpretación general" heading. */
  function DropHeadingLine(bloque: string): (r: string)
    ensures IsStripped(bloque) ==> IsStripped(r)
    ensures bloque == [] || !Contains(Lower(bloque[..LineEnd(bloque)]), HeadingMark) ==> r == bloque
  {
    var lineas := SplitLines(bloque);
    if lineas != [] && Contains(Lower(lineas[0]), HeadingMark)
    then Strip(Join("\n", lineas[1..]))
    else bloque
  }

  /** When the heading is the first line and every line break is '\n',
      the result is the rest of the block after that line, stripped. */
  lemma DropHeadingLineCut(bloque: string)
    requires bloque != [] && Contains(Lower(bloque[..LineEnd(bloque)]), HeadingMark)
    requires OnlyNewlineBreaks(bloque)
    ensures LineEnd(bloque) < |bloque| ==> DropHeadingLine(bloque) == Strip(bloque[LineEnd(bloque) + 1..])
    ensures LineEnd(bloque) == |bloque| ==> DropHeadingLine(bloque) == []
  {
    DropHeadingLineHead(bloque);
    if LineEnd(bloque) < |bloque| {
      StripLinesAfterBreak(bloque);
    } else {
      assert SplitLines(bloque)[1..] == [] by {
        assert SplitLines(bloque) == [bloque];
      }
    }
  }

  /** A proof step of `DropHeadingLineCut`: with the heading in the first
      line, the other lines are joined and stripped. */
  lemma DropHeadingLineHead(bloque: string)
    requires bloque != [] && Contains(Lower(bloque[..LineEnd(bloque)]), HeadingMark)
    ensures DropHeadingLine(bloque) == Strip(Join("\n", SplitLines(bloque)[1..]))
  {
    var lineas := SplitLines(bloque);
    assert lineas != [] && lineas[0] == bloque[..LineEnd(bloque)];
  }

  /** `extraer_bloque_por_titulo(texto, titulo)` */
  function ExtraerBloque(texto: string, titulo: string): (r: Option<string>)
    ensures texto == [] ==> r == None
    ensures !Contains(Lower(Strip(texto)), Lower(titulo)) ==> r == None
    ensures r.Some? ==> r.value != [] && IsStripped(r.value)
    ensures r.Some? ==> texto != [] && Contains(Lower(Strip(texto)), Lower(titulo))
  {
    if texto == [] then None
    else
      var t := Strip(texto);
      var start := BuscarSeccion(t, titulo);
      if start == -1 then None
      else
        var bloque := DropHeadingLine(Strip(SectionBlock(t, start, BlockHeads)));
        if bloque == [] then None else Some(bloque)
  }

  /** When the title occurs, the block is the stripped text from its first
      occurrence to where the block ends, with an "Interpretación general"
      heading line dropped; an empty block is no block. */
  lemma ExtraerBloqueSection(texto: string, titulo: string, start: int, e: int)
    requires texto != []
    requires 0 <= start <= |Strip(texto)| && FirstAt(Strip(texto), titulo, start)
    requires BlockEnd(Strip(texto)[start..], BlockHeads, e)
    ensures var b := DropHeadingLine(Strip(Strip(texto)[start..start + e]));
      ExtraerBloque(texto, titulo) == if b == [] then None else Some(b)
  {
    var t := Strip(texto);
    FirstAtFound(t, titulo, start);
    SectionBlockEnds(t, start, BlockHeads, e);
  }

  /** The summary a new session stores: the "Interpretación general" block,
      else `resumen_corto(interpretacion, 240)`. */
  function ResumenInterpretacion(interpretacion: string): (r: string)
    ensures ExtraerBloque(interpretacion, "Interpretación general").Some? ==> r != []
    ensures ExtraerBloque(interpretacion, "Interpretación general").None? && interpretacion != [] ==> |r| <= 240
    ensures interpretacion == [] ==> r == NoContent
    ensures ExtraerBloque(interpretacion, "Interpretación general").Some? ==>
      r == ExtraerBloque(interpretacion, "Interpretación general").value
    ensures ExtraerBloque(interpretacion, "Interpretación general").None? ==> r == ResumenCorto(interpretacion, 240)
  {
    match ExtraerBloque(interpretacion, "Interpretación general")
    case Some(b) => b
    case None => ResumenCorto(interpretacion, 240)
  }
}

/**
 * The deterministic, network-free interpretation `interpretar_offline`
 * (reporte6_BernardoBojalil.py): four fixed sections, two keyword rules, an
 * excerpt of the dream and, when given, the emotional context.
 *
 * Each section is written as a prefix of the text that follows it
 * (`rest`), so the whole text is one right-nested concatenation.
 */
module Offline {
  import opened Basics
  import opened PyText

  const SummaryHeading: string := "Resumen simbólico:\n"
  const AnalysisHeading: string := "Análisis psicológico:\n"
  const GeneralHeading: string := "Interpretación general:\n"
  const AdviceHeading: string := "Consejo integrador:\n"
  const SummaryLead: string := "- El sueño podría aludir a "
  const ForestTheme: string := "una búsqueda interna y cambio"
  const DefaultTheme: string := "procesos internos"
  const AnalysisBody: string :=
    "- Observa los elementos centrales (lugares, objetos, acciones) y las emociones que despiertan.\n- Atiende tensiones entre deseo y miedo, y señales de transición vital.\n\n"
  const GeneralLead: string :=
    "- Este relato sugiere elaboración de experiencias recientes y necesidades de integración emocional. "
  const GriefClause: string := "Se percibe nostalgia o duelo."
  const AdviceBody: string :=
    "- Escribe el sueño completo, identifica 3 símbolos y compón una frase puente entre lo soñado y tu vida actual.\n\n"
  const FragmentLabel: string := "Fragmento del sueño: "
  const ContextLabel: string := "Contexto emocional: "
  const NoDescription: string := "(sin descripción)"

  /** "bosque" anywhere in the lower-cased, stripped dream selects the forest phrasing. */
  function Theme(t: string): string {
    if Contains(Lower(t), "bosque") then ForestTheme else DefaultTheme
  }

  /** "llor" (llorar, lloraba, ...) adds the grief clause. */
  function Grief(t: string): string {
    if Contains(Lower(t), "llor") then GriefClause else ""
  }

  /** The first line of the stripped dream cut to 120 characters, or a placeholder. */
  function Excerpt(textoSueno: string): (r: string)
    ensures IsBlank(textoSueno) ==> r == NoDescription
    ensures !IsBlank(textoSueno) ==>
      var t := Strip(textoSueno);
      r == t[..Min(120, LineEnd(t))] && |r| <= 120 && NoLineBreak(r)
  {
    var t := Strip(textoSueno);
    if t != [] then
      FirstLineCut(t, 120);
      PyTo(SplitLines(t)[0], 120)
    else NoDescription
  }

  /** The first line cut to `n` characters is a prefix of the text without
      line breaks. */
  lemma {:induction false} FirstLineCut(t: string, n: nat)
    requires t != []
    ensures PyTo(SplitLines(t)[0], n) == t[..Min(n, LineEnd(t))]
    ensures NoLineBreak(PyTo(SplitLines(t)[0], n))
  {
    var first := SplitLines(t)[0];
    var r := PyTo(first, n);
    assert first == t[..LineEnd(t)];
    assert NoLineBreak(first);
    assert forall j :: 0 <= j < |r| ==> r[j] == first[j];
  }

  function SummarySection(t: string, rest: string): string {
    SummaryHeading + (SummaryLead + (Theme(t) + (".\n\n" + rest)))
  }

  function AnalysisSection(rest: string): string {
    AnalysisHeading + (AnalysisBody + rest)
  }

  function GeneralSection(t: string, rest: string): string {
    GeneralHeading + (GeneralLead + (Grief(t) + ("\n\n" + rest)))
  }

  function AdviceSection(rest: string): string {
    AdviceHeading + (AdviceBody + rest)
  }

  function ContextLine(contexto: string): string {
    var c := Strip(contexto);
    if c != [] then ContextLabel + (c + "\n") else ""
  }

  /** The excerpt line and, when the context is not blank, the context line. */
  function Ending(textoSueno: string, contexto: string): string {
    FragmentLabel + (Excerpt(textoSueno) + ("\n" + ContextLine(contexto)))
  }

  /** The four sections, in order, followed by `rest`. */
  function Sections(t: string, rest: string): string {
    SummarySection(t, AnalysisSection(GeneralSection(t, AdviceSection(rest))))
  }

  /** `interpretar_offline(texto_sueno, contexto)` */
  function InterpretOffline(textoSueno: string, contexto: string): string {
    Sections(Strip(textoSueno), Ending(textoSueno, contexto))
  }

  lemma Prefix3(y: string, z: string, w: string, rest: string)
    ensures StartsWith(y + (z + (w + rest)), y + (z + w))
  {
    assert y + (z + (w + rest)) == (y + (z + w)) + rest;
    StartsWithConcat(y + (z + w), rest);
  }

  lemma Prefix4(x: string, y: string, z: string, w: string, rest: string)
    ensures StartsWith(x + (y + (z + (w + rest))), x + (y + (z + w)))
  {
    assert x + (y + (z + (w + rest))) == (x + (y + (z + w))) + rest;
    StartsWithConcat(x + (y + (z + w)), rest);
  }

  /** A text opening with a non-space character is not blank. */
  lemma OpensNonBlank(s: string, p: string)
    requires StartsWith(s, p) && p != [] && !IsSpace(p[0])
    ensures !IsBlank(s)
  {
    assert s[0] == p[0];
  }

  /** What the text after a section contains, the section contains too. */
  lemma SummaryKeeps(t: string, rest: string, sub: string)
    requires Contains(rest, sub)
    ensures Contains(SummarySection(t, rest), sub)
  {
    ContainsGrow(rest, sub, ".\n\n", "");
    ContainsGrow(".\n\n" + rest, sub, Theme(t), "");
    ContainsGrow(Theme(t) + (".\n\n" + rest), sub, SummaryLead, "");
    ContainsGrow(SummaryLead + (Theme(t) + (".\n\n" + rest)), sub, SummaryHeading, "");
  }

  lemma AnalysisKeeps(rest: string, sub: string)
    requires Contains(rest, sub)
    ensures Contains(AnalysisSection(rest), sub)
  {
    ContainsGrow(rest, sub, AnalysisBody, "");
    ContainsGrow(AnalysisBody + rest, sub, AnalysisHeading, "");
  }

  lemma GeneralKeeps(t: string, rest: string, sub: string)
    requires Contains(rest, sub)
    ensures Contains(GeneralSection(t, rest), sub)
  {
    ContainsGrow(rest, sub, "\n\n", "");
    ContainsGrow("\n\n" + rest, sub, Grief(t), "");
    ContainsGrow(Grief(t) + ("\n\n" + rest), sub, GeneralLead, "");
    ContainsGrow(GeneralLead + (Grief(t) + ("\n\n" + rest)), sub, GeneralHeading, "");
  }

  lemma AdviceKeeps(rest: string, sub: string)
    requires Contains(rest, sub)
    ensures Contains(AdviceSection(rest), sub)
  {
    ContainsGrow(rest, sub, AdviceBody, "");
    ContainsGrow(AdviceBody + rest, sub, AdviceHeading, "");
  }

  /** The four sections end with whatever follows them. */
  lemma {:induction false} SectionsEnd(t: string, rest: string)
    ensures EndsWith(Sections(t, rest), rest)
  {
    var v := AdviceSection(rest);
    var g := GeneralSection(t, v);
    var a := AnalysisSection(g);
    EndsWithConcat(AdviceBody, rest);
    EndsWithGrow(AdviceHeading, AdviceBody + rest, rest);
    EndsWithConcat("\n\n", v);
    EndsWithGrow(Grief(t), "\n\n" + v, v);
    EndsWithGrow(GeneralLead, Grief(t) + ("\n\n" + v), v);
    EndsWithGrow(GeneralHeading, GeneralLead + (Grief(t) + ("\n\n" + v)), v);
    EndsWithConcat(AnalysisBody, g);
    EndsWithGrow(AnalysisHeading, AnalysisBody + g, g);
    EndsWithConcat(".\n\n", a);
    EndsWithGrow(Theme(t), ".\n\n" + a, a);
    EndsWithGrow(SummaryLead, Theme(t) + (".\n\n" + a), a);
    EndsWithGrow(SummaryHeading, SummaryLead + (Theme(t) + (".\n\n" + a)), a);
    EndsWithTrans(Sections(t, rest), a, g);
    EndsWithTrans(Sections(t, rest), g, v);
    EndsWithTrans(Sections(t, rest), v, rest);
  }

  lemma EndsWithTrans(s: string, u: string, w: string)
    requires EndsWith(s, u) && EndsWith(u, w)
    ensures EndsWith(s, w)
  {
    assert s[|s| - |w|..] == u[|u| - |w|..];
  }

  /** The four section headings are always present, the summary first. */
  lemma {:induction false} OfflineHasHeadings(textoSueno: string, contexto: string)
    ensures var r := InterpretOffline(textoSueno, contexto);
      StartsWith(r, SummaryHeading)
      && Contains(r, AnalysisHeading) && Contains(r, GeneralHeading) && Contains(r, AdviceHeading)
  {
    var t := Strip(textoSueno);
    var v := AdviceSection(Ending(textoSueno, contexto));
    var g := GeneralSection(t, v);
    var a := AnalysisSection(g);
    StartsWithConcat(SummaryHeading, SummaryLead + (Theme(t) + (".\n\n" + a)));
    StartsWithConcat(AnalysisHeading, AnalysisBody + g);
    StartsWithContains(a, AnalysisHeading);
    SummaryKeeps(t, a, AnalysisHeading);
    StartsWithConcat(GeneralHeading, GeneralLead + (Grief(t) + ("\n\n" + v)));
    StartsWithContains(g, GeneralHeading);
    AnalysisKeeps(g, GeneralHeading);
    SummaryKeeps(t, a, GeneralHeading);
    StartsWithConcat(AdviceHeading, AdviceBody + Ending(textoSueno, contexto));
    StartsWithContains(v, AdviceHeading);
    GeneralKeeps(t, v, AdviceHeading);
    AnalysisKeeps(g, AdviceHeading);
    SummaryKeeps(t, a, AdviceHeading);
  }

  /** The first keyword rule: the summary phrase depends on "bosque". */
  lemma {:induction false} OfflineTheme(textoSueno: string, contexto: string)
    ensures StartsWith(InterpretOffline(textoSueno, contexto), SummaryHeading + (SummaryLead
      + ((if Contains(Lower(Strip(textoSueno)), "bosque") then ForestTheme else DefaultTheme) + ".\n\n")))
  {
    var t := Strip(textoSueno);
    var a := AnalysisSection(GeneralSection(t, AdviceSection(Ending(textoSueno, contexto))));
    Prefix4(SummaryHeading, SummaryLead, Theme(t), ".\n\n", a);
  }

  /** The second keyword rule: the general section carries the grief clause
      exactly when "llor" occurs. */
  lemma {:induction false} OfflineGrief(textoSueno: string, contexto: string)
    ensures Contains(InterpretOffline(textoSueno, contexto),
      GeneralLead + ((if Contains(Lower(Strip(textoSueno)), "llor") then GriefClause else "") + "\n\n"))
  {
    var t := Strip(textoSueno);
    var v := AdviceSection(Ending(textoSueno, contexto));
    var g := GeneralSection(t, v);
    var mid := GeneralLead + (Grief(t) + "\n\n");
    Prefix3(GeneralLead, Grief(t), "\n\n", v);
    StartsWithContains(GeneralLead + (Grief(t) + ("\n\n" + v)), mid);
    ContainsGrow(GeneralLead + (Grief(t) + ("\n\n" + v)), mid, GeneralHeading, "");
    AnalysisKeeps(g, mid);
    SummaryKeeps(t, AnalysisSection(g), mid);
  }

  /** The text ends with the excerpt line, followed by the context line
      exactly when the stripped context is not empty. */
  lemma {:induction false} OfflineEnding(textoSueno: string, contexto: string)
    ensures var r := InterpretOffline(textoSueno, contexto);
      var c := Strip(contexto);
      (c == [] ==> EndsWith(r, FragmentLabel + (Excerpt(textoSueno) + "\n")))
      && (c != [] ==> EndsWith(r, FragmentLabel + (Excerpt(textoSueno) + ("\n" + (ContextLabel + (c + "\n"))))))
  {
    var e := Ending(textoSueno, contexto);
    SectionsEnd(Strip(textoSueno), e);
    if Strip(contexto) == [] {
      assert "\n" + ContextLine(contexto) == "\n";
    }
  }

  /** The offline text is never blank, whatever the input, so it is a valid
      substitute for an empty model response. */
  lemma {:induction false} OfflineNeverBlank(textoSueno: string, contexto: string)
    ensures !IsBlank(InterpretOffline(textoSueno, contexto))
  {
    var t := Strip(textoSueno);
    var a := AnalysisSection(GeneralSection(t, AdviceSection(Ending(textoSueno, contexto))));
    StartsWithConcat(SummaryHeading, SummaryLead + (Theme(t) + (".\n\n" + a)));
    OpensNonBlank(InterpretOffline(textoSueno, contexto), SummaryHeading);
  }
}

/**
 * The output filename rule of `guardar_interpretacion`
 * (reporte6_BernardoBojalil.py): `os.path.splitext` on a POSIX path, then
 * `<base>_interpretado<ext>` with ".txt" for a missing extension, and the
 * refusal to write an interpretation that is blank once stripped.
 */
module OutputFile {
  import opened Basics
  import opened PyText

  /** Python's `s.rfind(c)` for one character. */
  function RFind(s: string, c: char): (r: int)
    ensures -1 <= r < |s|
    ensures r != -1 ==> s[r] == c
    ensures forall j :: r < j < |s| ==> s[j] != c
  {
    if s == [] then -1
    else if s[|s| - 1] == c then |s| - 1
    else RFind(s[..|s| - 1], c)
  }

  /** The last occurrence in `a + b` is in `b` when `b` has one, else it is `a`'s. */
  lemma {:induction false} RFindConcat(a: string, b: string, c: char)
    ensures c in b ==> RFind(a + b, c) == |a| + RFind(b, c)
    ensures c !in b ==> RFind(a + b, c) == RFind(a, c)
    decreases |b|
  {
    if b == [] {
      assert a + b == a;
    } else {
      var ab := a + b;
      assert ab[|ab| - 1] == b[|b| - 1];
      if b[|b| - 1] != c {
        assert ab[..|ab| - 1] == a + b[..|b| - 1];
        RFindConcat(a, b[..|b| - 1], c);
        if c in b {
          var k :| 0 <= k < |b| && b[k] == c;
          assert b[..|b| - 1][k] == c;
        } else {
          assert c !in b[..|b| - 1];
        }
      }
    }
  }

  /** Some character of `p[from..to]` is not a dot. */
  predicate HasNonDot(p: string, from: int, to: int)
    requires 0 <= from <= to <= |p|
  {
    exists k :: from <= k < to && p[k] != '.'
  }

  /** Where `posixpath.splitext` puts the extension: at the last dot, provided
      it follows the last '/' and the file name does not consist of dots only
      up to it (so ".bashrc" has no extension). */
  function ExtStart(p: string): (r: Option<nat>)
    ensures r.Some? ==> r.value < |p| && p[r.value] == '.'
    ensures r.Some? ==> forall j :: r.value < j < |p| ==> p[j] != '.' && p[j] != '/'
    ensures r.Some? ==> r.value == RFind(p, '.') && RFind(p, '/') < r.value
    ensures r.Some? ==> exists k :: RFind(p, '/') < k < r.value && p[k] != '.'
    ensures r.None? ==>
      (RFind(p, '.') <= RFind(p, '/') || forall k :: RFind(p, '/') < k < RFind(p, '.') ==> p[k] == '.')
  {
    var sep := RFind(p, '/');
    var dot := RFind(p, '.');
    if dot > sep && HasNonDot(p, sep + 1, dot) then Some(dot) else None
  }

  /** `os.path.splitext(p)` */
  function SplitExt(p: string): (r: (string, string))
    ensures r.0 + r.1 == p
    ensures r.1 == [] || (r.1[0] == '.' && forall j :: 1 <= j < |r.1| ==> r.1[j] != '.')
    ensures '/' !in r.1
    ensures r.1 == [] <==> ExtStart(p).None?
    ensures ExtStart(p).Some? ==> |r.0| == ExtStart(p).value
  {
    match ExtStart(p)
    case None => (p, [])
    case Some(d) =>
      assert p[..d] + p[d..] == p;
      assert forall j :: 0 <= j < |p[d..]| ==> p[d..][j] == p[d + j];
      (p[..d], p[d..])
  }

  const Suffix: string := "_interpretado"
  const DefaultExt: string := ".txt"

  /** The extension the output keeps: the input's, else ".txt". */
  function OutputExt(ruta: string): (r: string)
    ensures r != [] && r[0] == '.'
    ensures forall j :: 1 <= j < |r| ==> r[j] != '.'
    ensures '/' !in r
    ensures SplitExt(ruta).1 == [] ==> r == DefaultExt
    ensures SplitExt(ruta).1 != [] ==> r == SplitExt(ruta).1
  {
    var e := SplitExt(ruta).1;
    if e == [] then DefaultExt else e
  }

  /** `f"{base}_interpretado{ext if ext else '.txt'}"` */
  function OutputPath(ruta: string): (r: string)
    ensures StartsWith(r, SplitExt(ruta).0)
    ensures EndsWith(r, Suffix + OutputExt(ruta))
  {
    var b := SplitExt(ruta).0;
    StartsWithConcat(b, Suffix + OutputExt(ruta));
    EndsWithConcat(b, Suffix + OutputExt(ruta));
    b + (Suffix + OutputExt(ruta))
  }

  /** A character that does not occur is not found. */
  lemma {:induction false} RFindAbsent(s: string, c: char)
    requires c !in s
    ensures RFind(s, c) == -1
    decreases |s|
  {
    if s != [] {
      assert c !in s[..|s| - 1];
      RFindAbsent(s[..|s| - 1], c);
    }
  }

  /** Appending an extension to a name that has a non-dot character after its
      last '/' is undone by `splitext`. */
  lemma SplitExtAppend(x: string, e: string)
    requires e != [] && e[0] == '.' && '/' !in e
    requires forall j :: 1 <= j < |e| ==> e[j] != '.'
    requires exists k :: RFind(x, '/') < k < |x| && x[k] != '.'
    ensures SplitExt(x + e) == (x, e)
  {
    var q := x + e;
    RFindConcat(x, e, '.');
    RFindConcat([e[0]], e[1..], '.');
    assert [e[0]] + e[1..] == e;
    assert '.' !in e[1..] by {
      forall j | 0 <= j < |e[1..]| ensures e[1..][j] != '.' { assert e[1..][j] == e[j + 1]; }
    }
    RFindAbsent(e[1..], '.');
    var dot := RFind(q, '.');
    assert dot == |x|;
    RFindConcat(x, e, '/');
    var sep := RFind(q, '/');
    assert sep == RFind(x, '/');
    var k :| sep < k < |x| && x[k] != '.';
    assert q[k] == x[k];
    assert HasNonDot(q, sep + 1, dot);
    assert q[..dot] == x;
    assert q[dot..] == e;
  }

  /** A file name that starts with its only dot, such as ".bashrc", has no
      extension, in any directory. */
  lemma DotfileHasNoExt(dir: string, name: string)
    requires dir == [] || dir[|dir| - 1] == '/'
    requires name != [] && name[0] == '.' && '.' !in name[1..] && '/' !in name
    ensures SplitExt(dir + name) == (dir + name, [])
  {
    var q := dir + name;
    assert '.' in name;
    RFindConcat(dir, name, '/');
    RFindConcat(dir, name, '.');
    assert [name[0]] + name[1..] == name;
    RFindConcat([name[0]], name[1..], '.');
    RFindAbsent(name[1..], '.');
    assert RFind(name, '.') == 0;
    var dot := RFind(q, '.');
    assert dot == |dir|;
    var sep := RFind(q, '/');
    if dir == [] {
      RFindAbsent(dir, '/');
    }
    assert sep == |dir| - 1;
    assert !HasNonDot(q, sep + 1, dot);
    assert ExtStart(q).None?;
  }

  /** Splitting the output name gives back the input's base with the suffix,
      and the kept extension: the rule never moves the directory part or
      confuses the suffix with an extension. */
  lemma {:induction false} OutputPathSplits(ruta: string)
    ensures SplitExt(OutputPath(ruta)) == (SplitExt(ruta).0 + Suffix, OutputExt(ruta))
  {
    var b, e := SplitExt(ruta).0, OutputExt(ruta);
    var x := b + Suffix;
    assert OutputPath(ruta) == x + e;
    assert '/' !in Suffix && Suffix[0] == '_';
    RFindConcat(b, Suffix, '/');
    assert RFind(x, '/') == RFind(b, '/') < |b|;
    assert x[|b|] == '_';
    SplitExtAppend(x, e);
  }

  /** What a successful save writes, and where. */
  datatype Written = Written(path: string, contents: string)

  /** `guardar_interpretacion(ruta_original, interpretacion)`; `writeOk` stands
      for the outcome of opening and writing the file. */
  function GuardarInterpretacion(ruta: string, interpretacion: string, writeOk: bool): (r: Option<Written>)
    ensures IsBlank(interpretacion) ==> r == None
    ensures !writeOk ==> r == None
    ensures r.Some? ==> r.value.path == OutputPath(ruta)
    ensures r.Some? ==> r.value.contents == Strip(interpretacion)
    ensures r.Some? ==> r.value.contents != [] && IsStripped(r.value.contents)
    ensures !IsBlank(interpretacion) && writeOk ==> r.Some?
  {
    var contenido := Strip(interpretacion);
    if contenido == [] then None
    else if !writeOk then None
    else Some(Written(OutputPath(ruta), contenido))
  }
}

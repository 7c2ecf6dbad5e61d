/**
 * The display year of the shortcodes: the year a shortcode asks for, or the
 * active cut-off year of the data when it asks for none.
 */
module CorePhp {
  import Js

  /** `SIARHE_ACTIVE_YEAR`. */
  const SIARHE_ACTIVE_YEAR: nat := 2025

  /** A shortcode attribute as PHP hands it over. */
  datatype Atributo = Nulo | Texto(s: string) | Entero(i: int)

  /** `(string) $v`: null is the empty string, an integer its decimal digits. */
  function ComoTexto(v: Atributo): string {
    match v
    case Nulo => ""
    case Texto(s) => s
    case Entero(i) => Js.IntToString(i)
  }

  /** The characters PHP's `trim` removes by default: space, tab, newline, carriage return, NUL and vertical tab. */
  predicate EsEspacioPhp(c: char) {
    c == ' ' || c == '\t' || c == '\n' || c == '\r' || c == '\0' || c == '\U{B}'
  }

  function TrimInicio(s: string): (r: string)
    ensures |r| <= |s| && r == s[|s| - |r|..]
    ensures r == [] || !EsEspacioPhp(r[0])
  {
    if s != [] && EsEspacioPhp(s[0]) then TrimInicio(s[1..]) else s
  }

  function TrimFin(s: string): (r: string)
    ensures |r| <= |s| && r == s[..|r|]
    ensures r == [] || !EsEspacioPhp(r[|r| - 1])
  {
    if s != [] && EsEspacioPhp(s[|s| - 1]) then TrimFin(s[..|s| - 1]) else s
  }

  /** PHP's `trim($s)`. */
  function Trim(s: string): (r: string)
    ensures r == [] || (!EsEspacioPhp(r[0]) && !EsEspacioPhp(r[|r| - 1]))
  {
    var t := TrimInicio(s);
    var r := TrimFin(t);
    assert r != [] ==> r[0] == t[0];
    r
  }

  /** Text with nothing for `trim` to remove. */
  predicate Recortado(s: string) {
    s == [] || (!EsEspacioPhp(s[0]) && !EsEspacioPhp(s[|s| - 1]))
  }

  lemma TrimRecortado(s: string)
    requires Recortado(s)
    ensures Trim(s) == s
  {
    assert TrimInicio(s) == s;
    assert TrimFin(s) == s;
  }

  /** The decimal digits of the active year. */
  lemma AnioActivoTexto()
    ensures Js.IntToString(SIARHE_ACTIVE_YEAR) == "2025"
  {
    assert Js.NatToString(2) == "2";
    assert Js.NatToString(20) == "20";
    assert Js.NatToString(202) == "202";
  }

  /** `siarhe_resolver_anio_visual($anio_atts)`. */
  function ResolverAnioVisual(anio: Atributo): (r: string)
    ensures r != "" && Recortado(r)
    ensures Trim(ComoTexto(anio)) != "" ==> r == Trim(ComoTexto(anio))
    ensures Trim(ComoTexto(anio)) == "" ==> r == "2025"
  {
    var t := Trim(ComoTexto(anio));
    if t != "" then t
    else
      AnioActivoTexto();
      Js.IntToString(SIARHE_ACTIVE_YEAR)
  }

  /** Resolving an already resolved year gives it back. */
  lemma ResolverIdempotente(anio: Atributo)
    ensures ResolverAnioVisual(Texto(ResolverAnioVisual(anio))) == ResolverAnioVisual(anio)
  {
    TrimRecortado(ResolverAnioVisual(anio));
  }

  /** An integer year is shown as its digits; a null attribute shows the active year. */
  lemma ResolverEnteros(i: nat)
    ensures ResolverAnioVisual(Entero(i)) == Js.NatToString(i)
    ensures ResolverAnioVisual(Nulo) == "2025"
  {
    DigitosRecortados(Js.NatToString(i));
    assert ComoTexto(Nulo) == "";
  }

  /** A string of decimal digits has nothing for `trim` to remove. */
  lemma DigitosRecortados(d: string)
    requires d != [] && Js.AllRadixDigits(d, 10)
    ensures Trim(d) == d
  {
    assert Js.IsRadixDigit(d[0], 10) && Js.IsRadixDigit(d[|d| - 1], 10);
    TrimRecortado(d);
  }
}

/**
 * The municipal table. The rows of a municipality CSV are normalised to the wide
 * schema, then rendered for the selected metric in a default order: municipalities
 * by name, then the 8888 row, then the 9999 total. A header click re-sorts the
 * ordinary rows by that column and appends the 8888/9999 rows after them.
 */
module TablaMunicipios {
  import opened Wrappers
  import opened Js
  import opened Ordering
  import Metricas
  import Tablas
  import Normalizacion

  // ---------------------------------------------------------------------------
  // Cell parsing
  // ---------------------------------------------------------------------------

  /** The characters `[^0-9.\-]` does not match. */
  predicate Numerico(c: char) {
    IsDigit(c) || c == '.' || c == '-'
  }

  /**
   * `parseNumFromCell`: the trimmed cell text, stripped of everything but digits,
   * '.' and '-', read by `parseFloat`; NaN when that is not finite.
   */
  function ParseNumFromCell(text: string): (r: Num)
    ensures r.Finite? || r.NaN?
    ensures r.Finite? <==> ParseFloat(KeepNumericChars(text)).Finite?
    ensures r.Finite? ==> r == ParseFloat(KeepNumericChars(text))
  {
    KeepNumericTrim(text);
    var num := ParseFloat(KeepNumericChars(Trim(text)));
    if num.Finite? then num else NaN
  }

  /** Keeping the numeric characters of a concatenation keeps them of each part. */
  lemma {:induction false} KeepNumericConcat(a: string, b: string)
    ensures KeepNumericChars(a + b) == KeepNumericChars(a) + KeepNumericChars(b)
  {
    if a == [] {
      assert a + b == b;
    } else {
      assert (a + b)[1..] == a[1..] + b;
      KeepNumericConcat(a[1..], b);
    }
  }

  /** Whitespace is not numeric, so trimming first changes nothing. */
  lemma KeepNumericTrim(s: string)
    ensures KeepNumericChars(Trim(s)) == KeepNumericChars(s)
  {
    TrimShape(s);
    var i := |s| - |TrimStart(s)|;
    var j := i + |Trim(s)|;
    assert s == s[..i] + s[i..j] + s[j..];
    KeepNumericConcat(s[..i] + s[i..j], s[j..]);
    KeepNumericConcat(s[..i], s[i..j]);
    KeepNumericBlank(s[..i]);
    KeepNumericBlank(s[j..]);
  }

  lemma {:induction false} KeepNumericBlank(s: string)
    requires forall k :: 0 <= k < |s| ==> IsWhiteSpace(s[k])
    ensures KeepNumericChars(s) == []
  {
    if s != [] {
      KeepNumericBlank(s[1..]);
    }
  }

  /**
   * Thousands separators and other stray characters are ignored: removing one
   * non-numeric character from a cell does not change its number.
   */
  lemma SeparadorIgnorado(a: string, c: char, b: string)
    requires !Numerico(c)
    ensures ParseNumFromCell(a + [c] + b) == ParseNumFromCell(a + b)
  {
    assert KeepNumericChars(a + [c] + b) == KeepNumericChars(a + b) by {
      KeepNumericConcat(a + [c], b);
      KeepNumericConcat(a, [c]);
      KeepNumericConcat(a, b);
      assert KeepNumericChars([c]) == [];
    }
  }

  /** A cell that reads as a plain decimal number after stripping parses to that number. */
  lemma CeldaDecimal(text: string)
    requires Tablas.EsNumero(KeepNumericChars(text))
    ensures ParseNumFromCell(text) == Finite(Tablas.ValorNumero(KeepNumericChars(text)))
  {
    Tablas.NumeroParseFloat(KeepNumericChars(text));
  }

  // ---------------------------------------------------------------------------
  // Row normalisation
  // ---------------------------------------------------------------------------

  /** The columns written before the level columns. */
  const CAMPOS_FIJOS: set<string> := {"id", "municipio", "población", "enfermeras_total", "tasa_total"}

  function Cero(): Value {
    Number(Finite(0.0))
  }

  /** `+x || 0`: NaN and zero become 0. */
  function OCero(n: Num): Num {
    if Truthy(Number(n)) then n else Finite(0.0)
  }

  /** The raw population: the accented column when present and not "", else the first of the plain aliases. */
  function PoblacionCruda(d: Record): Value {
    if "población" in d && d["población"] != Str("") then d["población"]
    else Coalesce([Get(d, "poblacion"), Get(d, "POB_TOTAL"), Get(d, "pob_total"), Str("")])
  }

  /** `+(`${pob}`.replace(/[^0-9.\-]/g, "")) || 0`. */
  function PoblacionDe(pob: Value): (r: Num)
    ensures r.Finite?
  {
    var limpio := KeepNumericChars(ToString(pob));
    NumericoNoInfinito(limpio);
    OCero(StringToNumber(limpio))
  }

  /** `+(v ?? legacy ?? 0)`. */
  function Total(d: Record, k: string, legado: string): Value {
    Number(ToNumber(Coalesce([Get(d, k), Get(d, legado), Cero()])))
  }

  /** `+(v || 0)`. */
  function Nivel(d: Record, k: string): Value {
    Number(ToNumber(Or([Get(d, k), Cero()])))
  }

  /** `{ ...d }` with its id, municipality, population and totals assigned. */
  function Asignar(d: Record): Record {
    d["id" := Coalesce([Get(d, "id"), Get(d, "ID"), Get(d, "Id"), Str("")])]
     ["municipio" := Coalesce([Get(d, "municipio"), Get(d, "MUNICIPIO"), Get(d, "Municipio"), Str("")])]
     ["población" := Number(PoblacionDe(PoblacionCruda(d)))]
     ["enfermeras_total" := Total(d, "enfermeras_total", "enfermeras")]
     ["tasa_total" := Total(d, "tasa_total", "tasa")]
  }

  /** `m` with `enfermeras_l` and `tasa_l` assigned for every level `l` of `ls`, in order. */
  function Niveles(m: Record, d: Record, ls: seq<string>): Record {
    if ls == [] then m
    else
      var l := ls[|ls| - 1];
      Niveles(m, d, ls[..|ls| - 1])
        ["enfermeras_" + l := Nivel(d, "enfermeras_" + l)]
        ["tasa_" + l := Nivel(d, "tasa_" + l)]
  }

  /**
   * The row mapper of `generarTablaMunicipios`: the fixed assignments, then the
   * count and rate columns of the eight levels; what it writes is stated by the
   * lemmas below.
   */
  function NormalizarFila(d: Record): (r: Record)
    ensures d.Keys + CAMPOS_FIJOS <= r.Keys
  {
    NivelesConservaClaves(Asignar(d), d, Normalizacion.BASE);
    Niveles(Asignar(d), d, Normalizacion.BASE)
  }

  /** The level assignments only add columns. */
  lemma {:induction false} NivelesConservaClaves(m: Record, d: Record, ls: seq<string>)
    ensures m.Keys <= Niveles(m, d, ls).Keys
  {
    if ls != [] {
      NivelesConservaClaves(m, d, ls[..|ls| - 1]);
    }
  }

  /** The values of the fixed assignments. */
  lemma AsignarValores(d: Record)
    ensures var a := Asignar(d);
      a["id"] == Coalesce([Get(d, "id"), Get(d, "ID"), Get(d, "Id"), Str("")])
      && a["municipio"] == Coalesce([Get(d, "municipio"), Get(d, "MUNICIPIO"), Get(d, "Municipio"), Str("")])
      && a["población"] == Number(PoblacionDe(PoblacionCruda(d)))
      && a["enfermeras_total"] == Total(d, "enfermeras_total", "enfermeras")
      && a["tasa_total"] == Total(d, "tasa_total", "tasa")
  {
    CincoAsignaciones(d, Coalesce([Get(d, "id"), Get(d, "ID"), Get(d, "Id"), Str("")]),
      Coalesce([Get(d, "municipio"), Get(d, "MUNICIPIO"), Get(d, "Municipio"), Str("")]),
      Number(PoblacionDe(PoblacionCruda(d))),
      Total(d, "enfermeras_total", "enfermeras"), Total(d, "tasa_total", "tasa"));
  }

  lemma CincoAsignaciones(d: Record, id: Value, mun: Value, pob: Value, enf: Value, tasa: Value)
    ensures var a := d["id" := id]["municipio" := mun]["población" := pob]["enfermeras_total" := enf]["tasa_total" := tasa];
      a["id"] == id && a["municipio"] == mun && a["población"] == pob
      && a["enfermeras_total"] == enf && a["tasa_total"] == tasa
  {
    assert "id" != "municipio" && "id" != "población" && "id" != "enfermeras_total" && "id" != "tasa_total";
    assert "municipio"[0] != "población"[0];
    assert "municipio" != "enfermeras_total" && "municipio" != "tasa_total";
    assert "población" != "enfermeras_total" && "población" != "tasa_total";
    assert "enfermeras_total" != "tasa_total";
  }

  /** The fixed assignments add the fixed columns and copy every other one. */
  lemma AsignarClaves(d: Record, k: string)
    ensures k in Asignar(d) <==> k in d || k in CAMPOS_FIJOS
    ensures k in d && k !in CAMPOS_FIJOS ==> Asignar(d)[k] == d[k]
  {
  }

  /** Where the level assignments write, and what. */
  lemma {:induction false} NivelesAt(m: Record, d: Record, ls: seq<string>, k: string)
    ensures k in Niveles(m, d, ls) <==> k in m || Normalizacion.LevelKey(ls, k)
    ensures Normalizacion.LevelKey(ls, k) ==> Niveles(m, d, ls)[k] == Nivel(d, k)
    ensures !Normalizacion.LevelKey(ls, k) && k in m ==> Niveles(m, d, ls)[k] == m[k]
  {
    if ls != [] {
      var p := ls[..|ls| - 1];
      var l := ls[|ls| - 1];
      NivelesAt(m, d, p, k);
      Normalizacion.LevelKeyLast(ls, k);
    }
  }

  /** No fixed column is a level column. */
  lemma FijosNoSonNiveles(k: string)
    requires k in CAMPOS_FIJOS
    ensures !Normalizacion.LevelKey(Normalizacion.BASE, k)
  {
    if k == "enfermeras_total" || k == "tasa_total" {
      Normalizacion.TotalNotLevel([]);
      assert Normalizacion.BASE + [] == Normalizacion.BASE;
    } else {
      Normalizacion.NotLevelKey(Normalizacion.BASE, k);
    }
  }

  /**
   * A normalised row has the input's columns, the fixed columns and the sixteen
   * level columns; every other column is copied unchanged, and each fixed column
   * holds its assigned value.
   */
  lemma ClavesNormalizadas(d: Record, k: string)
    ensures var r := NormalizarFila(d);
      (k in r <==> k in d || k in CAMPOS_FIJOS || Normalizacion.LevelKey(Normalizacion.BASE, k))
      && (k in d && k !in CAMPOS_FIJOS && !Normalizacion.LevelKey(Normalizacion.BASE, k) ==> r[k] == d[k])
      && (k in CAMPOS_FIJOS ==> r[k] == Asignar(d)[k])
  {
    NivelesAt(Asignar(d), d, Normalizacion.BASE, k);
    AsignarClaves(d, k);
    if k in CAMPOS_FIJOS {
      FijosNoSonNiveles(k);
    }
  }

  /** A string of digits, '.' and '-' never converts to an infinity. */
  lemma NumericoNoInfinito(s: string)
    requires forall i :: 0 <= i < |s| ==> Numerico(s[i])
    ensures !StringToNumber(s).Infinity?
  {
    assert NoWhiteSpace(s);
    NoWhiteSpaceUnchanged(s);
    if |s| > 2 && s[0] == '0' {
      assert Numerico(s[1]);
    }
    var u := if s != [] && (s[0] == '+' || s[0] == '-') then s[1..] else s;
    assert u != "Infinity" by {
      if |u| == 8 {
        assert u[0] == s[|s| - |u|] && Numerico(s[|s| - |u|]);
      }
    }
  }

  /** A level column that is missing, empty or zero becomes 0; any other value is converted with `+`. */
  lemma NivelNormalizado(d: Record, l: string)
    requires l in Normalizacion.BASE
    ensures var r := NormalizarFila(d);
      forall k :: k == "enfermeras_" + l || k == "tasa_" + l ==>
        k in r && r[k].Number?
        && (!Truthy(Get(d, k)) ==> r[k] == Cero())
        && (Truthy(Get(d, k)) ==> r[k] == Number(ToNumber(d[k])))
  {
    Normalizacion.RateColumnIsLevel(Normalizacion.BASE, l);
    NivelesAt(Asignar(d), d, Normalizacion.BASE, "enfermeras_" + l);
    NivelesAt(Asignar(d), d, Normalizacion.BASE, "tasa_" + l);
  }

  /** The population column holds the converted raw population, so it is always a finite number. */
  lemma PoblacionFinita(d: Record)
    ensures var r := NormalizarFila(d);
      "población" in r && r["población"] == Number(PoblacionDe(PoblacionCruda(d))) && r["población"].n.Finite?
  {
    ClavesNormalizadas(d, "población");
    AsignarValores(d);
  }

  /**
   * A present, non-empty accented column wins over the plain aliases; without
   * it the first non-nullish plain alias is read, and 0 when there is none.
   */
  lemma PoblacionPreferida(d: Record)
    ensures var r := NormalizarFila(d);
      "población" in r
      && ("población" in d && d["población"] != Str("") ==> r["población"] == Number(PoblacionDe(d["población"])))
      && (("población" !in d || d["población"] == Str("")) && !IsNullish(Get(d, "poblacion")) ==>
        r["población"] == Number(PoblacionDe(d["poblacion"])))
      && (("población" !in d || d["población"] == Str(""))
          && IsNullish(Get(d, "poblacion")) && IsNullish(Get(d, "POB_TOTAL")) && IsNullish(Get(d, "pob_total")) ==>
        r["población"] == Cero())
  {
    var r := NormalizarFila(d);
    PoblacionFinita(d);
    var x := PoblacionCruda(d);
    assert r["población"] == Number(PoblacionDe(x));
    PoblacionCrudaCasos(d);
    PoblacionVacia();
  }

  /** An empty population converts to 0. */
  lemma PoblacionVacia()
    ensures Number(PoblacionDe(Str(""))) == Cero()
  {
    assert StringToNumber("") == Finite(0.0);
  }

  lemma PoblacionCrudaCasos(d: Record)
    ensures "población" in d && d["población"] != Str("") ==> PoblacionCruda(d) == d["población"]
    ensures ("población" !in d || d["población"] == Str("")) && !IsNullish(Get(d, "poblacion")) ==>
      PoblacionCruda(d) == d["poblacion"]
    ensures (("población" !in d || d["población"] == Str(""))
      && IsNullish(Get(d, "poblacion")) && IsNullish(Get(d, "POB_TOTAL")) && IsNullish(Get(d, "pob_total"))) ==>
      PoblacionCruda(d) == Str("")
  {
  }

  /** Thousands separators in the population text are ignored. */
  lemma PoblacionSeparador(a: string, c: char, b: string)
    requires !Numerico(c)
    ensures PoblacionDe(Str(a + [c] + b)) == PoblacionDe(Str(a + b))
  {
    assert KeepNumericChars(a + [c] + b) == KeepNumericChars(a + b) by {
      KeepNumericConcat(a + [c], b);
      KeepNumericConcat(a, [c]);
      KeepNumericConcat(a, b);
      assert KeepNumericChars([c]) == [];
    }
  }

  /** The totals fall back to the legacy `enfermeras` and `tasa` columns, and to 0. */
  lemma TotalesNormalizados(d: Record, k: string, legado: string)
    requires (k, legado) == ("enfermeras_total", "enfermeras") || (k, legado) == ("tasa_total", "tasa")
    ensures var r := NormalizarFila(d);
      k in r
      && (!IsNullish(Get(d, k)) ==> r[k] == Number(ToNumber(d[k])))
      && (IsNullish(Get(d, k)) && !IsNullish(Get(d, legado)) ==> r[k] == Number(ToNumber(d[legado])))
      && (IsNullish(Get(d, k)) && IsNullish(Get(d, legado)) ==> r[k] == Cero())
  {
    ClavesNormalizadas(d, k);
    AsignarValores(d);
  }

  /** The id is the first non-nullish of `id`, `ID` and `Id`, and "" when all are missing; it is not trimmed. */
  lemma IdNormalizado(d: Record)
    ensures var r := NormalizarFila(d);
      "id" in r
      && (!IsNullish(Get(d, "id")) ==> r["id"] == d["id"])
      && (IsNullish(Get(d, "id")) && !IsNullish(Get(d, "ID")) ==> r["id"] == d["ID"])
      && (IsNullish(Get(d, "id")) && IsNullish(Get(d, "ID")) && IsNullish(Get(d, "Id")) ==> r["id"] == Str(""))
  {
    ClavesNormalizadas(d, "id");
    AsignarValores(d);
  }

  // ---------------------------------------------------------------------------
  // Default order
  // ---------------------------------------------------------------------------

  /** `d.id === id`: a strict comparison with a string. */
  predicate EsId(d: Record, id: string) {
    Get(d, "id") == Str(id)
  }

  /** The rows kept at the end: the 8888 row and the 9999 total. */
  predicate EspecialRegistro(d: Record) {
    EsId(d, "8888") || EsId(d, "9999")
  }

  /** The municipality name as the collator reads it. */
  function Nombre(d: Record): string {
    ToString(Get(d, "municipio"))
  }

  /** The comparator of `renderTabla`'s default sort. */
  function PorDefecto(collate: Tablas.Collation): (r: (Record, Record) -> real)
    ensures forall a, b :: EsId(a, "9999") && !EsId(b, "9999") ==> r(a, b) > 0.0 && r(b, a) < 0.0
    ensures forall a, b :: EsId(a, "8888") && !EsId(b, "8888") && !EsId(b, "9999") ==> r(a, b) > 0.0 && r(b, a) < 0.0
    ensures forall a, b :: !EsId(a, "9999") && !EsId(b, "9999") && !EsId(a, "8888") && !EsId(b, "8888") ==>
      r(a, b) == collate(Nombre(a), Nombre(b))
  {
    (a: Record, b: Record) =>
      if EsId(a, "9999") then 1.0
      else if EsId(b, "9999") then -1.0
      else if EsId(a, "8888") then 1.0
      else if EsId(b, "8888") then -1.0
      else collate(Nombre(a), Nombre(b))
  }

  /**
   * At most one row has id `id`, and it occurs once. The default comparator
   * answers 1 when both rows have id 9999 (or both 8888), so only then is it
   * a consistent comparator.
   */
  ghost predicate Unica(xs: seq<Record>, id: string) {
    forall a, b :: a in xs && b in xs && EsId(a, id) && EsId(b, id) ==> a == b && multiset(xs)[a] == 1
  }

  /** With single 8888 and 9999 rows and an antisymmetric collation the default comparator is antisymmetric. */
  lemma PorDefectoAntisimetrico(xs: seq<Record>, collate: Tablas.Collation)
    requires Tablas.CollationAntisimetrica(collate) && Unica(xs, "8888") && Unica(xs, "9999")
    ensures Antisymmetric(PorDefecto(collate), xs)
  {
    var cmp := PorDefecto(collate);
    forall a, b | a in xs && b in xs && cmp(a, b) > 0.0
      ensures cmp(b, a) <= 0.0 || (a == b && multiset(xs)[a] == 1)
    {
      if !EspecialRegistro(a) && !EspecialRegistro(b) {
        assert collate(Nombre(a), Nombre(b)) == -collate(Nombre(b), Nombre(a));
      }
    }
  }

  /**
   * The default order: the 9999 total is last, the 8888 row can only be followed
   * by it, the special rows come after every municipality, and consecutive
   * municipalities are in collation order. The rows are a permutation of the input.
   */
  lemma OrdenPorDefecto(xs: seq<Record>, collate: Tablas.Collation)
    requires Tablas.CollationAntisimetrica(collate) && Unica(xs, "8888") && Unica(xs, "9999")
    ensures var r := SortBy(xs, PorDefecto(collate));
      multiset(r) == multiset(xs)
      && (forall i :: 0 <= i < |r| - 1 ==> !EsId(r[i], "9999"))
      && (forall i :: 0 <= i < |r| - 1 && EsId(r[i], "8888") ==> EsId(r[i + 1], "9999"))
      && (forall i, j :: 0 <= i < j < |r| && EspecialRegistro(r[i]) ==> EspecialRegistro(r[j]))
      && (forall i :: 0 <= i < |r| - 1 && !EspecialRegistro(r[i]) && !EspecialRegistro(r[i + 1]) ==>
            collate(Nombre(r[i]), Nombre(r[i + 1])) <= 0.0)
  {
    PorDefectoAntisimetrico(xs, collate);
    SortBySorted(xs, PorDefecto(collate));
    OrdenadoPorDefecto(SortBy(xs, PorDefecto(collate)), collate);
  }

  /** What a sequence sorted by the default comparator looks like. */
  lemma OrdenadoPorDefecto(r: seq<Record>, collate: Tablas.Collation)
    requires SortedBy(r, PorDefecto(collate))
    ensures forall i :: 0 <= i < |r| - 1 ==> !EsId(r[i], "9999")
    ensures forall i :: 0 <= i < |r| - 1 && EsId(r[i], "8888") ==> EsId(r[i + 1], "9999")
    ensures forall i, j :: 0 <= i < j < |r| && EspecialRegistro(r[i]) ==> EspecialRegistro(r[j])
    ensures forall i :: 0 <= i < |r| - 1 && !EspecialRegistro(r[i]) && !EspecialRegistro(r[i + 1]) ==>
      collate(Nombre(r[i]), Nombre(r[i + 1])) <= 0.0
  {
    forall i | 0 <= i < |r| - 1 ensures DefectoPar(r[i], r[i + 1], collate) {
      DefectoAdyacente(r[i], r[i + 1], collate);
    }
    forall i | 0 <= i < |r| - 1
      ensures !EsId(r[i], "9999") && (EsId(r[i], "8888") ==> EsId(r[i + 1], "9999"))
      ensures !EspecialRegistro(r[i]) && !EspecialRegistro(r[i + 1]) ==> collate(Nombre(r[i]), Nombre(r[i + 1])) <= 0.0
    {
      assert DefectoPar(r[i], r[i + 1], collate);
    }
    forall i, j | 0 <= i < j < |r| && EspecialRegistro(r[i]) ensures EspecialRegistro(r[j]) {
      assert DefectoPar(r[i], r[i + 1], collate);
    }
  }

  /** What two neighbours in the default order satisfy. */
  predicate DefectoPar(a: Record, b: Record, collate: Tablas.Collation) {
    !EsId(a, "9999")
    && (EsId(a, "8888") ==> EsId(b, "9999"))
    && (!EspecialRegistro(a) && !EspecialRegistro(b) ==> collate(Nombre(a), Nombre(b)) <= 0.0)
  }

  lemma DefectoAdyacente(a: Record, b: Record, collate: Tablas.Collation)
    requires PorDefecto(collate)(a, b) <= 0.0
    ensures DefectoPar(a, b, collate)
  {
  }

  // ---------------------------------------------------------------------------
  // Rendering
  // ---------------------------------------------------------------------------

  /** The nurse and rate cells of a population metric. */
  const GUION: string := "-"

  /** The rate cell of a non-finite rate. */
  const SIN_DATO: string := "—"

  /** `+(d[k] || 0)`. */
  function Valor(d: Record, k: string): Num {
    ToNumber(Or([Get(d, k), Cero()]))
  }

  /**
   * The row `renderTabla` builds for `d`: its `data-id`, the total class for the
   * 9999 row, and the municipality, population, nurse and rate cells. `fmt` is
   * `toLocaleString("es-MX")`.
   */
  function FilaMunicipio(d: Record, metricKey: string, fmt: Num -> string): (r: Tablas.FilaDom)
    ensures r.id == ToString(Get(d, "id")) && r.total == EsId(d, "9999") && |r.celdas| == 4
    ensures r.celdas[0] == Nombre(d) && r.celdas[1] == fmt(ToNumber(Get(d, "población")))
  {
    Tablas.FilaDom(ToString(Get(d, "id")), EsId(d, "9999"),
      [Nombre(d), fmt(ToNumber(Get(d, "población")))] + CeldasMetrica(d, metricKey, fmt))
  }

  /** The nurse and rate cells of `d` under `metricKey`. */
  function CeldasMetrica(d: Record, metricKey: string, fmt: Num -> string): (r: seq<string>)
    ensures |r| == 2
  {
    var def := Metricas.Def(metricKey);
    var t := Valor(d, def.tasaKey);
    if Tablas.EsMetricaPoblacion(metricKey) then [GUION, GUION]
    else [fmt(Valor(d, def.countKey)), if t.Finite? then ToFixed(t.r, 2) else SIN_DATO]
  }

  /**
   * A population metric shows "-" for nurses and rate; any other metric shows the
   * formatted count of its count column and its rate column with two decimals,
   * or "—" when the rate is not finite.
   */
  lemma CeldasDeMetrica(d: Record, metricKey: string, fmt: Num -> string)
    ensures var r := FilaMunicipio(d, metricKey, fmt);
      (Tablas.EsMetricaPoblacion(metricKey) ==> r.celdas[2] == GUION && r.celdas[3] == GUION)
      && (!Tablas.EsMetricaPoblacion(metricKey) ==>
        var t := Valor(d, Metricas.TasaKey(metricKey));
        r.celdas[2] == fmt(Valor(d, Metricas.CountKey(metricKey)))
        && (t.Finite? ==> r.celdas[3] == ToFixed(t.r, 2))
        && (!t.Finite? ==> r.celdas[3] == SIN_DATO))
  {
  }

  /** An unknown metric that is not a population metric renders like `tasa_total`. */
  lemma MetricaDesconocida(d: Record, metricKey: string, fmt: Num -> string)
    requires metricKey !in Metricas.METRICAS && !Tablas.EsMetricaPoblacion(metricKey)
    ensures FilaMunicipio(d, metricKey, fmt) == FilaMunicipio(d, "tasa_total", fmt)
  {
    Tablas.ClavesDeTasa(0);
    Tablas.NoPoblacion(Metricas.METRIC_ORDER[0]);
  }

  /** The body `renderTabla` paints: a copy of the rows in the default order, each rendered. */
  function Cuerpo(cache: seq<Record>, metricKey: string, collate: Tablas.Collation, fmt: Num -> string): (r: seq<Tablas.FilaDom>)
    ensures |r| == |cache|
    ensures forall f :: f in r ==> |f.celdas| == 4
  {
    MapSeq(SortBy(cache, PorDefecto(collate)), d => FilaMunicipio(d, metricKey, fmt))
  }

  /** With a single 9999 row, only the last rendered row can carry the total class. */
  lemma TotalAlFinal(cache: seq<Record>, metricKey: string, collate: Tablas.Collation, fmt: Num -> string)
    requires Tablas.CollationAntisimetrica(collate) && Unica(cache, "8888") && Unica(cache, "9999")
    ensures var r := Cuerpo(cache, metricKey, collate, fmt);
      forall i :: 0 <= i < |r| && r[i].total ==> i == |r| - 1
  {
    OrdenPorDefecto(cache, collate);
  }

  // ---------------------------------------------------------------------------
  // Column sort
  // ---------------------------------------------------------------------------

  /** `["8888", "9999"].includes(f.dataset.id)`. */
  predicate EspecialDom(f: Tablas.FilaDom) {
    f.id == "8888" || f.id == "9999"
  }

  /** A municipality row, neither 8888 nor 9999. */
  predicate Ordinaria(f: Tablas.FilaDom) {
    !EspecialDom(f)
  }

  function Normales(fs: seq<Tablas.FilaDom>): seq<Tablas.FilaDom> {
    Filter(fs, Ordinaria)
  }

  function Especiales(fs: seq<Tablas.FilaDom>): seq<Tablas.FilaDom> {
    Filter(fs, EspecialDom)
  }

  /** The numeric comparison of two parsed cells: NaN equals NaN and sorts after every number. */
  function CompararNum(a: Num, b: Num): real
    requires !a.Infinity? && !b.Infinity?
  {
    if a.NaN? && b.NaN? then 0.0
    else if a.NaN? then 1.0
    else if b.NaN? then -1.0
    else a.r - b.r
  }

  /** The header comparator: column 0 by collation of the trimmed text, the others numerically; negated when descending. */
  function PorColumna(idx: nat, asc: bool, collate: Tablas.Collation): (Tablas.FilaDom, Tablas.FilaDom) -> real {
    (a: Tablas.FilaDom, b: Tablas.FilaDom) =>
      var res :=
        if idx == 0 then collate(Trim(Tablas.Celda(a, 0)), Trim(Tablas.Celda(b, 0)))
        else CompararNum(ParseNumFromCell(Tablas.Celda(a, idx)), ParseNumFromCell(Tablas.Celda(b, idx)));
      if asc then res else -res
  }

  /** The click handler's new body: the ordinary rows sorted, then the special rows as they were. */
  function Reordenar(fs: seq<Tablas.FilaDom>, cmp: (Tablas.FilaDom, Tablas.FilaDom) -> real): (r: seq<Tablas.FilaDom>)
    ensures multiset(r) == multiset(fs) && |r| == |fs|
  {
    FilterPartition(fs, EspecialDom, Ordinaria);
    SortBy(Normales(fs), cmp) + Especiales(fs)
  }

  /**
   * Reordering permutes the rows, moves every special row after every ordinary
   * row, keeps the special rows in their relative order and sorts the ordinary ones.
   */
  lemma ReordenarForma(fs: seq<Tablas.FilaDom>, cmp: (Tablas.FilaDom, Tablas.FilaDom) -> real)
    ensures var r := Reordenar(fs, cmp);
      multiset(r) == multiset(fs)
      && Especiales(r) == Especiales(fs)
      && Normales(r) == SortBy(Normales(fs), cmp)
      && (forall i, j :: 0 <= i < j < |r| && EspecialDom(r[i]) ==> EspecialDom(r[j]))
  {
    var n := SortBy(Normales(fs), cmp);
    var e := Especiales(fs);
    FilterPartition(fs, EspecialDom, Ordinaria);
    SinEspeciales(fs, cmp);
    PartesFiltradas(n, e);
    ConEspecialesAlFinal(n, e);
  }

  /** Sorting the ordinary rows leaves no special row among them. */
  lemma SinEspeciales(fs: seq<Tablas.FilaDom>, cmp: (Tablas.FilaDom, Tablas.FilaDom) -> real)
    ensures forall i :: 0 <= i < |SortBy(Normales(fs), cmp)| ==> !EspecialDom(SortBy(Normales(fs), cmp)[i])
  {
    var ns := Normales(fs);
    var n := SortBy(ns, cmp);
    forall i | 0 <= i < |n| ensures !EspecialDom(n[i]) {
      assert n[i] in multiset(ns);
      var k :| 0 <= k < |ns| && ns[k] == n[i];
    }
  }

  /** Filtering ordinary rows followed by special rows gives back each part. */
  lemma PartesFiltradas(n: seq<Tablas.FilaDom>, e: seq<Tablas.FilaDom>)
    requires forall i :: 0 <= i < |n| ==> !EspecialDom(n[i])
    requires forall i :: 0 <= i < |e| ==> EspecialDom(e[i])
    ensures Especiales(n + e) == e && Normales(n + e) == n
  {
    EspecialesDe(n, e);
    NormalesDe(n, e);
  }

  lemma EspecialesDe(n: seq<Tablas.FilaDom>, e: seq<Tablas.FilaDom>)
    requires forall i :: 0 <= i < |n| ==> !EspecialDom(n[i])
    requires forall i :: 0 <= i < |e| ==> EspecialDom(e[i])
    ensures Especiales(n + e) == e
  {
    FilterConcat(n, e, EspecialDom);
    FilterAll(n, EspecialDom);
    FilterAll(e, EspecialDom);
    assert [] + e == e;
  }

  lemma NormalesDe(n: seq<Tablas.FilaDom>, e: seq<Tablas.FilaDom>)
    requires forall i :: 0 <= i < |n| ==> !EspecialDom(n[i])
    requires forall i :: 0 <= i < |e| ==> EspecialDom(e[i])
    ensures Normales(n + e) == n
  {
    FilterConcat(n, e, Ordinaria);
    FilterAll(n, Ordinaria);
    FilterAll(e, Ordinaria);
    assert n + [] == n;
  }

  lemma ConEspecialesAlFinal(n: seq<Tablas.FilaDom>, e: seq<Tablas.FilaDom>)
    requires forall i :: 0 <= i < |n| ==> !EspecialDom(n[i])
    requires forall i :: 0 <= i < |e| ==> EspecialDom(e[i])
    ensures forall i, j :: 0 <= i < j < |n + e| && EspecialDom((n + e)[i]) ==> EspecialDom((n + e)[j])
  {
  }

  /** Reordering keeps rows of four cells. */
  lemma ReordenarCeldas(fs: seq<Tablas.FilaDom>, cmp: (Tablas.FilaDom, Tablas.FilaDom) -> real)
    requires forall f :: f in fs ==> |f.celdas| == 4
    ensures forall f :: f in Reordenar(fs, cmp) ==> |f.celdas| == 4
  {
    ReordenarForma(fs, cmp);
    forall f | f in Reordenar(fs, cmp) ensures |f.celdas| == 4 {
      assert f in multiset(Reordenar(fs, cmp));
    }
  }

  /** With an antisymmetric collation the header comparator is antisymmetric, so the ordinary rows end up in order. */
  lemma ReordenarOrdena(fs: seq<Tablas.FilaDom>, idx: nat, asc: bool, collate: Tablas.Collation)
    requires Tablas.CollationAntisimetrica(collate)
    ensures SortedBy(Normales(Reordenar(fs, PorColumna(idx, asc, collate))), PorColumna(idx, asc, collate))
  {
    var cmp := PorColumna(idx, asc, collate);
    forall a, b | a in Normales(fs) && b in Normales(fs) ensures cmp(a, b) == -cmp(b, a) {
      var ta, tb := Trim(Tablas.Celda(a, 0)), Trim(Tablas.Celda(b, 0));
      assert collate(ta, tb) == -collate(tb, ta);
    }
    ReordenarForma(fs, cmp);
    SortBySorted(Normales(fs), cmp);
  }

  /** Cell `idx` of `f` does not parse as a number. */
  predicate SinNumero(f: Tablas.FilaDom, idx: nat) {
    ParseNumFromCell(Tablas.Celda(f, idx)).NaN?
  }

  /** Two neighbours in a numeric column: ascending, an unparsable cell is followed by another; descending, preceded. */
  lemma NaNAdyacente(a: Tablas.FilaDom, b: Tablas.FilaDom, idx: nat, asc: bool, collate: Tablas.Collation)
    requires idx > 0 && PorColumna(idx, asc, collate)(a, b) <= 0.0
    ensures asc && SinNumero(a, idx) ==> SinNumero(b, idx)
    ensures !asc && SinNumero(b, idx) ==> SinNumero(a, idx)
  {
    var x, y := ParseNumFromCell(Tablas.Celda(a, idx)), ParseNumFromCell(Tablas.Celda(b, idx));
    var c := CompararNum(x, y);
    assert PorColumna(idx, asc, collate)(a, b) == if asc then c else -c;
    NaNComparado(x, y);
  }

  /** The numeric comparison puts NaN after every number. */
  lemma NaNComparado(x: Num, y: Num)
    requires !x.Infinity? && !y.Infinity?
    ensures x.NaN? && CompararNum(x, y) <= 0.0 ==> y.NaN?
    ensures y.NaN? && -CompararNum(x, y) <= 0.0 ==> x.NaN?
  {
  }

  /** In a numerically sorted column the unparsable cells come last when ascending and first when descending. */
  lemma {:induction false} NaNAlExtremo(xs: seq<Tablas.FilaDom>, idx: nat, asc: bool, collate: Tablas.Collation)
    requires idx > 0 && SortedBy(xs, PorColumna(idx, asc, collate))
    ensures forall i, j :: 0 <= i < j < |xs| ==>
      (asc && SinNumero(xs[i], idx) ==> SinNumero(xs[j], idx)) && (!asc && SinNumero(xs[j], idx) ==> SinNumero(xs[i], idx))
  {
    if |xs| > 1 {
      var t := xs[1..];
      assert SortedBy(t, PorColumna(idx, asc, collate)) by {
        forall i | 0 <= i < |t| - 1 ensures PorColumna(idx, asc, collate)(t[i], t[i + 1]) <= 0.0 {
          assert t[i] == xs[i + 1] && t[i + 1] == xs[i + 2];
        }
      }
      NaNAlExtremo(t, idx, asc, collate);
      NaNAdyacente(xs[0], xs[1], idx, asc, collate);
      forall i, j | 0 <= i < j < |xs|
        ensures (asc && SinNumero(xs[i], idx) ==> SinNumero(xs[j], idx)) && (!asc && SinNumero(xs[j], idx) ==> SinNumero(xs[i], idx))
      {
        assert xs[j] == t[j - 1];
        if i > 0 {
          assert xs[i] == t[i - 1];
        } else if j > 1 {
          assert xs[1] == t[0];
        }
      }
    }
  }

  /** The sheet name of the municipal export: `sanitizeSheetName` with the fallback "Municipal". */
  function SanitizeSheetName(s: string): (r: string)
    ensures 0 < |r| <= Tablas.MAX_HOJA && forall i :: 0 <= i < |r| ==> r[i] !in Tablas.HOJA_PROHIBIDOS
  {
    Tablas.HojaValida(s, "Municipal");
    Tablas.SanitizeSheetName(s, "Municipal")
  }

  // ---------------------------------------------------------------------------
  // The table
  // ---------------------------------------------------------------------------

  /**
   * The state of the municipal table: the cached rows, the painted body, the
   * selected metric and each header's `data-orden` (true for "asc") and arrow.
   */
  class TablaMunicipal {
    /** `_cache`: the normalised rows, never reordered. */
    const cache: seq<Record>
    /** Whether `#tabla-contenido` exists; without it no table is built. */
    const activa: bool
    /** Whether `#sel-metrica` exists. */
    const selector: bool
    const collate: Tablas.Collation
    const fmt: Num -> string
    /** `_currentMetric`. */
    var metrica: string
    var filas: seq<Tablas.FilaDom>
    var orden: seq<bool>
    var flechas: seq<string>

    /** Four headers, four cells per row. */
    predicate Valid()
      reads this
    {
      |orden| == 4 && |flechas| == 4 && forall f :: f in filas ==> |f.celdas| == 4
    }

    /**
     * `generarTablaMunicipios` once the CSV is loaded: the rows are normalised and
     * cached; with a container, the selected metric (or "tasa_total") is painted
     * and every header starts "asc" without an arrow.
     */
    constructor (raw: seq<Record>, hayContenedor: bool, sel: Option<string>, collate: Tablas.Collation, fmt: Num -> string)
      ensures Valid()
      ensures cache == MapSeq(raw, NormalizarFila) && activa == hayContenedor && selector == sel.Some?
      ensures this.collate == collate && this.fmt == fmt
      ensures metrica == if hayContenedor && sel.Some? && sel.value != "" then sel.value else "tasa_total"
      ensures orden == [true, true, true, true] && flechas == ["", "", "", ""]
      ensures filas == if hayContenedor then Cuerpo(cache, metrica, collate, fmt) else []
    {
      cache := MapSeq(raw, NormalizarFila);
      activa := hayContenedor;
      selector := sel.Some?;
      this.collate := collate;
      this.fmt := fmt;
      orden := [true, true, true, true];
      flechas := ["", "", "", ""];
      metrica := "tasa_total";
      filas := [];
      new;
      if hayContenedor {
        metrica := if sel.Some? && sel.value != "" then sel.value else "tasa_total";
        filas := Cuerpo(cache, metrica, collate, fmt);
      }
    }

    /** The selector's change event: repaint with the new metric; the header state is kept. */
    method CambiarMetrica(v: string)
      requires Valid()
      modifies this
      ensures Valid()
      ensures orden == old(orden) && flechas == old(flechas)
      ensures activa && selector ==> metrica == v && filas == Cuerpo(cache, v, collate, fmt)
      ensures !(activa && selector) ==> metrica == old(metrica) && filas == old(filas)
    {
      if activa && selector {
        metrica := v;
        filas := Cuerpo(cache, v, collate, fmt);
      }
    }

    /**
     * A click on header `idx`: its direction flips, only its arrow shows, the
     * ordinary rows are sorted by that column and the 8888/9999 rows follow them
     * in the order they had.
     */
    method Click(idx: nat)
      requires Valid() && idx < 4
      modifies this
      ensures Valid()
      ensures metrica == old(metrica)
      ensures !activa ==> filas == old(filas) && orden == old(orden) && flechas == old(flechas)
      ensures activa ==>
        orden == old(orden)[idx := !old(orden)[idx]]
        && flechas == Tablas.Flechas(idx, orden[idx])
        && filas == Reordenar(old(filas), PorColumna(idx, orden[idx], collate))
    {
      if !activa {
        return;
      }
      var nuevo := !orden[idx];
      orden := orden[idx := nuevo];
      flechas := Tablas.Flechas(idx, nuevo);
      var cmp := PorColumna(idx, nuevo, collate);
      ReordenarCeldas(filas, cmp);
      filas := Reordenar(filas, cmp);
    }
  }
}

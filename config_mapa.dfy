/**
 * The map configuration helpers: map titles, the values a metric is drawn from,
 * the quartile domain of the colour scale, the legend steps, the legend heading
 * and the two-line wrapping of the citation under a downloaded map.
 *
 * d3's linear scale is a value here (its domain, its colour range and whether it
 * clamps); the colour interpolation itself is not modelled.
 */
module ConfigMapa {
  import opened Wrappers
  import opened Js
  import opened Ordering
  import Metricas

  /** Fill of a region whose value is zero, and of a region without data. */
  const COLOR_CERO: string := "#bfbfbf"
  const COLOR_SIN: string := "#d9d9d9"

  /** The gap the quartile computation opens between tied domain points (1e-6). */
  const EPS: real := 0.000001

  /** Ids left out of every scale by default: the "not specified" and "foreign" entities. */
  const DEFAULT_EXCLUDE: seq<string> := ["8888", "9999"]

  const DEFAULT_YEAR: string := "2025"
  const DEFAULT_TIPO: string := "clínicas"

  // ---------------------------------------------------------------------------
  // Titles
  // ---------------------------------------------------------------------------

  /** `entidad ? "en " + entidad : "en México"`; the entity name is a string or absent. */
  function Lugar(entidad: Option<string>): string {
    if entidad.Some? && entidad.value != "" then "en " + entidad.value else "en México"
  }

  /** `(${year})`, with the year already written out. */
  function Sufijo(year: string): string {
    "(" + year + ")"
  }

  /** The phrase a rate title adds for each care level or setting. */
  function NivelFrase(metricKey: string): Option<string> {
    if metricKey == "tasa_total" then Some("")
    else if metricKey == "tasa_primer" then Some(" en 1er nivel de atención")
    else if metricKey == "tasa_segundo" then Some(" en 2º nivel de atención")
    else if metricKey == "tasa_tercer" then Some(" en 3er nivel de atención")
    else if metricKey == "tasa_apoyo" then Some(" en establecimientos de apoyo")
    else if metricKey == "tasa_escuelas" then Some(" en escuelas")
    else if metricKey == "tasa_administrativas" then Some(" en áreas administrativas")
    else None
  }

  /** The quoted register name of the two "registros" metrics. */
  function RegistroFrase(metricKey: string): Option<string> {
    if metricKey == "tasa_no_aplica" then Some("“No aplica”")
    else if metricKey == "tasa_no_asignado" then Some("“No asignado”")
    else None
  }

  /** The part of a map title before the place, for a metric the title table knows. */
  function TituloBase(metricKey: string): Option<string> {
    match NivelFrase(metricKey)
    case Some(f) => Some("Tasa de enfermeras por cada mil habitantes" + f)
    case None =>
      match RegistroFrase(metricKey)
      case Some(q) => Some("Registros " + q + " de enfermería")
      case None => if metricKey == "poblacion" then Some("Población") else None
  }

  /** The same for a map that also shows clinics of kind `tipo`. */
  function TituloClinicasBase(metricKey: string, tipo: string): Option<string> {
    match NivelFrase(metricKey)
    case Some(f) => Some("Distribución de " + tipo + " y tasa de enfermeras por cada mil habitantes" + f)
    case None =>
      match RegistroFrase(metricKey)
      case Some(q) => Some("Distribución de " + tipo + " y registros " + q + " de enfermería")
      case None => if metricKey == "poblacion" then Some("Distribución de " + tipo + " y población") else None
  }

  /** `construirTitulo`: the table entry for the metric, else the generic title, then place and year. */
  function ConstruirTitulo(metricKey: string, entidad: Option<string>, year: string): (r: string)
    ensures |r| > |Lugar(entidad)| + |Sufijo(year)|
  {
    TituloBase(metricKey).GetOr("Distribución de enfermería") + " " + Lugar(entidad) + " " + Sufijo(year)
  }

  /** `construirTituloClinicas`; the default year is the current one, so it is a parameter. */
  function ConstruirTituloClinicas(metricKey: string, tipo: string, entidad: Option<string>, year: string): (r: string)
    ensures |r| > |Lugar(entidad)| + |Sufijo(year)|
  {
    TituloClinicasBase(metricKey, tipo).GetOr("Distribución de " + tipo + " y enfermería") + " " + Lugar(entidad) + " " + Sufijo(year)
  }

  /** Both title tables know exactly the metrics of the catalogue. */
  lemma TitleKeysAreMetrics(metricKey: string, tipo: string)
    ensures TituloBase(metricKey).Some? <==> metricKey in Metricas.METRICAS
    ensures TituloClinicasBase(metricKey, tipo).Some? <==> metricKey in Metricas.METRICAS
  {
    FrasesSonMetricas(metricKey);
  }

  /** The keys with a level phrase or a register phrase, and "poblacion", are the catalogue. */
  lemma FrasesSonMetricas(metricKey: string)
    ensures NivelFrase(metricKey).Some? || RegistroFrase(metricKey).Some? || metricKey == "poblacion"
      <==> metricKey in Metricas.METRICAS
  {
  }

  /** A title ends with its place and year. */
  lemma TituloPlace(metricKey: string, entidad: Option<string>, year: string)
    ensures EndsWith(ConstruirTitulo(metricKey, entidad, year), " " + Lugar(entidad) + " " + Sufijo(year))
  {
    var b := TituloBase(metricKey).GetOr("Distribución de enfermería");
    var t := " " + Lugar(entidad) + " " + Sufijo(year);
    TituloSplit(b, Lugar(entidad), Sufijo(year));
    EndsWithSuffix(b, t);
  }

  /** Without an entity, or with an empty one, the place is the whole country. */
  lemma LugarNacional(entidad: Option<string>)
    ensures (entidad.None? || entidad == Some("")) ==> Lugar(entidad) == "en México"
  {
  }

  /** A metric the title table does not know gets the generic title. */
  lemma TituloGenerico(metricKey: string, entidad: Option<string>, year: string)
    requires TituloBase(metricKey).None?
    ensures ConstruirTitulo(metricKey, entidad, year) == "Distribución de enfermería " + Lugar(entidad) + " " + Sufijo(year)
  {
    var g := "Distribución de enfermería";
    assert g + " " == "Distribución de enfermería ";
  }

  lemma TituloSplit(b: string, l: string, y: string)
    ensures b + " " + l + " " + y == b + (" " + l + " " + y)
  {
  }

  lemma EndsWithSuffix(a: string, t: string)
    ensures EndsWith(a + t, t)
  {
    assert (a + t)[|a|..] == t;
  }

  /**
   * A rate title for clinics is the rate title of the plain map with "Tasa de" replaced
   * by "Distribución de <tipo> y tasa de": both tables add the same level phrase.
   */
  lemma TituloClinicasRate(metricKey: string, tipo: string, entidad: Option<string>, year: string)
    requires NivelFrase(metricKey).Some?
    ensures ConstruirTitulo(metricKey, entidad, year)
      == "Tasa de enfermeras por cada mil habitantes" + NivelFrase(metricKey).value + " " + Lugar(entidad) + " " + Sufijo(year)
    ensures ConstruirTituloClinicas(metricKey, tipo, entidad, year)
      == "Distribución de " + tipo + " y tasa de enfermeras por cada mil habitantes" + NivelFrase(metricKey).value + " " + Lugar(entidad) + " " + Sufijo(year)
  {
  }

  predicate EndsWith(s: string, p: string) {
    |p| <= |s| && s[|s| - |p|..] == p
  }

  // ---------------------------------------------------------------------------
  // The values a metric is drawn from
  // ---------------------------------------------------------------------------

  /** The options of `valuesForMetric`; `extraFilter` is absent when it is not a function. */
  datatype ValueOptions = ValueOptions(excludeIds: seq<string>, idKey: string, extraFilter: Option<Record -> bool>)

  const DEFAULT_VALUE_OPTIONS: ValueOptions := ValueOptions(DEFAULT_EXCLUDE, "id", None)

  /** A row survives the two filters: its id, as a string, is not excluded and the extra filter accepts it. */
  predicate Keeps(r: Record, o: ValueOptions) {
    ToString(Get(r, o.idKey)) !in o.excludeIds && (o.extraFilter.None? || o.extraFilter.value(r))
  }

  /** What one row contributes: `+r[key]` when it is kept and finite, and for a rate only when positive. */
  function RowValue(r: Record, key: string, esPoblacion: bool, o: ValueOptions): seq<real> {
    var n := ToNumber(Get(r, key));
    if Keeps(r, o) && n.Finite? && (esPoblacion || n.r > 0.0) then [n.r] else []
  }

  function Values(rows: seq<Record>, key: string, esPoblacion: bool, o: ValueOptions): (vs: seq<real>)
    ensures |vs| <= |rows|
    ensures forall i :: 0 <= i < |vs| ==> esPoblacion || vs[i] > 0.0
  {
    if rows == [] then [] else RowValue(rows[0], key, esPoblacion, o) + Values(rows[1..], key, esPoblacion, o)
  }

  /**
   * `valuesForMetric`: the finite values of the metric's rate column over the kept rows,
   * in row order; rates keep only positive values. An unknown metric has no definition
   * and the lookup of its `tasaKey` throws.
   */
  function ValuesForMetric(rows: seq<Record>, metricKey: string, o: ValueOptions): (r: Option<seq<real>>)
    ensures r.None? <==> metricKey !in Metricas.METRICAS
  {
    if metricKey in Metricas.METRICAS then
      Some(Values(rows, Metricas.METRICAS[metricKey].tasaKey, metricKey == "poblacion", o))
    else None
  }

  /** The values of a concatenation are the values of the parts, in order. */
  lemma {:induction false} ValuesAppend(a: seq<Record>, b: seq<Record>, key: string, esPoblacion: bool, o: ValueOptions)
    ensures Values(a + b, key, esPoblacion, o) == Values(a, key, esPoblacion, o) + Values(b, key, esPoblacion, o)
  {
    if a == [] {
      assert a + b == b;
    } else {
      assert (a + b)[0] == a[0];
      assert (a + b)[1..] == a[1..] + b;
      ValuesAppend(a[1..], b, key, esPoblacion, o);
    }
  }

  /** A value is drawn exactly when some kept row holds it, finite (and positive for a rate). */
  lemma {:induction false} ValuesMember(rows: seq<Record>, key: string, esPoblacion: bool, o: ValueOptions, v: real)
    ensures v in Values(rows, key, esPoblacion, o) <==>
      exists i :: 0 <= i < |rows| && RowValue(rows[i], key, esPoblacion, o) == [v]
  {
    if rows != [] {
      ValuesMember(rows[1..], key, esPoblacion, o, v);
      var rv := RowValue(rows[0], key, esPoblacion, o);
      if exists i :: 0 <= i < |rows| && RowValue(rows[i], key, esPoblacion, o) == [v] {
        var i :| 0 <= i < |rows| && RowValue(rows[i], key, esPoblacion, o) == [v];
        if i > 0 {
          assert RowValue(rows[1..][i - 1], key, esPoblacion, o) == [v];
        }
      }
      if v in Values(rows[1..], key, esPoblacion, o) {
        var i :| 0 <= i < |rows[1..]| && RowValue(rows[1..][i], key, esPoblacion, o) == [v];
        assert RowValue(rows[i + 1], key, esPoblacion, o) == [v];
      }
    }
  }

  /** Rows whose id is excluded contribute nothing, whatever they hold. */
  lemma ExcludedRowIgnored(r: Record, key: string, esPoblacion: bool, o: ValueOptions)
    requires ToString(Get(r, o.idKey)) in o.excludeIds
    ensures RowValue(r, key, esPoblacion, o) == []
  {
  }

  // ---------------------------------------------------------------------------
  // Quantiles and quartiles
  // ---------------------------------------------------------------------------

  function Minus(a: real, b: real): real {
    a - b
  }

  /** `xs.slice().sort((a, b) => a - b)`. */
  function Ascending(xs: seq<real>): (r: seq<real>)
    ensures multiset(r) == multiset(xs) && |r| == |xs|
    ensures forall i, j :: 0 <= i <= j < |r| ==> r[i] <= r[j]
  {
    SortBySorted(xs, Minus);
    var r := SortBy(xs, Minus);
    forall i, j | 0 <= i <= j < |r| ensures r[i] <= r[j] {
      SortedLe(r, i, j);
    }
    r
  }

  lemma SortedLe(r: seq<real>, i: int, j: int)
    requires SortedBy(r, Minus)
    requires 0 <= i <= j < |r|
    ensures r[i] <= r[j]
    decreases j - i
  {
    if i < j {
      assert Minus(r[i], r[i + 1]) <= 0.0;
      SortedLe(r, i + 1, j);
    }
  }

  /**
   * d3's `quantileSorted(v, p)`: linear interpolation between the closest ranks
   * (the R-7 quantile); undefined for an empty array.
   */
  function QuantileSorted(v: seq<real>, p: real): (r: Option<real>)
    ensures r.None? <==> v == []
  {
    if v == [] then None
    else if p <= 0.0 || |v| < 2 then Some(v[0])
    else if p >= 1.0 then Some(v[|v| - 1])
    else
      var i := (|v| - 1) as real * p;
      var i0 := i.Floor;
      Some(v[i0] + (v[i0 + 1] - v[i0]) * (i - i0 as real))
  }

  /** On ascending data a quantile lies between the smallest and the largest value. */
  lemma QuantileBounds(v: seq<real>, p: real)
    requires v != []
    requires forall i, j :: 0 <= i <= j < |v| ==> v[i] <= v[j]
    ensures v[0] <= QuantileSorted(v, p).value <= v[|v| - 1]
  {
    if p > 0.0 && |v| >= 2 && p < 1.0 {
      var i := (|v| - 1) as real * p;
      var i0 := i.Floor;
      IndiceInterpolado(|v|, p);
      var d := v[i0 + 1] - v[i0];
      var f := i - i0 as real;
      assert v[0] <= v[i0] && v[i0 + 1] <= v[|v| - 1];
      assert 0.0 <= d;
      ProductoAcotado(d, f);
      assert QuantileSorted(v, p).value == v[i0] + d * f;
    }
  }

  /** The interpolation index lies inside the data, with its fraction in [0, 1). */
  lemma IndiceInterpolado(n: int, p: real)
    requires n >= 2 && 0.0 < p < 1.0
    ensures var i := (n - 1) as real * p;
      0 <= i.Floor && i.Floor + 1 < n && 0.0 <= i - i.Floor as real < 1.0
  {
    var m := (n - 1) as real;
    var i := m * p;
    assert m - i == m * (1.0 - p);
    assert 0.0 < i < m;
  }

  lemma ProductoAcotado(d: real, f: real)
    requires 0.0 <= d && 0.0 <= f < 1.0
    ensures 0.0 <= d * f <= d
  {
    assert d - d * f == d * (1.0 - f);
  }

  /** The five points of a colour domain; `max` is also the top of the legend. */
  datatype Stats = Stats(min: real, q1: real, q2: real, q3: real, max: real)

  function Domain(s: Stats): (r: seq<real>)
    ensures |r| == 5
  {
    [s.min, s.q1, s.q2, s.q3, s.max]
  }

  predicate Increasing(s: Stats) {
    s.min < s.q1 < s.q2 < s.q3 < s.max
  }

  /** `vals.filter(Number.isFinite)`. */
  function FiniteValues(vals: seq<Num>): (r: seq<real>)
    ensures |r| <= |vals|
    ensures forall x :: x in r <==> Finite(x) in vals
  {
    if vals == [] then []
    else
      assert forall n :: n in vals <==> n == vals[0] || n in vals[1..];
      (if vals[0].Finite? then [vals[0].r] else []) + FiniteValues(vals[1..])
  }

  /** Each point that does not lie above the previous one is moved EPS above it. */
  function Separate(s: Stats): (r: Stats)
    ensures Increasing(r) && r.min == s.min
    ensures s.q1 > s.min ==> r.q1 == s.q1
  {
    var q1 := if s.q1 > s.min then s.q1 else s.min + EPS;
    var q2 := if s.q2 > q1 then s.q2 else q1 + EPS;
    var q3 := if s.q3 > q2 then s.q3 else q2 + EPS;
    var max := if s.max > q3 then s.max else q3 + EPS;
    Stats(s.min, q1, q2, q3, max)
  }

  /** The quartiles of ascending data, before separation. */
  function RawQuartiles(v: seq<real>): Stats
    requires v != []
  {
    Stats(v[0], QuantileSorted(v, 0.25).value, QuantileSorted(v, 0.5).value,
          QuantileSorted(v, 0.75).value, v[|v| - 1])
  }

  const PLACEHOLDER: Stats := Stats(0.0, 1.0, 2.0, 3.0, 4.0)

  /** The quartile domain of finite values. */
  function QuartilesOf(xs: seq<real>): Stats {
    var v := Ascending(xs);
    if v == [] then PLACEHOLDER else Separate(RawQuartiles(v))
  }

  /** What `computeQuartiles` returns: non-finite values are dropped first. */
  function QuartileStats(vals: seq<Num>): Stats {
    QuartilesOf(FiniteValues(vals))
  }

  /** Values drawn by ValuesForMetric are finite numbers, which the filter keeps as they are. */
  lemma {:induction false} FiniteValuesOfReals(xs: seq<real>)
    ensures FiniteValues(MapSeq(xs, x => Finite(x))) == xs
  {
    if xs != [] {
      FiniteValuesOfReals(xs[1..]);
      assert MapSeq(xs, x => Finite(x))[1..] == MapSeq(xs[1..], x => Finite(x));
    }
  }

  /** `computeQuartiles`: sort the finite values, read the quartiles, then pull tied points apart. */
  method ComputeQuartiles(vals: seq<Num>) returns (s: Stats)
    ensures s == QuartileStats(vals)
    ensures Increasing(s)
  {
    var v := Ascending(FiniteValues(vals));
    if |v| == 0 {
      return PLACEHOLDER;
    }
    ghost var raw := RawQuartiles(v);
    assert QuartileStats(vals) == Separate(raw);
    var min, max := v[0], v[|v| - 1];
    var q1 := QuantileSorted(v, 0.25).value;
    var q2 := QuantileSorted(v, 0.5).value;
    var q3 := QuantileSorted(v, 0.75).value;
    if !(q1 > min) { q1 := min + EPS; }
    if !(q2 > q1) { q2 := q1 + EPS; }
    if !(q3 > q2) { q3 := q2 + EPS; }
    if !(max > q3) { max := q3 + EPS; }
    s := Stats(min, q1, q2, q3, max);
  }

  /**
   * Without finite values the domain is the placeholder 0..4; with them, `min` is the
   * smallest of them and `max` is at least the largest.
   */
  lemma QuartilesCover(vals: seq<Num>)
    ensures (forall n :: n in vals ==> !n.Finite?) ==> QuartileStats(vals) == PLACEHOLDER
    ensures (exists n :: n in vals && n.Finite?) ==> var s := QuartileStats(vals);
      Finite(s.min) in vals && forall x :: Finite(x) in vals ==> s.min <= x <= s.max
  {
    if exists n :: n in vals && n.Finite? {
      FiniteExtremes(vals);
    } else {
      NoFiniteValues(vals);
      assert Ascending(FiniteValues(vals)) == [];
    }
  }

  lemma {:induction false} NoFiniteValues(vals: seq<Num>)
    requires forall n :: n in vals ==> !n.Finite?
    ensures FiniteValues(vals) == []
  {
    if vals != [] {
      assert vals[0] in vals;
      NoFiniteValues(vals[1..]);
    }
  }

  lemma FiniteExtremes(vals: seq<Num>)
    requires exists n :: n in vals && n.Finite?
    ensures var s := QuartileStats(vals);
      Finite(s.min) in vals && forall x :: Finite(x) in vals ==> s.min <= x <= s.max
  {
    var f := FiniteValues(vals);
    var n :| n in vals && n.Finite?;
    assert n.r in f;
    var v := Ascending(f);
    assert n.r in multiset(v);
    assert v[0] in multiset(f);
    forall x | Finite(x) in vals ensures v[0] <= x <= v[|v| - 1] {
      assert x in multiset(v);
      var k :| 0 <= k < |v| && v[k] == x;
    }
  }

  /** Separation only breaks ties: quartiles that already increase are the R-7 quantiles themselves. */
  lemma QuartilesUntied(vals: seq<Num>)
    requires var v := Ascending(FiniteValues(vals)); v != [] && Increasing(RawQuartiles(v))
    ensures QuartileStats(vals) == RawQuartiles(Ascending(FiniteValues(vals)))
  {
  }

  /** Every raw quartile of ascending data lies between the extremes. */
  lemma RawQuartilesBounded(v: seq<real>)
    requires v != []
    requires forall i, j :: 0 <= i <= j < |v| ==> v[i] <= v[j]
    ensures var s := RawQuartiles(v); s.min <= s.q1 && s.q3 <= s.max
  {
    QuantileBounds(v, 0.25);
    QuantileBounds(v, 0.75);
  }

  /** The quartiles of any values that are all finite are strictly increasing. */
  lemma QuartilesOfIncreasing(xs: seq<real>)
    ensures Increasing(QuartilesOf(xs))
  {
  }

  // ---------------------------------------------------------------------------
  // Legend steps
  // ---------------------------------------------------------------------------

  /** A legend step's value: `Math.round(v)` for population, `+v.toFixed(2)` for rates. */
  function RoundStep(v: real, esPoblacion: bool): real {
    if esPoblacion then MathRound(v) else FixedValue(v, 2)
  }

  function RoundedDomain(s: Stats, esPoblacion: bool): (r: seq<real>)
    ensures |r| == 5
    ensures forall i :: 0 <= i < 5 ==> r[i] == RoundStep(Domain(s)[i], esPoblacion)
  {
    [RoundStep(s.min, esPoblacion), RoundStep(s.q1, esPoblacion), RoundStep(s.q2, esPoblacion),
     RoundStep(s.q3, esPoblacion), RoundStep(s.max, esPoblacion)]
  }

  /** The legend steps: the rounded domain points, first occurrences only. */
  function Steps(s: Stats, esPoblacion: bool): seq<real> {
    Dedup(RoundedDomain(s, esPoblacion))
  }

  /** `legendSteps`: round each domain point and keep it unless an equal step was seen already. */
  method LegendSteps(s: Stats, esPoblacion: bool) returns (pasos: seq<real>)
    ensures pasos == Steps(s, esPoblacion)
  {
    var raw := Domain(s);
    ghost var ks := RoundedDomain(s, esPoblacion);
    var seen: set<real> := {};
    pasos := [];
    for i := 0 to |raw|
      invariant pasos == Dedup(ks[..i])
      invariant forall x :: x in seen <==> x in pasos
    {
      var k := RoundStep(raw[i], esPoblacion);
      assert k == ks[i];
      DedupPaso(ks, i);
      if k !in seen {
        seen := seen + {k};
        pasos := pasos + [k];
      }
    }
    assert ks[..5] == ks;
  }

  /** One more element of a prefix is either already a step or appended as a new one. */
  lemma DedupPaso(ks: seq<real>, i: nat)
    requires i < |ks|
    ensures Dedup(ks[..i + 1]) == if ks[i] in Dedup(ks[..i]) then Dedup(ks[..i]) else Dedup(ks[..i]) + [ks[i]]
  {
    assert ks[..i + 1][..i] == ks[..i];
  }

  /**
   * There are one to five steps, without repetitions, the first is the rounded minimum,
   * and a value is a step exactly when it is a rounded domain point.
   */
  lemma StepsShape(s: Stats, esPoblacion: bool)
    ensures var p := Steps(s, esPoblacion);
      1 <= |p| <= 5 && p[0] == RoundStep(s.min, esPoblacion)
      && (forall i, j :: 0 <= i < j < |p| ==> p[i] != p[j])
      && (forall x :: x in p <==> exists i :: 0 <= i < 5 && x == RoundStep(Domain(s)[i], esPoblacion))
  {
    DedupHead(RoundedDomain(s, esPoblacion));
  }

  /** A whole number for population; at most two decimals for a rate. */
  predicate EnRejilla(x: real, esPoblacion: bool) {
    if esPoblacion then x == x.Floor as real else x * 100.0 == (x * 100.0).Floor as real
  }

  /** Population steps are whole numbers; rate steps have at most two decimals. */
  lemma StepsGrid(s: Stats, esPoblacion: bool)
    ensures forall x :: x in Steps(s, esPoblacion) ==> EnRejilla(x, esPoblacion)
  {
    var ks := RoundedDomain(s, esPoblacion);
    forall x | x in Steps(s, esPoblacion)
      ensures EnRejilla(x, esPoblacion)
    {
      assert x in ks;
      var i :| 0 <= i < 5 && ks[i] == x;
      RoundStepGrid(Domain(s)[i], esPoblacion);
    }
  }

  lemma RoundStepGrid(v: real, esPoblacion: bool)
    ensures EnRejilla(RoundStep(v, esPoblacion), esPoblacion)
  {
    if !esPoblacion {
      FixedValueCents(v);
      var k: int := if v < 0.0 then -Cents(v) else Cents(v);
      var x := FixedValue(v, 2);
      assert x == k as real / 100.0;
      assert x * 100.0 == k as real;
      assert (k as real).Floor == k;
    }
  }

  /** Rounding to a step never reverses the order of two values. */
  lemma RoundStepMonotone(a: real, b: real, esPoblacion: bool)
    requires a <= b
    ensures RoundStep(a, esPoblacion) <= RoundStep(b, esPoblacion)
  {
    if esPoblacion {
      MathRoundMonotone(a, b);
    } else {
      FixedValueMonotone(a, b);
    }
  }

  /** For an increasing domain the steps are strictly ascending, so the legend reads upwards. */
  lemma StepsAscending(s: Stats, esPoblacion: bool)
    requires Increasing(s)
    ensures var p := Steps(s, esPoblacion); forall i :: 0 <= i < |p| - 1 ==> p[i] < p[i + 1]
  {
    var ks := RoundedDomain(s, esPoblacion);
    RoundStepMonotone(s.min, s.q1, esPoblacion);
    RoundStepMonotone(s.q1, s.q2, esPoblacion);
    RoundStepMonotone(s.q2, s.q3, esPoblacion);
    RoundStepMonotone(s.q3, s.max, esPoblacion);
    assert forall i :: 0 <= i < 4 ==> ks[i] <= ks[i + 1];
    DedupAscending(ks);
  }

  /** De-duplicating a non-decreasing sequence leaves it strictly increasing, with the same last element. */
  lemma {:induction false} DedupAscending(ks: seq<real>)
    requires NoDecreciente(ks)
    ensures Creciente(Dedup(ks))
    ensures ks != [] ==> |Dedup(ks)| > 0 && Dedup(ks)[|Dedup(ks)| - 1] == ks[|ks| - 1]
  {
    if |ks| == 1 {
      assert ks[..0] == [];
      assert Dedup(ks) == [ks[0]];
    } else if ks != [] {
      var p := ks[..|ks| - 1];
      var last := ks[|ks| - 1];
      assert ks == p + [last];
      NoDecrecientePrefijo(ks);
      DedupAscending(p);
      DedupBelowLast(p);
      DedupExtend(p, last);
    }
  }

  /** Each element is no greater than the next. */
  predicate NoDecreciente(d: seq<real>) {
    forall i :: 0 <= i < |d| - 1 ==> d[i] <= d[i + 1]
  }

  /** Dropping the last element keeps the order, and that element is no smaller than the one before. */
  lemma NoDecrecientePrefijo(ks: seq<real>)
    requires ks != [] && NoDecreciente(ks)
    ensures NoDecreciente(ks[..|ks| - 1])
    ensures |ks| >= 2 ==> ks[|ks| - 2] <= ks[|ks| - 1]
  {
  }

  /** Each element is smaller than the next. */
  predicate Creciente(d: seq<real>) {
    forall i :: 0 <= i < |d| - 1 ==> d[i] < d[i + 1]
  }

  /** One more element, no smaller than the last, either repeats the last step or becomes a new one. */
  lemma DedupExtend(p: seq<real>, last: real)
    requires p != [] && p[|p| - 1] <= last
    requires Creciente(Dedup(p))
    requires |Dedup(p)| > 0 && Dedup(p)[|Dedup(p)| - 1] == p[|p| - 1]
    requires forall y :: y in Dedup(p) ==> y <= p[|p| - 1]
    ensures Creciente(Dedup(p + [last]))
    ensures |Dedup(p + [last])| > 0 && Dedup(p + [last])[|Dedup(p + [last])| - 1] == last
  {
    var ks := p + [last];
    assert ks[..|ks| - 1] == p;
    var d := Dedup(p);
    if last in d {
      assert Dedup(ks) == d;
    } else {
      assert Dedup(ks) == d + [last];
      CrecienteSnoc(d, last);
    }
  }

  lemma CrecienteSnoc(d: seq<real>, x: real)
    requires Creciente(d) && d != [] && d[|d| - 1] < x
    ensures Creciente(d + [x])
  {
    var e := d + [x];
    forall i | 0 <= i < |e| - 1 ensures e[i] < e[i + 1] {
      if i < |d| - 1 {
        assert e[i] == d[i] && e[i + 1] == d[i + 1];
      }
    }
  }

  lemma DedupBelowLast(p: seq<real>)
    requires p != []
    requires forall i :: 0 <= i < |p| - 1 ==> p[i] <= p[i + 1]
    ensures forall y :: y in Dedup(p) ==> y <= p[|p| - 1]
  {
    forall y | y in Dedup(p) ensures y <= p[|p| - 1] {
      var j :| 0 <= j < |p| && p[j] == y;
      Climb(p, j, |p| - 1);
    }
  }

  lemma Climb(ks: seq<real>, i: int, j: int)
    requires forall k :: 0 <= k < |ks| - 1 ==> ks[k] <= ks[k + 1]
    requires 0 <= i <= j < |ks|
    ensures ks[i] <= ks[j]
    decreases j - i
  {
    if i < j {
      Climb(ks, i + 1, j);
    }
  }

  // ---------------------------------------------------------------------------
  // Scale and legend
  // ---------------------------------------------------------------------------

  /** A d3 linear scale: its domain points, the colours they map to and whether it clamps. */
  datatype Scale = Scale(domain: seq<real>, range: seq<string>, clamp: bool)

  /** A fixed swatch under the gradient legend. */
  datatype Chip = Chip(color: string, texto: string)

  datatype LegendCfg = LegendCfg(
    dominio: seq<real>, pasos: seq<real>, colores: seq<string>, titulo: Option<string>,
    equalSpacing: bool, chips: Option<seq<Chip>>)

  datatype Prepared = Prepared(stats: Stats, scale: Scale, legend: LegendCfg)

  /**
   * The options of `prepararEscalaYLeyenda`: `fixedDomain` is present when it is an array,
   * `capAtPercentile` when it is a number.
   */
  datatype PrepOptions = PrepOptions(
    palette: seq<string>, titulo: Option<string>, values: ValueOptions,
    fixedDomain: Option<seq<real>>, clamp: bool, capAtPercentile: Option<real>)

  /**
   * The percentile cap as written: when `0 < cap < 1`, `max` drops to the cap-th
   * percentile of the values whenever that lies below it, even below `q3`.
   */
  function CapAsWritten(s: Stats, vals: seq<real>, cap: Option<real>): (r: Stats)
    ensures r.max <= s.max && r.(max := s.max) == s
  {
    if cap.Some? && 0.0 < cap.value < 1.0 then
      match QuantileSorted(Ascending(vals), cap.value)
      case Some(pMax) => if pMax < s.max then s.(max := pMax) else s
      case None => s
    else s
  }

  /** The cap as intended: `max` drops to the percentile only while it stays above `q3`. */
  function Cap(s: Stats, vals: seq<real>, cap: Option<real>): (r: Stats)
    ensures r.max <= s.max && r.(max := s.max) == s
    ensures Increasing(s) ==> Increasing(r)
  {
    if cap.Some? && 0.0 < cap.value < 1.0 then
      match QuantileSorted(Ascending(vals), cap.value)
      case Some(pMax) => if s.q3 < pMax < s.max then s.(max := pMax) else s
      case None => s
    else s
  }

  /** The cap only takes effect when the percentile lies strictly between `q3` and `max`. */
  lemma CapApplies(s: Stats, vals: seq<real>, c: real)
    requires 0.0 < c < 1.0 && vals != []
    ensures var pMax := QuantileSorted(Ascending(vals), c).value;
      Cap(s, vals, Some(c)).max == if s.q3 < pMax < s.max then pMax else s.max
  {
  }

  /**
   * The cap as written and the corrected one agree except when the written one lowers
   * `max` to `q3` or below, the case the correction refuses.
   */
  lemma CapCoincide(s: Stats, vals: seq<real>, cap: Option<real>)
    ensures CapAsWritten(s, vals, cap) == Cap(s, vals, cap) || CapAsWritten(s, vals, cap).max <= s.q3
  {
  }

  /** Sorting values that are already in ascending order leaves them as they are. */
  lemma {:induction false} AscendingFixed(xs: seq<real>)
    requires forall i :: 0 <= i < |xs| - 1 ==> xs[i] <= xs[i + 1]
    ensures Ascending(xs) == xs
  {
    if xs != [] {
      AscendingFixed(xs[1..]);
      assert SortBy(xs[1..], Minus) == xs[1..];
      if |xs| > 1 {
        assert Minus(xs[0], xs[1]) <= 0.0;
      }
      assert [xs[0]] + xs[1..] == xs;
    }
  }

  /** Of five ascending values, the R-7 quartiles are the second, third and fourth. */
  lemma FiveQuantiles(v: seq<real>)
    requires |v| == 5
    ensures QuantileSorted(v, 0.25) == Some(v[1])
    ensures QuantileSorted(v, 0.5) == Some(v[2])
    ensures QuantileSorted(v, 0.75) == Some(v[3])
  {
    assert (4.0 * 0.25).Floor == 1;
    assert QuantileSorted(v, 0.25).value == v[1] + (v[2] - v[1]) * 0.0;
    assert (4.0 * 0.5).Floor == 2;
    assert (4.0 * 0.75).Floor == 3;
  }

  /** Five strictly increasing values are their own quartile domain. */
  lemma FiveQuartiles(v: seq<real>)
    requires |v| == 5 && v[0] < v[1] < v[2] < v[3] < v[4]
    ensures QuartilesOf(v) == StatsOf(v)
  {
    AscendingFixed(v);
    FiveQuantiles(v);
    assert RawQuartiles(v) == StatsOf(v);
    SeparateIncreasing(StatsOf(v));
  }

  /** Points already apart are left as they are. */
  lemma SeparateIncreasing(s: Stats)
    requires Increasing(s)
    ensures Separate(s) == s
  {
  }

  /**
   * As written, capping five distinct values (1, 2, 3, 4, 5, say) at the median lowers
   * `max` to the median, below `q3`: the domain handed to the scale is no longer ascending.
   */
  lemma CapAsWrittenBreaksDomain(v: seq<real>)
    requires |v| == 5 && v[0] < v[1] < v[2] < v[3] < v[4]
    ensures var s := CapAsWritten(QuartilesOf(v), v, Some(0.5));
      s == Stats(v[0], v[1], v[2], v[3], v[2]) && !Increasing(s)
  {
    FiveQuartiles(v);
    AscendingFixed(v);
    FiveQuantiles(v);
  }

  /** The corrected cap leaves the same five values with their ascending domain. */
  lemma CapKeepsDomain(v: seq<real>)
    requires |v| == 5 && v[0] < v[1] < v[2] < v[3] < v[4]
    ensures Cap(QuartilesOf(v), v, Some(0.5)) == StatsOf(v)
  {
    FiveQuartiles(v);
    AscendingFixed(v);
    FiveQuantiles(v);
  }

  /** The domain of the scale: the sorted fixed domain, else the capped quartiles of the values. */
  function DomainValues(vals: seq<real>, o: PrepOptions): (r: seq<real>)
    ensures |r| == 5
  {
    if o.fixedDomain.Some? && |o.fixedDomain.value| == 5 then Ascending(o.fixedDomain.value)
    else Domain(Cap(QuartilesOf(vals), vals, o.capAtPercentile))
  }

  function StatsOf(d: seq<real>): Stats
    requires |d| == 5
  {
    Stats(d[0], d[1], d[2], d[3], d[4])
  }

  /** The swatches under a rate legend: zero and no data. */
  const RATE_CHIPS: seq<Chip> := [Chip(COLOR_CERO, "0.00"), Chip(COLOR_SIN, "s/d")]

  /**
   * `prepararEscalaYLeyenda`: the values of the metric, the domain (fixed or from the
   * quartiles), the scale over the palette and the legend configuration. An unknown
   * metric makes the value lookup throw.
   */
  function PrepararEscalaYLeyenda(rows: seq<Record>, metricKey: string, o: PrepOptions): (r: Option<Prepared>)
    ensures r.Some? <==> metricKey in Metricas.METRICAS
  {
    match ValuesForMetric(rows, metricKey, o.values)
    case None => None
    case Some(vals) =>
      var esPoblacion := metricKey == "poblacion";
      var d := DomainValues(vals, o);
      var st := StatsOf(d);
      Some(Prepared(st, Scale(d, o.palette, o.clamp),
        LegendCfg([d[0], d[4]], Steps(st, esPoblacion), o.palette, o.titulo, true,
          if esPoblacion then None else Some(RATE_CHIPS))))
  }

  /**
   * The legend describes the scale: its ends are the ends of the scale's domain, its
   * steps are the rounded domain points, its colours are the scale's colours, and only
   * rate legends carry the zero and no-data swatches.
   */
  lemma LegendMatchesScale(rows: seq<Record>, metricKey: string, o: PrepOptions)
    requires metricKey in Metricas.METRICAS
    ensures var p := PrepararEscalaYLeyenda(rows, metricKey, o).value;
      p.scale.domain == Domain(p.stats)
      && p.legend.dominio == [p.scale.domain[0], p.scale.domain[4]]
      && p.legend.pasos == Steps(p.stats, metricKey == "poblacion")
      && p.legend.colores == p.scale.range == o.palette
      && p.scale.clamp == o.clamp && p.legend.equalSpacing && p.legend.titulo == o.titulo
      && (p.legend.chips.None? <==> metricKey == "poblacion")
      && (metricKey != "poblacion" ==> p.legend.chips == Some(RATE_CHIPS))
  {
  }

  /**
   * A fixed domain of five points is used sorted; otherwise the domain is the strictly
   * increasing quartile domain of the values, whose top the cap can only lower.
   */
  lemma DomainChoice(vals: seq<real>, o: PrepOptions)
    ensures o.fixedDomain.Some? && |o.fixedDomain.value| == 5 ==>
      var d := DomainValues(vals, o);
      multiset(d) == multiset(o.fixedDomain.value) && d[0] <= d[1] <= d[2] <= d[3] <= d[4]
    ensures !(o.fixedDomain.Some? && |o.fixedDomain.value| == 5) ==>
      var s := StatsOf(DomainValues(vals, o)); var q := QuartilesOf(vals);
      Increasing(s) && s.(max := q.max) == q && s.max <= q.max
  {
    if !(o.fixedDomain.Some? && |o.fixedDomain.value| == 5) {
      QuartilesOfIncreasing(vals);
    }
  }

  // ---------------------------------------------------------------------------
  // Legend heading
  // ---------------------------------------------------------------------------

  /** `u` starts with the word "tasa" in any letter case (`/tasa/i`). */
  predicate StartsWithTasa(u: string) {
    |u| >= 4 && u[0] in "tT" && u[1] in "aA" && u[2] in "sS" && u[3] in "aA"
  }

  /** Removal of a leading `\s*tasa\s*` in any letter case: blanks, the word and the blanks after it go. */
  function StripTasa(t: string): string {
    var u := TrimStart(t);
    if StartsWithTasa(u) then TrimStart(u[4..]) else t
  }

  /** The category under the bold "Tasa" of a rate legend: the title without "tasa", or "total". */
  function LegendCategory(titulo: string): (r: string)
    ensures r != []
  {
    var c := Trim(StripTasa(titulo));
    if c == [] then "total" else c
  }

  /** `/poblaci/i.test(titulo)`. */
  predicate IsPopulationTitle(titulo: string) {
    Contains(ToLower(titulo), "poblaci")
  }

  /** The heading lines of a legend with a title: "Población", or "Tasa" over the category. */
  function LegendHeading(titulo: string): (r: seq<string>)
    ensures |r| == 1 <==> IsPopulationTitle(titulo)
    ensures !IsPopulationTitle(titulo) ==> |r| == 2 && r[0] == "Tasa" && r[1] != []
  {
    if IsPopulationTitle(titulo) then ["Población"] else ["Tasa", LegendCategory(titulo)]
  }

  /** A title made of "tasa" (any case), a blank and a text shows the trimmed text, or "total". */
  lemma {:induction false} CategoryOfTasaTitle(w: string, texto: string)
    requires |w| == 4 && StartsWithTasa(w)
    ensures LegendCategory(w + " " + texto) == if Trim(texto) == [] then "total" else Trim(texto)
  {
    var t := w + " " + texto;
    assert TrimStart(t) == t;
    assert t[4..] == " " + texto;
    assert TrimStart(t[4..]) == TrimStart(texto) by {
      assert (" " + texto)[1..] == texto;
    }
    TrimStartTwice(texto);
  }

  lemma {:induction false} TrimStartTwice(s: string)
    ensures TrimStart(TrimStart(s)) == TrimStart(s)
  {
    if s != [] && IsWhiteSpace(s[0]) {
      TrimStartTwice(s[1..]);
    }
  }

  /** A title that does not open with "tasa" is only trimmed. */
  lemma CategoryOfOtherTitle(titulo: string)
    requires !StartsWithTasa(TrimStart(titulo))
    ensures LegendCategory(titulo) == if Trim(titulo) == [] then "total" else Trim(titulo)
  {
  }

  // ---------------------------------------------------------------------------
  // Two-line wrapping of the citation
  // ---------------------------------------------------------------------------

  /** The longest prefix of `s` without whitespace. */
  function WordPrefix(s: string): (r: string)
    ensures |r| <= |s| && r == s[..|r|] && NoWhiteSpace(r)
    ensures |r| < |s| ==> IsWhiteSpace(s[|r|])
  {
    if s == [] || IsWhiteSpace(s[0]) then [] else [s[0]] + WordPrefix(s[1..])
  }

  /**
   * `s.split(/\s+/)`: the pieces between runs of whitespace; a leading or trailing
   * run gives an empty first or last piece.
   */
  function SplitWhiteSpace(s: string): (r: seq<string>)
    ensures |r| >= 1
    ensures forall i :: 0 <= i < |r| ==> NoWhiteSpace(r[i])
    decreases |s|
  {
    var w := WordPrefix(s);
    if |w| == |s| then [w]
    else
      assert TrimStart(s[|w|..]) == TrimStart(s[|w| + 1..]);
      [w] + SplitWhiteSpace(TrimStart(s[|w|..]))
  }

  /** A text without whitespace is a single word. */
  lemma SplitSingleWord(s: string)
    requires NoWhiteSpace(s)
    ensures SplitWhiteSpace(s) == [s]
  {
    WordPrefixAll(s);
  }

  lemma {:induction false} WordPrefixAll(s: string)
    requires NoWhiteSpace(s)
    ensures WordPrefix(s) == s
  {
    if s != [] {
      WordPrefixAll(s[1..]);
    }
  }

  /** `line ? line + " " + w : w`. */
  function Glue(line: string, w: string): string {
    if line != [] then line + " " + w else w
  }

  /** The line the words make when each is glued onto the previous ones. */
  function GlueAll(ws: seq<string>): string {
    if ws == [] then [] else Glue(GlueAll(ws[..|ws| - 1]), ws[|ws| - 1])
  }

  /** Word `k` would push a line made of the words before it past `maxChars`. */
  predicate Overflows(ws: seq<string>, k: nat, maxChars: nat)
    requires k < |ws|
  {
    |Glue(GlueAll(ws[..k]), ws[k])| > maxChars
  }

  /** The first of the first `n` words that overflows, if any: where line one ends. */
  function Break(ws: seq<string>, maxChars: nat, n: nat): (r: Option<nat>)
    requires n <= |ws|
    ensures r.Some? ==> r.value < n && Overflows(ws, r.value, maxChars)
    ensures r.Some? ==> forall j :: 0 <= j < r.value ==> !Overflows(ws, j, maxChars)
    ensures r.None? ==> forall j :: 0 <= j < n ==> !Overflows(ws, j, maxChars)
  {
    var fs := Desbordes(ws, maxChars);
    PrimerDesborde(fs, n)
  }

  /** Which words overflow the line they would be glued onto. */
  function Desbordes(ws: seq<string>, maxChars: nat): (r: seq<bool>)
    ensures |r| == |ws| && forall k :: 0 <= k < |ws| ==> r[k] == Overflows(ws, k, maxChars)
  {
    seq(|ws|, k requires 0 <= k < |ws| => Overflows(ws, k, maxChars))
  }

  /** The first index below `n` whose flag is set. */
  function PrimerDesborde(fs: seq<bool>, n: nat): (r: Option<nat>)
    requires n <= |fs|
    ensures r.Some? ==> r.value < n && fs[r.value]
    ensures r.Some? ==> forall j :: 0 <= j < r.value ==> !fs[j]
    ensures r.None? ==> forall j :: 0 <= j < n ==> !fs[j]
  {
    if n == 0 then None
    else
      var b := PrimerDesborde(fs, n - 1);
      if b.Some? then b
      else if fs[n - 1] then Some(n - 1)
      else None
  }

  /** `if (line) lines.push(line)`. */
  function LastLine(line: string): (r: seq<string>)
    ensures |r| <= 1 && (r != [] ==> r[0] == line)
  {
    if line != [] then [line] else []
  }

  /** The pushed lines and the open line after the first `i` words. */
  datatype WrapState = WrapState(lines: seq<string>, line: string)

  /**
   * The state after `i` words: before the first overflow, no line pushed and all words
   * on the open line; after it, the words before the overflow pushed and the others open.
   */
  function StateAfter(ws: seq<string>, maxChars: nat, i: nat): WrapState
    requires i <= |ws|
  {
    match Break(ws, maxChars, i)
    case None => WrapState([], GlueAll(ws[..i]))
    case Some(k) => WrapState([GlueAll(ws[..k])], GlueAll(ws[k..i]))
  }

  /** One turn of the loop: glue `w` on, unless it overflows while no line has been pushed. */
  function WrapStep(st: WrapState, w: string, maxChars: nat): WrapState {
    var test := Glue(st.line, w);
    if |test| > maxChars && |st.lines| < 1 then WrapState(st.lines + [st.line], w)
    else WrapState(st.lines, test)
  }

  lemma StateAfterStep(ws: seq<string>, maxChars: nat, i: nat)
    requires i < |ws|
    ensures StateAfter(ws, maxChars, i + 1) == WrapStep(StateAfter(ws, maxChars, i), ws[i], maxChars)
  {
    BreakStep(ws, maxChars, i);
    match Break(ws, maxChars, i)
    case None =>
      if Overflows(ws, i, maxChars) {
        StepConCorte(ws, maxChars, i);
      } else {
        GlueAllSnoc(ws, 0, i);
        assert ws[0..i] == ws[..i] && ws[0..i + 1] == ws[..i + 1];
      }
    case Some(k) =>
      GlueAllSnoc(ws, k, i);
  }

  /** The word that first overflows closes line one and opens line two by itself. */
  lemma StepConCorte(ws: seq<string>, maxChars: nat, i: nat)
    requires i < |ws| && Break(ws, maxChars, i).None? && Overflows(ws, i, maxChars)
    requires Break(ws, maxChars, i + 1) == Some(i)
    ensures StateAfter(ws, maxChars, i + 1) == WrapState([GlueAll(ws[..i])], ws[i])
    ensures WrapStep(StateAfter(ws, maxChars, i), ws[i], maxChars) == WrapState([GlueAll(ws[..i])], ws[i])
  {
    var st := StateAfter(ws, maxChars, i);
    assert st == WrapState([], GlueAll(ws[..i]));
    assert |Glue(st.line, ws[i])| > maxChars;
    GlueAllUno(ws, i);
  }

  /** A single word glued onto nothing is that word. */
  lemma GlueAllUno(ws: seq<string>, i: nat)
    requires i < |ws|
    ensures GlueAll(ws[i..i + 1]) == ws[i]
  {
    assert ws[i..i + 1][..0] == [];
  }

  /** Gluing the words `k..i+1` is gluing word `i` onto the words `k..i`. */
  lemma GlueAllSnoc(ws: seq<string>, k: nat, i: nat)
    requires k <= i < |ws|
    ensures GlueAll(ws[k..i + 1]) == Glue(GlueAll(ws[k..i]), ws[i])
  {
    assert ws[k..i + 1][..i - k] == ws[k..i];
  }

  /** One more word moves the break only when there was none and that word overflows. */
  lemma BreakStep(ws: seq<string>, maxChars: nat, i: nat)
    requires i < |ws|
    ensures Break(ws, maxChars, i + 1) ==
      if Break(ws, maxChars, i).Some? then Break(ws, maxChars, i)
      else if Overflows(ws, i, maxChars) then Some(i) else None
  {
    var fs := Desbordes(ws, maxChars);
    assert fs[i] == Overflows(ws, i, maxChars);
  }

  /**
   * What `wrapDosLineas` returns for the words `ws`: without an overflow one line with
   * all of them; otherwise the words before the first overflow, then all the rest.
   * An open line that is empty is not pushed.
   */
  function Wrapped(ws: seq<string>, maxChars: nat): seq<string> {
    var st := StateAfter(ws, maxChars, |ws|);
    st.lines + LastLine(st.line)
  }

  /** `wrapDosLineas`: the citation split into words and wrapped onto at most two lines. */
  method WrapDosLineas(str: string, maxChars: nat) returns (lines: seq<string>)
    ensures lines == Wrapped(SplitWhiteSpace(str), maxChars)
  {
    var words := SplitWhiteSpace(str);
    lines := [];
    var line := "";
    for i := 0 to |words|
      invariant WrapState(lines, line) == StateAfter(words, maxChars, i)
    {
      StateAfterStep(words, maxChars, i);
      var w := words[i];
      ghost var next := WrapStep(WrapState(lines, line), w, maxChars);
      var test := if line != "" then line + " " + w else w;
      assert test == Glue(line, w);
      if |test| > maxChars && |lines| < 1 {
        lines := lines + [line];
        line := w;
      } else {
        line := test;
      }
      assert WrapState(lines, line) == next;
    }
    if line != "" {
      lines := lines + [line];
    }
  }

  /**
   * At most two lines come out; the first never exceeds `maxChars`, and a break is
   * taken only at the first word that would push line one past `maxChars`.
   */
  lemma WrappedShape(ws: seq<string>, maxChars: nat)
    ensures var r := Wrapped(ws, maxChars);
      |r| <= 2 && (|r| > 0 ==> |r[0]| <= maxChars)
  {
    match Break(ws, maxChars, |ws|)
    case None =>
      if ws != [] {
        assert !Overflows(ws, |ws| - 1, maxChars);
        assert ws[..|ws|][..|ws| - 1] == ws[..|ws| - 1];
      }
    case Some(k) =>
      if k > 0 {
        assert !Overflows(ws, k - 1, maxChars);
        assert ws[..k][..k - 1] == ws[..k - 1];
      }
  }
}

/**
 * The national choropleth: the state dictionary built from the normalised national
 * dataset, the sanity check on the number of states in the GeoJSON, the national total,
 * and the map state that is repainted on every change of metric.
 */
module RepublicaMexicana {
  import opened Wrappers
  import opened Js
  import Metricas
  import Normalizacion
  import opened ConfigMapa
  import Tablas
  import Tooltip

  const COLORES_TASAS: seq<string> := ["#9b2247", "orange", "#e6d194", "green", "darkgreen"]
  const COLORES_POBLACION: seq<string> := ["#e5f5e0", "#a1d99b", "#74c476", "#31a354", "#006d2c"]

  /** The fallback number of federal entities. */
  const NUM_ENTIDADES_FED: nat := 32

  // ---------------------------------------------------------------------------
  // Entity ids
  // ---------------------------------------------------------------------------

  /** `String(n).padStart(2, "0")`. */
  function IdEntidad(n: nat): string {
    PadStart(NatToString(n), 2, '0')
  }

  /** `idsEntidades`: the ids of the 32 federal entities, in the order they are generated. */
  const IDS_ENTIDADES: seq<string> := seq(32, i requires 0 <= i < 32 => IdEntidad(i + 1))

  /** A number below 100 is written with two digits, tens first. */
  lemma IdEntidadDigits(n: nat)
    requires n < 100
    ensures IdEntidad(n) == [DigitChar(n / 10), DigitChar(n % 10)]
  {
    if n < 10 {
      assert NatToString(n) == [DigitChar(n)];
      assert Repeat('0', 1) == ['0'];
    } else {
      assert NatToString(n / 10) == [DigitChar(n / 10)];
    }
  }

  /** The ids are "01" to "32": the i-th is the two digits of i + 1, and no two are equal. */
  lemma IdsEntidades(i: int, j: int)
    requires 0 <= i < 32 && 0 <= j < 32
    ensures |IDS_ENTIDADES| == 32
    ensures IDS_ENTIDADES[i] == [DigitChar((i + 1) / 10), DigitChar((i + 1) % 10)]
    ensures IDS_ENTIDADES[i] == IDS_ENTIDADES[j] ==> i == j
  {
    IdsEntidadesAt(i);
    IdsEntidadesAt(j);
    DigitPairInjective(i + 1, j + 1);
  }

  lemma IdsEntidadesAt(i: int)
    requires 0 <= i < 32
    ensures |IDS_ENTIDADES| == 32
    ensures IDS_ENTIDADES[i] == [DigitChar((i + 1) / 10), DigitChar((i + 1) % 10)]
  {
    assert IDS_ENTIDADES[i] == IdEntidad(i + 1);
    IdEntidadDigits(i + 1);
  }

  /** Two numbers below 100 with the same two digits are equal. */
  lemma DigitPairInjective(a: nat, b: nat)
    requires a < 100 && b < 100
    ensures [DigitChar(a / 10), DigitChar(a % 10)] == [DigitChar(b / 10), DigitChar(b % 10)] ==> a == b
  {
    if [DigitChar(a / 10), DigitChar(a % 10)] == [DigitChar(b / 10), DigitChar(b % 10)] {
      assert DigitChar(a / 10) == DigitChar(b / 10) && DigitChar(a % 10) == DigitChar(b % 10);
      assert a / 10 == b / 10 && a % 10 == b % 10;
    }
  }

  // ---------------------------------------------------------------------------
  // National total
  // ---------------------------------------------------------------------------

  /** `String(d.id)` of every row. */
  function IdsDe(rows: seq<Record>): (r: seq<string>)
    ensures |r| == |rows| && forall i :: 0 <= i < |rows| ==> r[i] == ToString(Get(rows[i], "id"))
  {
    seq(|rows|, i requires 0 <= i < |rows| => ToString(Get(rows[i], "id")))
  }

  /** The index of the first occurrence of `x`. */
  function PrimerIndice(xs: seq<string>, x: string): (r: Option<nat>)
    ensures r.Some? ==> r.value < |xs| && xs[r.value] == x && x !in xs[..r.value]
    ensures r.None? ==> x !in xs
  {
    if xs == [] then None
    else if xs[0] == x then Some(0)
    else match PrimerIndice(xs[1..], x)
      case Some(i) => assert xs[1..][..i] == xs[1..i + 1]; Some(i + 1)
      case None => None
  }

  /** `tasasRaw.find(d => String(d.id) === "9999")`, as an index. */
  function Fila9999(rows: seq<Record>): Option<nat> {
    PrimerIndice(IdsDe(rows), "9999")
  }

  /** `Number(d.enfermeras_total ?? d.enfermeras)`. */
  function Enfermeras(d: Record): Num {
    ToNumber(Coalesce([Get(d, "enfermeras_total"), Get(d, "enfermeras")]))
  }

  /** `Number(...) || 0`: the nurse count of the summary row, 0 when it is NaN or 0. */
  function TotalDeFila(d: Record): (r: Num)
    ensures r != NaN
    ensures r == if Enfermeras(d) == NaN then Finite(0.0) else Enfermeras(d)
  {
    var n := Enfermeras(d);
    if Truthy(Number(n)) then n else Finite(0.0)
  }

  /** The national total: that of the first 9999 row, or 0 when there is none. */
  function TotalNacional(rows: seq<Record>): (r: Num)
    ensures r != NaN
    ensures Fila9999(rows).None? ==> r == Finite(0.0)
    ensures Fila9999(rows).Some? ==> r == TotalDeFila(rows[Fila9999(rows).value])
  {
    match Fila9999(rows)
    case None => Finite(0.0)
    case Some(i) => TotalDeFila(rows[i])
  }

  /** Only the first 9999 row counts: rows after it, and rows before it with other ids, change nothing. */
  lemma TotalNacionalFirstRow(pre: seq<Record>, rows: seq<Record>, post: seq<Record>)
    requires Fila9999(pre).None? && Fila9999(rows).Some?
    ensures TotalNacional(pre + rows + post) == TotalNacional(rows)
  {
    var all := pre + rows + post;
    var i := Fila9999(rows).value;
    Fila9999Concat(pre, rows, post);
    TotalNacionalEn(all, |pre| + i);
    TotalNacionalEn(rows, i);
    assert all[|pre| + i] == rows[i];
  }

  lemma Fila9999Concat(pre: seq<Record>, rows: seq<Record>, post: seq<Record>)
    requires Fila9999(pre).None? && Fila9999(rows).Some?
    ensures Fila9999(pre + rows + post) == Some(|pre| + Fila9999(rows).value)
  {
    IdsDeConcat(pre, rows);
    IdsDeConcat(pre + rows, post);
    PrimerIndiceIn(IdsDe(pre), IdsDe(rows), IdsDe(post), "9999");
  }

  lemma TotalNacionalEn(rows: seq<Record>, i: nat)
    requires Fila9999(rows) == Some(i)
    ensures i < |rows| && TotalNacional(rows) == TotalDeFila(rows[i])
  {
  }

  lemma IdsDeConcat(a: seq<Record>, b: seq<Record>)
    ensures IdsDe(a + b) == IdsDe(a) + IdsDe(b)
  {
    var l, r := IdsDe(a + b), IdsDe(a) + IdsDe(b);
    assert |l| == |r|;
    forall i | 0 <= i < |l| ensures l[i] == r[i] {
      if i < |a| {
        assert (a + b)[i] == a[i];
      } else {
        assert (a + b)[i] == b[i - |a|];
      }
    }
  }

  /** The first occurrence in a concatenation whose first part lacks `x` lies in the second part. */
  lemma PrimerIndiceIn(a: seq<string>, b: seq<string>, c: seq<string>, x: string)
    requires x !in a && PrimerIndice(b, x).Some?
    ensures PrimerIndice(a + b + c, x) == Some(|a| + PrimerIndice(b, x).value)
  {
    var i := PrimerIndice(b, x).value;
    assert (a + b + c)[|a| + i] == x;
    assert (a + b + c)[..|a| + i] == a + b[..i];
  }

  // ---------------------------------------------------------------------------
  // Number of federal entities
  // ---------------------------------------------------------------------------

  /**
   * `(f.properties?.NOMBRE || f.properties?.nom_ent || "").trim()`; `None` when the chosen
   * value is not a string, where `trim` throws. Absent properties read as undefined.
   */
  function NombreFeature(props: Option<Record>): Option<string> {
    var p := props.GetOr(map[]);
    match Or([Get(p, "NOMBRE"), Get(p, "nom_ent"), Str("")])
    case Str(s) => Some(Trim(s))
    case _ => None
  }

  /** The set of the non-empty names in `ns`; `None` when one of them is missing, where the mapping throws. */
  function NombresUnicos(ns: seq<Option<string>>): (r: Option<set<string>>)
    ensures r.Some? ==> "" !in r.value
  {
    if ns == [] then Some({})
    else
      match (NombresUnicos(ns[..|ns| - 1]), ns[|ns| - 1])
      case (Some(u), Some(n)) => Some(if n == "" then u else u + {n})
      case _ => None
  }

  /** The names are those of the features, blanks left out; the set is missing exactly when one name is. */
  lemma {:induction false} NombresUnicosMembers(ns: seq<Option<string>>, n: string)
    ensures NombresUnicos(ns).None? <==> None in ns
    ensures NombresUnicos(ns).Some? ==> (n in NombresUnicos(ns).value <==> n != "" && Some(n) in ns)
  {
    if ns != [] {
      var init := ns[..|ns| - 1];
      NombresUnicosMembers(init, n);
      assert ns == init + [ns[|ns| - 1]];
    }
  }

  /** The names of the features, `geo.features.map(...)`. */
  function NombresFeatures(fs: seq<Option<Record>>): (r: seq<Option<string>>)
    ensures |r| == |fs| && forall i :: 0 <= i < |fs| ==> r[i] == NombreFeature(fs[i])
  {
    seq(|fs|, i requires 0 <= i < |fs| => NombreFeature(fs[i]))
  }

  /**
   * `contarEntidadesFederativas(geo)`: the number of distinct non-empty names when it
   * is between 20 and 40, otherwise, and when reading the names throws, 32.
   */
  function ContarEntidadesFederativas(features: Option<seq<Option<Record>>>): (r: nat)
    ensures 20 <= r <= 40
  {
    match NombresUnicos(NombresFeatures(features.GetOr([])))
    case None => NUM_ENTIDADES_FED
    case Some(ns) => if 20 <= |ns| <= 40 then |ns| else NUM_ENTIDADES_FED
  }

  /** The count is the number of distinct names when that is plausible, and 32 in every other case. */
  lemma ConteoEntidades(features: Option<seq<Option<Record>>>)
    ensures var ns := NombresUnicos(NombresFeatures(features.GetOr([])));
      ContarEntidadesFederativas(features) == (if ns.Some? && 20 <= |ns.value| <= 40 then |ns.value| else 32)
    ensures features.None? ==> ContarEntidadesFederativas(features) == 32
  {
  }

  // ---------------------------------------------------------------------------
  // State dictionary
  // ---------------------------------------------------------------------------

  /** `(d.estado || d.nombre_estado || d.NOMBRE || "").trim()`; `None` when that is not a string. */
  function NombreEstado(d: Record): Option<string> {
    match Or([Get(d, "estado"), Get(d, "nombre_estado"), Get(d, "NOMBRE"), Str("")])
    case Str(s) => Some(Trim(s))
    case _ => None
  }

  /** The name of every row. */
  function NombresEstados(rows: seq<Record>): (r: seq<Option<string>>)
    ensures |r| == |rows| && forall i :: 0 <= i < |rows| ==> r[i] == NombreEstado(rows[i])
  {
    seq(|rows|, i requires 0 <= i < |rows| => NombreEstado(rows[i]))
  }

  /**
   * The rows by name, given the name of each row: blanks skipped, a later row replacing
   * an earlier one; `None` when a name is missing, where the loop throws.
   */
  function Diccionario(rows: seq<Record>, ns: seq<Option<string>>): (r: Option<map<string, Record>>)
    requires |ns| == |rows|
    ensures r.Some? ==> "" !in r.value
  {
    if rows == [] then Some(map[])
    else
      match (Diccionario(rows[..|rows| - 1], ns[..|ns| - 1]), ns[|ns| - 1])
      case (Some(m), Some(n)) => Some(if n == "" then m else m[n := rows[|rows| - 1]])
      case _ => None
  }

  /** `dataByEstado`, built from the normalised rows: it fails exactly when some row's name is not a string. */
  function DataByEstado(rows: seq<Record>): (r: Option<map<string, Record>>)
    ensures r.None? <==> None in NombresEstados(rows)
    ensures r.Some? ==> "" !in r.value
  {
    DiccionarioLastWins(rows, NombresEstados(rows), "");
    Diccionario(rows, NombresEstados(rows))
  }

  /** The index of the last name equal to `n`. */
  function UltimaFila(ns: seq<Option<string>>, n: string): (r: Option<nat>)
    ensures r.Some? ==> r.value < |ns| && ns[r.value] == Some(n)
    ensures r.Some? ==> forall j :: r.value < j < |ns| ==> ns[j] != Some(n)
    ensures r.None? ==> Some(n) !in ns
  {
    if ns == [] then None
    else if ns[|ns| - 1] == Some(n) then Some(|ns| - 1)
    else UltimaFila(ns[..|ns| - 1], n)
  }

  /**
   * A name is in the dictionary exactly when it is not blank and some row has it, and it
   * maps to the last row that has it; the dictionary is missing exactly when a name is.
   */
  lemma {:induction false} DiccionarioLastWins(rows: seq<Record>, ns: seq<Option<string>>, n: string)
    requires |ns| == |rows|
    ensures Diccionario(rows, ns).None? <==> None in ns
    ensures Diccionario(rows, ns).Some? ==>
      (n in Diccionario(rows, ns).value <==> n != "" && UltimaFila(ns, n).Some?)
    ensures Diccionario(rows, ns).Some? && n in Diccionario(rows, ns).value ==>
      Diccionario(rows, ns).value[n] == rows[UltimaFila(ns, n).value]
  {
    DiccionarioFalla(rows, ns);
    if rows != [] && None !in ns {
      var init, ninit := rows[..|rows| - 1], ns[..|ns| - 1];
      DiccionarioLastWins(init, ninit, n);
      assert ns[|ns| - 1] in ns;
      if ns[|ns| - 1] != Some(n) && UltimaFila(ninit, n).Some? {
        assert init[UltimaFila(ninit, n).value] == rows[UltimaFila(ninit, n).value];
      }
    }
  }

  /** The dictionary is missing exactly when some name is. */
  lemma {:induction false} DiccionarioFalla(rows: seq<Record>, ns: seq<Option<string>>)
    requires |ns| == |rows|
    ensures Diccionario(rows, ns).None? <==> None in ns
  {
    if rows != [] {
      var ninit := ns[..|ns| - 1];
      DiccionarioFalla(rows[..|rows| - 1], ninit);
      assert ns == ninit + [ns[|ns| - 1]];
    }
  }

  /** The `forEach` that fills `dataByEstado`; a name that is not a string throws and stops it. */
  method BuildDataByEstado(tasas: seq<Record>) returns (r: Option<map<string, Record>>)
    ensures r == DataByEstado(tasas)
  {
    ghost var ns := NombresEstados(tasas);
    var m: map<string, Record> := map[];
    for i := 0 to |tasas|
      invariant Diccionario(tasas[..i], ns[..i]) == Some(m)
    {
      assert tasas[..i + 1][..i] == tasas[..i];
      assert ns[..i + 1][..i] == ns[..i];
      var nombre := NombreEstado(tasas[i]);
      if nombre.None? {
        DiccionarioLastWins(tasas, ns, "");
        assert ns[i] == None;
        return None;
      }
      if nombre.value != "" {
        m := m[nombre.value := tasas[i]];
      }
    }
    assert tasas[..|tasas|] == tasas;
    assert ns[..|ns|] == ns;
    return Some(m);
  }

  /** `dataByEstado[nombre]`. */
  function Lookup(m: map<string, Record>, nombre: string): Option<Record> {
    if nombre in m then Some(m[nombre]) else None
  }

  // ---------------------------------------------------------------------------
  // Paint policy
  // ---------------------------------------------------------------------------

  /** A region's paint: a flat colour, or the colour the scale gives a value. */
  datatype Fill = Flat(color: string) | Scaled(scale: Scale, v: real)

  /** The value of the metric's rate column in a record, `+item[tasaKey(metricKey)]`. */
  function ValorMetrica(item: Record, metricKey: string): Num {
    ToNumber(Get(item, Metricas.TasaKey(metricKey)))
  }

  /** The fill of a region: no record or no finite value, a zero or negative rate, or the scaled value. */
  function Relleno(item: Option<Record>, metricKey: string, scale: Scale): (r: Fill)
    ensures r.Flat? ==> r.color == COLOR_SIN || r.color == COLOR_CERO
    ensures r.Scaled? ==> r.scale == scale && item.Some? && ValorMetrica(item.value, metricKey) == Finite(r.v)
  {
    if item.None? then Flat(COLOR_SIN)
    else
      var v := ValorMetrica(item.value, metricKey);
      if !v.Finite? then Flat(COLOR_SIN)
      else if !Metricas.IsPopulation(metricKey) && v.r <= 0.0 then Flat(COLOR_CERO)
      else Scaled(scale, v.r)
  }

  /** The three tiers of the paint policy, each exactly when its condition holds. */
  lemma ReglasRelleno(item: Option<Record>, metricKey: string, scale: Scale)
    ensures Relleno(item, metricKey, scale) == Flat(COLOR_SIN) <==>
      item.None? || !ValorMetrica(item.value, metricKey).Finite?
    ensures Relleno(item, metricKey, scale) == Flat(COLOR_CERO) <==>
      (item.Some? && ValorMetrica(item.value, metricKey).Finite? && metricKey != "poblacion"
       && ValorMetrica(item.value, metricKey).r <= 0.0)
    ensures Relleno(item, metricKey, scale).Scaled? ==>
      (item.Some? && Relleno(item, metricKey, scale) == Scaled(scale, ValorMetrica(item.value, metricKey).r)
       && (metricKey != "poblacion" ==> Relleno(item, metricKey, scale).v > 0.0))
    ensures Relleno(item, metricKey, scale).Flat? || Relleno(item, metricKey, scale).Scaled?
  {
  }

  // ---------------------------------------------------------------------------
  // Map state
  // ---------------------------------------------------------------------------

  /** The colour ramp a palette name stands for: the green ramp for "poblacion", the rate ramp otherwise. */
  function Colores(nombre: string): seq<string> {
    if nombre == "poblacion" then COLORES_POBLACION else COLORES_TASAS
  }

  /**
   * The colours a metric is painted with: the ramp its catalogue palette names, one
   * colour per point of the five-point domain. This is `getPalette` corrected; as
   * written it returns the name itself (`PaletaAsWritten`).
   */
  function Paleta(metricKey: string): (r: seq<string>)
    ensures |r| == 5
    ensures r == COLORES_POBLACION <==> Metricas.IsPopulation(metricKey)
    ensures r == COLORES_TASAS <==> !Metricas.IsPopulation(metricKey)
  {
    Colores(Metricas.MetricPalette(metricKey))
  }

  /** What `getPalette` can return: a palette name or a list of colours. */
  datatype PaletaJs = Nombre(nombre: string) | Lista(colores: seq<string>)

  /** `getPalette` as written: `metricPalette(metricKey) || (esPoblacion ? COLORES_POBLACION : COLORES_TASAS)`. */
  function GetPaletteAsWritten(metricKey: string): PaletaJs {
    var n := Metricas.MetricPalette(metricKey);
    if n != "" then Nombre(n)
    else Lista(if Metricas.IsPopulation(metricKey) then COLORES_POBLACION else COLORES_TASAS)
  }

  /**
   * As written every metric, known or not, has a non-empty palette name, so the colour
   * lists after `||` are never chosen: the scale's range receives the text "tasas" or
   * "poblacion" instead of colours.
   */
  lemma PaletaAsWritten(metricKey: string)
    ensures GetPaletteAsWritten(metricKey).Nombre?
    ensures GetPaletteAsWritten(metricKey).nombre == if Metricas.IsPopulation(metricKey) then "poblacion" else "tasas"
  {
  }

  // ---------------------------------------------------------------------------
  // The repaint call as written
  // ---------------------------------------------------------------------------

  /** The key a plain object becomes when it is used as a property name, `String({})`. */
  const CLAVE_OBJETO: string := "[object Object]"

  /** An own property of a string of length `n`: "length", or a canonical index below `n`. */
  predicate PropiaDeTexto(n: nat, key: string) {
    key == "length"
    || (key != [] && AllRadixDigits(key, 10) && (key[0] == '0' ==> key == "0") && RadixValue(key, 10) < n)
  }

  /**
   * `METRICAS[metricKey].tasaKey` when `METRICAS` is the text `catalogo` and `metricKey`
   * is an object, so the property read is `clave`, the object's text. A character or
   * the length has no `tasaKey`, which reads as undefined; a name that is no property
   * of the text gives undefined, and reading `.tasaKey` of that throws: None.
   * (`String.prototype` method names are not among the keys this is used with.)
   */
  function TasaKeyDeTexto(catalogo: string, clave: string): Option<Value> {
    if PropiaDeTexto(|catalogo|, clave) then Some(Undefined) else None
  }

  /**
   * The national repaint as written, `prepararEscalaYLeyenda(tasas, tasaKey(metricKey), {...})`:
   * the catalogue parameter receives the text `tasaKey(metricKey)` and the metric
   * parameter the options object, so `valuesForMetric` first reads the property
   * "[object Object]" of that text. None when that throws.
   */
  function PrepararAsWritten(metricKey: string): Option<Value> {
    TasaKeyDeTexto(Metricas.TasaKey(metricKey), CLAVE_OBJETO)
  }

  /**
   * As written every repaint throws a TypeError before any region is painted, whatever
   * the metric: "[object Object]" is neither "length" nor an index.
   */
  lemma RepintadoLanza(metricKey: string)
    ensures PrepararAsWritten(metricKey).None?
  {
    assert !IsRadixDigit(CLAVE_OBJETO[0], 10);
  }

  /** The options the map passes when preparing the scale of `metricKey`. */
  function OpcionesPara(metricKey: string): PrepOptions {
    PrepOptions(Paleta(metricKey), Some(Metricas.MetricLabel(metricKey)),
      ValueOptions(["8888", "9999"], "id", None), None, true, None)
  }

  /** `METRICAS.TASA_TOTAL` as written: a property the catalogue does not have. */
  function MetricaInicialAsWritten(): Option<Metricas.MetricDef> {
    if "TASA_TOTAL" in Metricas.METRICAS then Some(Metricas.METRICAS["TASA_TOTAL"]) else None
  }

  /** The metric the map starts on, as intended. */
  const METRICA_INICIAL: string := "tasa_total"

  /**
   * As written, the initial metric is undefined; every keyed lookup turns it into the key
   * "undefined", which the catalogue lacks, so preparing its scale fails.
   */
  lemma MetricaInicialIndefinida(rows: seq<Record>, o: PrepOptions)
    ensures MetricaInicialAsWritten().None?
    ensures PrepararEscalaYLeyenda(rows, "undefined", o).None?
  {
  }

  /** The intended initial metric is in the catalogue, so the first repaint has a scale and a legend. */
  lemma MetricaInicialPintable(rows: seq<Record>)
    ensures METRICA_INICIAL in Metricas.METRICAS
    ensures PrepararEscalaYLeyenda(rows, METRICA_INICIAL, OpcionesPara(METRICA_INICIAL)).Some?
  {
  }

  /**
   * The module state of the national map: the dataset, the state dictionary, the name
   * of each region of the GeoJSON in drawing order and the fill of each region, with the
   * current metric and the scale and legend of the last repaint.
   */
  class MapaNacional {
    const tasas: seq<Record>
    const dataByEstado: map<string, Record>
    /** The trimmed `NOMBRE` of each region. */
    const regiones: seq<string>
    const fills: array<Fill>
    var currentMetric: string
    /** `{ scale, legendCfg }` of the last repaint; null before the first. */
    var preparado: Option<Prepared>
    /** The metric of the last repaint. */
    ghost var pintada: string

    /** Before any repaint every region is grey; afterwards every fill follows the policy with the legend's own scale. */
    ghost predicate Valid()
      reads this, fills
    {
      fills.Length == |regiones|
      && (preparado.None? ==> forall i :: 0 <= i < fills.Length ==> fills[i] == Flat(COLOR_SIN))
      && (preparado.Some? ==>
           preparado == PrepararEscalaYLeyenda(tasas, pintada, OpcionesPara(pintada))
           && forall i :: 0 <= i < fills.Length ==>
                fills[i] == Relleno(Lookup(dataByEstado, regiones[i]), pintada, preparado.value.scale))
    }

    /** The regions are drawn grey, with no scale yet, on the initial metric. */
    constructor (tasas: seq<Record>, dataByEstado: map<string, Record>, regiones: seq<string>)
      ensures Valid() && fresh(fills)
      ensures this.tasas == tasas && this.dataByEstado == dataByEstado && this.regiones == regiones
      ensures currentMetric == METRICA_INICIAL && preparado.None?
      ensures forall i :: 0 <= i < fills.Length ==> fills[i] == Flat(COLOR_SIN)
    {
      this.tasas := tasas;
      this.dataByEstado := dataByEstado;
      this.regiones := regiones;
      fills := new Fill[|regiones|](_ => Flat(COLOR_SIN));
      currentMetric := METRICA_INICIAL;
      preparado := None;
      pintada := METRICA_INICIAL;
    }

    /**
     * `actualizarMapaPorMetrica(metricKey)`: the metric becomes current, the scale and
     * legend are prepared for it and every region is repainted. For a metric outside the
     * catalogue the preparation throws and the map keeps its scale and colours.
     */
    method ActualizarMapaPorMetrica(metricKey: string)
      requires Valid()
      modifies this, fills
      ensures Valid()
      ensures currentMetric == metricKey
      ensures metricKey in Metricas.METRICAS ==>
        (preparado == PrepararEscalaYLeyenda(tasas, metricKey, OpcionesPara(metricKey))
         && forall i :: 0 <= i < fills.Length ==>
              fills[i] == Relleno(Lookup(dataByEstado, regiones[i]), metricKey, preparado.value.scale))
      ensures metricKey !in Metricas.METRICAS ==>
        preparado == old(preparado) && forall i :: 0 <= i < fills.Length ==> fills[i] == old(fills[i])
    {
      currentMetric := metricKey;
      var p := PrepararEscalaYLeyenda(tasas, metricKey, OpcionesPara(metricKey));
      if p.None? {
        return;
      }
      Repintar(metricKey, p.value.scale);
      preparado := p;
      pintada := metricKey;
    }

    /**
     * `actualizarMapaPorMetrica` as written: `currentMetric` changes, then preparing the
     * scale throws (`RepintadoLanza`), so no region is repainted, the scale and legend
     * stay, and the `renderTabla()` that follows it never runs.
     */
    method ActualizarMapaPorMetricaAsWritten(metricKey: string)
      requires Valid()
      modifies this
      ensures Valid() && currentMetric == metricKey
      ensures preparado == old(preparado) && pintada == old(pintada)
      ensures PrepararAsWritten(metricKey).None?
    {
      currentMetric := metricKey;
      RepintadoLanza(metricKey);
    }

    /** `.attr("fill", ...)` over every region: each takes the fill the policy gives its record. */
    method Repintar(metricKey: string, scale: Scale)
      requires fills.Length == |regiones|
      modifies fills
      ensures forall i :: 0 <= i < fills.Length ==>
        fills[i] == Relleno(Lookup(dataByEstado, regiones[i]), metricKey, scale)
    {
      for i := 0 to fills.Length
        invariant forall j :: 0 <= j < i ==> fills[j] == Relleno(Lookup(dataByEstado, regiones[j]), metricKey, scale)
      {
        fills[i] := Relleno(Lookup(dataByEstado, regiones[i]), metricKey, scale);
      }
    }
  }

  /**
   * Loading the map: the raw rows are normalised with the national normaliser, the state
   * dictionary is built from them, and the regions are drawn grey. A state name that
   * is not a string makes the load throw.
   */
  method CargarMapa(tasasRaw: seq<Record>, regiones: seq<string>) returns (r: Option<MapaNacional>)
    ensures r.Some? <==> DataByEstado(Normalizacion.NormalizarDataset(tasasRaw, "nacional", [])).Some?
    ensures r.Some? ==> fresh(r.value) && fresh(r.value.fills) && r.value.Valid()
    ensures r.Some? ==> (r.value.tasas == Normalizacion.NormalizarDataset(tasasRaw, "nacional", [])
      && r.value.dataByEstado == DataByEstado(r.value.tasas).value && r.value.regiones == regiones)
  {
    var tasas := Normalizacion.NormalizarDataset(tasasRaw, "nacional", []);
    var dm := BuildDataByEstado(tasas);
    if dm.None? {
      return None;
    }
    var m := new MapaNacional(tasas, dm.value, regiones);
    return Some(m);
  }

  /** Painting with a scaled fill always uses the scale whose domain the legend shows. */
  lemma PaintMatchesLegend(m: map<string, Record>, nombre: string, rows: seq<Record>, metricKey: string)
    requires metricKey in Metricas.METRICAS
    ensures var p := PrepararEscalaYLeyenda(rows, metricKey, OpcionesPara(metricKey)).value;
      var f := Relleno(Lookup(m, nombre), metricKey, p.scale);
      f.Scaled? ==> (f.scale.domain[0] == p.legend.dominio[0] && f.scale.domain[4] == p.legend.dominio[1]
        && f.scale.range == p.legend.colores == Paleta(metricKey))
  {
    LegendMatchesScale(rows, metricKey, OpcionesPara(metricKey));
  }

  // ---------------------------------------------------------------------------
  // The national table call
  // ---------------------------------------------------------------------------

  /** The fields `renderTablaNacional` destructures from its one options argument. */
  datatype OpcionesTabla = OpcionesTabla(data: seq<Record>, metricKey: string)

  /** `{ data = [], metricKey = "tasa_total" } = arg`, for an argument that may carry each field. */
  function OpcionesDe(data: Option<seq<Record>>, metricKey: Option<string>): OpcionesTabla {
    OpcionesTabla(data.GetOr([]), metricKey.GetOr("tasa_total"))
  }

  /**
   * `renderTabla` as written calls `renderTablaNacional(mount, {...})`: the mount element,
   * which has neither `data` nor `metricKey`, is read as the options, so the table is
   * built from no rows on `tasa_total`, whatever the dataset and the current metric.
   */
  lemma TablaAsWrittenVacia(collate: Tablas.Collation)
    ensures OpcionesDe(None, None) == OpcionesTabla([], "tasa_total")
    ensures Tablas.BuildRowsFor(OpcionesDe(None, None).data, OpcionesDe(None, None).metricKey, collate) == Some([])
  {
    assert Tablas.Filas([], "tasa_total") == Some([]);
  }

  /** What `d3.csv` yields: every property of every row is text. */
  predicate FilasDeTexto(raw: seq<Record>) {
    forall i, k :: 0 <= i < |raw| && k in raw[i] ==> raw[i][k].Str?
  }

  /** A normalised row of text has a text state name, so the table can map it. */
  lemma FilaNormalizadaMapea(d: Record, metricKey: string)
    requires forall k :: k in d ==> d[k].Str?
    ensures Tablas.FilaDe(Normalizacion.Row(d, [], false), metricKey).Some?
  {
    Normalizacion.RowPopulationAndIds(d, [], false);
    Normalizacion.StableAlias(d, [], false, "Estado");
    assert "Estado" in d ==> d["Estado"].Str?;
    EstadoDeTexto(Normalizacion.Row(d, [], false), metricKey);
  }

  /** A state name under `estado` that is text, and only text under `Estado`, let the table map the row. */
  lemma EstadoDeTexto(r: Record, metricKey: string)
    requires "estado" in r && r["estado"].Str?
    requires Get(r, "Estado").Str? || Get(r, "Estado").Undefined?
    ensures Tablas.FilaDe(r, metricKey).Some?
  {
    assert Tablas.EstadoCrudo(r).Str?;
  }

  /**
   * With the options passed as the one argument, the table of the page's dataset
   * (the rows of the CSV, normalised as national rows) is built on the current metric
   * and holds one row for each row of the CSV, so it is not empty when the CSV is not,
   * where the call as written always gets an empty table.
   */
  lemma TablaCorregida(raw: seq<Record>, metricKey: string, collate: Tablas.Collation)
    requires FilasDeTexto(raw)
    ensures var tasas := Normalizacion.NormalizarDataset(raw, "nacional", []);
      OpcionesDe(Some(tasas), Some(metricKey)) == OpcionesTabla(tasas, metricKey)
    ensures var tasas := Normalizacion.NormalizarDataset(raw, "nacional", []);
      var b := Tablas.BuildRowsFor(tasas, metricKey, collate);
      b.Some? && |b.value| == |raw| && multiset(b.value) == multiset(Tablas.Filas(tasas, metricKey).value)
      && (|raw| > 0 ==> b != Some([]))
  {
    var tasas := Normalizacion.NormalizarDataset(raw, "nacional", []);
    forall i | 0 <= i < |tasas|
      ensures Tablas.FilaDe(tasas[i], metricKey).Some?
    {
      FilaNormalizadaMapea(raw[i], metricKey);
    }
  }

  // ---------------------------------------------------------------------------
  // Calls whose arguments do not match the callee
  // ---------------------------------------------------------------------------

  /**
   * The state tooltip as written: `mostrarTooltip(tooltip, event, {nombre, data, metricKey})`
   * puts the object where the name belongs, so `datos` is undefined and `opts` is `{}`;
   * `pickDatos(undefined, null, null)` then has no rate, count or population, and the
   * tooltip reads "Sin datos" for every state and every metric.
   */
  lemma TooltipEstadoAsWritten(claves: seq<string>)
    ensures var r := Tooltip.PickDatos(None, claves, None, None);
      r.tasa == NaN && r.enfermeras == NaN && r.poblacion == NaN && !r.isPoblacion
      && r.titulo == Tooltip.TASA && Tooltip.FmtRate(r.tasa) == Tooltip.SIN_DATOS
  {
  }

  /**
   * The intended call, `mostrarTooltip(tooltip, event, nombre, item, {metricKey})`: for a
   * wide record the population metric shows the population, and a rate metric shows the
   * record's own rate, which reads "Sin datos" only when that column is not a finite number.
   */
  lemma TooltipEstadoCorregido(d: Record, claves: seq<string>, metricKey: string)
    requires !Tooltip.Resumido(Some(d)) && metricKey != ""
    ensures var r := Tooltip.PickDatos(Some(d), claves, Some(metricKey), None);
      r.poblacion == Tooltip.Poblacion(Some(d))
      && (metricKey == "poblacion" ==> r.isPoblacion)
      && (metricKey != "poblacion" ==>
            !r.isPoblacion && r.tasa == Tooltip.Leer(Some(d), metricKey)
            && (Tooltip.FmtRate(r.tasa) == Tooltip.SIN_DATOS <==> !ToNumber(Get(d, metricKey)).Finite?))
  {
  }

  /**
   * The PNG title as written: `construirTitulo({anio, ambito, descripcion, incluirCita})`
   * makes the object the metric key, read as the property "[object Object]", and leaves
   * the options at their defaults; every export gets the generic national title of 2025.
   */
  lemma TituloPngAsWritten()
    ensures TituloBase(CLAVE_OBJETO).None?
    ensures ConstruirTitulo(CLAVE_OBJETO, None, "2025") == "Distribución de enfermería en México (2025)"
  {
    TitleKeysAreMetrics(CLAVE_OBJETO, "");
    TituloGenerico(CLAVE_OBJETO, None, "2025");
  }

  /**
   * The intended call, `construirTitulo(currentMetric, {year})`: a catalogued metric gets
   * its own title, placed in Mexico and dated with the page's year.
   */
  lemma TituloPngCorregido(metricKey: string, year: string)
    requires metricKey in Metricas.METRICAS
    ensures TituloBase(metricKey).Some?
    ensures ConstruirTitulo(metricKey, None, year) == TituloBase(metricKey).value + " en México (" + year + ")"
  {
    TitleKeysAreMetrics(metricKey, "");
    var base := TituloBase(metricKey).value;
    assert ConstruirTitulo(metricKey, None, year) == base + " " + "en México" + " " + ("(" + year + ")");
    TituloJunto(base, year);
  }

  /** The pieces of a national title, glued. */
  lemma TituloJunto(base: string, year: string)
    ensures base + " " + "en México" + " " + ("(" + year + ")") == base + " en México (" + year + ")"
  {
    assert " " + "en México" + " " + "(" == " en México (";
  }
}

/**
 * The catalogue of nursing metrics: for every metric key, its label, the record
 * column that holds its rate (`tasaKey`), the column that holds its count
 * (`countKey`), the colour palette it is drawn with and a short description.
 */
module Metricas {

  /** A metric; `title` is the display label (`label` is a reserved word). */
  datatype MetricDef = MetricDef(title: string, tasaKey: string, countKey: string, palette: string, desc: string)

  /** An entry of the metric selector: the key and its label. */
  datatype MetricOption = MetricOption(value: string, text: string)

  const METRICAS: map<string, MetricDef> := map[
    "tasa_total" := MetricDef("Tasa total", "tasa_total", "enfermeras_total", "tasas", "Enfermeras por cada mil habitantes (todas las áreas)."),
    "tasa_primer" := MetricDef("Tasa 1er nivel", "tasa_primer", "enfermeras_primer", "tasas", "Primer nivel de atención."),
    "tasa_segundo" := MetricDef("Tasa 2º nivel", "tasa_segundo", "enfermeras_segundo", "tasas", "Segundo nivel de atención."),
    "tasa_tercer" := MetricDef("Tasa 3er nivel", "tasa_tercer", "enfermeras_tercer", "tasas", "Tercer nivel de atención."),
    "tasa_apoyo" := MetricDef("Tasa en establecimientos de apoyo", "tasa_apoyo", "enfermeras_apoyo", "tasas", "Establecimientos de apoyo."),
    "tasa_escuelas" := MetricDef("Tasa en escuelas", "tasa_escuelas", "enfermeras_escuelas", "tasas", "Escuelas."),
    "tasa_administrativas" := MetricDef("Tasa en áreas administrativas", "tasa_administrativas", "enfermeras_administrativas", "tasas", "Áreas administrativas."),
    "tasa_no_aplica" := MetricDef("Tasa no aplica", "tasa_no_aplica", "enfermeras_no_aplica", "tasas", "Registros marcados como 'No aplica'."),
    "tasa_no_asignado" := MetricDef("Tasa no asignado", "tasa_no_asignado", "enfermeras_no_asignado", "tasas", "Registros 'No asignado'."),
    "poblacion" := MetricDef("Población", "poblacion", "poblacion", "poblacion", "Población total.")
  ]

  /** The order in which metrics are offered. */
  const METRIC_ORDER: seq<string> := [
    "tasa_total", "poblacion", "tasa_primer", "tasa_segundo", "tasa_tercer",
    "tasa_apoyo", "tasa_escuelas", "tasa_administrativas", "tasa_no_aplica", "tasa_no_asignado"
  ]

  /** The levels that have a rate and a count of their own: `tasa_<level>` and `enfermeras_<level>`. */
  const LEVELS: seq<string> := [
    "total", "primer", "segundo", "tercer", "apoyo", "escuelas", "administrativas", "no_aplica", "no_asignado"
  ]

  predicate IsPopulation(key: string) {
    key == "poblacion"
  }

  /** The definition of `key`, or that of `tasa_total` for a key that is not in the catalogue. */
  function Def(key: string): (r: MetricDef)
    ensures key in METRICAS ==> r == METRICAS[key]
    ensures key !in METRICAS ==> r == METRICAS["tasa_total"]
  {
    if key in METRICAS then METRICAS[key] else METRICAS["tasa_total"]
  }

  /** The keys of `ks` that are in the catalogue, in order. */
  function KnownKeys(ks: seq<string>): (r: seq<string>)
    ensures forall k :: k in r <==> k in ks && k in METRICAS
    ensures |r| <= |ks|
  {
    if ks == [] then []
    else if ks[0] in METRICAS then [ks[0]] + KnownKeys(ks[1..])
    else KnownKeys(ks[1..])
  }

  function MetricKeys(): seq<string> {
    KnownKeys(METRIC_ORDER)
  }

  function MetricOptions(): (r: seq<MetricOption>)
    ensures |r| == |MetricKeys()|
    ensures forall i :: 0 <= i < |r| ==> r[i].value == MetricKeys()[i] && r[i].text == MetricLabel(r[i].value)
  {
    OptionsFor(MetricKeys())
  }

  /** One selector entry per key, in order. */
  function OptionsFor(ks: seq<string>): (r: seq<MetricOption>)
    ensures |r| == |ks|
    ensures forall i :: 0 <= i < |r| ==> r[i].value == ks[i] && r[i].text == MetricLabel(r[i].value)
  {
    seq(|ks|, i requires 0 <= i < |ks| => OptionOf(ks[i]))
  }

  function OptionOf(key: string): MetricOption {
    MetricOption(key, MetricLabel(key))
  }

  /** `metricLabel`: the catalogue's label, "Tasa total" for an unknown key. */
  function MetricLabel(key: string): (r: string)
    ensures key in METRICAS ==> r == METRICAS[key].title
    ensures key !in METRICAS ==> r == "Tasa total"
  {
    Def(key).title
  }

  /** `tasaKey`: every metric reads the column named after itself; an unknown key reads `tasa_total`. */
  function TasaKey(key: string): (r: string)
    ensures r == if key in METRICAS then key else "tasa_total"
  {
    Def(key).tasaKey
  }

  /** `countKey`: the catalogue's count column, `enfermeras_total` for an unknown key. */
  function CountKey(key: string): (r: string)
    ensures key in METRICAS ==> r == METRICAS[key].countKey
    ensures key !in METRICAS ==> r == "enfermeras_total"
  {
    Def(key).countKey
  }

  /** `metricPalette`: "poblacion" for population, "tasas" for every other key, known or not. */
  function MetricPalette(key: string): (r: string)
    ensures r == if IsPopulation(key) then "poblacion" else "tasas"
  {
    Def(key).palette
  }

  function MetricShortDescription(key: string): string {
    Def(key).desc
  }

  /** Filtering a list of catalogue keys keeps all of it. */
  lemma {:induction false} KnownKeysAll(ks: seq<string>)
    requires forall k :: k in ks ==> k in METRICAS
    ensures KnownKeys(ks) == ks
  {
    if ks != [] {
      KnownKeysAll(ks[1..]);
    }
  }

  /** Every catalogue key is offered, once, in METRIC_ORDER; the total rate comes first, population second. */
  lemma MetricKeysAreOrder()
    ensures MetricKeys() == METRIC_ORDER
    ensures forall k :: k in MetricKeys() <==> k in METRICAS
    ensures |MetricKeys()| == 10
    ensures MetricKeys()[0] == "tasa_total" && MetricKeys()[1] == "poblacion"
  {
    forall k | k in METRIC_ORDER ensures k in METRICAS {}
    KnownKeysAll(METRIC_ORDER);
  }

  /** Every metric reads its rate from the column named after itself. */
  lemma TasaKeyIsOwnKey(key: string)
    requires key in METRICAS
    ensures TasaKey(key) == key
  {
  }

  /** Every level `l` has a rate metric `tasa_<l>`, which counts in `enfermeras_<l>`. */
  lemma RateMetricShape(i: nat)
    requires i < |LEVELS|
    ensures "tasa_" + LEVELS[i] in METRICAS
    ensures CountKey("tasa_" + LEVELS[i]) == "enfermeras_" + LEVELS[i]
  {
    if i < 3 {
      CareLevelShape(i);
    } else if i < 6 {
      SettingShape(i);
    } else if i == 6 {
      AdministrativeShape();
    } else if i == 7 {
      NotApplicableShape();
    } else {
      UnassignedShape();
    }
  }

  lemma CareLevelShape(i: nat)
    requires 0 <= i < 3 && i < |LEVELS|
    ensures "tasa_" + LEVELS[i] in METRICAS
    ensures CountKey("tasa_" + LEVELS[i]) == "enfermeras_" + LEVELS[i]
  {
    if i == 0 {
      assert "tasa_" + LEVELS[i] == "tasa_total" && "enfermeras_" + LEVELS[i] == "enfermeras_total";
    } else if i == 1 {
      assert "tasa_" + LEVELS[i] == "tasa_primer" && "enfermeras_" + LEVELS[i] == "enfermeras_primer";
    } else {
      assert "tasa_" + LEVELS[i] == "tasa_segundo" && "enfermeras_" + LEVELS[i] == "enfermeras_segundo";
    }
  }

  lemma SettingShape(i: nat)
    requires 3 <= i < 6 && i < |LEVELS|
    ensures "tasa_" + LEVELS[i] in METRICAS
    ensures CountKey("tasa_" + LEVELS[i]) == "enfermeras_" + LEVELS[i]
  {
    if i == 3 {
      assert "tasa_" + LEVELS[i] == "tasa_tercer" && "enfermeras_" + LEVELS[i] == "enfermeras_tercer";
    } else if i == 4 {
      assert "tasa_" + LEVELS[i] == "tasa_apoyo" && "enfermeras_" + LEVELS[i] == "enfermeras_apoyo";
    } else {
      assert "tasa_" + LEVELS[i] == "tasa_escuelas" && "enfermeras_" + LEVELS[i] == "enfermeras_escuelas";
    }
  }

  lemma AdministrativeShape()
    ensures "tasa_" + LEVELS[6] in METRICAS
    ensures CountKey("tasa_" + LEVELS[6]) == "enfermeras_" + LEVELS[6]
  {
    assert LEVELS[6] == "administrativas";
    assert "tasa_" + LEVELS[6] == "tasa_administrativas" && "enfermeras_" + LEVELS[6] == "enfermeras_administrativas";
  }

  lemma NotApplicableShape()
    ensures "tasa_" + LEVELS[7] in METRICAS
    ensures CountKey("tasa_" + LEVELS[7]) == "enfermeras_" + LEVELS[7]
  {
    assert "tasa_" + LEVELS[7] == "tasa_no_aplica" && "enfermeras_" + LEVELS[7] == "enfermeras_no_aplica";
  }

  lemma UnassignedShape()
    ensures "tasa_" + LEVELS[8] in METRICAS
    ensures CountKey("tasa_" + LEVELS[8]) == "enfermeras_" + LEVELS[8]
  {
    assert "tasa_" + LEVELS[8] == "tasa_no_asignado" && "enfermeras_" + LEVELS[8] == "enfermeras_no_asignado";
  }

  /** Population has a palette of its own; every other metric uses the rate palette. */
  lemma PaletteByKind(key: string)
    requires key in METRICAS
    ensures MetricPalette(key) == (if IsPopulation(key) then "poblacion" else "tasas")
  {
  }

  /** Population is its own rate and count column and has a palette of its own. */
  lemma PopulationShape()
    ensures IsPopulation("poblacion") && "poblacion" in METRICAS
    ensures TasaKey("poblacion") == "poblacion" && CountKey("poblacion") == "poblacion"
    ensures MetricPalette("poblacion") == "poblacion"
  {
  }

  /** An unknown key behaves as the total rate in every accessor. */
  lemma UnknownKeyFallsBack(key: string)
    requires key !in METRICAS
    ensures MetricLabel(key) == "Tasa total" && TasaKey(key) == "tasa_total"
    ensures CountKey(key) == "enfermeras_total" && MetricPalette(key) == "tasas"
    ensures !IsPopulation(key)
  {
  }
}

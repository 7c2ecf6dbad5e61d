/**
 * What the map tooltip shows: `pickDatos` reads a rate, a nurse count and a
 * population out of either a summary object or a wide CSV record, and the
 * formatting helpers turn them into text. The clinic tooltip's `safe` and `fmt6`
 * helpers are here too; building and placing the HTML is not.
 */
module Tooltip {
  import opened Wrappers
  import opened Js
  import Metricas

  /** `LABELS`: the label of each known metric key. */
  const LABELS: map<string, string> := map[
    "tasa_total" := "Tasa total",
    "tasa_primer" := "Tasa 1er nivel",
    "tasa_segundo" := "Tasa 2º nivel",
    "tasa_tercer" := "Tasa 3er nivel",
    "tasa_apoyo" := "Tasa en apoyo",
    "tasa_escuelas" := "Tasa en escuelas",
    "tasa_administrativas" := "Tasa en áreas administrativas",
    "tasa_no_aplica" := "Tasa no aplica",
    "tasa_no_asignado" := "Tasa no asignado",
    "poblacion" := "Población"
  ]

  const TASA: string := "Tasa"
  const SIN_DATOS: string := "Sin datos"
  const GUION: string := "—"
  const ND: string := "N/D"

  /** `labelPorMetrica`: `LABELS[key] || "Tasa"`. */
  function LabelPorMetrica(key: string): (r: string)
    ensures r != ""
    ensures key in LABELS ==> r == LABELS[key]
    ensures key !in LABELS ==> r == TASA
  {
    if key in LABELS && LABELS[key] != "" then LABELS[key] else TASA
  }

  /** `fmtRate`: two decimals for a finite number, "Sin datos" otherwise. */
  function FmtRate(n: Num): (r: string)
    ensures r == SIN_DATOS <==> !n.Finite?
    ensures n.Finite? ==> r == ToFixed(n.r, 2)
  {
    if n.Finite? then
      ToFixedEndsInDigit(n.r, 2);
      ToFixed(n.r, 2)
    else SIN_DATOS
  }

  /** `fmtNum`: the locale rendering `fmt` of a finite number, "—" otherwise. */
  function FmtNum(n: Num, fmt: real -> string): (r: string)
    ensures !n.Finite? ==> r == GUION
    ensures n.Finite? ==> r == fmt(n.r)
  {
    if n.Finite? then fmt(n.r) else GUION
  }

  /** What `pickDatos` returns (`titulo` is its `label`); `isPoblacion` is false where the source leaves it out. */
  datatype Picked = Picked(tasa: Num, enfermeras: Num, poblacion: Num, titulo: string, isPoblacion: bool)

  /** `Number.isFinite(+datos?.[k]) ? +datos[k] : NaN`. */
  function Leer(datos: Option<Record>, k: string): (r: Num)
    ensures r.Finite? || r.NaN?
    ensures r.Finite? <==> datos.Some? && ToNumber(Get(datos.value, k)).Finite?
    ensures r.Finite? ==> r == ToNumber(Get(datos.value, k))
  {
    var n := if datos.Some? then ToNumber(Get(datos.value, k)) else NaN;
    if n.Finite? then n else NaN
  }

  /** The population, from `poblacion` when that is finite, else from `población`. */
  function Poblacion(datos: Option<Record>): (r: Num)
    ensures r.Finite? || r.NaN?
    ensures Leer(datos, "poblacion").Finite? ==> r == Leer(datos, "poblacion")
    ensures !Leer(datos, "poblacion").Finite? ==> r == Leer(datos, "población")
  {
    var p := Leer(datos, "poblacion");
    if p.Finite? then p else Leer(datos, "población")
  }

  /** `k.replace(/^tasa_/, "enfermeras_")`. */
  function EnfKey(k: string): (r: string)
    ensures !StartsWith(k, "tasa_") ==> r == k
    ensures StartsWith(k, "tasa_") ==> StartsWith(r, "enfermeras_") && r[11..] == k[5..]
  {
    if StartsWith(k, "tasa_") then "enfermeras_" + k[5..] else k
  }

  /** `forced || dflt` for a label that may be null or empty. */
  function Label(forced: Option<string>, dflt: string): (r: string)
    ensures forced.Some? && forced.value != "" ==> r == forced.value
    ensures (forced.None? || forced.value == "") ==> r == dflt
  {
    if forced.Some? && forced.value != "" then forced.value else dflt
  }

  /** Case A: an object that already holds a `tasa` or an `enfermeras` property. */
  predicate Resumido(datos: Option<Record>) {
    datos.Some? && ("tasa" in datos.value || "enfermeras" in datos.value)
  }

  /** `/^tasa_/.test(k) && Number.isFinite(+d[k])`. */
  predicate Apta(d: Record, k: string) {
    StartsWith(k, "tasa_") && Leer(Some(d), k).Finite?
  }

  /** `Object.keys(d).find(...)` over the key order `claves`. */
  function PrimeraTasa(d: Record, claves: seq<string>): (r: Option<string>)
    ensures r.Some? ==> r.value in claves && Apta(d, r.value)
    ensures r.None? ==> forall k :: k in claves ==> !Apta(d, k)
  {
    if claves == [] then None
    else if Apta(d, claves[0]) then Some(claves[0])
    else PrimeraTasa(d, claves[1..])
  }

  /** `claves[i]` is the first suitable key of `claves`. */
  predicate PrimeraEn(d: Record, claves: seq<string>, i: int) {
    0 <= i < |claves| && Apta(d, claves[i]) && forall j :: 0 <= j < i ==> !Apta(d, claves[j])
  }

  /** The key found is the first suitable one in enumeration order. */
  lemma {:induction false} PrimeraTasaEsPrimera(d: Record, claves: seq<string>)
    requires PrimeraTasa(d, claves).Some?
    ensures exists i :: PrimeraEn(d, claves, i) && claves[i] == PrimeraTasa(d, claves).value
  {
    if !Apta(d, claves[0]) {
      var t := claves[1..];
      PrimeraTasaEsPrimera(d, t);
      var i :| PrimeraEn(d, t, i) && t[i] == PrimeraTasa(d, t).value;
      assert claves[i + 1] == PrimeraTasa(d, claves).value;
      forall j | 0 <= j < i + 1 ensures !Apta(d, claves[j]) {
        if j > 0 {
          assert claves[j] == t[j - 1];
        }
      }
      assert PrimeraEn(d, claves, i + 1);
    } else {
      assert PrimeraEn(d, claves, 0);
    }
  }

  /**
   * `pickDatos(datos, metricKey, labelForced)`; `claves` is the order in which
   * `Object.keys(datos)` enumerates the record. `datos` is `None` for null or
   * undefined, `metricKey` for null.
   */
  function PickDatos(datos: Option<Record>, claves: seq<string>, metricKey: Option<string>, labelForced: Option<string>): (r: Picked)
    ensures r.poblacion == Poblacion(datos)
    ensures (r.tasa.Finite? || r.tasa.NaN?) && (r.enfermeras.Finite? || r.enfermeras.NaN?)
    ensures r.titulo != ""
    ensures r.isPoblacion ==> r.tasa.NaN? && r.enfermeras.NaN? && r.titulo == "Población"
    ensures Resumido(datos) ==>
      !r.isPoblacion && r.tasa == Leer(datos, "tasa") && r.enfermeras == Leer(datos, "enfermeras")
      && r.titulo == Label(labelForced, TASA)
    ensures !Resumido(datos) && metricKey == Some("poblacion") ==> r.isPoblacion
    ensures (!Resumido(datos) && metricKey.Some? && metricKey.value != "" && metricKey.value != "poblacion") ==>
      !r.isPoblacion && r.tasa == Leer(datos, metricKey.value)
      && r.enfermeras == Leer(datos, EnfKey(metricKey.value))
      && r.titulo == Label(labelForced, LabelPorMetrica(metricKey.value))
  {
    var poblacion := Poblacion(datos);
    if Resumido(datos) then
      Picked(Leer(datos, "tasa"), Leer(datos, "enfermeras"), poblacion, Label(labelForced, TASA), false)
    else if metricKey == Some("poblacion") then
      Picked(NaN, NaN, poblacion, "Población", true)
    else if metricKey.Some? && metricKey.value != "" then
      var tasaKey := metricKey.value;
      Picked(Leer(datos, tasaKey), Leer(datos, EnfKey(tasaKey)), poblacion,
             Label(labelForced, LabelPorMetrica(tasaKey)), false)
    else if datos.Some? && PrimeraTasa(datos.value, claves).Some? then
      var key := PrimeraTasa(datos.value, claves).value;
      Picked(Leer(datos, key), Leer(datos, EnfKey(key)), poblacion, LabelPorMetrica(key), false)
    else
      Picked(NaN, NaN, poblacion, Label(labelForced, TASA), false)
  }

  /**
   * Case C: with no metric key the rate is that of the first `tasa_*` key holding
   * a finite number, the count that of its `enfermeras_*` twin and the label its
   * own (a forced label is ignored); when no key qualifies the rate and count are NaN.
   */
  lemma PrimeraLlave(d: Record, claves: seq<string>, labelForced: Option<string>)
    requires !Resumido(Some(d))
    ensures var r := PickDatos(Some(d), claves, None, labelForced);
      !r.isPoblacion
      && (r.tasa.Finite? <==> exists k :: k in claves && Apta(d, k))
      && (r.tasa.NaN? ==> r.enfermeras.NaN? && r.titulo == Label(labelForced, TASA))
      && (r.tasa.Finite? ==> exists i :: (PrimeraEn(d, claves, i) && r.tasa == ToNumber(Get(d, claves[i]))
            && r.enfermeras == Leer(Some(d), EnfKey(claves[i])) && r.titulo == LabelPorMetrica(claves[i])))
  {
    var r := PickDatos(Some(d), claves, None, labelForced);
    var p := PrimeraTasa(d, claves);
    if p.Some? {
      PrimeraTasaEsPrimera(d, claves);
      var i :| PrimeraEn(d, claves, i) && claves[i] == p.value;
      assert r.tasa == ToNumber(Get(d, claves[i]));
    }
  }

  /** The nurse column of a rate column `tasa_<x>` is `enfermeras_<x>`. */
  lemma EnfKeyDeTasa(x: string)
    ensures EnfKey("tasa_" + x) == "enfermeras_" + x
  {
    assert StartsWith("tasa_" + x, "tasa_") by {
      assert ("tasa_" + x)[..5] == "tasa_";
    }
    assert ("tasa_" + x)[5..] == x;
  }

  /**
   * For every level of the metric catalogue, the rate key `tasa_<level>` makes
   * `pickDatos` read the nurses from the catalogue's count column for that metric.
   */
  lemma EnfKeyCatalogo(i: nat)
    requires i < |Metricas.LEVELS|
    ensures EnfKey("tasa_" + Metricas.LEVELS[i]) == "enfermeras_" + Metricas.LEVELS[i]
  {
    EnfKeyDeTasa(Metricas.LEVELS[i]);
  }

  /** `safe` of the clinic tooltip: the trimmed text of a value, "N/D" for null, undefined or blank. */
  function Safe(v: Value): (r: string)
    ensures r != "" && Trim(r) == r
    ensures !IsNullish(v) && Trim(ToString(v)) != "" ==> r == Trim(ToString(v))
    ensures IsNullish(v) || Trim(ToString(v)) == "" ==> r == ND
  {
    if !IsNullish(v) && Trim(ToString(v)) != "" then
      TrimIdempotent(ToString(v));
      Trim(ToString(v))
    else
      assert Trim(ND) == ND by {
        assert TrimStart(ND) == ND;
        assert TrimEnd(ND) == ND;
      }
      ND
  }

  /** Applying `safe` to its own output changes nothing. */
  lemma SafeIdempotent(v: Value)
    ensures Safe(Str(Safe(v))) == Safe(v)
  {
    var s := Safe(v);
    assert ToString(Str(s)) == s;
  }

  /** `fmt6` of the clinic tooltip: six decimals of a finite number (no coercion), "N/D" otherwise. */
  function Fmt6(v: Value): (r: string)
    ensures r == ND <==> !IsFiniteValue(v)
    ensures IsFiniteValue(v) ==> r == ToFixed(v.n.r, 6)
  {
    if IsFiniteValue(v) then
      ToFixedEndsInDigit(v.n.r, 6);
      ToFixed(v.n.r, 6)
    else ND
  }
}

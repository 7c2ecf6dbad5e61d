/**
 * Normalisation of dataset rows: the first present alias of a column is picked,
 * numbers are parsed leniently with a default, and the rate and count columns of
 * every level are forced to numbers. A national row describes a state; an entity
 * row describes a municipality and also carries `cve_mun` and `municipio`.
 */
module Normalizacion {
  import opened Wrappers
  import opened Js
  import opened Ordering

  /** The levels every row is normalised for, before the caller's extras. */
  const BASE: seq<string> := ["primer", "segundo", "tercer", "apoyo", "escuelas", "administrativas", "no_aplica", "no_asignado"]

  /** The aliases of each column, in the order they are tried. */
  const ID_KEYS: seq<string> := ["id", "ID"]
  const ESTADO_KEYS: seq<string> := ["estado", "Estado"]
  const CVE_KEYS: seq<string> := ["cve_mun", "clave_municipio", "CLAVE_MUNICIPIO"]
  const MUNICIPIO_KEYS: seq<string> := ["municipio", "Municipio", "MUNICIPIO"]
  const POBLACION_KEYS: seq<string> := ["población", "poblacion"]
  const ENFERMERAS_KEYS: seq<string> := ["enfermeras_total", "enfermeras"]
  const TASA_KEYS: seq<string> := ["tasa_total", "tasa"]

  function NumVal(x: real): Value {
    Number(Finite(x))
  }

  /** What the alias getter accepts: neither null/undefined nor the empty string. */
  predicate Present(v: Value) {
    !IsNullish(v) && v != Str("")
  }

  /**
   * `toNum(v, def)`: `def` for null/undefined; otherwise `String(v)` trimmed, with all
   * whitespace removed and the first comma read as the decimal point, converted with
   * `+`, and `def` again when that is not finite. A number converts to itself, since
   * `+String(n)` is `n` for every JavaScript number.
   */
  function ToNum(v: Value, def: real): (r: real)
    ensures r == def || (v.Number? && v.n == Finite(r)) || (v.Str? && ParseLenient(v.s) == Finite(r))
    ensures IsNullish(v) ==> r == def
  {
    match v
    case Undefined => def
    case Null => def
    case Bool(_) => def
    case Number(n) => if n.Finite? then n.r else def
    case Str(s) =>
      var n := ParseLenient(s);
      if n.Finite? then n.r else def
  }

  /** `+String(s).trim().replace(/\s+/g, "").replace(",", ".")`. */
  function ParseLenient(s: string): Num {
    StringToNumber(ReplaceFirst(RemoveWhiteSpace(Trim(s)), ',', '.'))
  }

  /** `pick(obj, ...keys)`: the value of the first key whose value is present, else undefined. */
  function Pick(d: Record, keys: seq<string>): (r: Value)
    ensures r == Undefined || Present(r)
    ensures r == Undefined <==> forall i :: 0 <= i < |keys| ==> !Present(Get(d, keys[i]))
    ensures r != Undefined ==>
      exists i :: 0 <= i < |keys| && r == Get(d, keys[i]) && forall j :: 0 <= j < i ==> !Present(Get(d, keys[j]))
  {
    if keys == [] then Undefined
    else if Present(Get(d, keys[0])) then Get(d, keys[0])
    else
      var r := Pick(d, keys[1..]);
      assert r != Undefined ==> exists i :: 1 <= i < |keys| && r == Get(d, keys[i]) && forall j :: 0 <= j < i ==> !Present(Get(d, keys[j])) by {
        if r != Undefined {
          var i :| 0 <= i < |keys[1..]| && r == Get(d, keys[1..][i]) && forall j :: 0 <= j < i ==> !Present(Get(d, keys[1..][j]));
          assert forall j :: 1 <= j < i + 1 ==> !Present(Get(d, keys[j])) by {
            forall j | 1 <= j < i + 1 ensures !Present(Get(d, keys[j])) {
              assert keys[j] == keys[1..][j - 1];
            }
          }
        }
      }
      r
  }

  /** `String(pick(d, ...keys) ?? "").trim()`. */
  function TextField(d: Record, keys: seq<string>): Value {
    Str(Trim(ToString(Coalesce([Pick(d, keys), Str("")]))))
  }

  /** `String(pick(d, ...keys) ?? "").padStart(width, "0")`. */
  function CodeField(d: Record, keys: seq<string>, width: nat): Value {
    Str(PadStart(ToString(Coalesce([Pick(d, keys), Str("")])), width, '0'))
  }

  /** `toNum(pick(d, ...keys), 0)`. */
  function NumField(d: Record, keys: seq<string>): Value {
    NumVal(ToNum(Pick(d, keys), 0.0))
  }

  /** The values the normalisers assign before the level loop. */
  datatype Fields = Fields(
    id: Value, estado: Value, cveMun: Value, municipio: Value,
    poblacion: Value, enfermeras: Value, tasa: Value)

  /** The assigned values, each read from the first present alias of its column. */
  function FieldsOf(d: Record): Fields {
    Fields(
      TextField(d, ID_KEYS),
      TextField(d, ESTADO_KEYS),
      CodeField(d, CVE_KEYS, 3),
      TextField(d, MUNICIPIO_KEYS),
      NumField(d, POBLACION_KEYS),
      NumField(d, ENFERMERAS_KEYS),
      NumField(d, TASA_KEYS))
  }

  /**
   * `{ ...d }` with the fixed fields assigned: identifiers, both population columns
   * and the totals; the entity normaliser also assigns the municipality code and name.
   */
  function Assign(d: Record, f: Fields, entidad: bool): Record {
    var ids := d["id" := f.id]["estado" := f.estado];
    var names := if entidad then ids["cve_mun" := f.cveMun]["municipio" := f.municipio] else ids;
    names["población" := f.poblacion]["poblacion" := f.poblacion]
         ["enfermeras_total" := f.enfermeras]["tasa_total" := f.tasa]
  }

  /** `m` after the level loop over `ks`: `enfermeras_k` and `tasa_k` become `toNum(d[column], 0)`. */
  function WithLevels(m: Record, d: Record, ks: seq<string>): Record {
    if ks == [] then m
    else
      var k := ks[|ks| - 1];
      WithLevels(m, d, ks[..|ks| - 1])
        ["enfermeras_" + k := NumVal(ToNum(Get(d, "enfermeras_" + k), 0.0))]
        ["tasa_" + k := NumVal(ToNum(Get(d, "tasa_" + k), 0.0))]
  }

  /** A normalised row: the input with the fixed fields and then the level columns assigned. */
  function Row(d: Record, extras: seq<string>, entidad: bool): Record {
    WithLevels(Assign(d, FieldsOf(d), entidad), d, BASE + extras)
  }

  /** The level loop: writes `enfermeras_k` and `tasa_k` for every `k` of `ks`, in order. */
  method EscribirNiveles(d: Record, ks: seq<string>, start: Record) returns (out: Record)
    ensures out == WithLevels(start, d, ks)
  {
    out := start;
    for i := 0 to |ks|
      invariant out == WithLevels(start, d, ks[..i])
    {
      assert ks[..i + 1][..i] == ks[..i];
      var ek := "enfermeras_" + ks[i];
      var tk := "tasa_" + ks[i];
      out := out[ek := NumVal(ToNum(Get(d, ek), 0.0))];
      out := out[tk := NumVal(ToNum(Get(d, tk), 0.0))];
    }
    assert ks[..|ks|] == ks;
  }

  method NormalizarFilaNacional(d: Record, extras: seq<string>) returns (out: Record)
    ensures out == Row(d, extras, false)
  {
    out := d;
    out := out["id" := TextField(d, ID_KEYS)];
    out := out["estado" := TextField(d, ESTADO_KEYS)];
    out := out["población" := NumField(d, POBLACION_KEYS)];
    out := out["poblacion" := out["población"]];
    out := out["enfermeras_total" := NumField(d, ENFERMERAS_KEYS)];
    out := out["tasa_total" := NumField(d, TASA_KEYS)];
    out := EscribirNiveles(d, BASE + extras, out);
  }

  method NormalizarFilaEntidad(d: Record, extras: seq<string>) returns (out: Record)
    ensures out == Row(d, extras, true)
  {
    out := d;
    out := out["id" := TextField(d, ID_KEYS)];
    out := out["estado" := TextField(d, ESTADO_KEYS)];
    out := out["cve_mun" := CodeField(d, CVE_KEYS, 3)];
    out := out["municipio" := TextField(d, MUNICIPIO_KEYS)];
    out := out["población" := NumField(d, POBLACION_KEYS)];
    out := out["poblacion" := out["población"]];
    out := out["enfermeras_total" := NumField(d, ENFERMERAS_KEYS)];
    out := out["tasa_total" := NumField(d, TASA_KEYS)];
    out := EscribirNiveles(d, BASE + extras, out);
  }

  /** `normalizarDataset`: every row through the entity normaliser when the scope is "entidad", else the national one. */
  function NormalizarDataset(rows: seq<Record>, scope: string, extras: seq<string>): (r: seq<Record>)
    ensures |r| == |rows|
    ensures forall i :: 0 <= i < |rows| ==> r[i] == Row(rows[i], extras, scope == "entidad")
  {
    MapSeq(rows, d => Row(d, extras, scope == "entidad"))
  }

  // ---------------------------------------------------------------------------
  // Properties
  // ---------------------------------------------------------------------------

  /** The columns the normaliser assigns before the level loop. */
  function FixedKeys(entidad: bool): set<string> {
    {"id", "estado", "población", "poblacion", "enfermeras_total", "tasa_total"}
    + (if entidad then {"cve_mun", "municipio"} else {})
  }

  /** `k` is the count or rate column of one of the levels `ks`. */
  ghost predicate LevelKey(ks: seq<string>, k: string) {
    exists j :: 0 <= j < |ks| && (k == "enfermeras_" + ks[j] || k == "tasa_" + ks[j])
  }

  /** A non-empty string made only of whitespace. */
  predicate BlankString(v: Value) {
    v.Str? && v.s != "" && Trim(v.s) == ""
  }

  /** Null, undefined, absent and non-finite inputs all read as the default. */
  lemma {:induction false} ToNumNullish(v: Value, def: real)
    requires IsNullish(v) || v == Number(NaN) || (v.Number? && v.n.Infinity?)
    ensures ToNum(v, def) == def
  {
  }

  /** A number is read back as itself. */
  lemma {:induction false} ToNumNumber(x: real, def: real)
    ensures ToNum(NumVal(x), def) == x
  {
  }

  /** Whitespace anywhere in a string is ignored: only the non-whitespace characters matter. */
  lemma {:induction false} ToNumIgnoresWhiteSpace(s: string, t: string, def: real)
    requires RemoveWhiteSpace(s) == RemoveWhiteSpace(t)
    ensures ToNum(Str(s), def) == ToNum(Str(t), def)
  {
    assert ParseLenient(s) == ParseLenient(t) by {
      RemoveWhiteSpaceTrim(s);
      RemoveWhiteSpaceTrim(t);
      assert RemoveWhiteSpace(Trim(s)) == RemoveWhiteSpace(Trim(t));
    }
  }

  /** The first comma is read as the decimal point: `ip,fp` is the number `ip.fp`. */
  lemma {:induction false} ToNumDecimalComma(ip: string, fp: string, def: real)
    requires AllRadixDigits(ip, 10) && AllRadixDigits(fp, 10) && |ip| + |fp| > 0
    ensures ToNum(Str(ip + "," + fp), def) == Mantissa(ip, fp)
  {
    var s := ip + "," + fp;
    var t := ip + "." + fp;
    assert s + [] == s && t + [] == t;
    CommaText(ip, fp, []);
    DecimalValue(ip, fp, []);
    assert ParseLenient(s) == Finite(Mantissa(ip, fp));
  }

  /** Only the first comma is replaced, so a second one makes the text unreadable and yields the default. */
  lemma {:induction false} ToNumSecondComma(ip: string, fp: string, gp: string, def: real)
    requires AllRadixDigits(ip, 10) && AllRadixDigits(fp, 10) && AllRadixDigits(gp, 10) && |ip| + |fp| > 0
    ensures ToNum(Str(ip + "," + fp + "," + gp), def) == def
  {
    var rest := "," + gp;
    assert NoWhiteSpace(rest) by {
      forall i | 0 <= i < |rest| ensures !IsWhiteSpace(rest[i]) {
        if i > 0 {
          assert rest[i] == gp[i - 1] && IsRadixDigit(gp[i - 1], 10);
        }
      }
    }
    var s := ip + "," + fp + "," + gp;
    assert s == ip + "," + fp + rest;
    CommaText(ip, fp, rest);
    DecimalValue(ip, fp, rest);
    assert ParseLenient(s) == NaN;
  }

  /** The lenient reading of `ip,fp<rest>` is the strict reading of `ip.fp<rest>`. */
  lemma {:induction false} CommaText(ip: string, fp: string, rest: string)
    requires AllRadixDigits(ip, 10) && AllRadixDigits(fp, 10) && NoWhiteSpace(rest)
    ensures ParseLenient(ip + "," + fp + rest) == StringToNumber(ip + "." + fp + rest)
  {
    var tail := fp + rest;
    var s := ip + [','] + tail;
    var t := ip + ['.'] + tail;
    assert s == ip + "," + fp + rest && t == ip + "." + fp + rest;
    DigitsNoWhiteSpace(ip, ',', fp, rest);
    NoWhiteSpaceUnchanged(s);
    assert ',' !in ip by {
      forall i | 0 <= i < |ip| ensures ip[i] != ',' {
        assert IsRadixDigit(ip[i], 10);
      }
    }
    ReplaceFirstAt(ip, ',', '.', tail);
    assert ReplaceFirst(RemoveWhiteSpace(Trim(s)), ',', '.') == t;
  }

  /** `pick` only looks at the listed keys. */
  lemma {:induction false} PickSame(d: Record, r: Record, keys: seq<string>)
    requires forall x :: x in keys ==> Get(r, x) == Get(d, x)
    ensures Pick(r, keys) == Pick(d, keys)
  {
    if keys != [] {
      PickSame(d, r, keys[1..]);
    }
  }

  /** Where the level loop writes, and what: `toNum(d[k], 0)` for every level column `k`. */
  lemma {:induction false} WithLevelsAt(m: Record, d: Record, ks: seq<string>, k: string)
    ensures k in WithLevels(m, d, ks) <==> k in m || LevelKey(ks, k)
    ensures LevelKey(ks, k) ==> WithLevels(m, d, ks)[k] == NumVal(ToNum(Get(d, k), 0.0))
    ensures !LevelKey(ks, k) && k in m ==> WithLevels(m, d, ks)[k] == m[k]
  {
    if ks != [] {
      var p := ks[..|ks| - 1];
      var l := ks[|ks| - 1];
      WithLevelsAt(m, d, p, k);
      LevelKeyLast(ks, k);
    }
  }

  /** The level columns of `ks` are those of all but its last level, and the two of the last. */
  lemma LevelKeyLast(ks: seq<string>, k: string)
    requires ks != []
    ensures var p, l := ks[..|ks| - 1], ks[|ks| - 1];
      LevelKey(ks, k) <==> LevelKey(p, k) || k == "enfermeras_" + l || k == "tasa_" + l
  {
    var p := ks[..|ks| - 1];
    if LevelKey(ks, k) {
      var j :| 0 <= j < |ks| && (k == "enfermeras_" + ks[j] || k == "tasa_" + ks[j]);
      if j < |p| {
        assert ks[j] == p[j];
      }
    }
    if LevelKey(p, k) {
      var j :| 0 <= j < |p| && (k == "enfermeras_" + p[j] || k == "tasa_" + p[j]);
      assert p[j] == ks[j];
    }
  }

  /** Columns that cannot start like a level column are never written by the level loop. */
  lemma {:induction false} NotLevelKey(ks: seq<string>, k: string)
    requires (|k| == 0 || k[0] != 't') && (|k| < 11 || k[0] != 'e')
    ensures !LevelKey(ks, k)
  {
    forall j | 0 <= j < |ks|
      ensures k != "enfermeras_" + ks[j] && k != "tasa_" + ks[j]
    {
      assert ("tasa_" + ks[j])[0] == 't';
      assert ("enfermeras_" + ks[j])[0] == 'e';
    }
  }

  /** The rate column of a level is a level column exactly when the level is listed. */
  lemma {:induction false} RateColumnIsLevel(ks: seq<string>, l: string)
    ensures LevelKey(ks, "tasa_" + l) <==> l in ks
    ensures LevelKey(ks, "enfermeras_" + l) <==> l in ks
  {
    if LevelKey(ks, "tasa_" + l) {
      var j :| 0 <= j < |ks| && ("tasa_" + l == "enfermeras_" + ks[j] || "tasa_" + l == "tasa_" + ks[j]);
      assert ("tasa_" + l)[0] == 't' && ("enfermeras_" + ks[j])[0] == 'e';
      assert ("tasa_" + l)[5..] == l && ("tasa_" + ks[j])[5..] == ks[j];
      assert ks[j] == l;
    }
    if LevelKey(ks, "enfermeras_" + l) {
      var j :| 0 <= j < |ks| && ("enfermeras_" + l == "enfermeras_" + ks[j] || "enfermeras_" + l == "tasa_" + ks[j]);
      assert ("enfermeras_" + l)[0] == 'e' && ("tasa_" + ks[j])[0] == 't';
      assert ("enfermeras_" + l)[11..] == l && ("enfermeras_" + ks[j])[11..] == ks[j];
      assert ks[j] == l;
    }
    if l in ks {
      var j :| 0 <= j < |ks| && ks[j] == l;
      assert "tasa_" + l == "tasa_" + ks[j];
      assert LevelKey(ks, "tasa_" + l);
      assert "enfermeras_" + l == "enfermeras_" + ks[j];
      assert LevelKey(ks, "enfermeras_" + l);
    }
  }

  /** Where the fixed assignments write, and what. */
  lemma {:induction false} AssignAt(d: Record, f: Fields, entidad: bool, k: string)
    ensures k in Assign(d, f, entidad) <==> k in d || k in FixedKeys(entidad)
    ensures k !in FixedKeys(entidad) && k in d ==> Assign(d, f, entidad)[k] == d[k]
    ensures Assign(d, f, entidad)["id"] == f.id && Assign(d, f, entidad)["estado"] == f.estado
    ensures Assign(d, f, entidad)["población"] == f.poblacion && Assign(d, f, entidad)["poblacion"] == f.poblacion
    ensures Assign(d, f, entidad)["enfermeras_total"] == f.enfermeras && Assign(d, f, entidad)["tasa_total"] == f.tasa
    ensures entidad ==> Assign(d, f, entidad)["cve_mun"] == f.cveMun && Assign(d, f, entidad)["municipio"] == f.municipio
  {
  }

  /** The columns the normaliser assigns are present, and every other column is copied unchanged. */
  lemma {:induction false} RowKeys(d: Record, extras: seq<string>, entidad: bool, k: string)
    ensures k in Row(d, extras, entidad) <==> k in d || k in FixedKeys(entidad) || LevelKey(BASE + extras, k)
    ensures k !in FixedKeys(entidad) && !LevelKey(BASE + extras, k) && k in d ==> Row(d, extras, entidad)[k] == d[k]
  {
    AssignAt(d, FieldsOf(d), entidad, k);
    WithLevelsAt(Assign(d, FieldsOf(d), entidad), d, BASE + extras, k);
  }

  /** Every base and extra level has numeric count and rate columns, read from the input with default 0. */
  lemma {:induction false} RowLevels(d: Record, extras: seq<string>, entidad: bool, l: string)
    requires l in BASE + extras
    ensures "enfermeras_" + l in Row(d, extras, entidad) && "tasa_" + l in Row(d, extras, entidad)
    ensures Row(d, extras, entidad)["enfermeras_" + l] == NumVal(ToNum(Get(d, "enfermeras_" + l), 0.0))
    ensures Row(d, extras, entidad)["tasa_" + l] == NumVal(ToNum(Get(d, "tasa_" + l), 0.0))
  {
    RateColumnIsLevel(BASE + extras, l);
    WithLevelsAt(Assign(d, FieldsOf(d), entidad), d, BASE + extras, "enfermeras_" + l);
    WithLevelsAt(Assign(d, FieldsOf(d), entidad), d, BASE + extras, "tasa_" + l);
  }

  /** A fixed column that no level writes holds its assigned value. */
  lemma {:induction false} RowFixedAt(d: Record, extras: seq<string>, entidad: bool, k: string)
    requires k in FixedKeys(entidad) && !LevelKey(BASE + extras, k)
    ensures k in Row(d, extras, entidad)
    ensures Row(d, extras, entidad)[k] == Assign(d, FieldsOf(d), entidad)[k]
  {
    AssignAt(d, FieldsOf(d), entidad, k);
    WithLevelsAt(Assign(d, FieldsOf(d), entidad), d, BASE + extras, k);
  }

  /**
   * Both population columns hold the same number, taken from the accented column when it is
   * present; the identifiers are trimmed strings read from their first present alias.
   */
  lemma {:induction false} RowPopulationAndIds(d: Record, extras: seq<string>, entidad: bool)
    ensures "población" in Row(d, extras, entidad) && "poblacion" in Row(d, extras, entidad)
    ensures Row(d, extras, entidad)["población"] == Row(d, extras, entidad)["poblacion"]
    ensures Row(d, extras, entidad)["poblacion"] == NumField(d, POBLACION_KEYS)
    ensures Present(Get(d, "población")) ==> Row(d, extras, entidad)["poblacion"] == NumVal(ToNum(d["población"], 0.0))
    ensures "id" in Row(d, extras, entidad) && "estado" in Row(d, extras, entidad)
    ensures Row(d, extras, entidad)["id"] == TextField(d, ID_KEYS)
    ensures Row(d, extras, entidad)["estado"] == TextField(d, ESTADO_KEYS)
    ensures Trim(Row(d, extras, entidad)["id"].s) == Row(d, extras, entidad)["id"].s
  {
    var ks := BASE + extras;
    NotLevelKey(ks, "población");
    NotLevelKey(ks, "poblacion");
    NotLevelKey(ks, "id");
    NotLevelKey(ks, "estado");
    RowFixedAt(d, extras, entidad, "población");
    RowFixedAt(d, extras, entidad, "poblacion");
    RowFixedAt(d, extras, entidad, "id");
    RowFixedAt(d, extras, entidad, "estado");
    AssignAt(d, FieldsOf(d), entidad, "id");
    TrimIdempotent(ToString(Coalesce([Pick(d, ID_KEYS), Str("")])));
  }

  /**
   * The totals fall back to the legacy `enfermeras` and `tasa` columns, unless the caller
   * lists `total` among the extras, in which case the level loop overwrites them.
   */
  lemma {:induction false} RowTotals(d: Record, extras: seq<string>, entidad: bool)
    requires "total" !in extras
    ensures "enfermeras_total" in Row(d, extras, entidad) && "tasa_total" in Row(d, extras, entidad)
    ensures Row(d, extras, entidad)["enfermeras_total"] == NumField(d, ENFERMERAS_KEYS)
    ensures Row(d, extras, entidad)["tasa_total"] == NumField(d, TASA_KEYS)
  {
    TotalNotLevel(extras);
    RowFixedAt(d, extras, entidad, "enfermeras_total");
    RowFixedAt(d, extras, entidad, "tasa_total");
    AssignAt(d, FieldsOf(d), entidad, "tasa_total");
  }

  lemma {:induction false} TotalNotLevel(extras: seq<string>)
    requires "total" !in extras
    ensures !LevelKey(BASE + extras, "enfermeras_total") && !LevelKey(BASE + extras, "tasa_total")
  {
    var ks := BASE + extras;
    TotalNotBase();
    assert "total" !in ks;
    RateColumnIsLevel(ks, "total");
    assert "tasa_" + "total" == "tasa_total" && "enfermeras_" + "total" == "enfermeras_total";
  }

  /** `total` is not one of the base levels. */
  lemma TotalNotBase()
    ensures "total" !in BASE
  {
    forall i | 0 <= i < |BASE| ensures BASE[i] != "total" {
      assert |BASE[i]| != 5 || BASE[i][0] == 'a';
    }
  }

  /** The municipality code is left-padded with zeros to three characters and otherwise kept. */
  lemma {:induction false} RowMunicipio(d: Record, extras: seq<string>)
    ensures "cve_mun" in Row(d, extras, true) && "municipio" in Row(d, extras, true)
    ensures Row(d, extras, true)["cve_mun"].Str?
    ensures |Row(d, extras, true)["cve_mun"].s| >= 3
    ensures Row(d, extras, true)["cve_mun"] == CodeField(d, CVE_KEYS, 3)
    ensures Row(d, extras, true)["municipio"] == TextField(d, MUNICIPIO_KEYS)
  {
    var ks := BASE + extras;
    NotLevelKey(ks, "cve_mun");
    NotLevelKey(ks, "municipio");
    RowFixedAt(d, extras, true, "cve_mun");
    RowFixedAt(d, extras, true, "municipio");
    AssignAt(d, FieldsOf(d), true, "id");
  }

  // ---------------------------------------------------------------------------
  // Idempotence
  // ---------------------------------------------------------------------------

  /** None of `keys` holds a non-empty whitespace-only string. */
  predicate NoBlank(d: Record, keys: seq<string>) {
    forall i :: 0 <= i < |keys| ==> !BlankString(Get(d, keys[i]))
  }

  /** No alias of a text field the normaliser assigns holds a non-empty whitespace-only string. */
  predicate NoBlankAliases(d: Record, entidad: bool) {
    NoBlank(d, ID_KEYS) && NoBlank(d, ESTADO_KEYS) && (entidad ==> NoBlank(d, MUNICIPIO_KEYS))
  }

  /** A text field read again from where it was written, with the other aliases untouched, is unchanged. */
  lemma {:induction false} TextFieldStable(d: Record, r: Record, keys: seq<string>)
    requires |keys| > 0
    requires Get(r, keys[0]) == TextField(d, keys)
    requires forall i :: 1 <= i < |keys| ==> Get(r, keys[i]) == Get(d, keys[i])
    requires NoBlank(d, keys)
    ensures TextField(r, keys) == TextField(d, keys)
  {
    if Pick(d, keys) == Undefined {
      AbsentTextStable(d, r, keys);
    } else {
      PresentTextStable(d, r, keys);
    }
  }

  lemma {:induction false} AbsentTextStable(d: Record, r: Record, keys: seq<string>)
    requires |keys| > 0 && Pick(d, keys) == Undefined
    requires Get(r, keys[0]) == TextField(d, keys)
    requires forall i :: 1 <= i < |keys| ==> Get(r, keys[i]) == Get(d, keys[i])
    ensures TextField(r, keys) == TextField(d, keys) == Str("")
  {
    assert TextField(d, keys) == Str("") by {
      assert Coalesce([Undefined, Str("")]) == Str("");
      assert Trim("") == "";
    }
    assert Pick(d, keys[1..]) == Undefined;
    PickSame(d, r, keys[1..]);
    assert Pick(r, keys) == Undefined;
  }

  lemma {:induction false} PresentTextStable(d: Record, r: Record, keys: seq<string>)
    requires |keys| > 0 && Pick(d, keys) != Undefined
    requires Get(r, keys[0]) == TextField(d, keys)
    requires NoBlank(d, keys)
    ensures TextField(r, keys) == TextField(d, keys) != Str("")
  {
    var v := Pick(d, keys);
    var i :| 0 <= i < |keys| && v == Get(d, keys[i]);
    assert !BlankString(v);
    assert Coalesce([v, Str("")]) == v;
    var t := Trim(ToString(v));
    assert t != [] by {
      if !v.Str? {
        ToStringNotBlank(v);
      }
    }
    assert TextField(d, keys) == Str(t);
    PickFirst(r, keys);
    assert Coalesce([Str(t), Str("")]) == Str(t);
    TrimIdempotent(ToString(v));
  }

  /** A padded code read again from where it was written is unchanged. */
  lemma {:induction false} CodeFieldStable(d: Record, r: Record, keys: seq<string>, width: nat)
    requires |keys| > 0 && width > 0
    requires Get(r, keys[0]) == CodeField(d, keys, width)
    ensures CodeField(r, keys, width) == CodeField(d, keys, width)
  {
    var p := PadStart(ToString(Coalesce([Pick(d, keys), Str("")])), width, '0');
    assert |p| >= width > 0;
    PickFirst(r, keys);
    assert Coalesce([Str(p), Str("")]) == Str(p);
    assert ToString(Str(p)) == p;
  }

  /** A present first alias is the one picked. */
  lemma PickFirst(d: Record, keys: seq<string>)
    requires |keys| > 0 && Present(Get(d, keys[0]))
    ensures Pick(d, keys) == Get(d, keys[0])
  {
  }

  /** A number read again from the first alias is itself. */
  lemma {:induction false} NumFieldStable(r: Record, keys: seq<string>, x: real)
    requires |keys| > 0
    requires Get(r, keys[0]) == NumVal(x)
    ensures NumField(r, keys) == NumVal(x)
  {
    assert Pick(r, keys) == NumVal(x);
  }

  /** Normalising a normalised row changes no column, provided no text alias is blank. */
  lemma {:induction false} RowIdempotentAt(d: Record, extras: seq<string>, entidad: bool, k: string)
    requires NoBlankAliases(d, entidad)
    ensures var r := Row(d, extras, entidad);
      k in Row(r, extras, entidad) <==> k in r
    ensures var r := Row(d, extras, entidad);
      k in r ==> k in Row(r, extras, entidad) && Row(r, extras, entidad)[k] == r[k]
  {
    var r := Row(d, extras, entidad);
    var ks := BASE + extras;
    RowKeys(d, extras, entidad, k);
    RowKeys(r, extras, entidad, k);
    if LevelKey(ks, k) {
      LevelStable(d, extras, entidad, k);
    } else if k in FixedKeys(entidad) {
      RowFixedAt(d, extras, entidad, k);
      RowFixedAt(r, extras, entidad, k);
      FieldsStable(d, extras, entidad, k);
      AssignAgrees(r, d, FieldsOf(r), FieldsOf(d), entidad, k);
    }
  }

  /** A level column read back from a normalised row is itself. */
  lemma {:induction false} LevelStable(d: Record, extras: seq<string>, entidad: bool, k: string)
    requires LevelKey(BASE + extras, k)
    ensures var r := Row(d, extras, entidad);
      k in r && k in Row(r, extras, entidad) && Row(r, extras, entidad)[k] == r[k]
  {
    var r := Row(d, extras, entidad);
    var ks := BASE + extras;
    WithLevelsAt(Assign(d, FieldsOf(d), entidad), d, ks, k);
    var x := ToNum(Get(d, k), 0.0);
    assert r[k] == NumVal(x);
    WithLevelsAt(Assign(r, FieldsOf(r), entidad), r, ks, k);
    assert Get(r, k) == NumVal(x);
    ToNumNumber(x, 0.0);
  }

  /** `f` and `g` agree on the value that the fixed column `k` is assigned from. */
  predicate FieldAgrees(f: Fields, g: Fields, entidad: bool, k: string) {
    (k == "id" ==> f.id == g.id)
    && (k == "estado" ==> f.estado == g.estado)
    && (k == "población" || k == "poblacion" ==> f.poblacion == g.poblacion)
    && (k == "enfermeras_total" ==> f.enfermeras == g.enfermeras)
    && (k == "tasa_total" ==> f.tasa == g.tasa)
    && (entidad && k == "cve_mun" ==> f.cveMun == g.cveMun)
    && (entidad && k == "municipio" ==> f.municipio == g.municipio)
  }

  /** Assignments from agreeing fields write the same value into a fixed column. */
  lemma {:induction false} AssignAgrees(a: Record, b: Record, f: Fields, g: Fields, entidad: bool, k: string)
    requires k in FixedKeys(entidad) && FieldAgrees(f, g, entidad, k)
    ensures Assign(a, f, entidad)[k] == Assign(b, g, entidad)[k]
  {
    AssignAt(a, f, entidad, k);
    AssignAt(b, g, entidad, k);
  }

  /** The fixed fields read back from a normalised row are the ones written into it. */
  lemma {:induction false} FieldsStable(d: Record, extras: seq<string>, entidad: bool, k: string)
    requires NoBlankAliases(d, entidad)
    requires k in FixedKeys(entidad) && !LevelKey(BASE + extras, k)
    ensures FieldAgrees(FieldsOf(Row(d, extras, entidad)), FieldsOf(d), entidad, k)
  {
    if k == "id" || k == "estado" {
      IdsStable(d, extras, entidad);
    } else if k == "población" || k == "poblacion" {
      PoblacionStable(d, extras, entidad);
    } else if k == "enfermeras_total" || k == "tasa_total" {
      TotalsStable(d, extras, entidad, k);
    } else {
      MunicipioStable(d, extras);
    }
  }

  lemma {:induction false} IdsStable(d: Record, extras: seq<string>, entidad: bool)
    requires NoBlankAliases(d, entidad)
    ensures FieldsOf(Row(d, extras, entidad)).id == FieldsOf(d).id
    ensures FieldsOf(Row(d, extras, entidad)).estado == FieldsOf(d).estado
  {
    RowPopulationAndIds(d, extras, entidad);
    TextStableAt(d, extras, entidad, ID_KEYS);
    TextStableAt(d, extras, entidad, ESTADO_KEYS);
  }

  /** A two-alias text field whose primary alias the normaliser writes reads back unchanged. */
  lemma {:induction false} TextStableAt(d: Record, extras: seq<string>, entidad: bool, keys: seq<string>)
    requires keys == ID_KEYS || keys == ESTADO_KEYS
    requires NoBlank(d, keys)
    requires keys[0] in Row(d, extras, entidad) && Row(d, extras, entidad)[keys[0]] == TextField(d, keys)
    ensures TextField(Row(d, extras, entidad), keys) == TextField(d, keys)
  {
    var r := Row(d, extras, entidad);
    assert |keys| == 2;
    StableAlias(d, extras, entidad, keys[1]);
    TextStableIn(d, r, keys);
  }

  lemma TextStableIn(d: Record, r: Record, keys: seq<string>)
    requires |keys| == 2 && NoBlank(d, keys)
    requires keys[0] in r && r[keys[0]] == TextField(d, keys)
    requires Get(r, keys[1]) == Get(d, keys[1])
    ensures TextField(r, keys) == TextField(d, keys)
  {
    TextFieldStable(d, r, keys);
  }

  lemma {:induction false} PoblacionStable(d: Record, extras: seq<string>, entidad: bool)
    ensures FieldsOf(Row(d, extras, entidad)).poblacion == FieldsOf(d).poblacion
  {
    var r := Row(d, extras, entidad);
    RowPopulationAndIds(d, extras, entidad);
    assert POBLACION_KEYS[0] == "población";
    NumFieldStable(r, POBLACION_KEYS, ToNum(Pick(d, POBLACION_KEYS), 0.0));
  }

  lemma {:induction false} TotalsStable(d: Record, extras: seq<string>, entidad: bool, k: string)
    requires k == "enfermeras_total" || k == "tasa_total"
    requires !LevelKey(BASE + extras, k)
    ensures k == "enfermeras_total" ==> FieldsOf(Row(d, extras, entidad)).enfermeras == FieldsOf(d).enfermeras
    ensures k == "tasa_total" ==> FieldsOf(Row(d, extras, entidad)).tasa == FieldsOf(d).tasa
  {
    var r := Row(d, extras, entidad);
    RowFixedAt(d, extras, entidad, k);
    AssignAt(d, FieldsOf(d), entidad, k);
    if k == "enfermeras_total" {
      assert ENFERMERAS_KEYS[0] == k;
      NumFieldStable(r, ENFERMERAS_KEYS, ToNum(Pick(d, ENFERMERAS_KEYS), 0.0));
    } else {
      assert TASA_KEYS[0] == k;
      NumFieldStable(r, TASA_KEYS, ToNum(Pick(d, TASA_KEYS), 0.0));
    }
  }

  lemma {:induction false} MunicipioStable(d: Record, extras: seq<string>)
    requires NoBlankAliases(d, true)
    ensures FieldsOf(Row(d, extras, true)).cveMun == FieldsOf(d).cveMun
    ensures FieldsOf(Row(d, extras, true)).municipio == FieldsOf(d).municipio
  {
    RowMunicipio(d, extras);
    CveStable(d, extras);
    NameStable(d, extras);
  }

  lemma {:induction false} CveStable(d: Record, extras: seq<string>)
    requires "cve_mun" in Row(d, extras, true)
    requires Row(d, extras, true)["cve_mun"] == CodeField(d, CVE_KEYS, 3)
    ensures CodeField(Row(d, extras, true), CVE_KEYS, 3) == CodeField(d, CVE_KEYS, 3)
  {
    var r := Row(d, extras, true);
    assert Get(r, CVE_KEYS[0]) == CodeField(d, CVE_KEYS, 3);
    CodeFieldStable(d, r, CVE_KEYS, 3);
  }

  lemma {:induction false} NameStable(d: Record, extras: seq<string>)
    requires NoBlank(d, MUNICIPIO_KEYS)
    requires "municipio" in Row(d, extras, true)
    requires Row(d, extras, true)["municipio"] == TextField(d, MUNICIPIO_KEYS)
    ensures TextField(Row(d, extras, true), MUNICIPIO_KEYS) == TextField(d, MUNICIPIO_KEYS)
  {
    var r := Row(d, extras, true);
    StableAlias(d, extras, true, "Municipio");
    StableAlias(d, extras, true, "MUNICIPIO");
    NameStableIn(d, r);
  }

  lemma NameStableIn(d: Record, r: Record)
    requires NoBlank(d, MUNICIPIO_KEYS)
    requires Get(r, "municipio") == TextField(d, MUNICIPIO_KEYS)
    requires Get(r, "Municipio") == Get(d, "Municipio") && Get(r, "MUNICIPIO") == Get(d, "MUNICIPIO")
    ensures TextField(r, MUNICIPIO_KEYS) == TextField(d, MUNICIPIO_KEYS)
  {
    assert |MUNICIPIO_KEYS| == 3 && MUNICIPIO_KEYS[1] == "Municipio" && MUNICIPIO_KEYS[2] == "MUNICIPIO";
    TextFieldStable(d, r, MUNICIPIO_KEYS);
  }

  /** A secondary alias is copied unchanged into the normalised row. */
  lemma {:induction false} StableAlias(d: Record, extras: seq<string>, entidad: bool, k: string)
    requires k == "ID" || k == "Estado" || k == "Municipio" || k == "MUNICIPIO"
    ensures Get(Row(d, extras, entidad), k) == Get(d, k)
  {
    NotLevelKey(BASE + extras, k);
    assert k !in FixedKeys(entidad);
    RowKeys(d, extras, entidad, k);
  }

  /** Normalising a normalised row gives the same row, provided no text alias is blank. */
  lemma {:induction false} RowIdempotent(d: Record, extras: seq<string>, entidad: bool)
    requires NoBlankAliases(d, entidad)
    ensures Row(Row(d, extras, entidad), extras, entidad) == Row(d, extras, entidad)
  {
    var r := Row(d, extras, entidad);
    var r2 := Row(r, extras, entidad);
    forall k ensures (k in r2 <==> k in r) && (k in r ==> r2[k] == r[k]) {
      RowIdempotentAt(d, extras, entidad, k);
    }
    SameRecord(r2, r);
  }

  lemma SameRecord(a: Record, b: Record)
    requires forall k :: (k in a <==> k in b) && (k in b ==> a[k] == b[k])
    ensures a == b
  {
  }

  /**
   * Without that proviso the normaliser is not idempotent: a blank `id` beside an `ID`
   * normalises to "", and a second pass then picks up the `ID`.
   */
  lemma {:induction false} BlankIdNotIdempotent(extras: seq<string>, entidad: bool)
    ensures var d := map["id" := Str(" "), "ID" := Str("07")];
      Get(Row(Row(d, extras, entidad), extras, entidad), "id") != Get(Row(d, extras, entidad), "id")
  {
    var d := map["id" := Str(" "), "ID" := Str("07")];
    assert Get(d, "id") == Str(" ") && Get(d, "ID") == Str("07");
    BlankIdFirstPass(d, extras, entidad);
    var r := Row(d, extras, entidad);
    RowPopulationAndIds(r, extras, entidad);
    IdFallback(r);
  }

  /** The first pass turns a blank `id` into "" and leaves `ID` alone. */
  lemma {:induction false} BlankIdFirstPass(d: Record, extras: seq<string>, entidad: bool)
    requires Get(d, "id") == Str(" ") && Get(d, "ID") == Str("07")
    ensures Get(Row(d, extras, entidad), "id") == Str("") && Get(Row(d, extras, entidad), "ID") == Str("07")
  {
    RowPopulationAndIds(d, extras, entidad);
    StableAlias(d, extras, entidad, "ID");
    BlankIdText(d);
  }

  lemma BlankIdText(d: Record)
    requires Get(d, "id") == Str(" ")
    ensures TextField(d, ID_KEYS) == Str("")
  {
    assert ID_KEYS[0] == "id";
    PickFirst(d, ID_KEYS);
    assert ToString(Coalesce([Str(" "), Str("")])) == " ";
    assert Trim(" ") == [] by {
      assert TrimStart(" ") == [];
    }
  }

  lemma {:induction false} IdFallback(r: Record)
    requires Get(r, "id") == Str("") && Get(r, "ID") == Str("07")
    ensures TextField(r, ID_KEYS) == Str("07")
  {
    assert Pick(r, ID_KEYS) == Str("07");
    assert Trim("07") == "07" by {
      assert TrimStart("07") == "07";
      assert TrimEnd("07") == "07";
    }
  }
}

/**
 * The clinic catalogues: where each marker type's CSV lives and how a catalogue row,
 * whatever its column names, becomes a clinic record with trimmed texts, zero-padded
 * codes and numeric coordinates.
 */
module MarcadoresConfig {
  import opened Wrappers
  import opened Js
  import Marcadores

  const DATA_BASE: string := "/wp-content/plugins/siarhe/assets/data/"

  /** `RUTAS_MARCADORES`: the CSV of each marker type. */
  const RUTAS_MARCADORES: map<string, string> := map[
    Marcadores.CATETER := DATA_BASE + "clinicas/clinicas-cateteres.csv",
    Marcadores.HERIDAS := DATA_BASE + "clinicas/clinicas-heridas.csv"
  ]

  /** Exactly the two marker types have a catalogue, and both live under the data directory. */
  lemma RutasMarcadores()
    ensures RUTAS_MARCADORES.Keys == {Marcadores.CATETER, Marcadores.HERIDAS}
    ensures forall t :: t in RUTAS_MARCADORES ==> StartsWith(RUTAS_MARCADORES[t], DATA_BASE + "clinicas/")
  {
    var p := DATA_BASE + "clinicas/";
    assert StartsWith(p + "clinicas-cateteres.csv", p);
    assert StartsWith(p + "clinicas-heridas.csv", p);
  }

  /** A catalogue row as read from CSV: every cell is text; a missing column reads as undefined. */
  type CsvRow = map<string, string>

  /**
   * `d[k0] || d[k1] || ... || ""`: the first listed column that is present and
   * non-empty, else the empty string.
   */
  function FirstFilled(d: CsvRow, keys: seq<string>): (r: string)
    ensures r == [] || exists k :: k in keys && k in d && d[k] == r
  {
    if keys == [] then []
    else if keys[0] in d && d[keys[0]] != [] then d[keys[0]]
    else FirstFilled(d, keys[1..])
  }

  /** The value taken is that of the first filled alias; it is empty only when no alias is filled. */
  lemma {:induction false} FirstFilledIsFirst(d: CsvRow, keys: seq<string>)
    ensures var r := FirstFilled(d, keys);
      r != [] ==> (exists i :: (0 <= i < |keys| && keys[i] in d && d[keys[i]] == r
                                && forall j :: 0 <= j < i ==> keys[j] !in d || d[keys[j]] == []))
    ensures FirstFilled(d, keys) == [] <==> forall i :: 0 <= i < |keys| ==> keys[i] !in d || d[keys[i]] == []
  {
    if keys != [] && !(keys[0] in d && d[keys[0]] != []) {
      var r := FirstFilled(d, keys[1..]);
      FirstFilledIsFirst(d, keys[1..]);
      if r != [] {
        var i :| 0 <= i < |keys[1..]| && keys[1..][i] in d && d[keys[1..][i]] == r
          && forall j :: 0 <= j < i ==> keys[1..][j] !in d || d[keys[1..][j]] == [];
        assert keys[i + 1] in d && d[keys[i + 1]] == r;
        forall j | 0 <= j < i + 1 ensures keys[j] !in d || d[keys[j]] == [] {
          if j > 0 {
            assert keys[j] == keys[1..][j - 1];
          }
        }
      } else {
        forall i | 0 <= i < |keys| ensures keys[i] !in d || d[keys[i]] == [] {
          if i > 0 {
            assert keys[i] == keys[1..][i - 1];
          }
        }
      }
    }
  }

  /** A text field: the first filled alias, trimmed. */
  function Texto(d: CsvRow, keys: seq<string>): string {
    Trim(FirstFilled(d, keys))
  }

  /** A code field: the first filled alias, left-padded with '0' to `n` characters. */
  function Codigo(d: CsvRow, keys: seq<string>, n: nat): (r: string)
    ensures |r| >= n
    ensures |FirstFilled(d, keys)| >= n ==> r == FirstFilled(d, keys)
  {
    PadStart(FirstFilled(d, keys), n, '0')
  }

  /** `+String(d[k0] || d[k1] || "").replace(",", ".")`: a blank cell converts to 0. */
  function CoordenadaAsWritten(d: CsvRow, keys: seq<string>): Num {
    StringToNumber(ReplaceFirst(FirstFilled(d, keys), ',', '.'))
  }

  /** The coordinate as intended: a blank cell is no coordinate (NaN), anything else converts as above. */
  function Coordenada(d: CsvRow, keys: seq<string>): (r: Num)
    ensures Trim(FirstFilled(d, keys)) == [] ==> r == NaN
  {
    var s := FirstFilled(d, keys);
    if Trim(s) == [] then NaN else StringToNumber(ReplaceFirst(s, ',', '.'))
  }

  /** A clinic in the common schema of all catalogues. */
  datatype Clinica = Clinica(
    clues: string, cluesNombre: string, institucion: string, entCod: string, entidad: string,
    munCod: string, municipio: string, locCod: string, localidad: string, unidad: string,
    lat: Num, lon: Num, observaciones: string, tipo: string)

  const LAT_KEYS: seq<string> := ["LATITUD", "lat"]
  const LON_KEYS: seq<string> := ["LONGITUD", "lon"]

  /** The record of `normalizarClinicaRow` with the coordinates given. */
  function ClinicaCon(d: CsvRow, tipo: string, lat: Num, lon: Num): Clinica {
    Clinica(
      Texto(d, ["CLUES", "clues"]),
      Texto(d, ["NOMBRE_CLUES", "nombre_clues"]),
      Texto(d, ["Institucion", "institucion"]),
      Codigo(d, ["Clave_Entidad", "ent_cod"], 2),
      Texto(d, ["Entidad", "entidad"]),
      Codigo(d, ["CLAVE_MUNICIPIO", "mun_cod"], 3),
      Texto(d, ["MUNICIPIO", "municipio"]),
      Codigo(d, ["CLAVE_LOCALIDAD", "loc_cod"], 4),
      Texto(d, ["LOCALIDAD", "localidad"]),
      Texto(d, ["NOMBRE_UNIDAD", "unidad", "clinica"]),
      lat, lon,
      Texto(d, ["Observaciones", "observaciones"]),
      tipo)
  }

  /** `normalizarClinicaRow(d, tipo)` as written. */
  function NormalizarClinicaRowAsWritten(d: CsvRow, tipo: string): (c: Clinica)
    ensures c.tipo == tipo && |c.entCod| >= 2 && |c.munCod| >= 3 && |c.locCod| >= 4
  {
    ClinicaCon(d, tipo, CoordenadaAsWritten(d, LAT_KEYS), CoordenadaAsWritten(d, LON_KEYS))
  }

  /** `normalizarClinicaRow(d, tipo)` with blank coordinates read as missing. */
  function NormalizarClinicaRow(d: CsvRow, tipo: string): (c: Clinica)
    ensures c.tipo == tipo && |c.entCod| >= 2 && |c.munCod| >= 3 && |c.locCod| >= 4
    ensures Trim(FirstFilled(d, LAT_KEYS)) == [] ==> c.lat == NaN
    ensures Trim(FirstFilled(d, LON_KEYS)) == [] ==> c.lon == NaN
  {
    ClinicaCon(d, tipo, Coordenada(d, LAT_KEYS), Coordenada(d, LON_KEYS))
  }

  /** A clinic the map can place: both coordinates are finite numbers. */
  predicate Ubicable(c: Clinica) {
    c.lat.Finite? && c.lon.Finite?
  }

  /** `rows.map(d => normalizarClinicaRow(d, tipo))`. */
  function Normalizadas(rows: seq<CsvRow>, tipo: string): (r: seq<Clinica>)
    ensures |r| == |rows|
    ensures forall i :: 0 <= i < |r| ==> r[i] == NormalizarClinicaRow(rows[i], tipo)
  {
    seq(|rows|, i requires 0 <= i < |rows| => NormalizarClinicaRow(rows[i], tipo))
  }

  /** `rows.map(d => normalizarClinicaRow(d, tipo))` with coordinates converted as written. */
  function NormalizadasAsWritten(rows: seq<CsvRow>, tipo: string): (r: seq<Clinica>)
    ensures |r| == |rows|
    ensures forall i :: 0 <= i < |r| ==> r[i] == NormalizarClinicaRowAsWritten(rows[i], tipo)
  {
    seq(|rows|, i requires 0 <= i < |rows| => NormalizarClinicaRowAsWritten(rows[i], tipo))
  }

  /** `.filter(d => Number.isFinite(d.lat) && Number.isFinite(d.lon))`. */
  function Ubicables(cs: seq<Clinica>): (r: seq<Clinica>)
    ensures |r| <= |cs|
    ensures forall c :: c in r <==> c in cs && Ubicable(c)
  {
    if cs == [] then []
    else (if Ubicable(cs[0]) then [cs[0]] else []) + Ubicables(cs[1..])
  }

  /** The clinics of a catalogue that are drawn: normalised, then filtered to finite coordinates. */
  function ClinicasValidas(rows: seq<CsvRow>, tipo: string): seq<Clinica> {
    Ubicables(Normalizadas(rows, tipo))
  }

  /**
   * The list the page draws, with coordinates converted as written: at most one clinic
   * per row, each of the requested type and with finite coordinates.
   */
  function ClinicasValidasAsWritten(rows: seq<CsvRow>, tipo: string): (r: seq<Clinica>)
    ensures |r| <= |rows|
    ensures forall c :: c in r ==> Ubicable(c) && c.tipo == tipo
  {
    Ubicables(NormalizadasAsWritten(rows, tipo))
  }

  /** Every drawn clinic comes from a row of the catalogue, carries the catalogue's type and can be placed. */
  lemma ClinicasValidasSound(rows: seq<CsvRow>, tipo: string, c: Clinica)
    requires c in ClinicasValidas(rows, tipo)
    ensures Ubicable(c) && c.tipo == tipo
    ensures exists i :: 0 <= i < |rows| && c == NormalizarClinicaRow(rows[i], tipo)
  {
    var cs := Normalizadas(rows, tipo);
    var i :| 0 <= i < |cs| && cs[i] == c;
  }

  /** The same holds for the list as written, which the page plots. */
  lemma ClinicasValidasAsWrittenSound(rows: seq<CsvRow>, tipo: string, c: Clinica)
    requires c in ClinicasValidasAsWritten(rows, tipo)
    ensures Ubicable(c) && c.tipo == tipo
    ensures exists i :: 0 <= i < |rows| && c == NormalizarClinicaRowAsWritten(rows[i], tipo)
  {
    var cs := NormalizadasAsWritten(rows, tipo);
    var i :| 0 <= i < |cs| && cs[i] == c;
  }

  /** Text fields prefer the upper-case source column and are trimmed. */
  lemma TextoPrefersFirst(d: CsvRow, keys: seq<string>)
    requires |keys| > 0 && keys[0] in d && d[keys[0]] != []
    ensures Texto(d, keys) == Trim(d[keys[0]])
  {
  }

  /** A decimal comma in a coordinate reads as a decimal point. */
  lemma {:induction false} CoordenadaDecimalComma(d: CsvRow, keys: seq<string>, ip: string, fp: string)
    requires AllRadixDigits(ip, 10) && AllRadixDigits(fp, 10) && |ip| > 0
    requires FirstFilled(d, keys) == ip + "," + fp
    ensures Coordenada(d, keys) == Finite(Mantissa(ip, fp))
    ensures CoordenadaAsWritten(d, keys) == Finite(Mantissa(ip, fp))
  {
    var s := ip + "," + fp;
    assert ',' !in ip by {
      forall i | 0 <= i < |ip| ensures ip[i] != ',' {
        assert IsRadixDigit(ip[i], 10);
      }
    }
    assert s == ip + [','] + fp;
    ReplaceFirstAt(ip, ',', '.', fp);
    assert ReplaceFirst(s, ',', '.') == ip + "." + fp + [];
    DecimalValue(ip, fp, []);
    assert Trim(s) != [] by {
      DigitsNoWhiteSpace(ip, ',', fp, []);
      assert s + [] == s;
      NoWhiteSpaceUnchanged(s);
    }
  }

  /**
   * As written, a clinic whose latitude and longitude cells are both missing or empty
   * is placed at latitude 0, longitude 0 and survives the finite-coordinates filter.
   */
  lemma BlankCoordinatesKept(d: CsvRow, tipo: string)
    requires FirstFilled(d, LAT_KEYS) == [] && FirstFilled(d, LON_KEYS) == []
    ensures var c := NormalizarClinicaRowAsWritten(d, tipo);
      c.lat == Finite(0.0) && c.lon == Finite(0.0) && Ubicable(c)
    ensures ClinicasValidasAsWritten([d], tipo) == [NormalizarClinicaRowAsWritten(d, tipo)]
  {
  }

  /** A row without latitude or without longitude yields no clinic on the map. */
  lemma BlankCoordinatesDropped(d: CsvRow, tipo: string)
    requires Trim(FirstFilled(d, LAT_KEYS)) == [] || Trim(FirstFilled(d, LON_KEYS)) == []
    ensures ClinicasValidas([d], tipo) == []
  {
  }

  /** Filtering a concatenation filters each part, in order. */
  lemma {:induction false} UbicablesAppend(a: seq<Clinica>, b: seq<Clinica>)
    ensures Ubicables(a + b) == Ubicables(a) + Ubicables(b)
  {
    if a == [] {
      assert a + b == b;
    } else {
      assert (a + b)[0] == a[0];
      assert (a + b)[1..] == a[1..] + b;
      UbicablesAppend(a[1..], b);
    }
  }
}

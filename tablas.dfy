/**
 * The national summary table: one row per state followed by the special rows
 * 34 (nurses working abroad), 8888 (not available) and 9999 (national total),
 * which stay at the end in that order however the table is sorted; the
 * header-click reordering; and the names given to the Excel export.
 */
module Tablas {
  import opened Wrappers
  import opened Js
  import opened Ordering
  import Metricas

  // ---------------------------------------------------------------------------
  // Special rows
  // ---------------------------------------------------------------------------

  /** `prioridadId`: the special rows 34, 8888 and 9999 rank 1, 2 and 3; every other id ranks 0. */
  function PrioridadId(id: string): (r: nat)
    ensures r <= 3
    ensures r == 0 <==> id != "34" && id != "8888" && id != "9999"
  {
    if id == "34" then 1
    else if id == "8888" then 2
    else if id == "9999" then 3
    else 0
  }

  /** Only the three special ids have a rank of their own, one each. */
  lemma PrioridadCasos(id: string)
    ensures PrioridadId(id) == 0 <==> id != "34" && id != "8888" && id != "9999"
    ensures PrioridadId(id) == 1 <==> id == "34"
    ensures PrioridadId(id) == 2 <==> id == "8888"
    ensures PrioridadId(id) == 3 <==> id == "9999"
  {
  }

  /** `xs.filter(x => prioridadId(id(x)) === k)`, in input order. */
  function DeClase<T>(xs: seq<T>, id: T -> string, k: nat): (r: seq<T>)
    ensures |r| <= |xs|
    ensures forall i :: 0 <= i < |r| ==> PrioridadId(id(r[i])) == k
  {
    if xs == [] then []
    else
      assert xs == [xs[0]] + xs[1..];
      (if PrioridadId(id(xs[0])) == k then [xs[0]] else []) + DeClase(xs[1..], id, k)
  }

  /**
   * `[...normales.sort(cmp), ...especiales]`: the rows of rank 0 sorted by `cmp`,
   * then the 34, the 8888 and the 9999 rows, each group in input order.
   */
  function Fijar<T>(xs: seq<T>, id: T -> string, cmp: (T, T) -> real): seq<T> {
    SortBy(DeClase(xs, id, 0), cmp) + DeClase(xs, id, 1) + DeClase(xs, id, 2) + DeClase(xs, id, 3)
  }

  /** The ranks never decrease along `xs`: states first, then 34, 8888 and 9999. */
  predicate Agrupada<T>(xs: seq<T>, id: T -> string) {
    forall i, j :: 0 <= i < j < |xs| ==> PrioridadId(id(xs[i])) <= PrioridadId(id(xs[j]))
  }

  /** A row occurs in its own group as often as in `xs`, and in no other group. */
  lemma {:induction false} DeClaseCuenta<T>(xs: seq<T>, id: T -> string, k: nat, x: T)
    ensures multiset(DeClase(xs, id, k))[x] == if PrioridadId(id(x)) == k then multiset(xs)[x] else 0
  {
    if xs != [] {
      DeClaseCuenta(xs[1..], id, k, x);
      assert xs == [xs[0]] + xs[1..];
      DeClaseCons(xs, id, k);
      assert multiset(xs)[x] == multiset([xs[0]])[x] + multiset(xs[1..])[x];
    }
  }

  lemma MultisetExt<T>(a: multiset<T>, b: multiset<T>)
    requires forall x :: a[x] == b[x]
    ensures a == b
  {
  }

  /** Every row falls in exactly one of the four groups. */
  lemma DeClaseParticion<T>(xs: seq<T>, id: T -> string)
    ensures multiset(xs) == multiset(DeClase(xs, id, 0)) + multiset(DeClase(xs, id, 1))
                            + multiset(DeClase(xs, id, 2)) + multiset(DeClase(xs, id, 3))
  {
    var a, b, c, d := multiset(DeClase(xs, id, 0)), multiset(DeClase(xs, id, 1)),
                      multiset(DeClase(xs, id, 2)), multiset(DeClase(xs, id, 3));
    var u := a + b + c + d;
    forall x ensures u[x] == multiset(xs)[x] {
      assert u[x] == a[x] + b[x] + c[x] + d[x];
      DeClaseCuenta(xs, id, 0, x);
      DeClaseCuenta(xs, id, 1, x);
      DeClaseCuenta(xs, id, 2, x);
      DeClaseCuenta(xs, id, 3, x);
      var p := PrioridadId(id(x));
      if p == 0 {
        assert a[x] == multiset(xs)[x] && b[x] == 0 && c[x] == 0 && d[x] == 0;
      } else if p == 1 {
        assert a[x] == 0 && b[x] == multiset(xs)[x] && c[x] == 0 && d[x] == 0;
      } else if p == 2 {
        assert a[x] == 0 && b[x] == 0 && c[x] == multiset(xs)[x] && d[x] == 0;
      } else {
        assert a[x] == 0 && b[x] == 0 && c[x] == 0 && d[x] == multiset(xs)[x];
      }
    }
    MultisetExt(u, multiset(xs));
  }

  /** Filtering a concatenation filters each part. */
  lemma {:induction false} DeClaseConcat<T>(a: seq<T>, b: seq<T>, id: T -> string, k: nat)
    ensures DeClase(a + b, id, k) == DeClase(a, id, k) + DeClase(b, id, k)
  {
    if a != [] {
      DeClaseConcat(a[1..], b, id, k);
      assert (a + b)[1..] == a[1..] + b;
    } else {
      assert a + b == b;
    }
  }

  /** A sequence whose rows all have rank `j` keeps all of them for `j` and none for another rank. */
  lemma {:induction false} DeClaseUniforme<T>(xs: seq<T>, id: T -> string, j: nat, k: nat)
    requires forall i :: 0 <= i < |xs| ==> PrioridadId(id(xs[i])) == j
    ensures DeClase(xs, id, k) == if j == k then xs else []
  {
    if xs != [] {
      DeClaseUniforme(xs[1..], id, j, k);
      assert xs == [xs[0]] + xs[1..];
    }
  }

  /** A grouped sequence is its four groups, one after the other. */
  lemma {:induction false} AgrupadaDescompone<T>(xs: seq<T>, id: T -> string)
    requires Agrupada(xs, id)
    ensures xs == DeClase(xs, id, 0) + DeClase(xs, id, 1) + DeClase(xs, id, 2) + DeClase(xs, id, 3)
  {
    if xs != [] {
      var x, rest := xs[0], xs[1..];
      var k := PrioridadId(id(x));
      AgrupadaCola(xs, id);
      AgrupadaDescompone(rest, id);
      if k > 0 { AgrupadaSinMenores(xs, id, 0); }
      if k > 1 { AgrupadaSinMenores(xs, id, 1); }
      if k > 2 { AgrupadaSinMenores(xs, id, 2); }
      DeClaseCons(xs, id, 0);
      DeClaseCons(xs, id, 1);
      DeClaseCons(xs, id, 2);
      DeClaseCons(xs, id, 3);
      ConsBloque(x, DeClase(rest, id, 0), DeClase(rest, id, 1), DeClase(rest, id, 2), DeClase(rest, id, 3), k);
      assert xs == [x] + rest;
    }
  }

  lemma AgrupadaCola<T>(xs: seq<T>, id: T -> string)
    requires Agrupada(xs, id) && xs != []
    ensures Agrupada(xs[1..], id)
  {
    var rest := xs[1..];
    forall i, j | 0 <= i < j < |rest| ensures PrioridadId(id(rest[i])) <= PrioridadId(id(rest[j])) {
      assert rest[i] == xs[i + 1] && rest[j] == xs[j + 1];
    }
  }

  /** In a grouped sequence nothing after the head has a lower rank than the head. */
  lemma AgrupadaSinMenores<T>(xs: seq<T>, id: T -> string, c: nat)
    requires Agrupada(xs, id) && xs != [] && c < PrioridadId(id(xs[0]))
    ensures DeClase(xs[1..], id, c) == []
  {
    var rest := xs[1..];
    forall i | 0 <= i < |rest| ensures PrioridadId(id(rest[i])) != c {
      assert rest[i] == xs[i + 1];
    }
    DeClaseVacia(rest, id, c);
  }

  /** A group no row belongs to is empty. */
  lemma {:induction false} DeClaseVacia<T>(xs: seq<T>, id: T -> string, c: nat)
    requires forall i :: 0 <= i < |xs| ==> PrioridadId(id(xs[i])) != c
    ensures DeClase(xs, id, c) == []
  {
    if xs != [] {
      assert forall i :: 0 <= i < |xs[1..]| ==> xs[1..][i] == xs[i + 1];
      DeClaseVacia(xs[1..], id, c);
    }
  }

  lemma DeClaseCons<T>(xs: seq<T>, id: T -> string, k: nat)
    requires xs != []
    ensures DeClase(xs, id, k) == if PrioridadId(id(xs[0])) == k then [xs[0]] + DeClase(xs[1..], id, k) else DeClase(xs[1..], id, k)
  {
  }

  /** Putting `x` in front of block `k` when the blocks before it are empty puts it in front of the whole. */
  lemma ConsBloque<T>(x: T, a: seq<T>, b: seq<T>, c: seq<T>, d: seq<T>, k: nat)
    requires k <= 3 && (k > 0 ==> a == []) && (k > 1 ==> b == []) && (k > 2 ==> c == [])
    ensures (if k == 0 then [x] + a else a) + (if k == 1 then [x] + b else b)
            + (if k == 2 then [x] + c else c) + (if k == 3 then [x] + d else d) == [x] + (a + b + c + d)
  {
    if k == 0 {
      assert [x] + a + b + c + d == [x] + (a + b + c + d);
    } else if k == 1 {
      assert a + ([x] + b) + c + d == [x] + (a + b + c + d);
    } else if k == 2 {
      assert a + b + ([x] + c) + d == [x] + (a + b + c + d);
    } else {
      assert a + b + c + ([x] + d) == [x] + (a + b + c + d);
    }
  }

  /**
   * The shape of `Fijar`: a permutation of its input whose rank-0 prefix is the
   * sorted rank-0 rows and whose tail is the special rows, group by group, in
   * input order; the ranks never decrease along it.
   */
  lemma FijarForma<T>(xs: seq<T>, id: T -> string, cmp: (T, T) -> real)
    ensures var r := Fijar(xs, id, cmp); var n := |DeClase(xs, id, 0)|;
      multiset(r) == multiset(xs) && |r| == |xs| && n <= |r|
      && r[..n] == SortBy(DeClase(xs, id, 0), cmp)
      && r[n..] == DeClase(xs, id, 1) + DeClase(xs, id, 2) + DeClase(xs, id, 3)
      && (forall i :: 0 <= i < |r| ==> (i < n <==> PrioridadId(id(r[i])) == 0))
      && Agrupada(r, id)
  {
    FijarPermutacion(xs, id, cmp);
    Partes(SortBy(DeClase(xs, id, 0), cmp), DeClase(xs, id, 1), DeClase(xs, id, 2), DeClase(xs, id, 3));
    FijarRangos(xs, id, cmp);
  }

  lemma FijarPermutacion<T>(xs: seq<T>, id: T -> string, cmp: (T, T) -> real)
    ensures multiset(Fijar(xs, id, cmp)) == multiset(xs) && |Fijar(xs, id, cmp)| == |xs|
  {
    DeClaseParticion(xs, id);
    var r := Fijar(xs, id, cmp);
    assert multiset(r) == multiset(SortBy(DeClase(xs, id, 0), cmp)) + multiset(DeClase(xs, id, 1))
                          + multiset(DeClase(xs, id, 2)) + multiset(DeClase(xs, id, 3));
  }

  /** A concatenation of four parts splits back into its first part and the rest. */
  lemma Partes<T>(a: seq<T>, b: seq<T>, c: seq<T>, d: seq<T>)
    ensures (a + b + c + d)[..|a|] == a && (a + b + c + d)[|a|..] == b + c + d
  {
    var r := a + b + c + d;
    assert r == a + (b + c + d);
  }

  /** Along `Fijar` the ranks are 0, then 1, then 2, then 3. */
  lemma FijarRangos<T>(xs: seq<T>, id: T -> string, cmp: (T, T) -> real)
    ensures var r := Fijar(xs, id, cmp); var n := |DeClase(xs, id, 0)|;
      n <= |r|
      && (forall i :: 0 <= i < |r| ==> (i < n <==> PrioridadId(id(r[i])) == 0))
      && Agrupada(r, id)
  {
    var d0 := DeClase(xs, id, 0);
    var s0 := SortBy(d0, cmp);
    forall i | 0 <= i < |s0| ensures PrioridadId(id(s0[i])) == 0 {
      assert s0[i] in multiset(d0);
      DeClaseCuenta(xs, id, 0, s0[i]);
    }
    RangosConcat(s0, DeClase(xs, id, 1), DeClase(xs, id, 2), DeClase(xs, id, 3), id);
  }

  /** Four blocks of ranks 0, 1, 2 and 3, in that order, make a grouped sequence. */
  lemma RangosConcat<T>(a: seq<T>, b: seq<T>, c: seq<T>, d: seq<T>, id: T -> string)
    requires forall i :: 0 <= i < |a| ==> PrioridadId(id(a[i])) == 0
    requires forall i :: 0 <= i < |b| ==> PrioridadId(id(b[i])) == 1
    requires forall i :: 0 <= i < |c| ==> PrioridadId(id(c[i])) == 2
    requires forall i :: 0 <= i < |d| ==> PrioridadId(id(d[i])) == 3
    ensures var r := a + b + c + d;
      (forall i :: 0 <= i < |r| ==> (i < |a| <==> PrioridadId(id(r[i])) == 0))
      && Agrupada(r, id)
  {
    var r := a + b + c + d;
    var x, y, z := |a|, |a| + |b|, |a| + |b| + |c|;
    forall i | 0 <= i < |r|
      ensures PrioridadId(id(r[i])) == if i < x then 0 else if i < y then 1 else if i < z then 2 else 3
    {
      if i < x {
        assert r[i] == a[i];
      } else if i < y {
        assert r[i] == b[i - x];
      } else if i < z {
        assert r[i] == c[i - y];
      } else {
        assert r[i] == d[i - z];
      }
    }
  }

  /** The rank-0 prefix of `Fijar` is in comparator order when the comparator is antisymmetric on those rows. */
  lemma FijarOrdenada<T(!new)>(xs: seq<T>, id: T -> string, cmp: (T, T) -> real)
    requires Antisymmetric(cmp, DeClase(xs, id, 0))
    ensures SortedBy(Fijar(xs, id, cmp)[..|DeClase(xs, id, 0)|], cmp)
  {
    FijarForma(xs, id, cmp);
    SortBySorted(DeClase(xs, id, 0), cmp);
  }

  /**
   * Reordering a grouped table moves only its rank-0 rows: the special rows keep
   * their positions and the rank-0 block is a permutation of the old one.
   */
  lemma FijarConservaEspeciales<T>(xs: seq<T>, id: T -> string, cmp: (T, T) -> real)
    requires Agrupada(xs, id)
    ensures var r := Fijar(xs, id, cmp); var n := |DeClase(xs, id, 0)|;
      |r| == |xs| && n <= |xs| && r[n..] == xs[n..] && multiset(r[..n]) == multiset(xs[..n])
  {
    AgrupadaDescompone(xs, id);
    FijarForma(xs, id, cmp);
    Partes(DeClase(xs, id, 0), DeClase(xs, id, 1), DeClase(xs, id, 2), DeClase(xs, id, 3));
  }

  // ---------------------------------------------------------------------------
  // Population metrics and export names
  // ---------------------------------------------------------------------------

  /** `esMetricaPoblacion`: a missing key is the empty string. */
  function EsMetricaPoblacion(metricKey: string): (r: bool)
    ensures r ==> |metricKey| >= 3
  {
    if metricKey == "" then false
    else
      var mk := ToLower(metricKey);
      mk == "poblacion" || mk == "población" || mk == "pob_total" || mk == "pob" || mk == "pobl"
      || StartsWith(mk, "pob") || Contains(mk, "poblacion") || Contains(mk, "población")
  }

  /** The listed names are redundant: a key is a population metric exactly when its lower-case form starts with "pob" or names "población". */
  lemma EsMetricaPoblacionForma(metricKey: string)
    ensures var mk := ToLower(metricKey);
      EsMetricaPoblacion(metricKey)
      <==> StartsWith(mk, "pob") || Contains(mk, "poblacion") || Contains(mk, "población")
  {
    var mk := ToLower(metricKey);
    if mk == "poblacion" || mk == "población" || mk == "pob_total" || mk == "pob" || mk == "pobl" {
      assert mk[..3] == "pob";
    }
  }

  /** A pattern one of whose characters never appears in `s` does not occur in `s`. */
  lemma SinCaracter(s: string, p: string, j: nat)
    requires j < |p| && forall i :: 0 <= i < |s| ==> s[i] != p[j]
    ensures !Contains(s, p)
  {
    forall i | 0 <= i <= |s| ensures !OccursAt(s, p, i) {
      if i + |p| <= |s| {
        assert s[i..i + |p|][j] == s[i + j];
      }
    }
  }

  /** A string without a 'b' in either case does not mention "población" after lower-casing. */
  lemma SinB(s: string)
    requires 'b' !in s && 'B' !in s
    ensures !Contains(ToLower(s), "poblacion") && !Contains(ToLower(s), "población")
  {
    var mk := ToLower(s);
    assert forall i :: 0 <= i < |mk| ==> mk[i] != 'b';
    SinCaracter(mk, "poblacion", 2);
    SinCaracter(mk, "población", 2);
  }

  /** On the metric catalogue this test agrees with `isPopulation`. */
  lemma CatalogoPoblacion(i: nat)
    requires i < |Metricas.METRIC_ORDER|
    ensures EsMetricaPoblacion(Metricas.METRIC_ORDER[i]) <==> Metricas.IsPopulation(Metricas.METRIC_ORDER[i])
  {
    var k := Metricas.METRIC_ORDER[i];
    if i == 1 {
      assert k == "poblacion";
      PoblacionLoEs();
    } else {
      ClavesDeTasa(i);
      NoPoblacion(k);
      assert k != "poblacion" by { assert k[0] != "poblacion"[0]; }
    }
  }

  lemma PoblacionLoEs()
    ensures EsMetricaPoblacion("poblacion")
  {
    var k := "poblacion";
    assert forall i :: 0 <= i < |k| ==> 'a' <= k[i] <= 'z';
    MinusculasFijas(k);
    MinusculaPoblacion(k);
  }

  /** Lower-case ASCII letters are left as they are. */
  lemma MinusculasFijas(s: string)
    requires forall i :: 0 <= i < |s| ==> 'a' <= s[i] <= 'z'
    ensures ToLower(s) == s
  {
    var r := ToLower(s);
    forall i | 0 <= i < |s| ensures r[i] == s[i] {
      assert 'a' <= s[i] <= 'z';
    }
  }

  lemma MinusculaPoblacion(k: string)
    requires ToLower(k) == "poblacion"
    ensures EsMetricaPoblacion(k)
  {
  }

  /** A key that starts with 't' and has no 'b' is not a population metric. */
  lemma NoPoblacion(k: string)
    requires k != [] && k[0] == 't' && 'b' !in k && 'B' !in k
    ensures !EsMetricaPoblacion(k)
  {
    EsMetricaPoblacionForma(k);
    assert ToLower(k)[0] == 't';
    SinB(k);
  }

  /** Every catalogue key but "poblacion" starts with 't' and has no 'b'. */
  lemma ClavesDeTasa(i: nat)
    requires i < |Metricas.METRIC_ORDER| && i != 1
    ensures var k := Metricas.METRIC_ORDER[i]; k != [] && k[0] == 't' && 'b' !in k && 'B' !in k
  {
    var k := Metricas.METRIC_ORDER[i];
    if i == 0 { assert k == "tasa_total"; }
    else if i == 2 { assert k == "tasa_primer"; }
    else if i == 3 { assert k == "tasa_segundo"; }
    else if i == 4 { assert k == "tasa_tercer"; }
    else if i == 5 { assert k == "tasa_apoyo"; }
    else if i == 6 { assert k == "tasa_escuelas"; }
    else if i == 7 { assert k == "tasa_administrativas"; }
    else if i == 8 { assert k == "tasa_no_aplica"; }
    else { assert k == "tasa_no_asignado"; }
  }

  /** The characters that an Excel sheet name may not contain. */
  const HOJA_PROHIBIDOS: set<char> := {':', '\\', '/', '?', '*', '[', ']'}

  /** The characters removed from a file name. */
  const ARCHIVO_PROHIBIDOS: set<char> := {'\\', '/', ':', '*', '?', '"', '<', '>', '|'}

  /** The longest sheet name Excel accepts. */
  const MAX_HOJA: nat := 31

  /**
   * `sanitizeSheetName`: forbidden characters removed, trimmed, cut to 31
   * characters, and `fallback` when nothing is left ("Resumen" in this table,
   * "Municipal" in the municipal one).
   */
  function SanitizeSheetName(s: string, fallback: string): (r: string)
    ensures r == fallback || (r != [] && |r| <= MAX_HOJA && forall i :: 0 <= i < |r| ==> r[i] !in HOJA_PROHIBIDOS)
  {
    var removed := RemoveChars(s, HOJA_PROHIBIDOS);
    var cleaned := Trim(removed);
    TrimKeeps(removed, HOJA_PROHIBIDOS);
    if |cleaned| > MAX_HOJA then cleaned[..MAX_HOJA]
    else if cleaned != [] then cleaned
    else fallback
  }

  /** With a valid fallback the sheet name is always valid: 1 to 31 characters, none of them forbidden. */
  lemma HojaValida(s: string, fallback: string)
    requires 0 < |fallback| <= MAX_HOJA && forall i :: 0 <= i < |fallback| ==> fallback[i] !in HOJA_PROHIBIDOS
    ensures var r := SanitizeSheetName(s, fallback);
      0 < |r| <= MAX_HOJA && forall i :: 0 <= i < |r| ==> r[i] !in HOJA_PROHIBIDOS
  {
  }

  /** A sheet name that is already valid and trimmed is kept. */
  lemma {:induction false} HojaValidaSeConserva(s: string, fallback: string)
    requires 0 < |s| <= MAX_HOJA && (forall i :: 0 <= i < |s| ==> s[i] !in HOJA_PROHIBIDOS) && Trim(s) == s
    ensures SanitizeSheetName(s, fallback) == s
  {
    RemoveCharsNone(s, HOJA_PROHIBIDOS);
  }

  /** `sanitizeFileName`: the characters not allowed in file names removed, then trimmed. */
  function SanitizeFileName(s: string): (r: string)
    ensures forall i :: 0 <= i < |r| ==> r[i] !in ARCHIVO_PROHIBIDOS
  {
    var removed := RemoveChars(s, ARCHIVO_PROHIBIDOS);
    TrimKeeps(removed, ARCHIVO_PROHIBIDOS);
    Trim(removed)
  }

  /** The file name neither starts nor ends with whitespace, and sanitising it again changes nothing. */
  lemma {:induction false} SanitizeFileNameIdempotente(s: string)
    ensures var r := SanitizeFileName(s);
      (r == [] || (!IsWhiteSpace(r[0]) && !IsWhiteSpace(r[|r| - 1])))
      && SanitizeFileName(r) == r
  {
    var r := SanitizeFileName(s);
    TrimShape(RemoveChars(s, ARCHIVO_PROHIBIDOS));
    RemoveCharsNone(r, ARCHIVO_PROHIBIDOS);
    TrimIdempotent(RemoveChars(s, ARCHIVO_PROHIBIDOS));
  }

  /** Trimming keeps characters out of a set they were already out of. */
  lemma TrimKeeps(s: string, chars: set<char>)
    requires forall i :: 0 <= i < |s| ==> s[i] !in chars
    ensures forall i :: 0 <= i < |Trim(s)| ==> Trim(s)[i] !in chars
  {
    TrimShape(s);
    var k := |s| - |TrimStart(s)|;
    forall i | 0 <= i < |Trim(s)| ensures Trim(s)[i] !in chars {
      assert Trim(s)[i] == s[k + i];
    }
  }

  /** Removing characters that do not occur changes nothing. */
  lemma {:induction false} RemoveCharsNone(s: string, chars: set<char>)
    requires forall i :: 0 <= i < |s| ==> s[i] !in chars
    ensures RemoveChars(s, chars) == s
  {
    if s != [] {
      RemoveCharsNone(s[1..], chars);
      assert s == [s[0]] + s[1..];
    }
  }

  // ---------------------------------------------------------------------------
  // Rows of the national table
  // ---------------------------------------------------------------------------

  /** A locale collation (`localeCompare` with base sensitivity): negative, zero or positive. */
  type Collation = (string, string) -> real

  /** Swapping the arguments negates the comparison. */
  ghost predicate CollationAntisimetrica(collate: Collation) {
    forall a, b :: collate(a, b) == -collate(b, a)
  }

  /**
   * A table row as `buildRowsFor` makes it; `enf` and `tasa` are None for a
   * population metric (null) and otherwise a finite number or NaN.
   */
  datatype Fila = Fila(id: string, estado: string, pobl: real, enf: Option<Num>, tasa: Option<Num>, esPob: bool)

  /** `Number.isFinite(+v) ? +v : NaN`. */
  function FiniteOrNaN(n: Num): (r: Num)
    ensures r.Finite? || r == NaN
    ensures n.Finite? ==> r == n
  {
    if n.Finite? then n else NaN
  }

  /** The value whose `.trim()` gives the state name: `d.estado || d.Estado || ""`. */
  function EstadoCrudo(d: Record): Value {
    Or([Get(d, "estado"), Get(d, "Estado"), Str("")])
  }

  /**
   * The row `buildRowsFor(metricKey)` makes of record `d`; None when the state
   * name is a truthy non-string, on which `.trim()` throws.
   */
  function FilaDe(d: Record, metricKey: string): (r: Option<Fila>)
    ensures r.Some? <==> EstadoCrudo(d).Str?
    ensures r.Some? ==> r.value.esPob == EsMetricaPoblacion(metricKey)
    ensures r.Some? && r.value.esPob ==> r.value.enf.None? && r.value.tasa.None?
    ensures r.Some? && !r.value.esPob ==>
      r.value.enf == Some(FiniteOrNaN(ToNumber(Get(d, Metricas.CountKey(metricKey)))))
      && r.value.tasa == Some(FiniteOrNaN(ToNumber(Get(d, Metricas.TasaKey(metricKey)))))
  {
    var def := Metricas.Def(metricKey);
    var esPob := EsMetricaPoblacion(metricKey);
    var estado := EstadoCrudo(d);
    if !estado.Str? then None
    else
      var id := Trim(ToString(Or([Get(d, "id"), Get(d, "ID"), Str("")])));
      var p := ToNumber(Get(d, "poblacion"));
      var q := ToNumber(Get(d, "población"));
      var pobl := if p.Finite? then p.r else if q.Finite? then q.r else 0.0;
      var enf := if esPob then None else Some(FiniteOrNaN(ToNumber(Get(d, def.countKey))));
      var tasa := if esPob then None else Some(FiniteOrNaN(ToNumber(Get(d, def.tasaKey))));
      Some(Fila(id, Trim(estado.s), pobl, enf, tasa, esPob))
  }

  /** The population prefers a finite `poblacion`, then a finite `población`, else 0. */
  lemma PoblacionPreferida(d: Record, metricKey: string)
    requires FilaDe(d, metricKey).Some?
    ensures var pobl := FilaDe(d, metricKey).value.pobl;
      var p := ToNumber(Get(d, "poblacion")); var q := ToNumber(Get(d, "población"));
      (p.Finite? ==> pobl == p.r)
      && (!p.Finite? && q.Finite? ==> pobl == q.r)
      && (!p.Finite? && !q.Finite? ==> pobl == 0.0)
  {
  }

  /** An unknown key that is not a population name reads the columns of `tasa_total`. */
  lemma FilaMetricaDesconocida(d: Record, metricKey: string)
    requires metricKey !in Metricas.METRICAS && !EsMetricaPoblacion(metricKey)
    ensures FilaDe(d, metricKey) == FilaDe(d, "tasa_total")
  {
    TasaTotalNoPoblacion();
    assert Metricas.Def(metricKey) == Metricas.Def("tasa_total");
    FilaDeMismaDef(d, metricKey, "tasa_total");
  }

  lemma TasaTotalNoPoblacion()
    ensures !EsMetricaPoblacion("tasa_total")
  {
    CatalogoPoblacion(0);
  }

  /** Two keys with the same definition and the same population test make the same row. */
  lemma FilaDeMismaDef(d: Record, k1: string, k2: string)
    requires Metricas.Def(k1) == Metricas.Def(k2) && EsMetricaPoblacion(k1) == EsMetricaPoblacion(k2)
    ensures FilaDe(d, k1) == FilaDe(d, k2)
  {
  }

  /** `data.map(...)`: None when some record makes the mapping throw. */
  function Filas(data: seq<Record>, metricKey: string): (r: Option<seq<Fila>>)
    ensures r.Some? <==> forall i :: 0 <= i < |data| ==> FilaDe(data[i], metricKey).Some?
    ensures r.Some? ==> (|r.value| == |data|
      && forall i :: 0 <= i < |data| ==> r.value[i] == FilaDe(data[i], metricKey).value)
  {
    if data == [] then Some([])
    else
      match FilaDe(data[0], metricKey)
      case None => None
      case Some(f) =>
        match Filas(data[1..], metricKey)
        case None => None
        case Some(fs) => Some([f] + fs)
  }

  function IdFila(f: Fila): string {
    f.id
  }

  /** The comparator of the state names. */
  function PorEstado(collate: Collation): (Fila, Fila) -> real {
    (a: Fila, b: Fila) => collate(a.estado, b.estado)
  }

  /** `buildRowsFor(metricKey)`: the rows, states sorted by name, then the special rows. */
  function BuildRowsFor(data: seq<Record>, metricKey: string, collate: Collation): (r: Option<seq<Fila>>)
    ensures r.Some? <==> Filas(data, metricKey).Some?
    ensures r.Some? ==> |r.value| == |data| && multiset(r.value) == multiset(Filas(data, metricKey).value)
  {
    match Filas(data, metricKey)
    case None => None
    case Some(fs) =>
      FijarPermutacion(fs, IdFila, PorEstado(collate));
      Some(Fijar(fs, IdFila, PorEstado(collate)))
  }

  /**
   * `buildRowsFor` returns a permutation of the mapped rows: the states first, in
   * name order, then every 34, every 8888 and every 9999 row.
   */
  lemma BuildRowsForOrden(data: seq<Record>, metricKey: string, collate: Collation)
    requires CollationAntisimetrica(collate)
    ensures BuildRowsFor(data, metricKey, collate).Some? <==> Filas(data, metricKey).Some?
    ensures BuildRowsFor(data, metricKey, collate).Some? ==>
      var fs := Filas(data, metricKey).value;
      var r := BuildRowsFor(data, metricKey, collate).value;
      var n := |DeClase(fs, IdFila, 0)|;
      multiset(r) == multiset(fs) && n <= |r|
      && (forall i :: 0 <= i < |r| ==> (i < n <==> PrioridadId(r[i].id) == 0))
      && Agrupada(r, IdFila)
      && SortedBy(r[..n], PorEstado(collate))
  {
    if Filas(data, metricKey).Some? {
      var fs := Filas(data, metricKey).value;
      assert BuildRowsFor(data, metricKey, collate).value == Fijar(fs, IdFila, PorEstado(collate));
      FijarForma(fs, IdFila, PorEstado(collate));
      PorEstadoAntisimetrico(collate, DeClase(fs, IdFila, 0));
      FijarOrdenada(fs, IdFila, PorEstado(collate));
    }
  }

  /** An antisymmetric collation gives an antisymmetric row comparator. */
  lemma PorEstadoAntisimetrico(collate: Collation, xs: seq<Fila>)
    requires CollationAntisimetrica(collate)
    ensures Antisymmetric(PorEstado(collate), xs)
  {
    forall a, b | a in xs && b in xs && PorEstado(collate)(a, b) > 0.0
      ensures PorEstado(collate)(b, a) <= 0.0
    {
      assert collate(a.estado, b.estado) == -collate(b.estado, a.estado);
    }
  }

  // ---------------------------------------------------------------------------
  // The rendered table and its header-click sorting
  // ---------------------------------------------------------------------------

  /** A `<tr>`: its `data-id`, whether it has the `fila-total` class, and the text of its cells. */
  datatype FilaDom = FilaDom(id: string, total: bool, celdas: seq<string>)

  function IdDom(f: FilaDom): string {
    f.id
  }

  /** The text of cell `idx`. */
  function Celda(f: FilaDom, idx: nat): string {
    if idx < |f.celdas| then f.celdas[idx] else ""
  }

  const GUION: string := "—"

  /** How `pintar` renders a row; `fmt` is `toLocaleString("es-MX")`. */
  function Pintada(f: Fila, fmt: real -> string): (r: FilaDom)
    ensures r.id == f.id && r.total == (f.id == "9999") && |r.celdas| == 4
    ensures f.esPob ==> r.celdas[1] == GUION && r.celdas[3] == GUION
    ensures r.celdas[2] == fmt(f.pobl)
  {
    var enf := if f.esPob then GUION else match f.enf case Some(Finite(x)) => fmt(x) case _ => GUION;
    var tasa := if f.esPob then GUION else match f.tasa case Some(Finite(x)) => ToFixed(x, 2) case _ => GUION;
    FilaDom(f.id, f.id == "9999", [if f.estado != "" then f.estado else GUION, enf, fmt(f.pobl), tasa])
  }

  function Pintar(fs: seq<Fila>, fmt: real -> string): (r: seq<FilaDom>)
    ensures |r| == |fs|
    ensures forall i :: 0 <= i < |fs| ==> r[i] == Pintada(fs[i], fmt)
  {
    MapSeq(fs, f => Pintada(f, fmt))
  }

  /** Rendering keeps the ids, so a grouped list of rows renders as a grouped table. */
  lemma PintarAgrupada(fs: seq<Fila>, fmt: real -> string)
    requires Agrupada(fs, IdFila)
    ensures Agrupada(Pintar(fs, fmt), IdDom)
  {
    var r := Pintar(fs, fmt);
    forall i, j | 0 <= i < j < |r| ensures PrioridadId(IdDom(r[i])) <= PrioridadId(IdDom(r[j])) {
      assert IdDom(r[i]) == IdFila(fs[i]) && IdDom(r[j]) == IdFila(fs[j]);
    }
  }

  /** `/^-?\d+(\.\d+)?$/.test(v)`. */
  predicate EsNumero(v: string) {
    var u := if v != [] && v[0] == '-' then v[1..] else v;
    var p := SplitDecimal(u);
    p.ip != [] && p.rest == [] && (|u| == |p.ip| || p.fp != [])
  }

  /** The value of a string of that shape. */
  function ValorNumero(v: string): real
    requires EsNumero(v)
  {
    var u := if v != [] && v[0] == '-' then v[1..] else v;
    var p := SplitDecimal(u);
    var m := Mantissa(p.ip, p.fp);
    if v != [] && v[0] == '-' then -m else m
  }

  /** `parseFloat` reads a string of that shape as its value. */
  lemma NumeroParseFloat(v: string)
    requires EsNumero(v)
    ensures ParseFloat(v) == Finite(ValorNumero(v))
  {
    var u := if v != [] && v[0] == '-' then v[1..] else v;
    var p := SplitDecimal(u);
    NumeroEmpiezaConCifra(v);
    assert TrimStart(v) == v;
    assert !StartsWith(u, "Infinity") by {
      assert u[0] != "Infinity"[0];
    }
    assert v[0] != '+';
    assert |p.ip| + |p.fp| != 0;
    assert ExponentPrefix(p.rest) == 0;
    var m := Mantissa(p.ip, p.fp);
    assert Scale10(m, 0) == m;
    assert ValorNumero(v) == if v[0] == '-' then -m else m;
  }

  /** Such a string starts, after an optional '-', with a digit. */
  lemma NumeroEmpiezaConCifra(v: string)
    requires EsNumero(v)
    ensures v != [] && (v[0] == '-' || IsDigit(v[0]))
    ensures v[0] == '-' ==> |v| > 1 && IsDigit(v[1])
  {
    var u := if v != [] && v[0] == '-' then v[1..] else v;
    var p := SplitDecimal(u);
    assert DigitRun(u) == p.ip && p.ip[0] == u[0];
  }

  /**
   * The header comparator of two trimmed cell texts: numerically when both,
   * stripped to digits, '.' and '-', are numbers, else by collation; negated
   * when descending.
   */
  function CompararCeldas(ta: string, tb: string, asc: bool, collate: Collation): (r: real)
    ensures var na := KeepNumericChars(ta); var nb := KeepNumericChars(tb);
      EsNumero(na) && EsNumero(nb) ==>
        (r < 0.0 <==> if asc then ValorNumero(na) < ValorNumero(nb) else ValorNumero(nb) < ValorNumero(na))
    ensures var na := KeepNumericChars(ta); var nb := KeepNumericChars(tb);
      !(EsNumero(na) && EsNumero(nb)) ==>
        (r < 0.0 <==> if asc then collate(ta, tb) < 0.0 else collate(ta, tb) > 0.0)
  {
    var na := KeepNumericChars(ta);
    var nb := KeepNumericChars(tb);
    if EsNumero(na) && EsNumero(nb) then ConSigno(ValorNumero(na) - ValorNumero(nb), asc)
    else ConSigno(collate(ta, tb), asc)
  }

  /** `x * (asc ? 1 : -1)`: the sign is kept ascending and flipped descending. */
  function ConSigno(x: real, asc: bool): (r: real)
    ensures r < 0.0 <==> if asc then x < 0.0 else x > 0.0
  {
    x * (if asc then 1.0 else -1.0)
  }

  /** Sorting by column `idx` with the new direction `asc`. */
  function PorColumna(idx: nat, asc: bool, collate: Collation): (FilaDom, FilaDom) -> real {
    (a: FilaDom, b: FilaDom) => CompararCeldas(Trim(Celda(a, idx)), Trim(Celda(b, idx)), asc, collate)
  }

  /**
   * Numeric cells compare by the numbers `parseFloat` reads, other cells by
   * collation, and the descending order is the ascending one negated.
   */
  lemma CompararCeldasCasos(ta: string, tb: string, collate: Collation)
    ensures var na := KeepNumericChars(ta); var nb := KeepNumericChars(tb);
      (EsNumero(na) && EsNumero(nb) ==>
        ParseFloat(na).Finite? && ParseFloat(nb).Finite?
        && CompararCeldas(ta, tb, true, collate) == ParseFloat(na).r - ParseFloat(nb).r)
      && (!(EsNumero(na) && EsNumero(nb)) ==> CompararCeldas(ta, tb, true, collate) == collate(ta, tb))
      && CompararCeldas(ta, tb, false, collate) == -CompararCeldas(ta, tb, true, collate)
  {
    var na := KeepNumericChars(ta);
    var nb := KeepNumericChars(tb);
    if EsNumero(na) && EsNumero(nb) {
      NumeroParseFloat(na);
      NumeroParseFloat(nb);
    }
  }

  /** With an antisymmetric collation the header comparator is antisymmetric, so the sorted block is in order. */
  lemma PorColumnaAntisimetrica(idx: nat, asc: bool, collate: Collation, xs: seq<FilaDom>)
    requires CollationAntisimetrica(collate)
    ensures Antisymmetric(PorColumna(idx, asc, collate), xs)
  {
    forall a, b | a in xs && b in xs
      ensures PorColumna(idx, asc, collate)(a, b) == -PorColumna(idx, asc, collate)(b, a)
    {
      var ta, tb := Trim(Celda(a, idx)), Trim(Celda(b, idx));
      assert collate(ta, tb) == -collate(tb, ta);
    }
  }

  /** The arrow shown on the sorted header. */
  function Flecha(asc: bool): string {
    if asc then "▲" else "▼"
  }

  /** The arrows after a click on header `idx` that set direction `asc`: only that header shows one. */
  function Flechas(idx: nat, asc: bool): (r: seq<string>)
    requires idx < 4
    ensures |r| == 4 && r[idx] == Flecha(asc) && r[idx] != ""
    ensures forall j :: 0 <= j < 4 && j != idx ==> r[j] == ""
  {
    seq(4, j => if j == idx then Flecha(asc) else "")
  }

  /** Rows of four cells, grouped by rank. */
  predicate CuerpoValido(filas: seq<FilaDom>) {
    (forall f :: f in filas ==> |f.celdas| == 4) && Agrupada(filas, IdDom)
  }

  /** A painted body is valid: four cells per row, the special rows grouped at the end. */
  lemma PintadoValido(data: seq<Record>, metricKey: string, collate: Collation, fmt: real -> string)
    requires BuildRowsFor(data, metricKey, collate).Some?
    ensures CuerpoValido(Pintar(BuildRowsFor(data, metricKey, collate).value, fmt))
  {
    var fs := Filas(data, metricKey).value;
    FijarForma(fs, IdFila, PorEstado(collate));
    PintarAgrupada(BuildRowsFor(data, metricKey, collate).value, fmt);
  }

  /** Reordering by a column keeps a valid body valid and moves only the state rows. */
  lemma FijarCuerpoValido(filas: seq<FilaDom>, cmp: (FilaDom, FilaDom) -> real)
    requires CuerpoValido(filas)
    ensures var r := Fijar(filas, IdDom, cmp); var n := |DeClase(filas, IdDom, 0)|;
      CuerpoValido(r) && |r| == |filas| && n <= |r|
      && r[n..] == filas[n..] && multiset(r[..n]) == multiset(filas[..n])
  {
    var r := Fijar(filas, IdDom, cmp);
    FijarForma(filas, IdDom, cmp);
    FijarConservaEspeciales(filas, IdDom, cmp);
    forall f | f in r ensures |f.celdas| == 4 {
      assert f in multiset(filas);
    }
  }

  /**
   * What `renderTablaNacional` builds and its header-click handlers update: the
   * body rows, each header's `data-orden` (true for "asc") and each header's arrow.
   */
  class TablaNacional {
    /**
     * Whether the caller got a live table: the host element exists and the first paint did
     * not throw. Only then are the header handlers wired; otherwise `update` and a click
     * change nothing.
     */
    const activa: bool
    /**
     * Whether the first `pintar` threw (a record whose state name is a truthy non-string):
     * `renderTablaNacional` then throws before wiring the headers, so the caller gets no table.
     */
    const lanza: bool
    const data: seq<Record>
    const collate: Collation
    const fmt: real -> string
    var filas: seq<FilaDom>
    var orden: seq<bool>
    var flechas: seq<string>

    /** Four columns, four cells per row, and the special rows at the end in the order 34, 8888, 9999. */
    predicate Valid()
      reads this
    {
      |orden| == 4 && |flechas| == 4 && CuerpoValido(filas)
    }

    /** The body that `pintar(metricKey)` renders, when it does not throw. */
    function Pintado(metricKey: string): Option<seq<FilaDom>>
      reads this
    {
      match BuildRowsFor(data, metricKey, collate)
      case None => None
      case Some(fs) => Some(Pintar(fs, fmt))
    }

    /**
     * `renderTablaNacional({data, metricKey})`: without a host an inert table; otherwise the
     * empty table, then the first `pintar`, which either throws (and nothing else happens)
     * or paints the body, after which every header is set to "asc" without an arrow.
     */
    constructor (hasHost: bool, data: seq<Record>, metricKey: string, collate: Collation, fmt: real -> string)
      ensures Valid()
      ensures this.data == data && this.collate == collate && this.fmt == fmt
      ensures lanza == (hasHost && Pintado(metricKey).None?)
      ensures activa == (hasHost && Pintado(metricKey).Some?)
      ensures orden == [true, true, true, true] && flechas == ["", "", "", ""]
      ensures filas == if activa then Pintado(metricKey).value else []
    {
      var construible := BuildRowsFor(data, metricKey, collate).Some?;
      lanza := hasHost && !construible;
      activa := hasHost && construible;
      this.data := data;
      this.collate := collate;
      this.fmt := fmt;
      orden := [true, true, true, true];
      flechas := ["", "", "", ""];
      filas := [];
      new;
      if activa {
        Pintar1(metricKey);
      }
    }

    /** `update(metricKey)`: repaint with another metric; header state is kept, and a throwing `pintar` leaves the body as it was. */
    method Update(metricKey: string)
      requires Valid()
      modifies this
      ensures Valid()
      ensures orden == old(orden) && flechas == old(flechas)
      ensures filas == if activa && Pintado(metricKey).Some? then Pintado(metricKey).value else old(filas)
    {
      if activa {
        Pintar1(metricKey);
      }
    }

    /** `pintar(metricKey)`. */
    method Pintar1(metricKey: string)
      requires |orden| == 4 && |flechas| == 4
      modifies this
      ensures Valid()
      ensures orden == old(orden) && flechas == old(flechas)
      ensures filas == if Pintado(metricKey).Some? then Pintado(metricKey).value else old(filas)
      ensures Pintado(metricKey).None? ==> filas == old(filas)
      requires Valid() || filas == []
    {
      var rows := BuildRowsFor(data, metricKey, collate);
      if rows.Some? {
        PintadoValido(data, metricKey, collate, fmt);
        filas := Pintar(rows.value, fmt);
      }
    }

    /**
     * A click on header `idx`: its direction flips, only its arrow shows, and the
     * state rows are sorted by that column while the special rows stay where they are.
     */
    method Click(idx: nat)
      requires Valid() && idx < 4
      modifies this
      ensures Valid()
      ensures !activa ==> filas == old(filas) && orden == old(orden) && flechas == old(flechas)
      ensures activa ==>
        orden == old(orden)[idx := !old(orden)[idx]]
        && flechas == Flechas(idx, orden[idx])
        && filas == Fijar(old(filas), IdDom, PorColumna(idx, orden[idx], collate))
      ensures var n := |DeClase(old(filas), IdDom, 0)|;
        |filas| == |old(filas)| && n <= |filas|
        && filas[n..] == old(filas)[n..] && multiset(filas[..n]) == multiset(old(filas)[..n])
    {
      if !activa {
        return;
      }
      var nuevo := !orden[idx];
      orden := orden[idx := nuevo];
      flechas := Flechas(idx, nuevo);
      FijarCuerpoValido(filas, PorColumna(idx, nuevo, collate));
      filas := Fijar(filas, IdDom, PorColumna(idx, nuevo, collate));
    }
  }

  /** After a click the state rows are in the order of the clicked column. */
  lemma ClickOrdena(filas: seq<FilaDom>, idx: nat, asc: bool, collate: Collation)
    requires CollationAntisimetrica(collate)
    ensures var r := Fijar(filas, IdDom, PorColumna(idx, asc, collate));
      SortedBy(r[..|DeClase(filas, IdDom, 0)|], PorColumna(idx, asc, collate))
  {
    PorColumnaAntisimetrica(idx, asc, collate, DeClase(filas, IdDom, 0));
    FijarOrdenada(filas, IdDom, PorColumna(idx, asc, collate));
  }
}

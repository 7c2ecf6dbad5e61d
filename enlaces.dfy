/**
 * Links to the state pages and to the clinic pages: a URL slug of a name, the
 * table of the 32 state pages, and the URL builders that prefer that table (for
 * states) or the CLUES code (for clinics) and fall back to slugs.
 */
module Enlaces {
  import opened Wrappers
  import opened Js
  import opened Ordering

  // ---------------------------------------------------------------------------
  // slugify
  // ---------------------------------------------------------------------------

  /** The characters that `[a-z0-9]` matches. */
  predicate Alnum(c: char) {
    'a' <= c <= 'z' || '0' <= c <= '9'
  }

  predicate SlugChar(c: char) {
    Alnum(c) || c == '-'
  }

  /**
   * A slug: lower-case letters, digits and single hyphens, with no hyphen at
   * either end.
   */
  predicate EsSlug(s: string) {
    (forall i :: 0 <= i < |s| ==> SlugChar(s[i]))
    && (s != [] ==> s[0] != '-' && s[|s| - 1] != '-')
    && (forall i :: 0 <= i < |s| - 1 ==> !(s[i] == '-' && s[i + 1] == '-'))
  }

  /** The rest of `s` after its leading run of characters outside `[a-z0-9]`. */
  function Saltar(s: string): (r: string)
    ensures |r| <= |s| && r == s[|s| - |r|..]
    ensures r == [] || Alnum(r[0])
    ensures forall i :: 0 <= i < |s| - |r| ==> !Alnum(s[i])
  {
    if s != [] && !Alnum(s[0]) then
      var r := Saltar(s[1..]);
      assert forall i :: 1 <= i < |s| - |r| ==> s[i] == s[1..][i - 1];
      r
    else s
  }

  /** `.replace(/[^a-z0-9]+/g, "-")`: every run of other characters becomes one hyphen. */
  function Guiones(s: string): (r: string)
    decreases |s|
    ensures (r == []) == (s == [])
    ensures s != [] ==> r[0] == if Alnum(s[0]) then s[0] else '-'
    ensures forall i :: 0 <= i < |r| ==> SlugChar(r[i])
    ensures forall i :: 0 <= i < |r| - 1 ==> !(r[i] == '-' && r[i + 1] == '-')
  {
    if s == [] then []
    else if Alnum(s[0]) then
      var g := Guiones(s[1..]);
      assert forall i :: 0 < i < |g| + 1 ==> ([s[0]] + g)[i] == g[i - 1];
      [s[0]] + g
    else
      var t := Saltar(s[1..]);
      var g := Guiones(t);
      assert forall i :: 0 < i < |g| + 1 ==> ("-" + g)[i] == g[i - 1];
      "-" + g
  }

  /** The leading hyphens of `s` removed (`^-+`). */
  function SinGuionInicial(s: string): (r: string)
    ensures |r| <= |s| && r == s[|s| - |r|..]
    ensures r == [] || r[0] != '-'
    ensures forall i :: 0 <= i < |s| - |r| ==> s[i] == '-'
  {
    if s != [] && s[0] == '-' then SinGuionInicial(s[1..]) else s
  }

  /** The trailing hyphens of `s` removed (`-+$`). */
  function SinGuionFinal(s: string): (r: string)
    ensures |r| <= |s| && r == s[..|r|]
    ensures r == [] || r[|r| - 1] != '-'
    ensures forall i :: |r| <= i < |s| ==> s[i] == '-'
  {
    if s != [] && s[|s| - 1] == '-' then SinGuionFinal(s[..|s| - 1]) else s
  }

  /** `slugify(s)` for a string with no combining accents (see README). */
  function Slugify(s: string): (r: string)
    ensures EsSlug(r)
  {
    var g := Guiones(ToLower(s));
    var t := SinGuionInicial(g);
    var r := SinGuionFinal(t);
    SlugDeTrozo(g, t, r);
    r
  }

  /** A hyphen-trimmed slice of a hyphenated string is a slug. */
  lemma SlugDeTrozo(g: string, t: string, r: string)
    requires forall i :: 0 <= i < |g| ==> SlugChar(g[i])
    requires forall i :: 0 <= i < |g| - 1 ==> !(g[i] == '-' && g[i + 1] == '-')
    requires |t| <= |g| && t == g[|g| - |t|..] && (t == [] || t[0] != '-')
    requires |r| <= |t| && r == t[..|r|] && (r == [] || r[|r| - 1] != '-')
    ensures EsSlug(r)
  {
    var a := |g| - |t|;
    assert forall i :: 0 <= i < |r| ==> r[i] == g[a + i];
  }

  /** The `[a-z0-9]` characters of `s`, in order. */
  function Alnums(s: string): (r: string)
    ensures forall i :: 0 <= i < |r| ==> Alnum(r[i])
  {
    Filter(s, Alnum)
  }

  lemma {:induction false} SaltarAlnums(s: string)
    ensures Alnums(Saltar(s)) == Alnums(s)
  {
    if s != [] && !Alnum(s[0]) {
      SaltarAlnums(s[1..]);
      assert s == [s[0]] + s[1..];
    }
  }

  lemma {:induction false} GuionesAlnums(s: string)
    decreases |s|
    ensures Alnums(Guiones(s)) == Alnums(s)
  {
    if s != [] {
      assert s == [s[0]] + s[1..];
      if Alnum(s[0]) {
        GuionesAlnums(s[1..]);
        var g := Guiones(s[1..]);
        assert ([s[0]] + g)[1..] == g;
      } else {
        var t := Saltar(s[1..]);
        GuionesAlnums(t);
        SaltarAlnums(s[1..]);
        var g := Guiones(t);
        assert ("-" + g)[1..] == g;
      }
    }
  }

  /** Removing hyphens at either end keeps every letter and digit. */
  lemma RecorteAlnums(s: string)
    ensures Alnums(SinGuionFinal(SinGuionInicial(s))) == Alnums(s)
  {
    var t := SinGuionInicial(s);
    var r := SinGuionFinal(t);
    GuionesDelante(s, |s| - |t|);
    GuionesDetras(t, |r|);
  }

  /** Hyphens in front of position `k` hold no letter or digit. */
  lemma {:induction false} GuionesDelante(s: string, k: nat)
    requires k <= |s| && forall i :: 0 <= i < k ==> s[i] == '-'
    ensures Alnums(s) == Alnums(s[k..])
  {
    if k > 0 {
      var t := s[1..];
      assert !Alnum(s[0]);
      assert Alnums(s) == Alnums(t);
      assert forall i :: 0 <= i < k - 1 ==> t[i] == s[i + 1];
      GuionesDelante(t, k - 1);
      assert t[k - 1..] == s[k..];
    }
  }

  /** Hyphens from position `k` on hold no letter or digit. */
  lemma GuionesDetras(s: string, k: nat)
    requires k <= |s| && forall i :: k <= i < |s| ==> s[i] == '-'
    ensures Alnums(s) == Alnums(s[..k])
  {
    var b := s[k..];
    assert s == s[..k] + b;
    FilterAll(b, Alnum);
    FilterConcat(s[..k], b, Alnum);
    assert Alnums(s[..k]) + [] == Alnums(s[..k]);
  }

  /**
   * `slugify` keeps every lower-cased letter and digit, in order, and adds nothing
   * but hyphens between them.
   */
  lemma SlugifyConserva(s: string)
    ensures Alnums(Slugify(s)) == Alnums(ToLower(s))
  {
    GuionesAlnums(ToLower(s));
    RecorteAlnums(Guiones(ToLower(s)));
  }

  /** A name with no letter or digit has the empty slug, and only such a name does. */
  lemma SlugVacio(s: string)
    ensures Slugify(s) == [] <==> Alnums(ToLower(s)) == []
  {
    SlugifyConserva(s);
    var r := Slugify(s);
    if r != [] {
      assert Alnum(r[0]);
      assert Filter(r, Alnum) == [r[0]] + Filter(r[1..], Alnum);
    }
  }

  /** Slug characters without two hyphens in a row: what `Guiones` produces. */
  predicate GuionesSimples(s: string) {
    (forall i :: 0 <= i < |s| ==> SlugChar(s[i]))
    && (forall i :: 0 <= i < |s| - 1 ==> !(s[i] == '-' && s[i + 1] == '-'))
  }

  lemma GuionesSimplesCola(s: string)
    requires s != [] && GuionesSimples(s)
    ensures GuionesSimples(s[1..])
    ensures SlugChar(s[0])
    ensures s[0] == '-' && |s| > 1 ==> Alnum(s[1])
  {
    var t := s[1..];
    assert forall i :: 0 <= i < |t| ==> t[i] == s[i + 1];
  }

  lemma {:induction false} GuionesFijo(s: string)
    requires GuionesSimples(s)
    ensures Guiones(s) == s
  {
    if s != [] {
      var t := s[1..];
      GuionesSimplesCola(s);
      GuionesFijo(t);
      assert s == [s[0]] + t;
      if !Alnum(s[0]) {
        assert Saltar(t) == t;
      }
    }
  }

  /** `slugify` leaves a slug as it is, so slugifying twice is slugifying once. */
  lemma SlugifyIdempotente(s: string)
    ensures EsSlug(s) ==> Slugify(s) == s
    ensures Slugify(Slugify(s)) == Slugify(s)
  {
    if EsSlug(s) {
      SlugFijo(s);
    }
    SlugFijo(Slugify(s));
  }

  lemma SlugFijo(x: string)
    requires EsSlug(x)
    ensures Slugify(x) == x
  {
    var m := ToLower(x);
    forall i | 0 <= i < |x| ensures m[i] == x[i] {
      assert SlugChar(x[i]);
    }
    assert m == x;
    assert GuionesSimples(x);
    GuionesFijo(x);
    assert SinGuionInicial(x) == x;
    assert SinGuionFinal(x) == x;
  }

  // ---------------------------------------------------------------------------
  // URLs
  // ---------------------------------------------------------------------------

  /** `ENLACES_ENTIDAD`: the page of each of the 32 states, by its official name. */
  const ENLACES_ENTIDAD: map<string, string> := map[
    "Aguascalientes" := "../siarhe-entidades-aguascalientes",
    "Baja California" := "../siarhe-entidades-baja-california",
    "Baja California Sur" := "../siarhe-entidades-baja-california-sur",
    "Campeche" := "../siarhe-entidades-campeche",
    "Chiapas" := "../siarhe-entidades-chiapas",
    "Chihuahua" := "../siarhe-entidades-chihuahua",
    "Ciudad de México" := "../siarhe-entidades-ciudad-de-mexico",
    "Coahuila de Zaragoza" := "../siarhe-entidades-coahuila",
    "Colima" := "../siarhe-entidades-colima",
    "Durango" := "../siarhe-entidades-durango",
    "Estado de México" := "../siarhe-entidades-estado-de-mexico",
    "Guanajuato" := "../siarhe-entidades-guanajuato",
    "Guerrero" := "../siarhe-entidades-guerrero",
    "Hidalgo" := "../siarhe-entidades-hidalgo",
    "Jalisco" := "../siarhe-entidades-jalisco",
    "Michoacán" := "../siarhe-entidades-michoacan",
    "Morelos" := "../siarhe-entidades-morelos",
    "Nayarit" := "../siarhe-entidades-nayarit",
    "Nuevo León" := "../siarhe-entidades-nuevo-leon",
    "Oaxaca" := "../siarhe-entidades-oaxaca",
    "Puebla" := "../siarhe-entidades-puebla",
    "Querétaro" := "../siarhe-entidades-queretaro",
    "Quintana Roo" := "../siarhe-entidades-quintana-roo",
    "San Luis Potosí" := "../siarhe-entidades-san-luis-potosi",
    "Sinaloa" := "../siarhe-entidades-sinaloa",
    "Sonora" := "../siarhe-entidades-sonora",
    "Tabasco" := "../siarhe-entidades-tabasco",
    "Tamaulipas" := "../siarhe-entidades-tamaulipas",
    "Tlaxcala" := "../siarhe-entidades-tlaxcala",
    "Veracruz de Ignacio de la Llave" := "../siarhe-entidades-veracruz",
    "Yucatán" := "../siarhe-entidades-yucatan",
    "Zacatecas" := "../siarhe-entidades-zacatecas"
  ]

  const ENTIDADES_DIR: string := "../entidades/"
  const CLINICAS_DIR: string := "../clinicas"
  const HTML: string := ".html"

  /**
   * `urlEntidad(nombreEntidad)`; `None` stands for a null or undefined name and
   * for the null result.
   */
  function UrlEntidad(nombre: Option<string>): (r: Option<string>)
    ensures r.None? <==> Trim(nombre.GetOr("")) == ""
    ensures var limpio := Trim(nombre.GetOr(""));
      limpio != "" && limpio in ENLACES_ENTIDAD ==> r == Some(ENLACES_ENTIDAD[limpio])
    ensures var limpio := Trim(nombre.GetOr(""));
      limpio != "" && limpio !in ENLACES_ENTIDAD ==> r == Some(ENTIDADES_DIR + Slugify(limpio) + HTML)
  {
    var limpio := Trim(nombre.GetOr(""));
    EnlacesNoVacios();
    if limpio == "" then None
    else if limpio in ENLACES_ENTIDAD && ENLACES_ENTIDAD[limpio] != "" then Some(ENLACES_ENTIDAD[limpio])
    else Some(ENTIDADES_DIR + Slugify(limpio) + HTML)
  }

  /** Every page in the table has a non-empty address. */
  lemma EnlacesNoVacios()
    ensures forall k :: k in ENLACES_ENTIDAD ==> ENLACES_ENTIDAD[k] != ""
  {
    forall k | k in ENLACES_ENTIDAD ensures ENLACES_ENTIDAD[k] != "" {
      assert ENLACES_ENTIDAD[k] in ENLACES_ENTIDAD.Values;
    }
  }

  /** Surrounding whitespace does not change a state's link. */
  lemma UrlEntidadTrim(s: string)
    ensures UrlEntidad(Some(s)) == UrlEntidad(Some(Trim(s)))
  {
    TrimIdempotent(s);
  }

  /**
   * A state outside the table is linked to a page named by a slug: the URL is
   * `../entidades/<slug>.html` and the slug holds the name's letters and digits.
   */
  lemma UrlEntidadFallback(s: string)
    requires Trim(s) != "" && Trim(s) !in ENLACES_ENTIDAD
    ensures exists slug :: (EsSlug(slug) && Alnums(slug) == Alnums(ToLower(Trim(s)))
      && UrlEntidad(Some(s)) == Some(ENTIDADES_DIR + slug + HTML))
  {
    SlugifyConserva(Trim(s));
  }

  /** `(v1 || v2 || "").trim()` over two properties of a record (a non-string is converted to text). */
  function Texto(d: Record, k1: string, k2: string): (r: string)
    ensures Truthy(Get(d, k1)) ==> r == Trim(ToString(Get(d, k1)))
    ensures !Truthy(Get(d, k1)) && Truthy(Get(d, k2)) ==> r == Trim(ToString(Get(d, k2)))
    ensures !Truthy(Get(d, k1)) && !Truthy(Get(d, k2)) ==> r == ""
  {
    Trim(ToString(Or([Get(d, k1), Get(d, k2), Str("")])))
  }

  /** `opts.base || "../clinicas"`. */
  function Base(base: Option<string>): string {
    if base.Some? && base.value != "" then base.value else CLINICAS_DIR
  }

  lemma {:induction false} ToUpperVacio(s: string)
    ensures ToUpper(s) == [] <==> s == []
  {
    if s != [] {
      assert |ToUpperChars(s[0])| > 0;
    }
  }

  /** The CLUES of a clinic as the URL uses it: trimmed and upper-cased. */
  function Clues(d: Record): string {
    ToUpper(Texto(d, "clues", "CLUES"))
  }

  /**
   * `urlClinica(d, {base})`: by CLUES when there is one, otherwise by the slugs of
   * the unit and the state, and null when neither of those is given either.
   */
  function UrlClinica(d: Record, base: Option<string>): (r: Option<string>)
    ensures Texto(d, "clues", "CLUES") != "" ==> r == Some(Base(base) + "/clinica-" + Clues(d) + HTML)
    ensures r.None? <==>
      Texto(d, "clues", "CLUES") == "" && Texto(d, "unidad", "NOMBRE_UNIDAD") == "" && Texto(d, "entidad", "Entidad") == ""
    ensures var unidad, entidad := Texto(d, "unidad", "NOMBRE_UNIDAD"), Texto(d, "entidad", "Entidad");
      Texto(d, "clues", "CLUES") == "" && (unidad != "" || entidad != "") ==>
        r == Some(Base(base) + "/clinica-" + Slugify(unidad) + "-" + Slugify(entidad) + HTML)
  {
    ToUpperVacio(Texto(d, "clues", "CLUES"));
    var clues := Clues(d);
    if clues != "" then Some(Base(base) + "/clinica-" + clues + HTML)
    else
      var unidad := Texto(d, "unidad", "NOMBRE_UNIDAD");
      var entidad := Texto(d, "entidad", "Entidad");
      if unidad == "" && entidad == "" then None
      else Some(Base(base) + "/clinica-" + Slugify(unidad) + "-" + Slugify(entidad) + HTML)
  }

  /** Upper-casing an upper-cased text changes nothing. */
  lemma {:induction false} ToUpperIdempotent(s: string)
    ensures ToUpper(ToUpper(s)) == ToUpper(s)
  {
    if s != [] {
      ToUpperIdempotent(s[1..]);
      var c := ToUpperChars(s[0]);
      ToUpperCharsFijo(s[0]);
      ToUpperConcat(c, ToUpper(s[1..]));
    }
  }

  /** The upper-case form of a character is its own upper-case form. */
  lemma ToUpperCharsFijo(x: char)
    ensures ToUpper(ToUpperChars(x)) == ToUpperChars(x)
  {
    var c := ToUpperChars(x);
    if |c| == 2 {
      assert c == "SS";
      assert ToUpper(c) == ToUpperChars('S') + ToUpper("S");
      assert ToUpper("S") == ToUpperChars('S') + ToUpper([]);
    } else {
      assert ToUpper(c) == ToUpperChars(c[0]) + ToUpper(c[1..]);
      assert c[1..] == [];
    }
  }

  lemma {:induction false} ToUpperConcat(a: string, b: string)
    ensures ToUpper(a + b) == ToUpper(a) + ToUpper(b)
  {
    if a != [] {
      ToUpperConcat(a[1..], b);
      assert (a + b)[1..] == a[1..] + b;
    } else {
      assert a + b == b;
    }
  }

  /** Upper-casing a character that is not whitespace yields no whitespace. */
  lemma ToUpperCharsNoBlank(c: char)
    requires !IsWhiteSpace(c)
    ensures |ToUpperChars(c)| > 0
    ensures forall i :: 0 <= i < |ToUpperChars(c)| ==> !IsWhiteSpace(ToUpperChars(c)[i])
  {
  }

  /** Upper-casing a trimmed text leaves it trimmed. */
  lemma ToUpperTrimmed(s: string)
    requires Trim(s) == s
    ensures Trim(ToUpper(s)) == ToUpper(s)
  {
    if s != [] {
      TrimShape(s);
      var n := |s| - 1;
      ToUpperCharsNoBlank(s[0]);
      ToUpperCharsNoBlank(s[n]);
      assert s == s[..n] + [s[n]];
      ToUpperConcat(s[..n], [s[n]]);
      assert ToUpper([s[n]]) == ToUpperChars(s[n]);
      var u := ToUpper(s);
      assert u[0] == ToUpperChars(s[0])[0];
      assert u[|u| - 1] == ToUpperChars(s[n])[|ToUpperChars(s[n])| - 1];
      assert TrimStart(u) == u;
      assert TrimEnd(u) == u;
    }
  }

  /**
   * The CLUES link does not depend on how the code was cased or padded: a record
   * whose `clues` is already the trimmed upper-cased code links to the same page.
   */
  lemma UrlClinicaCanonica(d: Record, base: Option<string>)
    requires Texto(d, "clues", "CLUES") != ""
    ensures UrlClinica(d["clues" := Str(Clues(d))], base) == UrlClinica(d, base)
  {
    CluesCanonica(d);
  }

  lemma CluesCanonica(d: Record)
    requires Texto(d, "clues", "CLUES") != ""
    ensures var e := d["clues" := Str(Clues(d))];
      Texto(e, "clues", "CLUES") != "" && Clues(e) == Clues(d)
  {
    var t := Texto(d, "clues", "CLUES");
    var c := Clues(d);
    ToUpperVacio(t);
    var e := d["clues" := Str(c)];
    assert Get(e, "clues") == Str(c);
    assert Texto(e, "clues", "CLUES") == Trim(c);
    TrimIdempotent(ToString(Or([Get(d, "clues"), Get(d, "CLUES"), Str("")])));
    ToUpperTrimmed(t);
    ToUpperIdempotent(t);
  }
}

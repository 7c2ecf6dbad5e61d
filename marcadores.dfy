/**
 * The clinic marker layer: one circle per clinic, placed by the map projection, sized
 * inversely to the zoom factor, enlarged while the mouse is over it and coloured by
 * the clinic type.
 */
module Marcadores {
  import opened Wrappers

  const CATETER: string := "CATETER"
  const HERIDAS: string := "HERIDAS"

  /** The colours of a marker type: normal fill, fill under the mouse, outline. */
  datatype Estilo = Estilo(fill: string, hover: string, stroke: string)

  const ESTILO_DEFECTO: Estilo := Estilo("#424242", "#212121", "#000000")

  /** `estiloPorTipo`: the style of a known type, else the grey default. */
  function EstiloPorTipo(tipo: string): (r: Estilo)
    ensures tipo != CATETER && tipo != HERIDAS ==> r == ESTILO_DEFECTO
    ensures tipo == CATETER ==> r.fill == "#00695c"
    ensures tipo == HERIDAS ==> r.fill == "#c2185b"
  {
    if tipo == CATETER then Estilo("#00695c", "#004d40", "#00332c")
    else if tipo == HERIDAS then Estilo("#c2185b", "#880e4f", "#5c102f")
    else ESTILO_DEFECTO
  }

  /** `nombreTipoMarcador`: the readable name of a known type, else the type itself. */
  function NombreTipoMarcador(tipo: string): (r: string)
    ensures tipo != CATETER && tipo != HERIDAS ==> r == tipo
    ensures tipo == CATETER || tipo == HERIDAS ==> r != tipo
  {
    if tipo == CATETER then "Clínicas de catéteres"
    else if tipo == HERIDAS then "Clínicas de heridas"
    else tipo
  }

  /** Every type has a style of three colours; the two known types differ from each other and from the default. */
  lemma EstilosDistintos(tipo: string)
    ensures EstiloPorTipo(CATETER) != EstiloPorTipo(HERIDAS)
    ensures EstiloPorTipo(tipo) == ESTILO_DEFECTO <==> tipo != CATETER && tipo != HERIDAS
  {
  }

  /** A clinic to mark, at longitude `lon` and latitude `lat`. */
  datatype Punto = Punto(lon: real, lat: real)

  /** The map projection: screen x and y of a longitude and latitude. */
  type Projection = (real, real) -> (real, real)

  /** The drawn state of one circle. */
  datatype Mark = Mark(cx: real, cy: real, r: real, fill: string, stroke: string, strokeWidth: real, hover: bool)

  /** A length `base` on screen at zoom `k`, enlarged by 1.35 under the mouse. */
  function Escalado(base: real, hover: bool, k: real): real
    requires k > 0.0
  {
    base * (if hover then 1.35 else 1.0) / k
  }

  /** Doubling the zoom halves every radius and outline width. */
  lemma EscaladoInverso(base: real, hover: bool, k: real)
    requires k > 0.0
    ensures Escalado(base, hover, 2.0 * k) == Escalado(base, hover, k) / 2.0
    ensures Escalado(base, hover, 1.0) == if hover then base * 1.35 else base
  {
  }

  /** A circle freshly drawn for `p`: at its projection, not hovered, sized for zoom 1. */
  function NewMark(p: Punto, proj: Projection, estilo: Estilo, radioBase: real, strokeBase: real): Mark {
    var xy := proj(p.lon, p.lat);
    Mark(xy.0, xy.1, Escalado(radioBase, false, 1.0), estilo.fill, estilo.stroke, Escalado(strokeBase, false, 1.0), false)
  }

  /**
   * What `pintarMarcadores` returns. When its group, projection or point list is
   * missing nothing is drawn and the returned `updateZoom` and `recolor` do nothing.
   */
  class MarkerLayer {
    /** Whether anything was drawn; when not, the selection is null. */
    const drawn: bool
    const radioBase: real
    const strokeBase: real
    const marks: array<Mark>
    /** `kActual`, the current zoom factor. */
    var k: real
    var tipo: string

    /** Every circle's size matches its hover flag at the current zoom, and its outline the current type. */
    predicate Valid()
      reads this, marks
    {
      k > 0.0
      && (!drawn ==> marks.Length == 0)
      && forall i :: 0 <= i < marks.Length ==>
        marks[i].r == Escalado(radioBase, marks[i].hover, k)
        && marks[i].strokeWidth == Escalado(strokeBase, marks[i].hover, k)
        && marks[i].stroke == EstiloPorTipo(tipo).stroke
    }

    /** `pintarMarcadores(g, puntos, projection, {tipo, radioBase, strokeBase})`. */
    constructor (hasGroup: bool, projection: Option<Projection>, puntos: Option<seq<Punto>>,
                 tipo: string, radioBase: real, strokeBase: real)
      ensures Valid() && fresh(marks)
      ensures drawn <==> hasGroup && projection.Some? && puntos.Some?
      ensures this.k == 1.0 && this.tipo == tipo
      ensures this.radioBase == radioBase && this.strokeBase == strokeBase
      ensures drawn ==> (marks.Length == |puntos.value|
        && forall i :: 0 <= i < marks.Length ==>
          marks[i] == NewMark(puntos.value[i], projection.value, EstiloPorTipo(tipo), radioBase, strokeBase))
    {
      var ok := hasGroup && projection.Some? && puntos.Some?;
      drawn := ok;
      this.radioBase := radioBase;
      this.strokeBase := strokeBase;
      this.k := 1.0;
      this.tipo := tipo;
      if ok {
        var pts := puntos.value;
        var estilo := EstiloPorTipo(tipo);
        marks := new Mark[|pts|](i requires 0 <= i < |pts| =>
          NewMark(pts[i], projection.value, estilo, radioBase, strokeBase));
      } else {
        marks := new Mark[0];
      }
    }

    /** `updateZoom(k)`: record the zoom and resize every circle; nothing else changes. */
    method UpdateZoom(k: real)
      requires Valid() && k > 0.0
      modifies this, marks
      ensures Valid()
      ensures tipo == old(tipo)
      ensures drawn ==> this.k == k
      ensures !drawn ==> this.k == old(this.k)
      ensures forall i :: 0 <= i < marks.Length ==>
        marks[i] == old(marks[i]).(r := Escalado(radioBase, old(marks[i]).hover, this.k),
                                   strokeWidth := Escalado(strokeBase, old(marks[i]).hover, this.k))
    {
      if !drawn {
        return;
      }
      this.k := k;
      for i := 0 to marks.Length
        invariant this.k == k && tipo == old(tipo)
        invariant forall j :: 0 <= j < i ==>
          marks[j] == old(marks[j]).(r := Escalado(radioBase, old(marks[j]).hover, k),
                                     strokeWidth := Escalado(strokeBase, old(marks[j]).hover, k))
        invariant forall j :: i <= j < marks.Length ==> marks[j] == old(marks[j])
      {
        var m := marks[i];
        marks[i] := m.(r := Escalado(radioBase, m.hover, k), strokeWidth := Escalado(strokeBase, m.hover, k));
      }
    }

    /** `recolor(t)`: every circle takes the fill and outline of type `t`; sizes and hover flags stay. */
    method Recolor(t: string)
      requires Valid()
      modifies this, marks
      ensures Valid()
      ensures k == old(k)
      ensures drawn ==> tipo == t
      ensures !drawn ==> tipo == old(tipo)
      ensures forall i :: 0 <= i < marks.Length ==>
        marks[i] == old(marks[i]).(fill := EstiloPorTipo(t).fill, stroke := EstiloPorTipo(t).stroke)
    {
      if !drawn {
        return;
      }
      tipo := t;
      var estilo := EstiloPorTipo(t);
      for i := 0 to marks.Length
        invariant tipo == t && k == old(k)
        invariant forall j :: 0 <= j < i ==>
          marks[j] == old(marks[j]).(fill := estilo.fill, stroke := estilo.stroke)
        invariant forall j :: i <= j < marks.Length ==> marks[j] == old(marks[j])
      {
        marks[i] := marks[i].(fill := estilo.fill, stroke := estilo.stroke);
      }
    }

    /** mouseover on circle `i`: it is hovered, takes the hover fill and grows; no other circle changes. */
    method MouseOver(i: nat)
      requires Valid() && i < marks.Length
      modifies marks
      ensures Valid()
      ensures marks[i] == old(marks[i]).(hover := true, fill := EstiloPorTipo(tipo).hover,
                                         r := Escalado(radioBase, true, k), strokeWidth := Escalado(strokeBase, true, k))
      ensures forall j :: 0 <= j < marks.Length && j != i ==> marks[j] == old(marks[j])
    {
      var m := marks[i];
      marks[i] := m.(hover := true, fill := EstiloPorTipo(tipo).hover,
                     r := Escalado(radioBase, true, k), strokeWidth := Escalado(strokeBase, true, k));
    }

    /** mouseout on circle `i`: it is no longer hovered, takes the base fill back and shrinks. */
    method MouseOut(i: nat)
      requires Valid() && i < marks.Length
      modifies marks
      ensures Valid()
      ensures marks[i] == old(marks[i]).(hover := false, fill := EstiloPorTipo(tipo).fill,
                                         r := Escalado(radioBase, false, k), strokeWidth := Escalado(strokeBase, false, k))
      ensures forall j :: 0 <= j < marks.Length && j != i ==> marks[j] == old(marks[j])
    {
      var m := marks[i];
      marks[i] := m.(hover := false, fill := EstiloPorTipo(tipo).fill,
                     r := Escalado(radioBase, false, k), strokeWidth := Escalado(strokeBase, false, k));
    }
  }

  /**
   * On a valid layer, a circle that is not hovered and shows its type's fill grows
   * under the mouse (for a positive base radius), and `MouseOver` followed by
   * `MouseOut` gives it back exactly: its size comes from the layer's invariant, not
   * from the caller.
   */
  lemma HoverRoundTrip(layer: MarkerLayer, i: nat)
    requires layer.Valid() && i < layer.marks.Length
    requires !layer.marks[i].hover && layer.marks[i].fill == EstiloPorTipo(layer.tipo).fill
    ensures var m := layer.marks[i]; var e := EstiloPorTipo(layer.tipo); var k := layer.k;
      var over := m.(hover := true, fill := e.hover, r := Escalado(layer.radioBase, true, k),
                     strokeWidth := Escalado(layer.strokeBase, true, k));
      (over.r > m.r || layer.radioBase <= 0.0)
      && over.(hover := false, fill := e.fill, r := Escalado(layer.radioBase, false, k),
               strokeWidth := Escalado(layer.strokeBase, false, k)) == m
  {
  }
}

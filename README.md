# SIARHE nursing-workforce maps, modelled in Dafny

SIARHE is a WordPress plugin that publishes the distribution of Mexico's nursing
workforce. It draws choropleth maps of the states and municipalities, places markers
for specialised clinics (catheter and wound clinics), and shows sortable tables under
the maps. The data comes from CSV files. Each row is a state or a municipality, with
its population, the number of nurses and the nurse rate per thousand inhabitants,
overall and per level of care or setting. A few special rows are also present: id 34
("working abroad"), 8888 ("not available") and 9999 (the national total).

This project models the plugin's data pipeline and its stateful widgets:

- `Metricas`: the metric catalogue, its order and its fallbacks.
- `Normalizacion`: how national and state CSV rows are normalised to one wide schema.
- `ConfigMapa`: the map titles, the value selection, the quartile colour domain with
  its optional percentile cap, the legend steps, the legend heading and the two-line
  citation wrapper.
- `RepublicaMexicana`: the national map. This covers the national total, the count of
  federal entities, the name→row dictionary, the fill rule and the map as an object
  whose fills are repainted per metric.
- `Marcadores` and `MarcadoresConfig`: clinic marker styles, the marker layer as an
  object (zoom, recolour, hover), the clinic row normaliser and the filter on located
  clinics.
- `Tablas`: the national table. This covers the row builder, the stable order with the
  special rows pinned at the end, the cells, sorting by a clicked column, and the
  sheet and file name sanitisers.
- `TablaMunicipios`: the municipal table. This covers its own normaliser, its default
  order (8888 and 9999 last), its cells, sorting by a clicked column with 8888/9999
  kept at the end, and the placement of non-numeric cells.
- `Tooltip`: the tooltip's data picker and formatters.
- `Enlaces`: the slug builder and the state and clinic URLs.
- `CorePhp`: the PHP helper that resolves the year shown by a shortcode.

Support modules:

- `Js` models the JavaScript built-ins the code relies on: `String()`, unary `+`,
  `trim`, `toFixed`, `padStart`, `toLowerCase` and `toUpperCase` on ASCII and Latin-1 letters,
  `||`, `??` and friends.
- `Ordering` holds a stable insertion sort, `filter`, and `Dedup`, the de-duplication
  that keeps the first occurrence of each value, on which the legend steps rely.
- `Wrappers` holds `Option`.

Numbers are modelled as `Num`, which is `Finite(real) | NaN | Infinity`.

Objects whose fields the code changes in place become classes:

- `MapaNacional`: the current metric and the fills of the state paths.
- `MarkerLayer`: the zoom factor, the marker type and the circles.
- `TablaNacional` and `TablaMunicipal`: the body rows and each header's direction and
  arrow.

The rest is functions and lemmas.

Parameters stand in for what the model cannot evaluate:

- Locale collation (`Intl.Collator`, `localeCompare`) is a parameter `collate`,
  assumed antisymmetric where an order is claimed.
- `toLocaleString("es-MX")` is a parameter `fmt`.
- The key order of `Object.keys` is a parameter `claves`.
- The presence of DOM elements is a boolean parameter.

## Model

| member | source | states |
|---|---|---|
| Metricas.Def | assets/js/utils/metricas.js:34 | a catalogued key gets its own definition; any other key gets the `tasa_total` definition |
| Metricas.MetricLabel | assets/js/utils/metricas.js:37 | the catalogue's label of a known key; "Tasa total" for any other key |
| Metricas.TasaKey | assets/js/utils/metricas.js:38 | a catalogued metric reads the column named after itself; any other key reads `tasa_total` |
| Metricas.CountKey | assets/js/utils/metricas.js:39 | the catalogue's count column of a known key; `enfermeras_total` for any other key |
| Metricas.MetricPalette | assets/js/utils/metricas.js:40 | "poblacion" for the population metric and "tasas" for every other key, known or not |
| Metricas.KnownKeys | assets/js/utils/metricas.js:35 | keeps exactly the listed keys that are in the catalogue, never more than were listed |
| Metricas.MetricOptions | assets/js/utils/metricas.js:36 | one option per metric key, in order, whose value is the key and whose text is the metric's label |
| Metricas.MetricKeysAreOrder | assets/js/utils/metricas.js:19-35 | `metricKeys()` is `METRIC_ORDER`: the ten catalogue keys, `tasa_total` first and `poblacion` second |
| Metricas.TasaKeyIsOwnKey | assets/js/utils/metricas.js:6-17 | every catalogued metric's rate column is the metric's own key |
| Metricas.RateMetricShape | assets/js/utils/metricas.js:7-15 | for every level, `tasa_<level>` is catalogued and its count column is `enfermeras_<level>` |
| Metricas.CareLevelShape | assets/js/utils/metricas.js:8-10 | the three levels of care are catalogued with matching count columns |
| Metricas.SettingShape | assets/js/utils/metricas.js:11-12 | the support-facility and school settings are catalogued with matching count columns |
| Metricas.AdministrativeShape | assets/js/utils/metricas.js:13 | administrative areas are catalogued with a matching count column |
| Metricas.NotApplicableShape | assets/js/utils/metricas.js:14 | "no aplica" records are catalogued with a matching count column |
| Metricas.UnassignedShape | assets/js/utils/metricas.js:15 | "no asignado" records are catalogued with a matching count column |
| Metricas.PaletteByKind | assets/js/utils/metricas.js:7-16 | the palette is "poblacion" exactly for the population metric and "tasas" for every rate |
| Metricas.PopulationShape | assets/js/utils/metricas.js:16 | population is its own rate and count column and has the population palette |
| Metricas.UnknownKeyFallsBack | assets/js/utils/metricas.js:33-41 | an unknown key gets the total rate's label, columns and palette and is not population |
| Normalizacion.Pick | assets/js/utils/normalizacion.js:14-19 | the value of the first alias that is neither nullish nor ""; undefined exactly when no alias has one |
| Normalizacion.ToNum | assets/js/utils/normalizacion.js:7-10 | the default for null or undefined; otherwise either the default or the number read from the input: a finite number itself, or the lenient parse of a text |
| Normalizacion.ToNumNullish | assets/js/utils/normalizacion.js:7-10 | null, undefined, NaN and infinite inputs give the default |
| Normalizacion.ToNumNumber | assets/js/utils/normalizacion.js:9-10 | a finite number is returned unchanged |
| Normalizacion.ToNumIgnoresWhiteSpace | assets/js/utils/normalizacion.js:9 | two texts that differ only in white space parse alike |
| Normalizacion.ToNumDecimalComma | assets/js/utils/normalizacion.js:9 | "ip,fp" parses as the decimal ip.fp |
| Normalizacion.ToNumSecondComma | assets/js/utils/normalizacion.js:9 | only the first comma is replaced, so "a,b,c" falls back to the default |
| Normalizacion.EscribirNiveles | assets/js/utils/normalizacion.js:51-56 | the loop writes `enfermeras_k` and `tasa_k` for every base and extra level, which is `WithLevels` |
| Normalizacion.NormalizarFilaNacional | assets/js/utils/normalizacion.js:24-59 | the national row normaliser computes `Row(d, extras, false)`, whose content the Row lemmas state |
| Normalizacion.NormalizarFilaEntidad | assets/js/utils/normalizacion.js:64-101 | the state row normaliser computes `Row(d, extras, true)` |
| Normalizacion.NormalizarDataset | assets/js/utils/normalizacion.js:106-109 | one normalised row per input row, in order, with the municipal normaliser exactly for scope "entidad" |
| Normalizacion.RowKeys | assets/js/utils/normalizacion.js:25-56 | the output keys are the input keys, the fixed columns and the level columns; every other column is copied unchanged |
| Normalizacion.RowLevels | assets/js/utils/normalizacion.js:51-56 | each level's nurse and rate columns hold the lenient number of the input column, default 0 |
| Normalizacion.RowPopulationAndIds | assets/js/utils/normalizacion.js:28-33 | both population spellings hold the same number (accented alias first); id and state are the trimmed first present alias |
| Normalizacion.RowTotals | assets/js/utils/normalizacion.js:36-37 | the totals take `enfermeras_total`/`tasa_total`, else the legacy `enfermeras`/`tasa` |
| Normalizacion.RowMunicipio | assets/js/utils/normalizacion.js:70-71 | the municipal key is a string padded to at least three characters; the municipality is the trimmed first alias |
| Normalizacion.RowIdempotent | assets/js/utils/normalizacion.js:24-101 | normalising a normalised row changes nothing, for rows whose primary aliases are not blank |
| Normalizacion.BlankIdNotIdempotent | assets/js/utils/normalizacion.js:28 | a blank `id` next to `ID` "07" becomes "" on the first pass and "07" on the second |
| ConfigMapa.ConstruirTitulo | assets/js/utils/config-mapa.js:263-281 | the title is longer than its place and year suffix |
| ConfigMapa.ConstruirTituloClinicas | assets/js/utils/config-mapa.js:420-446 | the clinic title is longer than its place and year suffix |
| ConfigMapa.TitleKeysAreMetrics | assets/js/utils/config-mapa.js:266-279 | both title tables have an entry exactly for the catalogued metrics |
| ConfigMapa.TituloPlace | assets/js/utils/config-mapa.js:263-281 | every title ends with " <place> (<year>)" |
| ConfigMapa.LugarNacional | assets/js/utils/config-mapa.js:264 | no state, or an empty one, means "en México" |
| ConfigMapa.TituloGenerico | assets/js/utils/config-mapa.js:280 | a metric the title table does not know gets "Distribución de enfermería <place> <year>" |
| ConfigMapa.TituloClinicasRate | assets/js/utils/config-mapa.js:268-274 | a rate title and its clinic variant share the level phrase, place and year |
| ConfigMapa.Values | assets/js/utils/config-mapa.js:462-468 | at most one value per row; every rate value is positive |
| ConfigMapa.ValuesForMetric | assets/js/utils/config-mapa.js:451-469 | values exist exactly for catalogued metrics (an unknown key throws) |
| ConfigMapa.ValuesAppend | assets/js/utils/config-mapa.js:462-466 | the values of concatenated rows are the concatenated values |
| ConfigMapa.ValuesMember | assets/js/utils/config-mapa.js:462-468 | a value is selected exactly when some row yields it |
| ConfigMapa.ExcludedRowIgnored | assets/js/utils/config-mapa.js:463 | a row whose id is excluded contributes nothing |
| ConfigMapa.Ascending | assets/js/utils/config-mapa.js:472 | the numeric sort is an ascending permutation |
| ConfigMapa.QuantileSorted | assets/js/utils/config-mapa.js:476-478 | a quantile exists exactly for non-empty input |
| ConfigMapa.QuantileBounds | assets/js/utils/config-mapa.js:476-478 | a quantile of sorted values lies between their first and last |
| ConfigMapa.FiniteValues | assets/js/utils/config-mapa.js:472 | keeps exactly the finite values |
| ConfigMapa.Separate | assets/js/utils/config-mapa.js:480-484 | the bumped quartiles are strictly increasing, keep the minimum, and keep a first quartile already above it |
| ConfigMapa.ComputeQuartiles | assets/js/utils/config-mapa.js:471-487 | the method returns the quartile stats of the finite values, strictly increasing |
| ConfigMapa.QuartilesCover | assets/js/utils/config-mapa.js:471-487 | no finite value gives 0,1,2,3,4; otherwise min is a finite input and every finite input lies within min..max |
| ConfigMapa.QuartilesUntied | assets/js/utils/config-mapa.js:476-484 | already increasing quartiles are not bumped |
| ConfigMapa.QuartilesOfIncreasing | assets/js/utils/config-mapa.js:480-484 | the quartile domain is always strictly increasing |
| ConfigMapa.LegendSteps | assets/js/utils/config-mapa.js:497-507 | the loop computes the rounded, de-duplicated steps `Steps` |
| ConfigMapa.StepsShape | assets/js/utils/config-mapa.js:497-507 | one to five distinct steps, the first being the rounded minimum, each a rounded domain point |
| ConfigMapa.StepsGrid | assets/js/utils/config-mapa.js:503 | population steps are whole; rate steps have at most two decimals |
| ConfigMapa.StepsAscending | assets/js/utils/config-mapa.js:497-507 | the steps of an increasing domain are strictly ascending |
| ConfigMapa.CapAsWritten | assets/js/utils/config-mapa.js:540-544 | the cap only lowers the maximum |
| ConfigMapa.Cap | assets/js/utils/config-mapa.js:540-544 | the cap only lowers the maximum and keeps an increasing domain increasing |
| ConfigMapa.CapApplies | assets/js/utils/config-mapa.js:540-544 | the corrected cap takes the percentile when it lies strictly between q3 and the maximum |
| ConfigMapa.CapAsWrittenBreaksDomain | assets/js/utils/config-mapa.js:540-545 | with five spread values and a 0.5 cap, the maximum drops to the median and the domain is no longer increasing |
| ConfigMapa.CapKeepsDomain | assets/js/utils/config-mapa.js:540-545 | the corrected cap leaves that domain as the five values |
| ConfigMapa.CapCoincide | assets/js/utils/config-mapa.js:540-544 | the cap as written and the corrected cap agree unless the written one lowers the maximum to q3 or below |
| ConfigMapa.DomainValues | assets/js/utils/config-mapa.js:533-546 | the domain always has five points (built with the corrected cap) |
| ConfigMapa.DomainChoice | assets/js/utils/config-mapa.js:533-546 | a five-point fixed domain is used sorted; otherwise the increasing quartile domain with only the top lowered (corrected cap) |
| ConfigMapa.PrepararEscalaYLeyenda | assets/js/utils/config-mapa.js:512-578 | a scale and legend exist exactly for catalogued metrics |
| ConfigMapa.LegendMatchesScale | assets/js/utils/config-mapa.js:549-577 | the scale's domain, the legend's ends, steps, colours and title agree with each other and with the options; a population legend has no swatches and every other legend exactly the "0.00" zero swatch and the "s/d" no-data swatch |
| ConfigMapa.LegendCategory | assets/js/utils/config-mapa.js:122 | the legend category is never empty |
| ConfigMapa.LegendHeading | assets/js/utils/config-mapa.js:80-135 | a title naming population gets one heading line; any other gets "Tasa" over a category |
| ConfigMapa.CategoryOfTasaTitle | assets/js/utils/config-mapa.js:122 | "Tasa <texto>" gives the trimmed text, or "total" when blank |
| ConfigMapa.CategoryOfOtherTitle | assets/js/utils/config-mapa.js:122 | a title not starting with "tasa" gives itself trimmed, or "total" when blank |
| ConfigMapa.SplitWhiteSpace | assets/js/utils/config-mapa.js:301 | at least one word and no word holds white space |
| ConfigMapa.Break | assets/js/utils/config-mapa.js:305-312 | the first word that would push line one past the limit, and no earlier one |
| ConfigMapa.WrapDosLineas | assets/js/utils/config-mapa.js:300-320 | the loop computes `Wrapped`: the words before the first overflow, then all the rest |
| ConfigMapa.WrappedShape | assets/js/utils/config-mapa.js:300-320 | at most two lines, the first within the limit |
| RepublicaMexicana.IdsEntidades | assets/js/maps/republica-mexicana.js:61-63 | 32 distinct two-digit ids, "01" to "32" |
| RepublicaMexicana.PrimerIndice | assets/js/maps/republica-mexicana.js:105 | the first position holding the value, or none when it is absent |
| RepublicaMexicana.TotalDeFila | assets/js/maps/republica-mexicana.js:107 | the row's nurse count (`enfermeras_total`, else `enfermeras`), except that NaN becomes 0 |
| RepublicaMexicana.TotalNacional | assets/js/maps/republica-mexicana.js:105-108 | 0 without a 9999 row, else the total of the first 9999 row; never NaN |
| RepublicaMexicana.TotalNacionalFirstRow | assets/js/maps/republica-mexicana.js:105 | rows before the first 9999 row and rows after it do not change the total |
| RepublicaMexicana.NombresUnicos | assets/js/maps/republica-mexicana.js:116-120 | the set of unique names never holds "" |
| RepublicaMexicana.NombresUnicosMembers | assets/js/maps/republica-mexicana.js:116-120 | fails exactly on a feature without properties; otherwise holds exactly the non-empty names |
| RepublicaMexicana.ContarEntidadesFederativas | assets/js/maps/republica-mexicana.js:114-126 | the count is always between 20 and 40 |
| RepublicaMexicana.ConteoEntidades | assets/js/maps/republica-mexicana.js:114-126 | the unique names are counted when 20..40, else 32, including for missing geometry |
| RepublicaMexicana.UltimaFila | assets/js/maps/republica-mexicana.js:140-144 | the last row carrying the name, with none after it |
| RepublicaMexicana.DataByEstado | assets/js/maps/republica-mexicana.js:139-144 | fails exactly when the first truthy name field of some row is not text (where the loop throws); never holds the empty name |
| RepublicaMexicana.DiccionarioLastWins | assets/js/maps/republica-mexicana.js:139-144 | names map to their last row, blank names are skipped, and a row without a name field fails |
| RepublicaMexicana.BuildDataByEstado | assets/js/maps/republica-mexicana.js:139-144 | the loop builds the dictionary `DataByEstado` |
| RepublicaMexicana.Relleno | assets/js/maps/republica-mexicana.js:239-247 | a flat fill is the no-data grey or the zero colour; a scaled fill applies the given scale to the record's finite value |
| RepublicaMexicana.ReglasRelleno | assets/js/maps/republica-mexicana.js:239-247 | grey "s/d" exactly without a finite value, zero colour exactly for a non-positive rate, else the scale colour |
| RepublicaMexicana.MetricaInicialIndefinida | assets/js/maps/republica-mexicana.js:68 | the initial metric as written is undefined and no scale can be prepared for it |
| RepublicaMexicana.MetricaInicialPintable | assets/js/maps/republica-mexicana.js:68 | the corrected initial metric `tasa_total` is catalogued and preparable |
| RepublicaMexicana.Paleta | assets/js/maps/republica-mexicana.js:84-86 | the corrected `getPalette`: five colours, the green ramp exactly for population and the rate ramp otherwise |
| RepublicaMexicana.PaletaAsWritten | assets/js/maps/republica-mexicana.js:84-86 | as written `getPalette` returns the palette name, "poblacion" or "tasas", and never a colour list |
| RepublicaMexicana.RepintadoLanza | assets/js/maps/republica-mexicana.js:225-235 | as written the repaint reads the property "[object Object]" of the text `tasaKey(metricKey)` and throws, for every metric |
| RepublicaMexicana.MapaNacional.constructor | assets/js/maps/republica-mexicana.js:136-162 | the map starts on the initial metric with every state painted "s/d" |
| RepublicaMexicana.MapaNacional.ActualizarMapaPorMetrica | assets/js/maps/republica-mexicana.js:219-251 | the metric becomes current; for a catalogued metric the scale is prepared and every state gets its fill rule colour |
| RepublicaMexicana.MapaNacional.ActualizarMapaPorMetricaAsWritten | assets/js/maps/republica-mexicana.js:219-235 | as written the metric becomes current and the call throws: scale, legend and fills stay as they were |
| RepublicaMexicana.MapaNacional.Repintar | assets/js/maps/republica-mexicana.js:237-247 | the loop paints every state with the fill rule |
| RepublicaMexicana.CargarMapa | assets/js/maps/republica-mexicana.js:136-162 | the map exists exactly when the dictionary can be built over the normalised rows, which it then holds |
| RepublicaMexicana.PaintMatchesLegend | assets/js/maps/republica-mexicana.js:225-247 | a scaled fill uses the legend's domain ends and the metric's palette |
| RepublicaMexicana.TablaAsWrittenVacia | assets/js/maps/republica-mexicana.js:282-290 | as written the options are read from the mount element, so the table is built from no rows on `tasa_total` |
| RepublicaMexicana.TablaCorregida | assets/js/maps/republica-mexicana.js:282-290 | with the options passed as the argument, for any CSV of text rows the table of the normalised dataset is built on the current metric with one row per CSV row, so it is not empty when the CSV is not |
| RepublicaMexicana.TooltipEstadoAsWritten | assets/js/maps/republica-mexicana.js:168-175 | as written the tooltip gets no record and no metric: rate, count and population are NaN and the rate reads "Sin datos" |
| RepublicaMexicana.TooltipEstadoCorregido | assets/js/maps/republica-mexicana.js:168-175 | with the record and the metric passed, the population metric shows the population and a rate metric the record's own rate, "Sin datos" only when that column is not a finite number |
| RepublicaMexicana.TituloPngAsWritten | assets/js/maps/republica-mexicana.js:389-413 | as written the export title is looked up under "[object Object]", which the title table lacks, so it is the generic national title of 2025 |
| RepublicaMexicana.TituloPngCorregido | assets/js/maps/republica-mexicana.js:389-413 | with the metric and the year passed, a catalogued metric gets its own title in Mexico with the page's year |
| MarcadoresConfig.RutasMarcadores | assets/js/utils/marcadores.config.js:9-16 | routes exist exactly for the two marker types, under the clinics data folder |
| MarcadoresConfig.FirstFilledIsFirst | assets/js/utils/marcadores.config.js:25-36 | `a \|\| b \|\| ""` yields the first non-empty alias, and "" exactly when all are empty |
| MarcadoresConfig.Codigo | assets/js/utils/marcadores.config.js:28-32 | a code is padded to its width and a long-enough code is kept |
| MarcadoresConfig.Coordenada | assets/js/utils/marcadores.config.js:35-36 | the corrected coordinate of a blank cell is NaN |
| MarcadoresConfig.NormalizarClinicaRowAsWritten | assets/js/utils/marcadores.config.js:23-40 | keeps the type and pads the state, municipality and locality codes to 2, 3 and 4 |
| MarcadoresConfig.NormalizarClinicaRow | assets/js/utils/marcadores.config.js:23-40 | as written, except that blank coordinates become NaN |
| MarcadoresConfig.Normalizadas | assets/js/maps/republica-mexicana.js:308-309 | each raw row is normalised in order |
| MarcadoresConfig.NormalizadasAsWritten | assets/js/maps/republica-mexicana.js:308-309 | each raw row is normalised in order by the normaliser as written |
| MarcadoresConfig.Ubicables | assets/js/maps/republica-mexicana.js:310 | keeps exactly the clinics with finite coordinates |
| MarcadoresConfig.ClinicasValidasSound | assets/js/maps/republica-mexicana.js:307-310 | every plotted clinic is located, of the requested type, and normalised from some raw row |
| MarcadoresConfig.ClinicasValidasAsWritten | assets/js/maps/republica-mexicana.js:307-310 | the list the page plots: at most one clinic per row, each of the requested type with finite coordinates |
| MarcadoresConfig.ClinicasValidasAsWrittenSound | assets/js/maps/republica-mexicana.js:307-310 | every clinic the page plots is located, of the requested type, and normalised as written from some raw row |
| MarcadoresConfig.TextoPrefersFirst | assets/js/utils/marcadores.config.js:25 | a non-empty first alias is used, trimmed |
| MarcadoresConfig.CoordenadaDecimalComma | assets/js/utils/marcadores.config.js:35-36 | "ip,fp" reads as the decimal ip.fp |
| MarcadoresConfig.BlankCoordinatesKept | assets/js/utils/marcadores.config.js:35-36 | as written, blank coordinates become 0,0 and the clinic is plotted |
| MarcadoresConfig.BlankCoordinatesDropped | assets/js/utils/marcadores.config.js:35-36 | corrected, a clinic with a blank coordinate is not plotted |
| Marcadores.EstiloPorTipo | assets/js/utils/marcadores.js:33-39 | each known type has its own fill; any other type gets the grey default |
| Marcadores.NombreTipoMarcador | assets/js/utils/marcadores.js:172-174 | known types get a readable name; others are shown as themselves |
| Marcadores.EstilosDistintos | assets/js/utils/marcadores.js:19-39 | the two types look different and only unknown types get the default |
| Marcadores.EscaladoInverso | assets/js/utils/marcadores.js:63-67 | sizes shrink inversely with the zoom; at zoom 1 hover enlarges by 1.35 |
| Marcadores.MarkerLayer.constructor | assets/js/utils/marcadores.js:44-95 | with valid arguments one circle per point in the type's style at zoom 1; otherwise nothing is drawn |
| Marcadores.MarkerLayer.UpdateZoom | assets/js/utils/marcadores.js:98-103 | records the zoom and resizes every circle, keeping its hover state |
| Marcadores.MarkerLayer.Recolor | assets/js/utils/marcadores.js:106-111 | every circle takes the new type's fill and outline; sizes stay |
| Marcadores.MarkerLayer.MouseOver | assets/js/utils/marcadores.js:82-88 | only the hovered circle changes: hover fill, enlarged size |
| Marcadores.MarkerLayer.MouseOut | assets/js/utils/marcadores.js:89-95 | only that circle changes: base fill, base size |
| Marcadores.HoverRoundTrip | assets/js/utils/marcadores.js:82-95 | on a valid layer, a circle at rest grows under the mouse and hover then leave restores it exactly |
| Tablas.PrioridadCasos | assets/js/utils/tablas.js:14-20 | priority 1, 2, 3 exactly for ids 34, 8888, 9999 and 0 for every other id |
| Tablas.PrioridadId | assets/js/utils/tablas.js:14-20 | a rank of at most 3, and 0 exactly for ids other than 34, 8888 and 9999 |
| Tablas.DeClaseParticion | assets/js/utils/tablas.js:111-119 | the normal and special groups together are a permutation of the rows |
| Tablas.FijarForma | assets/js/utils/tablas.js:111-121 | a permutation: the normals sorted first, then 34, 8888 and 9999 rows in their input order |
| Tablas.FijarConservaEspeciales | assets/js/utils/tablas.js:162-190 | on grouped rows, the special tail is untouched and the normal head is permuted |
| Tablas.FijarOrdenada | assets/js/utils/tablas.js:111-113 | the normal head is sorted by the comparator |
| Tablas.EsMetricaPoblacionForma | assets/js/utils/tablas.js:22-34 | population exactly when the lower-cased key starts with "pob" or contains "poblacion"/"población" |
| Tablas.EsMetricaPoblacion | assets/js/utils/tablas.js:22-34 | no key shorter than "pob" is a population metric, the empty key included |
| Tablas.CatalogoPoblacion | assets/js/utils/tablas.js:22-34 | on the catalogue the test agrees with the population metric |
| Tablas.SanitizeSheetName | assets/js/utils/tablas.js:37-40 | the fallback, or a non-empty name of at most 31 characters with no forbidden character |
| Tablas.HojaValida | assets/js/utils/tablas.js:37-40 | with a valid fallback, every result is a valid sheet name |
| Tablas.HojaValidaSeConserva | assets/js/utils/tablas.js:37-40 | a valid trimmed name is kept |
| Tablas.SanitizeFileName | assets/js/utils/tablas.js:43 | no forbidden file-name character remains |
| Tablas.SanitizeFileNameIdempotente | assets/js/utils/tablas.js:43 | the result is trimmed and sanitising it again changes nothing |
| Tablas.FilaDe | assets/js/utils/tablas.js:100-108 | a row exists when the state is a string; population metrics have no nurse or rate; others have finite values or NaN |
| Tablas.PoblacionPreferida | assets/js/utils/tablas.js:103-104 | population prefers `poblacion`, then `población`, then 0 |
| Tablas.FilaMetricaDesconocida | assets/js/utils/tablas.js:95 | an unknown metric builds the `tasa_total` rows |
| Tablas.Filas | assets/js/utils/tablas.js:100-108 | one row per record, in order, failing exactly when a record's state is not a string |
| Tablas.BuildRowsForOrden | assets/js/utils/tablas.js:94-122 | a permutation with the normals first, sorted by state, and the special rows after them in priority order |
| Tablas.BuildRowsFor | assets/js/utils/tablas.js:94-122 | rows exist exactly when every record maps; then one row per record, a permutation of the mapped rows |
| Tablas.Pintada | assets/js/utils/tablas.js:128-138 | four cells keyed by id; population metrics show "—" for nurses and rate |
| Tablas.Pintar | assets/js/utils/tablas.js:124-141 | one painted row per built row, in order |
| Tablas.PintarAgrupada | assets/js/utils/tablas.js:124-141 | painting keeps the special rows grouped at the end |
| Tablas.NumeroParseFloat | assets/js/utils/tablas.js:178-181 | a text that matches the number pattern parses to its value |
| Tablas.CompararCeldasCasos | assets/js/utils/tablas.js:172-185 | two numeric cells compare by value, otherwise by collation; descending negates |
| Tablas.CompararCeldas | assets/js/utils/tablas.js:172-185 | negative exactly when the first cell goes first: the smaller number (larger when descending), else by collation |
| Tablas.PorColumnaAntisimetrica | assets/js/utils/tablas.js:172-185 | the column comparator is antisymmetric when the collation is |
| Tablas.Flechas | assets/js/utils/tablas.js:158-159 | only the clicked header shows an arrow |
| Tablas.TablaNacional.constructor | assets/js/utils/tablas.js:57-154 | without a host an inert table; when the first paint throws, no table is returned (`lanza`) and nothing is wired; otherwise the metric's rows are painted, the table is live and every header starts "asc" |
| Tablas.TablaNacional.Update | assets/js/utils/tablas.js:195-197 | repaints for the new metric and keeps the header state |
| Tablas.TablaNacional.Click | assets/js/utils/tablas.js:154-191 | flips the clicked direction, moves the arrow, sorts only the normal rows and leaves the special tail in place |
| Tablas.ClickOrdena | assets/js/utils/tablas.js:171-190 | after a click the normal rows are in the clicked column's order |
| TablaMunicipios.ParseNumFromCell | assets/js/utils/tabla-municipios.js:19-24 | finite exactly when the kept numeric characters parse, else NaN |
| TablaMunicipios.KeepNumericTrim | assets/js/utils/tabla-municipios.js:17-21 | trimming the cell first does not change the kept characters |
| TablaMunicipios.SeparadorIgnorado | assets/js/utils/tabla-municipios.js:20-21 | a thousands separator or other non-numeric character does not change the parsed value |
| TablaMunicipios.CeldaDecimal | assets/js/utils/tabla-municipios.js:19-24 | a cell whose digits form a decimal parses to that decimal |
| TablaMunicipios.PoblacionDe | assets/js/utils/tabla-municipios.js:56 | the normalised population is always finite |
| TablaMunicipios.AsignarValores | assets/js/utils/tabla-municipios.js:51-60 | id, municipality, population and totals take their aliases in order |
| TablaMunicipios.NormalizarFila | assets/js/utils/tabla-municipios.js:47-81 | every input column is kept and the five fixed columns are present |
| TablaMunicipios.ClavesNormalizadas | assets/js/utils/tabla-municipios.js:48-78 | the row gains the fixed and level columns and copies every other column |
| TablaMunicipios.NivelNormalizado | assets/js/utils/tabla-municipios.js:63-78 | each level column is the number of a truthy input, else 0 |
| TablaMunicipios.PoblacionFinita | assets/js/utils/tabla-municipios.js:55-56 | the population column is finite |
| TablaMunicipios.PoblacionPreferida | assets/js/utils/tabla-municipios.js:55-56 | a non-empty `población` is used first, then `poblacion`, and 0 when every alias is missing |
| TablaMunicipios.PoblacionSeparador | assets/js/utils/tabla-municipios.js:56 | separators inside the population do not change its value |
| TablaMunicipios.TotalesNormalizados | assets/js/utils/tabla-municipios.js:59-60 | totals take the new column, then the legacy one, then 0 |
| TablaMunicipios.IdNormalizado | assets/js/utils/tabla-municipios.js:51 | the id takes `id`, `ID`, `Id` with `??`, else "" |
| TablaMunicipios.PorDefectoAntisimetrico | assets/js/utils/tabla-municipios.js:149-155 | the default comparator is antisymmetric when 8888 and 9999 occur at most once |
| TablaMunicipios.PorDefecto | assets/js/utils/tabla-municipios.js:149-155 | a 9999 row goes after any other, an 8888 row after any but 9999, and the rest compare by municipality |
| TablaMunicipios.OrdenPorDefecto | assets/js/utils/tabla-municipios.js:148-155 | a permutation with 9999 last, 8888 just before it, the specials at the end and the others in collation order |
| TablaMunicipios.OrdenadoPorDefecto | assets/js/utils/tabla-municipios.js:149-155 | any order sorted by the default comparator has that shape |
| TablaMunicipios.FilaMunicipio | assets/js/utils/tabla-municipios.js:158-183 | id, total class for 9999, municipality and population cells |
| TablaMunicipios.CeldasDeMetrica | assets/js/utils/tabla-municipios.js:163-174 | population shows "-"; other metrics show the count and the two-decimal rate, or "—" |
| TablaMunicipios.MetricaDesconocida | assets/js/utils/tabla-municipios.js:142 | an unknown metric renders like `tasa_total` |
| TablaMunicipios.Cuerpo | assets/js/utils/tabla-municipios.js:138-187 | one four-cell row per cached record |
| TablaMunicipios.TotalAlFinal | assets/js/utils/tabla-municipios.js:148-161 | the total row can only be the last body row |
| TablaMunicipios.ReordenarForma | assets/js/utils/tabla-municipios.js:211-239 | a permutation: the normal rows sorted, the 8888/9999 rows kept in order at the end |
| TablaMunicipios.Reordenar | assets/js/utils/tabla-municipios.js:211-239 | the new body is a permutation of the old one |
| TablaMunicipios.ReordenarOrdena | assets/js/utils/tabla-municipios.js:218-236 | the normal rows end up in the clicked column's order |
| TablaMunicipios.NaNComparado | assets/js/utils/tabla-municipios.js:225-231 | NaN compares after every number and ties with NaN |
| TablaMunicipios.NaNAlExtremo | assets/js/utils/tabla-municipios.js:218-236 | in a numeric column, non-numeric cells come last ascending and first descending |
| TablaMunicipios.SanitizeSheetName | assets/js/utils/tabla-municipios.js:252-255 | a non-empty name of at most 31 characters with no forbidden character |
| TablaMunicipios.TablaMunicipal.constructor | assets/js/utils/tabla-municipios.js:44-122 | rows cached normalised; with a container, the selected metric (or `tasa_total`) is painted and headers start "asc" |
| TablaMunicipios.TablaMunicipal.CambiarMetrica | assets/js/utils/tabla-municipios.js:124-128 | with a selector, repaints for the chosen metric; header state stays |
| TablaMunicipios.TablaMunicipal.Click | assets/js/utils/tabla-municipios.js:200-240 | flips the clicked direction, moves the arrow and reorders the body by that column |
| Tooltip.LabelPorMetrica | assets/js/utils/tooltip.js:22-34 | the label of a known metric, else "Tasa"; never empty |
| Tooltip.Label | assets/js/utils/tooltip.js:49-96 | a forced label that is not empty wins; otherwise the default |
| Tooltip.FmtRate | assets/js/utils/tooltip.js:36 | "Sin datos" exactly for a non-finite value, else two decimals |
| Tooltip.FmtNum | assets/js/utils/tooltip.js:37 | "—" for a non-finite value, else the locale format |
| Tooltip.Leer | assets/js/utils/tooltip.js:49-93 | a finite field value or NaN |
| Tooltip.Poblacion | assets/js/utils/tooltip.js:44-46 | `poblacion` when finite, else `población` |
| Tooltip.EnfKey | assets/js/utils/tooltip.js:73-74 | a `tasa_` key becomes the `enfermeras_` key of the same suffix; others stay |
| Tooltip.PrimeraTasa | assets/js/utils/tooltip.js:85-87 | the first usable rate key, or none when no key is usable |
| Tooltip.PrimeraTasaEsPrimera | assets/js/utils/tooltip.js:85-87 | no earlier key is usable |
| Tooltip.PickDatos | assets/js/utils/tooltip.js:42-97 | population from either spelling; summary rows, population and explicit metrics picked as the code's cases say; never an empty title |
| Tooltip.PrimeraLlave | assets/js/utils/tooltip.js:85-96 | without a metric, the first usable rate key and its nurse key are shown, or NaN when none exists |
| Tooltip.EnfKeyCatalogo | assets/js/utils/tooltip.js:73-74 | for every catalogued level the derived nurse key is the catalogue's count key |
| Tooltip.Safe | assets/js/utils/tooltip.js:146 | the trimmed text, or "N/D" when missing or blank; never empty |
| Tooltip.SafeIdempotent | assets/js/utils/tooltip.js:146 | applying it twice changes nothing |
| Tooltip.Fmt6 | assets/js/utils/tooltip.js:147 | "N/D" exactly for a non-finite value, else six decimals |
| Enlaces.Guiones | assets/js/utils/enlaces.js:10-11 | runs of non-alphanumerics become one hyphen; no "--" remains |
| Enlaces.Slugify | assets/js/utils/enlaces.js:7-13 | a slug: lower-case letters, digits and single inner hyphens |
| Enlaces.SlugifyConserva | assets/js/utils/enlaces.js:7-13 | the slug keeps every letter and digit of the lower-cased input, in order |
| Enlaces.SlugVacio | assets/js/utils/enlaces.js:7-13 | the slug is empty exactly when the input has no letter or digit |
| Enlaces.SlugifyIdempotente | assets/js/utils/enlaces.js:7-13 | a slug is its own slug, so slugifying twice changes nothing |
| Enlaces.UrlEntidad | assets/js/utils/enlaces.js:56-63 | none for a blank name; the table's page for a listed name; else the slug page |
| Enlaces.UrlEntidadTrim | assets/js/utils/enlaces.js:57 | surrounding blanks do not change the URL |
| Enlaces.UrlEntidadFallback | assets/js/utils/enlaces.js:61-62 | an unlisted name links to a slug that keeps its letters and digits |
| Enlaces.Texto | assets/js/utils/enlaces.js:71-73 | the first truthy alias, stringified and trimmed, else "" |
| Enlaces.UrlClinica | assets/js/utils/enlaces.js:70-80 | the upper-cased CLUES page when there is a CLUES; none exactly when CLUES, unit and state are blank; else the slug page |
| Enlaces.UrlClinicaCanonica | assets/js/utils/enlaces.js:74-76 | replacing the CLUES by its normalised form gives the same URL |
| CorePhp.AnioActivoTexto | includes/core.php:19 | the active year reads "2025" |
| CorePhp.ResolverAnioVisual | includes/core.php:39-47 | the trimmed attribute when not blank, else "2025"; never empty and always trimmed |
| CorePhp.ResolverIdempotente | includes/core.php:39-47 | resolving a resolved year changes nothing |
| CorePhp.ResolverEnteros | includes/core.php:39-47 | an integer attribute shows as its digits; a missing one as "2025" |

## Left out

- Rendering is not modelled: DOM, SVG and d3 drawing, transitions, projections, the zoom behaviour, the legend's SVG layout, RGB colour interpolation, tooltip HTML and positioning, and the label toggles. The map models fills and scales as values (`Fill`, `Scale`).
- Asynchronous loading is not modelled: `d3.csv`, `d3.json`, dynamic `import` and promise errors. Loaded data are parameters.
- The XLSX export is not modelled (`attachExcelButton`, `habilitarDescargaExcel`, workbook building). Only the sheet and file name sanitisers are.
- `crearLeyendaMarcadores`, `crearTooltip`, `mostrarTooltip`, `ocultarTooltip` and `mostrarTooltipClinica` only build markup and are not modelled. Their value helpers (`pickDatos`, `safe`, `fmt6`, the formatters) are.
- Locale-dependent behaviour is a parameter: `toLocaleString("es-MX")` and the collators. An order is claimed only for an antisymmetric collation.
- `Array.prototype.sort` is modelled as a stable insertion sort. With an inconsistent comparator the engine's order may differ.
- Enlaces.Slugify: the NFD accent stripping is not modelled; the slug starts from the lower-cased text.
- Enlaces.UrlEntidad: keys inherited from `Object.prototype` are not looked up.
- Enlaces.Texto: `.trim()` on a truthy non-string value throws in JavaScript; this member converts the value with `String()` first, and so does `Enlaces.UrlClinica`, which reads its fields through it. The TypeError is modelled, as `None`, by `Tablas.FilaDe`, `Tablas.Filas`, `RepublicaMexicana.DataByEstado` and `RepublicaMexicana.ContarEntidadesFederativas`.
- Js.ToLower: `toLowerCase` is modelled on ASCII and Latin-1 letters only (`Js.ToLowerChar`); other scripts are left as they are.
- Js.ToUpper: `toUpperCase` is modelled on ASCII and Latin-1 letters only (`Js.ToUpperChars`), with the special cases of 'ß', 'ÿ' and 'µ'.
- Js.NumberToString: `String(n)` is exact for integers and for fractions of up to 20 decimals. It has no exponent form (JavaScript writes `1e+21` from 10^21 on and `1e-7` below 10^-6) and does not choose the shortest digits that round-trip to the same double.
- `Object.keys` order is the parameter `claves` of `Tooltip.PickDatos`.
- Tooltip.PickDatos: `isPoblacion` is left undefined in the summary case in JavaScript; it is `false` here.
- ConfigMapa.WrapDosLineas: the `lines.length > 2` branch cannot run, because at most one line is pushed inside the loop. The model has no such branch.
- RepublicaMexicana.MapaNacional.ActualizarMapaPorMetrica: models the intended repaint, `PrepararEscalaYLeyenda(rows, metricKey, options)` with the colour list of `Paleta`. As written, `republica-mexicana.js` passes the text `tasaKey(metricKey)` where the catalogue belongs and the options where the metric belongs, so the call throws a TypeError, no region is repainted and the table is not redrawn (`RepintadoLanza`, `ActualizarMapaPorMetricaAsWritten`; see Findings).
- RepublicaMexicana.PaintMatchesLegend: states the agreement of fills and legend for the corrected palette and call; the page as written never reaches the painting step (see Findings).
- RepublicaMexicana.MapaNacional.constructor: starts on the corrected initial metric `tasa_total`. As written, republica-mexicana.js:68 leaves the current metric undefined (see the Findings row for that line: `MetricaInicialIndefinida`, `MetricaInicialPintable`).
- MarcadoresConfig.Normalizadas: maps the corrected `NormalizarClinicaRow`, which reads a blank coordinate as NaN. The page maps the normaliser as written, under which a blank coordinate is 0 (see the Findings row for marcadores.config.js:35-36); that list is `NormalizadasAsWritten`.
- MarcadoresConfig.ClinicasValidasSound: is stated for the corrected list `ClinicasValidas`. The list the page plots is `ClinicasValidasAsWritten`, for which `ClinicasValidasAsWrittenSound` proves the same, except that a clinic with blank coordinates is kept at 0,0 (`BlankCoordinatesKept`).
- ConfigMapa.DomainValues: builds the domain with the corrected cap `Cap`, not `CapAsWritten`. The two differ only when the written cap lowers the maximum to `q3` or below (`CapCoincide`; see Findings).
- ConfigMapa.DomainChoice: inherits the corrected cap from `DomainValues`.
- ConfigMapa.PrepararEscalaYLeyenda: inherits the corrected cap from `DomainValues`.
- Js.FixedDigits: numbers are exact reals, not IEEE-754 doubles. The digits of a value with no exact binary form (`1.005.toFixed(2)` gives "1.00" in JavaScript) can differ by one in the last place.
- Js.ToFixed: the same exact-real rounding as `FixedDigits`.
- Js.ParseFloat: reads an exact real. A literal beyond the double range (`"1e400"`) gives `Infinity` in JavaScript and a finite value here; rounding to the nearest double is not modelled.
- Js.StringToNumber: the same exact-real reading as `ParseFloat`.
- TablaMunicipios.ParseNumFromCell: parses through `StringToNumber`, with the same exact-real reading.
- Metricas.Def: keys inherited from `Object.prototype` (`"constructor"`, `"toString"`) are treated as unknown keys. In JavaScript `METRICAS[key]` finds the inherited property.
- Marcadores.EstiloPorTipo: an inherited key such as `"constructor"` falls back to the default style here. In JavaScript it finds the inherited value.
- Marcadores.NombreTipoMarcador: inherited keys are treated as unknown here, as for `EstiloPorTipo`.
- Tooltip.LabelPorMetrica: inherited keys are treated as unknown here, as for `Metricas.Def`.
- ConfigMapa.ConstruirTitulo: the base title table (`TituloBase`) treats inherited keys as unknown.
- ConfigMapa.ConstruirTituloClinicas: the base title table (`TituloClinicasBase`) treats inherited keys as unknown.
- ConfigMapa.ValuesForMetric: an inherited key such as `"constructor"` is an unknown metric here, which is an error. In JavaScript the lookup finds the inherited function and does not throw.
- CorePhp.ResolverAnioVisual: PHP casts of values other than null, strings and integers (floats, booleans, arrays) are not modelled.
- Normalizacion.RowIdempotent: proved only for rows whose primary aliases (`id`, `estado`, `municipio`) are not blank. A blank primary alias makes the second pass read the fallback alias; `BlankIdNotIdempotent` exhibits this.
- TablaMunicipios.TablaMunicipal.Click: its ensures ties the new body to `Reordenar`. That the body is a permutation with 8888/9999 kept at the end is stated by `ReordenarForma`, not in the method's own contract.
- TablaMunicipios.NaNAlExtremo: the text column (index 0) is compared by collation only, so the NaN placement is claimed for numeric columns only.
- The page-level glue in `republica-mexicana.js` is not modelled: the year and total spans, the document title, the indicator control wiring and the marker control. Its data steps (total, entity count, dictionary, fills, located clinics) are.

## Findings

| source | as written | input that shows it | evidently intended | confidence | as-written member | corrected member |
|---|---|---|---|---|---|---|
| assets/js/utils/config-mapa.js:540-544 | the percentile cap replaces `max` with `pMax` whenever `pMax < max`, even below `q3` | five values `a<b<c<d<e` with `capAtPercentile = 0.5`: the domain becomes `[a,b,c,d,c]` | cap only when the percentile lies above `q3`, keeping the scale's domain increasing | not executed | ConfigMapa.CapAsWrittenBreaksDomain | ConfigMapa.CapKeepsDomain |
| assets/js/utils/marcadores.config.js:35-36 | a blank `LATITUD`/`LONGITUD` reads `+""`, which is 0, so the clinic passes the finite filter | a row with no coordinates is plotted at 0,0 | a blank coordinate is missing (NaN) and the clinic is not plotted | not executed | MarcadoresConfig.BlankCoordinatesKept | MarcadoresConfig.BlankCoordinatesDropped |
| assets/js/maps/republica-mexicana.js:68 | the initial metric is `METRICAS.TASA_TOTAL`, a key the catalogue does not have, so it is undefined | the first repaint asks for the metric `undefined` and no scale exists for it | start on `tasa_total` | not executed | RepublicaMexicana.MetricaInicialIndefinida | RepublicaMexicana.MetricaInicialPintable |
| assets/js/maps/republica-mexicana.js:84-86 | `getPalette` returns `metricPalette(key)`, the palette's name ("poblacion" or "tasas") | any metric: the scale receives the text "tasas" where five colours belong | return the colour list `COLORES_POBLACION` or `COLORES_TASAS` | not executed | RepublicaMexicana.PaletaAsWritten | RepublicaMexicana.Paleta |
| assets/js/maps/republica-mexicana.js:225-235 | `prepararEscalaYLeyenda(tasas, tasaKey(metricKey), {...})` passes a text as the catalogue and the options as the metric | any metric: `valuesForMetric` reads `"tasa_total"["[object Object]"].tasaKey`, which throws a TypeError, so nothing is repainted; on a page without `#indicador-control` the error leaves the `.then` callback, so the marker control and the PNG buttons set up after it are never wired | `prepararEscalaYLeyenda(tasas, metricKey, {...})` | not executed | RepublicaMexicana.RepintadoLanza | RepublicaMexicana.MapaNacional.ActualizarMapaPorMetrica |
| assets/js/maps/republica-mexicana.js:286-290 | `renderTablaNacional(mount, {...})` passes the mount element where the options belong | any dataset: the table reads `data` and `metricKey` from the element, gets undefined, and draws no rows on `tasa_total` | pass the options, so the table shows the dataset on the current metric | not executed | RepublicaMexicana.TablaAsWrittenVacia | RepublicaMexicana.TablaCorregida |
| assets/js/maps/republica-mexicana.js:168-175 | `mostrarTooltip(tooltip, event, {nombre, data, metricKey})` passes one object where the name, the record and the options belong | any state and metric: `datos` is undefined and `opts` empty, so the tooltip reads "Sin datos" with no population or count | `mostrarTooltip(tooltip, event, nombre, item, {metricKey: currentMetric})` | not executed | RepublicaMexicana.TooltipEstadoAsWritten | RepublicaMexicana.TooltipEstadoCorregido |
| assets/js/maps/republica-mexicana.js:389-413 | both PNG buttons call `construirTitulo({anio, ambito, descripcion, incluirCita})`, passing an object where the metric key belongs and no options | any export, in any year: the title is "Distribución de enfermería en México (2025)" | `construirTitulo(currentMetric, {year})` | not executed | RepublicaMexicana.TituloPngAsWritten | RepublicaMexicana.TituloPngCorregido |

/**
 * The two-country selection of the widget as a state machine over values.
 * A `View` holds everything the click handler and its asynchronous
 * continuations change; each handler is a step function from the old view
 * to the new one. The class in the tracker module follows these steps on
 * its own fields.
 */
module Selection {
  import opened Wrappers
  import opened Reshape
  import opened Charts

  /** The most polygons that can be held at once (the literal `2` of the click handler). */
  const MaxSelected: nat := 2

  type Point = (real, real)
  type Geometry = seq<Point>
  type LayerId = string

  /** A country's attribute record: SOVEREIGNT, SOV_A3, POP_EST and GDP_cap. */
  datatype Attributes = Attributes(sovereignt: string, sovA3: string, popEst: int, gdpCap: real)

  /** One feature returned by the layer query. */
  datatype Feature = Feature(attributes: Attributes, geometry: Geometry)

  /** A highlight drawn over a selected country: its outline in the fixed selection symbology. */
  datatype Graphic = Graphic(geometry: Geometry)

  /** The graphic of a hit-test result and the layer it belongs to, either possibly absent. */
  datatype HitGraphic = HitGraphic(layer: Option<LayerId>)
  datatype HitResult = HitResult(graphic: Option<HitGraphic>)

  /** A spatial query issued against a layer at the clicked point. */
  datatype Query = Query(layer: LayerId, geometry: Point, spatialRelationship: string)

  /** The comparison record `{codes, labels, gdp}` built once two countries are held. */
  datatype SelectedPolygons = SelectedPolygons(codes: seq<string>, labels: seq<string>, gdp: seq<real>)

  /** What the GDP bar chart shows: one bar per label. */
  datatype BarData = BarData(labels: seq<string>, values: seq<real>)

  /** What the house-price line chart shows: one labelled series per country. */
  datatype LineData = LineData(label1: string, series1: map<string, Option<real>>,
                               label2: string, series2: map<string, Option<real>>)

  /**
   * The state the handlers change: the highlight graphics and attribute
   * records held (`selectedFeatures`, `selectedAttributes`), the map's
   * graphics layer, the two chart canvases, whether the description panel
   * is shown, and the text of the comparison element.
   */
  datatype View = View(
    features: seq<Graphic>,
    attributes: seq<Attributes>,
    graphics: seq<Graphic>,
    gdpChart: Canvas<BarData>,
    hpiChart: Canvas<LineData>,
    descVisible: bool,
    comparison: string)

  /** The page as loaded: nothing selected, no chart yet, the description shown. */
  function Initial(): View
  {
    View([], [], [], [], [], true, "")
  }

  /** The comparison record, from slot 0 then slot 1. */
  function Compare(attrs: seq<Attributes>): SelectedPolygons
    requires |attrs| == 2
  {
    SelectedPolygons([attrs[0].sovA3, attrs[1].sovA3],
                     [attrs[0].sovereignt, attrs[1].sovereignt],
                     [attrs[0].gdpCap, attrs[1].gdpCap])
  }

  /**
   * The invariant the handlers keep: at most two held, the two arrays and
   * the map's graphics in lock-step, only the newest chart per canvas
   * drawn, and while two are held the GDP chart shows exactly that pair and
   * the description is hidden.
   */
  predicate Inv(v: View)
  {
    && |v.features| == |v.attributes| <= MaxSelected
    && v.graphics == v.features
    && OnlyLastMayLive(v.gdpChart)
    && OnlyLastMayLive(v.hpiChart)
    && (|v.attributes| == MaxSelected ==>
          && Handle(v.gdpChart) == Some(Chart(BarData(Compare(v.attributes).labels, Compare(v.attributes).gdp), true))
          && !v.descVisible)
  }

  // ---------------------------------------------------------------------
  // addDesc, removeDesc, clearSelections
  // ---------------------------------------------------------------------

  function AddDesc(v: View): View { v.(descVisible := true) }

  function RemoveDesc(v: View): View { v.(descVisible := false) }

  /** `clearSelections` calls `destroy()` on both chart variables without a null check. */
  predicate CanClear(v: View)
  {
    |v.gdpChart| > 0 && |v.hpiChart| > 0
  }

  function ClearSelections(v: View): View
    requires CanClear(v)
  {
    var w := AddDesc(v.(gdpChart := Destroy(v.gdpChart), hpiChart := Destroy(v.hpiChart)));
    w.(graphics := [], features := [], attributes := [], comparison := "")
  }

  /**
   * A reset empties both arrays and the map's graphics, clears the
   * comparison text, shows the description and leaves no chart drawn.
   */
  lemma ClearResets(v: View)
    requires Inv(v) && CanClear(v)
    ensures var w := ClearSelections(v);
      && Inv(w)
      && w.features == [] && w.attributes == [] && w.graphics == []
      && w.comparison == "" && w.descVisible
      && LiveCount(w.gdpChart) == 0 && LiveCount(w.hpiChart) == 0
      && |w.gdpChart| == |v.gdpChart| && |w.hpiChart| == |v.hpiChart|
  {
    DestroyLeavesNoneLive(v.gdpChart);
    DestroyLeavesNoneLive(v.hpiChart);
  }

  // ---------------------------------------------------------------------
  // The click handler
  // ---------------------------------------------------------------------

  /** The layer of a hit-test result's graphic, when it has both. */
  function LayerOf(hit: HitResult): Option<LayerId>
  {
    match hit.graphic
    case Some(HitGraphic(Some(layer))) => Some(layer)
    case _ => None
  }

  /** The query one hit-test result gives rise to: one when it has a graphic on a layer. */
  function HitQuery(hit: HitResult, point: Point): seq<Query>
  {
    match LayerOf(hit)
    case Some(layer) => [Query(layer, point, "intersects")]
    case None => []
  }

  /** The queries of `response.results.forEach(...)`, in the order of the results. */
  function HitQueries(hits: seq<HitResult>, point: Point): seq<Query>
    decreases |hits|
  {
    if |hits| == 0 then []
    else HitQueries(hits[..|hits| - 1], point) + HitQuery(hits[|hits| - 1], point)
  }

  /** The hit-test result at position `i` has a graphic on layer `layer`. */
  predicate HitsLayer(hits: seq<HitResult>, i: int, layer: LayerId)
  {
    0 <= i < |hits| && LayerOf(hits[i]) == Some(layer)
  }

  /**
   * A query is issued exactly for the layers of the results that have a
   * graphic on a layer, at the clicked point and with the intersects
   * relation, and never more queries than results.
   */
  lemma {:induction false} HitQueriesExactly(hits: seq<HitResult>, point: Point, q: Query)
    ensures |HitQueries(hits, point)| <= |hits|
    ensures q in HitQueries(hits, point) <==>
      && q.geometry == point && q.spatialRelationship == "intersects"
      && exists i :: HitsLayer(hits, i, q.layer)
    decreases |hits|
  {
    if |hits| > 0 {
      var n := |hits| - 1;
      var front := hits[..n];
      HitQueriesExactly(front, point, q);
      assert HitQueries(hits, point) == HitQueries(front, point) + HitQuery(hits[n], point);
      assert q in HitQuery(hits[n], point) <==>
        q.geometry == point && q.spatialRelationship == "intersects" && HitsLayer(hits, n, q.layer);
      if exists i :: HitsLayer(front, i, q.layer) {
        var i :| HitsLayer(front, i, q.layer);
        assert HitsLayer(hits, i, q.layer);
      }
      if exists i :: HitsLayer(hits, i, q.layer) {
        var i :| HitsLayer(hits, i, q.layer);
        if i < n {
          assert HitsLayer(front, i, q.layer);
        }
      }
    }
  }

  /** The positions of the hit-test results that have a graphic on a layer, in increasing order. */
  function LayeredIndices(hits: seq<HitResult>): seq<nat>
    decreases |hits|
  {
    if |hits| == 0 then []
    else
      var n := |hits| - 1;
      LayeredIndices(hits[..n]) + (if LayerOf(hits[n]).Some? then [n] else [])
  }

  /** The indices are increasing positions of layered hits, and every layered hit is among them. */
  lemma {:induction false} LayeredIndicesExactly(hits: seq<HitResult>)
    ensures forall j :: 0 <= j < |LayeredIndices(hits)| ==>
      LayeredIndices(hits)[j] < |hits| && LayerOf(hits[LayeredIndices(hits)[j]]).Some?
    ensures forall j, k :: 0 <= j < k < |LayeredIndices(hits)| ==>
      LayeredIndices(hits)[j] < LayeredIndices(hits)[k]
    ensures forall i :: 0 <= i < |hits| && LayerOf(hits[i]).Some? ==> i in LayeredIndices(hits)
    decreases |hits|
  {
    if |hits| > 0 {
      var n := |hits| - 1;
      var front := hits[..n];
      LayeredIndicesExactly(front);
      var idx0 := LayeredIndices(front);
      var idx := LayeredIndices(hits);
      assert idx == idx0 + (if LayerOf(hits[n]).Some? then [n] else []);
      forall j | 0 <= j < |idx0|
        ensures idx[j] == idx0[j] && idx0[j] < n && LayerOf(hits[idx0[j]]).Some?
      {
        assert idx0[j] < |front| && LayerOf(front[idx0[j]]).Some?;
        assert front[idx0[j]] == hits[idx0[j]];
      }
      forall i | 0 <= i < n && LayerOf(hits[i]).Some?
        ensures i in idx
      {
        assert front[i] == hits[i];
        assert i in idx0;
      }
    }
  }

  /** The j-th query is the one for the j-th layered hit. */
  lemma {:induction false} HitQueriesAtIndices(hits: seq<HitResult>, point: Point)
    ensures |HitQueries(hits, point)| == |LayeredIndices(hits)|
    ensures forall j :: 0 <= j < |LayeredIndices(hits)| ==>
      LayeredIndices(hits)[j] < |hits| && LayerOf(hits[LayeredIndices(hits)[j]]).Some? &&
      HitQueries(hits, point)[j]
        == Query(LayerOf(hits[LayeredIndices(hits)[j]]).value, point, "intersects")
    decreases |hits|
  {
    if |hits| > 0 {
      var n := |hits| - 1;
      var front := hits[..n];
      HitQueriesAtIndices(front, point);
      var qs0, idx0 := HitQueries(front, point), LayeredIndices(front);
      var qs, idx := HitQueries(hits, point), LayeredIndices(hits);
      var last := if LayerOf(hits[n]).Some? then [n] else [];
      assert HitQuery(hits[n], point)
        == if LayerOf(hits[n]).Some? then [Query(LayerOf(hits[n]).value, point, "intersects")] else [];
      assert qs == qs0 + HitQuery(hits[n], point);
      assert idx == idx0 + last;
      forall j | 0 <= j < |idx0|
        ensures idx[j] < |hits| && LayerOf(hits[idx[j]]).Some?
        ensures qs[j] == Query(LayerOf(hits[idx[j]]).value, point, "intersects")
      {
        assert idx[j] == idx0[j] && qs[j] == qs0[j];
        assert front[idx0[j]] == hits[idx0[j]];
      }
    }
  }

  /**
   * One query per hit that has a graphic on a layer, in the order of the
   * hits: the j-th query is for the j-th such hit, and every such hit has one.
   */
  lemma HitQueriesInOrder(hits: seq<HitResult>, point: Point)
    ensures var qs := HitQueries(hits, point);
      var idx := LayeredIndices(hits);
      && |qs| == |idx|
      && (forall j :: 0 <= j < |idx| ==>
            && HitsLayer(hits, idx[j], qs[j].layer)
            && qs[j].geometry == point && qs[j].spatialRelationship == "intersects")
      && (forall j, k :: 0 <= j < k < |idx| ==> idx[j] < idx[k])
      && (forall i :: 0 <= i < |hits| && LayerOf(hits[i]).Some? ==> i in idx)
  {
    LayeredIndicesExactly(hits);
    HitQueriesAtIndices(hits, point);
  }

  datatype ClickOutcome = Reset | Queried(queries: seq<Query>)

  /** A click with two (or more) held resets and stops; otherwise it queries under the hits. */
  function ClickStep(v: View, point: Point, hits: seq<HitResult>): (View, ClickOutcome)
    requires |v.features| >= MaxSelected ==> CanClear(v)
  {
    if |v.features| >= MaxSelected then (ClearSelections(v), Reset)
    else (v, Queried(HitQueries(hits, point)))
  }

  /** A click keeps the invariant; it either resets everything or changes nothing yet. */
  lemma ClickKeepsInv(v: View, point: Point, hits: seq<HitResult>)
    requires Inv(v) && (|v.features| >= MaxSelected ==> CanClear(v))
    ensures Inv(ClickStep(v, point, hits).0)
    ensures ClickStep(v, point, hits).1.Reset? <==> |v.features| == MaxSelected
    ensures ClickStep(v, point, hits).1.Reset? ==> ClickStep(v, point, hits).0.attributes == []
    ensures ClickStep(v, point, hits).1.Queried? ==> ClickStep(v, point, hits).0 == v
  {
    if |v.features| >= MaxSelected {
      ClearResets(v);
    }
  }

  // ---------------------------------------------------------------------
  // The query continuation
  // ---------------------------------------------------------------------

  function Highlight(f: Feature): Graphic { Graphic(f.geometry) }

  /** One admitted feature: its attributes pushed, its highlight drawn and pushed. */
  function Select(v: View, f: Feature): View
  {
    v.(attributes := v.attributes + [f.attributes],
       graphics := v.graphics + [Highlight(f)],
       features := v.features + [Highlight(f)])
  }

  /** `results.features.forEach(...)`: each feature is selected while fewer than two are held. */
  function SelectWhileRoom(v: View, fs: seq<Feature>): View
    decreases |fs|
  {
    if |fs| == 0 then v
    else
      var w := SelectWhileRoom(v, fs[..|fs| - 1]);
      if |w.features| < MaxSelected then Select(w, fs[|fs| - 1]) else w
  }

  function AttributesOf(fs: seq<Feature>): seq<Attributes>
  {
    seq(|fs|, i requires 0 <= i < |fs| => fs[i].attributes)
  }

  function HighlightsOf(fs: seq<Feature>): seq<Graphic>
  {
    seq(|fs|, i requires 0 <= i < |fs| => Highlight(fs[i]))
  }

  /** How many of `n` offered features fit beside `held` held ones. */
  function Room(held: nat, n: nat): (k: nat)
    ensures k <= n
    ensures held < MaxSelected ==> held + k <= MaxSelected
    ensures held >= MaxSelected ==> k == 0
    ensures k < n ==> held + k >= MaxSelected
  {
    if held >= MaxSelected then 0
    else if n < MaxSelected - held then n else MaxSelected - held
  }

  /**
   * The loop selects the offered features in order until two are held and
   * silently drops the rest; what was held stays as it was, and nothing else
   * in the view changes.
   */
  lemma {:induction false} SelectWhileRoomTakes(v: View, fs: seq<Feature>)
    ensures var k := Room(|v.features|, |fs|);
      SelectWhileRoom(v, fs) == v.(attributes := v.attributes + AttributesOf(fs[..k]),
                                   graphics := v.graphics + HighlightsOf(fs[..k]),
                                   features := v.features + HighlightsOf(fs[..k]))
    decreases |fs|
  {
    if |fs| > 0 {
      var n := |fs| - 1;
      SelectWhileRoomTakes(v, fs[..n]);
      var k := Room(|v.features|, n);
      assert fs[..n][..k] == fs[..k];
      var w := SelectWhileRoom(v, fs[..n]);
      if |w.features| < MaxSelected {
        assert Room(|v.features|, |fs|) == k + 1;
        assert fs[..k + 1] == fs[..k] + [fs[n]];
        assert AttributesOf(fs[..k + 1]) == AttributesOf(fs[..k]) + [fs[n].attributes];
        assert HighlightsOf(fs[..k + 1]) == HighlightsOf(fs[..k]) + [Highlight(fs[n])];
      } else {
        assert Room(|v.features|, |fs|) == k;
      }
    }
  }

  /** `createGDPChart`: destroy the previous bar chart if any, hide the description, draw anew. */
  function CreateGdpChart(v: View, jsonData: SelectedPolygons, chartData: seq<real>): View
  {
    RemoveDesc(v).(gdpChart := Replace(v.gdpChart, BarData(jsonData.labels, chartData)))
  }

  /**
   * The query continuation: select while there is room, then, with exactly
   * two attribute records held, build the comparison record, draw the GDP
   * chart and hand the record on to the two requests.
   */
  function QueryStep(v: View, fs: seq<Feature>): (View, Option<SelectedPolygons>)
  {
    var w := SelectWhileRoom(v, fs);
    if |w.attributes| == MaxSelected then
      var sel := Compare(w.attributes);
      (CreateGdpChart(w, sel, sel.gdp), Some(sel))
    else (w, None)
  }

  /**
   * A query result keeps the invariant, appends the first features that
   * fit in order and keeps the entries already held; the comparison is
   * fired exactly when two are held, from slot 0 then slot 1, and the GDP
   * chart then shows that pair as the one chart drawn on its canvas.
   */
  lemma QueryAppendsThenCompares(v: View, fs: seq<Feature>)
    requires Inv(v)
    ensures var (w, fired) := QueryStep(v, fs);
      var k := Room(|v.features|, |fs|);
      && Inv(w)
      && w.attributes == v.attributes + AttributesOf(fs[..k])
      && w.features == v.features + HighlightsOf(fs[..k])
      && w.hpiChart == v.hpiChart && w.comparison == v.comparison
      && (fired.Some? <==> |w.attributes| == MaxSelected)
      && (fired.Some? ==>
            && fired.value.codes == [w.attributes[0].sovA3, w.attributes[1].sovA3]
            && fired.value.labels == [w.attributes[0].sovereignt, w.attributes[1].sovereignt]
            && fired.value.gdp == [w.attributes[0].gdpCap, w.attributes[1].gdpCap]
            && Handle(w.gdpChart) == Some(Chart(BarData(fired.value.labels, fired.value.gdp), true))
            && LiveCount(w.gdpChart) == 1
            && !w.descVisible)
      && (fired.None? ==> w.gdpChart == v.gdpChart && w.descVisible == v.descVisible)
  {
    SelectWhileRoomTakes(v, fs);
    var w := SelectWhileRoom(v, fs);
    if |w.attributes| == MaxSelected {
      ReplaceLeavesOneLive(w.gdpChart, BarData(Compare(w.attributes).labels, Compare(w.attributes).gdp));
    }
  }

  // ---------------------------------------------------------------------
  // The two request continuations
  // ---------------------------------------------------------------------

  /**
   * The continuation of `getCountrydata` once the house-price response has
   * been read: both series built over the shared period labels, the
   * previous line chart destroyed if any, the description hidden, a new
   * chart drawn.
   */
  function HousingStep(v: View, code1: string, code2: string, periods: seq<string>,
                       observations1: seq<seq<real>>, observations2: seq<seq<real>>): View
  {
    var data := LineData(code1, Series(periods, observations1), code2, Series(periods, observations2));
    RemoveDesc(v).(hpiChart := Replace(v.hpiChart, data))
  }

  /**
   * Drawing the house-price chart keeps the invariant, leaves exactly one
   * line chart drawn, labelled with the two codes in order, and touches
   * neither the selection nor the GDP chart.
   */
  lemma HousingDrawsOne(v: View, code1: string, code2: string, periods: seq<string>,
                        observations1: seq<seq<real>>, observations2: seq<seq<real>>)
    requires Inv(v)
    ensures var w := HousingStep(v, code1, code2, periods, observations1, observations2);
      && Inv(w)
      && LiveCount(w.hpiChart) == 1
      && Handle(w.hpiChart) == Some(Chart(LineData(code1, Series(periods, observations1),
                                                   code2, Series(periods, observations2)), true))
      && Handle(w.hpiChart).value.content.series1.Keys == set p | p in periods
      && Handle(w.hpiChart).value.content.series2.Keys == set p | p in periods
      && !w.descVisible
      && w.features == v.features && w.attributes == v.attributes && w.gdpChart == v.gdpChart
      && w.comparison == v.comparison
  {
    var data := LineData(code1, Series(periods, observations1), code2, Series(periods, observations2));
    ReplaceLeavesOneLive(v.hpiChart, data);
  }

  /** The REST Countries request `addEmojis` sends for a comparison record. */
  function FlagRequest(sel: SelectedPolygons): string
    requires |sel.codes| >= 2
  {
    FlagUrl(sel.codes[0], sel.codes[1])
  }

  /** The OECD request `getCountrydata` sends for a comparison record. */
  function HousingRequest(sel: SelectedPolygons): string
    requires |sel.codes| >= 2
  {
    OecdUrl(sel.codes[0], sel.codes[1])
  }

  /**
   * Both requests name the two selected countries in selection order: the
   * flag request lower-cased and comma-separated, the OECD request verbatim
   * and `+`-separated.
   */
  lemma RequestsFollowSelectionOrder(attrs: seq<Attributes>)
    requires |attrs| == 2
    requires forall i :: 0 <= i < 2 ==> ',' !in attrs[i].sovA3 && '+' !in attrs[i].sovA3
    ensures var sel := Compare(attrs);
      var flagUrl := FlagRequest(sel);
      var oecdUrl := HousingRequest(sel);
      && Split(flagUrl[|RestCountriesAlpha|..], ',') == [ToLowerCase(attrs[0].sovA3), ToLowerCase(attrs[1].sovA3)]
      && |OecdHousePrices| <= |oecdUrl| - |OecdPeriod|
      && Split(oecdUrl[|OecdHousePrices|..|oecdUrl| - |OecdPeriod|], '+') == [attrs[0].sovA3, attrs[1].sovA3]
  {
    assert ',' !in attrs[0].sovA3 && '+' !in attrs[0].sovA3;
    assert ',' !in attrs[1].sovA3 && '+' !in attrs[1].sovA3;
    FlagUrlCodes(attrs[0].sovA3, attrs[1].sovA3);
    OecdUrlCodes(attrs[0].sovA3, attrs[1].sovA3);
  }

  /** The continuation of `addEmojis`: the comparison text appended to the element. */
  function FlagsStep(v: View, flag1: string, flag2: string): View
  {
    v.(comparison := v.comparison + ComparisonText(flag1, flag2))
  }

  // ---------------------------------------------------------------------
  // Runs of events
  // ---------------------------------------------------------------------

  /** What reaches the page: a click, or the result of one of the asynchronous calls. */
  datatype Event =
    | MapClick(point: Point, hits: seq<HitResult>)
    | QueryResult(features: seq<Feature>)
    | HousingData(code1: string, code2: string, periods: seq<string>,
                  observations1: seq<seq<real>>, observations2: seq<seq<real>>)
    | FlagData(flag1: string, flag2: string)

  /** One event; `None` when the click handler would call `destroy()` on `null` and throw. */
  function Step(v: View, e: Event): Option<View>
  {
    match e
    case MapClick(point, hits) =>
      if |v.features| >= MaxSelected && !CanClear(v) then None
      else Some(ClickStep(v, point, hits).0)
    case QueryResult(fs) => Some(QueryStep(v, fs).0)
    case HousingData(c1, c2, periods, o1, o2) => Some(HousingStep(v, c1, c2, periods, o1, o2))
    case FlagData(f1, f2) => Some(FlagsStep(v, f1, f2))
  }

  /** The events in order, stopping at a thrown handler. */
  function Run(v: View, es: seq<Event>): Option<View>
    decreases |es|
  {
    if |es| == 0 then Some(v)
    else
      match Step(v, es[0])
      case None => None
      case Some(w) => Run(w, es[1..])
  }

  lemma StepKeepsInv(v: View, e: Event)
    requires Inv(v)
    ensures Step(v, e).Some? ==> Inv(Step(v, e).value)
  {
    match e
    case MapClick(point, hits) =>
      if Step(v, e).Some? {
        ClickKeepsInv(v, point, hits);
      }
    case QueryResult(fs) => QueryAppendsThenCompares(v, fs);
    case HousingData(c1, c2, periods, o1, o2) => HousingDrawsOne(v, c1, c2, periods, o1, o2);
    case FlagData(f1, f2) =>
  }

  /** Every run keeps the invariant. */
  lemma {:induction false} RunKeepsInv(v: View, es: seq<Event>)
    requires Inv(v)
    ensures Run(v, es).Some? ==> Inv(Run(v, es).value)
    decreases |es|
  {
    if |es| > 0 {
      StepKeepsInv(v, es[0]);
      if Step(v, es[0]).Some? {
        RunKeepsInv(Step(v, es[0]).value, es[1..]);
      }
    }
  }

  /**
   * Two stacked countries taken in by one click, then a third click before
   * the house-price response has drawn its chart: `clearSelections` reaches
   * `hpiChart.destroy()` with `hpiChart` still `null`, and the handler throws.
   */
  lemma ResetBeforeHousingChartThrows(point: Point, layer: LayerId, a: Feature, b: Feature)
    ensures var hits := [HitResult(Some(HitGraphic(Some(layer))))];
      var es := [MapClick(point, hits), QueryResult([a, b]), MapClick(point, hits)];
      Run(Initial(), es) == None
  {
    var hits := [HitResult(Some(HitGraphic(Some(layer))))];
    var v1 := ClickStep(Initial(), point, hits).0;
    assert v1 == Initial();
    QueryAppendsThenCompares(v1, [a, b]);
    var v2 := QueryStep(v1, [a, b]).0;
    assert [a, b][..2] == [a, b];
    assert |v2.features| == 2 && v2.hpiChart == [];
    var es := [MapClick(point, hits), QueryResult([a, b]), MapClick(point, hits)];
    assert Step(v2, es[2]) == None;
    assert Run(v2, [es[2]]) == None;
    assert es[1..][1..] == [es[2]];
    assert Step(v1, es[1]) == Some(v2);
    assert Run(v1, es[1..]) == None;
    assert Step(Initial(), es[0]) == Some(v1);
  }

  /**
   * From the loaded page, after any events, at most two countries are held,
   * the two arrays have equal length, the map shows exactly their
   * highlights, and no canvas draws more than one chart.
   */
  lemma SelectionStaysWithinTwo(es: seq<Event>)
    ensures Run(Initial(), es).Some? ==>
      var w := Run(Initial(), es).value;
      && |w.features| == |w.attributes| <= 2
      && w.graphics == w.features
      && LiveCount(w.gdpChart) <= 1 && LiveCount(w.hpiChart) <= 1
  {
    RunKeepsInv(Initial(), es);
    if Run(Initial(), es).Some? {
      var w := Run(Initial(), es).value;
      LiveCountOfHandle(w.gdpChart);
      LiveCountOfHandle(w.hpiChart);
    }
  }
}

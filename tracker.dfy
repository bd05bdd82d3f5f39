/**
 * The widget's selection state as the script keeps it: module-level arrays
 * and variables updated in place by the click handler and by the
 * continuations of its asynchronous calls. Each method changes the fields
 * exactly as the matching step of the selection module says.
 */
module Tracker {
  import opened Wrappers
  import opened Reshape
  import opened Charts
  import opened Selection

  class SelectionTracker {
    /** `selectedFeatures`: the highlight graphics held. */
    var selectedFeatures: seq<Graphic>
    /** `selectedAttributes`: the attribute records held, in the same order. */
    var selectedAttributes: seq<Attributes>
    /** `view.graphics`: what is drawn on the map above the countries. */
    var graphics: seq<Graphic>
    /** The bar-chart canvas; `gdpChart` is its newest instance. */
    var gdpChart: Canvas<BarData>
    /** The line-chart canvas; `hpiChart` is its newest instance. */
    var hpiChart: Canvas<LineData>
    /** Whether the description elements are shown (no `chart-desc-hide` class). */
    var descVisible: bool
    /** The text of the `comparison` element. */
    var comparison: string

    function State(): View
      reads this
    {
      View(selectedFeatures, selectedAttributes, graphics, gdpChart, hpiChart, descVisible, comparison)
    }

    predicate Valid()
      reads this
    {
      Inv(State())
    }

    constructor ()
      ensures State() == Initial() && Valid()
    {
      selectedFeatures, selectedAttributes, graphics := [], [], [];
      gdpChart, hpiChart := [], [];
      descVisible, comparison := true, "";
    }

    method AddDesc()
      modifies this
      ensures State() == Selection.AddDesc(old(State()))
    {
      descVisible := true;
    }

    method RemoveDesc()
      modifies this
      ensures State() == Selection.RemoveDesc(old(State()))
    {
      descVisible := false;
    }

    method ClearSelections()
      requires Valid() && CanClear(State())
      modifies this
      ensures State() == Selection.ClearSelections(old(State()))
      ensures Valid()
    {
      gdpChart := Destroy(gdpChart);
      hpiChart := Destroy(hpiChart);
      AddDesc();
      graphics := [];
      selectedFeatures := [];
      selectedAttributes := [];
      comparison := "";
      ClearResets(old(State()));
    }

    /** The synchronous part of the click handler; the queries are what it sends off. */
    method Click(point: Point, hits: seq<HitResult>) returns (outcome: ClickOutcome)
      requires Valid()
      requires |selectedFeatures| >= MaxSelected ==> CanClear(State())
      modifies this
      ensures (State(), outcome) == ClickStep(old(State()), point, hits)
      ensures Valid()
    {
      if |selectedFeatures| >= MaxSelected {
        ClearSelections();
        return Reset;
      }
      var queries: seq<Query> := [];
      var i := 0;
      while i < |hits|
        invariant 0 <= i <= |hits|
        invariant queries == HitQueries(hits[..i], point)
      {
        assert hits[..i + 1][..i] == hits[..i];
        match hits[i].graphic {
          case Some(HitGraphic(Some(layer))) =>
            queries := queries + [Query(layer, point, "intersects")];
          case _ =>
        }
        i := i + 1;
      }
      assert hits[..|hits|] == hits;
      outcome := Queried(queries);
    }

    /** Part of `createGDPChart`: destroy-then-create on the bar-chart canvas. */
    method CreateGdpChart(jsonData: SelectedPolygons, chartData: seq<real>)
      modifies this
      ensures State() == Selection.CreateGdpChart(old(State()), jsonData, chartData)
    {
      if |gdpChart| > 0 {
        gdpChart := Destroy(gdpChart);
      }
      RemoveDesc();
      gdpChart := Create(gdpChart, BarData(jsonData.labels, chartData));
    }

    /**
     * The continuation of `queryFeatures`: push while fewer than two are
     * held, then with exactly two build the comparison record and draw the
     * GDP chart. The record is returned for the two requests it starts.
     */
    method OnQueryResult(features: seq<Feature>) returns (fired: Option<SelectedPolygons>)
      requires Valid()
      modifies this
      ensures (State(), fired) == QueryStep(old(State()), features)
      ensures Valid()
    {
      var i := 0;
      while i < |features|
        invariant 0 <= i <= |features|
        invariant State() == SelectWhileRoom(old(State()), features[..i])
      {
        assert features[..i + 1][..i] == features[..i];
        var feature := features[i];
        if |selectedFeatures| < MaxSelected {
          selectedAttributes := selectedAttributes + [feature.attributes];
          var selectedGraphic := Graphic(feature.geometry);
          graphics := graphics + [selectedGraphic];
          selectedFeatures := selectedFeatures + [selectedGraphic];
        }
        i := i + 1;
      }
      assert features[..|features|] == features;
      if |selectedAttributes| == MaxSelected {
        var selectedPolygons := Compare(selectedAttributes);
        CreateGdpChart(selectedPolygons, selectedPolygons.gdp);
        fired := Some(selectedPolygons);
      } else {
        fired := None;
      }
      QueryAppendsThenCompares(old(State()), features);
    }

    /** The continuation of `getCountrydata` once the observations have been read. */
    method OnHousingData(code1: string, code2: string, periods: seq<string>,
                         observations1: seq<seq<real>>, observations2: seq<seq<real>>)
      requires Valid()
      modifies this
      ensures State() == HousingStep(old(State()), code1, code2, periods, observations1, observations2)
      ensures Valid()
    {
      var dataPoints1 := ObservationValues(observations1);
      var object1 := CombineLabelsAndData(periods, dataPoints1);
      var dataPoints2 := ObservationValues(observations2);
      var object2 := CombineLabelsAndData(periods, dataPoints2);
      if |hpiChart| > 0 {
        hpiChart := Destroy(hpiChart);
      }
      RemoveDesc();
      hpiChart := Create(hpiChart, LineData(code1, object1, code2, object2));
      HousingDrawsOne(old(State()), code1, code2, periods, observations1, observations2);
    }

    /** The continuation of `addEmojis` once both flags have been read. */
    method OnFlags(flag1: string, flag2: string)
      requires Valid()
      modifies this
      ensures State() == FlagsStep(old(State()), flag1, flag2)
      ensures Valid()
    {
      comparison := comparison + ComparisonText(flag1, flag2);
    }
  }

  /**
   * A whole session: Estonia then Latvia are selected, the GDP chart shows
   * their two bars in that order, both requests come back, and a third
   * click resets the page.
   */
  method EstoniaLatviaSession() returns (bars: Option<Chart<BarData>>, afterReset: View)
    ensures bars == Some(Chart(BarData(["Estonia", "Latvia"], [30000.0, 45000.0]), true))
    ensures afterReset.features == [] && afterReset.attributes == [] && afterReset.graphics == []
    ensures afterReset.comparison == "" && afterReset.descVisible
    ensures LiveCount(afterReset.gdpChart) == 0 && LiveCount(afterReset.hpiChart) == 0
  {
    var t := new SelectionTracker();
    var estonia := Feature(Attributes("Estonia", "EST", 1326535, 30000.0), [(24.0, 59.0)]);
    var latvia := Feature(Attributes("Latvia", "LVA", 1907675, 45000.0), [(24.0, 57.0)]);
    var hits := [HitResult(Some(HitGraphic(Some("baltic"))))];

    var outcome := t.Click((24.7, 59.4), hits);
    var fired := t.OnQueryResult([estonia]);
    QueryAppendsThenCompares(Initial(), [estonia]);
    assert |t.selectedAttributes| == 1;

    outcome := t.Click((24.1, 56.9), hits);
    ghost var before := t.State();
    fired := t.OnQueryResult([latvia]);
    QueryAppendsThenCompares(before, [latvia]);
    assert t.selectedAttributes == [estonia.attributes, latvia.attributes];
    bars := Handle(t.gdpChart);

    t.OnHousingData("EST", "LVA", ["2020", "2021", "2022"],
                    [[100.0], [105.0], [110.0]], [[98.0], [102.0], [108.0]]);
    t.OnFlags("EE", "LV");

    ghost var full := t.State();
    outcome := t.Click((25.0, 58.0), hits);
    afterReset := t.State();
    ClearResets(full);
  }
}

/**
 * The chart instances drawn on one canvas. The widget keeps, per canvas,
 * one variable (`gdpChart`, `hpiChart`) that is `null` until the first
 * chart is made and afterwards refers to the chart made last. A canvas is
 * modelled as every instance ever drawn on it, oldest first; the variable is
 * its last element.
 */
module Charts {
  import opened Wrappers

  /** One charting-library instance and whether it is still drawn (not destroyed). */
  datatype Chart<C> = Chart(content: C, live: bool)

  type Canvas<C> = seq<Chart<C>>

  /** The page's chart variable: `null`, or the instance made last. */
  function Handle<C>(canvas: Canvas<C>): Option<Chart<C>>
  {
    if |canvas| == 0 then None else Some(canvas[|canvas| - 1])
  }

  /** Every instance but the one the variable refers to has been destroyed. */
  predicate OnlyLastMayLive<C>(canvas: Canvas<C>)
  {
    forall i :: 0 <= i < |canvas| - 1 ==> !canvas[i].live
  }

  /** The number of instances still drawn on the canvas. */
  function LiveCount<C>(canvas: Canvas<C>): nat
    decreases |canvas|
  {
    if |canvas| == 0 then 0
    else LiveCount(canvas[..|canvas| - 1]) + (if canvas[|canvas| - 1].live then 1 else 0)
  }

  /** `chart.destroy()` through the variable; it needs a chart to call it on. */
  function Destroy<C>(canvas: Canvas<C>): Canvas<C>
    requires |canvas| > 0
  {
    canvas[|canvas| - 1 := canvas[|canvas| - 1].(live := false)]
  }

  /** `chart = new Chart(ctx, config)`: a new instance drawn on the canvas. */
  function Create<C>(canvas: Canvas<C>, content: C): Canvas<C>
  {
    canvas + [Chart(content, true)]
  }

  /** `if (chart != null) { chart.destroy(); } ... chart = new Chart(ctx, config);` */
  function Replace<C>(canvas: Canvas<C>, content: C): Canvas<C>
  {
    Create(if |canvas| > 0 then Destroy(canvas) else canvas, content)
  }

  /** A canvas whose older instances are all destroyed draws at most one, the variable's. */
  lemma {:induction false} LiveCountOfHandle<C>(canvas: Canvas<C>)
    requires OnlyLastMayLive(canvas)
    ensures LiveCount(canvas) == if |canvas| > 0 && canvas[|canvas| - 1].live then 1 else 0
  {
    if |canvas| > 0 {
      var front := canvas[..|canvas| - 1];
      NoneLive(front);
    }
  }

  /** A canvas on which every instance is destroyed draws nothing. */
  lemma {:induction false} NoneLive<C>(canvas: Canvas<C>)
    requires forall i :: 0 <= i < |canvas| ==> !canvas[i].live
    ensures LiveCount(canvas) == 0
    decreases |canvas|
  {
    if |canvas| > 0 {
      NoneLive(canvas[..|canvas| - 1]);
    }
  }

  /** Destroying through the variable leaves nothing drawn and keeps the discipline. */
  lemma DestroyLeavesNoneLive<C>(canvas: Canvas<C>)
    requires |canvas| > 0 && OnlyLastMayLive(canvas)
    ensures OnlyLastMayLive(Destroy(canvas))
    ensures LiveCount(Destroy(canvas)) == 0
    ensures Handle(Destroy(canvas)) == Some(canvas[|canvas| - 1].(live := false))
  {
    NoneLive(Destroy(canvas));
  }

  /**
   * Destroy-then-create: afterwards the variable refers to a new, live
   * instance with the given content, every older instance is destroyed,
   * exactly one instance is drawn, and the older instances' contents are kept.
   */
  lemma ReplaceLeavesOneLive<C>(canvas: Canvas<C>, content: C)
    requires OnlyLastMayLive(canvas)
    ensures var after := Replace(canvas, content);
      && |after| == |canvas| + 1
      && Handle(after) == Some(Chart(content, true))
      && (forall i :: 0 <= i < |canvas| ==> !after[i].live && after[i].content == canvas[i].content)
      && OnlyLastMayLive(after)
      && LiveCount(after) == 1
  {
    var after := Replace(canvas, content);
    LiveCountOfHandle(after);
  }

  /**
   * Creating without destroying first leaves the previous live instance
   * drawn too: two at once. This is the behaviour of a charting library that
   * accepts a canvas already in use; a library that refuses such a canvas
   * would throw instead.
   */
  lemma CreateWithoutDestroyDoubles<C>(canvas: Canvas<C>, content: C)
    requires OnlyLastMayLive(canvas) && |canvas| > 0 && canvas[|canvas| - 1].live
    ensures LiveCount(Create(canvas, content)) == 2
  {
    var after := Create(canvas, content);
    assert after[..|after| - 1] == canvas;
    LiveCountOfHandle(canvas);
  }
}

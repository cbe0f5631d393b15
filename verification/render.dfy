/** The arithmetic of drawing one tree (script.js and frontend/script.js,
    `renderTree`): the readiness test that reschedules the draw, the
    drawing-area size with its fallback, and the label box around each
    node's text. The layout itself and the text measurement belong to the
    drawing library and enter as numbers. */
module Render {
  import opened Wrappers

  const MarginTop: int := 20
  const MarginRight: int := 20
  const MarginBottom: int := 120
  const MarginLeft: int := 20
  const FallbackWidth: int := 600
  const FallbackHeight: int := 400

  /** JavaScript's `n || fallback` on a number: only an exact 0 falls back. */
  function OrFallback(n: int, fallback: int): int {
    if n != 0 then n else fallback
  }

  /** What one call of `renderTree` does: log a missing drawing area, retry
      in 50 ms because the area has no size yet, or draw with the given
      inner width and height. */
  datatype Step = Missing | Retry | Draw(width: int, height: int)

  /** One call of `renderTree`. The drawn width and height are never 0, and
      the SVG they produce (inner size plus margins) fills the area exactly,
      except that an area exactly 40 wide or 140 high gets the 600 by 400
      fallback. An area narrower than the margins yields a negative width,
      which is passed on as is. */
  function RenderStep(found: bool, clientWidth: nat, clientHeight: nat): (s: Step)
    ensures s.Missing? <==> !found
    ensures s.Retry? <==> found && (clientWidth == 0 || clientHeight == 0)
    ensures s.Draw? ==> s.width != 0 && s.height != 0
    ensures s.Draw? ==>
      s.width + MarginLeft + MarginRight == if clientWidth == 40 then 640 else clientWidth
    ensures s.Draw? ==>
      s.height + MarginTop + MarginBottom == if clientHeight == 140 then 540 else clientHeight
    ensures s.Draw? ==> (s.width < 0 <==> clientWidth < 40) && (s.height < 0 <==> clientHeight < 140)
  {
    if !found then Missing
    else if clientWidth == 0 || clientHeight == 0 then Retry
    else Draw(OrFallback(clientWidth - MarginLeft - MarginRight, FallbackWidth),
              OrFallback(clientHeight - MarginTop - MarginBottom, FallbackHeight))
  }

  /** What `renderTree` sees on one attempt. */
  datatype Observation = Observation(found: bool, clientWidth: nat, clientHeight: nat)

  function StepOf(o: Observation): Step {
    RenderStep(o.found, o.clientWidth, o.clientHeight)
  }

  /** Follows the retry chain through successive observations: the index of
      the first attempt that does not reschedule, and what it does; `None`
      while every attempt so far has rescheduled. */
  function Settle(trace: seq<Observation>): (r: Option<(nat, Step)>)
    ensures r.Some? ==>
      && r.value.0 < |trace|
      && r.value.1 == StepOf(trace[r.value.0])
      && !r.value.1.Retry?
      && forall j :: 0 <= j < r.value.0 ==> StepOf(trace[j]).Retry?
    ensures r.None? ==> forall j :: 0 <= j < |trace| ==> StepOf(trace[j]).Retry?
  {
    if |trace| == 0 then None
    else if !StepOf(trace[0]).Retry? then Some((0, StepOf(trace[0])))
    else match Settle(trace[1..])
      case None => None
      case Some((k, s)) => Some((k + 1, s))
  }

  /** An area that reports 0 by 0 three times and then 800 by 600 is drawn
      on the fourth attempt with an inner size of 760 by 460. */
  lemma SettleAfterThreeRetries()
    ensures var zero := Observation(true, 0, 0);
      Settle([zero, zero, zero, Observation(true, 800, 600)]) == Some((3, Draw(760, 460)))
  {
    var zero := Observation(true, 0, 0);
    var last := Observation(true, 800, 600);
    var t := [zero, zero, zero, last];
    assert StepOf(zero) == Retry;
    assert StepOf(last) == Draw(760, 460);
    assert Settle([last]) == Some((0, Draw(760, 460)));
    assert t[1..] == [zero, zero, last];
    assert [zero, zero, last][1..] == [zero, last];
    assert [zero, last][1..] == [last];
    assert Settle([zero, last]) == Some((1, Draw(760, 460)));
    assert Settle([zero, zero, last]) == Some((2, Draw(760, 460)));
  }

  /** A rectangle as the SVG attributes give it. */
  datatype Box = Box(x: real, y: real, width: real, height: real)

  /** The label box of script.js, from the measured text box: 10 units of
      padding left and right, 5 above and below, centred on the node. */
  function LabelBox(textWidth: real, textHeight: real): (b: Box)
    ensures b.x + b.width / 2.0 == 0.0 && b.y + b.height / 2.0 == 0.0
    ensures b.x == -textWidth / 2.0 - 10.0 && b.x + b.width == textWidth / 2.0 + 10.0
    ensures b.y == -textHeight / 2.0 - 5.0 && b.y + b.height == textHeight / 2.0 + 5.0
  {
    Box(-textWidth / 2.0 - 10.0, -textHeight / 2.0 - 5.0, textWidth + 20.0, textHeight + 10.0)
  }

  /** The label box of frontend/script.js, from the measured text width
      alone: 10 units of padding left and right, a fixed height of 30,
      centred on the node. */
  function FixedLabelBox(textWidth: real): (b: Box)
    ensures b.x + b.width / 2.0 == 0.0 && b.y + b.height / 2.0 == 0.0
    ensures b.x == -textWidth / 2.0 - 10.0 && b.x + b.width == textWidth / 2.0 + 10.0
    ensures b.height == 30.0
  {
    Box(-(textWidth / 2.0) - 10.0, -15.0, textWidth + 20.0, 30.0)
  }

  /** The two scripts draw the same box exactly when the text is 20 units
      high; a taller text overflows the fixed box of frontend/script.js. */
  lemma BoxesAgreeIff(textWidth: real, textHeight: real)
    ensures LabelBox(textWidth, textHeight) == FixedLabelBox(textWidth) <==> textHeight == 20.0
    ensures textHeight > 30.0 ==> FixedLabelBox(textWidth).y > -textHeight / 2.0
  {
  }
}

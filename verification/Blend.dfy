/** Blending the historical and the market band of a field into one suggestion. */
module Blend {
  import opened Json
  import ResearchBudget

  datatype Historical = Historical(value: Option<real>, sampleSize: int)

  datatype Market = Market(value: Option<real>, confidence: real)

  datatype Source = FromHistory | FromMarket | FromFlash

  datatype Blended =
    | NoSignal
    | Suggested(value: Option<real>, rationale: string, sources: seq<Source>)

  datatype Limits = Limits(minSample: int, confidence: real, disagreement: real)

  /** What asking the reconciler comes to: there is none, it has nothing to say, or it recommends a value. */
  datatype Flash = Absent | Silent | Recommends(value: real, rationale: string)

  const HIGH_SAMPLE: int := 10
  const LOW_SAMPLE: int := 3
  const STRONG: real := 0.7
  const MODERATE: real := 0.5

  /** Relative distance; anything but zero is infinitely far from zero. */
  datatype Distance = Finite(ratio: real) | Infinite

  function Abs(x: real): real {
    if x < 0.0 then -x else x
  }

  function Disagreement(h: Option<real>, m: Option<real>): Distance {
    if h.None? || m.None? then Finite(0.0)
    else if h.value == 0.0 then (if m.value != 0.0 then Infinite else Finite(0.0))
    else Finite(Abs(h.value - m.value) / Abs(h.value))
  }

  predicate Exceeds(d: Distance, threshold: real) {
    d.Infinite? || d.ratio > threshold
  }

  function Weighted(a: Option<real>, b: Option<real>, wa: real, wb: real): Option<real> {
    if a.None? then b
    else if b.None? then a
    else if wa + wb == 0.0 then None
    else Some((a.value * wa + b.value * wb) / (wa + wb))
  }

  const DEFAULT_RATIONALE: string := "disagreement >25% - reconciled by Gemini Flash"

  function FlashRationale(said: string): string {
    if said == "" then DEFAULT_RATIONALE else said
  }

  function MaybeReconcile(h: Option<real>, m: Option<real>, default: Option<real>, rationale: string, threshold: real,
                          flash: Flash): Blended
  {
    if h.Some? && m.Some? && Exceeds(Disagreement(h, m), threshold) then
      if flash.Recommends? then
        Suggested(Some(flash.value), FlashRationale(flash.rationale), [FromHistory, FromMarket, FromFlash])
      else
        Suggested(default, rationale + " (disagreement >25% - Flash fallback unavailable)", [FromHistory, FromMarket])
    else
      Suggested(default, rationale, [FromHistory, FromMarket])
  }

  /** blend: the ladder, first rung that fits. */
  function Ladder(h: Historical, m: Market, l: Limits, flash: Flash): Blended {
    var strong := h.sampleSize >= HIGH_SAMPLE && h.value.Some?;
    var moderate := LOW_SAMPLE <= h.sampleSize < HIGH_SAMPLE && h.value.Some?;
    var weak := h.sampleSize < l.minSample || h.value.None?;
    var marketStrong := m.value.Some? && m.confidence >= STRONG;
    var marketPresent := m.value.Some? && m.confidence > 0.0;
    if weak && m.confidence < l.confidence then NoSignal
    else if strong && marketStrong then
      MaybeReconcile(h.value, m.value, Weighted(h.value, m.value, 0.7, 0.3),
                     "strong historical + strong market signal (70/30)", l.disagreement, flash)
    else if moderate && marketPresent then
      MaybeReconcile(h.value, m.value, Weighted(h.value, m.value, 0.5, 0.5),
                     "moderate historical + market (50/50)", l.disagreement, flash)
    else if h.sampleSize < LOW_SAMPLE && m.value.Some? && m.confidence >= MODERATE then
      Suggested(m.value, "low-data corridor - market only", [FromMarket])
    else if h.value.Some? && h.sampleSize >= l.minSample then
      Suggested(h.value, "historical only", [FromHistory])
    else if m.value.Some? && m.confidence >= l.confidence then
      Suggested(m.value, "market only", [FromMarket])
    else NoSignal
  }

  /** When the asynchronous wrapper asks the reconciler: it looks at the bands only, not at the first rung. */
  predicate NeedsReconcile(h: Historical, m: Market, l: Limits) {
    && h.value.Some? && m.value.Some?
    && Exceeds(Disagreement(h.value, m.value), l.disagreement)
    && ((h.sampleSize >= HIGH_SAMPLE && m.confidence >= STRONG)
        || (LOW_SAMPLE <= h.sampleSize < HIGH_SAMPLE && m.confidence > 0.0))
  }

  /** blend_async. */
  function LadderAsync(h: Historical, m: Market, l: Limits, flash: Flash): Blended {
    if NeedsReconcile(h, m, l) && flash.Recommends? then
      Suggested(Some(flash.value), FlashRationale(flash.rationale), [FromHistory, FromMarket, FromFlash])
    else Ladder(h, m, l, Absent)
  }

  // ----- when there is a suggestion -----

  /** No suggestion is made exactly when history is too thin and the market is not confident or has no value; no
      reconciler changes that. */
  lemma NoSignalExactly(h: Historical, m: Market, l: Limits, flash: Flash)
    ensures Ladder(h, m, l, flash) == NoSignal <==>
            (h.sampleSize < l.minSample || h.value.None?) && (m.confidence < l.confidence || m.value.None?)
  {
  }

  // ----- what the suggestion is -----

  lemma RatioExceeds(x: real, y: real, t: real)
    requires 0.0 < y
    ensures x / y > t <==> x > t * y
  {
    assert x == (x / y) * y;
    if x / y > t {
      ProductPositive(x / y - t, y);
    } else {
      ProductSign(t - x / y, y);
    }
  }

  lemma ProductPositive(x: real, y: real)
    requires 0.0 < x && 0.0 < y
    ensures 0.0 < x * y
  {
  }

  /** Two values disagree when they lie further apart than the given part of the historical one; zero history, whose
      distance to anything else is infinite, is no exception. */
  lemma ExceedsExactly(h: real, m: real, threshold: real)
    requires 0.0 <= threshold
    ensures Exceeds(Disagreement(Some(h), Some(m)), threshold) <==> Abs(h - m) > threshold * Abs(h)
  {
    if h != 0.0 {
      RatioExceeds(Abs(h - m), Abs(h), threshold);
    }
  }

  /** Without a recommendation, two strong bands meet three tenths of the way from history to market, and a moderate
      history meets any present market half way. */
  lemma BlendPosition(h: Historical, m: Market, l: Limits, flash: Flash)
    requires h.value.Some? && m.value.Some? && !flash.Recommends?
    requires !(h.sampleSize < l.minSample && m.confidence < l.confidence)
    ensures h.sampleSize >= 10 && m.confidence >= 0.7 ==>
              Ladder(h, m, l, flash).value == Some(h.value.value + 0.3 * (m.value.value - h.value.value))
    ensures 3 <= h.sampleSize < 10 && m.confidence > 0.0 ==>
              Ladder(h, m, l, flash).value == Some((h.value.value + m.value.value) / 2.0)
  {
  }

  predicate Between(x: real, a: real, b: real) {
    a <= x <= b || b <= x <= a
  }

  lemma ProductSign(x: real, y: real)
    requires 0.0 <= x && 0.0 <= y
    ensures 0.0 <= x * y
  {
  }

  lemma WeightedBetween(a: real, b: real, wa: real, wb: real)
    requires 0.0 <= wa && 0.0 <= wb && wa + wb == 1.0
    ensures Weighted(Some(a), Some(b), wa, wb).Some?
    ensures Between(Weighted(Some(a), Some(b), wa, wb).value, a, b)
  {
    assert a * wa + b * wb == a + (b - a) * wb == b + (a - b) * wa;
    if a <= b {
      ProductSign(b - a, wb);
      ProductSign(b - a, wa);
    } else {
      ProductSign(a - b, wb);
      ProductSign(a - b, wa);
    }
  }

  /** What two bands come to, whether or not they are reconciled. */
  lemma TwoSources(h: real, m: real, default: Option<real>, rationale: string, threshold: real, flash: Flash)
    requires default.Some? && Between(default.value, h, m)
    ensures var s := MaybeReconcile(Some(h), Some(m), default, rationale, threshold, flash);
            && s.Suggested? && s.value.Some?
            && ((s.sources == [FromHistory, FromMarket] && Between(s.value.value, h, m))
                || (s.sources == [FromHistory, FromMarket, FromFlash]
                    && flash.Recommends? && s.value == Some(flash.value)))
  {
  }

  /** Every suggestion has a value and names its sources truthfully: one source gives its own value, two give a value
      between theirs, and with the reconciler it is the recommended one. */
  lemma SourcesExplainValue(h: Historical, m: Market, l: Limits, flash: Flash)
    requires Ladder(h, m, l, flash).Suggested?
    ensures var s := Ladder(h, m, l, flash);
            && s.value.Some?
            && (FromHistory in s.sources ==> h.value.Some?)
            && (FromMarket in s.sources ==> m.value.Some?)
            && (s.sources == [FromHistory] ==> s.value == h.value)
            && (s.sources == [FromMarket] ==> s.value == m.value)
            && (s.sources == [FromHistory, FromMarket] ==> Between(s.value.value, h.value.value, m.value.value))
            && (FromFlash in s.sources ==> flash.Recommends? && s.value == Some(flash.value))
            && s.sources in {[FromHistory], [FromMarket], [FromHistory, FromMarket],
                             [FromHistory, FromMarket, FromFlash]}
  {
    if h.value.Some? && m.value.Some? {
      var a, b := h.value.value, m.value.value;
      WeightedBetween(a, b, 0.7, 0.3);
      WeightedBetween(a, b, 0.5, 0.5);
      TwoSources(a, b, Weighted(h.value, m.value, 0.7, 0.3), "strong historical + strong market signal (70/30)",
                 l.disagreement, flash);
      TwoSources(a, b, Weighted(h.value, m.value, 0.5, 0.5), "moderate historical + market (50/50)",
                 l.disagreement, flash);
    }
  }

  /** A suggestion of one band alone: history decides from the minimum sample on, unless both bands are blended or the
      market takes over a history of fewer than three; the market decides where history is too thin. */
  lemma OneBandExactly(h: Historical, m: Market, l: Limits, flash: Flash)
    requires Ladder(h, m, l, flash).Suggested?
    ensures var s := Ladder(h, m, l, flash);
            var blended := h.value.Some? && m.value.Some?
                           && ((h.sampleSize >= 10 && m.confidence >= 0.7)
                               || (3 <= h.sampleSize < 10 && m.confidence > 0.0));
            var corridor := h.sampleSize < 3 && m.value.Some? && m.confidence >= 0.5;
            && (s.sources == [FromHistory] <==>
                  !blended && !corridor && h.value.Some? && h.sampleSize >= l.minSample)
            && (s.sources == [FromMarket] <==>
                  !blended && (corridor || h.value.None? || h.sampleSize < l.minSample))
            && (s.sources == [FromHistory] ==> s.rationale == "historical only")
            && (s.sources == [FromMarket] ==>
                  s.rationale == if corridor then "low-data corridor - market only" else "market only")
  {
  }

  /** What the user is told of two bands: how they were weighted, and that they lie too far apart if they do. */
  lemma TwoBandsTold(h: Historical, m: Market, l: Limits, flash: Flash)
    requires Ladder(h, m, l, flash).Suggested? && Ladder(h, m, l, flash).sources == [FromHistory, FromMarket]
    requires 0.0 <= l.disagreement
    ensures h.value.Some? && m.value.Some?
    ensures var weights := if h.sampleSize >= 10 then "strong historical + strong market signal (70/30)"
                           else "moderate historical + market (50/50)";
            Ladder(h, m, l, flash).rationale
            == if Abs(h.value.value - m.value.value) > l.disagreement * Abs(h.value.value)
               then weights + " (disagreement >25% - Flash fallback unavailable)" else weights
  {
    ExceedsExactly(h.value.value, m.value.value, l.disagreement);
  }

  lemma ReconciledTold(h: Option<real>, m: Option<real>, default: Option<real>, rationale: string, threshold: real,
                       flash: Flash)
    ensures var s := MaybeReconcile(h, m, default, rationale, threshold, flash);
            && s.Suggested?
            && (FromFlash in s.sources ==>
                  flash.Recommends?
                  && s.rationale == if flash.rationale == "" then "disagreement >25% - reconciled by Gemini Flash"
                                    else flash.rationale)
  {
  }

  /** And of a recommendation: what the reconciler said, or the default reason if it gave none. */
  lemma FlashTold(h: Historical, m: Market, l: Limits, flash: Flash)
    requires Ladder(h, m, l, flash).Suggested? && FromFlash in Ladder(h, m, l, flash).sources
    ensures flash.Recommends?
    ensures Ladder(h, m, l, flash).rationale
         == if flash.rationale == "" then "disagreement >25% - reconciled by Gemini Flash" else flash.rationale
  {
    ReconciledTold(h.value, m.value, Weighted(h.value, m.value, 0.7, 0.3),
                   "strong historical + strong market signal (70/30)", l.disagreement, flash);
    ReconciledTold(h.value, m.value, Weighted(h.value, m.value, 0.5, 0.5), "moderate historical + market (50/50)",
                   l.disagreement, flash);
  }

  /** The reconciler decides exactly when it speaks, both bands count, and they lie too far apart. */
  lemma FlashExactly(h: Historical, m: Market, l: Limits, flash: Flash)
    ensures (Ladder(h, m, l, flash).Suggested? && FromFlash in Ladder(h, m, l, flash).sources) <==>
            flash.Recommends? && NeedsReconcile(h, m, l) && !(h.sampleSize < l.minSample && m.confidence < l.confidence)
  {
  }

  // ----- the two ways to blend -----

  /** The asynchronous wrapper gives what the ladder gives, except for a recommendation on a history below the minimum
      and a market below the threshold: there the ladder stays silent and the wrapper suggests. */
  lemma AsyncAgreesExactly(h: Historical, m: Market, l: Limits, flash: Flash)
    ensures LadderAsync(h, m, l, flash) == Ladder(h, m, l, flash) <==>
            !(flash.Recommends? && NeedsReconcile(h, m, l) && h.sampleSize < l.minSample && m.confidence < l.confidence)
  {
    if NeedsReconcile(h, m, l) {
      assert h.sampleSize >= HIGH_SAMPLE || LOW_SAMPLE <= h.sampleSize < HIGH_SAMPLE;
    }
  }

  /** With the shipped minimum, or any lower one, the two always agree. */
  lemma AsyncAgreesByDefault(h: Historical, m: Market, l: Limits, flash: Flash)
    requires l.minSample <= LOW_SAMPLE
    ensures LadderAsync(h, m, l, flash) == Ladder(h, m, l, flash)
  {
    AsyncAgreesExactly(h, m, l, flash);
  }

  /** A higher minimum is enough to make them differ. */
  lemma AsyncDiffers(flash: Flash)
    requires flash.Recommends?
    ensures var h, m, l := Historical(Some(100.0), 3), Market(Some(200.0), 0.2), Limits(4, 0.5, 0.25);
            Ladder(h, m, l, flash) == NoSignal && LadderAsync(h, m, l, flash).Suggested?
  {
    assert Disagreement(Some(100.0), Some(200.0)) == Finite(1.0);
  }

  // ----- the reconciler -----

  /** FlashReconciler.reconcile: asks only within the allowance and charges only a reply, even one it cannot read. */
  method Reconcile(budget: ResearchBudget.RunBudget, configured: bool, estimate: real, reply: Option<Flash>)
    returns (f: ResearchBudget.Answer<Flash>)
    requires reply.Some? ==> !reply.value.Absent?
    modifies budget
    ensures f.ValueError? <==> configured && estimate < 0.0
    ensures var asked := configured && estimate >= 0.0
                      && ResearchBudget.Allows(old(budget.State()), budget.maxCalls, budget.maxCost, estimate);
            && (f.Ok? ==> f.value == if asked && reply.Some? then reply.value else Silent)
            && budget.State() == (if asked && reply.Some?
                                  then ResearchBudget.Recorded(old(budget.State()), estimate)
                                  else old(budget.State()))
  {
    if !configured {
      return ResearchBudget.Ok(Silent);
    }
    var allowed := budget.CanSpend(estimate);
    if allowed.ValueError? {
      return ResearchBudget.ValueError;
    }
    if !allowed.value || reply.None? {
      return ResearchBudget.Ok(Silent);
    }
    var _ := budget.Record(estimate);
    return ResearchBudget.Ok(reply.value);
  }
}

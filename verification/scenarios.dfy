/** Concrete chains: the table of chains in `test.py`, and the two quirks of
    construction (a zero first ceiling, and endpoints disabled by the
    filter after they were checked). */
module Scenarios {
  import opened Types
  import opened Substrings
  import opened Cells
  import opened Pipeline
  import opened Propagation
  import opened Cache
  import opened Chain

  /** An unlabelled bounded limit. */
  function Lim(c: real): Stage {
    Limit(Some(c), None)
  }

  /** The three chains `test.py` expects to be rejected, plus a scale at the end. */
  lemma RejectedChains()
    ensures NewHeadroomModel([Scale(1.0)], None) == Err(TooFewCells)
    ensures NewHeadroomModel([Lim(1.0)], None) == Err(TooFewCells)
    ensures NewHeadroomModel([Lim(1.0), Scale(10.0)], None) == Err(TooFewCells)
    ensures NewHeadroomModel([Lim(1.0), Scale(10.0), Scale(1.0)], None) == Err(LastNotLimit)
    ensures MakeLimit(Some(-1.0), None) == Ok(Limit(None, None))
    ensures NewHeadroomModel([Limit(None, None), Scale(10.0), Lim(1.0)], None) == Err(FirstNotLimit)
  {
  }

  /** The constructed model and what its first `cached_values` call returns,
      given the boundary values propagation stores. */
  lemma FirstCall(cells: seq<Stage>, vs: seq<real>)
    requires WellFormed(cells)
    requires forall i :: 0 <= i < |vs| ==> vs[i] < OverflowBound
    ensures NewHeadroomModel(cells, None) == Ok(HeadroomModel(cells, None))
    ensures BoundaryValues(cells) == Ok(vs) ==>
              && CachedValues(HeadroomModel(cells, None), false) == (HeadroomModel(cells, Some(vs)), Ok(vs))
              && GetRInMax(HeadroomModel(cells, None)).1 == Ok(vs[0])
              && GetROutMax(HeadroomModel(cells, None)).1 == Ok(vs[|vs| - 1])
  {
    assert !Overflows(vs);
  }

  /** `[Limit(10), Scale(2), Limit(1), Limit(2)]` stores `[0.5, 0.5, 1, 1, 1]`. */
  lemma ScaleUpThenLimit()
    ensures var cells := [Lim(10.0), Scale(2.0), Lim(1.0), Lim(2.0)];
            NewHeadroomModel(cells, None) == Ok(HeadroomModel(cells, None))
            && CachedValues(HeadroomModel(cells, None), false).1 == Ok([0.5, 0.5, 1.0, 1.0, 1.0])
            && GetRInMax(HeadroomModel(cells, None)).1 == Ok(0.5)
  {
    var cells := [Lim(10.0), Scale(2.0), Lim(1.0), Lim(2.0)];
    var fwd := [10.0, 10.0, 20.0, 1.0, 1.0];
    ChainIsForwardTrace(cells, fwd);
    var vs := [0.5, 0.5, 1.0, 1.0, 1.0];
    BackwardTraceExact(cells, vs);
    FirstCall(cells, vs);
  }

  /** `[Limit(0.1), Scale(2), Limit(1), Limit(2)]` stores `[0.1, 0.1, 0.2, 0.2, 0.2]`. */
  lemma InputLimitBinds()
    ensures var cells := [Lim(0.1), Scale(2.0), Lim(1.0), Lim(2.0)];
            NewHeadroomModel(cells, None) == Ok(HeadroomModel(cells, None))
            && CachedValues(HeadroomModel(cells, None), false).1 == Ok([0.1, 0.1, 0.2, 0.2, 0.2])
            && GetRInMax(HeadroomModel(cells, None)).1 == Ok(0.1)
  {
    var cells := [Lim(0.1), Scale(2.0), Lim(1.0), Lim(2.0)];
    var fwd := [0.1, 0.1, 0.2, 0.2, 0.2];
    ChainIsForwardTrace(cells, fwd);
    BackwardTraceExact(cells, fwd);
    FirstCall(cells, fwd);
  }

  /** `[Limit(10), Scale(2), Limit(1), Limit(0.2)]` stores `[0.1, 0.1, 0.2, 0.2, 0.2]`:
      the tighter limit downstream binds. */
  lemma DownstreamLimitBinds()
    ensures var cells := [Lim(10.0), Scale(2.0), Lim(1.0), Lim(0.2)];
            NewHeadroomModel(cells, None) == Ok(HeadroomModel(cells, None))
            && CachedValues(HeadroomModel(cells, None), false).1 == Ok([0.1, 0.1, 0.2, 0.2, 0.2])
            && GetRInMax(HeadroomModel(cells, None)).1 == Ok(0.1)
  {
    var cells := [Lim(10.0), Scale(2.0), Lim(1.0), Lim(0.2)];
    var fwd := [10.0, 10.0, 20.0, 1.0, 0.2];
    ChainIsForwardTrace(cells, fwd);
    var vs := [0.1, 0.1, 0.2, 0.2, 0.2];
    BackwardTraceExact(cells, vs);
    FirstCall(cells, vs);
  }

  /** `[Limit(10), Scale(0.5), Limit(1), Limit(0.2)]` stores `[0.4, 0.4, 0.2, 0.2, 0.2]`:
      a ratio below one attenuates before the limits. */
  lemma AttenuateThenLimit()
    ensures var cells := [Lim(10.0), Scale(0.5), Lim(1.0), Lim(0.2)];
            NewHeadroomModel(cells, None) == Ok(HeadroomModel(cells, None))
            && CachedValues(HeadroomModel(cells, None), false).1 == Ok([0.4, 0.4, 0.2, 0.2, 0.2])
            && GetRInMax(HeadroomModel(cells, None)).1 == Ok(0.4)
  {
    var cells := [Lim(10.0), Scale(0.5), Lim(1.0), Lim(0.2)];
    var fwd := [10.0, 10.0, 5.0, 1.0, 0.2];
    ChainIsForwardTrace(cells, fwd);
    var vs := [0.4, 0.4, 0.2, 0.2, 0.2];
    BackwardTraceExact(cells, vs);
    FirstCall(cells, vs);
  }

  /** A first ceiling of zero is falsy, so the seed is the sentinel; the
      zero ceiling still binds on the first forward step. */
  lemma ZeroFirstCeiling()
    ensures var cells := [Lim(0.0), Scale(2.0), Lim(1.0)];
            Seed(cells) == DefaultMax
            && CachedValues(HeadroomModel(cells, None), false).1 == Ok([0.0, 0.0, 0.0, 0.0])
  {
    var cells := [Lim(0.0), Scale(2.0), Lim(1.0)];
    ChainIsForwardTrace(cells, [DefaultMax, 0.0, 0.0, 0.0]);
    var vs := [0.0, 0.0, 0.0, 0.0];
    BackwardTraceExact(cells, vs);
    FirstCall(cells, vs);
  }

  /** The endpoint checks run before the filter: a chain whose last limit's
      label does not match is accepted, and its last stage is then disabled. */
  lemma FilterUnboundsCheckedEndpoint()
    ensures var cells := [Limit(Some(1.0), Some("adc")), Scale(2.0), Limit(Some(1.0), Some("fft"))];
            NewHeadroomModel(cells, Some("adc")) == Ok(HeadroomModel([cells[0], Scale(2.0), Limit(None, None)], None))
  {
    var cells := [Limit(Some(1.0), Some("adc")), Scale(2.0), Limit(Some(1.0), Some("fft"))];
    assert "fft"[1..] == "ft" && "ft"[1..] == "t" && "t"[1..] == "";
    assert "fft"[..3] == "fft" && "fft"[0] != "adc"[0];
    assert !Contains("", "adc") && !Contains("t", "adc") && !Contains("ft", "adc") && !Contains("fft", "adc");
    assert FilterCell(cells[2], "adc") == Limit(None, None);
    assert FilterCell(cells[0], "adc") == cells[0];
    assert ApplyFilter(cells, "adc") == [cells[0], Scale(2.0), Limit(None, None)];
  }
}

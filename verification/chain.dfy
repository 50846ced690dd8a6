/** What propagation computes, over exact arithmetic: with positive ratios the
    backward pass never saturates, the stored boundary values are exactly
    the forward run from the first of them, and that first value is the
    largest input that no limit clips. Also the two degenerate chains the
    model is checked against: limits only, and no limits at all. */
module Chain {
  import opened Types
  import opened Cells
  import opened Substrings
  import opened Pipeline
  import opened Propagation
  import opened Cache

  /** Every scale multiplies by a positive ratio. */
  predicate PositiveRatios(cells: seq<Stage>) {
    forall i :: 0 <= i < |cells| && cells[i].Scale? ==> cells[i].ratio > 0.0
  }

  /** Running forward from `x`, no bounded limit receives more than its ceiling. */
  ghost predicate NoClip(cells: seq<Stage>, x: real) {
    forall i :: 0 <= i < |cells| && Bounded(cells[i]) ==> ForwardTrace(cells, x)[i] <= cells[i].ceiling.value
  }

  /** With positive ratios, a larger input gives a larger value at every boundary. */
  lemma {:induction false} ForwardMonotone(cells: seq<Stage>, x: real, y: real)
    requires PositiveRatios(cells)
    requires x <= y
    ensures forall i :: 0 <= i <= |cells| ==> ForwardTrace(cells, x)[i] <= ForwardTrace(cells, y)[i]
    decreases |cells|
  {
    if |cells| > 0 {
      VOutMonotone(cells[0], x, y);
      ForwardMonotone(cells[1..], VOut(cells[0], x), VOut(cells[0], y));
      assert ForwardTrace(cells, x) == [x] + ForwardTrace(cells[1..], VOut(cells[0], x));
      assert ForwardTrace(cells, y) == [y] + ForwardTrace(cells[1..], VOut(cells[0], y));
    }
  }

  /** A sequence that each stage maps onto its successor is the forward run
      from its first element. */
  lemma {:induction false} ChainIsForwardTrace(cells: seq<Stage>, b: seq<real>)
    requires |b| == |cells| + 1
    requires forall i :: 0 <= i < |cells| ==> VOut(cells[i], b[i]) == b[i + 1]
    ensures ForwardTrace(cells, b[0]) == b
    decreases |cells|
  {
    if |cells| > 0 {
      assert forall i :: 0 <= i < |cells| - 1 ==> cells[1..][i] == cells[i + 1] && b[1..][i + 1] == b[i + 2];
      ChainIsForwardTrace(cells[1..], b[1..]);
      assert ForwardTrace(cells, b[0]) == [b[0]] + ForwardTrace(cells[1..], b[1]);
      assert [b[0]] + b[1..] == b;
    } else {
      assert b == [b[0]];
    }
  }

  /** The backward pass from any output at or below what the forward run
      from `v` reached never fails; it stays at or below that forward run at
      every boundary, each stage maps it onto its next value, and every
      limit passes it through unchanged (so the snap never fires). */
  lemma {:induction false} BackwardFollowsForward(cells: seq<Stage>, v: real, out: real)
    requires PositiveRatios(cells)
    requires out <= Forward(cells, v)
    ensures BackwardTrace(cells, out).Ok?
    ensures var b := BackwardTrace(cells, out).value;
            forall i :: 0 <= i <= |cells| ==> b[i] <= ForwardTrace(cells, v)[i]
    ensures var b := BackwardTrace(cells, out).value;
            forall i :: 0 <= i < |cells| ==> VOut(cells[i], b[i]) == b[i + 1]
    ensures var b := BackwardTrace(cells, out).value;
            forall i :: 0 <= i < |cells| && cells[i].Limit? ==> b[i] == b[i + 1]
    decreases |cells|
  {
    if |cells| > 0 {
      var v1 := VOut(cells[0], v);
      assert ForwardTrace(cells, v) == [v] + ForwardTrace(cells[1..], v1);
      BackwardFollowsForward(cells[1..], v1, out);
      var tail := BackwardTrace(cells[1..], out).value;
      StepBack(cells[0], v, tail[0]);
      var b := [VIn(cells[0], tail[0]).value] + tail;
      assert BackwardTrace(cells, out) == Ok(b);
      forall i | 0 <= i < |cells|
        ensures VOut(cells[i], b[i]) == b[i + 1]
        ensures cells[i].Limit? ==> b[i] == b[i + 1]
      {
        if i > 0 {
          assert cells[i] == cells[1..][i - 1];
        }
      }
    }
  }

  /** Chain consistency of the stored boundary values, for positive ratios:
      propagation succeeds; the values are the forward run from the first of
      them; they never exceed the forward run from the seed; the last is the
      achievable output; every bounded limit passes its value unchanged and
      at or below its ceiling; so the first value is clipped nowhere. */
  lemma ChainConsistency(cells: seq<Stage>)
    requires |cells| > 0
    requires PositiveRatios(cells)
    ensures BoundaryValues(cells).Ok?
    ensures var b := BoundaryValues(cells).value;
            && ForwardTrace(cells, b[0]) == b
            && b[0] <= Seed(cells)
            && b[|cells|] == Forward(cells, Seed(cells))
            && (forall i :: 0 <= i <= |cells| ==> b[i] <= ForwardTrace(cells, Seed(cells))[i])
    ensures var b := BoundaryValues(cells).value;
            forall i :: 0 <= i < |cells| && Bounded(cells[i]) ==> b[i] == b[i + 1] <= cells[i].ceiling.value
    ensures NoClip(cells, BoundaryValues(cells).value[0])
  {
    var s := Seed(cells);
    var out := Forward(cells, s);
    BackwardFollowsForward(cells, s, out);
    var b := BackwardTrace(cells, out).value;
    assert BoundaryValues(cells) == Ok(b);
    ChainIsForwardTrace(cells, b);
    forall i | 0 <= i < |cells| && Bounded(cells[i])
      ensures b[i] == b[i + 1] <= cells[i].ceiling.value
      ensures ForwardTrace(cells, b[0])[i] <= cells[i].ceiling.value
    {
      assert VOut(cells[i], b[i]) == b[i + 1];
    }
  }

  /** Any input that no limit clips, started from at or below `v`, lies at or
      below the start of the backward trace from the corresponding output. */
  lemma {:induction false} NoClipBelowBackward(cells: seq<Stage>, x: real, v: real, out: real)
    requires PositiveRatios(cells)
    requires x <= v
    requires NoClip(cells, x)
    requires Forward(cells, x) <= out <= Forward(cells, v)
    ensures BackwardTrace(cells, out).Ok?
    ensures x <= BackwardTrace(cells, out).value[0]
    decreases |cells|
  {
    BackwardFollowsForward(cells, v, out);
    if |cells| > 0 {
      var c0 := cells[0];
      var x1 := VOut(c0, x);
      var v1 := VOut(c0, v);
      VOutMonotone(c0, x, v);
      assert ForwardTrace(cells, x) == [x] + ForwardTrace(cells[1..], x1);
      assert ForwardTrace(cells, v) == [v] + ForwardTrace(cells[1..], v1);
      assert NoClip(cells[1..], x1) by {
        forall i | 0 <= i < |cells| - 1 && Bounded(cells[1..][i])
          ensures ForwardTrace(cells[1..], x1)[i] <= cells[1..][i].ceiling.value
        {
          assert cells[1..][i] == cells[i + 1];
        }
      }
      NoClipBelowBackward(cells[1..], x1, v1, out);
      var tail := BackwardTrace(cells[1..], out).value;
      var b := BackwardTrace(cells, out).value;
      assert b == [VIn(c0, tail[0]).value] + tail;
      assert x1 <= b[1] == VOut(c0, b[0]);
      VOutMonotone(c0, x, b[0]);
    }
  }

  /** Maximality of the first boundary value: every input at or below the
      seed that no limit clips is at or below it. */
  lemma FirstValueIsLargestUnclippedInput(cells: seq<Stage>, x: real)
    requires |cells| > 0
    requires PositiveRatios(cells)
    requires x <= Seed(cells)
    requires NoClip(cells, x)
    ensures BoundaryValues(cells).Ok?
    ensures x <= BoundaryValues(cells).value[0]
  {
    ForwardMonotone(cells, x, Seed(cells));
    NoClipBelowBackward(cells, x, Seed(cells), Forward(cells, Seed(cells)));
  }

  /** Every stage is a limit with a ceiling. */
  predicate AllBounded(cells: seq<Stage>) {
    forall i :: 0 <= i < |cells| ==> cells[i].Limit? && cells[i].ceiling.Some?
  }

  /** The tightest ceiling of a chain of bounded limits. */
  function MinCeiling(cells: seq<Stage>): (m: real)
    requires |cells| > 0
    requires AllBounded(cells)
    ensures forall i :: 0 <= i < |cells| ==> m <= cells[i].ceiling.value
    ensures exists i :: 0 <= i < |cells| && m == cells[i].ceiling.value
    decreases |cells|
  {
    if |cells| == 1 then cells[0].ceiling.value
    else
      var rest := MinCeiling(cells[1..]);
      assert forall i :: 1 <= i < |cells| ==> cells[i] == cells[1..][i - 1];
      var k :| 0 <= k < |cells| - 1 && rest == cells[1..][k].ceiling.value;
      assert rest == cells[k + 1].ceiling.value;
      if cells[0].ceiling.value <= rest then cells[0].ceiling.value else rest
  }

  /** A chain of bounded limits delivers the smaller of its input and its
      tightest ceiling. */
  lemma {:induction false} AllLimitsForward(cells: seq<Stage>, v: real)
    requires |cells| > 0
    requires AllBounded(cells)
    ensures Forward(cells, v) == if v <= MinCeiling(cells) then v else MinCeiling(cells)
    decreases |cells|
  {
    var v1 := VOut(cells[0], v);
    assert ForwardTrace(cells, v) == [v] + ForwardTrace(cells[1..], v1);
    if |cells| > 1 {
      AllLimitsForward(cells[1..], v1);
    }
  }

  /** A chain made only of bounded limits stores its tightest ceiling at
      every boundary, whatever the order of the ceilings (in particular the
      first one when they never decrease). */
  lemma AllLimitsYieldMinimum(cells: seq<Stage>)
    requires |cells| > 0
    requires AllBounded(cells)
    ensures BoundaryValues(cells) == Ok(seq(|cells| + 1, _ => MinCeiling(cells)))
  {
    var lo := MinCeiling(cells);
    AllLimitsForward(cells, Seed(cells));
    assert Forward(cells, Seed(cells)) == lo;
    var t := seq(|cells| + 1, _ => lo);
    BackwardTraceExact(cells, t);
  }

  /** A chain with no bounded limit and no zero ratio starts from the
      sentinel and traces it back exactly, so the overflow test fails. */
  lemma UnboundedChainOverflows(cells: seq<Stage>)
    requires |cells| > 0
    requires forall i :: 0 <= i < |cells| ==> !Bounded(cells[i]) && (cells[i].Scale? ==> cells[i].ratio != 0.0)
    ensures BoundaryValues(cells) == Ok(ForwardTrace(cells, DefaultMax))
    ensures Overflows(BoundaryValues(cells).value)
  {
    var t := ForwardTrace(cells, DefaultMax);
    forall i | 0 <= i < |cells|
      ensures VIn(cells[i], t[i + 1]) == Ok(t[i])
    {
      BackwardAfterForward(cells[i], t[i]);
    }
    BackwardTraceExact(cells, t);
    assert t[0] >= OverflowBound;
  }

  /** With positive ratios, a constructed model's first `cached_values` call
      can only fail the overflow test; when it succeeds it returns one value
      per boundary, all below the overflow bound, forming the forward run
      from the first of them. */
  lemma ModelPropagationOnlyOverflows(cells: seq<Stage>, filterLimit: Option<string>, reload: bool)
    requires NewHeadroomModel(cells, filterLimit).Ok?
    requires PositiveRatios(cells)
    ensures var m := NewHeadroomModel(cells, filterLimit).value;
            var r := CachedValues(m, reload);
            r.1.Err? ==> r.1.error == MaxExceeded && r.0.values.Some? && Overflows(r.0.values.value)
    ensures var m := NewHeadroomModel(cells, filterLimit).value;
            var r := CachedValues(m, reload);
            r.1.Ok? ==> && |r.1.value| == |cells| + 1
                        && ForwardTrace(m.cells, r.1.value[0]) == r.1.value
                        && (forall i :: 0 <= i < |r.1.value| ==> r.1.value[i] < OverflowBound)
  {
    var m := NewHeadroomModel(cells, filterLimit).value;
    assert PositiveRatios(m.cells);
    ChainConsistency(m.cells);
    var b := BoundaryValues(m.cells).value;
    var r := CachedValues(m, reload);
    assert NeedsPropagation(m, reload);
    if r.1.Ok? {
      assert r.1.value == b && !Overflows(b);
      forall i | 0 <= i < |b|
        ensures b[i] < OverflowBound
      {
      }
    }
  }

  /** `get_r_in_max` on a constructed model with positive ratios is the
      largest input at or below the seed that no limit clips. */
  lemma RInMaxIsLargestUnclippedInput(cells: seq<Stage>, filterLimit: Option<string>, x: real)
    requires NewHeadroomModel(cells, filterLimit).Ok?
    requires PositiveRatios(cells)
    ensures var m := NewHeadroomModel(cells, filterLimit).value;
            var r := GetRInMax(m).1;
            r.Ok? ==> r.value <= Seed(m.cells) && NoClip(m.cells, r.value)
    ensures var m := NewHeadroomModel(cells, filterLimit).value;
            var r := GetRInMax(m).1;
            r.Ok? && x <= Seed(m.cells) && NoClip(m.cells, x) ==> x <= r.value
  {
    var m := NewHeadroomModel(cells, filterLimit).value;
    assert PositiveRatios(m.cells);
    ChainConsistency(m.cells);
    if x <= Seed(m.cells) && NoClip(m.cells, x) {
      FirstValueIsLargestUnclippedInput(m.cells, x);
    }
  }

  /** `get_r_out_max` on a constructed model with positive ratios is the
      output the forward pass reaches from the seed, which is also the
      output of running `get_r_in_max` forward. */
  lemma ROutMaxIsAchievedOutput(cells: seq<Stage>, filterLimit: Option<string>)
    requires NewHeadroomModel(cells, filterLimit).Ok?
    requires PositiveRatios(cells)
    ensures var m := NewHeadroomModel(cells, filterLimit).value;
            var r := GetROutMax(m).1;
            r.Ok? ==> r.value == Forward(m.cells, Seed(m.cells))
                      && GetRInMax(m).1.Ok? && r.value == Forward(m.cells, GetRInMax(m).1.value)
  {
    var m := NewHeadroomModel(cells, filterLimit).value;
    assert PositiveRatios(m.cells);
    ChainConsistency(m.cells);
  }

  /** Filtering by a substring that no label contains disables every limit,
      so (with no zero ratio) the first `cached_values` call raises. */
  lemma FilterWithoutMatchRaises(cells: seq<Stage>, f: string)
    requires WellFormed(cells)
    requires f != []
    requires forall i :: 0 <= i < |cells| && cells[i].Limit? && cells[i].name.Some? ==>
                         !IsSubstring(f, cells[i].name.value)
    requires forall i :: 0 <= i < |cells| && cells[i].Scale? ==> cells[i].ratio != 0.0
    ensures NewHeadroomModel(cells, Some(f)).Ok?
    ensures CachedValues(NewHeadroomModel(cells, Some(f)).value, false).1 == Err(MaxExceeded)
  {
    var m := NewHeadroomModel(cells, Some(f)).value;
    FilterWithoutMatchUnboundsAll(cells, f);
    UnboundedChainOverflows(m.cells);
  }
}

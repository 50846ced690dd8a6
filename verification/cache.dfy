/** The model's lazy cache of boundary values and the accessors built on it.
    The cache is explicit state: every operation takes a model and returns
    the model as it is afterwards, together with what the call returns. */
module Cache {
  import opened Types
  import opened Cells
  import opened Pipeline
  import opened Propagation

  /** One propagation run: the model afterwards and the exception raised, if
      any. The values are stored as soon as the backward pass completes, so a
      failed overflow test leaves them in the cache; a failed backward step
      leaves the model untouched. */
  function Propagated(m: HeadroomModel): (r: (HeadroomModel, Option<Error>))
    requires |m.cells| > 0
    ensures r.0.cells == m.cells
    ensures BoundaryValues(m.cells).Err? ==> r == (m, Some(BoundaryValues(m.cells).error))
    ensures BoundaryValues(m.cells).Ok? ==> r.0.values == Some(BoundaryValues(m.cells).value)
    ensures BoundaryValues(m.cells).Ok? ==>
              (r.1.Some? <==> Overflows(BoundaryValues(m.cells).value)) && (r.1.Some? ==> r.1.value == MaxExceeded)
    ensures r.1.None? ==> r.0.values.Some? && |r.0.values.value| == |m.cells| + 1
    ensures r.1.None? ==> forall i :: 0 <= i < |r.0.values.value| ==> r.0.values.value[i] < OverflowBound
  {
    match BoundaryValues(m.cells)
    case Err(e) => (m, Some(e))
    case Ok(vs) => (m.(values := Some(vs)), if Overflows(vs) then Some(MaxExceeded) else None)
  }

  /** The forward loop: every stage's forward transform, in order, starting
      from the seed (the first ceiling, or the sentinel when it is falsy). */
  method ForwardPass(cells: seq<Stage>) returns (vin: real)
    requires |cells| > 0
    ensures vin == Forward(cells, Seed(cells))
    ensures Bounded(cells[|cells| - 1]) ==> vin <= cells[|cells| - 1].ceiling.value
  {
    var first := Ceiling(cells[0]);
    vin := if first.None? || first.value == 0.0 then DefaultMax else first.value;
    var i := 0;
    while i < |cells|
      invariant 0 <= i <= |cells|
      invariant vin == ForwardTrace(cells, Seed(cells))[i]
    {
      vin := VOut(cells[i], vin);
      i := i + 1;
    }
  }

  /** The backward loop: the stages in reverse order, each value appended as
      it is found, and the collected list reversed into boundary order. */
  method BackwardPass(cells: seq<Stage>, out: real) returns (r: Result<seq<real>>)
    ensures r == BackwardTrace(cells, out)
    ensures r.Ok? ==> |r.value| == |cells| + 1 && r.value[|cells|] == out
  {
    var vin := out;
    var collected := [vin];
    var j := |cells|;
    BackwardStart(cells, out);
    while j > 0
      invariant 0 <= j <= |cells|
      invariant |collected| == |cells| - j + 1
      invariant collected[|collected| - 1] == vin
      invariant BackwardTrace(cells[j..], out) == Ok(Reverse(collected))
    {
      var step := VIn(cells[j - 1], vin);
      BackwardStep(cells, j, out, collected);
      if step.Err? {
        return Err(step.error);
      }
      vin := step.value;
      collected := collected + [vin];
      j := j - 1;
    }
    assert cells[0..] == cells;
    r := Ok(Reverse(collected));
  }

  /** Before the backward loop: no stage stepped over yet, and the list
      collected so far holds only the output. */
  lemma BackwardStart(cells: seq<Stage>, out: real)
    ensures BackwardTrace(cells[|cells|..], out) == Ok(Reverse([out]))
  {
    assert cells[|cells|..] == [];
    assert Reverse([out]) == [out];
  }

  /** One iteration of the backward loop: stepping back over stage `j - 1`
      from the last value collected either extends the trace of the suffix,
      or fails, and then the whole backward pass fails the same way. */
  lemma BackwardStep(cells: seq<Stage>, j: nat, out: real, collected: seq<real>)
    requires 0 < j <= |cells|
    requires |collected| > 0
    requires BackwardTrace(cells[j..], out) == Ok(Reverse(collected))
    ensures var step := VIn(cells[j - 1], collected[|collected| - 1]);
            && (step.Err? ==> BackwardTrace(cells, out) == Err(step.error))
            && (step.Ok? ==> BackwardTrace(cells[j - 1..], out) == Ok(Reverse(collected + [step.value])))
  {
    assert cells[j - 1..][1..] == cells[j..];
    assert cells[j - 1..][0] == cells[j - 1];
    assert Reverse(collected)[0] == collected[|collected| - 1];
    var step := VIn(cells[j - 1], collected[|collected| - 1]);
    if step.Ok? {
      ReverseSnoc(collected, step.value);
    } else {
      BackwardTraceSuffixError(cells, j - 1, out);
    }
  }

  /** Reversing after appending puts the new element first. */
  lemma ReverseSnoc<T>(s: seq<T>, x: T)
    ensures Reverse(s + [x]) == [x] + Reverse(s)
  {
    assert forall i :: 0 <= i <= |s| ==> Reverse(s + [x])[i] == ([x] + Reverse(s))[i];
  }

  /** The final check: does any stored value reach the overflow bound? */
  method AnyOverflow(values: seq<real>) returns (over: bool)
    ensures over <==> exists t :: 0 <= t < |values| && values[t] >= OverflowBound
  {
    over := false;
    var k := 0;
    while k < |values|
      invariant 0 <= k <= |values|
      invariant over <==> exists t :: 0 <= t < k && values[t] >= OverflowBound
    {
      over := over || values[k] >= OverflowBound;
      k := k + 1;
    }
  }

  /** `_propagate_model` as `model.py` runs it: forward loop, backward loop,
      store the values, then the overflow check. */
  method PropagateModel(m: HeadroomModel) returns (m': HeadroomModel, raised: Option<Error>)
    requires |m.cells| > 0
    ensures (m', raised) == Propagated(m)
    ensures raised.None? ==> m'.values.Some? && |m'.values.value| == |m.cells| + 1
    ensures raised.Some? ==> raised.value in {MaxExceeded, DivisionByZero}
  {
    var out := ForwardPass(m.cells);
    var backward := BackwardPass(m.cells, out);
    if backward.Err? {
      return m, Some(backward.error);
    }
    m' := m.(values := Some(backward.value));
    var over := AnyOverflow(backward.value);
    raised := if over then Some(MaxExceeded) else None;
  }

  /** True when a call without `reload` would recompute rather than read. */
  predicate NeedsPropagation(m: HeadroomModel, reload: bool) {
    reload || m.values.None? || m.values.value == []
  }

  /** `cached_values(reload)`: recompute when asked to or when nothing
      (or an empty list) is cached, otherwise return the cache untouched. */
  function CachedValues(m: HeadroomModel, reload: bool): (r: (HeadroomModel, Result<seq<real>>))
    requires |m.cells| > 0
    ensures r.0.cells == m.cells
    ensures r.1.Ok? ==> r.0.values == Some(r.1.value) && r.1.value != []
    ensures !NeedsPropagation(m, reload) ==> r == (m, Ok(m.values.value))
    ensures NeedsPropagation(m, reload) && r.1.Ok? ==>
              BoundaryValues(m.cells) == Ok(r.1.value) && !Overflows(r.1.value)
    ensures NeedsPropagation(m, reload) && r.1.Err? ==>
              (BoundaryValues(m.cells).Err? && r == (m, Err(BoundaryValues(m.cells).error)))
              || (r.1.error == MaxExceeded && r.0.values.Some? && BoundaryValues(m.cells) == Ok(r.0.values.value)
                  && Overflows(r.0.values.value))
  {
    if NeedsPropagation(m, reload) then
      var (m', raised) := Propagated(m);
      (m', if raised.Some? then Err(raised.value) else Ok(m'.values.value))
    else
      (m, Ok(m.values.value))
  }

  /** `get_r_in_max`: the first cached boundary value, the largest input
      rate the chain sustains. */
  function GetRInMax(m: HeadroomModel): (r: (HeadroomModel, Result<real>))
    requires |m.cells| > 0
    ensures r.0 == CachedValues(m, false).0
    ensures r.1.Ok? <==> CachedValues(m, false).1.Ok?
    ensures r.1.Ok? ==> r.0.values.Some? && r.0.values.value != [] && r.1.value == r.0.values.value[0]
    ensures r.1.Err? ==> r.1.error == CachedValues(m, false).1.error
  {
    var (m', vs) := CachedValues(m, false);
    match vs
    case Ok(v) => (m', Ok(v[0]))
    case Err(e) => (m', Err(e))
  }

  /** `get_r_out_max`: the last cached boundary value, the output rate the
      chain delivers at that input. */
  function GetROutMax(m: HeadroomModel): (r: (HeadroomModel, Result<real>))
    requires |m.cells| > 0
    ensures r.0 == CachedValues(m, false).0
    ensures r.1.Ok? <==> CachedValues(m, false).1.Ok?
    ensures r.1.Ok? ==> r.0.values.Some? && r.0.values.value != []
                        && r.1.value == r.0.values.value[|r.0.values.value| - 1]
    ensures r.1.Err? ==> r.1.error == CachedValues(m, false).1.error
  {
    var (m', vs) := CachedValues(m, false);
    match vs
    case Ok(v) => (m', Ok(v[|v| - 1]))
    case Err(e) => (m', Err(e))
  }

  /** The cache holds nothing or exactly the propagation result. */
  ghost predicate CacheSound(m: HeadroomModel) {
    |m.cells| > 0 && (m.values.Some? ==> BoundaryValues(m.cells) == Ok(m.values.value))
  }

  /** Every call keeps the cache sound, and from a sound cache every value
      returned is the propagation result, of length one more than the stages. */
  lemma CachedValuesSound(m: HeadroomModel, reload: bool)
    requires CacheSound(m)
    ensures CacheSound(CachedValues(m, reload).0)
    ensures CachedValues(m, reload).1.Ok? ==>
              BoundaryValues(m.cells) == CachedValues(m, reload).1
              && |CachedValues(m, reload).1.value| == |m.cells| + 1
  {
  }

  /** A newly constructed model has a sound (empty) cache. */
  lemma NewModelCacheSound(cells: seq<Stage>, filterLimit: Option<string>)
    requires NewHeadroomModel(cells, filterLimit).Ok?
    ensures CacheSound(NewHeadroomModel(cells, filterLimit).value)
    ensures NeedsPropagation(NewHeadroomModel(cells, filterLimit).value, false)
  {
  }

  /** Once a call has succeeded, a second call without `reload` returns the
      same values and leaves the model as it is. */
  lemma CachedValuesIdempotent(m: HeadroomModel, reload: bool)
    requires |m.cells| > 0
    requires CachedValues(m, reload).1.Ok?
    ensures CachedValues(CachedValues(m, reload).0, false) == CachedValues(m, reload)
  {
  }

  /** After a propagation whose overflow test fails, the values stay cached,
      so the next call without `reload` returns them without raising. */
  lemma OverflowLeavesValuesCached(m: HeadroomModel, reload: bool)
    requires |m.cells| > 0
    requires NeedsPropagation(m, reload)
    requires BoundaryValues(m.cells).Ok? && Overflows(BoundaryValues(m.cells).value)
    ensures CachedValues(m, reload).1 == Err(MaxExceeded)
    ensures CachedValues(CachedValues(m, reload).0, false).1 == Ok(BoundaryValues(m.cells).value)
  {
  }
}

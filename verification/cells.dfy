/** One stage of the headroom chain: a multiplicative scale or a saturating
    limit, with its forward transform (`vout`) and its backward inverse (`vin`). */
module Cells {
  import opened Types

  /** The sentinel seed used when no input ceiling is known (1e20). */
  const DefaultMax: real := 100000000000000000000.0

  /** The absolute tolerance below which an excess over a ceiling is treated
      as rounding noise (1e-10). */
  const DiffChk: real := 0.0000000001

  /** A stage. A `Limit` with `ceiling == None` is disabled: it passes every
      value through in both directions. */
  datatype Stage =
    | Scale(ratio: real)
    | Limit(ceiling: Option<real>, name: Option<string>)

  /** The stage's `max` attribute: the ceiling of a limit, `None` for a scale. */
  function Ceiling(s: Stage): Option<real> {
    match s
    case Scale(_) => None
    case Limit(c, _) => c
  }

  /** True of a limit that actually caps its input. */
  predicate Bounded(s: Stage) {
    s.Limit? && s.ceiling.Some?
  }

  /** What any constructed cell satisfies: no ceiling is negative. */
  predicate Normalised(s: Stage) {
    s.Limit? && s.ceiling.Some? ==> s.ceiling.value >= 0.0
  }

  /** The generic cell constructor: exactly one of `ratio` and `max` must be
      given, and a negative `max` is stored as "unbounded". */
  function MakeCell(ratio: Option<real>, max: Option<real>, name: Option<string>): (r: Result<Stage>)
    ensures r.Ok? <==> (ratio.Some? <==> max.None?)
    ensures r.Err? ==> r.error == InvalidCell
    ensures r.Ok? ==> Normalised(r.value)
    ensures r.Ok? && ratio.Some? ==> r.value.Scale? && r.value.ratio == ratio.value
    ensures r.Ok? && max.Some? ==> r.value.Limit? && r.value.name == name
    ensures r.Ok? && max.Some? ==> (Bounded(r.value) <==> max.value >= 0.0)
    ensures r.Ok? && max.Some? && max.value >= 0.0 ==> Ceiling(r.value) == max
  {
    if ratio.Some? == max.Some? then Err(InvalidCell)
    else if ratio.Some? then Ok(Scale(ratio.value))
    else Ok(Limit(if max.value < 0.0 then None else max, name))
  }

  /** The `Scale(ratio)` subclass constructor. */
  function MakeScale(ratio: Option<real>): (r: Result<Stage>)
    ensures r.Ok? <==> ratio.Some?
    ensures r.Ok? ==> r.value == Scale(ratio.value) && Ceiling(r.value).None?
  {
    MakeCell(ratio, None, None)
  }

  /** The `Limit(max, label)` subclass constructor. */
  function MakeLimit(max: Option<real>, name: Option<string>): (r: Result<Stage>)
    ensures r.Ok? <==> max.Some?
    ensures r.Ok? ==> r.value.Limit? && r.value.name == name && Normalised(r.value)
    ensures r.Ok? ==> (Ceiling(r.value).Some? <==> max.value >= 0.0)
    ensures r.Ok? && max.value >= 0.0 ==> Ceiling(r.value) == max
  {
    MakeCell(None, max, name)
  }

  /** Forward run: the output of the stage for input `vin`. */
  function VOut(s: Stage, vin: real): (r: real)
    ensures s.Scale? ==> r == vin * s.ratio
    ensures Bounded(s) ==> r <= s.ceiling.value && r <= vin
    ensures Bounded(s) ==> r == vin || r == s.ceiling.value
    ensures s.Limit? && !Bounded(s) ==> r == vin
  {
    match s
    case Scale(ratio) => vin * ratio
    case Limit(None, _) => vin
    case Limit(Some(c), _) => if vin <= c then vin else c
  }

  /** Backward run: the input that yields output `vout`. A limit asked for
      more than its ceiling fails, unless the excess is within `DiffChk`, in
      which case the ceiling itself is returned. */
  function VIn(s: Stage, vout: real): (r: Result<real>)
    ensures s.Scale? ==> (r.Ok? <==> s.ratio != 0.0)
    ensures s.Scale? && r.Ok? ==> r.value * s.ratio == vout
    ensures s.Limit? && !Bounded(s) ==> r == Ok(vout)
    ensures Bounded(s) ==> (r.Err? <==> vout - s.ceiling.value > DiffChk)
    ensures Bounded(s) && r.Ok? ==> r.value <= s.ceiling.value
    ensures Bounded(s) && vout <= s.ceiling.value ==> r == Ok(vout)
    ensures Bounded(s) && vout > s.ceiling.value && r.Ok? ==> r.value == s.ceiling.value
    ensures r.Err? ==> r.error == (if s.Scale? then DivisionByZero else MaxExceeded)
  {
    match s
    case Scale(ratio) =>
      if ratio == 0.0 then Err(DivisionByZero) else Ok(vout / ratio)
    case Limit(None, _) => Ok(vout)
    case Limit(Some(c), _) =>
      if vout > c then
        if vout - c > DiffChk then Err(MaxExceeded) else Ok(c)
      else Ok(vout)
  }

  /** The backward step undoes the forward step: whatever a stage emits can
      be traced back, and running the recovered input forward again emits
      the same value. For a scale the recovered input is the original. */
  lemma BackwardAfterForward(s: Stage, v: real)
    requires s.Scale? ==> s.ratio != 0.0
    ensures VIn(s, VOut(s, v)).Ok?
    ensures VOut(s, VIn(s, VOut(s, v)).value) == VOut(s, v)
    ensures s.Scale? ==> VIn(s, VOut(s, v)) == Ok(v)
  {
    if s.Scale? {
      ScaleRoundTrip(s.ratio, v);
    }
  }

  /** Running a successful backward step forward again lands on the requested
      output, except in the snap case, where it lands on the ceiling at most
      `DiffChk` below it. */
  lemma ForwardAfterBackward(s: Stage, w: real)
    requires VIn(s, w).Ok?
    ensures var u := VIn(s, w).value;
      VOut(s, u) == w || (Bounded(s) && VOut(s, u) == s.ceiling.value && w - DiffChk <= VOut(s, u) < w)
    ensures !Bounded(s) || w <= s.ceiling.value ==> VOut(s, VIn(s, w).value) == w
  {
  }

  /** With a positive ratio every stage is monotone, and a scale also
      reflects order: its outputs compare as its inputs do. */
  lemma VOutMonotone(s: Stage, x: real, y: real)
    requires s.Scale? ==> s.ratio > 0.0
    ensures x <= y ==> VOut(s, x) <= VOut(s, y)
    ensures s.Scale? ==> (VOut(s, x) <= VOut(s, y) <==> x <= y)
  {
    if s.Scale? {
      ScaleMonotone(s.ratio, x, y);
    }
  }

  /** A scale by a non-zero ratio is undone by its backward step. */
  lemma ScaleRoundTrip(r: real, v: real)
    requires r != 0.0
    ensures VIn(Scale(r), VOut(Scale(r), v)) == Ok(v)
  {
    var w := VOut(Scale(r), v);
    assert w == v * r;
    DivMulCancel(v, r);
    assert VIn(Scale(r), w) == Ok(w / r);
  }

  /** A scale by a positive ratio preserves and reflects order. */
  lemma ScaleMonotone(r: real, x: real, y: real)
    requires r > 0.0
    ensures x <= y <==> VOut(Scale(r), x) <= VOut(Scale(r), y)
  {
    MulMonotone(x, y, r);
  }

  /** Dividing a product by a non-zero factor recovers the other factor. */
  lemma DivMulCancel(v: real, r: real)
    requires r != 0.0
    ensures (v * r) / r == v
  {
    var u := (v * r) / r;
    assert u * r == v * r;
    MulCancel(u, v, r);
  }

  /** Multiplying by a non-zero number is injective. */
  lemma MulCancel(u: real, v: real, r: real)
    requires r != 0.0
    requires u * r == v * r
    ensures u == v
  {
    assert (u - v) * r == 0.0;
  }

  /** Dividing by a positive ratio something at most `v * r` gives at most `v`. */
  lemma DivBelow(w: real, v: real, r: real)
    requires r > 0.0
    requires w <= v * r
    ensures w / r <= v
  {
    assert (w / r) * r == w;
    MulMonotone(w / r, v, r);
  }

  /** Multiplying by a positive number preserves and reflects order. */
  lemma MulMonotone(x: real, y: real, r: real)
    requires r > 0.0
    ensures x <= y <==> x * r <= y * r
  {
    if x <= y {
      assert (y - x) * r >= 0.0;
    } else {
      assert (x - y) * r > 0.0;
    }
  }

  /** One backward step below what the forward step reached from `v`, with a
      positive ratio, never fails, lands at or below `v`, and runs forward
      to exactly the requested value; a limit passes it through unchanged. */
  lemma StepBack(s: Stage, v: real, w: real)
    requires s.Scale? ==> s.ratio > 0.0
    requires w <= VOut(s, v)
    ensures VIn(s, w).Ok?
    ensures VIn(s, w).value <= v
    ensures VOut(s, VIn(s, w).value) == w
    ensures s.Limit? ==> VIn(s, w) == Ok(w)
  {
    if s.Scale? {
      DivBelow(w, v, s.ratio);
    }
  }
}

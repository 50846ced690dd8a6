/** The headroom model container: construction with its structural checks,
    the optional label filter, and the per-boundary ceiling listing. */
module Pipeline {
  import opened Types
  import opened Cells
  import opened Substrings

  /** A constructed model: its stages (already filtered) and the cached
      boundary values, `None` until the first propagation stores them. */
  datatype HeadroomModel = HeadroomModel(cells: seq<Stage>, values: Option<seq<real>>)

  /** The structural requirements the constructor asserts: at least three
      stages, and a ceiling on the first and on the last. */
  predicate WellFormed(cells: seq<Stage>) {
    |cells| >= 3 && Ceiling(cells[0]).Some? && Ceiling(cells[|cells| - 1]).Some?
  }

  /** Python truthiness of the optional filter: only a non-empty string filters. */
  predicate Filtering(filterLimit: Option<string>) {
    filterLimit.Some? && filterLimit.value != []
  }

  /** Does the label filter `f` keep stage `s`? Every scale is kept, and so is
      a bounded limit whose non-empty label contains `f`. */
  ghost predicate Kept(s: Stage, f: string) {
    s.Scale? || (Bounded(s) && s.name.Some? && s.name.value != [] && IsSubstring(f, s.name.value))
  }

  /** The filter applied to one stage: kept stages pass through, every other
      stage becomes a fresh unbounded, unlabelled limit (`Limit(-1)`). */
  function FilterCell(s: Stage, f: string): (r: Stage)
    ensures Kept(s, f) ==> r == s
    ensures !Kept(s, f) ==> r == Limit(None, None)
  {
    match s
    case Scale(_) => s
    case Limit(_, None) => Limit(None, None)
    case Limit(c, Some(l)) =>
      ContainsIsSubstring(l, f);
      if c.Some? && l != [] && Contains(l, f) then s else Limit(None, None)
  }

  /** The filter applied to every stage, in order. */
  function ApplyFilter(cells: seq<Stage>, f: string): (r: seq<Stage>)
    ensures |r| == |cells|
    ensures forall i :: 0 <= i < |cells| && Kept(cells[i], f) ==> r[i] == cells[i]
    ensures forall i :: 0 <= i < |cells| && !Kept(cells[i], f) ==> r[i] == Limit(None, None)
  {
    seq(|cells|, i requires 0 <= i < |cells| => FilterCell(cells[i], f))
  }

  /** The constructor. The structural checks run on the stages as given,
      before the filter, so filtering may later unbound either endpoint. */
  function NewHeadroomModel(cells: seq<Stage>, filterLimit: Option<string>): (r: Result<HeadroomModel>)
    ensures r.Ok? <==> WellFormed(cells)
    ensures |cells| < 3 ==> r == Err(TooFewCells)
    ensures |cells| >= 3 && Ceiling(cells[0]).None? ==> r == Err(FirstNotLimit)
    ensures |cells| >= 3 && Ceiling(cells[0]).Some? && Ceiling(cells[|cells| - 1]).None?
      ==> r == Err(LastNotLimit)
    ensures r.Ok? ==> r.value.values.None? && |r.value.cells| == |cells|
    ensures r.Ok? && !Filtering(filterLimit) ==> r.value.cells == cells
    ensures r.Ok? && Filtering(filterLimit) ==>
      forall i :: 0 <= i < |cells| ==>
                  r.value.cells[i] == if Kept(cells[i], filterLimit.value) then cells[i] else Limit(None, None)
  {
    if |cells| < 3 then Err(TooFewCells)
    else if Ceiling(cells[0]).None? then Err(FirstNotLimit)
    else if Ceiling(cells[|cells| - 1]).None? then Err(LastNotLimit)
    else if Filtering(filterLimit) then Ok(HeadroomModel(ApplyFilter(cells, filterLimit.value), None))
    else Ok(HeadroomModel(cells, None))
  }

  /** One entry per boundary: nothing before the first stage, then each
      stage's ceiling (`None` for a scale or a disabled limit). */
  function GetLimits(m: HeadroomModel): (r: seq<Option<real>>)
    ensures |r| == |m.cells| + 1
    ensures r[0].None?
    ensures forall i :: 0 <= i < |m.cells| ==> (r[i + 1].Some? <==> Bounded(m.cells[i]))
    ensures forall i :: 0 <= i < |m.cells| && Bounded(m.cells[i]) ==> r[i + 1] == m.cells[i].ceiling
  {
    [None] + seq(|m.cells|, i requires 0 <= i < |m.cells| => Ceiling(m.cells[i]))
  }

  /** Filtering twice by the same substring is filtering once. */
  lemma FilterIdempotent(cells: seq<Stage>, f: string)
    ensures ApplyFilter(ApplyFilter(cells, f), f) == ApplyFilter(cells, f)
  {
    var once := ApplyFilter(cells, f);
    forall i | 0 <= i < |cells|
      ensures ApplyFilter(once, f)[i] == once[i]
    {
      if !Kept(cells[i], f) {
        assert !Kept(once[i], f);
      }
    }
  }

  /** A substring found in no label leaves the scales alone and disables
      every limit. */
  lemma FilterWithoutMatchUnboundsAll(cells: seq<Stage>, f: string)
    requires forall i :: 0 <= i < |cells| && cells[i].Limit? && cells[i].name.Some? ==>
                         !IsSubstring(f, cells[i].name.value)
    ensures forall i :: 0 <= i < |cells| ==>
                        ApplyFilter(cells, f)[i] == if cells[i].Scale? then cells[i] else Limit(None, None)
  {
  }
}

/** The two-pass propagation over a chain of stages, stated declaratively:
    the seed, the forward trace of boundary values, the backward trace from
    the achieved output, and the overflow test on the result. */
module Propagation {
  import opened Types
  import opened Cells

  /** A boundary value at or above this bound means no ceiling was effective. */
  const OverflowBound: real := DefaultMax - DiffChk

  /** The value the forward pass starts from: the first stage's ceiling, or
      the sentinel when that ceiling is absent or zero (both falsy). */
  function Seed(cells: seq<Stage>): (r: real)
    requires |cells| > 0
    ensures r != 0.0
    ensures r == DefaultMax || Ceiling(cells[0]) == Some(r)
    ensures Ceiling(cells[0]).Some? && Ceiling(cells[0]) != Some(0.0) ==> r == Ceiling(cells[0]).value
  {
    match Ceiling(cells[0])
    case None => DefaultMax
    case Some(c) => if c == 0.0 then DefaultMax else c
  }

  /** The n+1 boundary values of running the stages forward from `v`. */
  function ForwardTrace(cells: seq<Stage>, v: real): (t: seq<real>)
    ensures |t| == |cells| + 1
    ensures t[0] == v
    ensures forall i :: 0 <= i < |cells| ==> t[i + 1] == VOut(cells[i], t[i])
    decreases |cells|
  {
    if |cells| == 0 then [v]
    else
      var rest := ForwardTrace(cells[1..], VOut(cells[0], v));
      assert forall i :: 1 <= i < |cells| ==> cells[1..][i - 1] == cells[i];
      [v] + rest
  }

  /** The output of the forward pass: the last boundary value. */
  function Forward(cells: seq<Stage>, v: real): real {
    ForwardTrace(cells, v)[|cells|]
  }

  /** The backward pass from output `out`: the last stage is inverted first,
      and an error from a later stage is the one reported. On success the
      result is in boundary order and every stage maps its right boundary
      back to its left one. */
  function BackwardTrace(cells: seq<Stage>, out: real): (r: Result<seq<real>>)
    ensures r.Ok? ==> |r.value| == |cells| + 1 && r.value[|cells|] == out
    ensures r.Ok? ==> forall i :: 0 <= i < |cells| ==> VIn(cells[i], r.value[i + 1]) == Ok(r.value[i])
    ensures r.Err? ==> r.error == MaxExceeded || r.error == DivisionByZero
    decreases |cells|
  {
    if |cells| == 0 then Ok([out])
    else
      var tail :- BackwardTrace(cells[1..], out);
      var v :- VIn(cells[0], tail[0]);
      assert forall i :: 1 <= i < |cells| ==> cells[1..][i - 1] == cells[i];
      Ok([v] + tail)
  }

  /** The boundary values `model.py` stores: the backward trace from the
      output the forward pass reaches from the seed. */
  function BoundaryValues(cells: seq<Stage>): (r: Result<seq<real>>)
    requires |cells| > 0
    ensures r.Ok? ==> |r.value| == |cells| + 1
    ensures r.Ok? ==> r.value[|cells|] == Forward(cells, Seed(cells))
  {
    BackwardTrace(cells, Forward(cells, Seed(cells)))
  }

  /** The overflow test run on the stored values. */
  predicate Overflows(vs: seq<real>) {
    exists i :: 0 <= i < |vs| && vs[i] >= OverflowBound
  }

  /** Sequence reversal (`[::-1]`). */
  function Reverse<T>(s: seq<T>): (r: seq<T>)
    ensures |r| == |s|
    ensures forall i :: 0 <= i < |s| ==> r[i] == s[|s| - 1 - i]
  {
    if |s| == 0 then [] else Reverse(s[1..]) + [s[0]]
  }

  /** The backward trace is the only chain of successful backward steps
      ending at its output: any such chain is what it returns. */
  lemma {:induction false} BackwardTraceExact(cells: seq<Stage>, t: seq<real>)
    requires |t| == |cells| + 1
    requires forall i :: 0 <= i < |cells| ==> VIn(cells[i], t[i + 1]) == Ok(t[i])
    ensures BackwardTrace(cells, t[|cells|]) == Ok(t)
    decreases |cells|
  {
    if |cells| > 0 {
      assert forall i :: 0 <= i < |cells| - 1 ==> cells[1..][i] == cells[i + 1] && t[1..][i + 1] == t[i + 2];
      BackwardTraceExact(cells[1..], t[1..]);
      assert t[1..][|cells| - 1] == t[|cells|];
      assert [t[0]] + t[1..] == t;
    } else {
      assert [t[0]] == t;
    }
  }

  /** A failure on a suffix of the stages is the failure of the whole
      backward pass, since the pass starts from the end. */
  lemma {:induction false} BackwardTraceSuffixError(cells: seq<Stage>, k: nat, out: real)
    requires k <= |cells|
    requires BackwardTrace(cells[k..], out).Err?
    ensures BackwardTrace(cells, out) == BackwardTrace(cells[k..], out)
    decreases k
  {
    if k == 0 {
      assert cells[k..] == cells;
    } else {
      assert cells[k - 1..][1..] == cells[k..];
      BackwardTraceSuffixError(cells, k - 1, out);
    }
  }
}

/** Axis-agnostic pair helpers used by the box and grid layouts (diagen/utils.py). */
module Utils {

  datatype Option<T> = None | Some(value: T)

  /** An axis index: 0 is horizontal (x, width, columns), 1 is vertical (y, height, rows). */
  type Axis = a: int | 0 <= a <= 1

  /** A point or an extent: (x, y) or (width, height). */
  type Pair = (real, real)

  /** The other axis, Python's `[1, 0][a]`. */
  function Other(a: Axis): (o: Axis)
    ensures o != a
  {
    1 - a
  }

  /** Component `i` of a pair, Python's `t[i]`. */
  function At<T>(p: (T, T), i: Axis): T
  {
    if i == 0 then p.0 else p.1
  }

  /** `dtup2(direction, v1, v2)`: a pair with `v1` on axis `direction` and `v2` on the
      other one; any direction other than 0 puts `v1` second. */
  function Dtup2<T>(direction: int, v1: T, v2: T): (r: (T, T))
    ensures direction == 0 ==> At(r, 0) == v1 && At(r, 1) == v2
    ensures direction != 0 ==> At(r, 1) == v1 && At(r, 0) == v2
  {
    if direction == 0 then (v1, v2) else (v2, v1)
  }

  /** The axis on which `Dtup2(d, ...)` places its first value. */
  function MainAxis(direction: int): Axis
  {
    if direction == 0 then 0 else 1
  }

  /** `mux2(pos, value, current)`: `current` with one component replaced by `value`,
      the first one when `pos` is 0 and the second one otherwise. */
  function Mux2<T>(pos: int, value: T, current: (T, T)): (r: (T, T))
    ensures At(r, MainAxis(pos)) == value
    ensures At(r, Other(MainAxis(pos))) == At(current, Other(MainAxis(pos)))
  {
    if pos == 0 then (value, current.1) else (current.0, value)
  }

  /** Whatever the direction, `Dtup2(d, v1, v2)` places `v1` on `MainAxis(d)` and `v2` on the other axis. */
  lemma Dtup2Places<T>(direction: int, v1: T, v2: T)
    ensures At(Dtup2(direction, v1, v2), MainAxis(direction)) == v1
    ensures At(Dtup2(direction, v1, v2), Other(MainAxis(direction))) == v2
  {
  }

  /** Swapping twice with the same direction restores the original pair. */
  lemma Dtup2Twice<T>(direction: int, v1: T, v2: T)
    ensures var p := Dtup2(direction, v1, v2); Dtup2(direction, p.0, p.1) == (v1, v2)
  {
  }

  /** Reading a pair back through `Dtup2` with the same direction recovers the main/cross view. */
  lemma Dtup2Read<T>(direction: Axis, p: (T, T))
    ensures Dtup2(direction, At(p, direction), At(p, Other(direction))) == p
  {
  }

  /** `Mux2` leaves the component it does not replace untouched, and replacing with the
      current value changes nothing. */
  lemma Mux2Idempotent<T>(pos: int, current: (T, T))
    ensures Mux2(pos, At(current, MainAxis(pos)), current) == current
  {
  }

  function Max(a: int, b: int): int
  {
    if a < b then b else a
  }

  function MaxReal(a: real, b: real): real
  {
    if a < b then b else a
  }

  /** Python's `sum(xs)`, adding from the left. */
  function Sum(xs: seq<real>): real
  {
    if xs == [] then 0.0 else Sum(xs[..|xs| - 1]) + xs[|xs| - 1]
  }

  /** Python's `max(xs)` of a non-empty sequence. */
  function MaxOf(xs: seq<real>): (m: real)
    requires |xs| > 0
    ensures forall i :: 0 <= i < |xs| ==> xs[i] <= m
    ensures exists i :: 0 <= i < |xs| && xs[i] == m
  {
    if |xs| == 1 then xs[0]
    else
      var m' := MaxOf(xs[..|xs| - 1]);
      assert forall i :: 0 <= i < |xs| - 1 ==> xs[..|xs| - 1][i] == xs[i];
      MaxReal(m', xs[|xs| - 1])
  }

  /** The components of a sequence of pairs along one axis. */
  function Along(ps: seq<Pair>, a: Axis): (xs: seq<real>)
    ensures |xs| == |ps| && forall i :: 0 <= i < |ps| ==> xs[i] == At(ps[i], a)
  {
    seq(|ps|, i requires 0 <= i < |ps| => At(ps[i], a))
  }

  lemma {:induction false} SumNonNegative(xs: seq<real>)
    requires forall i :: 0 <= i < |xs| ==> xs[i] >= 0.0
    ensures Sum(xs) >= 0.0
  {
    if xs != [] {
      SumNonNegative(xs[..|xs| - 1]);
    }
  }

  /** Ids that name different nodes. */
  predicate DistinctIds(ids: seq<nat>)
  {
    forall i, j :: 0 <= i < j < |ids| ==> ids[i] != ids[j]
  }
}

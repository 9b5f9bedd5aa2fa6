/** Small shared vocabulary: optional values and searches over insertion-ordered tables. */
module Core {

  datatype Option<+T> = None | Some(value: T) {
    function GetOr(default: T): T {
      match this
      case Some(v) => v
      case None => default
    }
  }

  function Min(a: int, b: int): int { if a <= b then a else b }

  function Max(a: int, b: int): int { if a >= b then a else b }

  function Repeat<T>(x: T, n: nat): (r: seq<T>)
    ensures |r| == n && forall i :: 0 <= i < n ==> r[i] == x
  {
    seq(n, _ => x)
  }

  /** `Array.prototype.find` / a first-hit scan: the index of the first row that `keep` accepts. */
  function First<T>(rows: seq<T>, keep: T -> bool): (r: Option<nat>)
    ensures r.None? ==> forall i :: 0 <= i < |rows| ==> !keep(rows[i])
    ensures r.Some? ==> r.value < |rows| && keep(rows[r.value])
    ensures r.Some? ==> forall i :: 0 <= i < r.value ==> !keep(rows[i])
  {
    FirstFrom(rows, keep, 0)
  }

  function FirstFrom<T>(rows: seq<T>, keep: T -> bool, from: nat): (r: Option<nat>)
    requires from <= |rows|
    ensures r.None? ==> forall i :: from <= i < |rows| ==> !keep(rows[i])
    ensures r.Some? ==> from <= r.value < |rows| && keep(rows[r.value])
    ensures r.Some? ==> forall i :: from <= i < r.value ==> !keep(rows[i])
    decreases |rows| - from
  {
    if from == |rows| then None
    else if keep(rows[from]) then Some(from)
    else FirstFrom(rows, keep, from + 1)
  }

  /**
   `filter(keep).sort(newest first)[0]`: the newest kept row; a stable sort leaves the earlier of two equal stamps
   first.
   */
  function Newest<T>(rows: seq<T>, keep: T -> bool, createdAt: T -> int): (r: Option<nat>)
    ensures r.None? ==> forall i :: 0 <= i < |rows| ==> !keep(rows[i])
    ensures r.Some? ==> r.value < |rows| && keep(rows[r.value])
    ensures r.Some? ==> forall i :: 0 <= i < |rows| && keep(rows[i]) ==> createdAt(rows[i]) <= createdAt(rows[r.value])
    ensures r.Some? ==> forall i :: 0 <= i < r.value && keep(rows[i]) ==> createdAt(rows[i]) < createdAt(rows[r.value])
  {
    if rows == [] then None
    else
      var last := |rows| - 1;
      var best := Newest(rows[..last], keep, createdAt);
      if !keep(rows[last]) then best
      else if best.Some? && createdAt(rows[last]) <= createdAt(rows[best.value]) then best
      else Some(last)
  }
}

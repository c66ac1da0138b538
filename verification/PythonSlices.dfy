/** Slices with negative bounds. */
module PythonSlices {

  /** A slice bound as Python reads it: negative bounds count from the end. */
  function Bound(i: int, n: nat): nat {
    if i < 0 then (if n + i < 0 then 0 else n + i) else if i > n then n else i
  }

  function Slice<T>(row: seq<T>, from: int, to: int): seq<T> {
    var a, b := Bound(from, |row|), Bound(to, |row|);
    if a < b then row[a..b] else []
  }
}

/** Option and Result, for the operations whose Python counterpart can fail or find nothing. */
module Wrappers {

  datatype Option<+T> = None | Some(value: T)

  datatype Result<+R, +E> = Ok(value: R) | Err(error: E)

  /**
   * Python's slice `s[:n]`: the first `n` elements, all of `s` when `n` is past
   * its end, and for a negative `n` all but the last `-n` elements.
   */
  function SliceTo<T>(s: seq<T>, n: int): (r: seq<T>)
    ensures r <= s
    ensures n >= 0 ==> |r| == if n <= |s| then n else |s|
    ensures n < 0 ==> |r| == if -n <= |s| then |s| + n else 0
  {
    if n >= 0 then (if n <= |s| then s[..n] else s)
    else if -n <= |s| then s[..|s| + n] else []
  }
}

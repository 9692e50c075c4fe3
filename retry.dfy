/** The `retry` helper of main.py and main.js: call `fn` up to `n` times,
    stop after the first call that does not raise, and never re-raise. */
module Retrying {

  /** `succeeds(i)` says whether the call made in round `i` (counting from 0)
      returns normally. Returns how many calls were made and whether one of
      them succeeded; `retry` itself always returns normally. */
  method Retry(succeeds: nat -> bool, n: int) returns (calls: nat, succeeded: bool)
    ensures calls <= (if n > 0 then n else 0)
    ensures succeeded <==> exists i :: 0 <= i < n && succeeds(i)
    ensures succeeded ==> 0 < calls && succeeds(calls - 1)
    ensures forall i :: 0 <= i < calls - 1 ==> !succeeds(i)
    ensures !succeeded ==> calls == (if n > 0 then n else 0)
  {
    calls := 0;
    var i := 0;
    while i < n
      invariant 0 <= i <= (if n > 0 then n else 0)
      invariant calls == i
      invariant forall j :: 0 <= j < i ==> !succeeds(j)
    {
      calls := calls + 1;
      if succeeds(i) {
        return calls, true;
      }
      i := i + 1;
    }
    return calls, false;
  }
}

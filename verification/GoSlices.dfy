/** Go slices that share a backing array.  A slice is the first `n` elements of an
    array; deleting from it shifts the array itself, so that a range loop whose
    header was evaluated before the deletion reads shifted and left-over elements. */
module GoSlices {
  import opened StatusLists

  /** The backing array after `append(s[:i], s[i+1:]...)` on its first `n` elements:
      the last of them is left behind the shorter slice. */
  function Shift<T>(b: seq<T>, n: nat, i: nat): (r: seq<T>)
    requires i < n <= |b|
    ensures |r| == |b| && r[..n - 1] == DeleteAt(b[..n], i) && r[n - 1..] == b[n - 1..]
  {
    b[..i] + b[i + 1..n] + b[n - 1..]
  }

  /** deleteElementSlice and deleteMetalElementSlice. */
  method DeleteElementSlice<T>(a: array<T>, n: nat, index: nat) returns (m: nat)
    requires index < n <= a.Length
    modifies a
    ensures m == n - 1
    ensures a[..] == Shift(old(a[..]), n, index)
  {
    for i := index to n - 1
      invariant forall k :: 0 <= k < i ==> a[k] == if k < index then old(a[k]) else old(a[k + 1])
      invariant forall k :: i <= k < a.Length ==> a[k] == old(a[k])
    {
      a[i] := a[i + 1];
    }
    m := n - 1;
  }

  /** What is behind and ahead of an element the loop reads and deletes. */
  lemma ShiftSlices<T>(b: seq<T>, n: nat, i: nat)
    requires i + 1 < n <= |b|
    ensures Shift(b, n, i)[..i + 1] == b[..i] + [b[i + 1]]
    ensures Shift(b, n, i)[i + 1..n - 1] == b[i..n][2..]
  {
  }
}

/** The byte copy `hal_memcpy`. */
module Util {

  /** Copies `len` bytes from `src[si..]` to `dest[di..]`, one byte per turn
      of a count-down loop.  The two C pointers are arrays with offsets; the
      C function assumes the regions do not overlap, which is required here. */
  method Memcpy(dest: array<bv8>, di: nat, src: array<bv8>, si: nat, len: nat)
    requires di + len <= dest.Length && si + len <= src.Length
    requires dest == src ==> di + len <= si || si + len <= di
    modifies dest
    ensures dest[di..di + len] == old(src[si..si + len])
    ensures forall k :: 0 <= k < dest.Length && !(di <= k < di + len) ==> dest[k] == old(dest[k])
    ensures src[si..si + len] == old(src[si..si + len])
  {
    var n := len;
    var d := di;
    var s := si;
    while n > 0
      invariant n <= len && d <= di + len
      invariant d == di + (len - n) && s == si + (len - n)
      invariant forall k :: di <= k < d ==> dest[k] == old(src[si + (k - di)])
      invariant forall k :: 0 <= k < dest.Length && !(di <= k < d) ==> dest[k] == old(dest[k])
      invariant src[si..si + len] == old(src[si..si + len])
      decreases n
    {
      dest[d] := src[s];
      d := d + 1;
      s := s + 1;
      n := n - 1;
    }
  }
}

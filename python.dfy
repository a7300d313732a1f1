/**
 * The parts of Python's own semantics that the region stage relies on:
 * slicing `s[lo:hi]` with a step of one (negative bounds count from the end,
 * out-of-range bounds are clipped, a reversed range is empty), as used on
 * lists and on the rows and columns of a NumPy array.
 */
module Python {

  /** Where a slice bound `i` lands in a sequence of length `n`. */
  function SliceBound(i: int, n: nat): (r: nat)
    ensures r <= n
  {
    if i < 0 then (if i + n < 0 then 0 else i + n)
    else if i > n then n
    else i
  }

  /** `s[lo:hi]` */
  function Slice<T>(s: seq<T>, lo: int, hi: int): seq<T>
  {
    var a := SliceBound(lo, |s|);
    var b := SliceBound(hi, |s|);
    if a <= b then s[a..b] else []
  }

  /** `s[:k]` */
  function Take<T>(s: seq<T>, k: int): seq<T>
  {
    Slice(s, 0, k)
  }

  /** Slicing with bounds that are already in range is Dafny's own slicing. */
  lemma SliceInRange<T>(s: seq<T>, lo: int, hi: int)
    requires 0 <= lo <= hi <= |s|
    ensures Slice(s, lo, hi) == s[lo..hi]
  {
  }

  /** A slice always has length at most that of the sequence. */
  lemma SliceLength<T>(s: seq<T>, lo: int, hi: int)
    ensures |Slice(s, lo, hi)| <= |s|
    ensures 0 <= lo <= hi ==> |Slice(s, lo, hi)| == (if hi <= |s| then hi else |s|) - (if lo <= |s| then lo else |s|)
  {
  }

  /** `s[:k]` for a non-negative `k` is the prefix of length `min(k, |s|)`. */
  lemma TakePrefix<T>(s: seq<T>, k: int)
    requires k >= 0
    ensures Take(s, k) == s[..if k <= |s| then k else |s|]
    ensures |Take(s, k)| == if k <= |s| then k else |s|
  {
  }

  /** `s[:k]` for a negative `k` drops the last `-k` elements (or everything). */
  lemma TakeNegative<T>(s: seq<T>, k: int)
    requires k < 0
    ensures Take(s, k) == if |s| + k <= 0 then [] else s[..|s| + k]
  {
  }

  /** `s[:k]` is the prefix up to the clipped bound, for either sign of `k`. */
  lemma TakeIsPrefix<T>(s: seq<T>, k: int)
    ensures Take(s, k) == s[..SliceBound(k, |s|)]
  {
    if k >= 0 {
      TakePrefix(s, k);
    } else {
      TakeNegative(s, k);
    }
  }

  /** `min(a, b)` on integers. */
  function Min(a: int, b: int): int
  {
    if a <= b then a else b
  }

  lemma WholeSlice<T>(s: seq<T>)
    ensures s[0..|s|] == s
  {
  }

  lemma TakeAsSlice<T>(s: seq<T>, k: nat)
    requires k <= |s|
    ensures s[0..k] == s[..k]
  {
  }

  lemma PrefixSlice<T>(x: seq<T>, y: seq<T>)
    ensures (x + y)[0..|x|] == x
  {
  }

  /** A slice that lies in the second part of a concatenation is a slice of that part. */
  lemma ShiftSlice<T>(x: seq<T>, y: seq<T>, lo: nat, hi: nat)
    requires |x| <= lo <= hi <= |x| + |y|
    ensures (x + y)[lo..hi] == y[lo - |x|..hi - |x|]
  {
  }

  lemma SliceOfDrop<T>(s: seq<T>, k: nat, lo: nat, hi: nat)
    requires k <= lo <= hi <= |s|
    ensures s[k..][lo - k..hi - k] == s[lo..hi]
  {
  }
}

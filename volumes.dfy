/**
 * The array values that Scripts/GAN_prep.py moves around: raw intensity
 * volumes read from `image.tif`/`label.tif`, the 8-bit crops it saves, and
 * the numpy slicing and concatenation it applies to them.
 */
module Volumes {

  /** A 3-D numpy array as read by `io.imread`, indexed [depth][row][column]. */
  type Volume = seq<seq<seq<int>>>

  /** A value of numpy's `uint8`, what `astype(np.uint8)` produces. */
  type Byte = b: int | 0 <= b < 256

  /** One resampled 8-bit stack, indexed [depth][row][column]. */
  type Stack = seq<seq<seq<Byte>>>

  /**
   * A saved crop file. `sampling` wraps the resampled stack in a one-element
   * list before saving, so the array on disk is 1 x 7 x 256 x 256.
   */
  datatype Crop = Crop(stacks: seq<Stack>)

  datatype Shape = Shape(depth: nat, height: nat, width: nat)

  /** The dimensions of a numpy crop as `transform.resize(..., (7, 256, 256))` gives them. */
  const CropShape := Shape(7, 256, 256)

  /** `v` is a box of the given depth, height and width. */
  predicate HasShape<T>(v: seq<seq<seq<T>>>, s: Shape) {
    |v| == s.depth &&
    forall d :: 0 <= d < |v| ==>
      |v[d]| == s.height && forall r :: 0 <= r < s.height ==> |v[d][r]| == s.width
  }

  /** A 3-D array with no empty dimension, as every tif volume read here is. */
  predicate IsVolume(v: Volume) {
    |v| > 0 && |v[0]| > 0 && |v[0][0]| > 0 && HasShape(v, Shape(|v|, |v[0]|, |v[0][0]|))
  }

  function Height(v: Volume): nat requires |v| > 0 { |v[0]| }

  function Width(v: Volume): nat requires |v| > 0 && |v[0]| > 0 { |v[0][0]| }

  /** The shape numpy reports for a volume. */
  function ShapeOf(v: Volume): (s: Shape)
    requires IsVolume(v)
    ensures HasShape(v, s) && s.depth > 0 && s.height > 0 && s.width > 0
  {
    Shape(|v|, |v[0]|, |v[0][0]|)
  }

  /**
   * Python's slice `s[lo:hi]` for non-negative bounds: both bounds are clamped
   * to the length, and a slice whose end lies before its start is empty.
   */
  function Slice<T>(s: seq<T>, lo: nat, hi: nat): (r: seq<T>)
    ensures |r| == if lo < hi && lo < |s| then (if hi < |s| then hi else |s|) - lo else 0
    ensures forall i :: 0 <= i < |r| ==> r[i] == s[lo + i]
  {
    var l := if lo < |s| then lo else |s|;
    var h := if hi < |s| then hi else |s|;
    if h <= l then [] else s[l..h]
  }

  /** `v[:, lo:hi, :]`: the same rows of every depth plane. */
  function SliceRows(v: Volume, lo: nat, hi: nat): (r: Volume)
    ensures |r| == |v|
    ensures forall d :: 0 <= d < |r| ==> r[d] == Slice(v[d], lo, hi)
  {
    seq(|v|, d requires 0 <= d < |v| => Slice(v[d], lo, hi))
  }

  /** `v[:, :, lo:hi]`: the same columns of every row. */
  function SliceCols(v: Volume, lo: nat, hi: nat): (r: Volume)
    ensures |r| == |v|
    ensures forall d :: 0 <= d < |r| ==> |r[d]| == |v[d]|
    ensures forall d, i :: 0 <= d < |r| && 0 <= i < |r[d]| ==> r[d][i] == Slice(v[d][i], lo, hi)
  {
    seq(|v|, d requires 0 <= d < |v| =>
      seq(|v[d]|, i requires 0 <= i < |v[d]| => Slice(v[d][i], lo, hi)))
  }

  /** `np.concatenate((a, b), axis=1)`: per depth plane, the rows of `a` and then those of `b`. */
  function ConcatRows(a: Volume, b: Volume): (r: Volume)
    requires |a| == |b|
    ensures |r| == |a|
    ensures forall d :: 0 <= d < |r| ==> r[d] == a[d] + b[d]
  {
    seq(|a|, d requires 0 <= d < |a| => a[d] + b[d])
  }

  /** `np.concatenate((a, b), axis=2)`: per depth plane and row, the columns of `a` and then those of `b`. */
  function ConcatCols(a: Volume, b: Volume): (r: Volume)
    requires |a| == |b| && forall d :: 0 <= d < |a| ==> |a[d]| == |b[d]|
    ensures |r| == |a|
    ensures forall d :: 0 <= d < |r| ==> |r[d]| == |a[d]|
    ensures forall d, i :: 0 <= d < |r| && 0 <= i < |r[d]| ==> r[d][i] == a[d][i] + b[d][i]
  {
    seq(|a|, d requires 0 <= d < |a| =>
      seq(|a[d]|, i requires 0 <= i < |a[d]| => a[d][i] + b[d][i]))
  }

  /** Concatenating along rows adds the heights and keeps depth and width. */
  lemma ConcatRowsShape(a: Volume, b: Volume, depth: nat, ha: nat, hb: nat, width: nat)
    requires HasShape(a, Shape(depth, ha, width)) && HasShape(b, Shape(depth, hb, width))
    ensures HasShape(ConcatRows(a, b), Shape(depth, ha + hb, width))
  {
    var r := ConcatRows(a, b);
    forall d | 0 <= d < depth
      ensures |r[d]| == ha + hb && forall i :: 0 <= i < ha + hb ==> |r[d][i]| == width
    {
      forall i | 0 <= i < ha + hb ensures |r[d][i]| == width {
        if i < ha { assert r[d][i] == a[d][i]; } else { assert r[d][i] == b[d][i - ha]; }
      }
    }
  }
}

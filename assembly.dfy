/**
 * `construct` (Scripts/GAN_prep.py:11-29): nine source directories are
 * chosen, their image and label volumes are stacked along the height axis
 * into two tall strips, and each strip is cut into three 3072-row bands that
 * are laid side by side along the width axis.
 */
module Assembly {
  import opened Wrappers
  import opened Volumes

  /** How many sub-directories `random.sample` draws. */
  const SampleCount: nat := 9
  /** The height of each band the strip is cut into. */
  const BandHeight: nat := 3072
  /** The only non-empty strip height for which the three bands line up. */
  const StripHeight: nat := 3 * BandHeight

  /** One sub-directory of the root: its `image.tif` and `label.tif`. */
  datatype Source = Source(im: Volume, lb: Volume)

  /** What `construct` returns: the rearranged image and label volumes. */
  datatype Combined = Combined(ic: Volume, il: Volume)

  /**
   * The ways `construct` fails. All three are a `ValueError` in Python:
   * `random.sample` on fewer than nine directories, and `np.concatenate`
   * on arrays whose other dimensions disagree (while stacking, or while
   * joining the bands).
   */
  datatype PrepError = TooFewDirectories | StripMismatch | BandMismatch

  /** Every sub-directory holds two 3-D tif volumes. */
  predicate ValidSources(sources: seq<Source>) {
    forall k :: 0 <= k < |sources| ==> IsVolume(sources[k].im) && IsVolume(sources[k].lb)
  }

  /** What `random.sample(dirs, 9)` returns: nine distinct positions in the listing. */
  predicate IsSelection(choice: seq<nat>, n: nat) {
    |choice| == SampleCount &&
    (forall k :: 0 <= k < |choice| ==> choice[k] < n) &&
    forall j, k :: 0 <= j < k < |choice| ==> choice[j] != choice[k]
  }

  function Images(sources: seq<Source>, choice: seq<nat>): (vs: seq<Volume>)
    requires forall k :: 0 <= k < |choice| ==> choice[k] < |sources|
    ensures |vs| == |choice|
    ensures forall k :: 0 <= k < |choice| ==> vs[k] == sources[choice[k]].im
  {
    seq(|choice|, k requires 0 <= k < |choice| => sources[choice[k]].im)
  }

  function Labels(sources: seq<Source>, choice: seq<nat>): (vs: seq<Volume>)
    requires forall k :: 0 <= k < |choice| ==> choice[k] < |sources|
    ensures |vs| == |choice|
    ensures forall k :: 0 <= k < |choice| ==> vs[k] == sources[choice[k]].lb
  {
    seq(|choice|, k requires 0 <= k < |choice| => sources[choice[k]].lb)
  }

  /** `np.concatenate(..., axis=1)` accepts `a` and `b`: same depth and same width. */
  predicate Joinable(a: Volume, b: Volume) {
    IsVolume(a) && IsVolume(b) && |a| == |b| && Width(a) == Width(b)
  }

  /** A non-empty list of volumes that all share the depth and width of the first. */
  predicate Stackable(vs: seq<Volume>) {
    |vs| > 0 && IsVolume(vs[0]) &&
    forall k :: 0 <= k < |vs| ==> IsVolume(vs[k]) && |vs[k]| == |vs[0]| && Width(vs[k]) == Width(vs[0])
  }

  /** The sum of the heights of a list of volumes. */
  function TotalHeight(vs: seq<Volume>): nat
    requires forall k :: 0 <= k < |vs| ==> |vs[k]| > 0
  {
    if |vs| == 0 then 0 else TotalHeight(vs[..|vs| - 1]) + Height(vs[|vs| - 1])
  }

  /**
   * The strip: the volumes concatenated one after the other along the height
   * axis. Its height is the sum of theirs; depth and width are unchanged.
   */
  function Stack(vs: seq<Volume>): (strip: Volume)
    requires Stackable(vs)
    ensures IsVolume(strip)
    ensures HasShape(strip, Shape(|vs[0]|, TotalHeight(vs), Width(vs[0])))
    decreases |vs|
  {
    if |vs| == 1 then vs[0]
    else
      var front := vs[..|vs| - 1];
      var last := vs[|vs| - 1];
      assert Stackable(front) by { assert front[0] == vs[0]; }
      var top := Stack(front);
      ConcatRowsShape(top, last, |vs[0]|, TotalHeight(front), Height(last), Width(vs[0]));
      ConcatRows(top, last)
  }

  /** Row `r` of the `k`-th volume lands at row `TotalHeight(vs[..k]) + r` of the strip. */
  lemma {:induction false} StackRow(vs: seq<Volume>, k: nat, d: nat, r: nat)
    requires Stackable(vs) && k < |vs| && d < |vs[0]| && r < Height(vs[k])
    ensures TotalHeight(vs[..k]) + r < TotalHeight(vs)
    ensures Stack(vs)[d][TotalHeight(vs[..k]) + r] == vs[k][d][r]
  {
    var n := |vs|;
    if n == 1 {
      assert vs[..0] == [];
      assert vs[..1][..0] == [];
      assert vs[..1] == vs;
    } else {
      var front := vs[..n - 1];
      assert Stackable(front) by { assert front[0] == vs[0]; }
      assert vs[..n] == vs;
      if k == n - 1 {
        assert vs[..k] == front;
        assert |Stack(front)[d]| == TotalHeight(front);
      } else {
        assert front[..k] == vs[..k];
        assert front[k] == vs[k];
        StackRow(front, k, d, r);
        assert |Stack(front)[d]| == TotalHeight(front);
      }
    }
  }

  /** One more volume that `np.concatenate` accepts extends the strip by it. */
  lemma StackExtend(vs: seq<Volume>, i: nat)
    requires 0 < i < |vs| && Stackable(vs[..i]) && Joinable(Stack(vs[..i]), vs[i])
    ensures Stackable(vs[..i + 1])
    ensures Stack(vs[..i + 1]) == ConcatRows(Stack(vs[..i]), vs[i])
  {
    var strip := Stack(vs[..i]);
    assert |strip| == |vs[0]| && Width(strip) == Width(vs[0]);
    assert vs[..i + 1][..i] == vs[..i];
  }

  /** A volume that `np.concatenate` refuses to join to the strip makes the whole list unstackable. */
  lemma StackBlocked(vs: seq<Volume>, i: nat)
    requires 0 < i < |vs| && Stackable(vs[..i]) && IsVolume(vs[i]) && !Joinable(Stack(vs[..i]), vs[i])
    ensures !Stackable(vs)
  {
    var strip := Stack(vs[..i]);
    assert |strip| == |vs[0]| && Width(strip) == Width(vs[0]);
  }

  /**
   * The band rearrangement of lines 26-27: rows `[0, 3072)`, `[3072, 6144)`
   * and `[6144, end)` of the strip, joined along the width axis. numpy refuses
   * the join unless the three slices have the same height.
   */
  function Bands(strip: Volume): Result<Volume, PrepError>
    requires IsVolume(strip)
  {
    var top := SliceRows(strip, 0, BandHeight);
    var middle := SliceRows(strip, BandHeight, 2 * BandHeight);
    var bottom := SliceRows(strip, 2 * BandHeight, Height(strip));
    if |top[0]| == |middle[0]| && |middle[0]| == |bottom[0]| then
      Ok(ConcatCols(ConcatCols(top, middle), bottom))
    else
      Err(BandMismatch)
  }

  /** The bands line up exactly when the strip is 9216 rows high. */
  lemma BandsSucceedIff(strip: Volume)
    requires IsVolume(strip)
    ensures Bands(strip).Ok? <==> Height(strip) == StripHeight
  {
  }

  /** Multiplication by a natural number is monotonic. */
  lemma MulMono(a: nat, b: nat, w: nat)
    ensures a <= b ==> a * w <= b * w
  {
  }

  /** The quotient and remainder of `c` by `w` when `c` lies in the `q`-th block of `w`. */
  lemma DivModOf(c: nat, w: nat, q: nat)
    requires w > 0 && q * w <= c < q * w + w
    ensures c / w == q && c % w == c - q * w
  {
    var q' := c / w;
    MulMono(q' + 1, q, w);
    MulMono(q + 1, q', w);
  }

  /** Row `r` of the rearranged volume is row `r` of each of the three bands, side by side. */
  lemma BandsRow(strip: Volume, d: nat, r: nat)
    requires IsVolume(strip) && Height(strip) == StripHeight
    requires d < |strip| && r < BandHeight
    ensures Bands(strip).Ok?
    ensures Bands(strip).value[d][r] == strip[d][r] + strip[d][BandHeight + r] + strip[d][2 * BandHeight + r]
  {
    assert |strip[d]| == StripHeight;
  }

  /**
   * `row` is row `r` of the rearranged volume: 3W columns, column `c` taken
   * from band `c / W` of the strip (row `r + 3072 * (c / W)`), column `c % W`.
   */
  ghost predicate RowFromBands(row: seq<int>, strip: Volume, d: nat, r: nat)
    requires IsVolume(strip) && Height(strip) == StripHeight && d < |strip| && r < BandHeight
  {
    |row| == 3 * Width(strip) &&
    forall c :: 0 <= c < |row| ==>
      c / Width(strip) < 3 &&
      row[c] == strip[d][r + BandHeight * (c / Width(strip))][c % Width(strip)]
  }

  /** `out` is the strip rearranged into its three bands laid side by side. */
  ghost predicate LaidOut(out: Volume, strip: Volume)
    requires IsVolume(strip) && Height(strip) == StripHeight
  {
    |out| == |strip| &&
    forall d :: 0 <= d < |out| ==>
      |out[d]| == BandHeight && forall r :: 0 <= r < BandHeight ==> RowFromBands(out[d][r], strip, d, r)
  }

  /** Joining row `r` of the three bands gives a row laid out by the index map. */
  lemma JoinedRow(strip: Volume, d: nat, r: nat)
    requires IsVolume(strip) && Height(strip) == StripHeight && d < |strip| && r < BandHeight
    ensures RowFromBands(strip[d][r] + strip[d][BandHeight + r] + strip[d][2 * BandHeight + r], strip, d, r)
  {
    var w := Width(strip);
    var row := strip[d][r] + strip[d][BandHeight + r] + strip[d][2 * BandHeight + r];
    assert |strip[d][r]| == w && |strip[d][BandHeight + r]| == w && |strip[d][2 * BandHeight + r]| == w;
    forall c | 0 <= c < |row|
      ensures c / w < 3 && row[c] == strip[d][r + BandHeight * (c / w)][c % w]
    {
      if c < w {
        DivModOf(c, w, 0);
      } else if c < 2 * w {
        DivModOf(c, w, 1);
      } else {
        DivModOf(c, w, 2);
      }
    }
  }

  /** A laid-out volume is a depth x 3072 x 3W box. */
  lemma LaidOutShape(out: Volume, strip: Volume)
    requires IsVolume(strip) && Height(strip) == StripHeight && LaidOut(out, strip)
    ensures IsVolume(out) && ShapeOf(out) == Shape(|strip|, BandHeight, 3 * Width(strip))
  {
    assert RowFromBands(out[0][0], strip, 0, 0);
    forall d | 0 <= d < |out| ensures forall r :: 0 <= r < BandHeight ==> |out[d][r]| == 3 * Width(strip) {
      forall r | 0 <= r < BandHeight ensures |out[d][r]| == 3 * Width(strip) {
        assert RowFromBands(out[d][r], strip, d, r);
      }
    }
  }

  /** A 9216-row strip is rearranged into its three bands side by side. */
  lemma BandsLayout(strip: Volume)
    requires IsVolume(strip) && Height(strip) == StripHeight
    ensures Bands(strip).Ok? && LaidOut(Bands(strip).value, strip)
  {
    var out := Bands(strip).value;
    assert |out| == |strip|;
    forall d | 0 <= d < |out|
      ensures |out[d]| == BandHeight && forall r :: 0 <= r < BandHeight ==> RowFromBands(out[d][r], strip, d, r)
    {
      assert |strip[d]| == StripHeight;
      forall r | 0 <= r < BandHeight ensures RowFromBands(out[d][r], strip, d, r) {
        BandsRow(strip, d, r);
        JoinedRow(strip, d, r);
      }
    }
  }

  /**
   * `construct` as a function of the directory listing and of the draw of
   * `random.sample`: the specification the method below is proved against.
   */
  function Assemble(sources: seq<Source>, choice: seq<nat>): Result<Combined, PrepError>
    requires ValidSources(sources)
    requires |sources| >= SampleCount ==> IsSelection(choice, |sources|)
  {
    if |sources| < SampleCount then Err(TooFewDirectories)
    else
      var images := Images(sources, choice);
      var labels := Labels(sources, choice);
      if !Stackable(images) || !Stackable(labels) then Err(StripMismatch)
      else
        var ic := Bands(Stack(images));
        var il := Bands(Stack(labels));
        if ic.Err? || il.Err? then Err(BandMismatch) else Ok(Combined(ic.value, il.value))
  }

  /**
   * `construct` succeeds exactly when the root has at least nine directories,
   * both strips stack, and both are 9216 rows high.
   */
  lemma AssembleSucceedsIff(sources: seq<Source>, choice: seq<nat>)
    requires ValidSources(sources)
    requires |sources| >= SampleCount ==> IsSelection(choice, |sources|)
    ensures Assemble(sources, choice).Ok? <==>
      |sources| >= SampleCount &&
      Stackable(Images(sources, choice)) && Stackable(Labels(sources, choice)) &&
      TotalHeight(Images(sources, choice)) == StripHeight &&
      TotalHeight(Labels(sources, choice)) == StripHeight
  {
    if |sources| >= SampleCount {
      var images, labels := Images(sources, choice), Labels(sources, choice);
      if Stackable(images) && Stackable(labels) {
        BandsSucceedIff(Stack(images));
        BandsSucceedIff(Stack(labels));
      }
    }
  }

  /**
   * A successful `construct` returns two volumes of shape depth x 3072 x 3W,
   * where depth and W are those of the first chosen directory, each laid out
   * from its own strip by the same index map.
   */
  lemma AssembleLayout(sources: seq<Source>, choice: seq<nat>)
    requires ValidSources(sources)
    requires |sources| >= SampleCount ==> IsSelection(choice, |sources|)
    requires Assemble(sources, choice).Ok?
    ensures |sources| >= SampleCount
    ensures Stackable(Images(sources, choice)) && Stackable(Labels(sources, choice))
    ensures var images, out := Images(sources, choice), Assemble(sources, choice).value;
      Height(Stack(images)) == StripHeight &&
      ShapeOf(Stack(images)) == Shape(|images[0]|, StripHeight, Width(images[0])) &&
      LaidOut(out.ic, Stack(images)) &&
      IsVolume(out.ic) && ShapeOf(out.ic) == Shape(|images[0]|, BandHeight, 3 * Width(images[0]))
    ensures var labels, out := Labels(sources, choice), Assemble(sources, choice).value;
      Height(Stack(labels)) == StripHeight &&
      ShapeOf(Stack(labels)) == Shape(|labels[0]|, StripHeight, Width(labels[0])) &&
      LaidOut(out.il, Stack(labels)) &&
      IsVolume(out.il) && ShapeOf(out.il) == Shape(|labels[0]|, BandHeight, 3 * Width(labels[0]))
  {
    AssembleSucceedsIff(sources, choice);
    var images, labels := Images(sources, choice), Labels(sources, choice);
    var out := Assemble(sources, choice).value;
    BandsLayout(Stack(images));
    BandsLayout(Stack(labels));
    LaidOutShape(out.ic, Stack(images));
    LaidOutShape(out.il, Stack(labels));
  }

  /** Every directory's image and label have the same shape, as co-registered volumes do. */
  predicate Congruent(sources: seq<Source>)
    requires ValidSources(sources)
  {
    forall k :: 0 <= k < |sources| ==> ShapeOf(sources[k].im) == ShapeOf(sources[k].lb)
  }

  /** Lists of volumes with pointwise equal heights have equal total heights. */
  lemma {:induction false} TotalHeightPointwise(a: seq<Volume>, b: seq<Volume>)
    requires |a| == |b|
    requires forall k :: 0 <= k < |a| ==> |a[k]| > 0 && |b[k]| > 0 && Height(a[k]) == Height(b[k])
    ensures TotalHeight(a) == TotalHeight(b)
  {
    if |a| > 0 {
      TotalHeightPointwise(a[..|a| - 1], b[..|b| - 1]);
    }
  }

  /**
   * Image and label strips are built from the same directories in the same
   * order, so on congruent sources they stack together, and a successful
   * `construct` returns an image and a label of the same shape.
   */
  lemma CongruentSourcesAgree(sources: seq<Source>, choice: seq<nat>)
    requires ValidSources(sources) && Congruent(sources)
    requires |sources| >= SampleCount && IsSelection(choice, |sources|)
    ensures Stackable(Images(sources, choice)) <==> Stackable(Labels(sources, choice))
    ensures Stackable(Images(sources, choice)) ==>
      TotalHeight(Images(sources, choice)) == TotalHeight(Labels(sources, choice))
    ensures Assemble(sources, choice).Ok? ==>
      var out := Assemble(sources, choice).value;
      IsVolume(out.ic) && IsVolume(out.il) && ShapeOf(out.ic) == ShapeOf(out.il)
  {
    var images, labels := Images(sources, choice), Labels(sources, choice);
    SameShapes(images, labels);
    if Assemble(sources, choice).Ok? {
      AssembleLayout(sources, choice);
      assert ShapeOf(images[0]) == ShapeOf(labels[0]);
    }
  }

  /** Lists of volumes with pointwise equal shapes stack alike and to the same height. */
  lemma SameShapes(a: seq<Volume>, b: seq<Volume>)
    requires |a| == |b|
    requires forall k :: 0 <= k < |a| ==> IsVolume(a[k]) && IsVolume(b[k]) && ShapeOf(a[k]) == ShapeOf(b[k])
    ensures Stackable(a) <==> Stackable(b)
    ensures TotalHeight(a) == TotalHeight(b)
  {
    TotalHeightPointwise(a, b);
  }

  /**
   * `construct(root)`: `sources` is the sub-directory listing of `root` that `glob` returns, and
   * `choice` the positions `random.sample` picks from it.
   */
  method Construct(sources: seq<Source>, choice: seq<nat>) returns (r: Result<Combined, PrepError>)
    requires ValidSources(sources)
    requires |sources| >= SampleCount ==> IsSelection(choice, |sources|)
    ensures r == Assemble(sources, choice)
  {
    if |sources| < SampleCount {
      return Err(TooFewDirectories);
    }
    ghost var images := Images(sources, choice);
    ghost var labels := Labels(sources, choice);
    var ct := 1;
    var imcombined: Volume := [];
    var lbcombined: Volume := [];
    for i := 0 to |choice|
      invariant ct == i + 1
      invariant i > 0 ==> Stackable(images[..i]) && imcombined == Stack(images[..i])
      invariant i > 0 ==> Stackable(labels[..i]) && lbcombined == Stack(labels[..i])
    {
      var im := sources[choice[i]].im;
      var lb := sources[choice[i]].lb;
      if ct == 1 {
        imcombined := im;
        lbcombined := lb;
        assert images[..1] == [im] && labels[..1] == [lb];
      } else {
        if !Joinable(imcombined, im) {
          StackBlocked(images, i);
          return Err(StripMismatch);
        }
        StackExtend(images, i);
        imcombined := ConcatRows(imcombined, im);
        if !Joinable(lbcombined, lb) {
          StackBlocked(labels, i);
          return Err(StripMismatch);
        }
        StackExtend(labels, i);
        lbcombined := ConcatRows(lbcombined, lb);
      }
      ct := ct + 1;
    }
    assert images[..|choice|] == images && labels[..|choice|] == labels;
    var ic := Bands(imcombined);
    var il := Bands(lbcombined);
    if ic.Err? || il.Err? {
      return Err(BandMismatch);
    }
    return Ok(Combined(ic.value, il.value));
  }
}

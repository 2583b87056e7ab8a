/**
 * `sampling` (Scripts/GAN_prep.py:32-47): nine tiled windows and `rand_num`
 * random windows are cut from the combined image and label volumes,
 * resampled to 7 x 256 x 256 bytes, and saved as `_im`/`_lb` file pairs in
 * the output directory.
 */
module Sampler {
  import opened Wrappers
  import opened Volumes
  import opened FileNames

  /** The side of a window. */
  const TileSize: nat := 1024
  /** `range(3)` in both nested loops. */
  const GridSize: nat := 3
  /** The side of the square region the windows are cut from. */
  const Region: nat := GridSize * TileSize
  /** `random.randint(0, 2048)`: the largest random offset, inclusive. */
  const MaxOffset: nat := Region - TileSize

  /** The top-left corner `(row, col)` of a window. */
  datatype Offset = Offset(row: nat, col: nat)

  /** One `io.imsave` call: the file name and the array saved under it. */
  datatype Write = Write(name: string, crop: Crop)

  /** `v[:, row:row+1024, col:col+1024]`, clamped as numpy slicing is. */
  function Window(v: Volume, o: Offset): Volume {
    SliceCols(SliceRows(v, o.row, o.row + TileSize), o.col, o.col + TileSize)
  }

  /**
   * The array saved for a window: `transform.resize(..., (7, 256, 256)) * 255`
   * cast to `uint8`, wrapped in a one-element list. The resampling is floating
   * point and is supplied by the caller as `resize`.
   */
  function CropOf(v: Volume, o: Offset, resize: Volume -> Stack): Crop {
    Crop([resize(Window(v, o))])
  }

  /** The name a half of the crop pair at `o` is saved under. */
  function NameAt(bt: nat, o: Offset, p: Part): string {
    FileName(CropName(bt, o.row, o.col, p))
  }

  /** The two saves for one window: the image crop, then the label crop. */
  function PairWrites(img: Volume, lb: Volume, bt: nat, o: Offset, resize: Volume -> Stack): seq<Write> {
    [Write(NameAt(bt, o, Image), CropOf(img, o, resize)), Write(NameAt(bt, o, Label), CropOf(lb, o, resize))]
  }

  /** Writes `2k` and `2k + 1` of a run of saves. */
  function PairAt(ws: seq<Write>, k: nat): seq<Write>
    requires 2 * k + 2 <= |ws|
  {
    ws[2 * k..2 * k + 2]
  }

  /** Every save `sampling` makes for the windows `os`, in order. */
  function Writes(img: Volume, lb: Volume, bt: nat, os: seq<Offset>, resize: Volume -> Stack): (ws: seq<Write>)
    ensures |ws| == 2 * |os|
  {
    if |os| == 0 then []
    else Writes(img, lb, bt, os[..|os| - 1], resize) + PairWrites(img, lb, bt, os[|os| - 1], resize)
  }

  /** Saves `2k` and `2k + 1` are the image and label crops of window `k`. */
  lemma {:induction false} WritesInPairs(img: Volume, lb: Volume, bt: nat, os: seq<Offset>, resize: Volume -> Stack)
    ensures forall k :: 0 <= k < |os| ==> PairAt(Writes(img, lb, bt, os, resize), k) == PairWrites(img, lb, bt, os[k], resize)
  {
    if |os| > 0 {
      var front := os[..|os| - 1];
      WritesInPairs(img, lb, bt, front, resize);
      var ws := Writes(img, lb, bt, os, resize);
      assert ws == Writes(img, lb, bt, front, resize) + PairWrites(img, lb, bt, os[|os| - 1], resize);
      forall k | 0 <= k < |os|
        ensures PairAt(ws, k) == PairWrites(img, lb, bt, os[k], resize)
      {
        if k < |os| - 1 {
          assert PairAt(ws, k) == PairAt(Writes(img, lb, bt, front, resize), k);
        }
      }
    }
  }

  /** The names a run of saves writes to. */
  function Names(ws: seq<Write>): set<string> {
    if |ws| == 0 then {} else Names(ws[..|ws| - 1]) + {ws[|ws| - 1].name}
  }

  /** A directory after a run of saves: each save replaces whatever the name held. */
  function Apply(files: map<string, Crop>, ws: seq<Write>): (r: map<string, Crop>)
    ensures r.Keys == files.Keys + Names(ws)
  {
    if |ws| == 0 then files
    else Apply(files, ws[..|ws| - 1])[ws[|ws| - 1].name := ws[|ws| - 1].crop]
  }

  /** The nine tiled windows, in the order of the nested loops: row `1024 * i`, column `1024 * j`. */
  function TiledOffsets(): seq<Offset> {
    [Offset(0, 0), Offset(0, 1024), Offset(0, 2048),
     Offset(1024, 0), Offset(1024, 1024), Offset(1024, 2048),
     Offset(2048, 0), Offset(2048, 1024), Offset(2048, 2048)]
  }

  /** Every window `sampling` saves: the tiled ones, then the random draws. */
  function Windows(draws: seq<Offset>): seq<Offset> {
    TiledOffsets() + draws
  }

  /** `(row, col)` is one of `random.randint(0, 2048)`'s possible pairs. */
  predicate InRange(o: Offset) {
    o.row <= MaxOffset && o.col <= MaxOffset
  }

  /** The output directory; `files` maps each file name in it to the array stored there. */
  class Directory {
    var files: map<string, Crop>
    /** Every save made through this object, in order. */
    ghost var log: seq<Write>

    constructor (files: map<string, Crop>)
      ensures this.files == files && log == []
    {
      this.files := files;
      log := [];
    }

    /** `io.imsave(dir + '/' + name, crop)`: creates the file or replaces its contents. */
    method Save(name: string, crop: Crop)
      modifies this
      ensures files == old(files)[name := crop]
      ensures log == old(log) + [Write(name, crop)]
    {
      files := files[name := crop];
      log := log + [Write(name, crop)];
    }
  }

  lemma ApplyPair(files: map<string, Crop>, ws: seq<Write>, w1: Write, w2: Write)
    ensures Apply(files, ws + [w1, w2]) == Apply(files, ws)[w1.name := w1.crop][w2.name := w2.crop]
  {
    assert (ws + [w1, w2])[..|ws| + 1] == ws + [w1];
    assert (ws + [w1])[..|ws|] == ws;
  }

  lemma NamesPair(ws: seq<Write>, w1: Write, w2: Write)
    ensures Names(ws + [w1, w2]) == Names(ws) + {w1.name, w2.name}
  {
    assert (ws + [w1, w2])[..|ws| + 1] == ws + [w1];
    assert (ws + [w1])[..|ws|] == ws;
  }

  lemma WritesExtend(img: Volume, lb: Volume, bt: nat, os: seq<Offset>, o: Offset, resize: Volume -> Stack)
    ensures Writes(img, lb, bt, os + [o], resize) == Writes(img, lb, bt, os, resize) + PairWrites(img, lb, bt, o, resize)
  {
    assert (os + [o])[..|os|] == os;
  }

  /** The two saves for window `o` take the directory one window further. */
  lemma SaveStep(files: map<string, Crop>, img: Volume, lb: Volume, bt: nat, os: seq<Offset>,
                 o: Offset, resize: Volume -> Stack)
    ensures Apply(files, Writes(img, lb, bt, os + [o], resize))
         == Apply(files, Writes(img, lb, bt, os, resize))[NameAt(bt, o, Image) := CropOf(img, o, resize)]
                                                          [NameAt(bt, o, Label) := CropOf(lb, o, resize)]
  {
    var w1 := Write(NameAt(bt, o, Image), CropOf(img, o, resize));
    var w2 := Write(NameAt(bt, o, Label), CropOf(lb, o, resize));
    WritesExtend(img, lb, bt, os, o, resize);
    assert PairWrites(img, lb, bt, o, resize) == [w1, w2];
    ApplyPair(files, Writes(img, lb, bt, os, resize), w1, w2);
  }

  /** The two saves for window `o` take the log one window further. */
  lemma LogStep(log: seq<Write>, img: Volume, lb: Volume, bt: nat, os: seq<Offset>,
                o: Offset, resize: Volume -> Stack)
    ensures log + Writes(img, lb, bt, os + [o], resize)
         == log + Writes(img, lb, bt, os, resize)
            + [Write(NameAt(bt, o, Image), CropOf(img, o, resize))] + [Write(NameAt(bt, o, Label), CropOf(lb, o, resize))]
  {
    var ws := Writes(img, lb, bt, os, resize);
    var w1 := Write(NameAt(bt, o, Image), CropOf(img, o, resize));
    var w2 := Write(NameAt(bt, o, Label), CropOf(lb, o, resize));
    WritesExtend(img, lb, bt, os, o, resize);
    assert PairWrites(img, lb, bt, o, resize) == [w1, w2];
    assert log + (ws + [w1, w2]) == log + ws + [w1] + [w2];
  }

  /** The two saves for window `o` add its two names. */
  lemma NamesStep(img: Volume, lb: Volume, bt: nat, os: seq<Offset>, o: Offset, resize: Volume -> Stack)
    ensures Names(Writes(img, lb, bt, os + [o], resize))
         == Names(Writes(img, lb, bt, os, resize)) + {NameAt(bt, o, Image), NameAt(bt, o, Label)}
  {
    var w1 := Write(NameAt(bt, o, Image), CropOf(img, o, resize));
    var w2 := Write(NameAt(bt, o, Label), CropOf(lb, o, resize));
    WritesExtend(img, lb, bt, os, o, resize);
    assert PairWrites(img, lb, bt, o, resize) == [w1, w2];
    NamesPair(Writes(img, lb, bt, os, resize), w1, w2);
  }

  lemma NextTile(tiles: seq<Offset>, k: nat, o: Offset)
    requires k <= |tiles|
    ensures k < |tiles| && tiles[k] == o ==> tiles[..k + 1] == tiles[..k] + [o]
  {
  }

  lemma NextDraw(tiles: seq<Offset>, draws: seq<Offset>, m: nat)
    requires m < |draws|
    ensures tiles + draws[..m + 1] == (tiles + draws[..m]) + [draws[m]]
  {
    assert draws[..m + 1] == draws[..m] + [draws[m]];
  }

  lemma TiledAt(i: nat, j: nat)
    requires i < GridSize && j < GridSize
    ensures GridSize * i + j < |TiledOffsets()|
    ensures TiledOffsets()[GridSize * i + j] == Offset(i * TileSize, j * TileSize)
  {
    var k := GridSize * i + j;
    assert k / GridSize == i && k % GridSize == j;
  }

  /** The body of both loops: cut the window at `o` from both volumes and save the pair. */
  method SaveWindow(img: Volume, lb: Volume, bt: nat, dir: Directory, o: Offset, resize: Volume -> Stack)
    modifies dir
    ensures dir.files == old(dir.files)[NameAt(bt, o, Image) := CropOf(img, o, resize)]
                                       [NameAt(bt, o, Label) := CropOf(lb, o, resize)]
    ensures dir.log == old(dir.log) + [Write(NameAt(bt, o, Image), CropOf(img, o, resize))]
                                    + [Write(NameAt(bt, o, Label), CropOf(lb, o, resize))]
  {
    var cutim := CropOf(img, o, resize);
    var cutlb := CropOf(lb, o, resize);
    dir.Save(FileName(CropName(bt, o.row, o.col, Image)), cutim);
    dir.Save(FileName(CropName(bt, o.row, o.col, Label)), cutlb);
  }

  /** Saves for `a` then saves for `b` are the saves for `a + b`. */
  lemma {:induction false} WritesConcat(img: Volume, lb: Volume, bt: nat, a: seq<Offset>, b: seq<Offset>,
                                        resize: Volume -> Stack)
    ensures Writes(img, lb, bt, a + b, resize) == Writes(img, lb, bt, a, resize) + Writes(img, lb, bt, b, resize)
    decreases |b|
  {
    if |b| == 0 {
      assert a + b == a;
    } else {
      var front, o := b[..|b| - 1], b[|b| - 1];
      assert b == front + [o];
      assert a + b == (a + front) + [o];
      WritesConcat(img, lb, bt, a, front, resize);
      WritesExtend(img, lb, bt, a + front, o, resize);
      WritesExtend(img, lb, bt, front, o, resize);
      AppendAssoc(Writes(img, lb, bt, a, resize), Writes(img, lb, bt, front, resize), PairWrites(img, lb, bt, o, resize));
    }
  }

  lemma AppendAssoc<T>(a: seq<T>, b: seq<T>, c: seq<T>)
    ensures a + (b + c) == a + b + c
  {
  }

  /** Applying two runs of saves one after the other is applying their concatenation. */
  lemma {:induction false} ApplyConcat(files: map<string, Crop>, ws1: seq<Write>, ws2: seq<Write>)
    ensures Apply(files, ws1 + ws2) == Apply(Apply(files, ws1), ws2)
    decreases |ws2|
  {
    if |ws2| == 0 {
      assert ws1 + ws2 == ws1;
    } else {
      var front, w := ws2[..|ws2| - 1], ws2[|ws2| - 1];
      assert (ws1 + ws2)[..|ws1 + ws2| - 1] == ws1 + front;
      ApplyConcat(files, ws1, front);
    }
  }

  /** The nested loops of `sampling`: the nine tiled windows in row-major order. */
  method SaveTiles(img: Volume, lb: Volume, bt: nat, dir: Directory, resize: Volume -> Stack)
    modifies dir
    ensures dir.files == Apply(old(dir.files), Writes(img, lb, bt, TiledOffsets(), resize))
    ensures dir.log == old(dir.log) + Writes(img, lb, bt, TiledOffsets(), resize)
  {
    ghost var tiles, files0, log0 := TiledOffsets(), dir.files, dir.log;
    ghost var done: seq<Offset> := [];
    for i: nat := 0 to GridSize
      invariant done == tiles[..GridSize * i]
      invariant dir.files == Apply(files0, Writes(img, lb, bt, done, resize))
      invariant dir.log == log0 + Writes(img, lb, bt, done, resize)
    {
      for j: nat := 0 to GridSize
        invariant done == tiles[..GridSize * i + j]
        invariant dir.files == Apply(files0, Writes(img, lb, bt, done, resize))
        invariant dir.log == log0 + Writes(img, lb, bt, done, resize)
      {
        var o := Offset(i * TileSize, j * TileSize);
        TiledAt(i, j);
        NextTile(tiles, GridSize * i + j, o);
        SaveStep(files0, img, lb, bt, done, o, resize);
        LogStep(log0, img, lb, bt, done, o, resize);
        SaveWindow(img, lb, bt, dir, o, resize);
        done := done + [o];
      }
    }
    assert tiles[..|tiles|] == tiles;
  }

  /** The loop of `sampling` over `rand_num` random windows. */
  method SaveDraws(img: Volume, lb: Volume, bt: nat, dir: Directory, randNum: nat, draws: seq<Offset>,
                   resize: Volume -> Stack)
    requires |draws| == randNum
    modifies dir
    ensures dir.files == Apply(old(dir.files), Writes(img, lb, bt, draws, resize))
    ensures dir.log == old(dir.log) + Writes(img, lb, bt, draws, resize)
  {
    ghost var files0, log0 := dir.files, dir.log;
    for m := 0 to randNum
      invariant dir.files == Apply(files0, Writes(img, lb, bt, draws[..m], resize))
      invariant dir.log == log0 + Writes(img, lb, bt, draws[..m], resize)
    {
      var o := draws[m];
      NextDraw([], draws, m);
      assert [] + draws[..m + 1] == draws[..m + 1] && [] + draws[..m] == draws[..m];
      SaveStep(files0, img, lb, bt, draws[..m], o, resize);
      LogStep(log0, img, lb, bt, draws[..m], o, resize);
      SaveWindow(img, lb, bt, dir, o, resize);
    }
    assert draws[..randNum] == draws;
  }

  /**
   * `sampling(img, lb, bt, dir, rand_num)`. `draws` are the `rand_num` pairs
   * `(ht, wt)` that `random.randint(0, 2048)` returns, in the order drawn.
   */
  method Sampling(img: Volume, lb: Volume, bt: nat, dir: Directory, randNum: nat, draws: seq<Offset>,
                  resize: Volume -> Stack)
    requires |draws| == randNum
    requires forall m :: 0 <= m < |draws| ==> InRange(draws[m])
    modifies dir
    ensures dir.files == Apply(old(dir.files), Writes(img, lb, bt, Windows(draws), resize))
    ensures dir.log == old(dir.log) + Writes(img, lb, bt, Windows(draws), resize)
  {
    ghost var tiled, drawn := Writes(img, lb, bt, TiledOffsets(), resize), Writes(img, lb, bt, draws, resize);
    SaveTiles(img, lb, bt, dir, resize);
    SaveDraws(img, lb, bt, dir, randNum, draws, resize);
    WritesConcat(img, lb, bt, TiledOffsets(), draws, resize);
    ApplyConcat(old(dir.files), tiled, drawn);
    AppendAssoc(old(dir.log), tiled, drawn);
  }

  /** The window at `o` covers pixel `(y, x)` of the region. */
  predicate Covers(o: Offset, y: int, x: int) {
    o.row <= y < o.row + TileSize && o.col <= x < o.col + TileSize
  }

  /** The nine tiles partition the 3072 x 3072 region: each pixel lies in exactly one of them. */
  lemma TilesPartitionRegion(y: nat, x: nat)
    requires y < Region && x < Region
    ensures exists k :: 0 <= k < |TiledOffsets()| && Covers(TiledOffsets()[k], y, x)
    ensures forall k1, k2 ::
              (0 <= k1 < |TiledOffsets()| && 0 <= k2 < |TiledOffsets()| &&
               Covers(TiledOffsets()[k1], y, x) && Covers(TiledOffsets()[k2], y, x)) ==> k1 == k2
  {
    var i, j := y / TileSize, x / TileSize;
    TiledAt(i, j);
    assert Covers(TiledOffsets()[GridSize * i + j], y, x);
  }

  /** Every window `sampling` cuts, tiled or drawn, starts within `randint`'s range and so lies inside the region. */
  lemma WindowsInRegion(draws: seq<Offset>)
    requires forall m :: 0 <= m < |draws| ==> InRange(draws[m])
    ensures |Windows(draws)| == GridSize * GridSize + |draws|
    ensures forall k :: 0 <= k < |Windows(draws)| ==>
              InRange(Windows(draws)[k]) && Windows(draws)[k].row + TileSize <= Region
              && Windows(draws)[k].col + TileSize <= Region
  {
  }

  /** Row `r` of plane `d` of a window in range: the 1024 pixels under it. */
  lemma WindowRow(v: Volume, o: Offset, d: nat, r: nat)
    requires IsVolume(v) && Height(v) >= Region && Width(v) >= Region && InRange(o)
    requires d < |v| && r < TileSize
    ensures |Window(v, o)[d]| == TileSize
    ensures Window(v, o)[d][r] == v[d][o.row + r][o.col..o.col + TileSize]
  {
    var rows := SliceRows(v, o.row, o.row + TileSize);
    assert |v[d]| == Height(v);
    assert rows[d] == Slice(v[d], o.row, o.row + TileSize);
    assert rows[d][r] == v[d][o.row + r];
    assert |v[d][o.row + r]| == Width(v);
  }

  /**
   * On a volume at least 3072 x 3072, a window in range is a full 1024 x 1024
   * block and holds the pixels under it.
   */
  lemma WindowFull(v: Volume, o: Offset)
    requires IsVolume(v) && Height(v) >= Region && Width(v) >= Region && InRange(o)
    ensures HasShape(Window(v, o), Shape(|v|, TileSize, TileSize))
    ensures forall d, r, c :: 0 <= d < |v| && 0 <= r < TileSize && 0 <= c < TileSize ==>
              Window(v, o)[d][r][c] == v[d][o.row + r][o.col + c]
  {
    var w := Window(v, o);
    forall d, r | 0 <= d < |v| && 0 <= r < TileSize
      ensures |w[d]| == TileSize && w[d][r] == v[d][o.row + r][o.col..o.col + TileSize]
    {
      WindowRow(v, o, d, r);
    }
  }

  /** A saved array is one 7 x 256 x 256 stack. */
  predicate SavedShape(c: Crop) {
    |c.stacks| == 1 && HasShape(c.stacks[0], CropShape)
  }

  /** When the resampling honours its target shape, every saved array has the crop shape. */
  lemma {:induction false} WrittenCropsShaped(img: Volume, lb: Volume, bt: nat, os: seq<Offset>, resize: Volume -> Stack)
    requires forall v :: HasShape(resize(v), CropShape)
    ensures forall i :: 0 <= i < |Writes(img, lb, bt, os, resize)| ==> SavedShape(Writes(img, lb, bt, os, resize)[i].crop)
  {
    if |os| > 0 {
      WrittenCropsShaped(img, lb, bt, os[..|os| - 1], resize);
    }
  }

  /** The names a run of saves touches: exactly the crop names of batch `bt` at one of the windows `os`. */
  lemma {:induction false} WrittenNames(img: Volume, lb: Volume, bt: nat, os: seq<Offset>, resize: Volume -> Stack,
                                         name: string)
    ensures name in Names(Writes(img, lb, bt, os, resize)) <==>
              ParseName(name).Some? && ParseName(name).value.batch == bt
              && Offset(ParseName(name).value.row, ParseName(name).value.col) in os
  {
    if |os| > 0 {
      var front, o := os[..|os| - 1], os[|os| - 1];
      assert os == front + [o];
      WrittenNames(img, lb, bt, front, resize, name);
      NamesStep(img, lb, bt, front, o, resize);
      ParseFileName(CropName(bt, o.row, o.col, Image));
      ParseFileName(CropName(bt, o.row, o.col, Label));
      if ParseName(name).Some? {
        FileNameOfParse(name);
      }
    }
  }

  /** The distinct windows among `os`. */
  function OffsetSet(os: seq<Offset>): set<Offset> {
    set o | o in os
  }

  lemma OffsetSetExtend(os: seq<Offset>, o: Offset)
    ensures OffsetSet(os + [o]) == OffsetSet(os) + {o}
  {
  }

  lemma {:induction false} DistinctWindows(os: seq<Offset>)
    ensures |OffsetSet(os)| <= |os|
  {
    if |os| > 0 {
      var front := os[..|os| - 1];
      DistinctWindows(front);
      assert os == front + [os[|os| - 1]];
      OffsetSetExtend(front, os[|os| - 1]);
    }
  }

  /**
   * Each distinct window leaves exactly one `_im`/`_lb` pair: a repeated
   * offset, tiled or drawn, overwrites its pair instead of adding one.
   */
  lemma {:induction false} WrittenNameCount(img: Volume, lb: Volume, bt: nat, os: seq<Offset>, resize: Volume -> Stack)
    ensures |Names(Writes(img, lb, bt, os, resize))| == 2 * |OffsetSet(os)| <= 2 * |os|
  {
    DistinctWindows(os);
    if |os| > 0 {
      var front, o := os[..|os| - 1], os[|os| - 1];
      assert os == front + [o];
      WrittenNameCount(img, lb, bt, front, resize);
      var before := Names(Writes(img, lb, bt, front, resize));
      NamesStep(img, lb, bt, front, o, resize);
      var a, b := NameAt(bt, o, Image), NameAt(bt, o, Label);
      assert before + {a, b} == before + {a} + {b};
      OffsetSetExtend(front, o);
      PairNamesNew(img, lb, bt, front, o, resize);
      CountStep(before, a, b, OffsetSet(front), o);
    }
  }

  lemma CountStep(names: set<string>, a: string, b: string, offsets: set<Offset>, o: Offset)
    requires a != b && |names| == 2 * |offsets|
    requires o in offsets ==> a in names && b in names
    requires o !in offsets ==> a !in names && b !in names
    ensures |names + {a} + {b}| == 2 * |offsets + {o}|
  {
    if o in offsets {
      assert names + {a} + {b} == names;
      assert offsets + {o} == offsets;
    } else {
      assert |names + {a}| == |names| + 1;
      assert b !in names + {a};
    }
  }

  /** The pair for `o` is already among the names written for `os` exactly when `o` is one of `os`. */
  lemma PairNamesNew(img: Volume, lb: Volume, bt: nat, os: seq<Offset>, o: Offset, resize: Volume -> Stack)
    ensures NameAt(bt, o, Image) != NameAt(bt, o, Label)
    ensures o in os ==> NameAt(bt, o, Image) in Names(Writes(img, lb, bt, os, resize))
                        && NameAt(bt, o, Label) in Names(Writes(img, lb, bt, os, resize))
    ensures o !in os ==> NameAt(bt, o, Image) !in Names(Writes(img, lb, bt, os, resize))
                         && NameAt(bt, o, Label) !in Names(Writes(img, lb, bt, os, resize))
  {
    ParseFileName(CropName(bt, o.row, o.col, Image));
    ParseFileName(CropName(bt, o.row, o.col, Label));
    WrittenNames(img, lb, bt, os, resize, NameAt(bt, o, Image));
    WrittenNames(img, lb, bt, os, resize, NameAt(bt, o, Label));
  }

  /** Every file `sampling` wrote holds the resampled window its name encodes, from the volume its tag names. */
  lemma {:induction false} WrittenContents(files: map<string, Crop>, img: Volume, lb: Volume, bt: nat, os: seq<Offset>,
                                            resize: Volume -> Stack, name: string)
    requires name in Names(Writes(img, lb, bt, os, resize))
    ensures ParseName(name).Some? && name in Apply(files, Writes(img, lb, bt, os, resize))
    ensures Apply(files, Writes(img, lb, bt, os, resize))[name]
         == CropOf(if ParseName(name).value.part == Image then img else lb,
                   Offset(ParseName(name).value.row, ParseName(name).value.col), resize)
  {
    WrittenNames(img, lb, bt, os, resize, name);
    var front, o := os[..|os| - 1], os[|os| - 1];
    assert os == front + [o];
    SaveStep(files, img, lb, bt, front, o, resize);
    NamesStep(img, lb, bt, front, o, resize);
    var a, b := NameAt(bt, o, Image), NameAt(bt, o, Label);
    ParseFileName(CropName(bt, o.row, o.col, Image));
    ParseFileName(CropName(bt, o.row, o.col, Label));
    if name != a && name != b {
      WrittenContents(files, img, lb, bt, front, resize, name);
    }
  }

  /** A file no save names keeps its contents. */
  lemma {:induction false} OtherFilesKept(files: map<string, Crop>, ws: seq<Write>, name: string)
    requires name in files && name !in Names(ws)
    ensures Apply(files, ws)[name] == files[name]
  {
    if |ws| > 0 {
      OtherFilesKept(files, ws[..|ws| - 1], name);
    }
  }

  /** Saving whole pairs keeps a paired directory paired. */
  lemma SamplingKeepsPairs(files: map<string, Crop>, img: Volume, lb: Volume, bt: nat, os: seq<Offset>,
                           resize: Volume -> Stack)
    requires Paired(files.Keys)
    ensures Paired(Apply(files, Writes(img, lb, bt, os, resize)).Keys)
  {
    forall b, r, c
      ensures FileName(CropName(b, r, c, Image)) in Names(Writes(img, lb, bt, os, resize))
          <==> FileName(CropName(b, r, c, Label)) in Names(Writes(img, lb, bt, os, resize))
    {
      ParseFileName(CropName(b, r, c, Image));
      ParseFileName(CropName(b, r, c, Label));
      WrittenNames(img, lb, bt, os, resize, FileName(CropName(b, r, c, Image)));
      WrittenNames(img, lb, bt, os, resize, FileName(CropName(b, r, c, Label)));
    }
  }
}

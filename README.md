# Cycle-GAN 3-D data preparation, modelled in Dafny

This project models the data-preparation core of the 3-D Cycle-GAN scripts,
`Scripts/GAN_prep.py`:

- `construct` picks nine sample directories, stacks their image and label
  volumes into a tall strip along the height axis, then cuts the strip into
  three 3072-row bands and lays them side by side along the width axis
  (`assembly.dfy`, module `Assembly`).
- `sampling` cuts nine tiled 1024 x 1024 windows and `rand_num` random windows
  from the combined image and label, resamples each to 7 x 256 x 256 bytes,
  and saves it as an `_im`/`_lb` pair named `{bt}_{row}_{col}`
  (`sampler.dfy`, module `Sampler`).
- `ImageDataset` lists the `_im` and `_lb` files, sorts each list, and serves
  items by modulo indexing (or a random B index when unaligned), scaling
  every pixel by `/255` (`dataset.dfy`, module `Dataset`).

Supporting modules:

- `volumes.dfy` (`Volumes`): 3-D arrays as `seq<seq<seq<int>>>` indexed
  `[depth][row][col]`, numpy's clamped slicing, and `np.concatenate` on
  axes 1 and 2.
- `file_names.dfy` (`FileNames`): the name format, its parser and both
  round trips.
- `listing.dfy` (`Listing`): Python's string order, `sorted` (an insertion
  sort), and the glob on a suffix.

Randomness and I/O are parameters:

- `random.sample` is the `choice` argument of `Construct`.
- The `randint` pairs are the `draws` of `Sampling`.
- The unaligned B index is the `draw` of `GetItem`.
- A directory listing is a `seq<string>`.
- The output directory is a `Directory` object whose `files` map each
  `Save` updates.
- `transform.resize(...) * 255` cast to `uint8` is the function parameter
  `resize`.

`construct` is a method with the source's `ct` loop. It is proved equal to
the function `Assemble`, and the lemmas are stated about `Assemble`.

`sampling` is the method `Sampling`. It runs the source's nested loops
(`SaveTiles`) and then its random loop (`SaveDraws`). It is proved to leave
the directory equal to `Apply(old files, Writes(...))` and to log exactly
the saves `Writes` lists. The lemmas describe that directory.

`ImageDataset` never changes its fields after `__init__`. It is therefore a
datatype with member functions, built by `Load`.

## Model

| member | source | states |
|---|---|---|
| Volumes.ShapeOf | Scripts/GAN_prep.py:23-27 | a volume's depth, height and width, all positive, bound every plane and row |
| Volumes.Slice | Scripts/GAN_prep.py:26 | numpy slicing `s[lo:hi]` clamps to the length: the length is `min(hi, len) - lo` or 0, and element `i` is `s[lo + i]` |
| Volumes.SliceRows | Scripts/GAN_prep.py:26-27 | `v[:, lo:hi, :]` slices every plane alike and keeps the depth |
| Volumes.SliceCols | Scripts/GAN_prep.py:36 | `v[:, :, lo:hi]` slices every row alike and keeps depth and height |
| Volumes.ConcatRows | Scripts/GAN_prep.py:23-24 | `np.concatenate(axis=1)` puts each plane of `b` below the same plane of `a` |
| Volumes.ConcatCols | Scripts/GAN_prep.py:26-27 | `np.concatenate(axis=2)` joins each row of `a` to the same row of `b` |
| Volumes.ConcatRowsShape | Scripts/GAN_prep.py:23-24 | joining along axis 1 adds the heights and keeps depth and width |
| Assembly.Images | Scripts/GAN_prep.py:16-17 | the k-th image read is the `image.tif` of the k-th sampled directory |
| Assembly.Labels | Scripts/GAN_prep.py:16-18 | the k-th label read is the `label.tif` of the same directory as the k-th image |
| Assembly.IsSelection | Scripts/GAN_prep.py:12 | what `random.sample(dirs, 9)` returns: nine distinct positions in the listing |
| Assembly.Joinable | Scripts/GAN_prep.py:23-24 | `np.concatenate(axis=1)` accepts two volumes exactly when depth and width agree |
| Assembly.Stackable | Scripts/GAN_prep.py:19-25 | every volume of the list shares the first one's depth and width, so each concatenation of the loop is accepted |
| Assembly.TotalHeight | Scripts/GAN_prep.py:19-25 | the summed heights; `StackRow` places each volume at the height of those before it |
| Assembly.Stack | Scripts/GAN_prep.py:19-25 | the strip is a volume with the first volume's depth and width and the summed height |
| Assembly.StackRow | Scripts/GAN_prep.py:19-25 | row `r` of the k-th volume is row `TotalHeight(vs[..k]) + r` of the strip, for every plane |
| Assembly.StackExtend | Scripts/GAN_prep.py:23-24 | one more accepted concatenation extends the strip by exactly that volume |
| Assembly.StackBlocked | Scripts/GAN_prep.py:23-24 | a volume `np.concatenate` refuses makes the whole list unstackable, so `construct` raises |
| Assembly.Bands | Scripts/GAN_prep.py:26-27 | the three row bands `[:3072]`, `[3072:6144]`, `[6144:]` joined along axis 2, or the error numpy raises when their heights differ; `BandsSucceedIff` and `BandsLayout` state when and how |
| Assembly.BandsSucceedIff | Scripts/GAN_prep.py:26-27 | the three bands concatenate along axis 2 exactly when the strip is 9216 rows high |
| Assembly.BandsRow | Scripts/GAN_prep.py:26 | output row `r` is strip rows `r`, `3072 + r` and `6144 + r` side by side |
| Assembly.JoinedRow | Scripts/GAN_prep.py:26 | in that joined row, column `c` is strip pixel `[r + 3072 * (c div W)][c mod W]` |
| Assembly.LaidOutShape | Scripts/GAN_prep.py:26-27 | the rearranged volume is depth x 3072 x 3W |
| Assembly.BandsLayout | Scripts/GAN_prep.py:26-27 | a 9216-row strip succeeds, and every output pixel is `strip[d][r + 3072 * (c div W)][c mod W]` |
| Assembly.Assemble | Scripts/GAN_prep.py:11-29 | `construct` as a function of the listing and the draw: too few directories, a refused concatenation, or mismatched bands fail, else both rearranged volumes |
| Assembly.AssembleSucceedsIff | Scripts/GAN_prep.py:11-29 | `construct` returns exactly when there are at least 9 directories, both strips stack, and both are 9216 rows high |
| Assembly.AssembleLayout | Scripts/GAN_prep.py:11-29 | on success both outputs are the index-mapped rearrangement of their strips, with shape depth x 3072 x 3W of the first volume |
| Assembly.TotalHeightPointwise | Scripts/GAN_prep.py:16-25 | lists with pointwise equal heights stack to the same height |
| Assembly.SameShapes | Scripts/GAN_prep.py:16-25 | lists with pointwise equal shapes are stackable together and reach the same height |
| Assembly.CongruentSourcesAgree | Scripts/GAN_prep.py:16-29 | when each directory's image and label share a shape, both strips behave alike and the outputs have one shape |
| Assembly.Construct | Scripts/GAN_prep.py:11-29 | the loop with `ct`, `imcombined` and `lbcombined` returns exactly `Assemble`, including each error |
| FileNames.Decimal | Scripts/GAN_prep.py:38-39 | `'{}'.format(n)` is a canonical decimal with no leading zero, and is `"0"` only for 0 |
| FileNames.ValueOfDecimal | Scripts/GAN_prep.py:38-39 | reading a formatted number gives the number back |
| FileNames.DecimalOfValue | Scripts/GAN_prep.py:38-39 | formatting the value of a canonical decimal gives the text back |
| FileNames.Split | Scripts/GAN_prep.py:38-39 | splitting on `_` gives at least one field and no field holds `_` |
| FileNames.SplitJoin | Scripts/GAN_prep.py:38-39 | splitting joined fields that hold no separator gives the fields back |
| FileNames.JoinSplit | Scripts/GAN_prep.py:38-39 | joining the fields of a split gives the text back |
| FileNames.Key | Scripts/GAN_prep.py:38-39 | `'{}_{}_{}'.format(bt, row, col)`, the part shared by a crop's two files |
| FileNames.FileName | Scripts/GAN_prep.py:38-39 | the key followed by `_im.tif` or `_lb.tif`; `ParseFileName` and `FileNameOfParse` invert it |
| FileNames.FileNameAsJoin | Scripts/GAN_prep.py:38-39 | a crop name is batch, row, column and tag joined by `_` |
| FileNames.ParseFileName | Scripts/GAN_prep.py:38-39 | parsing a written name recovers `(bt, row, col)` and the half |
| FileNames.FileNameOfParse | Scripts/GAN_prep.py:46-47 | every name the parser accepts is the name written for what it parses to |
| FileNames.FileNameInjective | Scripts/GAN_prep.py:38-39 | distinct crops never share a file name |
| FileNames.NameHasNoSeparator | Scripts/GAN_prep.py:38-39 | a crop name has no `/`, so each save lands directly in `dir` |
| Listing.Below | Scripts/GAN_prep.py:54-55 | Python's `<` on str, the order `sorted` uses: code-point lexicographic, a proper prefix first |
| Listing.BelowIrreflexive | Scripts/GAN_prep.py:54-55 | no string sorts before itself |
| Listing.BelowAsymmetric | Scripts/GAN_prep.py:54-55 | two strings never sort before each other |
| Listing.BelowTransitive | Scripts/GAN_prep.py:54-55 | Python's string order is transitive |
| Listing.BelowTotal | Scripts/GAN_prep.py:54-55 | of two distinct strings one sorts first |
| Listing.NotAfterTransitive | Scripts/GAN_prep.py:54-55 | "not after" is transitive |
| Listing.CommonPrefixOrder | Scripts/GAN_prep.py:54-55 | a shared directory prefix does not change the order, so sorting full paths sorts the names |
| Listing.SuffixOrder | Scripts/GAN_prep.py:54-55 | when neither key extends the other, two suffixes that start alike leave the order of the keys unchanged |
| Listing.KeyUnderscores | Scripts/GAN_prep.py:38-39 | every key holds exactly two underscores |
| Listing.KeysDoNotExtend | Scripts/GAN_prep.py:38-39 | no key continues another key with `_` |
| Listing.PartDoesNotChangeOrder | Scripts/GAN_prep.py:54-55 | two crops' `_im` names and their `_lb` names sort in the same order |
| Listing.Insert | Scripts/GAN_prep.py:54-55 | inserting adds exactly the one name |
| Listing.InsertOrdered | Scripts/GAN_prep.py:54-55 | inserting into a sorted list keeps it sorted |
| Listing.Sort | Scripts/GAN_prep.py:54-55 | `sorted` returns a sorted permutation of its input |
| Listing.OrderedUnique | Scripts/GAN_prep.py:54-55 | two sorted permutations of the same names are equal |
| Listing.SortIgnoresListingOrder | Scripts/GAN_prep.py:54-55 | the sorted lists do not depend on the order in which the directory is listed |
| Listing.Matches | Scripts/GAN_prep.py:54-55 | the pattern `*<suffix>` matches a name that ends in the suffix and does not start with a dot |
| Listing.Glob | Scripts/GAN_prep.py:54-55 | the glob keeps exactly the listed names that end in the suffix and are not hidden |
| Sampler.Window | Scripts/GAN_prep.py:36-45 | the slice `v[:, row:row+1024, col:col+1024]` of lines 36-37 and 44-45, with numpy's clamping; `WindowFull` gives its pixels |
| Sampler.CropOf | Scripts/GAN_prep.py:36-45 | the array saved for a window, `[resize(window)]`, from lines 36-38 and 44-46 |
| Sampler.TiledOffsets | Scripts/GAN_prep.py:34-36 | the nine offsets `(1024 i, 1024 j)` in the order of the nested loops; `TiledAt` and `TilesPartitionRegion` state it |
| Sampler.Writes | Scripts/GAN_prep.py:34-47 | two saves per window |
| Sampler.WritesInPairs | Scripts/GAN_prep.py:36-39 | saves `2k` and `2k+1` are the image and label crops of window `k`, in that order |
| Sampler.Apply | Scripts/GAN_prep.py:38-39 | after the saves the directory holds its old names plus every name saved |
| Sampler.Directory.constructor | Scripts/GAN_prep.py:32 | a directory with the given files and an empty log |
| Sampler.Directory.Save | Scripts/GAN_prep.py:38-39 | `io.imsave` creates the name or replaces its contents and changes nothing else |
| Sampler.SaveWindow | Scripts/GAN_prep.py:36-39 | one loop body cuts the same window from image and label and saves the `_im` file, then the `_lb` file |
| Sampler.WritesConcat | Scripts/GAN_prep.py:34-47 | the saves of two runs of windows are the saves of their concatenation |
| Sampler.ApplyConcat | Scripts/GAN_prep.py:38-47 | applying two runs of saves in turn is applying their concatenation |
| Sampler.SaveTiles | Scripts/GAN_prep.py:34-39 | the nested loops save the nine tiled windows in row-major order, and the log grows by exactly those saves |
| Sampler.SaveDraws | Scripts/GAN_prep.py:41-47 | the random loop saves the drawn windows in the order drawn |
| Sampler.Sampling | Scripts/GAN_prep.py:32-47 | the directory ends as the saves of the 9 tiled windows then the draws, applied in order, and the log grows by exactly those saves |
| Sampler.TiledAt | Scripts/GAN_prep.py:34-36 | the tiled windows are `(1024 i, 1024 j)` in row-major order |
| Sampler.TilesPartitionRegion | Scripts/GAN_prep.py:34-36 | the nine tiles cover every pixel of the 3072 x 3072 region exactly once |
| Sampler.WindowsInRegion | Scripts/GAN_prep.py:34-45 | there are `9 + rand_num` windows and each lies inside the region |
| Sampler.WindowRow | Scripts/GAN_prep.py:36 | each row of a window in range is the 1024 pixels under it |
| Sampler.WindowFull | Scripts/GAN_prep.py:36-37 | on a volume at least 3072 x 3072, every window in range is a full 1024 x 1024 block of the pixels under it |
| Sampler.WrittenCropsShaped | Scripts/GAN_prep.py:36-37 | every saved array is one 7 x 256 x 256 stack when the resampling gives that shape |
| Sampler.WrittenNames | Scripts/GAN_prep.py:38-47 | a name is saved exactly when it parses to batch `bt` at one of the windows |
| Sampler.DistinctWindows | Scripts/GAN_prep.py:34-47 | there are at most as many distinct windows as windows |
| Sampler.PairNamesNew | Scripts/GAN_prep.py:38-47 | a window's pair was already saved exactly when the window came earlier |
| Sampler.WrittenNameCount | Scripts/GAN_prep.py:34-47 | the saved names number twice the distinct windows, at most `2 (9 + rand_num)`: a repeated offset overwrites its pair |
| Sampler.WrittenContents | Scripts/GAN_prep.py:36-47 | each saved file holds the resampled window its name encodes, cut from the image or label as its tag says |
| Sampler.OtherFilesKept | Scripts/GAN_prep.py:38-47 | a file no save names keeps its contents |
| Sampler.SamplingKeepsPairs | Scripts/GAN_prep.py:38-47 | a directory holding both halves of every crop still does after `sampling` |
| Dataset.Scale | Scripts/GAN_prep.py:58 | `long(p / 255)` of a byte is 0 or 1, and 1 exactly for 255 |
| Dataset.Normalise | Scripts/GAN_prep.py:58-63 | an item has the saved array's shape, and each value is 1 exactly where the pixel is 255, else 0 |
| Dataset.Load | Scripts/GAN_prep.py:51-55 | `files_A` and `files_B` are sorted permutations of the `_im.tif` and `_lb.tif` globs, so each holds exactly the matching listed names, as often as the glob does |
| Dataset.ImageDataset.Length | Scripts/GAN_prep.py:67-68 | `__len__` is the larger of the two list lengths |
| Dataset.ImageDataset.SlotA | Scripts/GAN_prep.py:58 | `index % len(files_A)` lies in the list, is the index itself within range, and is the remainder for negative indices too |
| Dataset.ImageDataset.SlotB | Scripts/GAN_prep.py:60-63 | B's position is the `randint` draw when unaligned, else `index % len(files_B)` |
| Dataset.ImageDataset.GetItem | Scripts/GAN_prep.py:57-65 | an empty A, a missing A file, an empty B and a missing B file fail in the source's order; once A's file is present and B is non-empty, an item is returned exactly when B's file is present, and it is A's and B's files scaled |
| Dataset.EpochReadsEveryFile | Scripts/GAN_prep.py:57-68 | each file of A, and of B when aligned, is read by an index below `__len__` |
| Dataset.SuffixDeterminesPart | Scripts/GAN_prep.py:54-55 | a crop name matches the `_im.tif` glob exactly when it is an image name, and likewise for labels |
| Dataset.ImageNamesOfListing | Scripts/GAN_prep.py:54 | on a crop directory every file of the `_im.tif` glob parses as an image crop |
| Dataset.PartnerParse | Scripts/GAN_prep.py:38-39 | an image file's partner is the label name of the same crop |
| Dataset.PartnerOrder | Scripts/GAN_prep.py:54-55 | two image files sort like their partners |
| Dataset.PartnersOrdered | Scripts/GAN_prep.py:54-55 | renaming a sorted image list to labels keeps it sorted |
| Dataset.PartnerIsLabel | Scripts/GAN_prep.py:54-55 | on a crop directory the partner of a listed image file is a listed label file |
| Dataset.LabelIsPartner | Scripts/GAN_prep.py:54-55 | on a crop directory each listed label file is the partner of a listed image file |
| Dataset.PartnersAreLabels | Scripts/GAN_prep.py:54-55 | on a crop directory the label glob holds exactly the partners of the image glob |
| Dataset.AlignedListsPair | Scripts/GAN_prep.py:54-55 | on a directory `sampling` filled, both lists have one length and `files_B[k]` is the label of `files_A[k]` |
| Dataset.AlignedItemsMatch | Scripts/GAN_prep.py:58-63 | in aligned mode every item reads the image and the label of the same crop |
| Dataset.AlignedGetItem | Scripts/GAN_prep.py:57-65 | in aligned mode on a crop directory whose files are readable, `__getitem__` returns the image crop at `index` and the label crop of the same batch and offset, both scaled |

## Left out

- `Scripts/GAN_main.py` is not part of this model: the networks, optimisers,
  losses, data loader, checkpoints, argument parsing and logger are float
  numerics, foreign calls and I/O.
- `ReplayBuffer` and `LambdaLR` come from a module whose source is not part
  of this model.
- `transform.resize` is floating-point resampling. It is the parameter
  `resize`, and its output shape is an assumption (`WrittenCropsShaped`)
  rather than a proved fact.
- `io.imread`, `io.imsave` and `glob.glob` are I/O:
  - reading a directory is its listing;
  - reading a file yields the array last saved under its name;
  - the case of a sample directory without `image.tif` or `label.tif`
    (an I/O error in the source) is excluded by `ValidSources`.
- Assembly.Construct: the volumes are read straight from `sources`. A
  volume that is not a non-empty 3-D box cannot come out of `io.imread`
  here, so numpy's errors on ragged arrays are not modelled.
- Sampler.Sampling: `resize` is total. skimage's behaviour on an empty or
  degenerate window (a volume smaller than the window) is not modelled, and
  the model clamps the slice as numpy does.
- Sampler.Directory: the ghost `log` of saves exists only to state the
  order and number of writes. The source keeps no such record.
- Dataset.ImageDataset.GetItem: the B index is the value `random.randint`
  returns. The model requires it to lie in `[0, len(files_B) - 1]`, as
  `randint` guarantees.
- Dataset.Load: the lists hold names relative to `root/data`, not full
  paths. `Listing.CommonPrefixOrder` shows that the shared prefix does not
  change their order.
- Dataset.Normalise: the result is the integer value of the `long` tensor.
  Division is exact here: for a byte, `float(p) / 255` lies in `[0, 1]` and
  truncates to `p div 255`. The tensor's dtype and any squeezing of the
  leading dimension by the tif reader are not modelled.
- Dataset.AlignedListsPair: proved for directory listings that hold each
  name once, hold only crop names among the two tif suffixes, and hold both
  halves of every crop. `Sampler.SamplingKeepsPairs` and
  `Sampler.WrittenNames` show that `sampling` keeps a directory this way.
- `Volume` holds integer pixels and drops numpy's dtype. skimage's resize
  scales by the range of the input dtype, so one shared `resize` for image and
  label is exact only when both volumes have the same dtype. No proved
  property depends on this.
- The default `rand_num = 91` is not a constant of the model: `Sampling`
  takes `randNum` for every call.
- Concurrency of the data loader's workers is not modelled.

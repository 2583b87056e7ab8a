/**
 * `ImageDataset` (Scripts/GAN_prep.py:50-68): the sorted `_im` and `_lb`
 * file lists of the data directory, indexed modulo their lengths, each item
 * read back and scaled by `/255`.
 */
module Dataset {
  import opened Wrappers
  import opened Volumes
  import opened FileNames
  import opened Listing

  /** `torch.from_numpy(...).long()` of a saved `1 x 7 x 256 x 256` array. */
  type Tensor = seq<seq<seq<seq<int>>>>

  /** The dictionary `{'Fl': item_A, 'Bn': item_B}`. */
  datatype Item = Item(fl: Tensor, bn: Tensor)

  /**
   * Why `__getitem__` raises: `index % 0` on an empty list (`ZeroDivisionError`),
   * `random.randint(0, -1)` on an empty `files_B` (`ValueError`), or a listed
   * file that is no longer there when it is read.
   */
  datatype DatasetError = EmptyList(part: Part) | EmptyRange | Missing(name: string)

  /** `long(p / 255)` for an 8-bit pixel: the float quotient truncated toward zero. */
  function Scale(p: Byte): (q: int)
    ensures 0 <= q <= 1
    ensures q == 1 <==> p == 255
  {
    p / 255
  }

  /** `io.imread(f) / 255` then `.long()`, pixel by pixel. */
  function Normalise(c: Crop): (t: Tensor)
    ensures |t| == |c.stacks|
    ensures forall s :: 0 <= s < |t| ==> |t[s]| == |c.stacks[s]|
    ensures forall s, d :: 0 <= s < |t| && 0 <= d < |t[s]| ==> |t[s][d]| == |c.stacks[s][d]|
    ensures forall s, d, r :: 0 <= s < |t| && 0 <= d < |t[s]| && 0 <= r < |t[s][d]| ==>
              |t[s][d][r]| == |c.stacks[s][d][r]|
    ensures forall s, d, r, x :: 0 <= s < |t| && 0 <= d < |t[s]| && 0 <= r < |t[s][d]| && 0 <= x < |t[s][d][r]| ==>
              0 <= t[s][d][r][x] <= 1 && (t[s][d][r][x] == 1 <==> c.stacks[s][d][r][x] == 255)
  {
    seq(|c.stacks|, s requires 0 <= s < |c.stacks| =>
      seq(|c.stacks[s]|, d requires 0 <= d < |c.stacks[s]| =>
        seq(|c.stacks[s][d]|, r requires 0 <= r < |c.stacks[s][d]| =>
          seq(|c.stacks[s][d][r]|, x requires 0 <= x < |c.stacks[s][d][r]| => Scale(c.stacks[s][d][r][x])))))
  }

  /** The dataset once `__init__` has run. */
  datatype ImageDataset = ImageDataset(unaligned: bool, filesA: seq<string>, filesB: seq<string>)
  {
    /** `__len__`: the longer of the two lists. */
    function Length(): (n: nat)
      ensures n >= |filesA| && n >= |filesB|
      ensures n == |filesA| || n == |filesB|
    {
      if |filesA| >= |filesB| then |filesA| else |filesB|
    }

    /** `index % len(self.files_A)`: Python's remainder, which lands in the list for every integer index. */
    function SlotA(index: int): (k: nat)
      requires |filesA| > 0
      ensures k < |filesA|
      ensures 0 <= index < |filesA| ==> k == index
      ensures index == (index / |filesA|) * |filesA| + k
    {
      index % |filesA|
    }

    /** The position of `item_B`: `draw` from `random.randint(0, len(self.files_B) - 1)` when unaligned, else `index % len(self.files_B)`. */
    function SlotB(index: int, draw: int): (k: nat)
      requires |filesB| > 0
      requires unaligned ==> 0 <= draw < |filesB|
      ensures k < |filesB|
      ensures unaligned ==> k == draw
      ensures !unaligned && 0 <= index < |filesB| ==> k == index
      ensures !unaligned ==> index == (index / |filesB|) * |filesB| + k
    {
      if unaligned then draw else index % |filesB|
    }

    /**
     * `__getitem__(index)`. `files` is the data directory when the item is
     * read; `draw` is what `random.randint` returns in unaligned mode.
     */
    function GetItem(files: map<string, Crop>, index: int, draw: int): (r: Result<Item, DatasetError>)
      requires unaligned && |filesB| > 0 ==> 0 <= draw < |filesB|
      ensures |filesA| == 0 ==> r == Err(EmptyList(Image))
      ensures |filesA| > 0 && filesA[SlotA(index)] !in files ==> r == Err(Missing(filesA[SlotA(index)]))
      ensures |filesA| > 0 && filesA[SlotA(index)] in files && |filesB| == 0 ==>
                r == Err(if unaligned then EmptyRange else EmptyList(Label))
      ensures |filesA| > 0 && filesA[SlotA(index)] in files && |filesB| > 0 ==>
                (r.Ok? <==> filesB[SlotB(index, draw)] in files)
                && (filesB[SlotB(index, draw)] !in files ==> r == Err(Missing(filesB[SlotB(index, draw)])))
      ensures r.Ok? ==> |filesA| > 0 && |filesB| > 0 && filesA[SlotA(index)] in files
                        && filesB[SlotB(index, draw)] in files
      ensures r.Ok? ==> r.value.fl == Normalise(files[filesA[SlotA(index)]])
                        && r.value.bn == Normalise(files[filesB[SlotB(index, draw)]])
    {
      if |filesA| == 0 then Err(EmptyList(Image))
      else
        var a := filesA[SlotA(index)];
        if a !in files then Err(Missing(a))
        else if |filesB| == 0 then Err(if unaligned then EmptyRange else EmptyList(Label))
        else
          var b := filesB[SlotB(index, draw)];
          if b !in files then Err(Missing(b))
          else Ok(Item(Normalise(files[a]), Normalise(files[b])))
    }
  }

  /** `__init__(root, unaligned)`, where `listing` is what the data directory lists. */
  function Load(listing: seq<string>, unaligned: bool): (ds: ImageDataset)
    ensures ds.unaligned == unaligned
    ensures Ordered(ds.filesA) && forall x :: x in ds.filesA <==> x in listing && Matches(x, Suffix(Image))
    ensures Ordered(ds.filesB) && forall x :: x in ds.filesB <==> x in listing && Matches(x, Suffix(Label))
    ensures multiset(ds.filesA) == multiset(Glob(listing, Suffix(Image)))
    ensures multiset(ds.filesB) == multiset(Glob(listing, Suffix(Label)))
  {
    var a := Glob(listing, Suffix(Image));
    var b := Glob(listing, Suffix(Label));
    var sa, sb := Sort(a), Sort(b);
    assert forall x :: x in sa <==> x in multiset(a);
    assert forall x :: x in sb <==> x in multiset(b);
    ImageDataset(unaligned, sa, sb)
  }

  /** Every file of A, and in aligned mode every file of B, is read by some index of one pass over the dataset. */
  lemma EpochReadsEveryFile(ds: ImageDataset, k: nat)
    ensures k < |ds.filesA| ==> k < ds.Length() && ds.SlotA(k) == k
    ensures !ds.unaligned && k < |ds.filesB| ==> k < ds.Length() && ds.SlotB(k, 0) == k
  {
  }

  /** The list holds each name at most once. */
  predicate NoDuplicates(s: seq<string>) {
    forall i, j :: 0 <= i < j < |s| ==> s[i] != s[j]
  }

  /** The name of the image half of a crop pair. */
  predicate IsImageName(x: string) {
    ParseName(x).Some? && ParseName(x).value.part == Image
  }

  /** The label file saved beside image file `x`: same batch tag and offsets, `_lb` instead of `_im`; other names are left as they are. */
  function Partner(x: string): string {
    if IsImageName(x) then FileName(ParseName(x).value.(part := Label)) else x
  }

  /** The partner of an image file parses to the same crop with the label tag. */
  lemma PartnerParse(x: string)
    requires IsImageName(x)
    ensures ParseName(Partner(x)) == Some(ParseName(x).value.(part := Label))
  {
    ParseFileName(ParseName(x).value.(part := Label));
  }

  /** Two image files are in the same order as their partners. */
  lemma PartnerOrder(x: string, y: string)
    requires IsImageName(x) && IsImageName(y)
    ensures Below(x, y) <==> Below(Partner(x), Partner(y))
  {
    var n, m := ParseName(x).value, ParseName(y).value;
    FileNameOfParse(x);
    FileNameOfParse(y);
    PartDoesNotChangeOrder(n, m, Image, Label);
    assert n.(part := Image) == n && m.(part := Image) == m;
  }

  /** The partner of every name of a list. */
  function Partners(s: seq<string>): (r: seq<string>)
    ensures |r| == |s|
    ensures forall i :: 0 <= i < |s| ==> r[i] == Partner(s[i])
  {
    seq(|s|, i requires 0 <= i < |s| => Partner(s[i]))
  }

  /** Renaming a sorted list of image files to their labels leaves it sorted. */
  lemma PartnersOrdered(s: seq<string>)
    requires Ordered(s) && forall x :: x in s ==> IsImageName(x)
    ensures Ordered(Partners(s))
  {
    forall i, j | 0 <= i < j < |s|
      ensures NotAfter(Partner(s[i]), Partner(s[j]))
    {
      assert s[i] in s && s[j] in s;
      PartnerOrder(s[j], s[i]);
    }
  }

  lemma PartnersSameElements(s: seq<string>, t: seq<string>)
    requires forall x :: x in s <==> x in t
    ensures forall y :: y in Partners(s) ==> y in Partners(t)
  {
    forall y | y in Partners(s)
      ensures y in Partners(t)
    {
      var i :| 0 <= i < |s| && Partners(s)[i] == y;
      assert s[i] in t;
      var j :| 0 <= j < |t| && t[j] == s[i];
      assert Partners(t)[j] == y;
    }
  }

  /** The data directory as `sampling` leaves it: each name listed once, every tif a crop name, crops in pairs. */
  ghost predicate CropListing(listing: seq<string>) {
    NoDuplicates(listing)
    && (forall x :: x in listing && (Matches(x, Suffix(Image)) || Matches(x, Suffix(Label))) ==> ParseName(x).Some?)
    && Paired(set x | x in listing)
  }

  /** A crop file name ends with its own tag, and only that one. */
  lemma SuffixDeterminesPart(n: CropName, p: Part)
    ensures Matches(FileName(n), Suffix(p)) <==> n.part == p
  {
    var k := Key(n.batch, n.row, n.col);
    assert FileName(n) == k + Suffix(n.part);
    assert FileName(n)[|FileName(n)| - |Suffix(n.part)|..] == Suffix(n.part);
    assert |Decimal(n.batch)| > 0 && IsDigit(Decimal(n.batch)[0]);
    assert FileName(n)[0] == Decimal(n.batch)[0];
    assert Suffix(Image) != Suffix(Label) by {
      assert Suffix(Image)[1] != Suffix(Label)[1];
    }
  }

  lemma ImageNamesOfListing(listing: seq<string>)
    requires CropListing(listing)
    ensures forall x :: x in Glob(listing, Suffix(Image)) ==> IsImageName(x)
  {
    forall x | x in Glob(listing, Suffix(Image))
      ensures IsImageName(x)
    {
      FileNameOfParse(x);
      SuffixDeterminesPart(ParseName(x).value, Image);
    }
  }

  /** The partner of a listed image file is a listed label file. */
  lemma PartnerIsLabel(listing: seq<string>, y: string)
    requires CropListing(listing)
    requires forall x :: x in Glob(listing, Suffix(Image)) ==> IsImageName(x)
    requires y in Partners(Glob(listing, Suffix(Image)))
    ensures y in Glob(listing, Suffix(Label))
  {
    var a := Glob(listing, Suffix(Image));
    var i :| 0 <= i < |a| && Partners(a)[i] == y;
    var x := a[i];
    assert x in a;
    var n := ParseName(x).value;
    FileNameOfParse(x);
    assert FileName(CropName(n.batch, n.row, n.col, Image)) in set z | z in listing;
    assert y == FileName(CropName(n.batch, n.row, n.col, Label));
    SuffixDeterminesPart(CropName(n.batch, n.row, n.col, Label), Label);
  }

  /** A listed label file is the partner of a listed image file. */
  lemma LabelIsPartner(listing: seq<string>, y: string)
    requires CropListing(listing)
    requires y in Glob(listing, Suffix(Label))
    ensures y in Partners(Glob(listing, Suffix(Image)))
  {
    FileNameOfParse(y);
    var m := ParseName(y).value;
    SuffixDeterminesPart(m, Label);
    assert y == FileName(CropName(m.batch, m.row, m.col, Label));
    var x := FileName(CropName(m.batch, m.row, m.col, Image));
    assert x in set z | z in listing;
    SuffixDeterminesPart(CropName(m.batch, m.row, m.col, Image), Image);
    ParseFileName(CropName(m.batch, m.row, m.col, Image));
    var a := Glob(listing, Suffix(Image));
    var i :| 0 <= i < |a| && a[i] == x;
    assert Partners(a)[i] == y;
  }

  /** The label glob is exactly the partners of the image glob. */
  lemma PartnersAreLabels(listing: seq<string>)
    requires CropListing(listing)
    requires forall x :: x in Glob(listing, Suffix(Image)) ==> IsImageName(x)
    ensures forall y :: y in Partners(Glob(listing, Suffix(Image))) <==> y in Glob(listing, Suffix(Label))
  {
    forall y
      ensures y in Partners(Glob(listing, Suffix(Image))) <==> y in Glob(listing, Suffix(Label))
    {
      if y in Partners(Glob(listing, Suffix(Image))) {
        PartnerIsLabel(listing, y);
      }
      if y in Glob(listing, Suffix(Label)) {
        LabelIsPartner(listing, y);
      }
    }
  }

  lemma {:induction false} GlobNoDuplicates(listing: seq<string>, suffix: string)
    requires NoDuplicates(listing)
    ensures NoDuplicates(Glob(listing, suffix))
  {
    if |listing| > 0 {
      var rest := Glob(listing[1..], suffix);
      GlobNoDuplicates(listing[1..], suffix);
      assert listing[0] !in listing[1..];
      if Matches(listing[0], suffix) {
        assert Glob(listing, suffix) == [listing[0]] + rest;
        NoDuplicatesCons(listing[0], rest);
      } else {
        assert Glob(listing, suffix) == rest;
      }
    }
  }

  lemma NoDuplicatesCons(x: string, s: seq<string>)
    requires x !in s && NoDuplicates(s)
    ensures NoDuplicates([x] + s)
  {
    var r := [x] + s;
    forall i, j | 0 <= i < j < |r|
      ensures r[i] != r[j]
    {
      assert r[j] == s[j - 1];
      if i > 0 {
        assert r[i] == s[i - 1];
      }
    }
  }

  lemma PartnersNoDuplicates(s: seq<string>)
    requires forall x :: x in s ==> IsImageName(x)
    requires NoDuplicates(s)
    ensures NoDuplicates(Partners(s))
  {
    forall i, j | 0 <= i < j < |s|
      ensures Partner(s[i]) != Partner(s[j])
    {
      assert s[i] in s && s[j] in s;
      PartnerParse(s[i]);
      PartnerParse(s[j]);
      FileNameOfParse(s[i]);
      FileNameOfParse(s[j]);
    }
  }

  lemma {:induction false} NoDuplicatesCount(s: seq<string>, x: string)
    requires NoDuplicates(s)
    ensures multiset(s)[x] == if x in s then 1 else 0
  {
    if |s| > 0 {
      assert s == [s[0]] + s[1..];
      NoDuplicatesCount(s[1..], x);
      assert s[0] !in s[1..];
    }
  }

  /** Two duplicate-free lists with the same elements are permutations of each other. */
  lemma SameElementsPermutation(a: seq<string>, b: seq<string>)
    requires NoDuplicates(a) && NoDuplicates(b)
    requires forall x :: x in a <==> x in b
    ensures multiset(a) == multiset(b)
  {
    forall x
      ensures multiset(a)[x] == multiset(b)[x]
    {
      NoDuplicatesCount(a, x);
      NoDuplicatesCount(b, x);
    }
  }

  /** A permutation of a duplicate-free list is duplicate-free. */
  lemma NoDuplicatesPermutation(s: seq<string>, t: seq<string>)
    requires NoDuplicates(s) && multiset(s) == multiset(t)
    ensures NoDuplicates(t)
  {
    forall i, j | 0 <= i < j < |t|
      ensures t[i] != t[j]
    {
      if t[i] == t[j] {
        var v := t[i];
        assert t == t[..j] + t[j..];
        assert v in t[..j] && v in t[j..];
        assert multiset(t)[v] == multiset(t[..j])[v] + multiset(t[j..])[v];
        NoDuplicatesCount(s, v);
        assert false;
      }
    }
  }

  /**
   * Aligned pairing: on a directory `sampling` filled, the two sorted lists
   * have the same length and position `k` of each holds the same crop, its
   * image in A and its label in B.
   */
  lemma AlignedListsPair(listing: seq<string>, unaligned: bool)
    requires CropListing(listing)
    ensures |Load(listing, unaligned).filesA| == |Load(listing, unaligned).filesB|
    ensures forall k :: 0 <= k < |Load(listing, unaligned).filesA| ==>
              IsImageName(Load(listing, unaligned).filesA[k])
              && Load(listing, unaligned).filesB[k] == Partner(Load(listing, unaligned).filesA[k])
  {
    var a, b := Glob(listing, Suffix(Image)), Glob(listing, Suffix(Label));
    var ds := Load(listing, unaligned);
    ImageNamesOfListing(listing);
    PartnersAreLabels(listing);
    SortedGlob(listing, Suffix(Image));
    SortedGlob(listing, Suffix(Label));
    PartnersSameElements(ds.filesA, a);
    PartnersSameElements(a, ds.filesA);
    SortedPartnersMatch(ds.filesA, ds.filesB);
  }

  /** The sorted glob is duplicate-free and has the glob's names. */
  lemma SortedGlob(listing: seq<string>, suffix: string)
    requires NoDuplicates(listing)
    ensures NoDuplicates(Sort(Glob(listing, suffix)))
    ensures forall x :: x in Sort(Glob(listing, suffix)) <==> x in Glob(listing, suffix)
  {
    var g := Glob(listing, suffix);
    GlobNoDuplicates(listing, suffix);
    NoDuplicatesPermutation(g, Sort(g));
    assert forall x :: x in Sort(g) <==> x in multiset(g);
  }

  /** A sorted label list holding exactly the partners of a sorted image list is that list renamed. */
  lemma SortedPartnersMatch(sa: seq<string>, sb: seq<string>)
    requires Ordered(sa) && Ordered(sb) && NoDuplicates(sa) && NoDuplicates(sb)
    requires forall x :: x in sa ==> IsImageName(x)
    requires forall y :: y in Partners(sa) <==> y in sb
    ensures sb == Partners(sa)
  {
    PartnersOrdered(sa);
    PartnersNoDuplicates(sa);
    SameElementsPermutation(Partners(sa), sb);
    OrderedUnique(Partners(sa), sb);
  }

  /** In aligned mode each item of a `sampling` directory is an image and the label of the same window. */
  lemma AlignedItemsMatch(listing: seq<string>, index: int)
    requires CropListing(listing)
    requires |Load(listing, false).filesA| > 0
    ensures |Load(listing, false).filesB| > 0
    ensures ParseName(Load(listing, false).filesB[Load(listing, false).SlotB(index, 0)])
         == Some(ParseName(Load(listing, false).filesA[Load(listing, false).SlotA(index)]).value.(part := Label))
  {
    AlignedListsPair(listing, false);
    var ds := Load(listing, false);
    PartnerParse(ds.filesA[ds.SlotA(index)]);
  }

  /**
   * In aligned mode on a crop directory whose listed files are all readable,
   * `__getitem__` returns the image crop at `index` and the label crop of the
   * same batch and offset, both scaled.
   */
  lemma AlignedGetItem(listing: seq<string>, files: map<string, Crop>, index: int)
    requires CropListing(listing)
    requires |Load(listing, false).filesA| > 0
    requires forall x :: x in listing ==> x in files
    ensures var ds := Load(listing, false);
      var a := ds.filesA[ds.SlotA(index)];
      IsImageName(a)
      && var b := FileName(ParseName(a).value.(part := Label));
      b in files
      && ds.GetItem(files, index, 0) == Ok(Item(Normalise(files[a]), Normalise(files[b])))
  {
    var ds := Load(listing, false);
    AlignedListsPair(listing, false);
    var k := ds.SlotA(index);
    assert ds.SlotB(index, 0) == k;
    assert ds.filesA[k] in listing;
    assert ds.filesB[k] in listing;
  }
}

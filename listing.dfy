/**
 * How `ImageDataset.__init__` (Scripts/GAN_prep.py:54-55) turns a directory
 * listing into its two file lists: a glob on a suffix, then `sorted`, which
 * orders str values by Python's `<`.
 */
module Listing {
  import opened FileNames

  /** Python's `a < b` on str: code-point lexicographic order, a proper prefix first. */
  predicate Below(a: string, b: string) {
    if |a| == 0 then |b| > 0
    else if |b| == 0 then false
    else if a[0] != b[0] then a[0] < b[0]
    else Below(a[1..], b[1..])
  }

  lemma {:induction false} BelowIrreflexive(a: string)
    ensures !Below(a, a)
  {
    if |a| > 0 {
      BelowIrreflexive(a[1..]);
    }
  }

  lemma {:induction false} BelowAsymmetric(a: string, b: string)
    ensures Below(a, b) ==> !Below(b, a)
  {
    if |a| > 0 && |b| > 0 && a[0] == b[0] {
      BelowAsymmetric(a[1..], b[1..]);
    }
  }

  lemma {:induction false} BelowTransitive(a: string, b: string, c: string)
    requires Below(a, b) && Below(b, c)
    ensures Below(a, c)
  {
    if |a| > 0 && a[0] == b[0] && b[0] == c[0] {
      BelowTransitive(a[1..], b[1..], c[1..]);
    }
  }

  lemma {:induction false} BelowTotal(a: string, b: string)
    ensures a == b || Below(a, b) || Below(b, a)
  {
    if |a| > 0 && |b| > 0 && a[0] == b[0] {
      BelowTotal(a[1..], b[1..]);
      if a[1..] == b[1..] {
        assert a == [a[0]] + a[1..] && b == [b[0]] + b[1..];
      }
    }
  }

  /** `a` does not come after `b`, that is `b < a` is false. */
  predicate NotAfter(a: string, b: string) {
    !Below(b, a)
  }

  lemma NotAfterTransitive(a: string, b: string, c: string)
    requires NotAfter(a, b) && NotAfter(b, c)
    ensures NotAfter(a, c)
  {
    BelowTotal(a, b);
    BelowTotal(b, c);
    if Below(c, a) {
      if Below(a, b) {
        BelowTransitive(c, a, b);
      }
    }
  }

  /**
   * Paths in one directory share its prefix, so sorting the full paths that
   * glob returns orders them as their file names are ordered.
   */
  lemma {:induction false} CommonPrefixOrder(p: string, a: string, b: string)
    ensures Below(p + a, p + b) <==> Below(a, b)
  {
    if |p| > 0 {
      assert (p + a)[1..] == p[1..] + a && (p + b)[1..] == p[1..] + b;
      CommonPrefixOrder(p[1..], a, b);
    } else {
      assert p + a == a && p + b == b;
    }
  }

  /** `long` continues `short` with the character `c`. */
  predicate Extends(long: string, short: string, c: char) {
    |short| < |long| && long[..|short|] == short && long[|short|] == c
  }

  /**
   * Appending either of two suffixes that start with the same character keeps
   * the order of two strings, unless one string continues the other with that
   * very character.
   */
  lemma {:induction false} SuffixOrder(k1: string, k2: string, s: string, t: string)
    requires |s| > 0 && |t| > 0 && s[0] == t[0]
    requires !Extends(k1, k2, s[0]) && !Extends(k2, k1, s[0])
    ensures Below(k1 + s, k2 + s) <==> Below(k1 + t, k2 + t)
  {
    if k1 == k2 {
      BelowIrreflexive(k1 + s);
      BelowIrreflexive(k1 + t);
    } else if |k1| == 0 {
      assert k2[..0] == k1;
      assert (k1 + s)[0] == s[0] && (k1 + t)[0] == t[0];
      assert (k2 + s)[0] == k2[0] && (k2 + t)[0] == k2[0];
    } else if |k2| == 0 {
      assert k1[..0] == k2;
      assert (k2 + s)[0] == s[0] && (k2 + t)[0] == t[0];
      assert (k1 + s)[0] == k1[0] && (k1 + t)[0] == k1[0];
    } else {
      assert (k1 + s)[0] == k1[0] && (k2 + s)[0] == k2[0];
      assert (k1 + t)[0] == k1[0] && (k2 + t)[0] == k2[0];
      if k1[0] == k2[0] {
        assert (k1 + s)[1..] == k1[1..] + s && (k2 + s)[1..] == k2[1..] + s;
        assert (k1 + t)[1..] == k1[1..] + t && (k2 + t)[1..] == k2[1..] + t;
        SuffixOrder(k1[1..], k2[1..], s, t);
      }
    }
  }

  /** The number of underscores in a string. */
  function Underscores(s: string): nat {
    multiset(s)['_']
  }

  lemma KeyUnderscores(batch: nat, row: nat, col: nat)
    ensures Underscores(Key(batch, row, col)) == 2
  {
    DigitsHaveNoUnderscore(Decimal(batch));
    DigitsHaveNoUnderscore(Decimal(row));
    DigitsHaveNoUnderscore(Decimal(col));
  }

  /** Continuing a string with an underscore adds an underscore. */
  lemma ExtendingAddsUnderscore(long: string, short: string)
    ensures Extends(long, short, '_') ==> Underscores(long) > Underscores(short)
  {
    if Extends(long, short, '_') {
      var rest := long[|short|..];
      assert long == short + rest;
      assert rest[0] == '_';
      assert multiset(long) == multiset(short) + multiset(rest);
      assert '_' in rest;
    }
  }

  /** No crop key continues another crop key with an underscore: it would hold a third one. */
  lemma KeysDoNotExtend(a: CropName, b: CropName)
    ensures !Extends(Key(b.batch, b.row, b.col), Key(a.batch, a.row, a.col), '_')
  {
    var ka, kb := Key(a.batch, a.row, a.col), Key(b.batch, b.row, b.col);
    KeyUnderscores(a.batch, a.row, a.col);
    KeyUnderscores(b.batch, b.row, b.col);
    ExtendingAddsUnderscore(kb, ka);
  }

  /**
   * Two crops' image files are in the same order as their label files: sorting
   * the `_im` list and the `_lb` list puts the keys in the same order.
   */
  lemma PartDoesNotChangeOrder(a: CropName, b: CropName, p: Part, q: Part)
    ensures Below(FileName(a.(part := p)), FileName(b.(part := p))) <==>
            Below(FileName(a.(part := q)), FileName(b.(part := q)))
  {
    var ka, kb := Key(a.batch, a.row, a.col), Key(b.batch, b.row, b.col);
    KeysDoNotExtend(a, b);
    KeysDoNotExtend(b, a);
    SuffixOrder(ka, kb, Suffix(p), Suffix(q));
  }

  /** Ascending under Python's string order, equal names allowed next to each other. */
  predicate Ordered(s: seq<string>) {
    forall i, j :: 0 <= i < j < |s| ==> NotAfter(s[i], s[j])
  }

  /** Inserts `x` before the first element that does not come before it. */
  function Insert(x: string, s: seq<string>): (r: seq<string>)
    ensures multiset(r) == multiset(s) + multiset{x}
  {
    if |s| == 0 then [x]
    else if Below(s[0], x) then
      assert s == [s[0]] + s[1..];
      [s[0]] + Insert(x, s[1..])
    else [x] + s
  }

  lemma {:induction false} InsertOrdered(x: string, s: seq<string>)
    requires Ordered(s)
    ensures Ordered(Insert(x, s))
  {
    if |s| > 0 {
      var r := Insert(x, s);
      if Below(s[0], x) {
        InsertOrdered(x, s[1..]);
        var tail := Insert(x, s[1..]);
        forall j | 0 < j < |r| ensures NotAfter(r[0], r[j]) {
          assert r[j] in multiset(tail);
          assert r[j] in multiset(s[1..]) + multiset{x};
          if r[j] == x {
            BelowAsymmetric(s[0], x);
          } else {
            var k :| 0 <= k < |s[1..]| && s[1..][k] == r[j];
            assert s[k + 1] == r[j];
          }
        }
      } else {
        forall j | 0 < j < |r| ensures NotAfter(x, r[j]) {
          if j > 1 {
            NotAfterTransitive(x, s[0], s[j - 1]);
          }
        }
      }
    }
  }

  /** `sorted(names)`: the names in ascending order. */
  function Sort(s: seq<string>): (r: seq<string>)
    ensures multiset(r) == multiset(s)
    ensures Ordered(r)
  {
    if |s| == 0 then []
    else
      assert s == [s[0]] + s[1..];
      var rest := Sort(s[1..]);
      InsertOrdered(s[0], rest);
      Insert(s[0], rest)
  }

  /** Two ordered arrangements of the same names start with the same name. */
  lemma SameFirst(r1: seq<string>, r2: seq<string>)
    requires Ordered(r1) && Ordered(r2) && multiset(r1) == multiset(r2) && |r1| > 0 && |r2| > 0
    ensures r1[0] == r2[0]
  {
    if r1[0] != r2[0] {
      assert r1[0] in multiset(r2) && r2[0] in multiset(r1);
      var i :| 0 <= i < |r2| && r2[i] == r1[0];
      var j :| 0 <= j < |r1| && r1[j] == r2[0];
      assert NotAfter(r2[0], r2[i]) && NotAfter(r1[0], r1[j]);
      BelowTotal(r1[0], r2[0]);
      assert false;
    }
  }

  lemma DropFirst(r: seq<string>)
    requires |r| > 0
    ensures multiset(r[1..]) == multiset(r) - multiset{r[0]}
  {
    assert r == [r[0]] + r[1..];
  }

  /** An ordered arrangement of a multiset of names is unique. */
  lemma {:induction false} OrderedUnique(r1: seq<string>, r2: seq<string>)
    requires Ordered(r1) && Ordered(r2) && multiset(r1) == multiset(r2)
    ensures r1 == r2
  {
    assert |r1| == |multiset(r1)| == |r2|;
    if |r1| > 0 {
      SameFirst(r1, r2);
      DropFirst(r1);
      DropFirst(r2);
      OrderedUnique(r1[1..], r2[1..]);
      assert r1 == [r1[0]] + r1[1..] && r2 == [r2[0]] + r2[1..];
    }
  }

  /** `sorted` gives the same list for any enumeration of the same names. */
  lemma SortIgnoresListingOrder(s1: seq<string>, s2: seq<string>)
    requires multiset(s1) == multiset(s2)
    ensures Sort(s1) == Sort(s2)
  {
    OrderedUnique(Sort(s1), Sort(s2));
  }

  /** `name` ends with `suffix`. */
  predicate EndsWith(name: string, suffix: string) {
    |suffix| <= |name| && name[|name| - |suffix|..] == suffix
  }

  /**
   * The glob pattern `*<suffix>` matches `name`: it ends with the suffix, and,
   * since a wildcard never matches a leading dot, it is not a hidden file.
   */
  predicate Matches(name: string, suffix: string) {
    EndsWith(name, suffix) && !(|name| > 0 && name[0] == '.')
  }

  /** The glob of the data directory on `suffix`: the listed names that match, in listing order. */
  function Glob(listing: seq<string>, suffix: string): (r: seq<string>)
    ensures forall i :: 0 <= i < |r| ==> Matches(r[i], suffix)
    ensures forall x :: x in r <==> x in listing && Matches(x, suffix)
    ensures |r| <= |listing|
  {
    if |listing| == 0 then []
    else
      var rest := Glob(listing[1..], suffix);
      assert listing == [listing[0]] + listing[1..];
      if Matches(listing[0], suffix) then [listing[0]] + rest else rest
  }
}

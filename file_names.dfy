/**
 * The crop file names `sampling` writes (Scripts/GAN_prep.py:38-39, 46-47):
 * `'{}_{}_{}_im.tif'.format(bt, row, col)` and its `_lb.tif` twin, and the
 * parser that inverts the naming.
 */
module FileNames {
  import opened Wrappers

  predicate IsDigit(c: char) {
    '0' <= c <= '9'
  }

  predicate AllDigits(s: string) {
    forall i :: 0 <= i < |s| ==> IsDigit(s[i])
  }

  /** The form `str(n)` gives a natural number: digits, and no leading zero unless the number is 0. */
  predicate IsCanonical(s: string) {
    |s| > 0 && AllDigits(s) && (s[0] == '0' ==> |s| == 1)
  }

  function DigitChar(n: nat): (c: char)
    requires n < 10
    ensures IsDigit(c)
  {
    (48 + n) as char
  }

  function DigitValue(c: char): (n: nat)
    requires IsDigit(c)
    ensures n < 10
  {
    c as int - 48
  }

  /** The decimal text that `format` produces for a non-negative int. */
  function Decimal(n: nat): (s: string)
    ensures IsCanonical(s)
    ensures s == "0" <==> n == 0
    decreases n
  {
    if n < 10 then [DigitChar(n)]
    else
      var front := Decimal(n / 10);
      assert front[0] != '0';
      front + [DigitChar(n % 10)]
  }

  /** The number a string of decimal digits denotes. */
  function ValueOf(s: string): nat
    requires AllDigits(s)
  {
    if |s| == 0 then 0 else ValueOf(s[..|s| - 1]) * 10 + DigitValue(s[|s| - 1])
  }

  lemma {:induction false} ValueOfDecimal(n: nat)
    ensures ValueOf(Decimal(n)) == n
    decreases n
  {
    if n >= 10 {
      var s := Decimal(n);
      assert s[..|s| - 1] == Decimal(n / 10);
      ValueOfDecimal(n / 10);
    }
  }

  /** A number written without a leading zero is not 0. */
  lemma {:induction false} PositiveValue(s: string)
    requires |s| > 0 && AllDigits(s) && s[0] != '0'
    ensures ValueOf(s) > 0
  {
    if |s| > 1 {
      PositiveValue(s[..|s| - 1]);
    }
  }

  lemma {:induction false} DecimalOfValue(s: string)
    requires IsCanonical(s)
    ensures Decimal(ValueOf(s)) == s
  {
    if |s| > 1 {
      var front := s[..|s| - 1];
      PositiveValue(front);
      DecimalOfValue(front);
      var n := ValueOf(s);
      assert n / 10 == ValueOf(front) && n % 10 == DigitValue(s[|s| - 1]);
    }
  }

  /** `s.split(sep)`: the pieces between separators, empty ones included. */
  function Split(s: string, sep: char): (parts: seq<string>)
    ensures |parts| > 0
    ensures forall i :: 0 <= i < |parts| ==> sep !in parts[i]
  {
    if |s| == 0 then [""]
    else
      var rest := Split(s[1..], sep);
      if s[0] == sep then [""] + rest else [[s[0]] + rest[0]] + rest[1..]
  }

  /** `sep.join(parts)`. */
  function Join(parts: seq<string>, sep: char): string
    requires |parts| > 0
  {
    if |parts| == 1 then parts[0] else parts[0] + [sep] + Join(parts[1..], sep)
  }

  lemma {:induction false} SplitPrefix(p: string, t: string, sep: char)
    requires sep !in p
    ensures Split(p + t, sep) == [p + Split(t, sep)[0]] + Split(t, sep)[1..]
  {
    var st := Split(t, sep);
    if |p| > 0 {
      assert (p + t)[0] == p[0] && (p + t)[1..] == p[1..] + t;
      assert forall c :: c in p[1..] ==> c in p;
      var rest := Split(p[1..] + t, sep);
      assert Split(p + t, sep) == [[p[0]] + rest[0]] + rest[1..];
      SplitPrefix(p[1..], t, sep);
      assert rest[0] == p[1..] + st[0] && rest[1..] == st[1..];
      assert [p[0]] + (p[1..] + st[0]) == p + st[0];
    } else {
      assert p + t == t;
      assert p + st[0] == st[0];
      assert st == [st[0]] + st[1..];
    }
  }

  /** Splitting a join recovers the pieces when none of them holds the separator. */
  lemma {:induction false} SplitJoin(parts: seq<string>, sep: char)
    requires |parts| > 0 && forall i :: 0 <= i < |parts| ==> sep !in parts[i]
    ensures Split(Join(parts, sep), sep) == parts
  {
    if |parts| == 1 {
      SplitPrefix(parts[0], "", sep);
      assert parts[0] + "" == parts[0];
    } else {
      var rest := Join(parts[1..], sep);
      assert parts[0] + [sep] + rest == parts[0] + ([sep] + rest);
      SplitPrefix(parts[0], [sep] + rest, sep);
      assert ([sep] + rest)[0] == sep && ([sep] + rest)[1..] == rest;
      assert Split([sep] + rest, sep) == [""] + Split(rest, sep);
      SplitJoin(parts[1..], sep);
      assert parts[0] + "" == parts[0];
      assert parts == [parts[0]] + parts[1..];
    }
  }

  /** Joining the pieces of a split gives the string back. */
  lemma {:induction false} JoinSplit(s: string, sep: char)
    ensures Join(Split(s, sep), sep) == s
  {
    if |s| > 0 {
      JoinSplit(s[1..], sep);
      var rest := Split(s[1..], sep);
      if s[0] != sep && |rest| > 1 {
        assert Join(rest, sep) == rest[0] + [sep] + Join(rest[1..], sep);
      }
    }
  }

  /** Which half of a crop pair a file holds. */
  datatype Part = Image | Label

  /** The text after the last underscore of a crop file name. */
  function Tag(p: Part): string {
    match p
    case Image => "im.tif"
    case Label => "lb.tif"
  }

  /** The suffix `sampling` appends to the position key, and that the dataset's glob patterns match. */
  function Suffix(p: Part): string {
    "_" + Tag(p)
  }

  /** What a crop file name records: the batch tag, the window's top-left offset and the half. */
  datatype CropName = CropName(batch: nat, row: nat, col: nat, part: Part)

  /** `'{}_{}_{}'.format(bt, row, col)`: the key an image crop shares with its label crop. */
  function Key(batch: nat, row: nat, col: nat): string {
    Decimal(batch) + "_" + Decimal(row) + "_" + Decimal(col)
  }

  /** The file name written for one half of a crop pair. */
  function FileName(n: CropName): string {
    Key(n.batch, n.row, n.col) + Suffix(n.part)
  }

  /** Reads a crop file name back into what it records; `None` for any other name. */
  function ParseName(s: string): Option<CropName> {
    var fields := Split(s, '_');
    if |fields| == 4 && IsCanonical(fields[0]) && IsCanonical(fields[1]) && IsCanonical(fields[2])
       && (fields[3] == Tag(Image) || fields[3] == Tag(Label))
    then
      Some(CropName(ValueOf(fields[0]), ValueOf(fields[1]), ValueOf(fields[2]),
                    if fields[3] == Tag(Image) then Image else Label))
    else None
  }

  lemma JoinFour(a: string, b: string, c: string, d: string, sep: char)
    ensures Join([a, b, c, d], sep) == a + [sep] + b + [sep] + c + [sep] + d
  {
    assert [a, b, c, d][1..] == [b, c, d] && [b, c, d][1..] == [c, d] && [c, d][1..] == [d];
    assert Join([c, d], sep) == c + [sep] + d;
    assert Join([b, c, d], sep) == b + [sep] + (c + [sep] + d);
  }

  lemma FileNameAsJoin(n: CropName)
    ensures FileName(n) == Join([Decimal(n.batch), Decimal(n.row), Decimal(n.col), Tag(n.part)], '_')
  {
    JoinFour(Decimal(n.batch), Decimal(n.row), Decimal(n.col), Tag(n.part), '_');
  }

  lemma DigitsHaveNoUnderscore(s: string)
    requires AllDigits(s)
    ensures '_' !in s
  {
  }

  /** Parsing a written name recovers the batch tag, the offsets and the half. */
  lemma ParseFileName(n: CropName)
    ensures ParseName(FileName(n)) == Some(n)
  {
    var parts := [Decimal(n.batch), Decimal(n.row), Decimal(n.col), Tag(n.part)];
    FileNameAsJoin(n);
    DigitsHaveNoUnderscore(parts[0]);
    DigitsHaveNoUnderscore(parts[1]);
    DigitsHaveNoUnderscore(parts[2]);
    assert '_' !in Tag(Image) && '_' !in Tag(Label);
    SplitJoin(parts, '_');
    assert Split(FileName(n), '_') == parts;
    ValueOfDecimal(n.batch);
    ValueOfDecimal(n.row);
    ValueOfDecimal(n.col);
    assert Tag(Image) != Tag(Label);
  }

  /** Every name the parser accepts is the name written for what it parses to. */
  lemma FileNameOfParse(s: string)
    requires ParseName(s).Some?
    ensures FileName(ParseName(s).value) == s
  {
    var fields := Split(s, '_');
    var n := ParseName(s).value;
    DecimalOfValue(fields[0]);
    DecimalOfValue(fields[1]);
    DecimalOfValue(fields[2]);
    assert fields == [Decimal(n.batch), Decimal(n.row), Decimal(n.col), Tag(n.part)];
    FileNameAsJoin(n);
    JoinSplit(s, '_');
  }

  /** A crop file name holds no path separator, so `dir + '/' + name` names a file directly inside `dir`. */
  lemma NameHasNoSeparator(n: CropName)
    ensures '/' !in FileName(n)
  {
    var s := FileName(n);
    assert s == Decimal(n.batch) + "_" + Decimal(n.row) + "_" + Decimal(n.col) + Suffix(n.part);
    assert '/' !in Decimal(n.batch) && '/' !in Decimal(n.row) && '/' !in Decimal(n.col);
    assert '/' !in Suffix(Image) && '/' !in Suffix(Label);
  }

  /** Distinct crops get distinct file names. */
  lemma FileNameInjective(a: CropName, b: CropName)
    requires FileName(a) == FileName(b)
    ensures a == b
  {
    ParseFileName(a);
    ParseFileName(b);
  }

  /** `names` holds both halves of every crop pair or neither. */
  ghost predicate Paired(names: set<string>) {
    forall b, r, c :: FileName(CropName(b, r, c, Image)) in names <==> FileName(CropName(b, r, c, Label)) in names
  }
}

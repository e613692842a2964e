/**
 * The image catalog of dockerutil.py `image_list`: registry records are
 * flattened into one row per tag, classified, filtered, paired with the tag
 * pushed just before each `master`, and ranked by (priority, tag), highest
 * first. Push times are whole seconds; `now` is the caller's clock reading.
 */
module Catalog {
  import opened Wrappers
  import opened Strings
  import Sorting
  import Seqs

  const ThirtyDays: int := 30 * 24 * 60 * 60

  /** One entry of the registry's `imageDetails` as it arrives; either key may be absent. */
  datatype ImageDetail = ImageDetail(imageTags: Option<seq<string>>, imagePushedAt: Option<int>)

  /**
   * An entry `image_list` can use: its tags, if any, and its push time. The
   * push time of an entry without tags is never read.
   */
  datatype ImageRecord = ImageRecord(imageTags: Option<seq<string>>, pushedAt: int)

  /**
   * One row of the listing: the tag, its push time, its priority, whether it
   * is a semantic version, and (for `master` only) the tag pushed just before.
   * The human-readable age column is not modelled.
   */
  datatype ImageRow = ImageRow(tag: string, pushed: int, priority: int, isSemantic: bool, masterVersion: Option<string>)

  /**
   * The Unicode decimal digits (general category Nd) beyond ASCII, as of
   * Unicode 15.0, as inclusive ranges: first those of the Basic Multilingual
   * Plane, then those above it. Each range holds one script's digits zero to
   * nine; the mathematical digits at U+1D7CE are five such sets in a row.
   */
  const BmpDigitRanges: seq<(char, char)> := [
    ('\U{660}', '\U{669}'), ('\U{6F0}', '\U{6F9}'), ('\U{7C0}', '\U{7C9}'), ('\U{966}', '\U{96F}'),
    ('\U{9E6}', '\U{9EF}'), ('\U{A66}', '\U{A6F}'), ('\U{AE6}', '\U{AEF}'), ('\U{B66}', '\U{B6F}'),
    ('\U{BE6}', '\U{BEF}'), ('\U{C66}', '\U{C6F}'), ('\U{CE6}', '\U{CEF}'), ('\U{D66}', '\U{D6F}'),
    ('\U{DE6}', '\U{DEF}'), ('\U{E50}', '\U{E59}'), ('\U{ED0}', '\U{ED9}'), ('\U{F20}', '\U{F29}'),
    ('\U{1040}', '\U{1049}'), ('\U{1090}', '\U{1099}'), ('\U{17E0}', '\U{17E9}'), ('\U{1810}', '\U{1819}'),
    ('\U{1946}', '\U{194F}'), ('\U{19D0}', '\U{19D9}'), ('\U{1A80}', '\U{1A89}'), ('\U{1A90}', '\U{1A99}'),
    ('\U{1B50}', '\U{1B59}'), ('\U{1BB0}', '\U{1BB9}'), ('\U{1C40}', '\U{1C49}'), ('\U{1C50}', '\U{1C59}'),
    ('\U{A620}', '\U{A629}'), ('\U{A8D0}', '\U{A8D9}'), ('\U{A900}', '\U{A909}'), ('\U{A9D0}', '\U{A9D9}'),
    ('\U{A9F0}', '\U{A9F9}'), ('\U{AA50}', '\U{AA59}'), ('\U{ABF0}', '\U{ABF9}'), ('\U{FF10}', '\U{FF19}')
  ]

  const SupplementaryDigitRanges: seq<(char, char)> := [
    ('\U{104A0}', '\U{104A9}'), ('\U{10D30}', '\U{10D39}'), ('\U{11066}', '\U{1106F}'), ('\U{110F0}', '\U{110F9}'),
    ('\U{11136}', '\U{1113F}'), ('\U{111D0}', '\U{111D9}'), ('\U{112F0}', '\U{112F9}'), ('\U{11450}', '\U{11459}'),
    ('\U{114D0}', '\U{114D9}'), ('\U{11650}', '\U{11659}'), ('\U{116C0}', '\U{116C9}'), ('\U{11730}', '\U{11739}'),
    ('\U{118E0}', '\U{118E9}'), ('\U{11950}', '\U{11959}'), ('\U{11C50}', '\U{11C59}'), ('\U{11D50}', '\U{11D59}'),
    ('\U{11DA0}', '\U{11DA9}'), ('\U{11F50}', '\U{11F59}'), ('\U{16A60}', '\U{16A69}'), ('\U{16AC0}', '\U{16AC9}'),
    ('\U{16B50}', '\U{16B59}'), ('\U{1D7CE}', '\U{1D7FF}'), ('\U{1E140}', '\U{1E149}'), ('\U{1E2F0}', '\U{1E2F9}'),
    ('\U{1E4F0}', '\U{1E4F9}'), ('\U{1E950}', '\U{1E959}'), ('\U{1FBF0}', '\U{1FBF9}')
  ]

  /** The `k`-th range of the two tables read as one. */
  function DigitRange(k: nat): (char, char)
    requires k < |BmpDigitRanges| + |SupplementaryDigitRanges|
  {
    if k < |BmpDigitRanges| then BmpDigitRanges[k] else SupplementaryDigitRanges[k - |BmpDigitRanges|]
  }

  /** Python's `\d` on `str`: any Unicode decimal digit, not only `0`-`9`. */
  predicate IsDigit(c: char) {
    ('0' <= c <= '9') || InDigitRanges(c, 0)
  }

  /** `c` lies in one of the ranges from the `k`-th on. */
  predicate InDigitRanges(c: char, k: nat)
    decreases |BmpDigitRanges| + |SupplementaryDigitRanges| - k
  {
    k < |BmpDigitRanges| + |SupplementaryDigitRanges|
    && (DigitRange(k).0 <= c <= DigitRange(k).1 || InDigitRanges(c, k + 1))
  }

  /** The lowest decimal digit outside ASCII, ARABIC-INDIC DIGIT ZERO. */
  const ArabicIndicZero: char := '\U{660}'

  /** Every range starts at `ArabicIndicZero` or above. */
  lemma RangesAboveAscii()
    ensures forall k :: 0 <= k < |BmpDigitRanges| ==> ArabicIndicZero <= BmpDigitRanges[k].0
    ensures forall k :: 0 <= k < |SupplementaryDigitRanges| ==> ArabicIndicZero <= SupplementaryDigitRanges[k].0
  {
  }

  /** No range from the `k`-th on holds a character below `ArabicIndicZero`. */
  lemma {:induction false} NoDigitsBelow(c: char, k: nat)
    requires c < ArabicIndicZero
    ensures !InDigitRanges(c, k)
    decreases |BmpDigitRanges| + |SupplementaryDigitRanges| - k
  {
    if k < |BmpDigitRanges| + |SupplementaryDigitRanges| {
      RangesAboveAscii();
      NoDigitsBelow(c, k + 1);
    }
  }

  /** Below `ArabicIndicZero`, `\d` matches exactly `0` to `9`. */
  lemma AsciiDigits(c: char)
    requires c < ArabicIndicZero
    ensures IsDigit(c) <==> '0' <= c <= '9'
  {
    NoDigitsBelow(c, 0);
  }

  /** One or more digits: `\d+`. */
  predicate Digits(s: string) {
    s != [] && forall i :: 0 <= i < |s| ==> IsDigit(s[i])
  }

  /** The end of the run of digits starting at `i`: greedy `\d*`. */
  function DigitRun(t: string, i: nat): (e: nat)
    requires i <= |t|
    ensures i <= e <= |t|
    decreases |t| - i
  {
    if i < |t| && IsDigit(t[i]) then DigitRun(t, i + 1) else i
  }

  lemma {:induction false} DigitRunSpec(t: string, i: nat)
    requires i <= |t|
    ensures Digits(t[i..DigitRun(t, i)]) || DigitRun(t, i) == i
    ensures DigitRun(t, i) == |t| || !IsDigit(t[DigitRun(t, i)])
    decreases |t| - i
  {
    if i < |t| && IsDigit(t[i]) {
      DigitRunSpec(t, i + 1);
      var e := DigitRun(t, i + 1);
      if e > i + 1 {
        assert t[i..e] == [t[i]] + t[i + 1..e];
      } else {
        assert t[i..e] == [t[i]];
      }
    }
  }

  /** A digit run that ends at a non-digit is recognised as exactly that run. */
  lemma {:induction false} DigitRunOf(t: string, i: nat, d: string)
    requires Digits(d) && i + |d| <= |t| && t[i..i + |d|] == d
    requires i + |d| == |t| || !IsDigit(t[i + |d|])
    ensures DigitRun(t, i) == i + |d|
    decreases |d|
  {
    assert t[i] == d[0];
    if |d| > 1 {
      assert t[i + 1..i + |d|] == d[1..];
      DigitRunOf(t, i + 1, d[1..]);
    } else if i + 1 < |t| {
      assert !IsDigit(t[i + 1]);
    }
  }

  /**
   * `re.match(r"^\d+\.\d+\.\d+$", t)`: three greedy digit runs separated by
   * dots, then the end of the string or (Python's `$`) one final newline.
   */
  predicate IsSemantic(t: string) {
    var e1 := DigitRun(t, 0);
    0 < e1 < |t| && t[e1] == '.' &&
    var e2 := DigitRun(t, e1 + 1);
    e1 + 1 < e2 < |t| && t[e2] == '.' &&
    var e3 := DigitRun(t, e2 + 1);
    e2 + 1 < e3 && (e3 == |t| || (e3 == |t| - 1 && t[e3] == '\n'))
  }

  /** `a.b.c`, with a final newline when `nl`. */
  function SemverText(a: string, b: string, c: string, nl: bool): string {
    a + "." + b + "." + c + (if nl then "\n" else "")
  }

  /** A semantic tag is three digit runs joined by dots, optionally followed by a newline. */
  lemma SemanticParts(t: string) returns (a: string, b: string, c: string, nl: bool)
    requires IsSemantic(t)
    ensures Digits(a) && Digits(b) && Digits(c)
    ensures t == SemverText(a, b, c, nl)
  {
    var e1, e2, e3 := SemanticRuns(t);
    RunDigits(t, 0);
    RunDigits(t, e1 + 1);
    RunDigits(t, e2 + 1);
    assert t[0..e1] == t[..e1];
    a, b, c, nl := t[..e1], t[e1 + 1..e2], t[e2 + 1..e3], e3 < |t|;
    SemverCut(t, e1, e2, e3);
  }

  /** The ends of the three digit runs of a semantic tag. */
  lemma SemanticRuns(t: string) returns (e1: nat, e2: nat, e3: nat)
    requires IsSemantic(t)
    ensures 0 < e1 < |t| && DigitRun(t, 0) == e1 && t[e1] == '.'
    ensures e1 + 1 < e2 < |t| && DigitRun(t, e1 + 1) == e2 && t[e2] == '.'
    ensures e2 + 1 < e3 <= |t| && DigitRun(t, e2 + 1) == e3
    ensures e3 == |t| || (e3 == |t| - 1 && t[e3] == '\n')
  {
    e1 := DigitRun(t, 0);
    e2 := DigitRun(t, e1 + 1);
    e3 := DigitRun(t, e2 + 1);
  }

  /** A non-empty digit run is a `\d+` match. */
  lemma RunDigits(t: string, i: nat)
    requires i < |t| && i < DigitRun(t, i)
    ensures Digits(t[i..DigitRun(t, i)])
  {
    DigitRunSpec(t, i);
  }

  /** Cutting `t` at two dots and at the end of the third run gives back `t` as `a.b.c`. */
  lemma SemverCut(t: string, e1: nat, e2: nat, e3: nat)
    requires e1 < e2 < e3 <= |t| && t[e1] == '.' && t[e2] == '.'
    requires e3 == |t| || (e3 == |t| - 1 && t[e3] == '\n')
    ensures t == SemverText(t[..e1], t[e1 + 1..e2], t[e2 + 1..e3], e3 < |t|)
  {
    Seqs.PrefixStep(t, e1, e1 + 1);
    assert t[e1..e1 + 1] == ".";
    Seqs.PrefixStep(t, e1 + 1, e2);
    Seqs.PrefixStep(t, e2, e2 + 1);
    assert t[e2..e2 + 1] == ".";
    Seqs.PrefixStep(t, e2 + 1, e3);
    Seqs.PrefixRest(t, e3);
    assert t[e3..] == if e3 < |t| then "\n" else "";
  }

  /** `pre + d + rest`, with `d` digits and `rest` not starting with one, has its digit run at `d`. */
  lemma DigitRunAt(pre: string, d: string, rest: string)
    requires Digits(d) && (rest == [] || !IsDigit(rest[0]))
    ensures DigitRun(pre + d + rest, |pre|) == |pre| + |d|
  {
    var t := pre + d + rest;
    assert t[|pre|..|pre| + |d|] == d;
    if rest != [] {
      assert t[|pre| + |d|] == rest[0];
    }
    DigitRunOf(t, |pre|, d);
  }

  /** Three digit runs joined by dots, optionally followed by a newline, form a semantic tag. */
  lemma SemanticOfParts(a: string, b: string, c: string, nl: bool)
    requires Digits(a) && Digits(b) && Digits(c)
    ensures IsSemantic(SemverText(a, b, c, nl))
  {
    var sfx := if nl then "\n" else "";
    var t := a + "." + b + "." + c + sfx;
    assert SemverText(a, b, c, nl) == t;
    if nl {
      assert sfx[0] == '\n';
      AsciiDigits(sfx[0]);
    }
    FirstRun(a, b, c, sfx);
    SecondRun(a, b, c, sfx);
    ThirdRun(a, b, c, sfx);
    SemanticAt(t, |a|, |a| + 1 + |b|, |a| + 1 + |b| + 1 + |c|);
  }

  /** In `a.b.c` + `sfx`, the first digit run is `a`, ended by a dot. */
  lemma FirstRun(a: string, b: string, c: string, sfx: string)
    requires Digits(a)
    ensures var t := a + "." + b + "." + c + sfx;
      |a| < |t| && DigitRun(t, 0) == |a| && t[|a|] == '.'
  {
    var rest := "." + b + "." + c + sfx;
    assert rest[0] == '.';
    AsciiDigits(rest[0]);
    assert a + "." + b + "." + c + sfx == [] + a + rest;
    DigitRunAt([], a, rest);
  }

  /** In `a.b.c` + `sfx`, the second digit run is `b`, ended by a dot. */
  lemma SecondRun(a: string, b: string, c: string, sfx: string)
    requires Digits(b)
    ensures var t := a + "." + b + "." + c + sfx;
      |a| + 1 + |b| < |t| && DigitRun(t, |a| + 1) == |a| + 1 + |b| && t[|a| + 1 + |b|] == '.'
  {
    var rest := "." + c + sfx;
    assert rest[0] == '.';
    AsciiDigits(rest[0]);
    assert a + "." + b + "." + c + sfx == (a + ".") + b + rest;
    DigitRunAt(a + ".", b, rest);
  }

  /** In `a.b.c` + `sfx`, with `sfx` not starting with a digit, the third digit run is `c`. */
  lemma ThirdRun(a: string, b: string, c: string, sfx: string)
    requires Digits(c) && (sfx == [] || !IsDigit(sfx[0]))
    ensures var t := a + "." + b + "." + c + sfx;
      var e := |a| + 1 + |b| + 1 + |c|;
      e + |sfx| == |t| && DigitRun(t, |a| + 1 + |b| + 1) == e && t[e..] == sfx
  {
    assert a + "." + b + "." + c + sfx == (a + "." + b + ".") + c + sfx;
    DigitRunAt(a + "." + b + ".", c, sfx);
  }

  /** The three runs of `IsSemantic`, found at `e1`, `e2` and `e3`. */
  lemma SemanticAt(t: string, e1: nat, e2: nat, e3: nat)
    requires 0 < e1 < |t| && DigitRun(t, 0) == e1 && t[e1] == '.'
    requires e1 + 1 < e2 < |t| && DigitRun(t, e1 + 1) == e2 && t[e2] == '.'
    requires e2 + 1 < e3 <= |t| && DigitRun(t, e2 + 1) == e3
    requires e3 == |t| || (e3 == |t| - 1 && t[e3] == '\n')
    ensures IsSemantic(t)
  {
  }

  /** The regex partner: a tag is semantic exactly when it has the shape `\d+.\d+.\d+`, optionally newline-terminated. */
  lemma SemanticIff(t: string)
    ensures IsSemantic(t) <==> exists a, b, c, nl: bool ::
      Digits(a) && Digits(b) && Digits(c) && t == SemverText(a, b, c, nl)
  {
    if IsSemantic(t) {
      var a, b, c, nl := SemanticParts(t);
    }
    if exists a, b, c, nl: bool :: Digits(a) && Digits(b) && Digits(c) && t == SemverText(a, b, c, nl) {
      var a, b, c, nl: bool :| Digits(a) && Digits(b) && Digits(c) && t == SemverText(a, b, c, nl);
      SemanticOfParts(a, b, c, nl);
    }
  }

  /** The tag priority of `image_list`. */
  function Priority(t: string): int {
    if t == "master" then 4
    else if t == "develop" then 3
    else if IsSemantic(t) then 2
    else 1
  }

  /** Priority 4 is exactly `master`, 3 exactly `develop`, 2 exactly the semantic versions, 1 the rest. */
  lemma PriorityClasses(t: string)
    ensures Priority(t) == 4 <==> t == "master"
    ensures Priority(t) == 3 <==> t == "develop"
    ensures Priority(t) == 2 <==> IsSemantic(t)
    ensures Priority(t) == 1 <==> t != "master" && t != "develop" && !IsSemantic(t)
  {
    AsciiDigits('m');
    AsciiDigits('d');
    assert DigitRun("master", 0) == 0;
    assert DigitRun("develop", 0) == 0;
  }

  /** The row built for one tag of a record pushed at `pushed`. */
  function Classify(tag: string, pushed: int): ImageRow {
    ImageRow(tag, pushed, Priority(tag), IsSemantic(tag), None)
  }

  /** The `semantic` and 30-day filters. */
  predicate Kept(row: ImageRow, now: int, showall: bool, semantic: bool) {
    (!semantic || row.isSemantic) && (showall || row.pushed >= now - ThirtyDays)
  }

  /** The kept rows of one record's tags, in tag order. */
  function TagRows(tags: seq<string>, pushed: int, now: int, showall: bool, semantic: bool): seq<ImageRow> {
    if tags == [] then []
    else
      var row := Classify(tags[|tags| - 1], pushed);
      TagRows(tags[..|tags| - 1], pushed, now, showall, semantic) + (if Kept(row, now, showall, semantic) then [row] else [])
  }

  /** The rows one record contributes. */
  function RecordRows(image: ImageRecord, now: int, showall: bool, semantic: bool): seq<ImageRow> {
    match image.imageTags
    case None => []
    case Some(tags) => TagRows(tags, image.pushedAt, now, showall, semantic)
  }

  /** The kept rows of all records, record by record: `imageList` before sorting. */
  function Flatten(records: seq<ImageRecord>, now: int, showall: bool, semantic: bool): seq<ImageRow> {
    if records == [] then []
    else Flatten(records[..|records| - 1], now, showall, semantic) + RecordRows(records[|records| - 1], now, showall, semantic)
  }

  lemma {:induction false} TagRowsMembers(tags: seq<string>, pushed: int, now: int, showall: bool, semantic: bool, row: ImageRow)
    ensures row in TagRows(tags, pushed, now, showall, semantic)
      <==> exists j :: 0 <= j < |tags| && row == Classify(tags[j], pushed) && Kept(row, now, showall, semantic)
  {
    if tags != [] {
      var init := tags[..|tags| - 1];
      TagRowsMembers(init, pushed, now, showall, semantic, row);
      assert forall j :: 0 <= j < |init| ==> init[j] == tags[j];
    }
  }

  /**
   * A row is listed before sorting exactly when it is the classification of
   * some tag of some record that has tags, with that record's push time, and
   * it passes both filters.
   */
  lemma FlattenMembers(records: seq<ImageRecord>, now: int, showall: bool, semantic: bool, row: ImageRow)
    ensures row in Flatten(records, now, showall, semantic)
      <==> exists i, j :: 0 <= i < |records| && records[i].imageTags.Some? && 0 <= j < |records[i].imageTags.value|
             && row == Classify(records[i].imageTags.value[j], records[i].pushedAt) && Kept(row, now, showall, semantic)
  {
    FlattenRecords(records, now, showall, semantic, row);
    if row in Flatten(records, now, showall, semantic) {
      var i :| 0 <= i < |records| && row in RecordRows(records[i], now, showall, semantic);
      RecordRowsMembers(records[i], now, showall, semantic, row);
    }
    if exists i, j :: 0 <= i < |records| && records[i].imageTags.Some? && 0 <= j < |records[i].imageTags.value|
         && row == Classify(records[i].imageTags.value[j], records[i].pushedAt) && Kept(row, now, showall, semantic)
    {
      var i, j :| 0 <= i < |records| && records[i].imageTags.Some? && 0 <= j < |records[i].imageTags.value|
        && row == Classify(records[i].imageTags.value[j], records[i].pushedAt) && Kept(row, now, showall, semantic);
      RecordRowsMembers(records[i], now, showall, semantic, row);
    }
  }

  /** A row is listed before sorting exactly when some record contributes it. */
  lemma {:induction false} FlattenRecords(records: seq<ImageRecord>, now: int, showall: bool, semantic: bool, row: ImageRow)
    ensures row in Flatten(records, now, showall, semantic)
      <==> exists i :: 0 <= i < |records| && row in RecordRows(records[i], now, showall, semantic)
  {
    if records != [] {
      var init := records[..|records| - 1];
      FlattenRecords(init, now, showall, semantic, row);
      assert forall i :: 0 <= i < |init| ==> init[i] == records[i];
    }
  }

  /** A record contributes exactly the kept classifications of its tags, with its push time. */
  lemma RecordRowsMembers(image: ImageRecord, now: int, showall: bool, semantic: bool, row: ImageRow)
    ensures row in RecordRows(image, now, showall, semantic)
      <==> image.imageTags.Some?
             && (exists j :: 0 <= j < |image.imageTags.value|
                   && row == Classify(image.imageTags.value[j], image.pushedAt) && Kept(row, now, showall, semantic))
  {
    if image.imageTags.Some? {
      TagRowsMembers(image.imageTags.value, image.pushedAt, now, showall, semantic, row);
    }
  }

  /** The ascending push-time order of `imageList.sort(key=itemgetter(1))`. */
  predicate PushedLe(a: ImageRow, b: ImageRow) {
    a.pushed <= b.pushed
  }

  /** The order of `sort(key=(priority, tag), reverse=True)`: `a` may come before `b`. */
  predicate RankGe(a: ImageRow, b: ImageRow) {
    a.priority > b.priority || (a.priority == b.priority && StrLe(b.tag, a.tag))
  }

  lemma PushedLeIsTotalPreorder()
    ensures Sorting.TotalPreorder(PushedLe)
  {
  }

  lemma RankGeIsTotalPreorder()
    ensures Sorting.TotalPreorder(RankGe)
  {
    forall a, b ensures RankGe(a, b) || RankGe(b, a) {
      StrLeTotal(a.tag, b.tag);
    }
    forall a, b, c | RankGe(a, b) && RankGe(b, c) ensures RankGe(a, c) {
      if a.priority == b.priority == c.priority {
        StrLeTransitive(c.tag, b.tag, a.tag);
      }
    }
  }

  /**
   * The pairing step: after the push-time sort, a `master` row records the
   * tag of the row just before it (none when it is first); every other row
   * records nothing.
   */
  function PairMasters(rows: seq<ImageRow>): (r: seq<ImageRow>)
    ensures |r| == |rows|
  {
    seq(|rows|, i requires 0 <= i < |rows| =>
      rows[i].(masterVersion := if rows[i].tag == "master" && i > 0 then Some(rows[i - 1].tag) else None))
  }

  /** The three ranking steps: push-time sort, pairing, then the (priority, tag) sort. */
  function Rank(flat: seq<ImageRow>): seq<ImageRow> {
    Sorting.Sort(PairMasters(Sorting.Sort(flat, PushedLe)), RankGe)
  }

  /** The listing `image_list` returns. */
  function Listing(records: seq<ImageRecord>, now: int, showall: bool, semantic: bool): seq<ImageRow> {
    Rank(Flatten(records, now, showall, semantic))
  }

  lemma FlattenSnoc(records: seq<ImageRecord>, i: nat, now: int, showall: bool, semantic: bool)
    requires i < |records|
    ensures Flatten(records[..i + 1], now, showall, semantic)
      == Flatten(records[..i], now, showall, semantic) + RecordRows(records[i], now, showall, semantic)
  {
    assert records[..i + 1][..i] == records[..i];
  }

  lemma TagRowsSnoc(tags: seq<string>, j: nat, pushed: int, now: int, showall: bool, semantic: bool)
    requires j < |tags|
    ensures var row := Classify(tags[j], pushed);
      TagRows(tags[..j + 1], pushed, now, showall, semantic)
        == TagRows(tags[..j], pushed, now, showall, semantic) + (if Kept(row, now, showall, semantic) then [row] else [])
  {
    assert tags[..j + 1][..j] == tags[..j];
  }

  /** The classification step of the inner loop: the regex test, then the priority ladder. */
  method ClassifyTag(tag: string) returns (isSemanticTag: bool, tagPriority: int)
    ensures isSemanticTag == IsSemantic(tag) && tagPriority == Priority(tag)
  {
    isSemanticTag := IsSemantic(tag);
    if tag == "master" {
      tagPriority := 4;
    } else if tag == "develop" {
      tagPriority := 3;
    } else if isSemanticTag {
      tagPriority := 2;
    } else {
      tagPriority := 1;
    }
  }

  /** The inner loop of `image_list`: classifies and filters one record's tags, appending the kept rows. */
  method AppendTagRows(imageList: seq<ImageRow>, tags: seq<string>, pushed: int, now: int, showall: bool, semantic: bool)
    returns (out: seq<ImageRow>)
    ensures out == imageList + TagRows(tags, pushed, now, showall, semantic)
  {
    out := imageList;
    var j := 0;
    while j < |tags|
      invariant 0 <= j <= |tags|
      invariant out == imageList + TagRows(tags[..j], pushed, now, showall, semantic)
    {
      var tag := tags[j];
      var isSemanticTag, tagPriority := ClassifyTag(tag);
      var meetsSemanticCriteria := (semantic && isSemanticTag) || !semantic;
      var meetsTimeCriteria := showall || pushed >= now - ThirtyDays;
      var row := ImageRow(tag, pushed, tagPriority, isSemanticTag, None);
      TagRowsSnoc(tags, j, pushed, now, showall, semantic);
      if meetsSemanticCriteria && meetsTimeCriteria {
        out := out + [row];
      }
      j := j + 1;
    }
    assert tags[..j] == tags;
  }

  /** The pairing loop of `image_list`: each `master` row takes the previous row's tag. */
  method PairWithPrevious(imageList: seq<ImageRow>) returns (newImageList: seq<ImageRow>)
    ensures newImageList == PairMasters(imageList)
  {
    newImageList := [];
    var prevtag: Option<string> := None;
    var k := 0;
    while k < |imageList|
      invariant 0 <= k <= |imageList|
      invariant newImageList == PairMasters(imageList)[..k]
      invariant prevtag == if k == 0 then None else Some(imageList[k - 1].tag)
    {
      var row := imageList[k];
      if row.tag == "master" {
        row := row.(masterVersion := prevtag);
      } else {
        row := row.(masterVersion := None);
      }
      newImageList := newImageList + [row];
      prevtag := Some(row.tag);
      k := k + 1;
    }
  }

  /**
   * Reading one entry: an entry with tags must carry `imagePushedAt`, or the
   * lookup raises `KeyError`; an entry without tags is skipped unread.
   */
  function Record(d: ImageDetail): Result<ImageRecord> {
    if d.imageTags.None? then Ok(ImageRecord(None, 0))
    else if d.imagePushedAt.None? then Err(KeyError)
    else Ok(ImageRecord(d.imageTags, d.imagePushedAt.value))
  }

  /** Reading every entry, in order; the first unreadable one raises. */
  function Records(details: seq<ImageDetail>): Result<seq<ImageRecord>> {
    if details == [] then Ok([])
    else
      match Records(details[..|details| - 1])
      case Err(e) => Err(e)
      case Ok(prev) =>
        match Record(details[|details| - 1])
        case Err(e) => Err(e)
        case Ok(r) => Ok(prev + [r])
  }

  /**
   * The entries read successfully exactly when every entry with tags has a
   * push time; then each record keeps its entry's tags and, where it has
   * tags, its entry's push time. Otherwise the outcome is `KeyError`.
   */
  lemma {:induction false} RecordsOk(details: seq<ImageDetail>)
    ensures Records(details).Ok? <==> forall i :: 0 <= i < |details| ==> details[i].imageTags.None? || details[i].imagePushedAt.Some?
    ensures Records(details).Err? ==> Records(details).error == KeyError
    ensures Records(details).Ok? ==> |Records(details).value| == |details|
    ensures Records(details).Ok? ==> forall i :: 0 <= i < |details| ==>
      (Records(details).value[i].imageTags == details[i].imageTags
       && (details[i].imageTags.Some? ==> Some(Records(details).value[i].pushedAt) == details[i].imagePushedAt))
    decreases |details|
  {
    if details != [] {
      var init := details[..|details| - 1];
      RecordsOk(init);
      assert forall i :: 0 <= i < |init| ==> init[i] == details[i];
    }
  }

  /** Once an entry cannot be read, the entries after it do not matter. */
  lemma {:induction false} RecordsErrSticks(details: seq<ImageDetail>, n: nat)
    requires n <= |details| && Records(details[..n]).Err?
    ensures Records(details) == Records(details[..n])
    decreases |details| - n
  {
    if n == |details| {
      assert details[..n] == details;
    } else {
      assert details[..n + 1][..n] == details[..n];
      RecordsErrSticks(details, n + 1);
    }
  }

  /** The listing of the registry's answer, or the error reading it raised. */
  function ListingOf(details: seq<ImageDetail>, now: int, showall: bool, semantic: bool): Result<seq<ImageRow>> {
    match Records(details)
    case Err(e) => Err(e)
    case Ok(records) => Ok(Listing(records, now, showall, semantic))
  }

  /** Reading entry `i` after the ones before it, and the rows it adds. */
  lemma RecordsStep(details: seq<ImageDetail>, i: nat, records: seq<ImageRecord>, now: int, showall: bool, semantic: bool)
    requires i < |details| && Records(details[..i]) == Ok(records)
    ensures Record(details[i]).Err? ==> Records(details) == Err(KeyError)
    ensures Record(details[i]).Ok? ==>
      var rec := Record(details[i]).value;
      Records(details[..i + 1]) == Ok(records + [rec])
      && Flatten(records + [rec], now, showall, semantic) == Flatten(records, now, showall, semantic) + RecordRows(rec, now, showall, semantic)
  {
    assert details[..i + 1][..i] == details[..i];
    if Record(details[i]).Err? {
      RecordsErrSticks(details, i + 1);
    } else {
      var rec := Record(details[i]).value;
      assert (records + [rec])[..|records|] == records;
    }
  }

  /** The outer loop of `image_list`: the kept rows of every entry, or the `KeyError` of one without a push time. */
  method CollectRows(details: seq<ImageDetail>, now: int, showall: bool, semantic: bool) returns (r: Result<seq<ImageRow>>)
    ensures Records(details).Err? ==> r == Err(Records(details).error)
    ensures Records(details).Ok? ==> r == Ok(Flatten(Records(details).value, now, showall, semantic))
  {
    var imageList: seq<ImageRow> := [];
    ghost var seen: seq<ImageRecord> := [];
    var i := 0;
    while i < |details|
      invariant 0 <= i <= |details|
      invariant Records(details[..i]) == Ok(seen)
      invariant imageList == Flatten(seen, now, showall, semantic)
    {
      var image := details[i];
      RecordsStep(details, i, seen, now, showall, semantic);
      if image.imageTags.Some? {
        if image.imagePushedAt.None? {
          return Err(KeyError);
        }
        var pushed := image.imagePushedAt.value;
        imageList := AppendTagRows(imageList, image.imageTags.value, pushed, now, showall, semantic);
      }
      seen := seen + [Record(image).value];
      i := i + 1;
    }
    assert details[..i] == details;
    r := Ok(imageList);
  }

  /** `image_list(showall, semantic)` over the registry's answer `details`, at time `now`. */
  method ImageList(details: seq<ImageDetail>, now: int, showall: bool, semantic: bool) returns (r: Result<seq<ImageRow>>)
    ensures r == ListingOf(details, now, showall, semantic)
  {
    var collected := CollectRows(details, now, showall, semantic);
    if collected.Err? {
      return Err(collected.error);
    }
    var imageList := Sorting.Sort(collected.value, PushedLe);
    var newImageList := PairWithPrevious(imageList);
    r := Ok(Sorting.Sort(newImageList, RankGe));
  }

  lemma RankOrdered(flat: seq<ImageRow>)
    ensures Sorting.Sorted(Rank(flat), RankGe)
  {
    RankGeIsTotalPreorder();
    Sorting.SortSorted(PairMasters(Sorting.Sort(flat, PushedLe)), RankGe);
  }

  /** The listing is ordered by priority, highest first, and by tag, descending, within a priority. */
  lemma ListingOrdered(records: seq<ImageRecord>, now: int, showall: bool, semantic: bool)
    ensures var rows := Listing(records, now, showall, semantic);
      forall i, j :: 0 <= i < j < |rows| ==>
        rows[i].priority > rows[j].priority
        || (rows[i].priority == rows[j].priority && StrLe(rows[j].tag, rows[i].tag))
  {
    RankOrdered(Flatten(records, now, showall, semantic));
  }

  /** A row with its pairing column cleared. */
  function Unpaired(r: ImageRow): ImageRow {
    r.(masterVersion := None)
  }

  /** Clearing the pairing column of any rearrangement of the paired rows gives back the unpaired rows. */
  lemma PairedRowsPermutation(byPush: seq<ImageRow>, rows: seq<ImageRow>)
    requires forall i :: 0 <= i < |byPush| ==> byPush[i].masterVersion == None
    requires multiset(rows) == multiset(PairMasters(byPush))
    ensures multiset(Seqs.Map(rows, Unpaired)) == multiset(byPush)
  {
    Seqs.MapPermutation(rows, PairMasters(byPush), Unpaired);
    assert Seqs.Map(PairMasters(byPush), Unpaired) == byPush;
  }

  lemma RankPermutation(flat: seq<ImageRow>)
    requires forall i :: 0 <= i < |flat| ==> flat[i].masterVersion == None
    ensures multiset(Seqs.Map(Rank(flat), Unpaired)) == multiset(flat)
  {
    var byPush := Sorting.Sort(flat, PushedLe);
    forall i | 0 <= i < |byPush| ensures byPush[i].masterVersion == None {
      assert byPush[i] in multiset(byPush);
      assert byPush[i] in flat;
    }
    PairedRowsPermutation(byPush, Rank(flat));
  }

  lemma FlattenUnpaired(records: seq<ImageRecord>, now: int, showall: bool, semantic: bool)
    ensures var flat := Flatten(records, now, showall, semantic);
      forall i :: 0 <= i < |flat| ==> flat[i].masterVersion == None
  {
    var flat := Flatten(records, now, showall, semantic);
    forall i | 0 <= i < |flat| ensures flat[i].masterVersion == None {
      FlattenMembers(records, now, showall, semantic, flat[i]);
    }
  }

  /**
   * The listing holds exactly the filtered rows, each once per occurrence,
   * once the pairing column is disregarded.
   */
  lemma ListingIsPermutation(records: seq<ImageRecord>, now: int, showall: bool, semantic: bool)
    ensures multiset(Seqs.Map(Listing(records, now, showall, semantic), Unpaired))
      == multiset(Flatten(records, now, showall, semantic))
  {
    FlattenUnpaired(records, now, showall, semantic);
    RankPermutation(Flatten(records, now, showall, semantic));
  }

  /** The pairing facts for any rearrangement `rows` of the pairing of a push-ordered `byPush`. */
  lemma PairedRowsFacts(byPush: seq<ImageRow>, rows: seq<ImageRow>, m: ImageRow)
    requires Sorting.Sorted(byPush, PushedLe)
    requires multiset(rows) == multiset(PairMasters(byPush))
    requires m in rows
    ensures m.masterVersion.Some? ==> m.tag == "master"
    ensures m.masterVersion.Some? ==> exists r :: r in rows && r.tag == m.masterVersion.value && r.pushed <= m.pushed
    ensures m.tag == "master" && m.masterVersion.None? ==> forall r :: r in rows ==> m.pushed <= r.pushed
  {
    assert m in multiset(rows);
    PairedVersion(byPush, rows, m);
    if m.tag == "master" && m.masterVersion.None? {
      UnpairedMasterFirst(byPush, rows, m);
    }
  }

  /** A paired version sits only on a `master` row and names the row pushed just before it. */
  lemma PairedVersion(byPush: seq<ImageRow>, rows: seq<ImageRow>, m: ImageRow)
    requires Sorting.Sorted(byPush, PushedLe)
    requires multiset(rows) == multiset(PairMasters(byPush))
    requires m in PairMasters(byPush)
    ensures m.masterVersion.Some? ==> m.tag == "master"
    ensures m.masterVersion.Some? ==> exists r :: r in rows && r.tag == m.masterVersion.value && r.pushed <= m.pushed
  {
    var paired := PairMasters(byPush);
    var i :| 0 <= i < |paired| && paired[i] == m;
    if m.masterVersion.Some? {
      assert i > 0 && m.masterVersion.value == byPush[i - 1].tag && m.pushed == byPush[i].pushed;
      var r := paired[i - 1];
      assert r.tag == byPush[i - 1].tag && r.pushed == byPush[i - 1].pushed;
      assert PushedLe(byPush[i - 1], byPush[i]);
      assert r in multiset(rows);
    }
  }

  /** A `master` row left unpaired is the first row by push time. */
  lemma UnpairedMasterFirst(byPush: seq<ImageRow>, rows: seq<ImageRow>, m: ImageRow)
    requires Sorting.Sorted(byPush, PushedLe)
    requires multiset(rows) == multiset(PairMasters(byPush))
    requires m in PairMasters(byPush) && m.tag == "master" && m.masterVersion.None?
    ensures forall r :: r in rows ==> m.pushed <= r.pushed
  {
    var paired := PairMasters(byPush);
    var i :| 0 <= i < |paired| && paired[i] == m;
    assert i == 0;
    forall r | r in rows ensures m.pushed <= r.pushed {
      assert r in multiset(rows);
      var j :| 0 <= j < |paired| && paired[j] == r;
    }
  }

  lemma RankPairing(flat: seq<ImageRow>, m: ImageRow)
    requires m in Rank(flat)
    ensures m.masterVersion.Some? ==> m.tag == "master"
    ensures m.masterVersion.Some? ==> exists r :: r in Rank(flat) && r.tag == m.masterVersion.value && r.pushed <= m.pushed
    ensures m.tag == "master" && m.masterVersion.None? ==> forall r :: r in Rank(flat) ==> m.pushed <= r.pushed
  {
    PushedLeIsTotalPreorder();
    Sorting.SortSorted(flat, PushedLe);
    PairedRowsFacts(Sorting.Sort(flat, PushedLe), Rank(flat), m);
  }

  /**
   * Every listed row that carries a paired version is a `master` row, and the
   * version it carries is the tag of a listed row pushed no later than it;
   * a `master` row that carries none was pushed no later than any listed row.
   */
  lemma ListingPairing(records: seq<ImageRecord>, now: int, showall: bool, semantic: bool, m: ImageRow)
    requires m in Listing(records, now, showall, semantic)
    ensures m.masterVersion.Some? ==> m.tag == "master"
    ensures m.masterVersion.Some? ==>
      exists r :: r in Listing(records, now, showall, semantic) && r.tag == m.masterVersion.value && r.pushed <= m.pushed
    ensures m.tag == "master" && m.masterVersion.None? ==>
      forall r :: r in Listing(records, now, showall, semantic) ==> m.pushed <= r.pushed
  {
    RankPairing(Flatten(records, now, showall, semantic), m);
  }
}

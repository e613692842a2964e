/**
 * The few Python `str` operations the modelled code relies on, each with the
 * property that characterises it: `in`, `find`, `split(sep)`, `split(sep, 1)`,
 * `split()`, `replace`, `strip`, `rpartition`, `rsplit(sep, 1)` and the
 * code-point order that `<` and `sorted` use on strings.
 */
module Strings {
  import opened Wrappers

  /** `sub` occurs in `s` starting at index `i`. */
  predicate OccursAt(s: string, sub: string, i: nat) {
    i + |sub| <= |s| && s[i..i + |sub|] == sub
  }

  /** The first index at or after `from` where `sub` occurs (Python's `s.find(sub, from)`). */
  function FindFrom(s: string, sub: string, from: nat): (r: Option<nat>)
    requires from <= |s|
    ensures r.Some? ==> from <= r.value && OccursAt(s, sub, r.value)
    ensures forall j: nat :: from <= j && (r.None? || j < r.value) ==> !OccursAt(s, sub, j)
    decreases |s| - from
  {
    if OccursAt(s, sub, from) then Some(from)
    else if from == |s| then None
    else FindFrom(s, sub, from + 1)
  }

  /** The first index where `sub` occurs in `s`. */
  function Find(s: string, sub: string): (r: Option<nat>)
    ensures r.Some? ==> OccursAt(s, sub, r.value)
    ensures forall j: nat :: (r.None? || j < r.value) ==> !OccursAt(s, sub, j)
  {
    FindFrom(s, sub, 0)
  }

  /** Python's `sub in s`. */
  predicate Contains(s: string, sub: string) {
    Find(s, sub).Some?
  }

  lemma ContainsAt(s: string, sub: string, i: nat)
    requires OccursAt(s, sub, i)
    ensures Contains(s, sub)
  {
  }

  /** A prefix that ends before the first occurrence of `sub` does not contain `sub`. */
  lemma NotContainedBefore(s: string, sub: string, i: nat)
    requires sub != [] && i <= |s|
    requires forall j: nat :: j < i ==> !OccursAt(s, sub, j)
    ensures !Contains(s[..i], sub)
  {
    if Contains(s[..i], sub) {
      var j := Find(s[..i], sub).value;
      assert j + |sub| <= i;
      assert s[..i][j..j + |sub|] == s[j..j + |sub|];
      assert OccursAt(s, sub, j);
    }
  }

  /** A single character occurs in `s` exactly where `s` holds that character. */
  lemma OccursAtChar(s: string, c: char, i: nat)
    ensures OccursAt(s, [c], i) <==> i < |s| && s[i] == c
  {
    if i < |s| && s[i] == c {
      assert s[i..i + 1] == [c];
    }
  }

  lemma ContainsChar(s: string, c: char)
    ensures Contains(s, [c]) <==> c in s
  {
    if c in s {
      var i :| 0 <= i < |s| && s[i] == c;
      OccursAtChar(s, c, i);
    }
    if Contains(s, [c]) {
      OccursAtChar(s, c, Find(s, [c]).value);
    }
  }

  /** `sep.join(parts)`. */
  function Join(parts: seq<string>, sep: string): string {
    if |parts| == 0 then ""
    else if |parts| == 1 then parts[0]
    else parts[0] + sep + Join(parts[1..], sep)
  }

  lemma JoinCons(x: string, rest: seq<string>, sep: string)
    requires |rest| >= 1
    ensures Join([x] + rest, sep) == x + sep + Join(rest, sep)
  {
    assert ([x] + rest)[1..] == rest;
  }

  /**
   * Python's `s.split(sep)` for a non-empty separator: the pieces between the
   * non-overlapping occurrences of `sep`, found left to right.
   */
  function Split(s: string, sep: string): (r: seq<string>)
    requires sep != []
    ensures |r| >= 1
    ensures Join(r, sep) == s
    ensures forall k :: 0 <= k < |r| ==> !Contains(r[k], sep)
    decreases |s|
  {
    match Find(s, sep)
    case None => [s]
    case Some(i) =>
      NotContainedBefore(s, sep, i);
      var rest := Split(s[i + |sep|..], sep);
      JoinCons(s[..i], rest, sep);
      assert s == s[..i] + sep + s[i + |sep|..];
      [s[..i]] + rest
  }

  /** Splitting `a + [c] + rest` at `c`, where `a` holds no `c`, peels off `a`. */
  lemma SplitAtChar(a: string, c: char, rest: string)
    requires c !in a
    ensures Split(a + [c] + rest, [c]) == [a] + Split(rest, [c])
  {
    var s := a + [c] + rest;
    OccursAtChar(s, c, |a|);
    forall j: nat | j < |a| ensures !OccursAt(s, [c], j) {
      OccursAtChar(s, c, j);
      assert s[j] == a[j];
    }
    assert s[|a| + 1..] == rest;
  }

  lemma SplitNoChar(a: string, c: char)
    requires c !in a
    ensures Split(a, [c]) == [a]
  {
    ContainsChar(a, c);
  }

  /** Splitting at `c` undoes joining with `c`, for pieces that hold no `c`. */
  lemma {:induction false} SplitJoinChar(parts: seq<string>, c: char)
    requires |parts| >= 1
    requires forall k :: 0 <= k < |parts| ==> c !in parts[k]
    ensures Split(Join(parts, [c]), [c]) == parts
    decreases |parts|
  {
    if |parts| == 1 {
      SplitNoChar(parts[0], c);
    } else {
      JoinCons(parts[0], parts[1..], [c]);
      assert [parts[0]] + parts[1..] == parts;
      SplitJoinChar(parts[1..], c);
      SplitAtChar(parts[0], c, Join(parts[1..], [c]));
    }
  }

  /**
   * Python's `a, b = s.split(sep, 1)`: the text before and after the first
   * occurrence of `sep`; `None` where the unpacking would raise.
   */
  function SplitOnce(s: string, sep: string): (r: Option<(string, string)>)
    requires sep != []
    ensures r.Some? ==> r.value.0 + sep + r.value.1 == s && !Contains(r.value.0, sep)
    ensures r.None? <==> !Contains(s, sep)
  {
    match Find(s, sep)
    case None => None
    case Some(i) =>
      NotContainedBefore(s, sep, i);
      assert s == s[..i] + sep + s[i + |sep|..];
      Some((s[..i], s[i + |sep|..]))
  }

  /** Python's `s.replace(target, replacement)` for a non-empty `target`. */
  function Replace(s: string, target: string, replacement: string): (r: string)
    requires target != []
    ensures !Contains(s, target) ==> r == s
  {
    Join(Split(s, target), replacement)
  }

  /**
   * When the final character of `t` occurs nowhere else in `a + t`, the only
   * occurrence of `t` in `a + t` is the suffix, and replacing it rewrites just that.
   */
  lemma ReplaceSuffix(a: string, t: string, rep: string)
    requires t != [] && t[|t| - 1] !in a + t[..|t| - 1]
    ensures Replace(a + t, t, rep) == a + rep
  {
    var s := a + t;
    var last := t[|t| - 1];
    var init := a + t[..|t| - 1];
    assert s[..|s| - 1] == init;
    assert s[|a|..|a| + |t|] == t;
    forall j: nat | j < |a| ensures !OccursAt(s, t, j) {
      var k := j + |t| - 1;
      assert s[k] == init[k];
      assert init[k] in init;
      if j + |t| <= |s| {
        assert s[j..j + |t|][|t| - 1] == s[k];
      }
    }
    assert OccursAt(s, t, |a|);
    var f := Find(s, t);
    assert f.Some?;
    assert f.value == |a|;
    assert s[|a| + |t|..] == [];
    assert Split(s, t) == [a] + Split([], t);
    assert !OccursAt([], t, 0);
    assert Split([], t) == [[]];
    JoinCons(a, [[]], rep);
  }

  /**
   * Python's `s.replace(target, replacement)` for any `target`: an empty
   * `target` puts `replacement` before, between and after the characters.
   */
  function PyReplace(s: string, target: string, replacement: string): string {
    if target != [] then Replace(s, target, replacement)
    else if s == [] then replacement
    else replacement + [s[0]] + PyReplace(s[1..], target, replacement)
  }

  /** Where `c` first occurs, `Replace` keeps the prefix, swaps `c` and carries on after it. */
  lemma ReplaceCharStep(s: string, a: char, b: char, i: nat)
    requires Find(s, [a]) == Some(i)
    ensures i < |s| && s[i] == a
    ensures Replace(s, [a], [b]) == s[..i] + [b] + Replace(s[i + 1..], [a], [b])
  {
    OccursAtChar(s, a, i);
    var rest := Split(s[i + 1..], [a]);
    assert Split(s, [a]) == [s[..i]] + rest;
    JoinCons(s[..i], rest, [b]);
  }

  /** Replacing one character by another works position by position. */
  lemma {:induction false} ReplaceCharPointwise(s: string, a: char, b: char)
    ensures |Replace(s, [a], [b])| == |s|
    ensures forall i :: 0 <= i < |s| ==> Replace(s, [a], [b])[i] == if s[i] == a then b else s[i]
    decreases |s|
  {
    match Find(s, [a])
    case None =>
      forall i | 0 <= i < |s| ensures s[i] != a {
        OccursAtChar(s, a, i);
      }
    case Some(i) =>
      ReplaceCharStep(s, a, b, i);
      ReplaceCharPointwise(s[i + 1..], a, b);
      forall j | 0 <= j < i ensures s[j] != a {
        OccursAtChar(s, a, j);
      }
  }

  /** The index of the last occurrence of `c` in `s`. */
  function LastIndexOf(s: string, c: char): (r: Option<nat>)
    ensures r.Some? ==> r.value < |s| && s[r.value] == c && c !in s[r.value + 1..]
    ensures r.None? <==> c !in s
  {
    if s == [] then None
    else if s[|s| - 1] == c then Some(|s| - 1)
    else
      var r := LastIndexOf(s[..|s| - 1], c);
      assert s == s[..|s| - 1] + [s[|s| - 1]];
      r
  }

  /** Python's `s.rpartition(c)[2]`: the text after the last `c`, or all of `s`. */
  function AfterLast(s: string, c: char): (r: string)
    ensures c !in r
    ensures c in s ==> |r| < |s| && s == s[..|s| - |r| - 1] + [c] + r
    ensures c !in s ==> r == s
  {
    match LastIndexOf(s, c)
    case None => s
    case Some(i) =>
      assert s == s[..i] + [c] + s[i + 1..];
      s[i + 1..]
  }

  /** The text after the last `c` of `a + [c] + b`, where `b` holds no `c`, is `b`. */
  lemma {:induction false} AfterLastOf(a: string, c: char, b: string)
    requires c !in b
    ensures LastIndexOf(a + [c] + b, c) == Some(|a|)
    ensures AfterLast(a + [c] + b, c) == b
    decreases |b|
  {
    var s := a + [c] + b;
    if b != [] {
      assert s[..|s| - 1] == a + [c] + b[..|b| - 1];
      assert s[|s| - 1] == b[|b| - 1];
      AfterLastOf(a, c, b[..|b| - 1]);
    }
    assert s[|a| + 1..] == b;
  }

  /** Python's `s.rsplit(c, 1)[0]`: the text before the last `c`, or all of `s`. */
  function BeforeLast(s: string, c: char): (r: string)
    ensures c in s ==> s == r + [c] + AfterLast(s, c)
    ensures c !in s ==> r == s
  {
    match LastIndexOf(s, c)
    case None => s
    case Some(i) =>
      assert s == s[..i] + [c] + s[i + 1..];
      s[..i]
  }

  /** The text before the last `c` of `a + [c] + b`, where `b` holds no `c`, is `a`. */
  lemma BeforeLastOf(a: string, c: char, b: string)
    requires c !in b
    ensures BeforeLast(a + [c] + b, c) == a
  {
    AfterLastOf(a, c, b);
    assert (a + [c] + b)[..|a|] == a;
  }

  /** The ASCII whitespace that `bytes.split()` and `bytes.strip()` remove: space, tab, newline, vertical tab, form feed, carriage return. */
  predicate IsByteSpace(c: char) {
    c == ' ' || '\t' <= c <= '\r'
  }

  /** The characters Python's `str.strip()` and `str.split()` treat as whitespace. */
  predicate IsStrSpace(c: char) {
    IsByteSpace(c) || '\U{1C}' <= c <= '\U{1F}' || c == '\U{85}' || c == '\U{A0}' || c == '\U{1680}'
    || '\U{2000}' <= c <= '\U{200A}' || c == '\U{2028}' || c == '\U{2029}' || c == '\U{202F}'
    || c == '\U{205F}' || c == '\U{3000}'
  }

  predicate NoSpace(t: string, ws: char -> bool) {
    forall i :: 0 <= i < |t| ==> !ws(t[i])
  }

  /** The characters of `s` that `ws` rejects, in order. */
  function NonSpace(s: string, ws: char -> bool): string {
    if s == [] then ""
    else (if ws(s[0]) then "" else [s[0]]) + NonSpace(s[1..], ws)
  }

  lemma {:induction false} NonSpaceAppend(a: string, b: string, ws: char -> bool)
    ensures NonSpace(a + b, ws) == NonSpace(a, ws) + NonSpace(b, ws)
    decreases |a|
  {
    if a == [] {
      assert a + b == b;
    } else {
      assert (a + b)[1..] == a[1..] + b;
      NonSpaceAppend(a[1..], b, ws);
    }
  }

  lemma {:induction false} NonSpaceOfToken(t: string, ws: char -> bool)
    requires NoSpace(t, ws)
    ensures NonSpace(t, ws) == t
    decreases |t|
  {
    if t != [] {
      NonSpaceOfToken(t[1..], ws);
    }
  }

  /** The length of the run of characters `ws` rejects that starts `s`. */
  function TokenLength(s: string, ws: char -> bool): (n: nat)
    ensures n <= |s|
    ensures s != [] && !ws(s[0]) ==> n >= 1
  {
    if s == [] || ws(s[0]) then 0 else 1 + TokenLength(s[1..], ws)
  }

  lemma {:induction false} TokenLengthSpec(s: string, ws: char -> bool)
    ensures NoSpace(s[..TokenLength(s, ws)], ws)
    ensures TokenLength(s, ws) < |s| ==> ws(s[TokenLength(s, ws)])
    decreases |s|
  {
    if s != [] && !ws(s[0]) {
      TokenLengthSpec(s[1..], ws);
      var n := TokenLength(s, ws);
      assert s[..n] == [s[0]] + s[1..][..n - 1];
    }
  }

  /** A word followed by whitespace, or by nothing, is one token. */
  lemma {:induction false} TokenLengthOfWord(w: string, rest: string, ws: char -> bool)
    requires NoSpace(w, ws)
    requires rest == [] || ws(rest[0])
    ensures TokenLength(w + rest, ws) == |w|
    decreases |w|
  {
    if w == [] {
      assert w + rest == rest;
    } else {
      assert (w + rest)[1..] == w[1..] + rest;
      TokenLengthOfWord(w[1..], rest, ws);
    }
  }

  /** `" ".join(words).split()` gives the words back when none is empty or holds whitespace. */
  lemma {:induction false} SplitWhitespaceWords(words: seq<string>, ws: char -> bool)
    requires ws(' ')
    requires forall k :: 0 <= k < |words| ==> words[k] != [] && NoSpace(words[k], ws)
    ensures SplitWhitespace(Join(words, " "), ws) == words
    decreases |words|
  {
    if |words| == 1 {
      SplitWhitespaceWord(words[0], ws);
    } else if |words| > 1 {
      var w := words[0];
      var tail := Join(words[1..], " ");
      SplitWhitespaceCons(w, tail, ws);
      SplitWhitespaceWords(words[1..], ws);
      assert words == [w] + words[1..];
    }
  }

  /** A single word is its own split. */
  lemma SplitWhitespaceWord(w: string, ws: char -> bool)
    requires w != [] && NoSpace(w, ws)
    ensures SplitWhitespace(w, ws) == [w]
  {
    TokenLengthOfWord(w, "", ws);
    assert w + "" == w;
    assert w[|w|..] == [];
  }

  /** A word followed by a space splits off as the first token. */
  lemma SplitWhitespaceCons(w: string, tail: string, ws: char -> bool)
    requires ws(' ')
    requires w != [] && NoSpace(w, ws)
    ensures SplitWhitespace(w + " " + tail, ws) == [w] + SplitWhitespace(tail, ws)
  {
    var s := w + " " + tail;
    assert s == w + (" " + tail);
    TokenLengthOfWord(w, " " + tail, ws);
    assert s[..|w|] == w;
    assert s[|w|..] == " " + tail;
    assert (" " + tail)[1..] == tail;
  }

  /** Concatenation of a sequence of strings. */
  function Concat(parts: seq<string>): string {
    if parts == [] then "" else parts[0] + Concat(parts[1..])
  }

  /**
   * Python's `s.split()`: the maximal runs of characters `ws` rejects.
   * `ws` is `IsByteSpace` for `bytes` and `IsStrSpace` for `str`.
   */
  function SplitWhitespace(s: string, ws: char -> bool): seq<string>
    decreases |s|
  {
    if s == [] then []
    else if ws(s[0]) then SplitWhitespace(s[1..], ws)
    else
      var n := TokenLength(s, ws);
      [s[..n]] + SplitWhitespace(s[n..], ws)
  }

  /**
   * No token of `s.split()` is empty or holds whitespace, and together the
   * tokens are exactly the non-whitespace characters of `s`, in order.
   */
  lemma {:induction false} SplitWhitespaceSpec(s: string, ws: char -> bool)
    ensures forall k :: 0 <= k < |SplitWhitespace(s, ws)| ==> SplitWhitespace(s, ws)[k] != [] && NoSpace(SplitWhitespace(s, ws)[k], ws)
    ensures Concat(SplitWhitespace(s, ws)) == NonSpace(s, ws)
    decreases |s|
  {
    if s == [] {
    } else if ws(s[0]) {
      SplitWhitespaceSpec(s[1..], ws);
      assert NonSpace(s, ws) == NonSpace(s[1..], ws);
    } else {
      var n := TokenLength(s, ws);
      var rest := SplitWhitespace(s[n..], ws);
      SplitWhitespaceSpec(s[n..], ws);
      TokenLengthSpec(s, ws);
      assert s == s[..n] + s[n..];
      NonSpaceAppend(s[..n], s[n..], ws);
      NonSpaceOfToken(s[..n], ws);
      assert ([s[..n]] + rest)[1..] == rest;
    }
  }

  /** `s` with every leading character in `cs` removed. */
  function TrimLeft(s: string, cs: char -> bool): (r: string)
    ensures |r| <= |s| && r == s[|s| - |r|..]
    ensures r != [] ==> !cs(r[0])
    ensures forall i :: 0 <= i < |s| - |r| ==> cs(s[i])
  {
    if s != [] && cs(s[0]) then TrimLeft(s[1..], cs) else s
  }

  /** `s` with every trailing character in `cs` removed. */
  function TrimRight(s: string, cs: char -> bool): (r: string)
    ensures |r| <= |s| && r == s[..|r|]
    ensures r != [] ==> !cs(r[|r| - 1])
    ensures forall i :: |r| <= i < |s| ==> cs(s[i])
  {
    if s != [] && cs(s[|s| - 1]) then TrimRight(s[..|s| - 1], cs) else s
  }

  /**
   * Python's `s.strip(chars)`: the result is a slice of `s` that neither
   * starts nor ends with a character of `cs`, and everything cut off on
   * either side is in `cs`.
   */
  function Strip(s: string, cs: char -> bool): (r: string)
    ensures r != [] ==> !cs(r[0]) && !cs(r[|r| - 1])
    ensures exists i, j :: (0 <= i <= j <= |s| && r == s[i..j]
      && (forall k :: 0 <= k < i ==> cs(s[k])) && (forall k :: j <= k < |s| ==> cs(s[k])))
  {
    var left := TrimLeft(s, cs);
    var r := TrimRight(left, cs);
    TrimmedSlice(s, left, r, cs);
    r
  }

  /** A suffix of `s` cut down to a prefix of it is a slice of `s`; the rest of `s` is in `cs`. */
  lemma TrimmedSlice(s: string, left: string, right: string, cs: char -> bool)
    requires |left| <= |s| && left == s[|s| - |left|..] && forall k :: 0 <= k < |s| - |left| ==> cs(s[k])
    requires |right| <= |left| && right == left[..|right|] && forall k :: |right| <= k < |left| ==> cs(left[k])
    ensures var i := |s| - |left|;
      var j := i + |right|;
      0 <= i <= j <= |s| && right == s[i..j]
      && (forall k :: 0 <= k < i ==> cs(s[k])) && (forall k :: j <= k < |s| ==> cs(s[k]))
  {
    var i := |s| - |left|;
    var j := i + |right|;
    assert right == s[i..j];
    forall k | j <= k < |s| ensures cs(s[k]) {
      assert s[k] == left[k - i];
    }
  }

  lemma {:induction false} TrimLeftPrefix(pre: string, x: string, cs: char -> bool)
    requires forall i :: 0 <= i < |pre| ==> cs(pre[i])
    requires x != [] && !cs(x[0])
    ensures TrimLeft(pre + x, cs) == x
    decreases |pre|
  {
    if pre != [] {
      assert (pre + x)[1..] == pre[1..] + x;
      TrimLeftPrefix(pre[1..], x, cs);
    }
  }

  lemma {:induction false} TrimRightSuffix(x: string, post: string, cs: char -> bool)
    requires forall i :: 0 <= i < |post| ==> cs(post[i])
    requires x != [] && !cs(x[|x| - 1])
    ensures TrimRight(x + post, cs) == x
    decreases |post|
  {
    if post != [] {
      assert (x + post)[..|x + post| - 1] == x + post[..|post| - 1];
      TrimRightSuffix(x, post[..|post| - 1], cs);
    } else {
      assert x + post == x;
    }
  }

  /** Stripping removes exactly the surrounding characters from `cs`. */
  lemma StripAround(pre: string, x: string, post: string, cs: char -> bool)
    requires forall i :: 0 <= i < |pre| ==> cs(pre[i])
    requires forall i :: 0 <= i < |post| ==> cs(post[i])
    requires x != [] && !cs(x[0]) && !cs(x[|x| - 1])
    ensures Strip(pre + x + post, cs) == x
  {
    assert pre + x + post == pre + (x + post);
    TrimLeftPrefix(pre, x + post, cs);
    TrimRightSuffix(x, post, cs);
  }

  lemma StripLeading(pre: string, x: string, cs: char -> bool)
    requires forall i :: 0 <= i < |pre| ==> cs(pre[i])
    requires x != [] && !cs(x[0]) && !cs(x[|x| - 1])
    ensures Strip(pre + x, cs) == x
  {
    StripAround(pre, x, "", cs);
    assert pre + x + "" == pre + x;
  }

  lemma StripTrailing(x: string, post: string, cs: char -> bool)
    requires forall i :: 0 <= i < |post| ==> cs(post[i])
    requires x != [] && !cs(x[0]) && !cs(x[|x| - 1])
    ensures Strip(x + post, cs) == x
  {
    StripAround("", x, post, cs);
    assert "" + x + post == x + post;
  }

  /** Python's `a <= b` on strings: code-point lexicographic order. */
  predicate StrLe(a: string, b: string) {
    if a == [] then true
    else if b == [] then false
    else if a[0] != b[0] then a[0] < b[0]
    else StrLe(a[1..], b[1..])
  }

  lemma {:induction false} StrLeTotal(a: string, b: string)
    ensures StrLe(a, b) || StrLe(b, a)
    decreases |a|
  {
    if a != [] && b != [] && a[0] == b[0] {
      StrLeTotal(a[1..], b[1..]);
    }
  }

  lemma {:induction false} StrLeTransitive(a: string, b: string, c: string)
    requires StrLe(a, b) && StrLe(b, c)
    ensures StrLe(a, c)
    decreases |a|
  {
    if a != [] && b != [] && c != [] && a[0] == b[0] && b[0] == c[0] {
      StrLeTransitive(a[1..], b[1..], c[1..]);
    }
  }

  lemma {:induction false} StrLeAntisymmetric(a: string, b: string)
    requires StrLe(a, b) && StrLe(b, a)
    ensures a == b
    decreases |a|
  {
    if a != [] && b != [] {
      StrLeAntisymmetric(a[1..], b[1..]);
      assert a == [a[0]] + a[1..];
      assert b == [b[0]] + b[1..];
    }
  }
}

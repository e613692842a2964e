/**
 * `JuiceboxLoggingSearcher._parse_log_parts` of juice_log_searcher.py: the
 * text after the prefix of a data-service log line becomes a row of named
 * values. Every space-separated `key=value` token becomes an entry (`rows`
 * as an integer, the timings as floats, values that are false dropped);
 * recipe logs add the SQL query and params logs the four sections that the
 * params pattern picks out.
 */
module LogParse {
  import opened Wrappers
  import opened Strings

  /**
   * A row value: text, `int(v)` for `rows`, and `float(v)` for the timings,
   * kept as the token together with whether the float is zero.
   */
  datatype Value = Text(text: string) | Int(number: int) | Float(token: string, zero: bool)

  /** Python's truth value of a row value. */
  predicate Truthy(v: Value) {
    match v
    case Text(s) => s != ""
    case Int(n) => n != 0
    case Float(_, zero) => !zero
  }

  /** A dict, its entries in insertion order. */
  type Dict = seq<(string, Value)>

  /** `d.get(k)`: the value of the first entry with that key. */
  function Lookup(d: Dict, k: string): Option<Value> {
    if d == [] then None
    else if d[0].0 == k then Some(d[0].1)
    else Lookup(d[1..], k)
  }

  /** `d[k] = v`: an existing key keeps its place, a new key goes last. */
  function Assign(d: Dict, k: string, v: Value): Dict {
    if d == [] then [(k, v)]
    else if d[0].0 == k then [(k, v)] + d[1..]
    else [d[0]] + Assign(d[1..], k, v)
  }

  /** After `d[k] = v`, `k` gives `v` and every other key what it gave before. */
  lemma {:induction false} LookupAssign(d: Dict, k: string, v: Value, key: string)
    ensures Lookup(Assign(d, k, v), key) == if key == k then Some(v) else Lookup(d, key)
    decreases |d|
  {
    if d != [] && d[0].0 != k {
      var rest := Assign(d[1..], k, v);
      assert ([d[0]] + rest)[1..] == rest;
      LookupAssign(d[1..], k, v, key);
    } else if d != [] {
      assert ([(k, v)] + d[1..])[1..] == d[1..];
    }
  }

  // Integers

  predicate IsDigit(c: char) {
    '0' <= c <= '9'
  }

  predicate AllDigits(s: string) {
    forall i :: 0 <= i < |s| ==> IsDigit(s[i])
  }

  /** The number a string of decimal digits denotes. */
  function DigitsValue(s: string): nat
    requires AllDigits(s)
  {
    if s == [] then 0
    else
      assert IsDigit(s[|s| - 1]);
      DigitsValue(s[..|s| - 1]) * 10 + (s[|s| - 1] as int - '0' as int)
  }

  /** `int(v)` on an optionally signed string of ASCII digits; `None` where it raises. */
  function ParseInt(s: string): Option<int> {
    if |s| >= 2 && (s[0] == '-' || s[0] == '+') && AllDigits(s[1..]) then
      var magnitude: int := DigitsValue(s[1..]);
      Some(if s[0] == '-' then -magnitude else magnitude)
    else if s != [] && AllDigits(s) then Some(DigitsValue(s))
    else None
  }

  /** `str(n)` for a natural number. */
  function Decimal(n: nat): (s: string)
    ensures s != [] && AllDigits(s)
  {
    if n < 10 then [('0' as int + n) as char]
    else Decimal(n / 10) + [('0' as int + n % 10) as char]
  }

  lemma {:induction false} DecimalValue(n: nat)
    ensures DigitsValue(Decimal(n)) == n
  {
    if n >= 10 {
      DecimalValue(n / 10);
      var s := Decimal(n);
      assert s[..|s| - 1] == Decimal(n / 10);
    }
  }

  /** `int(str(n)) == n`. */
  lemma ParseIntDecimal(n: int)
    ensures ParseInt(if n < 0 then "-" + Decimal(-n) else Decimal(n)) == Some(n)
  {
    if n < 0 {
      var s := "-" + Decimal(-n);
      assert s[1..] == Decimal(-n);
      DecimalValue(-n);
    } else {
      DecimalValue(n);
    }
  }

  // Tokens

  /** The keys whose values `float()` converts. */
  const FloatKeys: set<string> := {"enchant", "db", "totaltime"}

  /**
   * What `float(token)` gives, as far as a row cares: `None` where it raises,
   * otherwise whether the number is zero.
   */
  type FloatReading = string -> Option<bool>

  /** The conversions of the token loop: `rows` to int, the timings to float. */
  function Convert(k: string, v: string, floats: FloatReading): Result<Value> {
    if k == "rows" then
      match ParseInt(v)
      case None => Err(ValueError)
      case Some(n) => Ok(Int(n))
    else if k in FloatKeys then
      match floats(v)
      case None => Err(ValueError)
      case Some(zero) => Ok(Float(v, zero))
    else Ok(Text(v))
  }

  /**
   * One space-separated token: ignored without `=`; `k, v = part.split('=')`
   * raises unless there is exactly one `=`; the entry is kept when both the
   * key and the converted value are true.
   */
  function Entry(token: string, floats: FloatReading): Result<Option<(string, Value)>> {
    if '=' !in token then Ok(None)
    else
      var pieces := Split(token, "=");
      if |pieces| != 2 then Err(ValueError)
      else
        match Convert(pieces[0], pieces[1], floats)
        case Err(e) => Err(e)
        case Ok(v) => if pieces[0] != "" && Truthy(v) then Ok(Some((pieces[0], v))) else Ok(None)
  }

  /** The token gives an entry for key `k`. */
  predicate GivesKey(e: Result<Option<(string, Value)>>, k: string) {
    e.Ok? && e.value.Some? && e.value.value.0 == k
  }

  /** A text token `k=v`: kept, as text, exactly when the key and the value are non-empty. */
  lemma EntryText(k: string, v: string, floats: FloatReading)
    requires '=' !in k && '=' !in v && k != "rows" && k !in FloatKeys
    ensures Entry(k + "=" + v, floats) == if k != "" && v != "" then Ok(Some((k, Text(v)))) else Ok(None)
  {
    SplitAtChar(k, '=', v);
    SplitNoChar(v, '=');
  }

  /** `rows=v` is converted to an integer; a zero count is dropped and a non-number raises. */
  lemma EntryRows(v: string, floats: FloatReading)
    requires '=' !in v
    ensures Entry("rows=" + v, floats)
      == match ParseInt(v)
         case None => Err(ValueError)
         case Some(n) => if n != 0 then Ok(Some(("rows", Int(n)))) else Ok(None)
  {
    assert "rows=" + v == "rows" + "=" + v;
    SplitAtChar("rows", '=', v);
    SplitNoChar(v, '=');
  }

  /** A token holding two or more `=` fails the unpacking. */
  lemma EntryTwoEquals(a: string, b: string, c: string, floats: FloatReading)
    requires '=' !in a && '=' !in b
    ensures Entry(a + "=" + b + "=" + c, floats) == Err(ValueError)
  {
    var t := a + "=" + b + "=" + c;
    assert t == a + ['='] + (b + "=" + c);
    assert t[|a|] == '=';
    SplitAtChar(a, '=', b + "=" + c);
    SplitAtChar(b, '=', c);
  }

  /** How a token is read: `Entry` with the float reading of the log. */
  type TokenReading = string -> Result<Option<(string, Value)>>

  function TokenEntry(floats: FloatReading): TokenReading {
    t => Entry(t, floats)
  }

  /** The entries of the token loop, in order; the first failing token's error escapes. */
  function KvRow(tokens: seq<string>, entry: TokenReading): Result<Dict> {
    if tokens == [] then Ok([])
    else
      match KvRow(tokens[..|tokens| - 1], entry)
      case Err(e) => Err(e)
      case Ok(row) =>
        match entry(tokens[|tokens| - 1])
        case Err(e) => Err(e)
        case Ok(None) => Ok(row)
        case Ok(Some(kv)) => Ok(Assign(row, kv.0, kv.1))
  }

  /** Once a prefix of the tokens fails, the whole loop fails with the same error. */
  lemma {:induction false} KvRowErrSticks(tokens: seq<string>, i: nat, entry: TokenReading)
    requires i <= |tokens| && KvRow(tokens[..i], entry).Err?
    ensures KvRow(tokens, entry) == KvRow(tokens[..i], entry)
    decreases |tokens| - i
  {
    if i < |tokens| {
      assert tokens[..i + 1][..i] == tokens[..i];
      KvRowErrSticks(tokens, i + 1, entry);
    } else {
      assert tokens[..i] == tokens;
    }
  }

  /** The loop succeeds exactly when every token does. */
  lemma {:induction false} KvRowOk(tokens: seq<string>, entry: TokenReading)
    ensures KvRow(tokens, entry).Ok? <==> forall i :: 0 <= i < |tokens| ==> entry(tokens[i]).Ok?
    decreases |tokens|
  {
    if tokens != [] {
      var n := |tokens| - 1;
      KvRowOk(tokens[..n], entry);
      assert forall i :: 0 <= i < n ==> tokens[..n][i] == tokens[i];
    }
  }

  /** What the last token does to a key of the row. */
  lemma KvRowLast(tokens: seq<string>, entry: TokenReading, k: string)
    requires tokens != [] && KvRow(tokens, entry).Ok?
    ensures var init := KvRow(tokens[..|tokens| - 1], entry);
      var e := entry(tokens[|tokens| - 1]);
      && init.Ok? && e.Ok?
      && Lookup(KvRow(tokens, entry).value, k)
         == if GivesKey(e, k) then Some(e.value.value.1) else Lookup(init.value, k)
  {
    var e := entry(tokens[|tokens| - 1]);
    if e.Ok? && e.value.Some? {
      LookupAssign(KvRow(tokens[..|tokens| - 1], entry).value, e.value.value.0, e.value.value.1, k);
    }
  }

  /**
   * A key of the row holds the value of the last token that gives that key:
   * `returns (i)` names the token.
   */
  lemma {:induction false} KvRowHas(tokens: seq<string>, entry: TokenReading, k: string, v: Value) returns (i: nat)
    requires KvRow(tokens, entry).Ok? && Lookup(KvRow(tokens, entry).value, k) == Some(v)
    ensures i < |tokens| && entry(tokens[i]) == Ok(Some((k, v)))
    ensures forall j :: i < j < |tokens| ==> !GivesKey(entry(tokens[j]), k)
    decreases |tokens|
  {
    var n := |tokens| - 1;
    KvRowLast(tokens, entry, k);
    if GivesKey(entry(tokens[n]), k) {
      i := n;
    } else {
      var init := tokens[..n];
      i := KvRowHas(init, entry, k, v);
      assert init[i] == tokens[i];
      forall j | i < j < |tokens| ensures !GivesKey(entry(tokens[j]), k) {
        if j < n {
          assert init[j] == tokens[j];
        }
      }
    }
  }

  /** A key no token gives is not in the row. */
  lemma {:induction false} KvRowMissing(tokens: seq<string>, entry: TokenReading, k: string)
    requires KvRow(tokens, entry).Ok?
    requires forall j :: 0 <= j < |tokens| ==> !GivesKey(entry(tokens[j]), k)
    ensures Lookup(KvRow(tokens, entry).value, k) == None
    decreases |tokens|
  {
    if tokens != [] {
      var n := |tokens| - 1;
      assert forall j :: 0 <= j < n ==> tokens[..n][j] == tokens[j];
      KvRowLast(tokens, entry, k);
      KvRowMissing(tokens[..n], entry, k);
    }
  }

  // The params pattern

  /** `groups[0] + markers[0] + groups[1] + ... + groups[n]`. */
  function Interleave(groups: seq<string>, markers: seq<string>): string
    requires |groups| == |markers| + 1
    decreases |markers|
  {
    if markers == [] then groups[0]
    else groups[0] + markers[0] + Interleave(groups[1..], markers[1..])
  }

  /**
   * Matching `(.*)m1(.*)m2...(.*)` against a line, as Python's backtracking
   * matcher does: each group takes the longest text that lets the rest match.
   */
  function Groups(markers: seq<string>, line: string): (r: Option<seq<string>>)
    ensures r.Some? ==> |r.value| == |markers| + 1 && Interleave(r.value, markers) == line
    decreases |markers|, |line| + 2
  {
    if markers == [] then Some([line]) else GroupsFrom(markers, line, |line|)
  }

  /** The first group tried at length `i`, then ever shorter. */
  function GroupsFrom(markers: seq<string>, line: string, i: nat): (r: Option<seq<string>>)
    requires markers != [] && i <= |line|
    ensures r.Some? ==> |r.value| == |markers| + 1 && Interleave(r.value, markers) == line && |r.value[0]| <= i
    decreases |markers|, i + 1
  {
    var m := markers[0];
    var rest := if OccursAt(line, m, i) then Groups(markers[1..], line[i + |m|..]) else None;
    if rest.Some? then
      var r := [line[..i]] + rest.value;
      assert r[1..] == rest.value;
      assert line == line[..i] + m + line[i + |m|..];
      Some(r)
    else if i == 0 then None
    else GroupsFrom(markers, line, i - 1)
  }

  /** A first group of length `j` that works is found, or a longer one. */
  lemma {:induction false} GroupsFromFinds(markers: seq<string>, line: string, i: nat, j: nat)
    requires markers != [] && j <= i <= |line|
    requires OccursAt(line, markers[0], j) && Groups(markers[1..], line[j + |markers[0]|..]).Some?
    ensures GroupsFrom(markers, line, i).Some? && j <= |GroupsFrom(markers, line, i).value[0]|
    decreases i
  {
    var m := markers[0];
    var here := OccursAt(line, m, i) && Groups(markers[1..], line[i + |m|..]).Some?;
    if !here {
      GroupsFromFinds(markers, line, i - 1, j);
    }
  }

  /**
   * Whenever the line can be cut into groups around the markers, the pattern
   * matches, and its first group is at least as long as that cut's.
   */
  lemma {:induction false} GroupsComplete(markers: seq<string>, line: string, groups: seq<string>)
    requires |groups| == |markers| + 1 && Interleave(groups, markers) == line
    ensures Groups(markers, line).Some?
    ensures markers != [] ==> |groups[0]| <= |Groups(markers, line).value[0]|
    decreases |markers|
  {
    if markers != [] {
      var m := markers[0];
      var j := |groups[0]|;
      var tail := Interleave(groups[1..], markers[1..]);
      assert line == groups[0] + m + tail;
      assert line[j..j + |m|] == m;
      assert line[j + |m|..] == tail;
      GroupsComplete(markers[1..], tail, groups[1..]);
      GroupsFromFinds(markers, line, |line|, j);
    }
  }

  const UserExtra: string := "User extra: "
  const ParamsMarkers: seq<string> := ["Request params: ", "Automatic filters: ", "Custom filters: "]
  const NoMatch: seq<string> := ["NOMATCH", "NOMATCH", "NOMATCH", "NOMATCH"]

  /** The text before the first line break: no `.` of the pattern matches a line break. */
  function FirstLine(s: string): string {
    match Find(s, "\n")
    case None => s
    case Some(i) => s[..i]
  }

  /** `re.match(params_pattern, extra)` with its four groups. */
  function ParamsMatch(extra: string): Option<seq<string>> {
    var line := FirstLine(extra);
    if |UserExtra| <= |line| && line[..|UserExtra|] == UserExtra then Groups(ParamsMarkers, line[|UserExtra|..])
    else None
  }

  /** The four params fields: the groups, or `NOMATCH` for all four. */
  function ParamsFields(extra: string): (f: seq<string>)
    ensures |f| == 4
  {
    match ParamsMatch(extra)
    case Some(g) => g
    case None => NoMatch
  }

  /**
   * A first line laid out as `User extra: a Request params: b Automatic
   * filters: c Custom filters: d` is matched: the four fields cut it the same
   * way, with a user extra at least as long as `a`.
   */
  lemma ParamsMatched(extra: string, groups: seq<string>)
    requires |groups| == 4 && FirstLine(extra) == UserExtra + Interleave(groups, ParamsMarkers)
    ensures ParamsMatch(extra).Some?
    ensures FirstLine(extra) == UserExtra + Interleave(ParamsFields(extra), ParamsMarkers)
    ensures |groups[0]| <= |ParamsFields(extra)[0]|
  {
    var line := FirstLine(extra);
    assert line[..|UserExtra|] == UserExtra;
    assert line[|UserExtra|..] == Interleave(groups, ParamsMarkers);
    GroupsComplete(ParamsMarkers, line[|UserExtra|..], groups);
  }

  /** A match cuts the first line into the four groups around the markers. */
  lemma ParamsMatchSound(extra: string)
    requires ParamsMatch(extra).Some?
    ensures |ParamsMatch(extra).value| == 4
    ensures FirstLine(extra) == UserExtra + Interleave(ParamsMatch(extra).value, ParamsMarkers)
  {
    var line := FirstLine(extra);
    assert line == line[..|UserExtra|] + line[|UserExtra|..];
  }

  /** The params pattern matches exactly when the first line has that layout; otherwise all four fields are `NOMATCH`. */
  lemma ParamsMatchIff(extra: string)
    ensures ParamsMatch(extra).Some?
      <==> exists g :: |g| == 4 && FirstLine(extra) == UserExtra + Interleave(g, ParamsMarkers)
    ensures ParamsMatch(extra).None? ==> ParamsFields(extra) == NoMatch
  {
    if exists g :: |g| == 4 && FirstLine(extra) == UserExtra + Interleave(g, ParamsMarkers) {
      var g :| |g| == 4 && FirstLine(extra) == UserExtra + Interleave(g, ParamsMarkers);
      ParamsMatched(extra, g);
    }
    if ParamsMatch(extra).Some? {
      ParamsMatchSound(extra);
    }
  }

  // The whole parse

  /** The extra text: after the first triple space for params, from the first `SELECT ` for recipe. */
  function Extra(log: string, parts: string): Result<string> {
    if log == "params" then
      match SplitOnce(parts, "   ")
      case None => Err(ValueError)
      case Some(p) => Ok(p.1)
    else if log == "recipe" then
      match SplitOnce(parts, "SELECT ")
      case None => Err(ValueError)
      case Some(p) => Ok(Replace("SELECT " + p.1, "QUERYEND", ""))
    else Ok("")
  }

  const ParamsKeys: set<string> := {"user_extra", "request_params", "automatic_filters", "custom_filters"}

  /** The value of `k` once the four params fields are set. */
  function ParamsLookup(row: Dict, f: seq<string>, k: string): Option<Value>
    requires |f| == 4
  {
    if k == "custom_filters" then Some(Text(f[3]))
    else if k == "automatic_filters" then Some(Text(f[2]))
    else if k == "request_params" then Some(Text(f[1]))
    else if k == "user_extra" then Some(Text(f[0]))
    else Lookup(row, k)
  }

  lemma LookupWithParams(row: Dict, f: seq<string>, k: string)
    requires |f| == 4
    ensures Lookup(WithParams(row, f), k) == ParamsLookup(row, f, k)
  {
    var r1 := Assign(row, "user_extra", Text(f[0]));
    var r2 := Assign(r1, "request_params", Text(f[1]));
    var r3 := Assign(r2, "automatic_filters", Text(f[2]));
    LookupAssign(row, "user_extra", Text(f[0]), k);
    LookupAssign(r1, "request_params", Text(f[1]), k);
    LookupAssign(r2, "automatic_filters", Text(f[2]), k);
    LookupAssign(r3, "custom_filters", Text(f[3]), k);
  }

  function WithParams(row: Dict, f: seq<string>): Dict
    requires |f| == 4
  {
    var r1 := Assign(row, "user_extra", Text(f[0]));
    var r2 := Assign(r1, "request_params", Text(f[1]));
    var r3 := Assign(r2, "automatic_filters", Text(f[2]));
    Assign(r3, "custom_filters", Text(f[3]))
  }

  /** `_parse_log_parts(data_service_log, parts)`. */
  function LogParts(log: string, parts: string, floats: FloatReading): Result<Dict> {
    match Extra(log, parts)
    case Err(e) => Err(e)
    case Ok(extra) =>
      match KvRow(Split(parts, " "), TokenEntry(floats))
      case Err(e) => Err(e)
      case Ok(row) =>
        if log == "recipe" then Ok(Assign(row, "query", Text(extra)))
        else if log == "params" then Ok(WithParams(row, ParamsFields(extra)))
        else Ok(row)
  }

  /** `_parse_log_parts` as the source writes it: the split, the token loop, then the extra fields. */
  method ParseLogParts(log: string, parts: string, floats: FloatReading) returns (r: Result<Dict>)
    ensures r == LogParts(log, parts, floats)
  {
    var extra := "";
    if log == "params" {
      var split := SplitOnce(parts, "   ");
      if split.None? {
        return Err(ValueError);
      }
      extra := split.value.1;
    } else if log == "recipe" {
      var split := SplitOnce(parts, "SELECT ");
      if split.None? {
        return Err(ValueError);
      }
      extra := Replace("SELECT " + split.value.1, "QUERYEND", "");
    }
    assert Extra(log, parts) == Ok(extra);
    var tokenRow := TokenRow(Split(parts, " "), floats);
    if tokenRow.Err? {
      return Err(tokenRow.error);
    }
    var row := tokenRow.value;
    if log == "recipe" {
      row := Assign(row, "query", Text(extra));
    } else if log == "params" {
      var f := ParamsFields(extra);
      row := Assign(row, "user_extra", Text(f[0]));
      row := Assign(row, "request_params", Text(f[1]));
      row := Assign(row, "automatic_filters", Text(f[2]));
      row := Assign(row, "custom_filters", Text(f[3]));
    }
    r := Ok(row);
  }

  /** The loop of `_parse_log_parts` over the space-separated tokens. */
  method TokenRow(tokens: seq<string>, floats: FloatReading) returns (r: Result<Dict>)
    ensures r == KvRow(tokens, TokenEntry(floats))
  {
    var row: Dict := [];
    for i := 0 to |tokens|
      invariant KvRow(tokens[..i], TokenEntry(floats)) == Ok(row)
    {
      assert tokens[..i + 1][..i] == tokens[..i];
      var entry := Entry(tokens[i], floats);
      if entry.Err? {
        KvRowErrSticks(tokens, i + 1, TokenEntry(floats));
        return Err(entry.error);
      }
      if entry.value.Some? {
        row := Assign(row, entry.value.value.0, entry.value.value.1);
      }
    }
    assert tokens[..|tokens|] == tokens;
    r := Ok(row);
  }

  /** A params log without a triple space, or a recipe log without `SELECT `, fails the unpacking. */
  lemma LogPartsUnsplit(log: string, parts: string, floats: FloatReading)
    requires (log == "params" && !Contains(parts, "   ")) || (log == "recipe" && !Contains(parts, "SELECT "))
    ensures LogParts(log, parts, floats) == Err(ValueError)
  {
  }

  /** Other logs are the token entries alone. */
  lemma LogPartsPlain(log: string, parts: string, floats: FloatReading)
    requires log != "params" && log != "recipe"
    ensures LogParts(log, parts, floats) == KvRow(Split(parts, " "), TokenEntry(floats))
  {
  }

  /**
   * A recipe log's query is `SELECT ` and everything after the first
   * `SELECT `, with `QUERYEND` removed; every other key is the tokens'.
   */
  lemma RecipeQuery(parts: string, floats: FloatReading)
    requires Contains(parts, "SELECT ") && KvRow(Split(parts, " "), TokenEntry(floats)).Ok?
    ensures var i := Find(parts, "SELECT ").value;
      && LogParts("recipe", parts, floats).Ok?
      && Lookup(LogParts("recipe", parts, floats).value, "query")
         == Some(Text(Replace("SELECT " + parts[i + 7..], "QUERYEND", "")))
    ensures forall k :: k != "query" ==> (Lookup(LogParts("recipe", parts, floats).value, k)
      == Lookup(KvRow(Split(parts, " "), TokenEntry(floats)).value, k))
  {
    var row := KvRow(Split(parts, " "), TokenEntry(floats)).value;
    var query := Text(Replace("SELECT " + parts[Find(parts, "SELECT ").value + 7..], "QUERYEND", ""));
    RecipeParts(parts, floats);
    QueryLookups(row, query);
  }

  lemma QueryLookups(row: Dict, query: Value)
    ensures Lookup(Assign(row, "query", query), "query") == Some(query)
    ensures forall k :: k != "query" ==> Lookup(Assign(row, "query", query), k) == Lookup(row, k)
  {
    forall k ensures Lookup(Assign(row, "query", query), k) == if k == "query" then Some(query) else Lookup(row, k) {
      LookupAssign(row, "query", query, k);
    }
  }

  lemma RecipeParts(parts: string, floats: FloatReading)
    requires Contains(parts, "SELECT ") && KvRow(Split(parts, " "), TokenEntry(floats)).Ok?
    ensures LogParts("recipe", parts, floats)
      == Ok(Assign(KvRow(Split(parts, " "), TokenEntry(floats)).value, "query",
                   Text(Replace("SELECT " + parts[Find(parts, "SELECT ").value + 7..], "QUERYEND", ""))))
  {
  }

  /**
   * A params log's four fields are the params pattern's groups in the text
   * after the first triple space (or `NOMATCH`); every other key is the
   * tokens'.
   */
  lemma ParamsRow(parts: string, floats: FloatReading)
    requires Contains(parts, "   ") && KvRow(Split(parts, " "), TokenEntry(floats)).Ok?
    ensures var f := ParamsFields(parts[Find(parts, "   ").value + 3..]);
      var row := LogParts("params", parts, floats);
      && row.Ok?
      && Lookup(row.value, "user_extra") == Some(Text(f[0]))
      && Lookup(row.value, "request_params") == Some(Text(f[1]))
      && Lookup(row.value, "automatic_filters") == Some(Text(f[2]))
      && Lookup(row.value, "custom_filters") == Some(Text(f[3]))
    ensures forall k :: k !in ParamsKeys ==>
      (Lookup(LogParts("params", parts, floats).value, k) == Lookup(KvRow(Split(parts, " "), TokenEntry(floats)).value, k))
  {
    var row := KvRow(Split(parts, " "), TokenEntry(floats)).value;
    var f := ParamsFields(parts[Find(parts, "   ").value + 3..]);
    ParamsParts(parts, floats);
    ParamsLookups(row, f);
  }

  /** The four fields once set, and every other key as before. */
  lemma ParamsLookups(row: Dict, f: seq<string>)
    requires |f| == 4
    ensures Lookup(WithParams(row, f), "user_extra") == Some(Text(f[0]))
    ensures Lookup(WithParams(row, f), "request_params") == Some(Text(f[1]))
    ensures Lookup(WithParams(row, f), "automatic_filters") == Some(Text(f[2]))
    ensures Lookup(WithParams(row, f), "custom_filters") == Some(Text(f[3]))
    ensures forall k :: k !in ParamsKeys ==> Lookup(WithParams(row, f), k) == Lookup(row, k)
  {
    forall k ensures Lookup(WithParams(row, f), k) == ParamsLookup(row, f, k) {
      LookupWithParams(row, f, k);
    }
  }

  lemma ParamsParts(parts: string, floats: FloatReading)
    requires Contains(parts, "   ") && KvRow(Split(parts, " "), TokenEntry(floats)).Ok?
    ensures LogParts("params", parts, floats)
      == Ok(WithParams(KvRow(Split(parts, " "), TokenEntry(floats)).value, ParamsFields(parts[Find(parts, "   ").value + 3..])))
  {
  }
}

/**
 * `JuiceboxLoggingSearcher.dataset` and the result loop of `search` in
 * juice_log_searcher.py. The Elasticsearch query is replaced by the hits it
 * yields, in order; the user's service and user patterns by what
 * `re.match` answers for them.
 */
module LogSearch {
  import opened Wrappers
  import opened Strings
  import opened LogParse
  import Sorting

  // Rows with distinct keys, and `dict.update`

  /** The keys of a dict, in order. */
  function Keys(d: Dict): (r: seq<string>)
    ensures forall k :: k in r <==> Lookup(d, k).Some?
  {
    if d == [] then [] else [d[0].0] + Keys(d[1..])
  }

  /** No key occurs twice, as in any Python dict. */
  predicate DistinctKeys(d: Dict) {
    d == [] || (Lookup(d[1..], d[0].0).None? && DistinctKeys(d[1..]))
  }

  lemma {:induction false} AssignDistinct(d: Dict, k: string, v: Value)
    requires DistinctKeys(d)
    ensures DistinctKeys(Assign(d, k, v))
    decreases |d|
  {
    if d != [] && d[0].0 != k {
      var rest := Assign(d[1..], k, v);
      AssignDistinct(d[1..], k, v);
      LookupAssign(d[1..], k, v, d[0].0);
      assert ([d[0]] + rest)[1..] == rest;
    } else if d != [] {
      assert ([(k, v)] + d[1..])[1..] == d[1..];
    }
  }

  /** `d.update(e)`: every entry of `e` assigned in order. */
  function Update(d: Dict, e: Dict): Dict
    decreases |e|
  {
    if e == [] then d else Update(Assign(d, e[0].0, e[0].1), e[1..])
  }

  /** After `d.update(e)`, a key of `e` has `e`'s value and any other key keeps `d`'s. */
  lemma {:induction false} LookupUpdate(d: Dict, e: Dict, k: string)
    requires DistinctKeys(e)
    ensures Lookup(Update(d, e), k) == if Lookup(e, k).Some? then Lookup(e, k) else Lookup(d, k)
    decreases |e|
  {
    if e != [] {
      var d1 := Assign(d, e[0].0, e[0].1);
      LookupUpdate(d1, e[1..], k);
      LookupAssign(d, e[0].0, e[0].1, k);
    }
  }

  lemma {:induction false} KvRowDistinct(tokens: seq<string>, entry: TokenReading)
    requires KvRow(tokens, entry).Ok?
    ensures DistinctKeys(KvRow(tokens, entry).value)
    decreases |tokens|
  {
    if tokens != [] {
      var n := |tokens| - 1;
      KvRowDistinct(tokens[..n], entry);
      var e := entry(tokens[n]);
      if e.value.Some? {
        AssignDistinct(KvRow(tokens[..n], entry).value, e.value.value.0, e.value.value.1);
      }
    }
  }

  /** The rows `_parse_log_parts` returns have distinct keys. */
  lemma LogPartsDistinct(log: string, parts: string, floats: FloatReading)
    requires LogParts(log, parts, floats).Ok?
    ensures DistinctKeys(LogParts(log, parts, floats).value)
  {
    var entries := KvRow(Split(parts, " "), TokenEntry(floats));
    KvRowDistinct(Split(parts, " "), TokenEntry(floats));
    var row := entries.value;
    var extra := Extra(log, parts).value;
    if log == "recipe" {
      AssignDistinct(row, "query", Text(extra));
    } else if log == "params" {
      var f := ParamsFields(extra);
      var r1 := Assign(row, "user_extra", Text(f[0]));
      var r2 := Assign(r1, "request_params", Text(f[1]));
      var r3 := Assign(r2, "automatic_filters", Text(f[2]));
      AssignDistinct(row, "user_extra", Text(f[0]));
      AssignDistinct(r1, "request_params", Text(f[1]));
      AssignDistinct(r2, "automatic_filters", Text(f[2]));
      AssignDistinct(r3, "custom_filters", Text(f[3]));
    }
  }

  // dataset

  /** The keys `dataset` pulls to the front, in this order. */
  const InitialKeys: seq<string> := ["timestamp", "service_id", "service", "user", "environment"]

  /** A key's place among the initial keys; 5 for every other key. */
  function Rank(k: string): nat {
    if k == "timestamp" then 0
    else if k == "service_id" then 1
    else if k == "service" then 2
    else if k == "user" then 3
    else if k == "environment" then 4
    else 5
  }

  lemma RankInitial(k: string)
    ensures k in InitialKeys <==> Rank(k) < 5
  {
  }

  /** The header order: initial keys by their place, before every other key, and those in code-point order. */
  predicate HeaderLe(a: string, b: string) {
    if Rank(a) < 5 || Rank(b) < 5 then Rank(a) <= Rank(b) else StrLe(a, b)
  }

  /** The elements that satisfy `p`, in order: a list comprehension with an `if`. */
  function Filter(s: seq<string>, p: string -> bool): (r: seq<string>)
    ensures forall x :: x in r <==> x in s && p(x)
  {
    if s == [] then []
    else
      var n := |s| - 1;
      assert s == s[..n] + [s[n]];
      Filter(s[..n], p) + (if p(s[n]) then [s[n]] else [])
  }

  /** Filtering keeps an order. */
  lemma {:induction false} FilterSorted(s: seq<string>, p: string -> bool, le: (string, string) -> bool)
    requires Sorting.Sorted(s, le)
    ensures Sorting.Sorted(Filter(s, p), le)
  {
    if s != [] {
      var n := |s| - 1;
      var init := Filter(s[..n], p);
      assert Sorting.Sorted(s[..n], le) by {
        forall a, b | 0 <= a < b < n ensures le(s[..n][a], s[..n][b]) {
          assert s[..n][a] == s[a] && s[..n][b] == s[b];
        }
      }
      FilterSorted(s[..n], p, le);
      if p(s[n]) {
        var r := init + [s[n]];
        forall a, b | 0 <= a < b < |r| ensures le(r[a], r[b]) {
          if b == |init| {
            assert r[a] == init[a];
            assert init[a] in s[..n];
            var c :| 0 <= c < n && s[..n][c] == init[a];
            assert s[c] == init[a];
          } else {
            assert r[a] == init[a] && r[b] == init[b];
          }
        }
      }
    }
  }

  lemma StrLeIsTotalPreorder()
    ensures Sorting.TotalPreorder(StrLe)
  {
    forall a, b ensures StrLe(a, b) || StrLe(b, a) {
      StrLeTotal(a, b);
    }
    forall a, b, c | StrLe(a, b) && StrLe(b, c) ensures StrLe(a, c) {
      StrLeTransitive(a, b, c);
    }
  }

  function IsFirstKey(first: Dict): string -> bool {
    k => k in Keys(first)
  }

  function NotInitial(k: string): bool {
    k !in InitialKeys
  }

  /** `dataset.headers`: the first row's initial keys in their fixed order, then its other keys sorted. */
  function Headers(first: Dict): seq<string> {
    Filter(InitialKeys, IsFirstKey(first)) + Sorting.Sort(Filter(Keys(first), NotInitial), StrLe)
  }

  /** The headers are exactly the first row's keys. */
  lemma HeadersMembers(first: Dict, k: string)
    ensures k in Headers(first) <==> Lookup(first, k).Some?
  {
    var rest := Filter(Keys(first), NotInitial);
    var sorted := Sorting.Sort(rest, StrLe);
    assert k in sorted <==> k in multiset(sorted);
    assert k in rest <==> k in multiset(rest);
  }

  lemma InitialKeysSorted()
    ensures Sorting.Sorted(InitialKeys, HeaderLe)
  {
    forall a, b | 0 <= a < b < |InitialKeys| ensures HeaderLe(InitialKeys[a], InitialKeys[b]) {
      assert Rank(InitialKeys[a]) == a && Rank(InitialKeys[b]) == b;
    }
  }

  /** Initial keys in order, then other keys in code-point order, are in header order. */
  lemma ConcatSorted(front: seq<string>, back: seq<string>)
    requires forall k :: k in front ==> Rank(k) < 5
    requires forall k :: k in back ==> Rank(k) == 5
    requires Sorting.Sorted(front, HeaderLe) && Sorting.Sorted(back, StrLe)
    ensures Sorting.Sorted(front + back, HeaderLe)
  {
    var h := front + back;
    forall a, b | 0 <= a < b < |h| ensures HeaderLe(h[a], h[b]) {
      if b < |front| {
        assert h[a] == front[a] && h[b] == front[b];
      } else if a >= |front| {
        assert h[a] == back[a - |front|] && h[b] == back[b - |front|];
        assert h[a] in back && h[b] in back;
      } else {
        assert h[a] == front[a] && h[b] == back[b - |front|];
        assert h[a] in front && h[b] in back;
      }
    }
  }

  /** The sorted tail of the headers holds no initial key. */
  lemma BackRanks(rest: seq<string>)
    requires forall k :: k in rest ==> NotInitial(k)
    ensures forall k :: k in Sorting.Sort(rest, StrLe) ==> Rank(k) == 5
  {
    var back := Sorting.Sort(rest, StrLe);
    forall k | k in back ensures Rank(k) == 5 {
      assert k in multiset(back);
      assert k in rest;
      RankInitial(k);
    }
  }

  /** The front of the headers holds initial keys only, in their fixed order. */
  lemma FrontSorted(front: seq<string>)
    requires forall k :: k in front ==> k in InitialKeys
    ensures forall k :: k in front ==> Rank(k) < 5
  {
    forall k | k in front ensures Rank(k) < 5 {
      RankInitial(k);
    }
  }

  /** The headers are in header order. */
  lemma HeadersSorted(first: Dict)
    ensures Sorting.Sorted(Headers(first), HeaderLe)
  {
    var front := Filter(InitialKeys, IsFirstKey(first));
    var rest := Filter(Keys(first), NotInitial);
    InitialKeysSorted();
    FilterSorted(InitialKeys, IsFirstKey(first), HeaderLe);
    StrLeIsTotalPreorder();
    Sorting.SortSorted(rest, StrLe);
    BackRanks(rest);
    FrontSorted(front);
    ConcatSorted(front, Sorting.Sort(rest, StrLe));
  }

  /**
   * `dataset()` over the rows `search` returned: no headers and no rows for
   * no data; otherwise the first row's headers, and for every row its value
   * under each header, `None` where the row lacks it.
   */
  method Dataset(data: seq<Dict>) returns (headers: seq<string>, table: seq<seq<Option<Value>>>)
    ensures data == [] ==> headers == [] && table == []
    ensures data != [] ==> headers == Headers(data[0])
    ensures |table| == |data|
    ensures forall i :: 0 <= i < |data| ==> |table[i]| == |headers|
    ensures forall i, j :: 0 <= i < |data| && 0 <= j < |headers| ==> table[i][j] == Lookup(data[i], headers[j])
  {
    headers, table := [], [];
    if data != [] {
      headers := Headers(data[0]);
      for i := 0 to |data|
        invariant |table| == i
        invariant forall a :: 0 <= a < i ==> |table[a]| == |headers|
        invariant forall a, j :: 0 <= a < i && 0 <= j < |headers| ==> table[a][j] == Lookup(data[a], headers[j])
      {
        var row := data[i];
        var values := seq(|headers|, j requires 0 <= j < |headers| => Lookup(row, headers[j]));
        table := table + [values];
      }
    }
  }

  // The prefix pattern

  predicate IsUpper(c: char) {
    'A' <= c <= 'Z'
  }

  /** `\w` on ASCII text. */
  predicate IsWordChar(c: char) {
    ('a' <= c <= 'z') || ('A' <= c <= 'Z') || ('0' <= c <= '9') || c == '_'
  }

  /** The longest prefix of `s` whose characters satisfy `p`: a greedy `[...]*`. */
  function Run(s: string, p: char -> bool): (r: string)
    ensures |r| <= |s| && r == s[..|r|]
    ensures forall i :: 0 <= i < |r| ==> p(r[i])
    ensures |r| == |s| || !p(s[|r|])
  {
    if s != [] && p(s[0]) then
      var rest := Run(s[1..], p);
      assert s == [s[0]] + s[1..];
      [s[0]] + rest
    else ""
  }

  /** A run of `p` followed by a character outside `p` is what `Run` takes. */
  lemma {:induction false} RunOf(a: string, b: string, p: char -> bool)
    requires forall i :: 0 <= i < |a| ==> p(a[i])
    requires b == [] || !p(b[0])
    ensures Run(a + b, p) == a
    decreases |a|
  {
    if a != [] {
      assert (a + b)[1..] == a[1..] + b;
      RunOf(a[1..], b, p);
    } else {
      assert a + b == b;
    }
  }

  const LevelOpen: string := " ["
  const LevelClose: string := "] dataservices"

  predicate UpperRun(s: string) {
    forall i :: 0 <= i < |s| ==> IsUpper(s[i])
  }

  predicate WordRun(s: string) {
    forall i :: 0 <= i < |s| ==> IsWordChar(s[i])
  }

  /** `\]\ dataservices.(\w+)` at the start of `s`: the log name. */
  function NamePart(s: string): Option<string> {
    if |s| >= 15 && s[..14] == LevelClose && s[14] != '\n' then
      var log := Run(s[15..], IsWordChar);
      if log != "" then Some(log) else None
    else None
  }

  /** `([A-Z]*)` and the rest at the start of `s`: the level and the log name. */
  function LevelPart(s: string): Option<(string, string)> {
    var level := Run(s, IsUpper);
    match NamePart(s[|level|..])
    case None => None
    case Some(log) => Some((level, log))
  }

  /** `\ \[([A-Z]*)\]\ dataservices.(\w+)` at index `i`: the level and the log name. */
  function PrefixAt(p: string, i: nat): Option<(string, string)>
    requires i <= |p|
  {
    var s := p[i..];
    if |s| >= 2 && s[..2] == LevelOpen then LevelPart(s[2..]) else None
  }

  /** The largest `k <= i` at which `m` holds: a greedy group tried at length `i`, then ever shorter. */
  function Longest(i: nat, m: nat -> bool): (r: Option<nat>)
    ensures r.Some? ==> r.value <= i && m(r.value)
    decreases i
  {
    if m(i) then Some(i)
    else if i == 0 then None
    else Longest(i - 1, m)
  }

  /** Any length at which `m` holds bounds the longest from below. */
  lemma {:induction false} LongestFinds(i: nat, m: nat -> bool, j: nat)
    requires j <= i && m(j)
    ensures Longest(i, m).Some? && j <= Longest(i, m).value
    decreases i
  {
    if !m(i) {
      LongestFinds(i - 1, m, j);
    }
  }

  /** The pattern matches with a timestamp group of length `k`; `.` matches no line break. */
  function MatchesAt(p: string): nat -> bool {
    (k: nat) => k <= |p| && '\n' !in p[..k] && PrefixAt(p, k).Some?
  }

  /** `re.match(prefix_pattern, prefix).groups()`: timestamp, level, log. */
  function PrefixGroups(p: string): Option<(string, string, string)> {
    match Longest(|p|, MatchesAt(p))
    case None => None
    case Some(k) =>
      var here := PrefixAt(p, k).value;
      Some((p[..k], here.0, here.1))
  }

  /** What follows the timestamp, with `c` the character the pattern's `.` matches. */
  function Tail(level: string, c: char, log: string, rest: string): string {
    LevelOpen + (level + (LevelClose + ([c] + (log + rest))))
  }

  /** The prefix laid out as the pattern says. */
  predicate PrefixLayout(p: string, ts: string, level: string, c: char, log: string, rest: string) {
    && p == ts + Tail(level, c, log, rest)
    && '\n' !in ts && c != '\n' && log != ""
    && UpperRun(level) && WordRun(log)
  }

  lemma NamePartSound(s: string) returns (c: char, rest: string)
    requires NamePart(s).Some?
    ensures var log := NamePart(s).value;
      && s == LevelClose + ([c] + (log + rest))
      && c != '\n' && log != "" && WordRun(log)
      && (rest == [] || !IsWordChar(rest[0]))
  {
    var log := NamePart(s).value;
    c := s[14];
    rest := s[15..][|log|..];
    assert s[15..] == log + rest;
    assert s == s[..14] + ([s[14]] + s[15..]);
  }

  lemma NamePartOf(c: char, log: string, rest: string)
    requires c != '\n' && log != "" && WordRun(log)
    ensures NamePart(LevelClose + ([c] + (log + rest))).Some?
  {
    var s := LevelClose + ([c] + (log + rest));
    assert s[..14] == LevelClose;
    assert s[14] == c;
    assert s[15..] == log + rest;
    assert IsWordChar((log + rest)[0]);
  }

  lemma LevelPartSound(s: string) returns (c: char, rest: string)
    requires LevelPart(s).Some?
    ensures var (level, log) := LevelPart(s).value;
      && s == level + (LevelClose + ([c] + (log + rest)))
      && c != '\n' && log != "" && UpperRun(level) && WordRun(log)
      && (rest == [] || !IsWordChar(rest[0]))
  {
    var level := Run(s, IsUpper);
    var after := s[|level|..];
    assert LevelPart(s).value == (level, NamePart(after).value);
    c, rest := NamePartSound(after);
    TakeDrop(s, |level|);
  }

  lemma LevelPartOf(level: string, c: char, log: string, rest: string)
    requires c != '\n' && log != "" && UpperRun(level) && WordRun(log)
    ensures LevelPart(level + (LevelClose + ([c] + (log + rest)))).Some?
  {
    var after := LevelClose + ([c] + (log + rest));
    assert after[0] == ']';
    RunOf(level, after, IsUpper);
    assert (level + after)[|level|..] == after;
    NamePartOf(c, log, rest);
  }

  lemma TakeDrop(p: string, i: nat)
    requires i <= |p|
    ensures p == p[..i] + p[i..]
  {
  }

  lemma PrefixAtSound(p: string, i: nat) returns (c: char, rest: string)
    requires i <= |p| && '\n' !in p[..i] && PrefixAt(p, i).Some?
    ensures var (level, log) := PrefixAt(p, i).value;
      && PrefixLayout(p, p[..i], level, c, log, rest)
      && (rest == [] || !IsWordChar(rest[0]))
  {
    var s := p[i..];
    assert PrefixAt(p, i) == LevelPart(s[2..]);
    c, rest := LevelPartSound(s[2..]);
    var (level, log) := LevelPart(s[2..]).value;
    assert s == LevelOpen + s[2..];
    assert Tail(level, c, log, rest) == LevelOpen + s[2..];
    TakeDrop(p, i);
  }

  /**
   * A match cuts the prefix as the pattern says, with the log name running
   * as far as word characters go.
   */
  lemma PrefixSound(p: string) returns (c: char, rest: string)
    requires PrefixGroups(p).Some?
    ensures var (ts, level, log) := PrefixGroups(p).value;
      && PrefixLayout(p, ts, level, c, log, rest)
      && (rest == [] || !IsWordChar(rest[0]))
  {
    var k := Longest(|p|, MatchesAt(p)).value;
    assert MatchesAt(p)(k);
    c, rest := PrefixAtSound(p, k);
  }

  lemma PrefixAtLayout(p: string, ts: string, level: string, c: char, log: string, rest: string)
    requires PrefixLayout(p, ts, level, c, log, rest)
    ensures |ts| <= |p| && p[..|ts|] == ts && PrefixAt(p, |ts|).Some?
  {
    var t := Tail(level, c, log, rest);
    assert p[|ts|..] == t;
    assert t[..2] == LevelOpen;
    assert t[2..] == level + (LevelClose + ([c] + (log + rest)));
    LevelPartOf(level, c, log, rest);
  }

  /**
   * Every prefix laid out as the pattern says is matched, with a timestamp
   * at least as long as that layout's: the greedy `(.*)`.
   */
  lemma PrefixComplete(p: string, ts: string, level: string, c: char, log: string, rest: string)
    requires PrefixLayout(p, ts, level, c, log, rest)
    ensures PrefixGroups(p).Some? && |ts| <= |PrefixGroups(p).value.0|
  {
    PrefixAtLayout(p, ts, level, c, log, rest);
    assert MatchesAt(p)(|ts|);
    LongestFinds(|p|, MatchesAt(p), |ts|);
  }

  // search

  /** A search hit: `beat.hostname`, `environment` and `message`. */
  datatype Hit = Hit(hostname: string, environment: string, message: string)

  /** What `re.match(pattern, text)` answers, for a pattern the caller gives. */
  type Pattern = string -> bool

  /** `hstm-prod` keeps hits from `prod` hosts and `hstm-qa` from `staging` hosts. */
  predicate Skipped(env: string, hit: Hit) {
    (env == "hstm-prod" && !Contains(hit.hostname, "prod"))
    || (env == "hstm-qa" && !Contains(hit.hostname, "staging"))
  }

  /** The fixed part of a row: timestamp, environment and the log name. */
  function BaseRow(ts: string, environment: string, log: string): Dict {
    [("timestamp", Text(ts)), ("environment", Text(environment)), ("data_service_log", Text(log))]
  }

  /** The row of one hit: split at the first `": "`, match the prefix, parse the rest. */
  function HitRow(hit: Hit, floats: FloatReading): Result<Dict> {
    match SplitOnce(hit.message, ": ")
    case None => Err(ValueError)
    case Some(split) =>
      match PrefixGroups(split.0)
      case None => Err(AttributeError)
      case Some(groups) =>
        match LogParts(groups.2, split.1, floats)
        case Err(e) => Err(e)
        case Ok(fields) => Ok(Update(BaseRow(groups.0, hit.environment, groups.2), fields))
  }

  /**
   * A hit's row holds what its log text gives, and the timestamp,
   * environment and log name wherever the log text does not set them.
   */
  lemma HitRowFields(hit: Hit, floats: FloatReading, prefix: string, parts: string, k: string)
    requires SplitOnce(hit.message, ": ") == Some((prefix, parts)) && PrefixGroups(prefix).Some?
    requires var log := PrefixGroups(prefix).value.2; LogParts(log, parts, floats).Ok?
    ensures var (ts, _, log) := PrefixGroups(prefix).value;
      var fields := LogParts(log, parts, floats).value;
      && HitRow(hit, floats).Ok?
      && Lookup(HitRow(hit, floats).value, k)
         == if Lookup(fields, k).Some? then Lookup(fields, k) else Lookup(BaseRow(ts, hit.environment, log), k)
  {
    var (ts, _, log) := PrefixGroups(prefix).value;
    LogPartsDistinct(log, parts, floats);
    LookupUpdate(BaseRow(ts, hit.environment, log), LogParts(log, parts, floats).value, k);
  }

  /** `row.get(k, '')` where `re.match` needs a string: anything else raises. */
  function TextField(row: Dict, k: string): Result<string> {
    match Lookup(row, k)
    case None => Ok("")
    case Some(Text(s)) => Ok(s)
    case Some(_) => Err(TypeError)
  }

  /** The service pattern, then (only if it matched) the user pattern. */
  function Selected(row: Dict, services: Pattern, users: Pattern): Result<bool> {
    match TextField(row, "service")
    case Err(e) => Err(e)
    case Ok(service) =>
      if !services(service) then Ok(false)
      else
        match TextField(row, "user")
        case Err(e) => Err(e)
        case Ok(user) => Ok(users(user))
  }

  function Prepend(row: Dict, r: Result<seq<Dict>>): Result<seq<Dict>> {
    match r
    case Err(e) => Err(e)
    case Ok(rows) => Ok([row] + rows)
  }

  /** The rows collected so far, followed by those still to come. */
  function Then(rows: seq<Dict>, r: Result<seq<Dict>>): Result<seq<Dict>> {
    match r
    case Err(e) => Err(e)
    case Ok(more) => Ok(rows + more)
  }

  lemma ThenPrepend(rows: seq<Dict>, row: Dict, r: Result<seq<Dict>>)
    ensures Then(rows, Prepend(row, r)) == Then(rows + [row], r)
  {
    if r.Ok? {
      assert rows + ([row] + r.value) == rows + [row] + r.value;
    }
  }

  /** The search parameters the loop reads. */
  datatype Query = Query(env: string, limit: int, services: Pattern, users: Pattern, floats: FloatReading)

  /** The loop's view of a query: the environment, the limit, how a hit becomes a row, and which rows it keeps. */
  datatype Loop = Loop(env: string, limit: int, rowOf: Hit -> Result<Dict>, keep: Dict -> Result<bool>)

  function LoopOf(q: Query): Loop {
    Loop(q.env, q.limit, hit => HitRow(hit, q.floats), row => Selected(row, q.services, q.users))
  }

  /** The result loop from the `i`-th hit on, with `cnt` rows kept so far. */
  function ScanFrom(l: Loop, hits: seq<Hit>, i: nat, cnt: nat): Result<seq<Dict>>
    requires i <= |hits|
    decreases |hits| - i
  {
    if i == |hits| then Ok([])
    else if l.limit != 0 && cnt >= l.limit then Ok([])
    else if Skipped(l.env, hits[i]) then ScanFrom(l, hits, i + 1, cnt)
    else
      match l.rowOf(hits[i])
      case Err(e) => Err(e)
      case Ok(row) =>
        match l.keep(row)
        case Err(e) => Err(e)
        case Ok(keep) =>
          if keep then Prepend(row, ScanFrom(l, hits, i + 1, cnt + 1))
          else ScanFrom(l, hits, i + 1, cnt)
  }

  const DataServiceLogs: set<string> := {"recipe", "performance", "params"}

  /** `search(...)` from the assertion on the log name on. */
  function SearchResult(q: Query, log: string, hits: seq<Hit>): Result<seq<Dict>> {
    if log !in DataServiceLogs then Err(AssertionError) else ScanFrom(LoopOf(q), hits, 0, 0)
  }

  /** The body of the loop for one hit that is not skipped: its row, or the exception it raises. */
  method ReadHit(hit: Hit, floats: FloatReading) returns (r: Result<Dict>)
    ensures r == HitRow(hit, floats)
  {
    var split := SplitOnce(hit.message, ": ");
    if split.None? {
      return Err(ValueError);
    }
    var groups := PrefixGroups(split.value.0);
    if groups.None? {
      return Err(AttributeError);
    }
    var (ts, _, name) := groups.value;
    var fields := ParseLogParts(name, split.value.1, floats);
    if fields.Err? {
      return Err(fields.error);
    }
    r := Ok(Update(BaseRow(ts, hit.environment, name), fields.value));
  }

  /** The loop of `search` as the source writes it: a counter, `break` and `continue`. */
  method Search(q: Query, log: string, hits: seq<Hit>) returns (r: Result<seq<Dict>>)
    ensures r == SearchResult(q, log, hits)
  {
    if log !in DataServiceLogs {
      return Err(AssertionError);
    }
    ghost var l := LoopOf(q);
    var results: seq<Dict> := [];
    var cnt := 0;
    var i := 0;
    assert Then([], ScanFrom(l, hits, 0, 0)) == ScanFrom(l, hits, 0, 0) by {
      if ScanFrom(l, hits, 0, 0).Ok? {
        assert [] + ScanFrom(l, hits, 0, 0).value == ScanFrom(l, hits, 0, 0).value;
      }
    }
    while i < |hits|
      invariant i <= |hits| && cnt == |results|
      invariant ScanFrom(l, hits, 0, 0) == Then(results, ScanFrom(l, hits, i, cnt))
      decreases |hits| - i
    {
      if q.limit != 0 && cnt >= q.limit {
        break;
      }
      var hit := hits[i];
      if Skipped(q.env, hit) {
        i := i + 1;
        continue;
      }
      var read := ReadHit(hit, q.floats);
      if read.Err? {
        return Err(read.error);
      }
      var row := read.value;
      var keep := Selected(row, q.services, q.users);
      assert l.rowOf(hit) == read && l.keep(row) == keep;
      if keep.Err? {
        return Err(keep.error);
      }
      if keep.value {
        ThenPrepend(results, row, ScanFrom(l, hits, i + 1, cnt + 1));
        cnt := cnt + 1;
        results := results + [row];
      }
      i := i + 1;
    }
    assert results + [] == results;
    r := Ok(results);
  }

  /** With a positive limit the loop keeps at most `limit - cnt` more rows. */
  lemma {:induction false} ScanBound(l: Loop, hits: seq<Hit>, i: nat, cnt: nat)
    requires i <= |hits| && l.limit > 0 && cnt <= l.limit
    ensures ScanFrom(l, hits, i, cnt).Ok? ==> |ScanFrom(l, hits, i, cnt).value| <= l.limit - cnt
    decreases |hits| - i
  {
    if i < |hits| && cnt < l.limit {
      ScanBound(l, hits, i + 1, cnt);
      ScanBound(l, hits, i + 1, cnt + 1);
    }
  }

  /**
   * Every row the loop keeps is the row of a hit that the environment does
   * not skip and that the patterns select; `j` names that hit.
   */
  lemma {:induction false} ScanOrigin(l: Loop, hits: seq<Hit>, i: nat, cnt: nat, k: nat) returns (j: nat)
    requires i <= |hits| && ScanFrom(l, hits, i, cnt).Ok? && k < |ScanFrom(l, hits, i, cnt).value|
    ensures i <= j < |hits| && !Skipped(l.env, hits[j])
    ensures l.rowOf(hits[j]) == Ok(ScanFrom(l, hits, i, cnt).value[k])
    ensures l.keep(ScanFrom(l, hits, i, cnt).value[k]) == Ok(true)
    decreases |hits| - i
  {
    if Skipped(l.env, hits[i]) {
      j := ScanOrigin(l, hits, i + 1, cnt, k);
    } else {
      var row := l.rowOf(hits[i]).value;
      if !l.keep(row).value {
        j := ScanOrigin(l, hits, i + 1, cnt, k);
      } else if k == 0 {
        j := i;
      } else {
        j := ScanOrigin(l, hits, i + 1, cnt + 1, k - 1);
      }
    }
  }

  /** Without a limit every hit that is not skipped and whose row is kept has that row in the result. */
  lemma {:induction false} ScanComplete(l: Loop, hits: seq<Hit>, i: nat, cnt: nat, j: nat)
    requires l.limit == 0 && i <= j < |hits| && ScanFrom(l, hits, i, cnt).Ok?
    requires !Skipped(l.env, hits[j]) && l.rowOf(hits[j]).Ok?
    requires l.keep(l.rowOf(hits[j]).value) == Ok(true)
    ensures l.rowOf(hits[j]).value in ScanFrom(l, hits, i, cnt).value
    decreases |hits| - i
  {
    if i < j {
      if Skipped(l.env, hits[i]) {
        ScanComplete(l, hits, i + 1, cnt, j);
      } else if l.keep(l.rowOf(hits[i]).value).value {
        ScanComplete(l, hits, i + 1, cnt + 1, j);
      } else {
        ScanComplete(l, hits, i + 1, cnt, j);
      }
    }
  }

  /** `search` rejects a log name other than recipe, performance and params before anything else. */
  lemma SearchRejects(q: Query, log: string, hits: seq<Hit>)
    requires log !in DataServiceLogs
    ensures SearchResult(q, log, hits) == Err(AssertionError)
  {
  }

  /** With a positive limit `search` returns at most `limit` rows. */
  lemma SearchBound(q: Query, log: string, hits: seq<Hit>)
    requires q.limit > 0 && SearchResult(q, log, hits).Ok?
    ensures |SearchResult(q, log, hits).value| <= q.limit
  {
    ScanBound(LoopOf(q), hits, 0, 0);
  }

  /**
   * Every row of `search` is the row of one of its hits, selected by both
   * patterns; in hstm-prod that hit's host is a `prod` one, in hstm-qa a
   * `staging` one.
   */
  lemma SearchOrigin(q: Query, log: string, hits: seq<Hit>, k: nat) returns (j: nat)
    requires SearchResult(q, log, hits).Ok? && k < |SearchResult(q, log, hits).value|
    ensures j < |hits| && HitRow(hits[j], q.floats) == Ok(SearchResult(q, log, hits).value[k])
    ensures Selected(SearchResult(q, log, hits).value[k], q.services, q.users) == Ok(true)
    ensures q.env == "hstm-prod" ==> Contains(hits[j].hostname, "prod")
    ensures q.env == "hstm-qa" ==> Contains(hits[j].hostname, "staging")
  {
    j := ScanOrigin(LoopOf(q), hits, 0, 0, k);
  }

  /** Without a limit `search` returns the row of every hit it does not skip and both patterns select. */
  lemma SearchComplete(q: Query, log: string, hits: seq<Hit>, j: nat)
    requires q.limit == 0 && j < |hits| && SearchResult(q, log, hits).Ok?
    requires !Skipped(q.env, hits[j]) && HitRow(hits[j], q.floats).Ok?
    requires Selected(HitRow(hits[j], q.floats).value, q.services, q.users) == Ok(true)
    ensures HitRow(hits[j], q.floats).value in SearchResult(q, log, hits).value
  {
    ScanComplete(LoopOf(q), hits, 0, 0, j);
  }
}

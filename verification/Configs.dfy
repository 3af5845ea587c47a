/**
  Path-specific options (src/config.cpp): rules by path prefix, of which the longest one that covers
  a path counts, and `scope_key`, which abbreviates a configuration by where each option comes from.
*/
module Configs {
  import opened Numbers

  type OptionMap = map<string, string>

  datatype Rule = Rule(prefix: string, values: OptionMap)

  datatype Snapshot = Snapshot(paths: seq<Rule>, explicits: OptionMap, environment: OptionMap)

  // ------------------------------------------------------------------ names and paths

  function UpperChar(c: char): char { if 'a' <= c <= 'z' then (c as int - 32) as char else c }

  function Uppercase(s: string): string { seq(|s|, i requires 0 <= i < |s| => UpperChar(s[i])) }

  function CanonicalName(name: string): string
  {
    var upper := Uppercase(name);
    if upper == "AWS_ENDPOINT_URL" || upper == "AWS_ENDPOINT_URL_S3" then "AWS_S3_ENDPOINT"
    else if upper == "AWS_DEFAULT_PROFILE" then "AWS_PROFILE"
    else if upper == "AWS_DEFAULT_REGION" then "AWS_REGION"
    else if upper == "KARU_MAX_RETRIES" then "KARU_MAX_ATTEMPTS"
    else if upper == "HUGGING_FACE_HUB_TOKEN" then "HF_TOKEN"
    else if upper == "CURL_CA_BUNDLE" || upper == "SSL_CERT_FILE" then "KARU_HTTP_CA_BUNDLE"
    else if upper == "SOURCE_PROXY_URL" then "SOURCE_ENDPOINT"
    else upper
  }

  function CanonicalPath(path: string): string
  {
    if "s3://" <= path then "/vsis3/" + path[5..]
    else if "gs://" <= path then "/vsigs/" + path[5..]
    else if "az://" <= path then "/vsiaz/" + path[5..]
    else if "abfs://" <= path then "/vsiadls/" + path[7..]
    else if "hf://" <= path then "/vsihf/" + path[5..]
    else if "source://" <= path then "/vsisource/" + path[9..]
    else path
  }

  predicate IsRooted(path: string) { path != "" && path[0] == '/' }

  predicate EndsWithSlash(s: string) { s != "" && s[|s| - 1] == '/' }

  /** `prefix` covers `path` and ends at a segment boundary of it. */
  predicate PrefixMatches(path: string, prefix: string)
  {
    prefix <= path && (|path| == |prefix| || EndsWithSlash(prefix) || path[|prefix|] == '/')
  }

  // ------------------------------------------------------------------ what a configuration means

  predicate Candidate(rule: Rule, path: string, name: string)
  {
    PrefixMatches(path, rule.prefix) && name in rule.values
  }

  /** The scan of `option` and `scope_key` over the first `n` rules. */
  function Best(paths: seq<Rule>, path: string, name: string, n: nat): (best: Option<nat>)
    requires n <= |paths|
    ensures best.Some? ==> best.value < n && Candidate(paths[best.value], path, name)
    ensures best.Some? ==> forall j | 0 <= j < n && Candidate(paths[j], path, name) ::
              |paths[j].prefix| <= |paths[best.value].prefix|
    ensures best.None? ==> forall j | 0 <= j < n :: !Candidate(paths[j], path, name)
  {
    if n == 0 then None
    else
      var best := Best(paths, path, name, n - 1);
      if Candidate(paths[n - 1], path, name)
         && (best.None? || |paths[n - 1].prefix| > |paths[best.value].prefix|) then Some(n - 1)
      else best
  }

  /** Where an option comes from. */
  datatype Source = FromRule(prefix: string) | Explicit | Environment | Default

  function SourceOf(s: Snapshot, path: string, name: string): Source
  {
    var best := Best(s.paths, path, name, |s.paths|);
    if best.Some? then FromRule(s.paths[best.value].prefix)
    else if name in s.explicits then Explicit
    else if name in s.environment then Environment
    else Default
  }

  /** What the rules say, as a table: the value of `name` in the rule for `prefix`. */
  function RuleValue(paths: seq<Rule>, prefix: string, name: string): Option<string>
  {
    if paths == [] then None
    else if paths[0].prefix == prefix then
      if name in paths[0].values then Some(paths[0].values[name]) else None
    else RuleValue(paths[1..], prefix, name)
  }

  ghost predicate Distinct(paths: seq<Rule>)
  {
    forall i, j | 0 <= i < j < |paths| :: paths[i].prefix != paths[j].prefix
  }

  ghost predicate WellFormed(paths: seq<Rule>)
  {
    Distinct(paths) && forall i | 0 <= i < |paths| :: paths[i].prefix != ""
  }

  lemma {:induction false} RuleValueAt(paths: seq<Rule>, i: nat, name: string)
    requires Distinct(paths) && i < |paths|
    ensures RuleValue(paths, paths[i].prefix, name)
         == if name in paths[i].values then Some(paths[i].values[name]) else None
    decreases |paths|
  {
    if i > 0 {
      assert paths[0].prefix != paths[i].prefix;
      RuleValueAt(paths[1..], i - 1, name);
    }
  }

  lemma {:induction false} RuleValueAbsent(paths: seq<Rule>, prefix: string, name: string)
    requires forall i | 0 <= i < |paths| :: paths[i].prefix != prefix
    ensures RuleValue(paths, prefix, name) == None
    decreases |paths|
  {
    if paths != [] {
      RuleValueAbsent(paths[1..], prefix, name);
    }
  }

  /** Two prefixes of one path that are equally long are the same, so the longest is unique. */
  lemma LongestIsUnique(paths: seq<Rule>, path: string, name: string, i: nat)
    requires i < |paths| && Candidate(paths[i], path, name)
    requires forall j | 0 <= j < |paths| && Candidate(paths[j], path, name) :: |paths[j].prefix| <= |paths[i].prefix|
    ensures
      var best := Best(paths, path, name, |paths|);
      best.Some? && paths[best.value].prefix == paths[i].prefix
  {
    var best := Best(paths, path, name, |paths|);
    assert path[..|paths[i].prefix|] == paths[i].prefix;
    assert path[..|paths[best.value].prefix|] == paths[best.value].prefix;
  }

  function SourceValue(s: Snapshot, source: Source, name: string, fallback: string): string
  {
    match source
    case FromRule(prefix) =>
      var value := RuleValue(s.paths, prefix, name);
      if value.Some? then value.value else fallback
    case Explicit => if name in s.explicits then s.explicits[name] else fallback
    case Environment => if name in s.environment then s.environment[name] else fallback
    case Default => fallback
  }

  /** The effective option at a canonical path. */
  function OptionAt(s: Snapshot, path: string, name: string, fallback: string): string
  {
    SourceValue(s, SourceOf(s, path, name), name, fallback)
  }

  /** The order in which rules were added never matters, only the table they make up. */
  lemma OptionDependsOnTable(a: Snapshot, b: Snapshot, path: string, name: string, fallback: string)
    requires Distinct(a.paths) && Distinct(b.paths) && a.explicits == b.explicits && a.environment == b.environment
    requires forall prefix :: RuleValue(a.paths, prefix, name) == RuleValue(b.paths, prefix, name)
    ensures OptionAt(a, path, name, fallback) == OptionAt(b, path, name, fallback)
  {
    SourceDependsOnTable(a, b, path, name);
    var source := SourceOf(a, path, name);
    if source.FromRule? {
      assert RuleValue(a.paths, source.prefix, name) == RuleValue(b.paths, source.prefix, name);
    }
  }

  /** A candidate of one configuration is one of the other. */
  lemma CandidateInBoth(a: seq<Rule>, b: seq<Rule>, path: string, name: string, i: nat) returns (j: nat)
    requires Distinct(a) && Distinct(b) && i < |a| && Candidate(a[i], path, name)
    requires RuleValue(a, a[i].prefix, name) == RuleValue(b, a[i].prefix, name)
    ensures j < |b| && b[j].prefix == a[i].prefix && Candidate(b[j], path, name)
  {
    RuleValueAt(a, i, name);
    if forall k | 0 <= k < |b| :: b[k].prefix != a[i].prefix {
      RuleValueAbsent(b, a[i].prefix, name);
    }
    j :| 0 <= j < |b| && b[j].prefix == a[i].prefix;
    RuleValueAt(b, j, name);
  }

  lemma SourceDependsOnTable(a: Snapshot, b: Snapshot, path: string, name: string)
    requires Distinct(a.paths) && Distinct(b.paths) && a.explicits == b.explicits && a.environment == b.environment
    requires forall prefix :: RuleValue(a.paths, prefix, name) == RuleValue(b.paths, prefix, name)
    ensures SourceOf(a, path, name) == SourceOf(b, path, name)
  {
    var best := Best(a.paths, path, name, |a.paths|);
    if best.Some? {
      var j := CandidateInBoth(a.paths, b.paths, path, name, best.value);
      forall k | 0 <= k < |b.paths| && Candidate(b.paths[k], path, name)
        ensures |b.paths[k].prefix| <= |b.paths[j].prefix|
      {
        var i := CandidateInBoth(b.paths, a.paths, path, name, k);
      }
      LongestIsUnique(b.paths, path, name, j);
    } else {
      var other := Best(b.paths, path, name, |b.paths|);
      if other.Some? {
        var i := CandidateInBoth(b.paths, a.paths, path, name, other.value);
      }
    }
  }

  // ------------------------------------------------------------------ scope keys

  function SourceText(source: Source): string
  {
    match source
    case FromRule(prefix) => prefix
    case Explicit => "explicit"
    case Environment => "environment"
    case Default => "default"
  }

  function Line(s: Snapshot, path: string, name: string): string
  {
    CanonicalName(name) + "=" + SourceText(SourceOf(s, path, CanonicalName(name))) + "\n"
  }

  function Key(s: Snapshot, path: string, names: seq<string>): string
  {
    if names == [] then "" else Key(s, path, names[..|names| - 1]) + Line(s, path, names[|names| - 1])
  }

  /** No rule that covers `path` has a line break in its prefix. */
  ghost predicate IsPlain(s: Snapshot, path: string)
  {
    forall i | 0 <= i < |s.paths| && PrefixMatches(path, s.paths[i].prefix) :: '\n' !in s.paths[i].prefix
  }

  predicate EndsLine(x: string) { x == "" || x[|x| - 1] == '\n' }

  /** The last line of a text is determined by the text. */
  lemma LastLine(x: string, a: string, y: string, b: string)
    requires '\n' !in a && '\n' !in b && EndsLine(x) && EndsLine(y) && x + a == y + b
    ensures x == y && a == b
  {
    LastLineIsShorter(x, a, y, b);
    LastLineIsShorter(y, b, x, a);
    assert (x + a)[..|x|] == x && (y + b)[..|x|] == y;
    assert (x + a)[|x|..] == a && (y + b)[|x|..] == b;
  }

  lemma LastLineIsShorter(x: string, a: string, y: string, b: string)
    requires '\n' !in a && EndsLine(y) && x + a == y + b
    ensures |y| <= |x|
  {
    forall k | |x| <= k < |x + a| ensures (x + a)[k] != '\n' {
      assert (x + a)[k] == a[k - |x|];
    }
    if y != "" {
      assert (y + b)[|y| - 1] == y[|y| - 1];
    }
  }

  /** Also when both last lines start with the same text. */
  lemma LastLineAfter(x: string, a: string, y: string, b: string, head: string)
    requires '\n' !in a && '\n' !in b && EndsLine(x) && EndsLine(y) && x + (head + a) == y + (head + b)
    ensures x == y && a == b
  {
    if '\n' in head {
      var k := LastBreak(head);
      var first, rest := head[..k], head[k..];
      assert head == first + rest;
      assert (x + first) + (rest + a) == x + (head + a) && (y + first) + (rest + b) == y + (head + b);
      LastLine(x + first, rest + a, y + first, rest + b);
      Cancel(x, y, first, first);
      Cancel(rest, rest, a, b);
    } else {
      LastLine(x, head + a, y, head + b);
      Cancel(head, head, a, b);
    }
  }

  lemma Cancel(x: string, y: string, a: string, b: string)
    requires x + a == y + b && (|x| == |y| || |a| == |b|)
    ensures x == y && a == b
  {
    assert (x + a)[..|x|] == x && (y + b)[..|y|] == y;
    assert (x + a)[|x|..] == a && (y + b)[|y|..] == b;
  }

  /** Just behind the last line break. */
  lemma {:induction false} LastBreak(s: string) returns (k: nat)
    requires '\n' in s
    ensures 0 < k <= |s| && s[k - 1] == '\n' && '\n' !in s[k..]
    decreases |s|
  {
    if s[|s| - 1] == '\n' {
      k := |s|;
    } else {
      var init := s[..|s| - 1];
      k := LastBreak(init);
      assert s[k..] == init[k..] + [s[|s| - 1]];
    }
  }

  lemma KeyEnds(s: Snapshot, path: string, names: seq<string>)
    ensures EndsLine(Key(s, path, names))
  {}

  /** At a rooted path, the text of a source says which source it is: a rule that covers the path
      starts with a slash, unlike the three words. */
  lemma SourceTextIsFaithful(s: Snapshot, p: string, q: string, name: string)
    requires WellFormed(s.paths) && IsRooted(p) && IsRooted(q)
    requires SourceText(SourceOf(s, p, name)) == SourceText(SourceOf(s, q, name))
    ensures SourceOf(s, p, name) == SourceOf(s, q, name)
  {
    SourceTextIsRooted(s, p, name);
    SourceTextIsRooted(s, q, name);
  }

  lemma SourceTextIsRooted(s: Snapshot, p: string, name: string)
    requires WellFormed(s.paths) && IsRooted(p)
    ensures SourceOf(s, p, name).FromRule? <==> IsRooted(SourceText(SourceOf(s, p, name)))
  {
    var best := Best(s.paths, p, name, |s.paths|);
    if best.Some? {
      assert s.paths[best.value].prefix[0] == p[0];
    }
  }

  lemma SourceTextIsPlain(s: Snapshot, path: string, name: string)
    requires IsPlain(s, path)
    ensures '\n' !in SourceText(SourceOf(s, path, name))
  {}

  /** Two rooted paths have the same scope key for a list of options exactly when every one of
      them comes from the same source, and then every one of them has the same value. */
  lemma {:induction false} ScopeKeyIsSound(s: Snapshot, p: string, q: string, names: seq<string>)
    requires WellFormed(s.paths) && IsRooted(p) && IsRooted(q) && IsPlain(s, p) && IsPlain(s, q)
    ensures Key(s, p, names) == Key(s, q, names)
       <==> forall name | name in names :: SourceOf(s, p, CanonicalName(name)) == SourceOf(s, q, CanonicalName(name))
    ensures Key(s, p, names) == Key(s, q, names)
        ==> forall name, fallback | name in names ::
              OptionAt(s, p, CanonicalName(name), fallback) == OptionAt(s, q, CanonicalName(name), fallback)
    decreases |names|
  {
    hide SourceOf, SourceText, SourceValue, IsPlain, WellFormed, CanonicalName;
    if names != [] {
      var init, last := names[..|names| - 1], names[|names| - 1];
      assert names == init + [last];
      ScopeKeyIsSound(s, p, q, init);
      KeyEnds(s, p, init);
      KeyEnds(s, q, init);
      if Key(s, p, names) == Key(s, q, names) {
        EqualLines(s, p, q, Key(s, p, init), Key(s, q, init), last);
      }
    }
  }

  lemma EqualLines(s: Snapshot, p: string, q: string, x: string, y: string, name: string)
    requires WellFormed(s.paths) && IsRooted(p) && IsRooted(q) && IsPlain(s, p) && IsPlain(s, q)
    requires EndsLine(x) && EndsLine(y) && x + Line(s, p, name) == y + Line(s, q, name)
    ensures x == y && SourceOf(s, p, CanonicalName(name)) == SourceOf(s, q, CanonicalName(name))
  {
    var head, canonical := CanonicalName(name) + "=", CanonicalName(name);
    var a, b := SourceText(SourceOf(s, p, canonical)), SourceText(SourceOf(s, q, canonical));
    SourceTextIsPlain(s, p, canonical);
    SourceTextIsPlain(s, q, canonical);
    hide SourceOf, SourceText, CanonicalName, IsPlain, WellFormed;
    assert x + Line(s, p, name) == (x + (head + a)) + "\n" && y + Line(s, q, name) == (y + (head + b)) + "\n";
    Cancel(x + (head + a), y + (head + b), "\n", "\n");
    LastLineAfter(x, a, y, b, head);
    SourceTextIsFaithful(s, p, q, canonical);
  }

  lemma TwoLines(s: Snapshot, path: string, n: string, m: string)
    ensures Key(s, path, [n, m]) == Line(s, path, n) + Line(s, path, m)
  {
    hide Line;
    assert [n, m][..1] == [n] && [n][..0] == [];
    assert Key(s, path, [n]) == Key(s, path, []) + Line(s, path, n) == Line(s, path, n);
  }

  const PROFILE := "AWS_PROFILE"
  const REGION := "AWS_REGION"

  lemma NamedAsIs()
    ensures CanonicalName(PROFILE) == PROFILE && CanonicalName(REGION) == REGION
  {
    assert Uppercase(PROFILE) == PROFILE && Uppercase(REGION) == REGION;
  }

  // Two prefixes that continue with a line break and what looks like the second line of a key.
  const OUTER := "/vsis3/"
  const INNER := "/vsis3/a/"
  const LEFT := OUTER + "\n" + (REGION + "=") + INNER
  const RIGHT := INNER + "\n" + (REGION + "=") + OUTER
  const CONFUSING := ThreeRules(OUTER, LEFT, RIGHT, PROFILE, REGION)

  lemma PrefixesDiffer()
    ensures IsRooted(OUTER) && IsRooted(LEFT) && IsRooted(RIGHT) && Nested(OUTER, LEFT, RIGHT)
  {
    assert LEFT[7] == '\n' && RIGHT[7] == 'a' && LEFT[0] == RIGHT[0] == '/';
  }

  lemma RootedIsCanonical(path: string)
    requires IsRooted(path)
    ensures CanonicalPath(path) == path
  {}

  function ThreeRules(outer: string, left: string, right: string, n: string, m: string): seq<Rule>
  {
    [Rule(outer, map[n := "1", m := "2"]), Rule(left, map[n := "3"]), Rule(right, map[m := "4"])]
  }

  predicate Nested(outer: string, left: string, right: string)
  {
    && outer != "" && EndsWithSlash(outer) && outer <= left && outer <= right
    && !(left <= right) && !(right <= left) && |outer| < |left| == |right|
  }

  lemma ConfusingSources(s: Snapshot, outer: string, left: string, right: string, n: string, m: string)
    requires s.paths == ThreeRules(outer, left, right, n, m) && Nested(outer, left, right) && n != m
    ensures WellFormed(s.paths)
    ensures SourceOf(s, right, n) == FromRule(outer) && SourceOf(s, right, m) == FromRule(right)
    ensures SourceOf(s, left, n) == FromRule(left) && SourceOf(s, left, m) == FromRule(outer)
  {
    var p := s.paths;
    assert p[0] == Rule(outer, map[n := "1", m := "2"]);
    assert p[1] == Rule(left, map[n := "3"]) && p[2] == Rule(right, map[m := "4"]);
    assert PrefixMatches(left, outer) && PrefixMatches(right, outer);
    assert PrefixMatches(left, left) && PrefixMatches(right, right);
    assert !PrefixMatches(left, right) && !PrefixMatches(right, left);
    hide PrefixMatches, SourceOf, ThreeRules;
    LongestIsSource(s, right, n, 0);
    LongestIsSource(s, right, m, 2);
    LongestIsSource(s, left, n, 1);
    LongestIsSource(s, left, m, 0);
  }

  lemma LongestIsSource(s: Snapshot, path: string, name: string, i: nat)
    requires i < |s.paths| && Candidate(s.paths[i], path, name)
    requires forall j | 0 <= j < |s.paths| && Candidate(s.paths[j], path, name) ::
               |s.paths[j].prefix| <= |s.paths[i].prefix|
    ensures SourceOf(s, path, name) == FromRule(s.paths[i].prefix)
  {
    LongestIsUnique(s.paths, path, name, i);
  }

  lemma ConfusingValues(s: Snapshot, outer: string, left: string, right: string, n: string, m: string)
    requires s.paths == ThreeRules(outer, left, right, n, m) && Nested(outer, left, right) && n != m
    ensures OptionAt(s, right, n, "") == "1" && OptionAt(s, left, n, "") == "3"
  {
    ConfusingSources(s, outer, left, right, n, m);
    RuleValueAt(s.paths, 0, n);
    RuleValueAt(s.paths, 1, n);
    hide SourceOf, RuleValue;
  }

  /** What a break in the first of two texts hides can as well be one in the second. */
  lemma TextsAgree(first: string, second: string, x: string, y: string, end: string)
    ensures (first + x + end) + (second + (y + end + second + x) + end)
            == (first + (x + end + second + y) + end) + (second + x + end)
  {
    var common := first + x + end + second + y + end + second + x + end;
    assert (first + x + end) + (second + (y + end + second + x) + end) == common;
    assert (first + (x + end + second + y) + end) + (second + x + end) == common;
  }

  lemma ConfusingKeys(s: Snapshot)
    requires s.paths == CONFUSING
    ensures Key(s, RIGHT, [PROFILE, REGION]) == Key(s, LEFT, [PROFILE, REGION])
  {
    PrefixesDiffer();
    ConfusingSources(s, OUTER, LEFT, RIGHT, PROFILE, REGION);
    NamedAsIs();
    TwoLines(s, RIGHT, PROFILE, REGION);
    TwoLines(s, LEFT, PROFILE, REGION);
    TextsAgree(PROFILE + "=", REGION + "=", OUTER, INNER, "\n");
    hide SourceOf, CanonicalName, Key, OUTER, INNER, PROFILE, REGION;
  }

  /** Two snapshots with one table have the same keys. */
  lemma {:induction false} KeyDependsOnTable(a: Snapshot, b: Snapshot, path: string, names: seq<string>)
    requires Distinct(a.paths) && Distinct(b.paths) && a.explicits == b.explicits && a.environment == b.environment
    requires forall prefix, name :: RuleValue(a.paths, prefix, name) == RuleValue(b.paths, prefix, name)
    ensures Key(a, path, names) == Key(b, path, names)
    decreases |names|
  {
    hide SourceOf, RuleValue, CanonicalName;
    if names != [] {
      KeyDependsOnTable(a, b, path, names[..|names| - 1]);
      SourceDependsOnTable(a, b, path, CanonicalName(names[|names| - 1]));
    }
  }

  lemma ConfusingTable(outer: string, left: string, right: string, n: string, m: string, prefix: string, name: string)
    requires Nested(outer, left, right) && n != m
    ensures RuleValue(ThreeRules(outer, left, right, n, m), prefix, name)
         == if prefix == right && name == m then Some("4")
            else if prefix == left && name == n then Some("3")
            else if prefix == outer && name == m then Some("2")
            else if prefix == outer && name == n then Some("1")
            else None
  {
    var paths := ThreeRules(outer, left, right, n, m);
    assert paths[0].prefix == outer && paths[1].prefix == left && paths[2].prefix == right;
    hide ThreeRules, RuleValue;
    if i :| 0 <= i < 3 && paths[i].prefix == prefix {
      RuleValueAt(paths, i, name);
    } else {
      RuleValueAbsent(paths, prefix, name);
    }
  }

  // ------------------------------------------------------------------ the code

  datatype SetError = EmptyPrefix | EmptyName | UnknownOption | ClientWide

  /** One entry of the table changes and no other. */
  lemma {:induction false} UpdateTable(
      paths: seq<Rule>, i: nat, values: OptionMap, name: string, value: Option<string>, prefix: string, n: string)
    requires i < |paths| && (forall j | 0 <= j < i :: paths[j].prefix != paths[i].prefix)
    requires values == if value.Some? then paths[i].values[name := value.value] else paths[i].values - {name}
    ensures RuleValue(paths[i := Rule(paths[i].prefix, values)], prefix, n)
         == if prefix == paths[i].prefix && n == name then value else RuleValue(paths, prefix, n)
    decreases |paths|
  {
    var updated := paths[i := Rule(paths[i].prefix, values)];
    if i > 0 {
      UpdateTable(paths[1..], i - 1, values, name, value, prefix, n);
      assert updated[1..] == paths[1..][i - 1 := Rule(paths[i].prefix, values)];
    } else {
      assert updated[1..] == paths[1..];
    }
  }

  /** A new rule without values says nothing yet. */
  lemma {:induction false} AppendRule(paths: seq<Rule>, added: string, prefix: string, n: string)
    ensures RuleValue(paths + [Rule(added, map[])], prefix, n) == RuleValue(paths, prefix, n)
    decreases |paths|
  {
    if paths != [] {
      AppendRule(paths[1..], added, prefix, n);
      assert (paths + [Rule(added, map[])])[1..] == paths[1..] + [Rule(added, map[])];
    }
  }

  lemma NoNames(s: Snapshot, path: string)
    ensures Key(s, path, []) == ""
  {}

  lemma NextLine(s: Snapshot, path: string, names: seq<string>, i: nat)
    requires i < |names|
    ensures
      var name := CanonicalName(names[i]);
      Key(s, path, names[..i + 1]) == Key(s, path, names[..i]) + name + "=" + SourceText(SourceOf(s, path, name)) + "\n"
  {
    hide SourceOf, CanonicalName, SourceText;
    assert names[..i + 1][..i] == names[..i];
    assert Key(s, path, names[..i + 1]) == Key(s, path, names[..i]) + Line(s, path, names[i]);
  }

  class ConfigBuilder {
    const known: string -> bool          // the table of option names
    var paths: seq<Rule>
    var explicits: OptionMap
    var environment: OptionMap

    constructor (known: string -> bool, environment: OptionMap)
      ensures Valid() && paths == [] && explicits == map[] && this.environment == environment && this.known == known
    {
      this.known, this.environment, paths, explicits := known, environment, [], map[];
    }

    ghost predicate Valid()
      reads this
    {
      WellFormed(paths)
    }

    ghost function State(): Snapshot
      reads this
    {
      Snapshot(paths, explicits, environment)
    }

    method Set(name: string, value: Option<string>) returns (error: Option<SetError>)
      modifies this`explicits
      ensures error ==
              if name == "" then Some(EmptyName)
              else if !known(CanonicalName(name)) then Some(UnknownOption)
              else None
      ensures error.Some? ==> explicits == old(explicits)
      ensures error.None? ==> explicits == if value.Some? then old(explicits)[CanonicalName(name) := value.value]
                                           else old(explicits) - {CanonicalName(name)}
    {
      if name == "" { return Some(EmptyName); }
      var canonical := CanonicalName(name);
      if !known(canonical) { return Some(UnknownOption); }
      if value.None? {
        explicits := explicits - {canonical};
      } else {
        explicits := explicits[canonical := value.value];
      }
      error := None;
    }

    /** Prefixes stay distinct, and exactly one entry of the table changes. */
    method SetPath(prefix: string, name: string, value: Option<string>) returns (error: Option<SetError>)
      requires Valid()
      modifies this`paths
      ensures Valid()
      ensures error.None? <==>
              prefix != "" && name != "" && known(CanonicalName(name)) && !("KARU_" <= CanonicalName(name))
      ensures error.Some? ==> paths == old(paths)
      ensures error.None? ==>
                forall p, n ::
                    RuleValue(paths, p, n) == if p == CanonicalPath(prefix) && n == CanonicalName(name) then value
                                                         else RuleValue(old(paths), p, n)
    {
      if prefix == "" { return Some(EmptyPrefix); }
      if name == "" { return Some(EmptyName); }
      var canonicalPrefix, canonical := CanonicalPath(prefix), CanonicalName(name);
      if !known(canonical) { return Some(UnknownOption); }
      if "KARU_" <= canonical { return Some(ClientWide); }
      var i := 0;
      while i < |paths| && paths[i].prefix != canonicalPrefix
        invariant i <= |paths| && forall j | 0 <= j < i :: paths[j].prefix != canonicalPrefix
      {
        i := i + 1;
      }
      ghost var before := paths;
      if i == |paths| {
        paths := paths + [Rule(canonicalPrefix, map[])];
        forall p, n ensures RuleValue(paths, p, n) == RuleValue(before, p, n) {
          AppendRule(before, canonicalPrefix, p, n);
        }
      }
      ghost var found := paths;
      var values := if value.Some? then paths[i].values[canonical := value.value] else paths[i].values - {canonical};
      paths := paths[i := Rule(canonicalPrefix, values)];
      forall p, n
        ensures RuleValue(paths, p, n) ==
                if p == canonicalPrefix && n == canonical then value else RuleValue(found, p, n)
      {
        UpdateTable(found, i, values, canonical, value, p, n);
      }
      error := None;
    }

    /** The scan for the best rule, as `option` and `scope_key` write it. */
    method FindBest(path: string, name: string) returns (best: Option<nat>)
      ensures best == Best(paths, path, name, |paths|)
    {
      best := None;
      for i := 0 to |paths|
        invariant best == Best(paths, path, name, i)
      {
        if !PrefixMatches(path, paths[i].prefix) || name !in paths[i].values { continue; }
        if best.None? || |paths[i].prefix| > |paths[best.value].prefix| { best := Some(i); }
      }
    }

    method GetOption(path: string, name: string, fallback: string) returns (value: string)
      requires Valid()
      ensures value == OptionAt(State(), CanonicalPath(path), CanonicalName(name), fallback)
    {
      var canonical := CanonicalName(name);
      var best := FindBest(CanonicalPath(path), canonical);
      if best.Some? {
        RuleValueAt(paths, best.value, canonical);
        return paths[best.value].values[canonical];
      }
      if canonical in explicits { return explicits[canonical]; }
      if canonical in environment { return environment[canonical]; }
      value := fallback;
    }

    method ScopeKey(path: string, names: seq<string>) returns (key: string)
      ensures key == Key(State(), CanonicalPath(path), names)
    {
      hide Best, CanonicalName, PrefixMatches, Key;
      var canonicalPath := CanonicalPath(path);
      key := "";
      NoNames(State(), canonicalPath);
      for i := 0 to |names|
        invariant key == Key(State(), canonicalPath, names[..i])
      {
        var name := CanonicalName(names[i]);
        var best := FindBest(canonicalPath, name);
        var text := if best.Some? then paths[best.value].prefix
                    else if name in explicits then "explicit"
                    else if name in environment then "environment"
                    else "default";
        NextLine(State(), canonicalPath, names, i);
        key := key + name + "=" + text + "\n";
      }
      assert names[..|names|] == names;
    }
  }

  /** Without the assumption on line breaks a key can be ambiguous: four calls of `set_path` with
      ordinary options make two rooted paths share a key although their profiles differ. */
  method LineBreaksConfuseKeys(known: string -> bool)
    returns (leftKey: string, rightKey: string, leftProfile: string, rightProfile: string)
    requires known(PROFILE) && known(REGION)
    ensures leftKey == rightKey && leftProfile != rightProfile
  {
    hide CanonicalName, CanonicalPath, Key, OptionAt, RuleValue, SourceOf, LEFT, RIGHT, OUTER, INNER, PROFILE, REGION;
    PrefixesDiffer();
    RootedIsCanonical(OUTER);
    RootedIsCanonical(LEFT);
    RootedIsCanonical(RIGHT);
    NamedAsIs();
    PathSpecific();
    var builder := new ConfigBuilder(known, map[]);
    ghost var goal := Snapshot(CONFUSING, map[], map[]);
    var e := builder.SetPath(OUTER, PROFILE, Some("1"));
    e := builder.SetPath(OUTER, REGION, Some("2"));
    e := builder.SetPath(LEFT, PROFILE, Some("3"));
    e := builder.SetPath(RIGHT, REGION, Some("4"));
    forall prefix, name ensures RuleValue(builder.paths, prefix, name) == RuleValue(CONFUSING, prefix, name) {
      EmptyTable(prefix, name);
      ConfusingTable(OUTER, LEFT, RIGHT, PROFILE, REGION, prefix, name);
    }
    leftKey := builder.ScopeKey(LEFT, [PROFILE, REGION]);
    rightKey := builder.ScopeKey(RIGHT, [PROFILE, REGION]);
    leftProfile := builder.GetOption(LEFT, PROFILE, "");
    rightProfile := builder.GetOption(RIGHT, PROFILE, "");
    KeyDependsOnTable(builder.State(), goal, LEFT, [PROFILE, REGION]);
    KeyDependsOnTable(builder.State(), goal, RIGHT, [PROFILE, REGION]);
    OptionDependsOnTable(builder.State(), goal, LEFT, PROFILE, "");
    OptionDependsOnTable(builder.State(), goal, RIGHT, PROFILE, "");
    ConfusingKeys(goal);
    ConfusingValues(goal, OUTER, LEFT, RIGHT, PROFILE, REGION);
    ConfusingSources(goal, OUTER, LEFT, RIGHT, PROFILE, REGION);
  }

  lemma PathSpecific()
    ensures PROFILE != REGION && PROFILE != "" && REGION != "" && OUTER != "" && LEFT != "" && RIGHT != ""
    ensures !("KARU_" <= PROFILE) && !("KARU_" <= REGION)
  {
    assert PROFILE[0] == 'A' && REGION[0] == 'A';
  }

  lemma EmptyTable(prefix: string, name: string)
    ensures RuleValue([], prefix, name) == None
  {}
}

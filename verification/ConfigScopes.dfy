/**
  Where a rule of the configuration counts, and which names are one option: the path rules and the aliases
  of src/config.cpp in terms of their texts.
*/
module ConfigScopes {
  import opened Numbers
  import opened Configs

  /** The path of the prefix itself, and everything behind a slash after it, or after its own. */
  predicate LiesBelow(path: string, prefix: string)
  {
    path == prefix || prefix + "/" <= path || (prefix != "" && prefix[|prefix| - 1] == '/' && prefix <= path)
  }

  lemma PrefixCoversItsSubtree(path: string, prefix: string)
    ensures PrefixMatches(path, prefix) <==> LiesBelow(path, prefix)
  {
    if prefix <= path && |path| > |prefix| {
      assert prefix + "/" <= path <==> path[|prefix|] == '/';
    } else if prefix <= path {
      assert path == path[..|prefix|] == prefix;
    }
  }

  lemma {:induction false} AppendedRuleIsNotFound(paths: seq<Rule>, rule: Rule, i: nat, name: string)
    requires i < |paths|
    ensures RuleValue(paths + [rule], paths[i].prefix, name) == RuleValue(paths, paths[i].prefix, name)
    decreases |paths|
  {
    assert (paths + [rule])[1..] == paths[1..] + [rule];
    if i > 0 { AppendedRuleIsNotFound(paths[1..], rule, i - 1, name); }
  }

  /** A rule changes nothing for a path that does not lie below its prefix. */
  lemma RuleStaysInItsSubtree(s: Snapshot, rule: Rule, path: string, name: string, fallback: string)
    requires !LiesBelow(path, rule.prefix)
    ensures OptionAt(s.(paths := s.paths + [rule]), path, name, fallback) == OptionAt(s, path, name, fallback)
  {
    var longer := s.paths + [rule];
    PrefixCoversItsSubtree(path, rule.prefix);
    SameScan(s.paths, rule, path, name, |s.paths|);
    hide PrefixMatches, LiesBelow;
    var best := Best(s.paths, path, name, |s.paths|);
    if best.Some? { AppendedRuleIsNotFound(s.paths, rule, best.value, name); }
  }

  lemma {:induction false} SameScan(paths: seq<Rule>, rule: Rule, path: string, name: string, n: nat)
    requires n <= |paths|
    ensures Best(paths + [rule], path, name, n) == Best(paths, path, name, n)
  {
    hide PrefixMatches;
    if n > 0 {
      assert (paths + [rule])[n - 1] == paths[n - 1];
      SameScan(paths, rule, path, name, n - 1);
    }
  }

  /** Below its prefix a rule counts, unless a longer one that covers the path says otherwise. */
  lemma LongestRuleCounts(s: Snapshot, i: nat, path: string, name: string, fallback: string)
    requires Distinct(s.paths) && i < |s.paths| && LiesBelow(path, s.paths[i].prefix) && name in s.paths[i].values
    requires forall j | 0 <= j < |s.paths| && LiesBelow(path, s.paths[j].prefix) && name in s.paths[j].values ::
               |s.paths[j].prefix| <= |s.paths[i].prefix|
    ensures OptionAt(s, path, name, fallback) == s.paths[i].values[name]
  {
    PrefixCoversItsSubtree(path, s.paths[i].prefix);
    forall j | 0 <= j < |s.paths| && Candidate(s.paths[j], path, name)
      ensures |s.paths[j].prefix| <= |s.paths[i].prefix|
    {
      PrefixCoversItsSubtree(path, s.paths[j].prefix);
    }
    hide LiesBelow, PrefixMatches;
    LongestIsUnique(s.paths, path, name, i);
    RuleValueAt(s.paths, i, name);
  }

  /** Where no rule says anything, an option that was set explicitly comes before the environment. */
  lemma ElsewhereExplicitCounts(s: Snapshot, path: string, name: string, fallback: string)
    requires forall i | 0 <= i < |s.paths| && LiesBelow(path, s.paths[i].prefix) :: name !in s.paths[i].values
    ensures OptionAt(s, path, name, fallback) ==
            if name in s.explicits then s.explicits[name]
            else if name in s.environment then s.environment[name]
            else fallback
  {
    forall i | 0 <= i < |s.paths| ensures !Candidate(s.paths[i], path, name) {
      PrefixCoversItsSubtree(path, s.paths[i].prefix);
    }
    hide LiesBelow, PrefixMatches;
  }

  /** So a bucket's rule leaves alone the bucket whose name begins alike. */
  lemma BucketsAreApart(s: Snapshot, bucket: string, more: string, values: OptionMap, name: string, fallback: string)
    requires bucket != "" && bucket[|bucket| - 1] != '/' && more != "" && more[0] != '/'
    ensures OptionAt(s.(paths := s.paths + [Rule(bucket, values)]), bucket + more, name, fallback)
         == OptionAt(s, bucket + more, name, fallback)
  {
    assert (bucket + more)[|bucket|] == more[0] && (bucket + "/")[|bucket|] == '/';
    hide OptionAt;
    RuleStaysInItsSubtree(s, Rule(bucket, values), bucket + more, name, fallback);
  }

  // ------------------------------------------------------------------ names

  /** The other names that options go by. */
  const ALIASES: map<string, string> := map[
    "AWS_ENDPOINT_URL" := "AWS_S3_ENDPOINT", "AWS_ENDPOINT_URL_S3" := "AWS_S3_ENDPOINT",
    "AWS_DEFAULT_PROFILE" := "AWS_PROFILE", "AWS_DEFAULT_REGION" := "AWS_REGION",
    "KARU_MAX_RETRIES" := "KARU_MAX_ATTEMPTS", "HUGGING_FACE_HUB_TOKEN" := "HF_TOKEN",
    "CURL_CA_BUNDLE" := "KARU_HTTP_CA_BUNDLE", "SSL_CERT_FILE" := "KARU_HTTP_CA_BUNDLE",
    "SOURCE_PROXY_URL" := "SOURCE_ENDPOINT"]

  /** Letters of either case are one, and every alias is the option it stands for. */
  lemma NamesAreFolded(name: string)
    ensures CanonicalName(name) == if Uppercase(name) in ALIASES then ALIASES[Uppercase(name)] else Uppercase(name)
  {}

  lemma CaseDoesNotMatter(name: string, other: string)
    requires |name| == |other| && forall i | 0 <= i < |name| :: UpperChar(name[i]) == UpperChar(other[i])
    ensures CanonicalName(name) == CanonicalName(other)
  {
    assert Uppercase(name) == Uppercase(other);
  }

  /** The schemes that a path may begin with, and what they stand for. */
  const SCHEMES: seq<(string, string)> := [
    ("s3://", "/vsis3/"), ("gs://", "/vsigs/"), ("az://", "/vsiaz/"), ("abfs://", "/vsiadls/"), ("hf://", "/vsihf/"),
    ("source://", "/vsisource/")]

  lemma SchemeIsFolded(i: nat, rest: string)
    requires i < |SCHEMES|
    ensures CanonicalPath(SCHEMES[i].0 + rest) == SCHEMES[i].1 + rest
  {
    var scheme := SCHEMES[i].0;
    var path := scheme + rest;
    assert path[|scheme|..] == rest && scheme <= path;
    assert path[0] == scheme[0] && path[1] == scheme[1];
  }

  /** A path that begins with a slash stays as it is. */
  lemma RootedStays(path: string)
    requires path != "" && path[0] == '/'
    ensures CanonicalPath(path) == path
  {}
}

/**
  URL rules: how an address becomes a pattern, which URLs a pattern matches, which of two matching
  patterns is more specific, and the choice of the one rule that decides.
  */
module UrlRules {
  import opened Wrappers

  datatype Kind = AllSubdomains | DomainWithPath

  datatype Pattern = Pattern(id: string, host: string, path: string, kind: Kind)

  /** The first position of a character, or the length when there is none. */
  function Find(s: string, c: char): (i: nat)
    ensures i <= |s|
    ensures i < |s| ==> s[i] == c
    ensures c !in s[..i]
    ensures c in s <==> i < |s|
  {
    if s == "" then 0
    else if s[0] == c then 0
    else
      var i := 1 + Find(s[1..], c);
      assert s[..i] == [s[0]] + s[1..][..i - 1];
      assert s == [s[0]] + s[1..];
      i
  }

  function FromAddress(address: string): Pattern {
    var slash := Find(address, '/');
    if slash == |address| then Pattern(address, address, "", AllSubdomains)
    else Pattern(address, address[..slash], address[slash..], DomainWithPath)
  }

  /** The shape of every pattern made from an address. */
  predicate WellFormed(p: Pattern) {
    && '/' !in p.host
    && p.id == p.host + p.path
    && match p.kind
       case AllSubdomains => p.path == ""
       case DomainWithPath => p.path != "" && p.path[0] == '/'
  }

  lemma AddressIsWellFormed(address: string)
    ensures WellFormed(FromAddress(address)) && FromAddress(address).id == address
  {
    assert address == address[..Find(address, '/')] + address[Find(address, '/')..];
  }

  lemma FirstSlash(before: string, after: string)
    requires '/' !in before
    ensures Find(before + "/" + after, '/') == |before|
  {
    var url := before + "/" + after;
    assert url[|before|] == '/';
    assert forall i | 0 <= i < |before| :: url[i] == before[i];
  }

  lemma NoSlash(s: string)
    requires '/' !in s
    ensures FromAddress(s) == Pattern(s, s, "", AllSubdomains)
  {
  }

  lemma PathSplit(host: string, path: string)
    requires '/' !in host && path != "" && path[0] == '/'
    ensures FromAddress(host + path) == Pattern(host + path, host, path, DomainWithPath)
  {
    var address := host + path;
    assert address[|host|] == '/';
    assert forall i | 0 <= i < |host| :: address[i] == host[i];
    assert Find(address, '/') == |host|;
    assert address[..|host|] == host && address[|host|..] == path;
  }

  /** Well-formed patterns are told apart by their addresses, and each is the pattern of its own. */
  lemma PatternOfAddress(p: Pattern)
    requires WellFormed(p)
    ensures FromAddress(p.id) == p
  {
    if p.kind.AllSubdomains? {
      assert p.host + "" == p.host;
      NoSlash(p.host);
    } else {
      PathSplit(p.host, p.path);
    }
  }

  method CreateFromIds(ids: seq<string>) returns (patterns: seq<Pattern>)
    ensures |patterns| == |ids|
    ensures forall i | 0 <= i < |ids| :: patterns[i] == FromAddress(ids[i])
  {
    patterns := [];
    for i := 0 to |ids|
      invariant |patterns| == i
      invariant forall j | 0 <= j < i :: patterns[j] == FromAddress(ids[j])
    {
      var address := ids[i];
      var slash := Find(address, '/');
      if slash == |address| {
        patterns := patterns + [Pattern(address, address, "", AllSubdomains)];
      } else {
        patterns := patterns + [Pattern(address, address[..slash], address[slash..], DomainWithPath)];
      }
    }
  }

  // ---------------------------------------------------------------- Matching

  predicate HostMatches(host: string, url: string, subdomainAllowed: bool)
    requires '/' in url
  {
    var slash := Find(url, '/');
    && slash >= |host|
    && url[slash - |host|..slash] == host
    && (slash == |host| || (subdomainAllowed && url[slash - |host| - 1] == '.'))
  }

  predicate PathMatches(path: string, url: string)
    requires '/' in url
  {
    var slash := Find(url, '/');
    |url| - slash >= |path| && url[slash..slash + |path|] == path
  }

  predicate Matches(p: Pattern, url: string)
    requires '/' in url
  {
    match p.kind
    case AllSubdomains => HostMatches(p.host, url, true)
    case DomainWithPath => HostMatches(p.host, url, false) && PathMatches(p.path, url)
  }

  predicate SubdomainPrefix(pre: string) {
    pre == "" || pre[|pre| - 1] == '.'
  }

  /** The URL reads (ANY ".")? host "/" ANY. */
  predicate Reads(url: string, pre: string, host: string, rest: string) {
    SubdomainPrefix(pre) && url == pre + host + "/" + rest
  }

  lemma MatchingSubdomain(p: Pattern, url: string) returns (pre: string, rest: string)
    requires p.kind.AllSubdomains? && '/' in url && Matches(p, url)
    ensures '/' !in pre && Reads(url, pre, p.host, rest)
  {
    var slash := Find(url, '/');
    pre, rest := url[..slash - |p.host|], url[slash + 1..];
    assert forall i | 0 <= i < |pre| :: pre[i] == url[..slash][i];
  }

  lemma SubdomainMatching(p: Pattern, url: string, pre: string, rest: string)
    requires WellFormed(p) && p.kind.AllSubdomains?
    requires '/' !in pre && Reads(url, pre, p.host, rest)
    ensures '/' in url && Matches(p, url)
  {
    FirstSlash(pre + p.host, rest);
    assert url[|pre| + |p.host|] == '/';
    assert url[|pre|..|pre| + |p.host|] == p.host;
    if pre != "" {
      assert url[|pre| - 1] == pre[|pre| - 1];
    }
  }

  /**
    Subdomain patterns match exactly the URLs (ANY ".")? host "/" ANY where the first ANY lies in the
    host name, that is, before the first slash.
    */
  lemma SubdomainsMatchIff(p: Pattern, url: string)
    requires WellFormed(p) && p.kind.AllSubdomains? && '/' in url
    ensures Matches(p, url) <==>
      exists pre: string, rest: string :: '/' !in pre && Reads(url, pre, p.host, rest)
  {
    if Matches(p, url) {
      var pre, rest := MatchingSubdomain(p, url);
    }
    if pre: string, rest: string :| '/' !in pre && Reads(url, pre, p.host, rest) {
      SubdomainMatching(p, url, pre, rest);
    }
  }

  /** The URL reads host path ANY. */
  predicate ReadsPath(url: string, host: string, path: string, rest: string) {
    url == host + path + rest
  }

  lemma MatchingPath(p: Pattern, url: string) returns (rest: string)
    requires p.kind.DomainWithPath? && '/' in url && Matches(p, url)
    ensures ReadsPath(url, p.host, p.path, rest)
  {
    var slash := Find(url, '/');
    rest := url[slash + |p.path|..];
    assert url[0..slash] == p.host;
    assert url == url[0..slash] + url[slash..slash + |p.path|] + rest;
  }

  lemma PathMatching(p: Pattern, url: string, rest: string)
    requires WellFormed(p) && p.kind.DomainWithPath? && ReadsPath(url, p.host, p.path, rest)
    ensures '/' in url && Matches(p, url)
  {
    var tail := p.path[1..] + rest;
    assert p.path == "/" + p.path[1..];
    assert url == p.host + "/" + tail;
    FirstSlash(p.host, tail);
    assert url[|p.host|] == '/';
    assert url[0..|p.host|] == p.host;
    assert url[|p.host|..|p.host| + |p.path|] == p.path;
  }

  /** Patterns with a path match exactly the URLs: host path ANY. */
  lemma PathMatchIff(p: Pattern, url: string)
    requires WellFormed(p) && p.kind.DomainWithPath? && '/' in url
    ensures Matches(p, url) <==> exists rest: string :: ReadsPath(url, p.host, p.path, rest)
  {
    if Matches(p, url) {
      var rest := MatchingPath(p, url);
    }
    if rest: string :| ReadsPath(url, p.host, p.path, rest) {
      PathMatching(p, url, rest);
    }
  }

  /** The grammar as documented, where ANY may be any text at all. */
  ghost predicate DocumentedMatch(p: Pattern, url: string) {
    match p.kind
    case AllSubdomains => exists pre: string, rest: string :: Reads(url, pre, p.host, rest)
    case DomainWithPath => exists rest: string :: ReadsPath(url, p.host, p.path, rest)
  }

  predicate OccursAt(part: string, s: string, i: nat) {
    i + |part| <= |s| && s[i..i + |part|] == part
  }

  ghost predicate Occurs(part: string, s: string) {
    exists i: nat :: OccursAt(part, s, i)
  }

  /**
    The documented grammar matches exactly the URLs that the code matches and those that have the host
    name as a subdomain inside the path. The two differ exactly on a URL that the code, rightly, does not
    match and that has the host name there.
    */
  lemma DocumentedMatchIff(p: Pattern, url: string)
    requires WellFormed(p) && '/' in url
    ensures DocumentedMatch(p, url) <==> Matches(p, url) || (p.kind.AllSubdomains? && DeepHost(p.host, url))
    ensures DocumentedMatch(p, url) != Matches(p, url) <==>
      !Matches(p, url) && p.kind.AllSubdomains? && DeepHost(p.host, url)
  {
    if p.kind.DomainWithPath? {
      PathMatchIff(p, url);
    } else {
      SubdomainsMatchIff(p, url);
      if pre: string, rest: string :| '/' in pre && Reads(url, pre, p.host, rest) {
        OccursInPath(p.host, url, pre, rest);
      }
      if DeepHost(p.host, url) {
        DeepHostIf(p.host, url);
      }
    }
  }

  /** The host name occurs as a subdomain somewhere after the first slash. */
  ghost predicate DeepHost(host: string, url: string)
    requires '/' in url
  {
    Occurs("." + host + "/", url[Find(url, '/') + 1..])
  }

  lemma DeepHostIf(host: string, url: string)
    requires '/' in url && DeepHost(host, url)
    ensures exists pre: string, rest: string :: '/' in pre && Reads(url, pre, host, rest)
  {
    var slash := Find(url, '/');
    var i: nat :| OccursAt("." + host + "/", url[slash + 1..], i);
    var pre, rest := PrefixOfOccurrence(host, url, slash, i);
  }

  lemma OccursMid(a: string, part: string, b: string)
    ensures OccursAt(part, a + part + b, |a|)
  {
  }

  lemma FindPrefix(pre: string, more: string)
    requires '/' in pre
    ensures Find(pre + more, '/') == Find(pre, '/')
  {
    var s, i := pre + more, Find(pre, '/');
    assert s[i] == '/';
    assert forall k | 0 <= k < i :: s[k] == pre[..i][k];
  }

  lemma GlueDot(front: string, host: string, rest: string)
    ensures front + "." + host + "/" + rest == front + ("." + host + "/") + rest
  {
    var dot, slash := ".", "/";
    assert ((front + dot) + host) + slash == front + ((dot + host) + slash);
  }

  lemma OccursLater(part: string, s: string, from: nat, i: nat)
    requires from <= i && OccursAt(part, s, i)
    ensures OccursAt(part, s[from..], i - from)
  {
  }

  lemma OccursInPath(host: string, url: string, pre: string, rest: string)
    requires '/' in pre && Reads(url, pre, host, rest)
    ensures '/' in url && DeepHost(host, url)
  {
    var slash, front, part := Find(pre, '/'), pre[..|pre| - 1], "." + host + "/";
    assert pre == front + ".";
    GlueDot(front, host, rest);
    OccursMid(front, part, rest);
    assert url == pre + (host + "/" + rest);
    FindPrefix(pre, host + "/" + rest);
    assert url[slash] == pre[slash];
    OccursLater(part, url, slash + 1, |front|);
  }

  lemma PrefixOfOccurrence(host: string, url: string, slash: nat, i: nat) returns (pre: string, rest: string)
    requires slash < |url| && url[slash] == '/' && OccursAt("." + host + "/", url[slash + 1..], i)
    ensures '/' in pre && Reads(url, pre, host, rest)
  {
    var part, at := "." + host + "/", slash + 1 + i;
    pre, rest := url[..at + 1], url[at + |part|..];
    assert pre[slash] == '/';
    assert url[at..at + |part|] == url[slash + 1..][i..i + |part|] == part;
    assert pre[at] == part[0];
    assert url == url[..at] + part + rest;
    assert url[..at] + "." == pre;
  }

  /** An example of the difference. */
  lemma HostInPathExample()
    ensures var p, url := FromAddress("b.c"), "a/x.b.c/";
      DocumentedMatch(p, url) && !Matches(p, url)
  {
    var p, url := FromAddress("b.c"), "a/x.b.c/";
    assert '/' !in "b.c";
    assert Reads(url, "a/x.", "b.c", "");
    FirstSlash("a", "x.b.c/");
    assert url == "a" + "/" + "x.b.c/";
  }

  // ---------------------------------------------------------------- Specificity

  /** No answer stands for a failed assertion: the patterns do not match a common URL. */
  function MoreSpecific(a: Pattern, b: Pattern): Option<bool> {
    if a.kind != b.kind then Some(a.kind.DomainWithPath?)
    else
      match a.kind
      case AllSubdomains =>
        if |a.host| > |b.host| then (if IsSuffix(b.host, a.host) then Some(true) else None)
        else if IsSuffix(a.host, b.host) then Some(false)
        else None
      case DomainWithPath =>
        if a.host != b.host then None
        else if |a.path| > |b.path| then (if b.path <= a.path then Some(true) else None)
        else if a.path <= b.path then Some(false)
        else None
  }

  predicate IsSuffix(s: string, t: string) {
    |s| <= |t| && t[|t| - |s|..] == s
  }

  /** The documented rules: paths beat subdomains, then the longer host name or path wins. */
  predicate Above(a: Pattern, b: Pattern) {
    match (a.kind, b.kind)
    case (DomainWithPath, AllSubdomains) => true
    case (AllSubdomains, DomainWithPath) => false
    case (AllSubdomains, AllSubdomains) => |a.host| > |b.host|
    case (DomainWithPath, DomainWithPath) => |a.path| > |b.path|
  }

  /**
    Patterns that match a common URL can always be compared, by the documented rules; and two of
    them are equally specific only if they are the same.
    */
  lemma AlwaysComparable(a: Pattern, b: Pattern, url: string)
    requires WellFormed(a) && WellFormed(b) && '/' in url && Matches(a, url) && Matches(b, url)
    ensures MoreSpecific(a, b) == Some(Above(a, b))
    ensures a != b ==> Above(a, b) != Above(b, a)
    ensures !Above(a, a)
  {
    var slash := Find(url, '/');
    if a.kind == b.kind == AllSubdomains {
      if |a.host| > |b.host| {
        SuffixOfBoth(b.host, a.host, url, slash);
      } else {
        SuffixOfBoth(a.host, b.host, url, slash);
      }
    } else if a.kind == b.kind == DomainWithPath {
      assert a.host == url[0..slash] == b.host;
      if |a.path| > |b.path| {
        assert a.path[..|b.path|] == b.path;
      } else {
        assert b.path[..|a.path|] == a.path;
      }
    }
  }

  ghost predicate MatchesAll(a: Pattern, b: Pattern) {
    forall u: string | '/' in u && Matches(a, u) :: Matches(b, u)
  }

  ghost predicate MatchesMore(a: Pattern, b: Pattern) {
    exists u: string :: '/' in u && Matches(b, u) && !Matches(a, u)
  }

  /** What above means: of two patterns that match a common URL, the one above the other matches fewer URLs. */
  lemma AboveIsNarrower(a: Pattern, b: Pattern, url: string)
    requires WellFormed(a) && WellFormed(b) && '/' in url && Matches(a, url) && Matches(b, url) && Above(a, b)
    ensures MatchesAll(a, b) && MatchesMore(a, b)
  {
    if b.kind.DomainWithPath? {
      LongerPathNarrower(a, b, url);
    } else {
      var pre := HostPrefix(a, b, url);
      forall u: string | '/' in u && Matches(a, u) ensures Matches(b, u) {
        HostNarrower(a, b, pre, u);
      }
      WiderHost(a, b);
    }
  }

  /** The host name of `b` is that of `a` after a prefix that ends with a dot. */
  lemma HostPrefix(a: Pattern, b: Pattern, url: string) returns (pre: string)
    requires WellFormed(a) && WellFormed(b) && '/' in url && Matches(a, url) && Matches(b, url)
    requires b.kind.AllSubdomains? && (a.kind.DomainWithPath? || |a.host| > |b.host|)
    ensures a.host == pre + b.host && SubdomainPrefix(pre)
  {
    var slash := Find(url, '/');
    var own := url[slash - |a.host|..slash];
    assert own == a.host;
    assert |a.host| >= |b.host|;
    pre := a.host[..|a.host| - |b.host|];
    assert a.host[|a.host| - |b.host|..] == url[slash - |b.host|..slash] == b.host;
    if pre != "" {
      assert pre[|pre| - 1] == own[|pre| - 1] == url[slash - |b.host| - 1];
    }
  }

  lemma HostNarrower(a: Pattern, b: Pattern, pre: string, u: string)
    requires WellFormed(a) && WellFormed(b) && '/' in u && Matches(a, u)
    requires b.kind.AllSubdomains? && a.host == pre + b.host && SubdomainPrefix(pre)
    ensures Matches(b, u)
  {
    EndOfHost(u, Find(u, '/'), pre, b.host);
  }

  lemma EndOfHost(u: string, slash: nat, pre: string, host: string)
    requires |pre + host| <= slash <= |u| && u[slash - |pre + host|..slash] == pre + host
    ensures u[slash - |host|..slash] == host
    ensures pre != "" ==> u[slash - |host| - 1] == pre[|pre| - 1]
  {
    var own := u[slash - |pre + host|..slash];
    assert u[slash - |host|..slash] == own[|pre|..] == host;
    assert pre != "" ==> u[slash - |host| - 1] == own[|pre| - 1];
  }

  lemma WiderHost(a: Pattern, b: Pattern)
    requires WellFormed(a) && WellFormed(b) && b.kind.AllSubdomains? && (a.kind.DomainWithPath? || |a.host| > |b.host|)
    ensures MatchesMore(a, b)
  {
    var pre := if a.kind.DomainWithPath? then a.host + "." else "";
    var u := pre + b.host + "/" + "";
    assert Reads(u, pre, b.host, "");
    SubdomainMatching(b, u, pre, "");
    FirstSlash(pre + b.host, "");
    assert Find(u, '/') == |pre| + |b.host|;
    assert !Matches(a, u);
  }

  /** What a URL that matches reads at its first slash. */
  lemma ReadsAtSlash(p: Pattern, url: string)
    requires p.kind.DomainWithPath? && '/' in url && Matches(p, url)
    ensures var slash := Find(url, '/'); url[..slash] == p.host && p.path <= url[slash..]
  {
    var slash := Find(url, '/');
    assert url[0..slash] == url[..slash];
    assert url[slash..][..|p.path|] == url[slash..slash + |p.path|];
  }

  lemma PrefixOfRest(s: string, k: nat, part: string)
    requires k <= |s|
    ensures part <= s[k..] <==> k + |part| <= |s| && s[k..k + |part|] == part
  {
    if k + |part| <= |s| {
      assert s[k..][..|part|] == s[k..k + |part|];
    }
  }

  lemma MatchesAtSlash(p: Pattern, url: string)
    requires WellFormed(p) && p.kind.DomainWithPath? && '/' in url
    requires var slash := Find(url, '/'); url[..slash] == p.host && p.path <= url[slash..]
    ensures Matches(p, url)
  {
    PrefixOfRest(url, Find(url, '/'), p.path);
    assert url[0..Find(url, '/')] == url[..Find(url, '/')];
  }

  lemma PrefixesNest(p: string, q: string, s: string)
    requires p <= s && q <= s && |p| <= |q|
    ensures p <= q
  {
  }

  lemma OwnAddressMatches(p: Pattern)
    requires WellFormed(p) && p.kind.DomainWithPath?
    ensures '/' in p.id && Find(p.id, '/') == |p.host| && Matches(p, p.id)
  {
    assert p.id + "" == p.id == p.host + p.path + "";
    assert ReadsPath(p.id, p.host, p.path, "");
    PathMatching(p, p.id, "");
    FirstSlash(p.host, p.path[1..]);
    assert p.id == p.host + "/" + p.path[1..];
  }

  lemma LongerPathNarrower(a: Pattern, b: Pattern, url: string)
    requires WellFormed(a) && WellFormed(b) && '/' in url && Matches(a, url) && Matches(b, url) && Above(a, b)
    requires a.kind.DomainWithPath? && b.kind.DomainWithPath?
    ensures MatchesAll(a, b) && MatchesMore(a, b)
  {
    ReadsAtSlash(a, url);
    ReadsAtSlash(b, url);
    PrefixesNest(b.path, a.path, url[Find(url, '/')..]);
    forall u: string | '/' in u && Matches(a, u) ensures Matches(b, u) {
      ReadsAtSlash(a, u);
      MatchesAtSlash(b, u);
    }
    OwnAddressMatches(b);
    assert |b.id| - |b.host| < |a.path|;
    assert !Matches(a, b.id);
  }

  lemma SuffixOfBoth(s: string, t: string, url: string, end: nat)
    requires |s| <= |t| <= end <= |url| && url[end - |s|..end] == s && url[end - |t|..end] == t
    ensures IsSuffix(s, t)
    ensures |s| == |t| ==> s == t
  {
    forall i | 0 <= i < |s| ensures t[|t| - |s|..][i] == s[i] {
      assert t[|t| - |s| + i] == url[end - |s| + i];
    }
  }

  // ---------------------------------------------------------------- The best match

  predicate AllWellFormed(patterns: seq<Pattern>) {
    forall i | 0 <= i < |patterns| :: WellFormed(patterns[i])
  }

  /** The pattern `p` matches and is more specific than any other pattern that matches. */
  ghost predicate IsBest(p: Pattern, patterns: set<Pattern>, url: string)
    requires '/' in url
  {
    p in patterns && Matches(p, url) && forall q | q in patterns && q != p && Matches(q, url) :: Above(p, q)
  }

  lemma AboveTransitive(a: Pattern, b: Pattern, c: Pattern)
    requires Above(a, b) && Above(b, c)
    ensures Above(a, c)
  {
  }

  lemma BestIsUnique(p: Pattern, q: Pattern, patterns: set<Pattern>, url: string)
    requires '/' in url && IsBest(p, patterns, url) && IsBest(q, patterns, url)
    ensures p == q
  {
    if p != q {
      assert Above(p, q) && Above(q, p);
      AboveTransitive(p, q, p);
    }
  }

  /** The chosen pattern, if any matches at all. */
  ghost predicate Chosen(best: Option<Pattern>, patterns: set<Pattern>, url: string)
    requires '/' in url
  {
    match best
    case None => forall p | p in patterns :: !Matches(p, url)
    case Some(p) => IsBest(p, patterns, url)
  }

  lemma ChosenIsUnique(a: Option<Pattern>, b: Option<Pattern>, patterns: set<Pattern>, url: string)
    requires '/' in url && Chosen(a, patterns, url) && Chosen(b, patterns, url)
    ensures a == b
  {
    if a.Some? && b.Some? {
      BestIsUnique(a.value, b.value, patterns, url);
    }
  }

  /** The choice does not change with a pattern that is not chosen. */
  lemma ChosenIgnoresOthers(best: Option<Pattern>, p: Pattern, patterns: set<Pattern>, url: string)
    requires '/' in url && p !in patterns && best != Some(p)
    ensures Chosen(best, patterns + {p}, url) ==> Chosen(best, patterns, url)
    ensures Chosen(best, patterns, url) && (Matches(p, url) ==> best.Some? && Above(best.value, p))
        ==> Chosen(best, patterns + {p}, url)
  {
  }

  lemma ChosenMore(best: Option<Pattern>, p: Pattern, patterns: set<Pattern>, url: string)
    requires '/' in url && Chosen(best, patterns, url) && Matches(p, url)
    requires WellFormed(p) && best.Some? ==> WellFormed(best.value)
    requires best.Some? ==> p == best.value || Above(p, best.value) != Above(best.value, p)
    ensures Chosen(if best.None? || Above(p, best.value) then Some(p) else best, patterns + {p}, url)
  {
    if best.Some? && Above(p, best.value) {
      forall q | q in patterns && q != p && Matches(q, url) ensures Above(p, q) {
        if q != best.value {
          AboveTransitive(p, best.value, q);
        }
      }
    }
  }

  function Patterns(patterns: seq<Pattern>): set<Pattern> {
    set p | p in patterns
  }

  /**
    At most one rule is chosen: the most specific one that matches. The comparisons on the way never
    meet two patterns that cannot be compared, whatever the order of the rules.
    */
  method SelectBestMatching(patterns: seq<Pattern>, url: string) returns (ids: seq<string>)
    requires '/' in url && AllWellFormed(patterns)
    ensures ids == [] ==> forall p | p in patterns :: !Matches(p, url)
    ensures ids != [] ==> exists p :: IsBest(p, Patterns(patterns), url) && ids == [p.id]
  {
    var bestMatching: Option<Pattern> := None;
    for i := 0 to |patterns|
      invariant Chosen(bestMatching, Patterns(patterns[..i]), url)
      invariant bestMatching.Some? ==> WellFormed(bestMatching.value)
    {
      var p := patterns[i];
      assert Patterns(patterns[..i + 1]) == Patterns(patterns[..i]) + {p} by {
        assert patterns[..i + 1] == patterns[..i] + [p];
      }
      if Matches(p, url) {
        if bestMatching.Some? {
          AlwaysComparable(p, bestMatching.value, url);
        }
        ChosenMore(bestMatching, p, Patterns(patterns[..i]), url);
        if bestMatching.None? {
          bestMatching := Some(p);
        } else {
          var more := MoreSpecific(p, bestMatching.value);
          assert more.Some?;
          if more.value {
            bestMatching := Some(p);
          }
        }
      }
    }
    assert patterns[..|patterns|] == patterns;
    ids := if bestMatching.Some? then [bestMatching.value.id] else [];
  }

  /** The choice is the same for every order of the rules. */
  lemma OrderIsIrrelevant(a: seq<Pattern>, b: seq<Pattern>, bestA: Option<Pattern>, bestB: Option<Pattern>, url: string)
    requires '/' in url && multiset(a) == multiset(b)
    requires Chosen(bestA, Patterns(a), url) && Chosen(bestB, Patterns(b), url)
    ensures bestA == bestB
  {
    assert Patterns(a) == Patterns(b) by {
      forall p ensures p in a <==> p in b {
        assert p in multiset(a) <==> p in multiset(b);
      }
    }
    ChosenIsUnique(bestA, bestB, Patterns(a), url);
  }

  /** Some choice can always be made. */
  lemma {:induction false} ChoiceExists(patterns: set<Pattern>, url: string) returns (best: Option<Pattern>)
    requires '/' in url && forall p | p in patterns :: WellFormed(p)
    ensures Chosen(best, patterns, url)
    decreases |patterns|
  {
    if patterns == {} {
      best := None;
    } else {
      var p :| p in patterns;
      var rest := patterns - {p};
      assert patterns == rest + {p};
      best := ChoiceExists(rest, url);
      if Matches(p, url) {
        if best.Some? {
          AlwaysComparable(p, best.value, url);
        }
        ChosenMore(best, p, rest, url);
        best := if best.None? || Above(p, best.value) then Some(p) else best;
      }
    }
  }
}

/**
 Image names in the image saver (`pkg/image/save`): parsing, the canonical full name, and the removal of
 duplicates before pulling.  Lower-casing is any function on strings.
 */
module SaveNames {
  import opened Options
  import opened Text

  type Lower = string -> string

  datatype Named = Named(domain: string, repo: string, tag: string)

  const DEFAULT_DOMAIN := "docker.io"

  /** `FullName` */
  function FullName(n: Named): string
  {
    n.domain + "/" + n.repo + ":" + n.tag
  }

  /** The part before the first slash names a registry. */
  predicate NamesDomain(x: string, lower: Lower)
  {
    '.' in x || ':' in x || x == "localhost" || lower(x) != x
  }

  /** `library/` is put before a name without a slash on the default registry. */
  function Official(domain: string, remainder: string): string
  {
    if domain == DEFAULT_DOMAIN && '/' !in remainder then "library/" + remainder else remainder
  }

  function Canonical(domain: string): string
  {
    if domain == "index.docker.io" then DEFAULT_DOMAIN else domain
  }

  /** `splitDockerDomain` */
  function SplitDomain(name: string, registry: string, lower: Lower): (string, string)
  {
    var i := IndexOf(name, '/');
    var (domain, remainder) :=
      if i == |name| || !NamesDomain(name[..i], lower)
      then (if registry != "" then registry else DEFAULT_DOMAIN, name)
      else (name[..i], name[i + 1..]);
    (Canonical(domain), Official(Canonical(domain), remainder))
  }

  /** The repository and the tag of a remainder. */
  function SplitTag(remainder: string): (string, string)
  {
    var i := IndexOf(remainder, ':');
    if i == |remainder| then (remainder, "latest") else (remainder[..i], remainder[i + 1..])
  }

  /** `ParseNormalizedNamed` */
  function Parse(s: string, registry: string, lower: Lower): Option<Named>
  {
    var (domain, remainder) := SplitDomain(s, registry, lower);
    var (repo, tag) := SplitTag(remainder);
    if lower(repo) != repo then None else Some(Named(domain, repo, tag))
  }

  // ---------------------------------------------------------------- re-parsing

  /** What the domain of every parsed name satisfies. */
  ghost predicate DomainOk(domain: string, lower: Lower)
  {
    '/' !in domain && NamesDomain(domain, lower) && Canonical(domain) == domain
  }

  /** The name itself says which registry it comes from. */
  predicate HasDomain(name: string, lower: Lower)
  {
    var i := IndexOf(name, '/');
    i < |name| && NamesDomain(name[..i], lower)
  }

  /** What a domain must look like to be read back: the names' own domains do, and a configured registry may. */
  ghost predicate ReadsBack(name: string, registry: string, lower: Lower)
  {
    HasDomain(name, lower) || registry == "" || ('/' !in Canonical(registry) && NamesDomain(Canonical(registry), lower))
  }

  lemma SplitDomainOk(name: string, registry: string, lower: Lower)
    requires ReadsBack(name, registry, lower)
    ensures var (domain, remainder) := SplitDomain(name, registry, lower);
            DomainOk(domain, lower) && (domain == DEFAULT_DOMAIN ==> '/' in remainder)
  {
    var i := IndexOf(name, '/');
    assert DEFAULT_DOMAIN[6] == '.';
    if HasDomain(name, lower) {
      OfficialHasSlash(name[i + 1..]);
    } else {
      OfficialHasSlash(name);
    }
  }

  lemma OfficialHasSlash(remainder: string)
    ensures '/' in Official(DEFAULT_DOMAIN, remainder)
  {
    assert ("library/" + remainder)[7] == '/';
  }

  lemma SplitTagOk(remainder: string)
    ensures var (repo, tag) := SplitTag(remainder);
            ':' !in repo && SplitTag(repo + ":" + tag) == (repo, tag) && ('/' in remainder ==> '/' in repo + ":" + tag)
  {
    IndexNone(remainder, ':');
    var (repo, tag) := SplitTag(remainder);
    IndexAfter(repo, ':', tag);
    assert repo + [':'] + tag == repo + ":" + tag;
    var i := IndexOf(remainder, ':');
    if i < |remainder| {
      assert remainder == remainder[..i] + ":" + remainder[i + 1..];
    }
  }

  lemma SplitDomainOfFull(domain: string, rest: string, registry: string, lower: Lower)
    requires DomainOk(domain, lower) && (domain == DEFAULT_DOMAIN ==> '/' in rest)
    ensures SplitDomain(domain + "/" + rest, registry, lower) == (domain, rest)
  {
    IndexAfter(domain, '/', rest);
    assert domain + ['/'] + rest == domain + "/" + rest;
  }

  lemma ParseOfParts(x: string, registry: string, domain: string, rest: string, repo: string, tag: string, lower: Lower)
    requires SplitDomain(x, registry, lower) == (domain, rest) && SplitTag(rest) == (repo, tag)
    ensures Parse(x, registry, lower) == if lower(repo) != repo then None else Some(Named(domain, repo, tag))
  {
  }

  lemma FullNameParts(domain: string, repo: string, tag: string)
    ensures FullName(Named(domain, repo, tag)) == domain + "/" + (repo + ":" + tag)
  {
  }

  /** The parts of a name come back out of its full name. */
  lemma PartsOfFull(s: string, registry: string, domain: string, remainder: string, repo: string, tag: string,
                    lower: Lower)
    requires ReadsBack(s, registry, lower)
    requires SplitDomain(s, registry, lower) == (domain, remainder) && SplitTag(remainder) == (repo, tag)
    ensures SplitDomain(FullName(Named(domain, repo, tag)), registry, lower) == (domain, repo + ":" + tag)
    ensures SplitTag(repo + ":" + tag) == (repo, tag)
  {
    SplitDomainOk(s, registry, lower);
    SplitTagOk(remainder);
    SplitDomainOfFull(domain, repo + ":" + tag, registry, lower);
    FullNameParts(domain, repo, tag);
  }

  lemma ReparseWhenReadBack(s: string, registry: string, lower: Lower)
    requires Parse(s, registry, lower).Some? && ReadsBack(s, registry, lower)
    ensures Parse(FullName(Parse(s, registry, lower).value), registry, lower) == Parse(s, registry, lower)
  {
    var (domain, remainder) := SplitDomain(s, registry, lower);
    var (repo, tag) := SplitTag(remainder);
    PartsOfFull(s, registry, domain, remainder, repo, tag, lower);
    ParseOfParts(FullName(Named(domain, repo, tag)), registry, domain, repo + ":" + tag, repo, tag, lower);
  }

  lemma CanonicalKeepsNoSlash(x: string)
    requires '/' !in x
    ensures '/' !in Canonical(x)
  {
  }

  /** The domain read from a full name whose domain cannot be read back is another one, or nothing is split off. */
  lemma DomainIsLost(domain: string, rest: string, registry: string, lower: Lower)
    requires registry != "" && domain == Canonical(registry) && ('/' in domain || !NamesDomain(domain, lower))
    ensures var (d, r) := SplitDomain(domain + "/" + rest, registry, lower);
            d != domain || r == domain + "/" + rest
  {
    var full := domain + "/" + rest;
    assert full[|domain|] == '/';
    var i := IndexOf(full, '/');
    IndexNone(full, '/');
    assert DEFAULT_DOMAIN[6] == '.';
    if i < |domain| {
      assert full[..i] == domain[..i];
      assert domain[i] == full[i] == '/';
      CanonicalKeepsNoSlash(full[..i]);
    } else {
      assert full[..|domain|] == domain;
    }
  }

  lemma TagLength(full: string)
    requires ':' in full
    ensures var (repo, tag) := SplitTag(full); |repo| + |tag| + 1 == |full|
  {
    IndexNone(full, ':');
  }

  lemma ReparseFails(s: string, registry: string, lower: Lower)
    requires Parse(s, registry, lower).Some? && !ReadsBack(s, registry, lower)
    ensures Parse(FullName(Parse(s, registry, lower).value), registry, lower) != Parse(s, registry, lower)
  {
    var n := Parse(s, registry, lower).value;
    FullNameParts(n.domain, n.repo, n.tag);
    DomainIsLost(n.domain, n.repo + ":" + n.tag, registry, lower);
    assert (n.repo + ":" + n.tag)[|n.repo|] == ':';
    TagLength(FullName(n));
  }

  /** Parsing a full name gives the same name again if and only if the registry can be read off it: the name has
      a domain of its own, no registry is configured, or the configured one has no slash and looks like a domain. */
  lemma ReparseExactly(s: string, registry: string, lower: Lower)
    requires Parse(s, registry, lower).Some?
    ensures Parse(FullName(Parse(s, registry, lower).value), registry, lower) == Parse(s, registry, lower) <==>
            ReadsBack(s, registry, lower)
  {
    if ReadsBack(s, registry, lower) {
      ReparseWhenReadBack(s, registry, lower);
    } else {
      ReparseFails(s, registry, lower);
    }
  }

  /** Under a registry with a path, the full name of a plain image is read back as another name. */
  lemma RegistryPathIsLost(image: string, registry: string, lower: Lower)
    requires '/' !in image && ':' !in image && lower(image) == image && '/' in registry
    ensures Parse(image, registry, lower) == Some(Named(registry, image, "latest"))
    ensures Parse(FullName(Named(registry, image, "latest")), registry, lower) != Some(Named(registry, image, "latest"))
  {
    IndexNone(image, '/');
    IndexNone(image, ':');
    assert '/' !in "index.docker.io" && '/' !in DEFAULT_DOMAIN;
    assert Parse(image, registry, lower) == Some(Named(registry, image, "latest"));
    ReparseExactly(image, registry, lower);
  }

  /** For every accepted name, parsing its full name gives the same name again when no registry is configured. */
  lemma ReparseFullName(s: string, lower: Lower)
    requires Parse(s, "", lower).Some?
    ensures Parse(FullName(Parse(s, "", lower).value), "", lower) == Parse(s, "", lower)
  {
    ReparseWhenReadBack(s, "", lower);
  }

  /** The full name tells parsed names apart. */
  lemma FullNameInjective(s: string, t: string, lower: Lower)
    requires Parse(s, "", lower).Some? && Parse(t, "", lower).Some?
    requires FullName(Parse(s, "", lower).value) == FullName(Parse(t, "", lower).value)
    ensures Parse(s, "", lower) == Parse(t, "", lower)
  {
    ReparseFullName(s, lower);
    ReparseFullName(t, lower);
  }

  // ---------------------------------------------------------------- what a name is read as, field by field

  lemma SplitTagOf(repo: string, tag: string)
    requires ':' !in repo
    ensures SplitTag(repo + ":" + tag) == (repo, tag) && SplitTag(repo) == (repo, "latest")
  {
    IndexAfter(repo, ':', tag);
    assert repo + [':'] + tag == repo + ":" + tag;
    IndexNone(repo, ':');
  }

  /** `domain/repo:tag` with a domain of its own, whatever the configured registry. */
  lemma ParsesQualified(domain: string, repo: string, tag: string, registry: string, lower: Lower)
    requires '.' in domain || ':' in domain || domain == "localhost" || lower(domain) != domain
    requires '/' !in domain && ':' !in repo && domain != "docker.io" && domain != "index.docker.io"
    ensures Parse(domain + "/" + repo + ":" + tag, registry, lower) ==
            if lower(repo) != repo then None else Some(Named(domain, repo, tag))
    ensures Parse(domain + "/" + repo, registry, lower) ==
            if lower(repo) != repo then None else Some(Named(domain, repo, "latest"))
  {
    var rest := repo + ":" + tag;
    IndexAfter(domain, '/', rest);
    assert domain + ['/'] + rest == domain + "/" + repo + ":" + tag;
    IndexAfter(domain, '/', repo);
    assert domain + ['/'] + repo == domain + "/" + repo;
    SplitTagOf(repo, tag);
  }

  lemma DefaultParts(domain: string, rest: string)
    requires '/' !in domain
    ensures IndexOf(domain + "/" + rest, '/') == |domain|
    ensures (domain + "/" + rest)[..|domain|] == domain && (domain + "/" + rest)[|domain| + 1..] == rest
  {
    IndexAfter(domain, '/', rest);
    assert domain + ['/'] + rest == domain + "/" + rest;
  }

  lemma DefaultSplits(domain: string, rest: string, registry: string, lower: Lower)
    requires '/' !in domain && '.' in domain && Canonical(domain) == "docker.io"
    ensures SplitDomain(domain + "/" + rest, registry, lower) ==
            ("docker.io", if '/' in rest then rest else "library/" + rest)
  {
    DefaultParts(domain, rest);
  }

  lemma DefaultNames()
    ensures '.' in "docker.io" && '/' !in "docker.io" && '.' in "index.docker.io" && '/' !in "index.docker.io"
  {
    assert "docker.io"[6] == '.' && "index.docker.io"[5] == '.';
  }

  function OfficialRepo(repo: string): string
  {
    if '/' in repo then repo else "library/" + repo
  }

  lemma OfficialTagged(repo: string, tag: string)
    requires ':' !in repo && '/' !in tag
    ensures ':' !in OfficialRepo(repo)
    ensures (if '/' in repo + ":" + tag then repo + ":" + tag else "library/" + (repo + ":" + tag)) ==
            OfficialRepo(repo) + ":" + tag
  {
    assert '/' in repo + ":" + tag <==> '/' in repo;
    assert "library/" + (repo + ":" + tag) == "library/" + repo + ":" + tag;
  }

  /** The two names of the default registry mean the same, and there a repository without a path is an official one. */
  lemma ParsesDefault(domain: string, repo: string, tag: string, registry: string, lower: Lower)
    requires ':' !in repo && '/' !in tag && (domain == "docker.io" || domain == "index.docker.io")
    ensures var full := if '/' in repo then repo else "library/" + repo;
            Parse(domain + "/" + (repo + ":" + tag), registry, lower) ==
            if lower(full) != full then None else Some(Named("docker.io", full, tag))
  {
    var rest, full := repo + ":" + tag, OfficialRepo(repo);
    DefaultNames();
    DefaultSplits(domain, rest, registry, lower);
    OfficialTagged(repo, tag);
    SplitTagOf(full, tag);
    ParseOfParts(domain + "/" + rest, registry, "docker.io", full + ":" + tag, full, tag, lower);
  }

  /** A plain name belongs to the configured registry, or is an official image of the default one. */
  lemma ParsesPlain(image: string, tag: string, registry: string, lower: Lower)
    requires '/' !in image && ':' !in image && '/' !in tag
    requires registry != "docker.io" && registry != "index.docker.io"
    ensures var repo := if registry == "" then "library/" + image else image;
            var domain := if registry == "" then "docker.io" else registry;
            && Parse(image + ":" + tag, registry, lower) ==
               (if lower(repo) != repo then None else Some(Named(domain, repo, tag)))
            && Parse(image, registry, lower) ==
               (if lower(repo) != repo then None else Some(Named(domain, repo, "latest")))
  {
    var name, repo := image + ":" + tag, if registry == "" then "library/" + image else image;
    IndexNone(name, '/');
    IndexNone(image, '/');
    assert "library/" + name == "library/" + image + ":" + tag;
    SplitTagOf(repo, tag);
  }

  // ---------------------------------------------------------------- duplicates

  type Parser = string -> Option<Named>

  /** Parsing as `SaveImages` does it, without a registry. */
  function Plain(lower: Lower): Parser
  {
    (s: string) => Parse(s, "", lower)
  }

  /** The parsed names of the images; `None` if one is refused. */
  function ParseAll(images: seq<string>, parse: Parser): Option<seq<Named>>
  {
    if images == [] then Some([])
    else
      var front, last := ParseAll(images[..|images| - 1], parse), parse(images[|images| - 1]);
      if front.None? || last.None? then None else Some(front.value + [last.value])
  }

  /** The names in the order of their first occurrence, each once. */
  function Distinct(names: seq<Named>): seq<Named>
  {
    if names == [] then []
    else
      var front, n := names[..|names| - 1], names[|names| - 1];
      if n in front then Distinct(front) else Distinct(front) + [n]
  }

  function Absent(names: seq<Named>, onDisk: Named -> bool): seq<Named>
  {
    if names == [] then []
    else
      var n := names[|names| - 1];
      Absent(names[..|names| - 1], onDisk) + if onDisk(n) then [] else [n]
  }

  lemma {:induction false} ParseAllParsed(images: seq<string>, parse: Parser, k: nat)
    requires ParseAll(images, parse).Some? && k < |images|
    ensures |ParseAll(images, parse).value| == |images| && parse(images[k]) == Some(ParseAll(images, parse).value[k])
  {
    var n := |images| - 1;
    if n > 0 {
      ParseAllParsed(images[..n], parse, if k < n then k else 0);
    }
  }

  lemma {:induction false} ParseAllFails(images: seq<string>, parse: Parser, k: nat)
    requires k <= |images| && ParseAll(images[..k], parse).None?
    ensures ParseAll(images, parse).None?
  {
    var n := |images| - 1;
    if k <= n {
      assert images[..n][..k] == images[..k];
      ParseAllFails(images[..n], parse, k);
    } else {
      assert images[..k] == images;
    }
  }

  /** The keys of the duplicate check, full names, stand for the names themselves. */
  ghost predicate Flags(seen: set<string>, names: seq<Named>, parse: Parser)
  {
    && (forall n <- names :: FullName(n) in seen)
    && (forall f <- seen :: exists n :: n in names && FullName(n) == f)
    && (forall n <- names :: parse(FullName(n)) == Some(n))
  }

  lemma FlagsDecide(seen: set<string>, names: seq<Named>, n: Named, parse: Parser)
    requires Flags(seen, names, parse) && parse(FullName(n)) == Some(n)
    ensures FullName(n) in seen <==> n in names
    ensures Flags(seen + {FullName(n)}, names + [n], parse)
  {
    if FullName(n) in seen {
      var m :| m in names && FullName(m) == FullName(n);
    }
    forall f | f in seen + {FullName(n)} ensures exists m :: m in names + [n] && FullName(m) == f {
      if f in seen {
        var m :| m in names && FullName(m) == f;
        assert m in names + [n];
      } else {
        assert n in names + [n];
      }
    }
  }

  /** Parsing the full name of any parsed name gives the name again. */
  ghost predicate Stable(parse: Parser)
  {
    forall s {:trigger parse(s)} :: parse(s).Some? ==> parse(FullName(parse(s).value)) == parse(s)
  }

  lemma PlainIsStable(lower: Lower)
    ensures Stable(Plain(lower))
  {
    forall s | Plain(lower)(s).Some? ensures Plain(lower)(FullName(Plain(lower)(s).value)) == Plain(lower)(s) {
      ReparseFullName(s, lower);
    }
  }

  function Pulls(images: seq<string>, onDisk: Named -> bool, parse: Parser): Option<seq<Named>>
  {
    if ParseAll(images, parse).None? then None else Some(Absent(Distinct(ParseAll(images, parse).value), onDisk))
  }

  /** The loop over the images, for any stable way of parsing. */
  method Collect(images: seq<string>, onDisk: Named -> bool, parse: Parser) returns (r: Option<seq<Named>>)
    requires Stable(parse)
    ensures r == Pulls(images, onDisk, parse)
  {
    var pull: seq<Named>, seen: set<string> := [], {};
    ghost var names: seq<Named> := [];
    for k := 0 to |images|
      invariant ParseAll(images[..k], parse) == Some(names)
      invariant Flags(seen, names, parse) && pull == Absent(Distinct(names), onDisk)
    {
      assert images[..k + 1][..k] == images[..k];
      var parsed := parse(images[k]);
      if parsed.None? {
        ParseAllFails(images, parse, k + 1);
        return None;
      }
      var n := parsed.value;
      FlagsDecide(seen, names, n, parse);
      AbsentSnoc(Distinct(names), n, onDisk);
      DistinctSnoc(names, n);
      if FullName(n) !in seen && !onDisk(n) {
        pull := pull + [n];
      }
      seen, names := seen + {FullName(n)}, names + [n];
    }
    assert images[..|images|] == images;
    return Some(pull);
  }

  /** The first loop of `SaveImages`: the names to pull. */
  method NamesToPull(images: seq<string>, onDisk: Named -> bool, lower: Lower) returns (r: Option<seq<Named>>)
    ensures r == Pulls(images, onDisk, Plain(lower))
  {
    PlainIsStable(lower);
    r := Collect(images, onDisk, Plain(lower));
  }

  lemma DistinctSnoc(names: seq<Named>, n: Named)
    ensures Distinct(names + [n]) == if n in names then Distinct(names) else Distinct(names) + [n]
  {
    assert (names + [n])[..|names|] == names;
  }

  lemma AbsentSnoc(names: seq<Named>, n: Named, onDisk: Named -> bool)
    ensures Absent(names + [n], onDisk) == Absent(names, onDisk) + if onDisk(n) then [] else [n]
  {
    assert (names + [n])[..|names|] == names;
  }

  lemma {:induction false} DistinctExactly(names: seq<Named>)
    ensures forall n :: n in Distinct(names) <==> n in names
    ensures forall i, j :: 0 <= i < j < |Distinct(names)| ==> Distinct(names)[i] != Distinct(names)[j]
  {
    if names != [] {
      var front := names[..|names| - 1];
      DistinctExactly(front);
      assert forall n :: n in names <==> n in front || n == names[|names| - 1];
    }
  }

  lemma {:induction false} AbsentExactly(names: seq<Named>, onDisk: Named -> bool)
    requires forall i, j :: 0 <= i < j < |names| ==> names[i] != names[j]
    ensures forall n :: n in Absent(names, onDisk) <==> n in names && !onDisk(n)
    ensures forall i, j :: 0 <= i < j < |Absent(names, onDisk)| ==> Absent(names, onDisk)[i] != Absent(names, onDisk)[j]
  {
    if names != [] {
      var front, n := names[..|names| - 1], names[|names| - 1];
      AbsentExactly(front, onDisk);
      assert n !in front;
      assert forall m :: m in names <==> m in front || m == n;
    }
  }

  /** The duplicate check is exact: each image that is not on disk is pulled once, however it was written. */
  lemma PullsEachOnce(images: seq<string>, onDisk: Named -> bool, parse: Parser)
    requires Pulls(images, onDisk, parse).Some?
    ensures var pull := Pulls(images, onDisk, parse).value;
            && (forall i, j :: 0 <= i < j < |pull| ==> pull[i] != pull[j])
            && (forall k :: 0 <= k < |images| ==>
                  parse(images[k]).Some? && (parse(images[k]).value in pull <==> !onDisk(parse(images[k]).value)))
            && (forall n <- pull :: exists k :: 0 <= k < |images| && parse(images[k]) == Some(n))
  {
    var names := ParseAll(images, parse).value;
    DistinctExactly(names);
    AbsentExactly(Distinct(names), onDisk);
    ParseAllLength(images, parse);
    forall k | 0 <= k < |images|
      ensures parse(images[k]).Some? && parse(images[k]).value in Distinct(names)
    {
      ParseAllParsed(images, parse, k);
      assert names[k] in names;
    }
    forall n | n in Absent(Distinct(names), onDisk)
      ensures exists k :: 0 <= k < |images| && parse(images[k]) == Some(n)
    {
      var k :| 0 <= k < |names| && names[k] == n;
      ParseAllParsed(images, parse, k);
    }
  }

  lemma {:induction false} ParseAllLength(images: seq<string>, parse: Parser)
    requires ParseAll(images, parse).Some?
    ensures |ParseAll(images, parse).value| == |images|
  {
    if images != [] {
      ParseAllLength(images[..|images| - 1], parse);
    }
  }

  /** The list is refused exactly when one of the names is. */
  lemma {:induction false} PullsRefusesExactly(images: seq<string>, onDisk: Named -> bool, parse: Parser)
    ensures Pulls(images, onDisk, parse) == None <==> exists k :: 0 <= k < |images| && parse(images[k]) == None
  {
    if images != [] {
      var front, last := images[..|images| - 1], images[|images| - 1];
      PullsRefusesExactly(front, onDisk, parse);
      assert images == front + [last];
      assert images[|front|] == last && forall k :: 0 <= k < |front| ==> images[k] == front[k];
    }
  }

  /** `n` first occurs at place `k`. */
  ghost predicate FirstAt(names: seq<Named>, n: Named, k: nat)
  {
    k < |names| && names[k] == n && forall j :: 0 <= j < k ==> names[j] != n
  }

  lemma {:induction false} DistinctInOrder(names: seq<Named>, i: nat, j: nat, p: nat, q: nat)
    requires i < j < |Distinct(names)| && FirstAt(names, Distinct(names)[i], p) && FirstAt(names, Distinct(names)[j], q)
    ensures p < q
  {
    var front, n := names[..|names| - 1], names[|names| - 1];
    assert names == front + [n];
    DistinctExactly(front);
    FirstBefore(front, n, Distinct(names)[i], p);
    if j < |Distinct(front)| {
      FirstBefore(front, n, Distinct(names)[j], q);
      DistinctInOrder(front, i, j, p, q);
    } else {
      assert n !in front;
    }
  }

  lemma FirstBefore(front: seq<Named>, last: Named, n: Named, k: nat)
    requires FirstAt(front + [last], n, k) && n in front
    ensures FirstAt(front, n, k)
  {
    var i :| 0 <= i < |front| && front[i] == n;
    assert (front + [last])[i] == n;
    assert forall j :: 0 <= j < |front| ==> (front + [last])[j] == front[j];
  }

  lemma {:induction false} AbsentKeepsOrder(names: seq<Named>, onDisk: Named -> bool, i: nat, j: nat)
    returns (a: nat, b: nat)
    requires i < j < |Absent(names, onDisk)|
    ensures a < b < |names| && names[a] == Absent(names, onDisk)[i] && names[b] == Absent(names, onDisk)[j]
  {
    var front := names[..|names| - 1];
    if j < |Absent(front, onDisk)| {
      a, b := AbsentKeepsOrder(front, onDisk, i, j);
    } else {
      assert Absent(names, onDisk)[i] in Absent(front, onDisk);
      AbsentIn(front, onDisk, Absent(names, onDisk)[i]);
      a :| 0 <= a < |front| && front[a] == Absent(names, onDisk)[i];
      b := |front|;
    }
  }

  lemma {:induction false} AbsentIn(names: seq<Named>, onDisk: Named -> bool, n: Named)
    requires n in Absent(names, onDisk)
    ensures n in names
  {
    if n in Absent(names[..|names| - 1], onDisk) {
      AbsentIn(names[..|names| - 1], onDisk, n);
    }
  }

  /** The images are pulled in the order in which their names first occur. */
  lemma PullsInOrder(images: seq<string>, onDisk: Named -> bool, parse: Parser, i: nat, j: nat, p: nat, q: nat)
    requires Pulls(images, onDisk, parse).Some? && i < j < |Pulls(images, onDisk, parse).value|
    requires FirstAt(ParseAll(images, parse).value, Pulls(images, onDisk, parse).value[i], p)
    requires FirstAt(ParseAll(images, parse).value, Pulls(images, onDisk, parse).value[j], q)
    ensures p < q
  {
    var names := ParseAll(images, parse).value;
    var a, b := AbsentKeepsOrder(Distinct(names), onDisk, i, j);
    DistinctInOrder(names, a, b, p, q);
  }
}
